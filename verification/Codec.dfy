/** The binary messages of the command endpoint: canonical variable-length integers, length-prefixed
UTF-8 strings, control and shutdown messages, and the four-byte length header before each message. */
module Codec {
  import opened Wrappers

  type Byte = b: int | 0 <= b < 0x100

  type U64 = n: int | 0 <= n < 0x1_0000_0000_0000_0000

  /** Bytes are numbers here, so no text is longer than a `usize` on a 64-bit platform can say. */
  const MAX_FRAME_BYTES: nat := 2 * 1024 * 1024

  datatype CodecError =
    | EndsEarly | InvalidIntegerTag | NoncanonicalInteger | NotUtf8 | TagTooWide | InvalidOptionTag
    | TrailingBytes | FrameTooLarge | RequestTooLarge | EmptyMessage | ResponseTooLarge | EarlyEof

  // ----- little-endian numbers -----

  function LittleEndian(n: nat, width: nat): (bytes: seq<Byte>)
    ensures |bytes| == width
  {
    if width == 0 then [] else [n % 0x100] + LittleEndian(n / 0x100, width - 1)
  }

  function FromLittleEndian(bytes: seq<Byte>): nat {
    if bytes == [] then 0 else bytes[0] + 0x100 * FromLittleEndian(bytes[1..])
  }

  function Pow256(width: nat): (p: nat)
    ensures p > 0
  {
    if width == 0 then 1 else 0x100 * Pow256(width - 1)
  }

  lemma {:induction false} BytesOfNumber(n: nat, width: nat)
    requires n < Pow256(width)
    ensures FromLittleEndian(LittleEndian(n, width)) == n
  {
    if width > 0 {
      BytesOfNumber(n / 0x100, width - 1);
    }
  }

  lemma {:induction false} NumberOfBytes(bytes: seq<Byte>)
    ensures FromLittleEndian(bytes) < Pow256(|bytes|)
    ensures LittleEndian(FromLittleEndian(bytes), |bytes|) == bytes
  {
    if bytes != [] {
      NumberOfBytes(bytes[1..]);
    }
  }

  lemma {:induction false} Widths()
    ensures Pow256(2) == 0x1_0000 && Pow256(4) == 0x1_0000_0000 && Pow256(8) == 0x1_0000_0000_0000_0000
  {
    assert Pow256(3) == 0x100_0000;
    assert Pow256(5) == 0x100_0000_0000;
    assert Pow256(7) == 0x100_0000_0000_0000;
  }

  // ----- text -----

  predicate Within(bytes: seq<Byte>, i: nat, low: Byte, high: Byte) {
    i < |bytes| && low <= bytes[i] <= high
  }

  predicate Continues(bytes: seq<Byte>, i: nat) {
    Within(bytes, i, 0x80, 0xBF)
  }

  /** The first two bytes can start a scalar value of three bytes. */
  predicate StartsThree(bytes: seq<Byte>) {
    || (Within(bytes, 0, 0xE0, 0xE0) && Within(bytes, 1, 0xA0, 0xBF))
    || (Within(bytes, 0, 0xE1, 0xEC) && Continues(bytes, 1))
    || (Within(bytes, 0, 0xED, 0xED) && Within(bytes, 1, 0x80, 0x9F))
    || (Within(bytes, 0, 0xEE, 0xEF) && Continues(bytes, 1))
  }

  /** The first two bytes can start a scalar value of four bytes. */
  predicate StartsFour(bytes: seq<Byte>) {
    || (Within(bytes, 0, 0xF0, 0xF0) && Within(bytes, 1, 0x90, 0xBF))
    || (Within(bytes, 0, 0xF1, 0xF3) && Continues(bytes, 1))
    || (Within(bytes, 0, 0xF4, 0xF4) && Within(bytes, 1, 0x80, 0x8F))
  }

  /** How many bytes the scalar value at the front takes, or zero when none is well formed there
      (table 3-7 of the Unicode Standard). */
  function ScalarWidth(bytes: seq<Byte>): (width: nat)
    ensures width <= |bytes|
  {
    if Within(bytes, 0, 0, 0x7F) then 1
    else if Within(bytes, 0, 0xC2, 0xDF) && Continues(bytes, 1) then 2
    else if StartsThree(bytes) && Continues(bytes, 2) then 3
    else if StartsFour(bytes) && Continues(bytes, 2) && Continues(bytes, 3) then 4
    else 0
  }

  predicate Utf8(bytes: seq<Byte>) {
    bytes == [] || (ScalarWidth(bytes) > 0 && Utf8(bytes[ScalarWidth(bytes)..]))
  }

  /** A string slice, by its bytes. Its length fits the `u64` it is written with. */
  type Text = t: seq<Byte> | Utf8(t) && |t| < 0x1_0000_0000_0000_0000

  /** Text written in ASCII characters. */
  function Ascii(s: string): (t: Text)
    requires |s| < 0x1_0000_0000_0000_0000
    requires forall i | 0 <= i < |s| :: s[i] < '\U{80}'
    ensures |t| == |s|
    ensures forall i | 0 <= i < |s| :: t[i] == s[i] as int
  {
    if s == [] then []
    else
      var later := Ascii(s[1..]);
      assert ([s[0] as int] + later)[1..] == later;
      [s[0] as int] + later
  }

  // ----- what the encoder writes -----

  function IntegerBytes(value: U64): seq<Byte> {
    if value <= 250 then [value]
    else if value < 0x1_0000 then [251] + LittleEndian(value, 2)
    else if value < 0x1_0000_0000 then [252] + LittleEndian(value, 4)
    else [253] + LittleEndian(value, 8)
  }

  function TextBytes(t: Text): seq<Byte> {
    IntegerBytes(|t|) + t
  }

  function ControlBytes(kind: Text, data: Text): seq<Byte> {
    [20] + TextBytes(kind) + TextBytes(data)
  }

  function ShutdownBytes(reason: Option<Text>): seq<Byte> {
    match reason
    case None => [3, 0]
    case Some(text) => [3, 1] + TextBytes(text)
  }

  predicate Encodable(kind: Text, data: Text) {
    |kind| + |data| <= MAX_FRAME_BYTES - 19
  }

  function WithHeader(payload: seq<Byte>): seq<Byte> {
    LittleEndian(|payload|, 4) + payload
  }

  lemma {:induction false} Halves(a: seq<Byte>, b: seq<Byte>)
    ensures (a + b)[..|a|] == a && (a + b)[|a|..] == b
  {
  }

  lemma {:induction false} Appended(a: seq<Byte>, b: seq<Byte>, c: seq<Byte>)
    ensures (a + b) + c == a + (b + c)
  {
  }

  /** Nineteen bytes always hold the tag and the two lengths, so a message the encoder accepts stays within
      the frame limit and its length within the four bytes of the header. */
  lemma {:induction false} ControlFits(kind: Text, data: Text)
    ensures |ControlBytes(kind, data)| <= |kind| + |data| + 19
    ensures Encodable(kind, data) ==> |ControlBytes(kind, data)| <= MAX_FRAME_BYTES < 0x1_0000_0000
  {
    assert |IntegerBytes(|kind|)| <= 9 && |IntegerBytes(|data|)| <= 9;
  }

  /** The growing byte vector the encoder writes to. */
  class ByteBuffer {
    var bytes: seq<Byte>

    constructor ()
      ensures bytes == []
    {
      bytes := [];
    }

    method EncodeInteger(value: U64)
      modifies this
      ensures bytes == old(bytes) + IntegerBytes(value)
    {
      ghost var was := bytes;
      if value <= 250 {
        bytes := bytes + [value];
      } else if value < 0x1_0000 {
        bytes := bytes + [251];
        bytes := bytes + LittleEndian(value, 2);
        Appended(was, [251], LittleEndian(value, 2));
      } else if value < 0x1_0000_0000 {
        bytes := bytes + [252];
        bytes := bytes + LittleEndian(value, 4);
        Appended(was, [252], LittleEndian(value, 4));
      } else {
        bytes := bytes + [253];
        bytes := bytes + LittleEndian(value, 8);
        Appended(was, [253], LittleEndian(value, 8));
      }
    }

    method EncodeString(value: Text)
      modifies this
      ensures bytes == old(bytes) + TextBytes(value)
    {
      ghost var was := bytes;
      EncodeInteger(|value|);
      bytes := bytes + value;
      Appended(was, IntegerBytes(|value|), value);
    }

    /** Writes one message with its header, in place of what the buffer held. */
    method EncodeControl(kind: Text, data: Text) returns (written: Result<(), CodecError>)
      modifies this
      ensures written == if Encodable(kind, data) then Ok(()) else Err(RequestTooLarge)
      ensures bytes == if Encodable(kind, data) then WithHeader(ControlBytes(kind, data)) else old(bytes)
    {
      if |kind| + |data| > MAX_FRAME_BYTES - 19 {
        return Err(RequestTooLarge);
      }
      bytes := [0, 0, 0, 0];
      bytes := bytes + [20];
      EncodeString(kind);
      EncodeString(data);
      ControlFits(kind, data);
      Appended([0, 0, 0, 0], [20], TextBytes(kind));
      Appended([0, 0, 0, 0], [20] + TextBytes(kind), TextBytes(data));
      assert bytes[4..] == ControlBytes(kind, data);
      if |bytes| - 4 >= 0x1_0000_0000 {
        return Err(RequestTooLarge);
      }
      bytes := LittleEndian(|bytes| - 4, 4) + bytes[4..];
      return Ok(());
    }
  }

  // ----- what the decoder reads -----

  /** What one read gave, and the bytes it left. */
  datatype Read<+T> = Read(result: Result<T, CodecError>, rest: seq<Byte>)

  function Take(bytes: seq<Byte>, length: nat): Read<seq<Byte>> {
    if length > |bytes| then Read(Err(EndsEarly), bytes) else Read(Ok(bytes[..length]), bytes[length..])
  }

  function WideInteger(bytes: seq<Byte>, width: nat, minimum: nat): Read<U64>
    requires width <= 8
  {
    var taken := Take(bytes, width);
    if taken.result.Err? then Read(Err(EndsEarly), taken.rest)
    else
      NumberOfBytes(taken.result.value);
      Widths();
      PowersGrow(width, 8);
      var value := FromLittleEndian(taken.result.value);
      Read(if value < minimum then Err(NoncanonicalInteger) else Ok(value), taken.rest)
  }

  lemma {:induction false} PowersGrow(a: nat, b: nat)
    requires a <= b
    ensures Pow256(a) <= Pow256(b)
    decreases b
  {
    if a < b {
      PowersGrow(a, b - 1);
    }
  }

  function ReadInteger(bytes: seq<Byte>): Read<U64> {
    if bytes == [] then Read(Err(EndsEarly), [])
    else if bytes[0] <= 250 then Read(Ok(bytes[0]), bytes[1..])
    else if bytes[0] == 251 then WideInteger(bytes[1..], 2, 251)
    else if bytes[0] == 252 then WideInteger(bytes[1..], 4, 0x1_0000)
    else if bytes[0] == 253 then WideInteger(bytes[1..], 8, 0x1_0000_0000)
    else Read(Err(InvalidIntegerTag), bytes[1..])
  }

  function ReadText(bytes: seq<Byte>): Read<Text> {
    var size := ReadInteger(bytes);
    if size.result.Err? then Read(Err(size.result.error), size.rest)
    else
      var taken := Take(size.rest, size.result.value);
      if taken.result.Err? then Read(Err(EndsEarly), taken.rest)
      else if !Utf8(taken.result.value) then Read(Err(NotUtf8), taken.rest)
      else Read(Ok(taken.result.value), taken.rest)
  }

  datatype Frame = Control(kind: Text, data: Text) | Shutdown(reason: Option<Text>) | Other

  /** The bytes not read yet of one message. */
  class Cursor {
    var bytes: seq<Byte>

    constructor (message: seq<Byte>)
      ensures bytes == message
    {
      bytes := message;
    }

    method TakeBytes(length: nat) returns (taken: Result<seq<Byte>, CodecError>)
      modifies this
      ensures Read(taken, bytes) == Take(old(bytes), length)
    {
      if length > |bytes| {
        return Err(EndsEarly);
      }
      taken := Ok(bytes[..length]);
      bytes := bytes[length..];
    }

    method Integer() returns (value: Result<U64, CodecError>)
      modifies this
      ensures Read(value, bytes) == ReadInteger(old(bytes))
    {
      var first := TakeBytes(1);
      if first.Err? {
        return Err(first.error);
      }
      var tag := first.value[0];
      var width, minimum := 8, 0x1_0000_0000;
      if tag <= 250 {
        return Ok(tag);
      } else if tag == 251 {
        width, minimum := 2, 251;
      } else if tag == 252 {
        width, minimum := 4, 0x1_0000;
      } else if tag != 253 {
        return Err(InvalidIntegerTag);
      }
      var taken := TakeBytes(width);
      if taken.Err? {
        return Err(taken.error);
      }
      NumberOfBytes(taken.value);
      Widths();
      var n := FromLittleEndian(taken.value);
      if n < minimum {
        return Err(NoncanonicalInteger);
      }
      return Ok(n);
    }

    method String() returns (text: Result<Text, CodecError>)
      modifies this
      ensures Read(text, bytes) == ReadText(old(bytes))
    {
      var size := Integer();
      if size.Err? {
        return Err(size.error);
      }
      var taken := TakeBytes(size.value);
      if taken.Err? {
        return Err(taken.error);
      }
      if !Utf8(taken.value) {
        return Err(NotUtf8);
      }
      return Ok(taken.value);
    }

    method Finish() returns (finished: Result<(), CodecError>)
      ensures finished == if bytes == [] then Ok(()) else Err(TrailingBytes)
    {
      return if bytes == [] then Ok(()) else Err(TrailingBytes);
    }
  }

  function ParseShutdown(bytes: seq<Byte>): Read<Frame> {
    if bytes == [] then Read(Err(EndsEarly), bytes)
    else if bytes[0] == 0 then Read(Ok(Shutdown(None)), bytes[1..])
    else if bytes[0] == 1 then
      var reason := ReadText(bytes[1..]);
      Read(if reason.result.Ok? then Ok(Shutdown(Some(reason.result.value))) else Err(reason.result.error), reason.rest)
    else Read(Err(InvalidOptionTag), bytes[1..])
  }

  function ParseControl(bytes: seq<Byte>): Read<Frame> {
    var kind := ReadText(bytes);
    if kind.result.Err? then Read(Err(kind.result.error), kind.rest)
    else
      var data := ReadText(kind.rest);
      Read(if data.result.Ok? then Ok(Control(kind.result.value, data.result.value)) else Err(data.result.error),
          data.rest)
  }

  /** Only the two known messages are read to their end; any other tag is skipped whole. */
  function ParseFrame(message: seq<Byte>): Result<Frame, CodecError> {
    if |message| > MAX_FRAME_BYTES then Err(FrameTooLarge)
    else
      var tag := ReadInteger(message);
      if tag.result.Err? then Err(tag.result.error)
      else if tag.result.value >= 0x1_0000_0000 then Err(TagTooWide)
      else if tag.result.value != 3 && tag.result.value != 20 then Ok(Other)
      else
        var frame := if tag.result.value == 3 then ParseShutdown(tag.rest) else ParseControl(tag.rest);
        if frame.result.Ok? && frame.rest != [] then Err(TrailingBytes) else frame.result
  }

  method DecodeFrame(message: seq<Byte>) returns (frame: Result<Frame, CodecError>)
    ensures frame == ParseFrame(message)
  {
    if |message| > MAX_FRAME_BYTES {
      return Err(FrameTooLarge);
    }
    var cursor := new Cursor(message);
    var tag := cursor.Integer();
    if tag.Err? {
      return Err(tag.error);
    }
    if tag.value >= 0x1_0000_0000 {
      return Err(TagTooWide);
    }
    if tag.value == 3 {
      var option := cursor.TakeBytes(1);
      if option.Err? {
        return Err(option.error);
      }
      if option.value[0] == 0 {
        frame := Ok(Shutdown(None));
      } else if option.value[0] == 1 {
        var reason := cursor.String();
        if reason.Err? {
          return Err(reason.error);
        }
        frame := Ok(Shutdown(Some(reason.value)));
      } else {
        return Err(InvalidOptionTag);
      }
    } else if tag.value == 20 {
      var kind := cursor.String();
      if kind.Err? {
        return Err(kind.error);
      }
      var data := cursor.String();
      if data.Err? {
        return Err(data.error);
      }
      frame := Ok(Control(kind.value, data.value));
    } else {
      return Ok(Other);
    }
    var finished := cursor.Finish();
    if finished.Err? {
      return Err(finished.error);
    }
  }

  // ----- decoding is the inverse of encoding, both ways -----

  lemma {:induction false} WideExactly(bytes: seq<Byte>, width: nat, minimum: nat, n: U64, rest: seq<Byte>)
    requires width <= 8 && minimum <= n < Pow256(width)
    ensures WideInteger(bytes, width, minimum) == Read(Ok(n), rest) <==> bytes == LittleEndian(n, width) + rest
  {
    BytesOfNumber(n, width);
    if |bytes| >= width {
      NumberOfBytes(bytes[..width]);
      assert bytes == bytes[..width] + bytes[width..];
    }
    if bytes == LittleEndian(n, width) + rest {
      assert bytes[..width] == LittleEndian(n, width) && bytes[width..] == rest;
    }
  }

  lemma {:induction false} WideBounds(bytes: seq<Byte>, width: nat, minimum: nat)
    requires width <= 8
    ensures var read := WideInteger(bytes, width, minimum);
            read.result.Ok? ==> minimum <= read.result.value < Pow256(width)
  {
    if |bytes| >= width {
      NumberOfBytes(bytes[..width]);
    }
  }

  /** An integer is read exactly from the bytes the encoder writes for it, and from no others. */
  lemma {:induction false} IntegerExactly(bytes: seq<Byte>, n: U64, rest: seq<Byte>)
    ensures ReadInteger(bytes) == Read(Ok(n), rest) <==> bytes == IntegerBytes(n) + rest
  {
    Widths();
    if bytes != [] {
      var tag, body := bytes[0], bytes[1..];
      assert bytes == [tag] + body;
      WideBounds(body, 2, 251);
      WideBounds(body, 4, 0x1_0000);
      WideBounds(body, 8, 0x1_0000_0000);
      if 251 <= n < 0x1_0000 {
        WideExactly(body, 2, 251, n, rest);
      } else if 0x1_0000 <= n < 0x1_0000_0000 {
        WideExactly(body, 4, 0x1_0000, n, rest);
      } else if 0x1_0000_0000 <= n {
        WideExactly(body, 8, 0x1_0000_0000, n, rest);
      }
      SplitFirst(bytes, IntegerBytes(n), rest);
    }
  }

  lemma {:induction false} SplitFirst(bytes: seq<Byte>, front: seq<Byte>, rest: seq<Byte>)
    requires bytes != [] && front != []
    ensures bytes == front + rest <==> bytes[0] == front[0] && bytes[1..] == front[1..] + rest
  {
    assert (front + rest)[1..] == front[1..] + rest;
    assert bytes == [bytes[0]] + bytes[1..] && front + rest == [front[0]] + (front[1..] + rest);
  }

  lemma {:induction false} TextExactly(bytes: seq<Byte>, t: Text, rest: seq<Byte>)
    ensures ReadText(bytes) == Read(Ok(t), rest) <==> bytes == TextBytes(t) + rest
  {
    IntegerExactly(bytes, |t|, t + rest);
    assert TextBytes(t) + rest == IntegerBytes(|t|) + (t + rest);
    assert (t + rest)[..|t|] == t && (t + rest)[|t|..] == rest;
    var size := ReadInteger(bytes);
    if ReadText(bytes) == Read(Ok(t), rest) {
      assert size.rest == size.rest[..size.result.value] + size.rest[size.result.value..];
    }
  }

  lemma {:induction false} ControlExactly(bytes: seq<Byte>, kind: Text, data: Text)
    ensures ParseControl(bytes) == Read(Ok(Control(kind, data)), []) <==> bytes == TextBytes(kind) + TextBytes(data)
  {
    TextExactly(bytes, kind, TextBytes(data));
    TextExactly(TextBytes(data), data, []);
    assert TextBytes(data) + [] == TextBytes(data);
    if ParseControl(bytes) == Read(Ok(Control(kind, data)), []) {
      TextExactly(ReadText(bytes).rest, data, []);
    }
  }

  lemma {:induction false} ShutdownExactly(bytes: seq<Byte>, reason: Option<Text>)
    ensures ParseShutdown(bytes) == Read(Ok(Shutdown(reason)), []) <==> [3] + bytes == ShutdownBytes(reason)
  {
    assert ([3] + bytes)[1..] == bytes;
    match reason {
      case None =>
        assert [3] + [0] == [3, 0];
      case Some(text) =>
        assert ([3, 1] + TextBytes(text))[1..] == [1] + TextBytes(text);
        assert [3] + ([1] + TextBytes(text)) == [3, 1] + TextBytes(text);
        if bytes != [] {
          TextExactly(bytes[1..], text, []);
          assert TextBytes(text) + [] == TextBytes(text);
          assert bytes == [bytes[0]] + bytes[1..];
          assert ([1] + TextBytes(text))[1..] == TextBytes(text);
        }
    }
  }

  /** A message with tag 20 is a control message exactly when its body is one to the end. */
  lemma {:induction false} TaggedControl(message: seq<Byte>, kind: Text, data: Text)
    requires |message| <= MAX_FRAME_BYTES
    ensures ParseFrame(message) == Ok(Control(kind, data))
            <==> var tag := ReadInteger(message);
                 tag.result == Ok(20) && ParseControl(tag.rest) == Read(Ok(Control(kind, data)), [])
  {
  }

  /** A message is decoded as a control message exactly when it is the encoder's output for that kind and
      data and within the frame limit. */
  lemma {:induction false} ControlFrameExactly(message: seq<Byte>, kind: Text, data: Text)
    ensures ParseFrame(message) == Ok(Control(kind, data))
            <==> message == ControlBytes(kind, data) && |message| <= MAX_FRAME_BYTES
  {
    if |message| <= MAX_FRAME_BYTES {
      var body := TextBytes(kind) + TextBytes(data);
      Appended([20], TextBytes(kind), TextBytes(data));
      IntegerExactly(message, 20, body);
      ControlExactly(ReadInteger(message).rest, kind, data);
      TaggedControl(message, kind, data);
    }
  }

  /** The same for a shutdown message. */
  lemma {:induction false} ShutdownFrameExactly(message: seq<Byte>, reason: Option<Text>)
    ensures ParseFrame(message) == Ok(Shutdown(reason))
            <==> message == ShutdownBytes(reason) && |message| <= MAX_FRAME_BYTES
  {
    var body := ShutdownBytes(reason)[1..];
    assert ShutdownBytes(reason) == IntegerBytes(3) + body && [3] + body == ShutdownBytes(reason);
    IntegerExactly(message, 3, body);
    ShutdownExactly(body, reason);
    if ParseFrame(message) == Ok(Shutdown(reason)) {
      ShutdownExactly(ReadInteger(message).rest, reason);
    }
  }

  /** Any other tag of 32 bits is skipped with its whole message, whatever the rest of it is; only such a message
      is skipped. */
  lemma {:induction false} OtherFrameExactly(message: seq<Byte>)
    ensures ParseFrame(message) == Ok(Other)
            <==> && |message| <= MAX_FRAME_BYTES
                 && exists tag: U64, rest ::
                      tag < 0x1_0000_0000 && tag !in {3, 20} && message == IntegerBytes(tag) + rest
  {
    var read := ReadInteger(message);
    if read.result.Ok? {
      IntegerExactly(message, read.result.value, read.rest);
    }
    forall tag: U64, rest | message == IntegerBytes(tag) + rest
      ensures read == Read(Ok(tag), rest)
    {
      IntegerExactly(message, tag, rest);
    }
  }

  /** A message that is not skipped or understood is refused: the decoder knows no other answers. */
  lemma {:induction false} RefusedExactly(message: seq<Byte>)
    ensures ParseFrame(message).Err? <==>
              || |message| > MAX_FRAME_BYTES
              || (&& (forall tag: U64, rest ::
                        message == IntegerBytes(tag) + rest ==> tag >= 0x1_0000_0000 || tag in {3, 20})
                  && (forall kind, data :: message != ControlBytes(kind, data))
                  && (forall reason :: message != ShutdownBytes(reason)))
  {
    OtherFrameExactly(message);
    match ParseFrame(message) {
      case Ok(Control(kind, data)) => ControlFrameExactly(message, kind, data);
      case Ok(Shutdown(reason)) => ShutdownFrameExactly(message, reason);
      case _ =>
    }
    forall kind, data
      ensures message == ControlBytes(kind, data) && |message| <= MAX_FRAME_BYTES
              ==> ParseFrame(message) == Ok(Control(kind, data))
    {
      ControlFrameExactly(message, kind, data);
    }
    forall reason
      ensures message == ShutdownBytes(reason) && |message| <= MAX_FRAME_BYTES
              ==> ParseFrame(message) == Ok(Shutdown(reason))
    {
      ShutdownFrameExactly(message, reason);
    }
  }

  /** What the encoder accepts is decoded to the same kind and data. */
  lemma {:induction false} RoundTrip(kind: Text, data: Text)
    requires Encodable(kind, data)
    ensures ParseFrame(ControlBytes(kind, data)) == Ok(Control(kind, data))
  {
    ControlFits(kind, data);
    ControlFrameExactly(ControlBytes(kind, data), kind, data);
  }

  // ----- the byte stream -----

  /** What the peer has sent and will send before it closes the connection. */
  class ByteStream {
    var pending: seq<Byte>

    constructor (all: seq<Byte>)
      ensures pending == all
    {
      pending := all;
    }

    method ReadExact(length: nat) returns (taken: Result<seq<Byte>, CodecError>)
      modifies this
      ensures taken == if length <= |old(pending)| then Ok(old(pending)[..length]) else Err(EarlyEof)
      ensures pending == if length <= |old(pending)| then old(pending)[length..] else []
    {
      if length > |pending| {
        pending := [];
        return Err(EarlyEof);
      }
      taken := Ok(pending[..length]);
      pending := pending[length..];
    }

    /** Reads one message into the buffer. */
    method ReadFrame(buffer: ByteBuffer) returns (done: Result<(), CodecError>)
      modifies this, buffer
      ensures var read := ReadMessage(old(pending));
              && pending == read.rest
              && done == (if read.result.Ok? then Ok(()) else Err(read.result.error))
              && (read.result.Ok? ==> buffer.bytes == read.result.value)
              && (read.result == Err(EmptyMessage) || read.result == Err(ResponseTooLarge)
                  ==> buffer.bytes == old(buffer.bytes))
    {
      var header := ReadExact(4);
      if header.Err? {
        return Err(EarlyEof);
      }
      var size := FromLittleEndian(header.value);
      if size == 0 {
        return Err(EmptyMessage);
      }
      if size > MAX_FRAME_BYTES {
        return Err(ResponseTooLarge);
      }
      buffer.bytes := if size <= |buffer.bytes| then buffer.bytes[..size]
          else buffer.bytes + seq(size - |buffer.bytes|, _ => 0);
      var message := ReadExact(size);
      if message.Err? {
        return Err(EarlyEof);
      }
      buffer.bytes := message.value;
      return Ok(());
    }
  }

  function ReadMessage(pending: seq<Byte>): Read<seq<Byte>> {
    if |pending| < 4 then Read(Err(EarlyEof), [])
    else
      var size, rest := FromLittleEndian(pending[..4]), pending[4..];
      if size == 0 then Read(Err(EmptyMessage), rest)
      else if size > MAX_FRAME_BYTES then Read(Err(ResponseTooLarge), rest)
      else if size > |rest| then Read(Err(EarlyEof), [])
      else Read(Ok(rest[..size]), rest[size..])
  }

  /** The messages of a stream up to the first one that cannot be read or decoded, and why it cannot. */
  datatype Conversation = Conversation(frames: seq<Frame>, ending: CodecError)

  function Heard(pending: seq<Byte>): Conversation
    decreases |pending|
  {
    var read := ReadMessage(pending);
    if read.result.Err? then Conversation([], read.result.error)
    else
      var frame := ParseFrame(read.result.value);
      if frame.Err? then Conversation([], frame.error)
      else
        var later := Heard(read.rest);
        Conversation([frame.value] + later.frames, later.ending)
  }

  datatype Message = Message(kind: Text, data: Text)

  function Sent(messages: seq<Message>): seq<Byte> {
    if messages == [] then []
    else WithHeader(ControlBytes(messages[0].kind, messages[0].data)) + Sent(messages[1..])
  }

  function AsFrames(messages: seq<Message>): seq<Frame> {
    if messages == [] then [] else [Control(messages[0].kind, messages[0].data)] + AsFrames(messages[1..])
  }

  /** A message goes through the stream whole, whatever follows it. */
  lemma {:induction false} MessageArrives(payload: seq<Byte>, rest: seq<Byte>)
    requires 0 < |payload| <= MAX_FRAME_BYTES
    ensures ReadMessage(WithHeader(payload) + rest) == Read(Ok(payload), rest)
  {
    Widths();
    BytesOfNumber(|payload|, 4);
    var header := LittleEndian(|payload|, 4);
    Appended(header, payload, rest);
    Halves(header, payload + rest);
    Halves(payload, rest);
  }

  /** A whole message, of up to two mebibytes, is read exactly when its header and all of it are there. */
  lemma {:induction false} MessageExactly(pending: seq<Byte>, payload: seq<Byte>, rest: seq<Byte>)
    ensures ReadMessage(pending) == Read(Ok(payload), rest)
            <==> 0 < |payload| <= 2097152 && pending == WithHeader(payload) + rest
  {
    Widths();
    if 0 < |payload| <= 2097152 && pending == WithHeader(payload) + rest {
      MessageArrives(payload, rest);
    }
    if ReadMessage(pending) == Read(Ok(payload), rest) {
      NumberOfBytes(pending[..4]);
      assert pending[4..] == payload + rest;
      Appended(pending[..4], payload, rest);
    }
  }

  lemma {:induction false} HeaderExactly(pending: seq<Byte>, size: nat)
    requires size < 0x1_0000_0000
    ensures LittleEndian(size, 4) <= pending <==> |pending| >= 4 && FromLittleEndian(pending[..4]) == size
  {
    Widths();
    BytesOfNumber(size, 4);
    if |pending| >= 4 {
      NumberOfBytes(pending[..4]);
    }
    if LittleEndian(size, 4) <= pending {
      assert pending[..4] == LittleEndian(size, 4);
    }
  }

  /** Nothing is read exactly when the header says that the message is empty or of more than two mebibytes, or when
      the stream ends in the header or in the message. */
  lemma {:induction false} UnreadExactly(pending: seq<Byte>)
    ensures ReadMessage(pending).result == Err(EmptyMessage) <==> LittleEndian(0, 4) <= pending
    ensures ReadMessage(pending).result == Err(ResponseTooLarge)
            <==> exists size :: 2097152 < size < 0x1_0000_0000 && LittleEndian(size, 4) <= pending
    ensures ReadMessage(pending).result == Err(EarlyEof)
            <==> || |pending| < 4
                 || exists size :: |pending| - 4 < size <= 2097152 && 0 < size && LittleEndian(size, 4) <= pending
  {
    Widths();
    forall size | 0 <= size < 0x1_0000_0000
      ensures LittleEndian(size, 4) <= pending <==> |pending| >= 4 && FromLittleEndian(pending[..4]) == size
    {
      HeaderExactly(pending, size);
    }
    if |pending| >= 4 {
      NumberOfBytes(pending[..4]);
      var size := FromLittleEndian(pending[..4]);
      assert LittleEndian(size, 4) <= pending;
    }
  }

  /** The encoder takes every kind and data of up to 2097133 bytes together. */
  lemma {:induction false} EncodableExactly(kind: Text, data: Text)
    ensures Encodable(kind, data) <==> |kind| + |data| <= 2097133
    ensures |kind| + |data| <= 2097133 ==> |WithHeader(ControlBytes(kind, data))| <= 2097156
  {
    ControlFits(kind, data);
  }

  /** Any number of encoded messages, sent one after the other, are heard as they were sent, in order. */
  lemma {:induction false} SentIsHeard(messages: seq<Message>)
    requires forall m <- messages :: Encodable(m.kind, m.data)
    ensures Heard(Sent(messages)) == Conversation(AsFrames(messages), EarlyEof)
  {
    if messages != [] {
      var first := messages[0];
      ControlFits(first.kind, first.data);
      MessageArrives(ControlBytes(first.kind, first.data), Sent(messages[1..]));
      RoundTrip(first.kind, first.data);
      SentIsHeard(messages[1..]);
    }
  }
}
