/** What native validation says of a candidate, fault by fault, and how long a selector is in bytes. */
module NativeTexts {
  import opened Wrappers
  import opened Json
  import opened WireFields
  import opened NativeValidation
  import C = Codec

  // ----- the bytes of a text -----

  /** A character in UTF-8. */
  function Encoded(c: char): (bytes: seq<C.Byte>)
    ensures 1 <= |bytes| <= 4
  {
    var n := c as int;
    if n < 0x80 then [n]
    else if n < 0x800 then [0xC0 + n / 0x40, 0x80 + n % 0x40]
    else if n < 0x1_0000 then [0xE0 + n / 0x1000, 0x80 + n / 0x40 % 0x40, 0x80 + n % 0x40]
    else [0xF0 + n / 0x4_0000, 0x80 + n / 0x1000 % 0x40, 0x80 + n / 0x40 % 0x40, 0x80 + n % 0x40]
  }

  function AllEncoded(text: string): seq<C.Byte> {
    if text == "" then [] else AllEncoded(text[..|text| - 1]) + Encoded(text[|text| - 1])
  }

  /** Each is one well-formed scalar value. */
  lemma {:induction false} EncodedIsScalar(c: char, more: seq<C.Byte>)
    ensures C.ScalarWidth(Encoded(c) + more) == |Encoded(c)|
  {
    var all := Encoded(c) + more;
    assert forall i | 0 <= i < |Encoded(c)| :: all[i] == Encoded(c)[i];
  }

  lemma {:induction false} OneScalarMore(bytes: seq<C.Byte>, more: seq<C.Byte>)
    requires C.Utf8(more) && bytes != [] && C.ScalarWidth(bytes + more) == |bytes|
    ensures C.Utf8(bytes + more)
  {
    assert (bytes + more)[|bytes|..] == more;
  }

  lemma {:induction false} EncodedIsUtf8(text: string, more: seq<C.Byte>)
    requires C.Utf8(more)
    ensures C.Utf8(AllEncoded(text) + more)
    decreases |text|
  {
    if text == "" {
      assert AllEncoded(text) + more == more;
    } else {
      var front, bytes := text[..|text| - 1], Encoded(text[|text| - 1]);
      EncodedIsScalar(text[|text| - 1], more);
      OneScalarMore(bytes, more);
      EncodedIsUtf8(front, bytes + more);
      C.Appended(AllEncoded(front), bytes, more);
    }
  }

  lemma {:induction false} ThreeByteScalar(first: int, second: int, third: int) returns (c: char)
    requires 0xE0 <= first <= 0xEF && 0x80 <= second <= 0xBF && 0x80 <= third <= 0xBF
    requires (first == 0xE0 ==> 0xA0 <= second) && (first == 0xED ==> second <= 0x9F)
    ensures Encoded(c) == [first, second, third]
  {
    var high, low := (first - 0xE0) * 0x40 + (second - 0x80), third - 0x80;
    var code := high * 0x40 + low;
    assert code / 0x40 == high && code % 0x40 == low;
    assert code / 0x1000 == first - 0xE0;
    c := code as char;
  }

  lemma {:induction false} FourByteScalar(first: int, second: int, third: int, fourth: int) returns (c: char)
    requires 0xF0 <= first <= 0xF4 && 0x80 <= second <= 0xBF && 0x80 <= third <= 0xBF && 0x80 <= fourth <= 0xBF
    requires (first == 0xF0 ==> 0x90 <= second) && (first == 0xF4 ==> second <= 0x8F)
    ensures Encoded(c) == [first, second, third, fourth]
  {
    var high, low := (first - 0xF0) * 0x40 + (second - 0x80), (third - 0x80) * 0x40 + (fourth - 0x80);
    var code := high * 0x1000 + low;
    assert code / 0x1000 == high && code % 0x40 == fourth - 0x80;
    assert code / 0x40 == high * 0x40 + (third - 0x80);
    assert code / 0x4_0000 == first - 0xF0;
    c := code as char;
  }

  /** The scalar value that well-formed bytes begin with. */
  lemma {:induction false} ScalarIsEncoded(bytes: seq<C.Byte>) returns (c: char)
    requires C.ScalarWidth(bytes) > 0
    ensures Encoded(c) == bytes[..C.ScalarWidth(bytes)]
  {
    var width := C.ScalarWidth(bytes);
    var first: int := bytes[0];
    if width == 1 {
      c := first as char;
    } else if width == 2 {
      var second: int := bytes[1];
      c := ((first - 0xC0) * 0x40 + (second - 0x80)) as char;
    } else if width == 3 {
      c := ThreeByteScalar(first, bytes[1], bytes[2]);
    } else {
      c := FourByteScalar(first, bytes[1], bytes[2], bytes[3]);
    }
  }

  lemma {:induction false} EncodedFirst(c: char, text: string)
    ensures AllEncoded([c] + text) == Encoded(c) + AllEncoded(text)
    decreases |text|
  {
    if text == "" {
      assert [c] + text == [c] && [c][..0] == [];
    } else {
      var front, last := text[..|text| - 1], text[|text| - 1];
      assert ([c] + text)[..|text|] == [c] + front;
      EncodedFirst(c, front);
      C.Appended(Encoded(c), AllEncoded(front), Encoded(last));
    }
  }

  lemma {:induction false} Utf8IsEncoded(bytes: seq<C.Byte>) returns (text: string)
    requires C.Utf8(bytes)
    ensures AllEncoded(text) == bytes
    decreases |bytes|
  {
    text := "";
    if bytes != [] {
      var width := C.ScalarWidth(bytes);
      var c := ScalarIsEncoded(bytes);
      var later := Utf8IsEncoded(bytes[width..]);
      text := [c] + later;
      EncodedFirst(c, later);
      assert bytes == bytes[..width] + bytes[width..];
    }
  }

  /** Bytes are taken for text exactly when they are the UTF-8 encoding of some text. */
  lemma {:induction false} Utf8Exactly(bytes: seq<C.Byte>)
    ensures C.Utf8(bytes) <==> exists text :: AllEncoded(text) == bytes
  {
    if C.Utf8(bytes) {
      var text := Utf8IsEncoded(bytes);
    }
    if text :| AllEncoded(text) == bytes {
      EncodedIsUtf8(text, []);
      assert bytes + [] == bytes;
    }
  }

  lemma {:induction false} LengthInBytes(text: string)
    ensures Utf8Length(text) == |AllEncoded(text)|
  {
    if text != "" {
      LengthInBytes(text[..|text| - 1]);
    }
  }

  /** A selector is valid exactly when its UTF-8 encoding has from 1 to 1024 bytes and it holds no control
      character. */
  lemma {:induction false} SelectorExactly(text: string)
    ensures C.Utf8(AllEncoded(text))
    ensures ValidSelector(text) <==>
              && 1 <= |AllEncoded(text)| <= 1024
              && forall c <- text :: 0x1F < c as int < 0x7F || 0x9F < c as int
  {
    LengthInBytes(text);
    EncodedIsUtf8(text, []);
    assert AllEncoded(text) + [] == AllEncoded(text);
  }

  // ----- which fault is reported -----

  /** A direct action has one fault at most, looked for in this order: an unknown type, an event stream, a field that
      cannot be sent, and a parameter the schema refuses. */
  lemma {:induction false} DirectFaultExactly(rules: Rules, document: Json, candidate: Candidate)
    requires candidate.typeName != CONFIGURED_COMMAND
    ensures var fault, bundled := FaultOf(rules, document, candidate), rules.native(candidate.typeName);
            && (fault == Some(UnknownType) <==> bundled.None?)
            && (fault == Some(EventStream) <==> bundled.Some? && !bundled.value.unary)
            && (fault.Some? && fault.value.Structural?
                <==> bundled.Some? && bundled.value.unary && !Acceptable(candidate.fields))
            && (fault.Some? && fault.value.AgainstSchema?
                <==> && bundled.Some? && bundled.value.unary && Acceptable(candidate.fields)
                     && CheckedFields(candidate.fields).Ok?
                     && rules.judge(document, bundled.value.name,
                                    Params(CheckedFields(candidate.fields).value)).Some?)
            && (fault.Some? ==> !fault.value.Binding?)
  {
    AcceptsExactly(candidate.fields);
  }

  /** The first field that cannot be sent, and why. */
  ghost predicate FirstBad(fields: seq<Field>, i: nat, refusal: Refusal)
    requires i < |fields|
  {
    && Acceptable(fields[..i])
    && if '_' in fields[i].name then refusal == Underscore(fields[i].name)
       else if exists j | 0 <= j < i :: fields[j].name == fields[i].name then refusal == Repeated(WireName(fields[i].name))
       else ToTree(fields[i].value) == Err(refusal)
  }

  /** A structural fault is that of the first field with one: an underscore in its name, a name that an earlier field
      has, or a value that cannot be represented, in this order. */
  lemma {:induction false} RefusedExactly(fields: seq<Field>, refusal: Refusal)
    ensures CheckedFields(fields) == Err(refusal)
            <==> exists i | 0 <= i < |fields| :: FirstBad(fields, i, refusal)
    decreases |fields|
  {
    if fields != [] {
      var n := |fields| - 1;
      var front := fields[..n];
      RefusedExactly(front, refusal);
      AcceptsExactly(front);
      forall i | 0 <= i < n
        ensures FirstBad(front, i, refusal) <==> FirstBad(fields, i, refusal)
      {
        assert front[..i] == fields[..i];
      }
      if CheckedFields(front).Ok? {
        LastBad(fields, refusal);
      } else {
        LaterIsNotFirst(fields, refusal);
      }
    }
  }

  lemma {:induction false} LastBad(fields: seq<Field>, refusal: Refusal)
    requires fields != [] && CheckedFields(fields[..|fields| - 1]).Ok?
    ensures CheckedFields(fields) == Err(refusal) <==> FirstBad(fields, |fields| - 1, refusal)
  {
    var n := |fields| - 1;
    var front := fields[..n];
    AcceptsExactly(front);
    RepresentedExactly(fields[n].value);
    if '_' !in fields[n].name {
      NewNameExactly(CheckedFields(front).value, front, fields[n].name);
      assert forall j | 0 <= j < n :: front[j] == fields[j];
    }
  }

  lemma {:induction false} LaterIsNotFirst(fields: seq<Field>, refusal: Refusal)
    requires fields != [] && CheckedFields(fields[..|fields| - 1]).Err?
    ensures !FirstBad(fields, |fields| - 1, refusal)
    ensures CheckedFields(fields) == CheckedFields(fields[..|fields| - 1])
  {
    AcceptsExactly(fields[..|fields| - 1]);
  }

  /** A configured command that is refused has a field of another name, a second binding, a binding that is not
      literal or not valid, or none; or the schema does not declare `command.invoke`. */
  lemma {:induction false} ConfiguredFaultExactly(rules: Rules, document: Json, fields: seq<Field>)
    ensures var fault := FaultOf(rules, document, Candidate("native.herdr.command:invoke", fields));
            && (fault.Some? ==> fault.value.Binding?)
            && (fault == Some(Binding(NoBinding)) <==> fields == [])
            && (fault == Some(Binding(InvokeMissing)) <==>
                  && |fields| == 1 && FieldFault(fields[0], false).None? && !rules.declares(document, "command.invoke"))
            && (fields != [] ==>
                  && (fields[0].name != "binding" ==> fault == Some(Binding(OtherField(fields[0].name))))
                  && (fields[0].name == "binding" && !fields[0].value.StringValue?
                      ==> fault == Some(Binding(NotLiteral)))
                  && (forall text | fields[0] == Field("binding", StringValue(text)) && !ValidSelector(text) ::
                        fault == Some(Binding(BadSelector))))
            && (|fields| > 1 && FieldFault(fields[0], false).None? ==>
                  fault == Some(Binding(if fields[1].name == "binding" then SecondBinding else OtherField(fields[1].name))))
  {
    BindingFoundExactly(fields);
    if fields != [] {
      FirstFieldDecides(fields);
    }
    if |fields| > 1 && FieldFault(fields[0], false).None? {
      SecondFieldDecides(fields);
    }
  }

  lemma {:induction false} FirstFieldDecides(fields: seq<Field>)
    requires fields != []
    ensures BindingIn(fields[..1]) == match FieldFault(fields[0], false)
                                      case Some(fault) => Err(fault)
                                      case None => BindingIn([fields[0]])
    ensures FieldFault(fields[0], false).Some? ==> BindingIn(fields) == Err(FieldFault(fields[0], false).value)
  {
    assert fields[..1] == [fields[0]] && fields[..1][..0] == [];
    if FieldFault(fields[0], false).Some? {
      FrontBindingFailed(fields, 1);
    }
  }

  lemma {:induction false} SecondFieldDecides(fields: seq<Field>)
    requires |fields| > 1 && FieldFault(fields[0], false).None?
    ensures FieldFault(fields[1], true).Some? && BindingIn(fields) == Err(FieldFault(fields[1], true).value)
  {
    assert fields[..2][..1] == fields[..1] == [fields[0]] && [fields[0]][..0] == [];
    assert BindingIn(fields[..1]).Ok? && BindingIn(fields[..1]).value.Some?;
    assert fields[..2][1] == fields[1];
    FrontBindingFailed(fields, 2);
  }
}
