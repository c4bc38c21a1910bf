/** Finding a configured command through the binary command endpoint: one accepted welcome, then the first
snapshot, then the one command of its manifest that the binding means. */
module Handshake {
  import opened Wrappers
  import opened Codec

  // ----- the manifest -----

  datatype Action = Shell | Pane | Popup | PluginAction | Unknown

  datatype Command = Command(id: Text, bindingLabel: Option<Text>, bindingLabels: Option<seq<Text>>, action: Action)

  datatype Refusal =
    | Ambiguous | Missing | UnknownAction
    | DuplicateWelcome | Rejected | Unsupported | SnapshotBeforeWelcome | PeerShutdown | InvalidJson
    | Interrupted | EndpointReplaced | Unreadable(error: CodecError)

  /** A list of labels, even an empty one, takes the place of the single label. */
  predicate Matches(command: Command, binding: Text) {
    match command.bindingLabels
    case Some(labels) => binding in labels
    case None => command.bindingLabel == Some(binding)
  }

  /** What the commands that match the binding say: their IDs and actions. */
  ghost function Meant(commands: seq<Command>, binding: Text): set<(Text, Action)> {
    set c | c in commands && Matches(c, binding) :: (c.id, c.action)
  }

  /** The only command meant, if there is just one and its action is known. */
  ghost function Choice(meant: set<(Text, Action)>): Result<Text, Refusal> {
    if meant == {} then Err(Missing)
    else
      var one :| one in meant;
      if meant != {one} then Err(Ambiguous)
      else if one.1.Unknown? then Err(UnknownAction)
      else Ok(one.0)
  }

  lemma {:induction false} MeantOneMore(commands: seq<Command>, binding: Text, i: nat)
    requires i < |commands|
    ensures Meant(commands[..i + 1], binding)
            == Meant(commands[..i], binding)
               + if Matches(commands[i], binding) then {(commands[i].id, commands[i].action)} else {}
  {
    assert commands[..i + 1] == commands[..i] + [commands[i]];
  }

  /** Goes through the manifest once, keeping the last match and giving up at the first disagreement. */
  method ResolveSnapshot(commands: seq<Command>, binding: Text) returns (id: Result<Text, Refusal>)
    ensures id == Choice(Meant(commands, binding))
  {
    var selected: Option<Command> := None;
    for i := 0 to |commands|
      invariant Meant(commands[..i], binding) == if selected.Some?
          then {(selected.value.id, selected.value.action)} else {}
    {
      MeantOneMore(commands, binding, i);
      var command := commands[i];
      var matches := match command.bindingLabels
        case Some(labels) => binding in labels
        case None => command.bindingLabel == Some(binding);
      if !matches {
        continue;
      }
      if selected.Some? && (selected.value.id != command.id || selected.value.action != command.action) {
        assert (command.id, command.action) in Meant(commands, binding);
        assert (selected.value.id, selected.value.action) in Meant(commands[..i], binding);
        assert (selected.value.id, selected.value.action) in Meant(commands, binding);
        return Err(Ambiguous);
      }
      selected := Some(command);
    }
    assert commands[..|commands|] == commands;
    if selected.None? {
      return Err(Missing);
    }
    if selected.value.action.Unknown? {
      return Err(UnknownAction);
    }
    return Ok(selected.value.id);
  }

  /** An ID is found exactly when some command matches, all that match agree on ID and action, and the
      action is known. */
  lemma {:induction false} FoundExactly(commands: seq<Command>, binding: Text, id: Text)
    ensures Choice(Meant(commands, binding)) == Ok(id)
            <==> exists c <- commands :: && Matches(c, binding) && c.id == id && !c.action.Unknown?
                                         && forall d <- commands ::
                                              Matches(d, binding) ==> d.id == id && d.action == c.action
  {
    var meant := Meant(commands, binding);
    if Choice(meant) == Ok(id) {
      var one :| one in meant && meant == {one} && one.0 == id;
      var c :| c in commands && Matches(c, binding) && (c.id, c.action) == one;
      forall d <- commands | Matches(d, binding)
        ensures d.id == id && d.action == c.action
      {
        assert (d.id, d.action) in meant;
      }
    }
    if c :| c in commands && Matches(c, binding) && c.id == id && !c.action.Unknown?
            && forall d <- commands :: Matches(d, binding) ==> d.id == id && d.action == c.action
    {
      assert (c.id, c.action) in meant;
      assert meant == {(c.id, c.action)};
    }
  }

  /** A command without a list is meant by its single label; one with a list by every label in it and by nothing
      else, not even its single label. */
  lemma {:induction false} LabelsDecide(id: Text, label_: Option<Text>, labels: seq<Text>, action: Action,
      binding: Text)
    ensures Matches(Command(id, label_, None, action), binding) <==> label_ == Some(binding)
    ensures Matches(Command(id, label_, Some(labels), action), binding)
            <==> exists i | 0 <= i < |labels| :: labels[i] == binding
  {
  }

  /** And it is not found for one of three reasons: nothing matches, two that match disagree, or what all that
      match agree on cannot be invoked. */
  lemma {:induction false} NotFoundExactly(commands: seq<Command>, binding: Text)
    ensures Choice(Meant(commands, binding)) == Err(Missing) <==> forall c <- commands :: !Matches(c, binding)
    ensures Choice(Meant(commands, binding)) == Err(Ambiguous)
            <==> exists c <- commands, d <- commands ::
                   Matches(c, binding) && Matches(d, binding) && (c.id, c.action) != (d.id, d.action)
    ensures Choice(Meant(commands, binding)) == Err(UnknownAction)
            <==> && (exists c <- commands :: Matches(c, binding))
                 && (forall c <- commands :: Matches(c, binding) ==> c.action.Unknown?)
                 && forall c <- commands, d <- commands :: Matches(c, binding) && Matches(d, binding) ==> c.id == d.id
    ensures Choice(Meant(commands, binding)).Err? ==>
              Choice(Meant(commands, binding)).error in {Missing, Ambiguous, UnknownAction}
  {
    var meant := Meant(commands, binding);
    forall c | c in commands && Matches(c, binding)
      ensures (c.id, c.action) in meant
    {
    }
    if meant != {} {
      var one :| one in meant;
      var c :| c in commands && Matches(c, binding) && (c.id, c.action) == one;
      if meant != {one} {
        var other :| other in meant && other != one;
        var d :| d in commands && Matches(d, binding) && (d.id, d.action) == other;
      }
    }
  }

  /** Two manifests with the same commands, in whatever order and however often, mean the same. */
  lemma {:induction false} OrderIsIrrelevant(a: seq<Command>, b: seq<Command>, binding: Text)
    requires forall c :: c in a <==> c in b
    ensures Choice(Meant(a, binding)) == Choice(Meant(b, binding))
  {
    assert Meant(a, binding) == Meant(b, binding);
  }

  // ----- the conversation -----

  datatype Welcome = Welcome(generation: nat, snapshotCodec: Text, surfaceCodec: Text, inputCodec: Text,
                             blobCodec: Text, methods: seq<Text>, error: bool)

  /** The names that messages, codecs and the method the run needs go by. */
  datatype Names = Names(welcome: Text, snapshot: Text, surface: Text, input: Text, blob: Text, invoke: Text)

  predicate Spells(text: Text, s: string) {
    |text| == |s| && forall i | 0 <= i < |s| :: text[i] == s[i] as int
  }

  /** The names that the endpoint uses. */
  predicate IsProtocol(names: Names) {
    && Spells(names.welcome, "endpoint.welcome.v1") && Spells(names.snapshot, "shell.snapshot.v1")
    && Spells(names.surface, "shell.surface.v1") && Spells(names.input, "shell.input.semantic.v1")
    && Spells(names.blob, "shell.blob.v1") && Spells(names.invoke, "command.invoke")
  }

  lemma {:induction false} Spelt(s: string) returns (text: Text)
    requires |s| < 0x1_0000_0000_0000_0000
    requires forall i | 0 <= i < |s| :: s[i] < '\U{80}'
    ensures Spells(text, s)
  {
    text := Ascii(s);
  }

  /** There are such names: they are all written in ASCII. */
  lemma {:induction false} ProtocolNames() returns (names: Names)
    ensures IsProtocol(names)
  {
    var welcome := Spelt("endpoint.welcome.v1");
    var snapshot := Spelt("shell.snapshot.v1");
    var surface := Spelt("shell.surface.v1");
    var input := Spelt("shell.input.semantic.v1");
    var blob := Spelt("shell.blob.v1");
    var invoke := Spelt("command.invoke");
    names := Names(welcome, snapshot, surface, input, blob, invoke);
  }

  /** A welcome is not taken for a snapshot. */
  lemma {:induction false} NamesDiffer(names: Names)
    requires IsProtocol(names)
    ensures names.welcome != names.snapshot
  {
    assert |names.welcome| == 19 && |names.snapshot| == 17;
  }

  predicate Supported(w: Welcome, names: Names) {
    && w.generation == 1
    && w.snapshotCodec == names.snapshot && w.surfaceCodec == names.surface
    && w.inputCodec == names.input && w.blobCodec == names.blob
    && names.invoke in w.methods
  }

  /** What a run depends on besides the bytes the peer sends: the names, the binding, the JSON reader, which reads are
      cut short by retirement, the deadline or a replaced socket, and whether the socket is still the same
      at the end. */
  datatype Setting = Setting(names: Names, binding: Text, welcome: Text -> Option<Welcome>, snapshot: Text -> Option<seq<Command>>,
                             interrupted: nat -> bool, sameEndpoint: bool)

  /** What a frame means to the run: a welcome and why it is refused, a snapshot and what the binding means
      in it, the peer's shutdown, or a frame that is skipped. */
  datatype Event = Greeted(refusal: Option<Refusal>) | Listed(id: Result<Text, Refusal>) | Closed | Skipped

  function Greeting(welcome: Option<Welcome>, names: Names): Option<Refusal> {
    if welcome.None? then Some(InvalidJson)
    else if welcome.value.error then Some(Rejected)
    else if !Supported(welcome.value, names) then Some(Unsupported)
    else None
  }

  ghost function Listing(commands: Option<seq<Command>>, x: Setting): Result<Text, Refusal> {
    if commands.None? then Err(InvalidJson)
    else
      var id := Choice(Meant(commands.value, x.binding));
      if id.Ok? && !x.sameEndpoint then Err(EndpointReplaced) else id
  }

  ghost function EventOf(f: Frame, x: Setting): Event {
    match f
    case Control(kind, data) =>
      if kind == x.names.welcome then Greeted(Greeting(x.welcome(data), x.names))
      else if kind == x.names.snapshot then Listed(Listing(x.snapshot(data), x))
      else Skipped
    case Shutdown(_) => Closed
    case Other => Skipped
  }

  ghost function EventsOf(frames: seq<Frame>, x: Setting): (events: seq<Event>)
    ensures |events| == |frames|
    ensures forall i | 0 <= i < |frames| :: events[i] == EventOf(frames[i], x)
  {
    seq(|frames|, i requires 0 <= i < |frames| => EventOf(frames[i], x))
  }

  /** Whether a frame lets the run go on, or settles it. */
  datatype Turn = GoOn(welcomed: bool) | Settled(id: Result<Text, Refusal>)

  function TurnOf(event: Event, welcomed: bool): Turn {
    match event
    case Greeted(refusal) =>
      if welcomed then Settled(Err(DuplicateWelcome))
      else if refusal.Some? then Settled(Err(refusal.value))
      else GoOn(true)
    case Listed(id) => if welcomed then Settled(id) else Settled(Err(SnapshotBeforeWelcome))
    case Closed => Settled(Err(PeerShutdown))
    case Skipped => GoOn(welcomed)
  }

  /** The run from the frame at `at` on, reading frames until one settles it. */
  ghost function RunFrom(events: seq<Event>, ending: CodecError, at: nat, welcomed: bool, interrupted: nat -> bool)
    : Result<Text, Refusal>
    requires at <= |events|
    decreases |events| - at
  {
    if interrupted(at) then Err(Interrupted)
    else if at == |events| then Err(Unreadable(ending))
    else
      match TurnOf(events[at], welcomed)
      case GoOn(now) => RunFrom(events, ending, at + 1, now, interrupted)
      case Settled(id) => id
  }

  lemma {:induction false} SpellsOne(a: Text, b: Text, s: string)
    requires Spells(a, s)
    ensures Spells(b, s) <==> a == b
  {
  }

  /** With the names the endpoint uses, a welcome is accepted exactly when it says generation 1, the four codecs by
      their names, and `command.invoke` among the methods, and no error. */
  lemma {:induction false} WelcomeExactly(w: Welcome, names: Names)
    requires IsProtocol(names)
    ensures Greeting(Some(w), names).None? <==>
              && !w.error && w.generation == 1
              && Spells(w.snapshotCodec, "shell.snapshot.v1") && Spells(w.surfaceCodec, "shell.surface.v1")
              && Spells(w.inputCodec, "shell.input.semantic.v1") && Spells(w.blobCodec, "shell.blob.v1")
              && exists m <- w.methods :: Spells(m, "command.invoke")
  {
    SpellsOne(names.snapshot, w.snapshotCodec, "shell.snapshot.v1");
    SpellsOne(names.surface, w.surfaceCodec, "shell.surface.v1");
    SpellsOne(names.input, w.inputCodec, "shell.input.semantic.v1");
    SpellsOne(names.blob, w.blobCodec, "shell.blob.v1");
    forall m: Text
      ensures Spells(m, "command.invoke") <==> m == names.invoke
    {
      SpellsOne(names.invoke, m, "command.invoke");
    }
  }

  /** A welcome that is not accepted is refused for one reason: it cannot be read, it reports an error, or the
      rest of it does not fit. */
  lemma {:induction false} RefusalExactly(welcome: Option<Welcome>, names: Names)
    ensures Greeting(welcome, names) == Some(InvalidJson) <==> welcome.None?
    ensures Greeting(welcome, names) == Some(Rejected) <==> welcome.Some? && welcome.value.error
    ensures Greeting(welcome, names).None? || Greeting(welcome, names).value in {InvalidJson, Rejected, Unsupported}
  {
  }

  /** Checks a welcome in the order the endpoint's answer is read. */
  method CheckWelcome(welcome: Option<Welcome>, names: Names, welcomeReceived: bool) returns (refusal: Option<Refusal>)
    ensures refusal == if welcomeReceived then Some(DuplicateWelcome) else Greeting(welcome, names)
  {
    if welcomeReceived {
      return Some(DuplicateWelcome);
    }
    if welcome.None? {
      return Some(InvalidJson);
    }
    if welcome.value.error {
      return Some(Rejected);
    }
    return if Supported(welcome.value, names) then None else Some(Unsupported);
  }

  method FindCommand(commands: Option<seq<Command>>, x: Setting) returns (id: Result<Text, Refusal>)
    ensures id == Listing(commands, x)
  {
    if commands.None? {
      return Err(InvalidJson);
    }
    id := ResolveSnapshot(commands.value, x.binding);
    if id.Ok? && !x.sameEndpoint {
      return Err(EndpointReplaced);
    }
  }

  /** Reads one frame, if it can be read. */
  method NextFrame(stream: ByteStream, buffer: ByteBuffer) returns (frame: Result<Frame, CodecError>)
    modifies stream, buffer
    ensures var was, now := Heard(old(stream.pending)), Heard(stream.pending);
            match frame
            case Ok(f) => was == Conversation([f] + now.frames, now.ending) && |stream.pending| < |old(stream.pending)|
            case Err(error) => was == Conversation([], error)
  {
    var done := stream.ReadFrame(buffer);
    if done.Err? {
      return Err(done.error);
    }
    frame := DecodeFrame(buffer.bytes);
  }

  /** Answers one frame. */
  method AnswerFrame(frame: Frame, welcomeReceived: bool, x: Setting) returns (turn: Turn)
    ensures turn == TurnOf(EventOf(frame, x), welcomeReceived)
  {
    match frame {
      case Control(kind, data) =>
        if kind == x.names.welcome {
          var refusal := CheckWelcome(x.welcome(data), x.names, welcomeReceived);
          return if refusal.Some? then Settled(Err(refusal.value)) else GoOn(true);
        } else if kind == x.names.snapshot {
          if !welcomeReceived {
            return Settled(Err(SnapshotBeforeWelcome));
          }
          var id := FindCommand(x.snapshot(data), x);
          return Settled(id);
        }
        return GoOn(welcomeReceived);
      case Shutdown(_) =>
        return Settled(Err(PeerShutdown));
      case Other =>
        return GoOn(welcomeReceived);
    }
  }

  lemma {:induction false} OneFrameOn(frames: seq<Frame>, received: nat, f: Frame, rest: seq<Frame>)
    requires received <= |frames| && frames[received..] == [f] + rest
    ensures received < |frames| && f == frames[received] && rest == frames[received + 1..]
  {
    assert frames[received..][0] == f && frames[received..][1..] == rest;
  }

  /** Reads and answers frames until the command is found or the conversation fails. */
  method Resolve(stream: ByteStream, buffer: ByteBuffer, x: Setting) returns (id: Result<Text, Refusal>)
    modifies stream, buffer
    ensures var heard := Heard(old(stream.pending));
            id == RunFrom(EventsOf(heard.frames, x), heard.ending, 0, false, x.interrupted)
  {
    ghost var heard := Heard(stream.pending);
    ghost var events := EventsOf(heard.frames, x);
    var received := 0;
    var welcomeReceived := false;
    while true
      invariant received <= |events|
      invariant Heard(stream.pending) == Conversation(heard.frames[received..], heard.ending)
      invariant RunFrom(events, heard.ending, 0, false, x.interrupted)
                == RunFrom(events, heard.ending, received, welcomeReceived, x.interrupted)
      decreases |stream.pending|
    {
      if x.interrupted(received) {
        return Err(Interrupted);
      }
      var frame := NextFrame(stream, buffer);
      if frame.Err? {
        return Err(Unreadable(frame.error));
      }
      OneFrameOn(heard.frames, received, frame.value, Heard(stream.pending).frames);
      var turn := AnswerFrame(frame.value, welcomeReceived, x);
      if turn.Settled? {
        return turn.id;
      }
      welcomeReceived := turn.welcomed;
      received := received + 1;
    }
  }

  /** The one welcome before the snapshot at `s` is at `w`, it is accepted, nothing shuts the peer down and
      nothing cuts a read short before the snapshot, which is the first and means this ID. */
  ghost predicate Opens(events: seq<Event>, interrupted: nat -> bool, w: nat, s: nat, id: Text) {
    && w < s < |events| && events[w] == Greeted(None) && events[s] == Listed(Ok(id))
    && (forall k | 0 <= k <= s :: !interrupted(k))
    && (forall k | 0 <= k < s && k != w :: events[k].Skipped?)
  }

  /** The same once the welcome has been accepted and everything before `at` has been read. */
  ghost predicate Lists(events: seq<Event>, interrupted: nat -> bool, at: nat, s: nat, id: Text) {
    && at <= s < |events| && events[s] == Listed(Ok(id))
    && (forall k | at <= k <= s :: !interrupted(k))
    && (forall k | at <= k < s :: events[k].Skipped?)
  }

  lemma {:induction false} OnceWelcomed(events: seq<Event>, ending: CodecError, at: nat, interrupted: nat -> bool,
      id: Text)
    returns (s: nat)
    requires at <= |events|
    ensures RunFrom(events, ending, at, true, interrupted) == Ok(id) ==> Lists(events, interrupted, at, s, id)
    decreases |events| - at
  {
    s := at;
    if at < |events| && events[at].Skipped? {
      s := OnceWelcomed(events, ending, at + 1, interrupted, id);
    }
  }

  lemma {:induction false} ListedIsFound(events: seq<Event>, ending: CodecError, at: nat, interrupted: nat -> bool,
      s: nat, id: Text)
    requires Lists(events, interrupted, at, s, id)
    ensures RunFrom(events, ending, at, true, interrupted) == Ok(id)
    decreases s - at
  {
    if at < s {
      ListedIsFound(events, ending, at + 1, interrupted, s, id);
    }
  }

  lemma {:induction false} FoundOpened(events: seq<Event>, ending: CodecError, at: nat, interrupted: nat -> bool,
      id: Text)
    returns (w: nat, s: nat)
    requires at <= |events| && RunFrom(events, ending, at, false, interrupted) == Ok(id)
    requires forall k | 0 <= k < at :: events[k].Skipped? && !interrupted(k)
    ensures Opens(events, interrupted, w, s, id)
    decreases |events| - at
  {
    if events[at].Greeted? {
      w := at;
      s := OnceWelcomed(events, ending, at + 1, interrupted, id);
    } else {
      w, s := FoundOpened(events, ending, at + 1, interrupted, id);
    }
  }

  lemma {:induction false} OpenedIsFound(events: seq<Event>, ending: CodecError, at: nat, interrupted: nat -> bool,
                                         w: nat, s: nat, id: Text)
    requires Opens(events, interrupted, w, s, id) && at <= w
    ensures RunFrom(events, ending, at, false, interrupted) == Ok(id)
    decreases w - at
  {
    if at == w {
      ListedIsFound(events, ending, at + 1, interrupted, s, id);
    } else {
      OpenedIsFound(events, ending, at + 1, interrupted, w, s, id);
    }
  }

  /** The command is found exactly when the conversation holds one welcome, which is accepted, before its
      first snapshot, no shutdown before that, and the snapshot's manifest means this one command. */
  lemma {:induction false} SucceedsExactly(events: seq<Event>, ending: CodecError, interrupted: nat -> bool, id: Text)
    ensures RunFrom(events, ending, 0, false, interrupted) == Ok(id)
            <==> exists w: nat, s: nat :: Opens(events, interrupted, w, s, id)
  {
    if RunFrom(events, ending, 0, false, interrupted) == Ok(id) {
      var w, s := FoundOpened(events, ending, 0, interrupted, id);
    }
    if w: nat, s: nat :| Opens(events, interrupted, w, s, id) {
      OpenedIsFound(events, ending, 0, interrupted, w, s, id);
    }
  }

  // ----- how a run ends -----

  ghost predicate WelcomedBefore(events: seq<Event>, k: nat)
    requires k <= |events|
  {
    exists i | 0 <= i < k :: events[i] == Greeted(None)
  }

  /** Nothing before `k` ends the run: reads are not cut short, and there is at most one welcome, an accepted one,
      among frames that are skipped. */
  ghost predicate PassesUpTo(events: seq<Event>, interrupted: nat -> bool, k: nat)
    requires k <= |events|
  {
    && (forall i | 0 <= i < k :: !interrupted(i) && (events[i].Skipped? || events[i] == Greeted(None)))
    && forall i, j | 0 <= i < j < k :: events[i].Skipped? || events[j].Skipped?
  }

  /** What ends a run at `k`: a read that is cut short or fails, a second or refused welcome, a snapshot, which
      must come after the welcome, or the peer's shutdown. */
  ghost predicate EndsAt(events: seq<Event>, ending: CodecError, interrupted: nat -> bool, k: nat,
      id: Result<Text, Refusal>)
    requires k <= |events|
  {
    if interrupted(k) then id == Err(Interrupted)
    else if k == |events| then id == Err(Unreadable(ending))
    else
      match events[k]
      case Greeted(refusal) =>
        if WelcomedBefore(events, k) then id == Err(DuplicateWelcome)
        else refusal.Some? && id == Err(refusal.value)
      case Listed(found) =>
        if WelcomedBefore(events, k) then id == found else id == Err(SnapshotBeforeWelcome)
      case Closed => id == Err(PeerShutdown)
      case Skipped => false
  }

  lemma {:induction false} RunOn(events: seq<Event>, ending: CodecError, at: nat, welcomed: bool,
      interrupted: nat -> bool) returns (k: nat)
    requires at <= |events| && PassesUpTo(events, interrupted, at) && (welcomed <==> WelcomedBefore(events, at))
    ensures at <= k <= |events| && PassesUpTo(events, interrupted, k)
    ensures EndsAt(events, ending, interrupted, k, RunFrom(events, ending, at, welcomed, interrupted))
    decreases |events| - at
  {
    k := at;
    if !interrupted(at) && at < |events| {
      match TurnOf(events[at], welcomed)
      case GoOn(now) =>
        assert now <==> WelcomedBefore(events, at + 1) by {
          if events[at] == Greeted(None) {
            assert WelcomedBefore(events, at + 1);
          }
        }
        k := RunOn(events, ending, at + 1, now, interrupted);
      case Settled(_) =>
    }
  }

  lemma {:induction false} OneEnd(events: seq<Event>, ending: CodecError, interrupted: nat -> bool, k: nat, m: nat,
      one: Result<Text, Refusal>, two: Result<Text, Refusal>)
    requires k <= |events| && m <= |events| && PassesUpTo(events, interrupted, k) && PassesUpTo(events, interrupted, m)
    requires EndsAt(events, ending, interrupted, k, one) && EndsAt(events, ending, interrupted, m, two)
    ensures k == m && one == two
  {
    if k < m {
      StillPasses(events, ending, interrupted, k, m, one);
    } else if m < k {
      StillPasses(events, ending, interrupted, m, k, two);
    }
  }

  lemma {:induction false} StillPasses(events: seq<Event>, ending: CodecError, interrupted: nat -> bool, k: nat, m: nat,
      id: Result<Text, Refusal>)
    requires k < m <= |events| && PassesUpTo(events, interrupted, m)
    ensures !EndsAt(events, ending, interrupted, k, id)
  {
    assert !interrupted(k) && (events[k].Skipped? || events[k] == Greeted(None));
    if i :| 0 <= i < k && events[i] == Greeted(None) {
      assert events[k].Skipped?;
    }
  }

  /** The answer of a run is decided by the first thing that ends it, and says why. */
  lemma {:induction false} AnswersExactly(events: seq<Event>, ending: CodecError, interrupted: nat -> bool,
      id: Result<Text, Refusal>)
    ensures RunFrom(events, ending, 0, false, interrupted) == id <==>
              exists k: nat ::
                k <= |events| && PassesUpTo(events, interrupted, k) && EndsAt(events, ending, interrupted, k, id)
  {
    var k := RunOn(events, ending, 0, false, interrupted);
    if m: nat :| m <= |events| && PassesUpTo(events, interrupted, m) && EndsAt(events, ending, interrupted, m, id) {
      OneEnd(events, ending, interrupted, k, m, RunFrom(events, ending, 0, false, interrupted), id);
    }
  }

  // ----- the same, said of the frames -----

  ghost predicate AcceptedWelcome(f: Frame, x: Setting) {
    f.Control? && f.kind == x.names.welcome && Greeting(x.welcome(f.data), x.names).None?
  }

  /** A snapshot in which the binding means this command, read through an endpoint that is still the same. */
  ghost predicate FindsIn(f: Frame, x: Setting, id: Text) {
    && f.Control? && f.kind == x.names.snapshot && x.snapshot(f.data).Some?
    && Choice(Meant(x.snapshot(f.data).value, x.binding)) == Ok(id) && x.sameEndpoint
  }

  predicate IsSkipped(f: Frame, names: Names) {
    f.Other? || (f.Control? && f.kind != names.welcome && f.kind != names.snapshot)
  }

  lemma {:induction false} EventsAreFrames(f: Frame, x: Setting, id: Text)
    requires x.names.welcome != x.names.snapshot
    ensures EventOf(f, x) == Greeted(None) <==> AcceptedWelcome(f, x)
    ensures EventOf(f, x) == Listed(Ok(id)) <==> FindsIn(f, x, id)
    ensures EventOf(f, x).Skipped? <==> IsSkipped(f, x.names)
  {
  }

  /** An accepted welcome at `w`, a snapshot that means the command at `s`, and nothing else before it but
      frames that are skipped. */
  ghost predicate Converses(frames: seq<Frame>, x: Setting, w: nat, s: nat, id: Text) {
    && w < s < |frames| && AcceptedWelcome(frames[w], x) && FindsIn(frames[s], x, id)
    && (forall k | 0 <= k <= s :: !x.interrupted(k))
    && (forall k | 0 <= k < s && k != w :: IsSkipped(frames[k], x.names))
  }

  lemma {:induction false} OpensIsConverses(frames: seq<Frame>, x: Setting, w: nat, s: nat, id: Text)
    requires x.names.welcome != x.names.snapshot
    ensures Opens(EventsOf(frames, x), x.interrupted, w, s, id) <==> Converses(frames, x, w, s, id)
  {
    forall k | 0 <= k < |frames|
      ensures EventOf(frames[k], x) == Greeted(None) <==> AcceptedWelcome(frames[k], x)
      ensures EventOf(frames[k], x) == Listed(Ok(id)) <==> FindsIn(frames[k], x, id)
      ensures EventOf(frames[k], x).Skipped? <==> IsSkipped(frames[k], x.names)
    {
      EventsAreFrames(frames[k], x, id);
    }
  }

  /** The frames hold a conversation that means this command. */
  ghost predicate Means(frames: seq<Frame>, x: Setting, id: Text) {
    exists w: nat, s: nat :: Converses(frames, x, w, s, id)
  }

  lemma {:induction false} FramesExactly(heard: Conversation, x: Setting, id: Text)
    requires x.names.welcome != x.names.snapshot
    ensures RunFrom(EventsOf(heard.frames, x), heard.ending, 0, false, x.interrupted) == Ok(id)
            <==> Means(heard.frames, x, id)
  {
    SucceedsExactly(EventsOf(heard.frames, x), heard.ending, x.interrupted, id);
    forall w: nat, s: nat
      ensures Opens(EventsOf(heard.frames, x), x.interrupted, w, s, id) <==> Converses(heard.frames, x, w, s, id)
    {
      OpensIsConverses(heard.frames, x, w, s, id);
    }
  }

  /** With the names the endpoint uses, the run over the peer's bytes finds a command exactly when the frames
      in them hold a conversation that means it. */
  lemma {:induction false} ProtocolExactly(pending: seq<Byte>, x: Setting, id: Text)
    requires IsProtocol(x.names)
    ensures var heard := Heard(pending);
            RunFrom(EventsOf(heard.frames, x), heard.ending, 0, false, x.interrupted) == Ok(id)
            <==> Means(heard.frames, x, id)
  {
    NamesDiffer(x.names);
    FramesExactly(Heard(pending), x, id);
  }

  /** Finds the command the binding means, with the names the endpoint uses. */
  method Discover(stream: ByteStream, buffer: ByteBuffer, x: Setting) returns (found: Result<Text, Refusal>)
    requires IsProtocol(x.names)
    modifies stream, buffer
    ensures found.Ok? ==> Means(Heard(old(stream.pending)).frames, x, found.value)
    ensures found.Err? ==> forall id :: !Means(Heard(old(stream.pending)).frames, x, id)
  {
    ghost var pending := stream.pending;
    found := Resolve(stream, buffer, x);
    forall id
      ensures found == Ok(id) <==> Means(Heard(pending).frames, x, id)
    {
      ProtocolExactly(pending, x, id);
    }
  }
}
