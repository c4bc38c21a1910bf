/** The requests of portable actions, spelt out action by action from the configured values and the place of the
invocation; dispatch sends these and no others, and loading accepts them exactly when the schema does. */
module PortableRequests {
  import opened Wrappers
  import opened Json
  import opened WireFields
  import opened Portable

  // ----- the table -----

  /** A text, or null when none is configured. */
  predicate SaysText(value: Option<ConfigValue>, tree: Tree) {
    match value
    case None => tree == TNull
    case Some(StringValue(s)) => tree == TStr(s)
    case _ => false
  }

  /** A directory as it is rendered, or null. */
  predicate SaysDirectory(render: Rendering, value: Option<ConfigValue>, tree: Tree) {
    match value
    case None => tree == TNull
    case Some(StringValue(s)) => tree == TStr(render.cwd(s))
    case _ => false
  }

  /** A new tab or pane takes the focus unless that is switched off. */
  predicate SaysFocus(value: Option<ConfigValue>, tree: Tree) {
    tree == TBool(!value.Some? || value.value != BooleanValue(false))
    && (value.Some? ==> value.value.BooleanValue?)
  }

  /** The configured direction itself, if the host knows it. */
  predicate SaysDirection(value: ConfigValue, known: set<string>, tree: Tree) {
    match value
    case StringValue(s) => s in known && tree == TStr(s)
    case _ => false
  }

  /** The configured amount as a number; null when there is none, or when it is not finite. */
  predicate SaysAmount(render: Rendering, value: Option<ConfigValue>, tree: Tree) {
    match value
    case None => tree == TNull
    case Some(IntegerValue(n)) => tree == TNum(Float(render.double(n)))
    case Some(FloatValue(Finite(bits))) => tree == TNum(Float(bits))
    case Some(FloatValue(NotFinite)) => tree == TNull
    case _ => false
  }

  predicate SaysZoom(value: Option<ConfigValue>, tree: Tree) {
    match value
    case None => tree == TStr("toggle")
    case Some(BooleanValue(true)) => tree == TStr("on")
    case Some(BooleanValue(false)) => tree == TStr("off")
    case _ => false
  }

  /** The keys, one by one and in order, each as it is rendered. */
  predicate SaysKeys(render: Rendering, keys: seq<ConfigValue>, tree: Tree) {
    && tree.TArr? && |tree.items| == |keys|
    && forall i | 0 <= i < |keys| ::
         match keys[i]
         case StringValue(s) => render.key(s).Some? && tree.items[i] == TStr(render.key(s).value)
         case _ => false
  }

  const AROUND: set<string> := {"left", "right", "up", "down"}

  const APART: set<string> := {"right", "down"}

  predicate IsAt(captured: Option<string>, tree: Tree) {
    captured.Some? && tree == TStr(captured.value)
  }

  /** The request for a pane: its method, and the pane under its name. */
  predicate ForPane(place: Place, sent: Invocation, call: string, name: Param, others: set<Param>) {
    sent.call == call && sent.params.Keys == {name} + others && IsAt(place.pane, sent.params[name])
  }

  /** The same for a tab. A pane must have been captured as well. */
  predicate ForTab(place: Place, sent: Invocation, call: string, others: set<Param>) {
    && sent.call == call && sent.params.Keys == {TabParam} + others
    && place.pane.Some? && IsAt(place.tab, sent.params[TabParam])
  }

  /** What is to be sent for an action invoked at this place. */
  predicate Asks(render: Rendering, action: Action, place: Place, sent: Invocation) {
    var p := sent.params;
    match action
    case SendKeys(keys) => ForPane(place, sent, "pane.send_keys", PaneParam, {KeysParam})
        && SaysKeys(render, keys, p[KeysParam])
    case SendText(text) =>
      ForPane(place, sent, "pane.send_text", PaneParam, {TextParam}) && SaysText(Some(text), p[TextParam])
    case TabCreate(workspace, name, focus, command) =>
      && sent.call == "tab.create" && p.Keys == {WorkspaceParam, LabelParam, FocusParam, CwdParam}
      && place.pane.Some? && command.program.None?
      && SaysText(workspace, p[WorkspaceParam]) && SaysText(name, p[LabelParam])
      && SaysFocus(focus, p[FocusParam]) && SaysDirectory(render, command.cwd, p[CwdParam])
    case TabClose => ForTab(place, sent, "tab.close", {})
    case TabRename(name) =>
      ForTab(place, sent, "tab.rename", {LabelParam}) && name.Some? && SaysText(name, p[LabelParam])
    case TabMove(ByIndex(IntegerValue(n))) =>
      ForTab(place, sent, "tab.move", {IndexParam}) && n >= 0 && p[IndexParam] == TNum(Integer(n))
    case PaneSplit(split, focus, command) =>
      && ForPane(place, sent, "pane.split", TargetPaneParam, {DirectionParam, FocusParam, CwdParam})
      && command.program.None? && split.Some? && SaysDirection(split.value, APART, p[DirectionParam])
      && SaysFocus(focus, p[FocusParam]) && SaysDirectory(render, command.cwd, p[CwdParam])
    case PaneClose => ForPane(place, sent, "pane.close", PaneParam, {})
    case PaneFocus(Toward(direction)) =>
      ForPane(place, sent, "pane.focus_direction", PaneParam, {DirectionParam})
      && SaysDirection(direction, AROUND, p[DirectionParam])
    case PaneSwap(Toward(direction)) =>
      ForPane(place, sent, "pane.swap", PaneParam, {DirectionParam})
      && SaysDirection(direction, AROUND, p[DirectionParam])
    case PaneResize(direction, amount) =>
      && ForPane(place, sent, "pane.resize", PaneParam, {DirectionParam, AmountParam})
      && SaysDirection(direction, AROUND, p[DirectionParam]) && SaysAmount(render, amount, p[AmountParam])
    case PaneZoom(enabled) =>
      ForPane(place, sent, "pane.zoom", PaneParam, {ModeParam}) && SaysZoom(enabled, p[ModeParam])
    case _ => false
  }

  // ----- dispatch sends what the table asks for -----

  predicate Sends(render: Rendering, action: Action, place: Place, sent: Invocation) {
    Resolve(render, action).Some? && Build(render, Resolve(render, action).value, place) == Ok(sent)
  }

  lemma {:induction false} KeysAreSaid(render: Rendering, keys: seq<ConfigValue>)
    ensures ResolvedKeys(render, keys).Some? ==> SaysKeys(render, keys, TArr(Strings(ResolvedKeys(render, keys).value)))
    ensures ResolvedKeys(render, keys).None? ==> forall tree :: !SaysKeys(render, keys, tree)
  {
    KeysResolveExactly(render, keys);
    if ResolvedKeys(render, keys).Some? {
      if keys != [] {
        KeysAreSaid(render, keys[..|keys| - 1]);
        assert keys == keys[..|keys| - 1] + [keys[|keys| - 1]];
      }
    } else {
      var i :| 0 <= i < |keys| && !(keys[i].StringValue? && render.key(TextOf(keys[i]).value).Some?);
    }
  }

  lemma {:induction false} SameKeys(render: Rendering, keys: seq<ConfigValue>, a: Tree, b: Tree)
    requires SaysKeys(render, keys, a) && SaysKeys(render, keys, b)
    ensures a == b
  {
    forall i | 0 <= i < |keys|
      ensures a.items[i] == b.items[i]
    {
    }
    assert a.items == b.items;
  }

  lemma {:induction false} DirectionIsSaid(text: string)
    ensures ParseDirection(text).Some? ==> DirectionText(ParseDirection(text).value) == text
    ensures text in AROUND <==> ParseDirection(text).Some? && IsCardinal(ParseDirection(text).value)
    ensures text in APART <==> ParseDirection(text).Some?
                               && (ParseDirection(text).value.Right? || ParseDirection(text).value.Down?)
  {
  }

  lemma {:induction false} DirectionsRead(d: Direction)
    ensures ParseDirection(DirectionText(d)) == Some(d)
  {
  }

  lemma {:induction false} SendKeysExactly(render: Rendering, action: Action, place: Place, sent: Invocation)
    requires action.SendKeys?
    ensures Sends(render, action, place, sent) <==> Asks(render, action, place, sent)
  {
    KeysAreSaid(render, action.keys);
    if Asks(render, action, place, sent) {
      SameKeys(render, action.keys, sent.params[KeysParam], TArr(Strings(ResolvedKeys(render, action.keys).value)));
      assert sent.params == map[PaneParam := TStr(place.pane.value), KeysParam := sent.params[KeysParam]];
    }
  }

  lemma {:induction false} SendTextExactly(render: Rendering, action: Action, place: Place, sent: Invocation)
    requires action.SendText? && !IsContext(action.text)
    ensures Sends(render, action, place, sent) <==> Asks(render, action, place, sent)
  {
    if Asks(render, action, place, sent) {
      assert sent.params == map[PaneParam := TStr(place.pane.value), TextParam := sent.params[TextParam]];
    }
  }

  lemma {:induction false} TabCreateExactly(render: Rendering, action: Action, place: Place, sent: Invocation)
    requires action.TabCreate?
    ensures Sends(render, action, place, sent) <==> Asks(render, action, place, sent)
  {
    if Asks(render, action, place, sent) {
      var p := sent.params;
      assert p == map[WorkspaceParam := p[WorkspaceParam], LabelParam := p[LabelParam], FocusParam := p[FocusParam],
                      CwdParam := p[CwdParam]];
    }
  }

  lemma {:induction false} TabsExactly(render: Rendering, action: Action, place: Place, sent: Invocation)
    requires action.TabClose? || action.TabRename? || action.TabMove?
    ensures Sends(render, action, place, sent) <==> Asks(render, action, place, sent)
  {
    if Asks(render, action, place, sent) {
      var p := sent.params;
      match action
      case TabClose => assert p == map[TabParam := TStr(place.tab.value)];
      case TabRename(_) => assert p == map[TabParam := TStr(place.tab.value), LabelParam := p[LabelParam]];
      case TabMove(_) => assert p == map[TabParam := TStr(place.tab.value), IndexParam := p[IndexParam]];
    }
  }

  lemma {:induction false} PaneSplitExactly(render: Rendering, action: Action, place: Place, sent: Invocation)
    requires action.PaneSplit? && Plain(action.split)
    ensures Sends(render, action, place, sent) <==> Asks(render, action, place, sent)
  {
    match action.split {
      case Some(StringValue(text)) => DirectionIsSaid(text);
      case _ =>
    }
    if Asks(render, action, place, sent) {
      var p := sent.params;
      assert p == map[TargetPaneParam := TStr(place.pane.value), DirectionParam := p[DirectionParam],
                      FocusParam := p[FocusParam], CwdParam := p[CwdParam]];
    }
  }

  lemma {:induction false} DirectedExactly(render: Rendering, action: Action, place: Place, sent: Invocation)
    requires action.PaneFocus? || action.PaneSwap?
    ensures Sends(render, action, place, sent) <==> Asks(render, action, place, sent)
  {
    match action.target {
      case Toward(StringValue(text)) => DirectionIsSaid(text);
      case _ =>
    }
    if Asks(render, action, place, sent) {
      var p := sent.params;
      assert p == map[PaneParam := TStr(place.pane.value), DirectionParam := p[DirectionParam]];
    }
  }

  lemma {:induction false} PaneResizeExactly(render: Rendering, action: Action, place: Place, sent: Invocation)
    requires action.PaneResize?
    ensures Sends(render, action, place, sent) <==> Asks(render, action, place, sent)
  {
    match action.direction {
      case StringValue(text) => DirectionIsSaid(text);
      case _ =>
    }
    if Asks(render, action, place, sent) {
      var p := sent.params;
      assert p == map[PaneParam := TStr(place.pane.value), DirectionParam := p[DirectionParam],
                      AmountParam := p[AmountParam]];
    }
  }

  lemma {:induction false} PaneZoomExactly(render: Rendering, action: Action, place: Place, sent: Invocation)
    requires action.PaneZoom? || action.PaneClose?
    ensures Sends(render, action, place, sent) <==> Asks(render, action, place, sent)
  {
    if Asks(render, action, place, sent) {
      var p := sent.params;
      if action.PaneClose? {
        assert p == map[PaneParam := TStr(place.pane.value)];
      } else {
        assert p == map[PaneParam := TStr(place.pane.value), ModeParam := p[ModeParam]];
      }
    }
  }

  lemma {:induction false} OthersSendNothing(render: Rendering, action: Action, place: Place, sent: Invocation)
    requires action.BrokerOwned? || action.TabFocus? || action.TabSwap? || action.PaneOpen? || action.PaneCreate?
             || action.PaneMove? || action.PaneShape? || action.Session?
    ensures !Sends(render, action, place, sent)
  {
  }

  /** For every action of literal or absent values, whatever was captured: dispatch sends a request if and only
      if the table asks for it. */
  lemma {:induction false} SendsExactly(render: Rendering, action: Action, place: Place, sent: Invocation)
    requires NoMarkers(action)
    ensures Sends(render, action, place, sent) <==> Asks(render, action, place, sent)
  {
    match action
    case SendKeys(_) => SendKeysExactly(render, action, place, sent);
    case SendText(_) => SendTextExactly(render, action, place, sent);
    case TabCreate(_, _, _, _) => TabCreateExactly(render, action, place, sent);
    case TabClose => TabsExactly(render, action, place, sent);
    case TabRename(_) => TabsExactly(render, action, place, sent);
    case TabMove(_) => TabsExactly(render, action, place, sent);
    case PaneSplit(_, _, _) => PaneSplitExactly(render, action, place, sent);
    case PaneClose => PaneZoomExactly(render, action, place, sent);
    case PaneFocus(_) => DirectedExactly(render, action, place, sent);
    case PaneSwap(_) => DirectedExactly(render, action, place, sent);
    case PaneResize(_, _) => PaneResizeExactly(render, action, place, sent);
    case PaneZoom(_) => PaneZoomExactly(render, action, place, sent);
    case _ => OthersSendNothing(render, action, place, sent);
  }

  // ----- loading accepts what the schema accepts of the request -----

  /** What a parameter is judged with when the configuration is loaded: a stand-in for what is captured later,
      keys and directories as they are spelt, and everything else as it will be sent. An amount that is not
      finite has no such value. */
  function Judged(action: Action, sent: Invocation, name: Param): Option<Tree>
    requires name in sent.params
  {
    match name
    case PaneParam => Some(TStr("pane"))
    case TargetPaneParam => Some(TStr("pane"))
    case TabParam => Some(TStr("tab"))
    case KeysParam => if action.SendKeys? then Some(TArr(Spelling(action.keys))) else None
    case CwdParam =>
      var command := if action.TabCreate? || action.PaneSplit? then action.command else Command(None, None);
      if command.cwd.None? then Some(TNull) else Some(TextTree(command.cwd.value))
    case AmountParam =>
      if action.PaneResize? && action.amount == Some(FloatValue(NotFinite)) then None else Some(sent.params[name])
    case _ => Some(sent.params[name])
  }

  function TextTree(value: ConfigValue): Tree {
    match value case StringValue(s) => TStr(s) case _ => TNull
  }

  function Spelling(keys: seq<ConfigValue>): (trees: seq<Tree>)
    ensures |trees| == |keys|
    ensures forall i | 0 <= i < |keys| :: trees[i] == TextTree(keys[i])
  {
    seq(|keys|, i requires 0 <= i < |keys| => TextTree(keys[i]))
  }

  /** What a field is probed with. */
  function ProbeOf(render: Rendering, action: Action, field: Emitted): Option<Tree> {
    match field.origin
    case Captured(expected) => Some(ContextProbe(expected))
    case Literal(kind) => Probe(render, action, field, kind)
    case Default(kind) => Probe(render, action, field, kind)
  }

  lemma {:induction false} KeysAreProbed(keys: seq<ConfigValue>)
    requires forall i | 0 <= i < |keys| :: keys[i].StringValue?
    ensures KeyProbes(keys) == Some(Spelling(keys))
  {
    if keys != [] {
      var front := keys[..|keys| - 1];
      KeysAreProbed(front);
      assert Spelling(keys) == Spelling(front) + [TextTree(keys[|keys| - 1])];
    }
  }

  /** The field is sent, and probed with what it is judged with. */
  predicate DescribesField(render: Rendering, action: Action, sent: Invocation, field: Emitted) {
    field.name in sent.params && ProbeOf(render, action, field) == Judged(action, sent, field.name)
  }

  predicate DescribesSent(render: Rendering, action: Action, d: Description, sent: Invocation) {
    && d.call == sent.call && Names(d.fields) == sent.params.Keys
    && forall i | 0 <= i < |d.fields| :: DescribesField(render, action, sent, d.fields[i])
  }

  lemma {:induction false} KeysDescribed(render: Rendering, action: Action, place: Place, sent: Invocation,
      d: Description)
    requires action.SendKeys? && Asks(render, action, place, sent) && Describe(KindOf(action)) == Ok(Some(d))
    ensures DescribesSent(render, action, d, sent)
  {
    KeysAreProbed(action.keys);
    assert Names(d.fields) == {d.fields[0].name, d.fields[1].name};
  }

  lemma {:induction false} CloseField(render: Rendering, action: Action, place: Place, sent: Invocation,
      d: Description, i: nat)
    requires (action.TabClose? || action.PaneClose?) && Asks(render, action, place, sent)
        && Describe(KindOf(action)) == Ok(Some(d))
    requires i < |d.fields|
    ensures DescribesField(render, action, sent, d.fields[i])
  {
  }

  lemma {:induction false} CloseShape(render: Rendering, action: Action, place: Place, sent: Invocation,
      d: Description)
    requires (action.TabClose? || action.PaneClose?) && Asks(render, action, place, sent)
        && Describe(KindOf(action)) == Ok(Some(d))
    ensures d.call == sent.call && Names(d.fields) == sent.params.Keys
  {
    assert Names(d.fields) == {d.fields[0].name};
  }

  lemma {:induction false} RenameField(render: Rendering, action: Action, place: Place, sent: Invocation,
      d: Description, i: nat)
    requires action.TabRename? && Asks(render, action, place, sent) && Describe(KindOf(action)) == Ok(Some(d))
    requires i < |d.fields|
    ensures DescribesField(render, action, sent, d.fields[i])
  {
  }

  lemma {:induction false} RenameShape(render: Rendering, action: Action, place: Place, sent: Invocation,
      d: Description)
    requires action.TabRename? && Asks(render, action, place, sent) && Describe(KindOf(action)) == Ok(Some(d))
    ensures d.call == sent.call && Names(d.fields) == sent.params.Keys
  {
    assert Names(d.fields) == {d.fields[0].name, d.fields[1].name};
  }

  lemma {:induction false} MoveField(render: Rendering, action: Action, place: Place, sent: Invocation,
      d: Description, i: nat)
    requires action.TabMove? && Asks(render, action, place, sent) && Describe(KindOf(action)) == Ok(Some(d))
    requires i < |d.fields|
    ensures DescribesField(render, action, sent, d.fields[i])
  {
  }

  lemma {:induction false} MoveShape(render: Rendering, action: Action, place: Place, sent: Invocation,
      d: Description)
    requires action.TabMove? && Asks(render, action, place, sent) && Describe(KindOf(action)) == Ok(Some(d))
    ensures d.call == sent.call && Names(d.fields) == sent.params.Keys
  {
    assert Names(d.fields) == {d.fields[0].name, d.fields[1].name};
  }

  lemma {:induction false} TextField(render: Rendering, action: Action, place: Place, sent: Invocation,
      d: Description, i: nat)
    requires action.SendText? && Asks(render, action, place, sent) && Describe(KindOf(action)) == Ok(Some(d))
    requires i < |d.fields|
    ensures DescribesField(render, action, sent, d.fields[i])
  {
  }

  lemma {:induction false} TextShape(render: Rendering, action: Action, place: Place, sent: Invocation,
      d: Description)
    requires action.SendText? && Asks(render, action, place, sent) && Describe(KindOf(action)) == Ok(Some(d))
    ensures d.call == sent.call && Names(d.fields) == sent.params.Keys
  {
    assert Names(d.fields) == {d.fields[0].name, d.fields[1].name};
  }

  lemma {:induction false} ZoomField(render: Rendering, action: Action, place: Place, sent: Invocation,
      d: Description, i: nat)
    requires action.PaneZoom? && Asks(render, action, place, sent) && Describe(KindOf(action)) == Ok(Some(d))
    requires i < |d.fields|
    ensures DescribesField(render, action, sent, d.fields[i])
  {
  }

  lemma {:induction false} ZoomShape(render: Rendering, action: Action, place: Place, sent: Invocation,
      d: Description)
    requires action.PaneZoom? && Asks(render, action, place, sent) && Describe(KindOf(action)) == Ok(Some(d))
    ensures d.call == sent.call && Names(d.fields) == sent.params.Keys
  {
    assert Names(d.fields) == {d.fields[0].name, d.fields[1].name};
  }

  lemma {:induction false} CreateField(render: Rendering, action: Action, place: Place, sent: Invocation,
      d: Description, i: nat)
    requires action.TabCreate? && Asks(render, action, place, sent) && Describe(KindOf(action)) == Ok(Some(d))
    requires i < |d.fields|
    ensures DescribesField(render, action, sent, d.fields[i])
  {
  }

  lemma {:induction false} CreateShape(render: Rendering, action: Action, place: Place, sent: Invocation,
      d: Description)
    requires action.TabCreate? && Asks(render, action, place, sent) && Describe(KindOf(action)) == Ok(Some(d))
    ensures d.call == sent.call && Names(d.fields) == sent.params.Keys
  {
    assert Names(d.fields) == {d.fields[0].name, d.fields[1].name, d.fields[2].name, d.fields[3].name};
  }

  lemma {:induction false} SplitField(render: Rendering, action: Action, place: Place, sent: Invocation,
      d: Description, i: nat)
    requires action.PaneSplit? && Asks(render, action, place, sent) && Describe(KindOf(action)) == Ok(Some(d))
    requires i < |d.fields|
    ensures DescribesField(render, action, sent, d.fields[i])
  {
    match action.split {
      case Some(StringValue(text)) => DirectionIsSaid(text);
      case _ =>
    }
  }

  lemma {:induction false} SplitShape(render: Rendering, action: Action, place: Place, sent: Invocation,
      d: Description)
    requires action.PaneSplit? && Asks(render, action, place, sent) && Describe(KindOf(action)) == Ok(Some(d))
    ensures d.call == sent.call && Names(d.fields) == sent.params.Keys
  {
    assert Names(d.fields) == {d.fields[0].name, d.fields[1].name, d.fields[2].name, d.fields[3].name};
  }

  lemma {:induction false} DirectedField(render: Rendering, action: Action, place: Place, sent: Invocation,
      d: Description, i: nat)
    requires (action.PaneFocus? || action.PaneSwap?) && Asks(render, action, place, sent)
        && Describe(KindOf(action)) == Ok(Some(d))
    requires i < |d.fields|
    ensures DescribesField(render, action, sent, d.fields[i])
  {
    match action.target {
      case Toward(StringValue(text)) => DirectionIsSaid(text);
      case _ =>
    }
  }

  lemma {:induction false} DirectedShape(render: Rendering, action: Action, place: Place, sent: Invocation,
      d: Description)
    requires (action.PaneFocus? || action.PaneSwap?) && Asks(render, action, place, sent)
        && Describe(KindOf(action)) == Ok(Some(d))
    ensures d.call == sent.call && Names(d.fields) == sent.params.Keys
  {
    assert Names(d.fields) == {d.fields[0].name, d.fields[1].name};
  }

  lemma {:induction false} ResizeField(render: Rendering, action: Action, place: Place, sent: Invocation,
      d: Description, i: nat)
    requires action.PaneResize? && Asks(render, action, place, sent) && Describe(KindOf(action)) == Ok(Some(d))
    requires i < |d.fields|
    ensures DescribesField(render, action, sent, d.fields[i])
  {
    match action.direction {
      case StringValue(text) => DirectionIsSaid(text);
      case _ =>
    }
  }

  lemma {:induction false} ResizeShape(render: Rendering, action: Action, place: Place, sent: Invocation,
      d: Description)
    requires action.PaneResize? && Asks(render, action, place, sent) && Describe(KindOf(action)) == Ok(Some(d))
    ensures d.call == sent.call && Names(d.fields) == sent.params.Keys
  {
    assert Names(d.fields) == {d.fields[0].name, d.fields[1].name, d.fields[2].name};
  }

  lemma {:induction false} OneField(render: Rendering, action: Action, place: Place, sent: Invocation, d: Description,
      i: nat)
    requires !action.SendKeys? && Asks(render, action, place, sent) && Describe(KindOf(action)) == Ok(Some(d))
    requires i < |d.fields|
    ensures DescribesField(render, action, sent, d.fields[i])
  {
    match action
    case TabClose => CloseField(render, action, place, sent, d, i);
    case PaneClose => CloseField(render, action, place, sent, d, i);
    case TabRename(_) => RenameField(render, action, place, sent, d, i);
    case TabMove(_) => MoveField(render, action, place, sent, d, i);
    case SendText(_) => TextField(render, action, place, sent, d, i);
    case PaneZoom(_) => ZoomField(render, action, place, sent, d, i);
    case TabCreate(_, _, _, _) => CreateField(render, action, place, sent, d, i);
    case PaneSplit(_, _, _) => SplitField(render, action, place, sent, d, i);
    case PaneFocus(_) => DirectedField(render, action, place, sent, d, i);
    case PaneSwap(_) => DirectedField(render, action, place, sent, d, i);
    case PaneResize(_, _) => ResizeField(render, action, place, sent, d, i);
  }

  lemma {:induction false} Shape(render: Rendering, action: Action, place: Place, sent: Invocation, d: Description)
    requires !action.SendKeys? && Asks(render, action, place, sent) && Describe(KindOf(action)) == Ok(Some(d))
    ensures d.call == sent.call && Names(d.fields) == sent.params.Keys
  {
    match action
    case TabClose => CloseShape(render, action, place, sent, d);
    case PaneClose => CloseShape(render, action, place, sent, d);
    case TabRename(_) => RenameShape(render, action, place, sent, d);
    case TabMove(_) => MoveShape(render, action, place, sent, d);
    case SendText(_) => TextShape(render, action, place, sent, d);
    case PaneZoom(_) => ZoomShape(render, action, place, sent, d);
    case TabCreate(_, _, _, _) => CreateShape(render, action, place, sent, d);
    case PaneSplit(_, _, _) => SplitShape(render, action, place, sent, d);
    case PaneFocus(_) => DirectedShape(render, action, place, sent, d);
    case PaneSwap(_) => DirectedShape(render, action, place, sent, d);
    case PaneResize(_, _) => ResizeShape(render, action, place, sent, d);
  }

  /** What is described is what is asked for, field by field with its probe. */
  lemma {:induction false} Described(render: Rendering, action: Action, place: Place, sent: Invocation, d: Description)
    requires Asks(render, action, place, sent) && Describe(KindOf(action)) == Ok(Some(d))
    ensures DescribesSent(render, action, d, sent)
  {
    if action.SendKeys? {
      KeysDescribed(render, action, place, sent, d);
    } else {
      Shape(render, action, place, sent, d);
      forall i | 0 <= i < |d.fields|
        ensures DescribesField(render, action, sent, d.fields[i])
      {
        OneField(render, action, place, sent, d, i);
      }
    }
  }

  /** What the schema says of the request, parameter by parameter. */
  predicate SchemaAccepts(schema: Schema, action: Action, sent: Invocation, properties: map<Param, Json>,
      required: seq<Param>)
  {
    && (forall name <- required :: name in sent.params)
    && sent.params.Keys <= properties.Keys
    && forall name <- sent.params ::
         && Judged(action, sent, name).Some?
         && name in properties && schema.judge(properties[name], Judged(action, sent, name).value)
  }

  predicate JudgedWell(schema: Schema, action: Action, sent: Invocation, name: Param, property: Json)
    requires name in sent.params
  {
    Judged(action, sent, name).Some? && schema.judge(property, Judged(action, sent, name).value)
  }

  predicate FieldsMatch(render: Rendering, schema: Schema, action: Action, sent: Invocation, d: Description,
      properties: map<Param, Json>)
  {
    && (forall name <- sent.params :: exists i | 0 <= i < |d.fields| :: d.fields[i].name == name)
    && forall i | 0 <= i < |d.fields| ::
         && d.fields[i].name in sent.params
         && (d.fields[i].name in properties ==>
               (FieldAccepted(render, schema, action, d.fields[i], properties[d.fields[i].name])
                <==> JudgedWell(schema, action, sent, d.fields[i].name, properties[d.fields[i].name])))
  }

  lemma {:induction false} AcceptedByDeclared(render: Rendering, schema: Schema, action: Action, sent: Invocation,
      d: Description, properties: map<Param, Json>, required: seq<Param>)
    requires FieldsMatch(render, schema, action, sent, d, properties)
    requires DeclaredAccepted(render, schema, action, d.fields, properties, required)
    ensures SchemaAccepts(schema, action, sent, properties, required)
  {
    forall name <- sent.params
      ensures name in properties && JudgedWell(schema, action, sent, name, properties[name])
    {
      var i :| 0 <= i < |d.fields| && d.fields[i].name == name;
      assert d.fields[i] in d.fields;
    }
    forall name <- required
      ensures name in sent.params
    {
      var field :| field in d.fields && field.name == name;
      var i :| 0 <= i < |d.fields| && d.fields[i] == field;
    }
  }

  lemma {:induction false} DeclaredByAccepted(render: Rendering, schema: Schema, action: Action, sent: Invocation,
      d: Description, properties: map<Param, Json>, required: seq<Param>)
    requires FieldsMatch(render, schema, action, sent, d, properties)
    requires SchemaAccepts(schema, action, sent, properties, required)
    ensures DeclaredAccepted(render, schema, action, d.fields, properties, required)
  {
    forall field <- d.fields
      ensures field.name in properties && FieldAccepted(render, schema, action, field, properties[field.name])
    {
      var i :| 0 <= i < |d.fields| && d.fields[i] == field;
    }
    forall name <- required
      ensures exists field <- d.fields :: field.name == name
    {
      var i :| 0 <= i < |d.fields| && d.fields[i].name == name;
      assert d.fields[i] in d.fields;
    }
  }

  lemma {:induction false} OneFieldMatches(render: Rendering, schema: Schema, action: Action, sent: Invocation,
      field: Emitted, property: Json)
    requires NoMarkers(action) && DescribesField(render, action, sent, field)
    ensures FieldAccepted(render, schema, action, field, property)
            <==> JudgedWell(schema, action, sent, field.name, property)
  {
    NoMarkerBehind(action, field.name);
  }

  lemma {:induction false} AllFieldsMatch(render: Rendering, schema: Schema, action: Action, sent: Invocation,
      d: Description, properties: map<Param, Json>)
    requires NoMarkers(action) && DescribesSent(render, action, d, sent)
    ensures FieldsMatch(render, schema, action, sent, d, properties)
  {
    forall i | 0 <= i < |d.fields| && d.fields[i].name in properties
      ensures FieldAccepted(render, schema, action, d.fields[i], properties[d.fields[i].name])
              <==> JudgedWell(schema, action, sent, d.fields[i].name, properties[d.fields[i].name])
    {
      OneFieldMatches(render, schema, action, sent, d.fields[i], properties[d.fields[i].name]);
    }
    forall name <- sent.params
      ensures exists i | 0 <= i < |d.fields| :: d.fields[i].name == name
    {
      assert name in Names(d.fields);
    }
  }

  /** Take any action of literal or absent values and the request that is asked for it anywhere, and a schema
      that declares the method's parameters. Loading accepts the action if and only if every required parameter
      is among those sent, every one sent is declared, and the schema accepts each. */
  lemma {:induction false} LoadingExactly(render: Rendering, schema: Schema, action: Action, place: Place,
      sent: Invocation, d: Description, properties: map<Param, Json>, required: seq<Param>)
    requires NoMarkers(action) && Asks(render, action, place, sent) && Describe(KindOf(action)) == Ok(Some(d))
    requires schema.methods(sent.call) == Some(Params(Some(properties), Some(required)))
    ensures LoadAccepted(render, schema, action, d) <==> SchemaAccepts(schema, action, sent, properties, required)
  {
    Described(render, action, place, sent, d);
    AllFieldsMatch(render, schema, action, sent, d, properties);
    if DeclaredAccepted(render, schema, action, d.fields, properties, required) {
      AcceptedByDeclared(render, schema, action, sent, d, properties, required);
    }
    if SchemaAccepts(schema, action, sent, properties, required) {
      DeclaredByAccepted(render, schema, action, sent, d, properties, required);
    }
  }

  predicate AllJudged(action: Action, sent: Invocation, names: set<Param>)
    requires names <= sent.params.Keys
  {
    forall name <- names :: Judged(action, sent, name).Some?
  }

  function JudgedParams(action: Action, sent: Invocation, names: set<Param>): map<Param, Tree>
    requires names <= sent.params.Keys && AllJudged(action, sent, names)
  {
    map name | name in names :: Judged(action, sent, name).value
  }

  lemma {:induction false} NamesOneMore(front: seq<Emitted>, last: Emitted)
    ensures Names(front + [last]) == Names(front) + {last.name}
  {
    var fields := front + [last];
    forall name <- Names(fields)
      ensures name in Names(front) || name == last.name
    {
      var i :| 0 <= i < |fields| && fields[i].name == name;
      assert i < |front| ==> front[i].name == name;
    }
    forall name <- Names(front)
      ensures name in Names(fields)
    {
      var i :| 0 <= i < |front| && front[i].name == name;
      assert fields[i].name == name;
    }
    assert fields[|front|] == last;
  }

  predicate WholeAsJudged(render: Rendering, action: Action, sent: Invocation, fields: seq<Emitted>) {
    forall i | 0 <= i < |fields| ::
      fields[i].name in sent.params && WholeProbe(render, action, fields[i]) == Judged(action, sent, fields[i].name)
  }

  lemma {:induction false} WholeParamsAre(render: Rendering, action: Action, sent: Invocation, fields: seq<Emitted>)
    requires WholeAsJudged(render, action, sent, fields) && Names(fields) <= sent.params.Keys
    ensures WholeParams(render, action, fields)
            == if AllJudged(action, sent, Names(fields)) then Some(JudgedParams(action, sent, Names(fields))) else None
  {
    if fields != [] {
      var front, last := fields[..|fields| - 1], fields[|fields| - 1];
      assert fields == front + [last] && fields[|front|] == last;
      NamesOneMore(front, last);
      WholeParamsAre(render, action, sent, front);
      assert AllJudged(action, sent, Names(fields))
             <==> AllJudged(action, sent, Names(front)) && Judged(action, sent, last.name).Some?;
      if AllJudged(action, sent, Names(fields)) {
        assert JudgedParams(action, sent, Names(fields))
               == JudgedParams(action, sent, Names(front))[last.name := Judged(action, sent, last.name).value];
      }
    }
  }

  lemma {:induction false} WholeDescribed(render: Rendering, action: Action, d: Description, sent: Invocation)
    requires NoMarkers(action) && Describe(KindOf(action)) == Ok(Some(d)) && DescribesSent(render, action, d, sent)
    ensures WholeAsJudged(render, action, sent, d.fields)
  {
    forall i | 0 <= i < |d.fields|
      ensures WholeProbe(render, action, d.fields[i]) == Judged(action, sent, d.fields[i].name)
    {
      assert DescribesField(render, action, sent, d.fields[i]);
      if Configured(d.fields[i]) {
        WholeProbesAgree(render, action, d, i);
      }
    }
  }

  /** The same where the method declares no parameters of its own: the request is judged as a whole. */
  lemma {:induction false} WholeLoadingExactly(render: Rendering, schema: Schema, action: Action, place: Place,
      sent: Invocation, d: Description, required: Option<seq<Param>>)
    requires NoMarkers(action) && Asks(render, action, place, sent) && Describe(KindOf(action)) == Ok(Some(d))
    requires schema.methods(sent.call) == Some(Params(None, required))
    ensures LoadAccepted(render, schema, action, d) <==>
              && AllJudged(action, sent, sent.params.Keys)
              && schema.judgeAll(sent.call, JudgedParams(action, sent, sent.params.Keys))
  {
    Described(render, action, place, sent, d);
    WholeDescribed(render, action, d, sent);
    WholeParamsAre(render, action, sent, d.fields);
  }

  // ----- which actions are single requests -----

  /** The target names a position: a whole number, or a context value to come. */
  ghost predicate NamesPosition(target: Target) {
    && target.ByIndex?
    && (target.index.ContextValue? || exists n: nat :: target.index == IntegerValue(n))
  }

  /** The target names one of these directions, or a context value to come. */
  ghost predicate NamesDirection(value: ConfigValue, known: set<string>) {
    value.ContextValue? || exists text :: text in known && value == StringValue(text)
  }

  /** The action is left to the broker, or to a sequence of requests. */
  ghost predicate GoesElsewhere(action: Action) {
    match action
    case BrokerOwned => true
    case PaneOpen => true
    case TabCreate(_, _, _, command) => command.program.Some?
    case TabSwap(target) => NamesPosition(target)
    case _ => false
  }

  /** The host has no request for it. */
  ghost predicate HostCannot(action: Action) {
    match action
    case TabRename(name) => name.None?
    case TabFocus(_) => true
    case TabMove(target) => !NamesPosition(target)
    case TabSwap(target) => !NamesPosition(target)
    case PaneCreate => true
    case PaneSplit(split, _, command) =>
      split.None? || !NamesDirection(split.value, APART) || command.program.Some?
    case PaneFocus(target) => target.ByIndex? || !NamesDirection(target.direction, AROUND)
    case PaneMove(_) => true
    case PaneSwap(target) => target.ByIndex? || !NamesDirection(target.direction, AROUND)
    case PaneShape => true
    case Session => true
    case _ => false
  }

  lemma {:induction false} SupportedExactly(value: ConfigValue)
    ensures Supported(value, false) <==> NamesDirection(value, AROUND)
    ensures Supported(value, true) <==> NamesDirection(value, APART)
  {
    match value
    case StringValue(text) => DirectionIsSaid(text);
    case _ =>
  }

  lemma {:induction false} TargetsExactly(target: Target)
    ensures IsIndex(target) <==> NamesPosition(target)
    ensures IsCardinalTarget(target) <==> target.Toward? && NamesDirection(target.direction, AROUND)
  {
    match target
    case ByIndex(IntegerValue(n)) =>
      if n >= 0 {
        var m: nat := n;
        assert target.index == IntegerValue(m);
      }
    case ByIndex(_) =>
    case Toward(direction) => SupportedExactly(direction);
  }

  /** Every action is one of three kinds: left to others, refused, or one request. */
  lemma {:induction false} KindsExactly(action: Action)
    ensures Describe(KindOf(action)) == Ok(None) <==> GoesElsewhere(action)
    ensures Describe(KindOf(action)).Err? <==> HostCannot(action)
  {
    match action
    case TabMove(target) => TargetsExactly(target);
    case TabSwap(target) => TargetsExactly(target);
    case PaneFocus(target) => TargetsExactly(target);
    case PaneSwap(target) => TargetsExactly(target);
    case PaneSplit(Some(split), _, _) => SupportedExactly(split);
    case _ =>
  }

  /** The JSON types a value has. */
  function TypesOf(tree: Tree): set<string> {
    match tree
    case TNull => {"null"}
    case TBool(_) => {"boolean"}
    case TNum(Integer(_)) => {"integer", "number"}
    case TNum(Float(_)) => {"number"}
    case TStr(_) => {"string"}
    case TArr(_) => {"array"}
    case TObj(_) => {"object"}
  }

  /** A key that loading can probe: a text, or a text that the context will supply. */
  predicate IsKey(key: ConfigValue) {
    match key
    case StringValue(_) => true
    case ContextValue(_, expected) => expected == String
    case _ => false
  }

  /** A key list is probed exactly when every entry is a text or will be one; each is probed as it is spelt, or by
      the placeholder, in order. */
  lemma {:induction false} KeyProbesExactly(keys: seq<ConfigValue>)
    ensures KeyProbes(keys).Some? <==> forall i | 0 <= i < |keys| :: IsKey(keys[i])
    ensures KeyProbes(keys).Some? ==>
              && |KeyProbes(keys).value| == |keys|
              && forall i | 0 <= i < |keys| ::
                   KeyProbes(keys).value[i]
                   == match keys[i] case StringValue(s) => TStr(s) case _ => TStr("muxe-context")
  {
    if keys != [] {
      var n := |keys| - 1;
      var front := keys[..n];
      KeyProbesExactly(front);
      assert forall i | 0 <= i < n :: front[i] == keys[i];
    }
  }

  /** A value that the context will supply fits a parameter exactly when the schema takes values of the type that
      its placeholder has. */
  lemma {:induction false} MarkersFitExactly(schema: Schema, expected: ContextType, property: Json)
    ensures MarkerFits(schema, expected, property)
            <==> schema.types(property).Some?
                 && exists t <- TypesOf(ContextProbe(expected)) :: t in schema.types(property).value
    ensures TypesOf(ContextProbe(expected)) == TypesOf(Placeholder(expected))
  {
    var types := TypesOf(ContextProbe(expected));
    assert expected.UnsignedInteger? ==> "integer" in types && "number" in types;
    assert !expected.UnsignedInteger? ==> "string" in types;
  }

  /** A parameter whose value the context will supply is accepted exactly when the schema takes values of that type;
      but a zoom cannot be left to the context. */
  lemma {:induction false} ContextFieldExactly(render: Rendering, schema: Schema, action: Action, field: Emitted,
      kind: ScalarKind, path: string, expected: ContextType, property: Json)
    requires field.origin in {Literal(kind), Default(kind)} && !kind.KeysKind?
    requires ScalarFor(action, field.name) == Some(ContextValue(path, expected))
    ensures FieldAccepted(render, schema, action, field, property) <==>
              && field.name != ModeParam && schema.types(property).Some?
              && exists t <- TypesOf(Placeholder(expected)) :: t in schema.types(property).value
  {
    MarkersFitExactly(schema, expected, property);
  }

  /** Loading refuses an action whose method the schema does not declare, with an object for its parameters and a
      list of names for the required ones; and, where parameters are declared, a zoom that is left to the context. */
  lemma {:induction false} RefusedWhenUndeclared(render: Rendering, schema: Schema, action: Action, d: Description)
    requires Describe(KindOf(action)) == Ok(Some(d)) && LoadAccepted(render, schema, action, d)
    ensures var declared := schema.methods(d.call);
            && declared.Some? && declared.value.Params?
            && (declared.value.properties.Some? ==> declared.value.required.Some?)
    ensures action.PaneZoom? && schema.methods(d.call).value.properties.Some? ==>
              action.enabled.None? || action.enabled.value.BooleanValue?
  {
    if action.PaneZoom? {
      assert d.fields[1] == Emitted(ModeParam, Default(StringKind)) && d.fields[1] in d.fields;
    }
  }
}
