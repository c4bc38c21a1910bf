/** Portable actions that become one host request: what loading a configuration checks, and what dispatch
later sends. */
module Portable {
  import opened Wrappers
  import opened Json
  import opened WireFields

  // ----- configured actions -----

  datatype Direction = Left | Right | Up | Down | Next | Previous

  datatype Target = ByIndex(index: ConfigValue) | Toward(direction: ConfigValue)

  datatype Command = Command(program: Option<ConfigValue>, cwd: Option<ConfigValue>)

  datatype Action =
    | BrokerOwned
    | SendKeys(keys: seq<ConfigValue>)
    | SendText(text: ConfigValue)
    | TabCreate(workspace: Option<ConfigValue>, name: Option<ConfigValue>, focus: Option<ConfigValue>, command: Command)
    | TabClose
    | TabRename(name: Option<ConfigValue>)
    | TabFocus(target: Target)
    | TabMove(target: Target)
    | TabSwap(target: Target)
    | PaneOpen
    | PaneCreate
    | PaneSplit(split: Option<ConfigValue>, focus: Option<ConfigValue>, command: Command)
    | PaneClose
    | PaneFocus(target: Target)
    | PaneMove(target: Target)
    | PaneSwap(target: Target)
    | PaneResize(direction: ConfigValue, amount: Option<ConfigValue>)
    | PaneZoom(enabled: Option<ConfigValue>)
    | PaneShape
    | Session

  /** The wire name of a parameter: those that portable actions emit, or another one a schema declares. */
  datatype Param =
    | PaneParam | TabParam | TargetPaneParam | WorkspaceParam | LabelParam | FocusParam | CwdParam | KeysParam
    | TextParam | IndexParam | DirectionParam | AmountParam | ModeParam | OtherParam(string)

  datatype ScalarKind = StringKind | BoolKind | IndexKind | NumberKind | SplitKind | PaneDirectionKind | KeysKind

  datatype Origin = Captured(ContextType) | Literal(ScalarKind) | Default(ScalarKind)

  datatype Emitted = Emitted(name: Param, origin: Origin)

  datatype Description = Description(call: string, fields: seq<Emitted>)

  /** The shape of an action, the same before and after its values are resolved. */
  datatype Kind =
    | OwnedKind | KeysForm | TextForm | CreateForm(command: bool) | CloseTabForm | RenameForm(named: bool) | FocusTabForm
    | MoveTabForm(index: bool) | SwapTabForm(index: bool) | OpenForm | CreatePaneForm
    | SplitForm(direction: Option<bool>, command: bool) | ClosePaneForm | FocusForm(cardinal: bool) | MovePaneForm
    | SwapForm(cardinal: bool) | ResizeForm | ZoomForm | ShapeForm | SessionForm

  const PANE := Emitted(PaneParam, Captured(PaneId))

  const TAB := Emitted(TabParam, Captured(TabId))

  const LABEL := Emitted(LabelParam, Literal(StringKind))

  const FOCUS := Emitted(FocusParam, Default(BoolKind))

  const CWD := Emitted(CwdParam, Literal(StringKind))

  const DIRECTION := Emitted(DirectionParam, Literal(PaneDirectionKind))

  /** The one request an action of this shape emits; none when it is run another way; an error when the
      host cannot run it. */
  function Describe(kind: Kind): Result<Option<Description>, ()> {
    match kind
    case OwnedKind => Ok(None)
    case OpenForm => Ok(None)
    case KeysForm => Ok(Some(Description("pane.send_keys", [PANE, Emitted(KeysParam, Literal(KeysKind))])))
    case TextForm => Ok(Some(Description("pane.send_text", [PANE, Emitted(TextParam, Literal(StringKind))])))
    case CreateForm(command) =>
      if command then Ok(None)
      else Ok(Some(Description("tab.create", [Emitted(WorkspaceParam, Literal(StringKind)), LABEL, FOCUS, CWD])))
    case CloseTabForm => Ok(Some(Description("tab.close", [TAB])))
    case RenameForm(named) =>
      if named then Ok(Some(Description("tab.rename", [TAB, LABEL]))) else Err(())
    case FocusTabForm => Err(())
    case MoveTabForm(index) =>
      if index then Ok(Some(Description("tab.move", [TAB, Emitted(IndexParam, Literal(IndexKind))]))) else Err(())
    case SwapTabForm(index) => if index then Ok(None) else Err(())
    case CreatePaneForm => Err(())
    case SplitForm(direction, command) =>
      if direction == Some(true) && !command
      then Ok(Some(Description("pane.split", [Emitted(TargetPaneParam, Captured(PaneId)),
                                             Emitted(DirectionParam, Literal(SplitKind)), FOCUS, CWD])))
      else Err(())
    case ClosePaneForm => Ok(Some(Description("pane.close", [PANE])))
    case FocusForm(cardinal) =>
      if cardinal then Ok(Some(Description("pane.focus_direction", [PANE, DIRECTION])))
      else Err(())
    case MovePaneForm => Err(())
    case SwapForm(cardinal) =>
      if cardinal then Ok(Some(Description("pane.swap", [PANE, DIRECTION]))) else Err(())
    case ResizeForm =>
      Ok(Some(Description("pane.resize", [PANE, DIRECTION, Emitted(AmountParam, Literal(NumberKind))])))
    case ZoomForm => Ok(Some(Description("pane.zoom", [PANE, Emitted(ModeParam, Default(StringKind))])))
    case ShapeForm => Err(())
    case SessionForm => Err(())
  }

  // ----- reading configured values -----

  function ParseDirection(text: string): Option<Direction> {
    if text == "left" then Some(Left) else if text == "right" then Some(Right) else if text == "up" then Some(Up)
    else if text == "down" then Some(Down) else if text == "next" then Some(Next)
    else if text == "previous" then Some(Previous) else None
  }

  function DirectionOf(value: ConfigValue): Option<Direction> {
    match value
    case StringValue(text) => ParseDirection(text)
    case _ => None
  }

  predicate IsCardinal(d: Direction) {
    d.Left? || d.Right? || d.Up? || d.Down?
  }

  function DirectionText(d: Direction): string {
    match d
    case Left => "left"
    case Right => "right"
    case Up => "up"
    case Down => "down"
    case Next => "next"
    case Previous => "previous"
  }

  predicate IsContext(value: ConfigValue) {
    value.ContextValue?
  }

  predicate Supported(value: ConfigValue, split: bool) {
    IsContext(value)
    || match DirectionOf(value)
       case Some(d) => if split then d.Right? || d.Down? else IsCardinal(d)
       case None => false
  }

  predicate IsIndex(target: Target) {
    target.ByIndex? && match target.index
                       case IntegerValue(n) => n >= 0
                       case ContextValue(_, _) => true
                       case _ => false
  }

  predicate IsCardinalTarget(target: Target) {
    target.Toward? && Supported(target.direction, false)
  }

  function KindOf(action: Action): Kind {
    match action
    case BrokerOwned => OwnedKind
    case SendKeys(_) => KeysForm
    case SendText(_) => TextForm
    case TabCreate(_, _, _, command) => CreateForm(command.program.Some?)
    case TabClose => CloseTabForm
    case TabRename(name) => RenameForm(name.Some?)
    case TabFocus(_) => FocusTabForm
    case TabMove(target) => MoveTabForm(IsIndex(target))
    case TabSwap(target) => SwapTabForm(IsIndex(target))
    case PaneOpen => OpenForm
    case PaneCreate => CreatePaneForm
    case PaneSplit(split, _, command) =>
      SplitForm(if split.Some? then Some(Supported(split.value, true)) else None, command.program.Some?)
    case PaneClose => ClosePaneForm
    case PaneFocus(target) => FocusForm(IsCardinalTarget(target))
    case PaneMove(_) => MovePaneForm
    case PaneSwap(target) => SwapForm(IsCardinalTarget(target))
    case PaneResize(_, _) => ResizeForm
    case PaneZoom(_) => ZoomForm
    case PaneShape => ShapeForm
    case Session => SessionForm
  }

  /** How keys, directories and whole numbers are rendered elsewhere. */
  datatype Rendering = Rendering(key: string -> Option<string>, cwd: string -> string, double: int -> nat)

  // ----- the check when a configuration is loaded -----

  /** The parameters a method's schema declares, if it declares any; `required` is missing when the list
      is malformed. */
  datatype ParamsSchema = NotAnObject | Params(properties: Option<map<Param, Json>>, required: Option<seq<Param>>)

  /** What the loaded schema says about the bundled methods, and about values. */
  datatype Schema = Schema(methods: string -> Option<ParamsSchema>, judge: (Json, Tree) -> bool,
                           judgeAll: (string, map<Param, Tree>) -> bool, types: Json -> Option<set<string>>)

  /** The configured scalar behind an emitted field, if there is one. */
  function ScalarFor(action: Action, name: Param): Option<ConfigValue> {
    match (action, name)
    case (TabCreate(workspace, _, _, _), WorkspaceParam) => workspace
    case (TabCreate(_, label_, _, _), LabelParam) => label_
    case (TabRename(label_), LabelParam) => label_
    case (TabCreate(_, _, focus, _), FocusParam) => focus
    case (PaneSplit(_, focus, _), FocusParam) => focus
    case (TabCreate(_, _, _, command), CwdParam) => command.cwd
    case (PaneSplit(_, _, command), CwdParam) => command.cwd
    case (TabMove(ByIndex(index)), IndexParam) => Some(index)
    case (PaneSplit(split, _, _), DirectionParam) => split
    case (PaneFocus(Toward(direction)), DirectionParam) => Some(direction)
    case (PaneSwap(Toward(direction)), DirectionParam) => Some(direction)
    case (PaneResize(direction, _), DirectionParam) => Some(direction)
    case (PaneResize(_, amount), AmountParam) => amount
    case (PaneZoom(enabled), ModeParam) => enabled
    case (SendText(text), TextParam) => Some(text)
    case _ => None
  }

  function DefaultProbe(field: Emitted, kind: ScalarKind): Tree {
    if field.origin == Default(BoolKind) then TBool(true)
    else if field.origin == Default(StringKind) && field.name == ModeParam then TStr("toggle")
    else
      match kind
      case BoolKind => TBool(true)
      case KeysKind => TArr([])
      case _ => TNull
  }

  function ConvertedLiteral(render: Rendering, value: ConfigValue, kind: ScalarKind): Option<Tree> {
    match (kind, value)
    case (StringKind, StringValue(s)) => Some(TStr(s))
    case (BoolKind, BooleanValue(b)) => Some(TBool(b))
    case (IndexKind, IntegerValue(n)) => if n >= 0 then Some(TNum(Integer(n))) else None
    case (NumberKind, IntegerValue(n)) => Some(TNum(Float(render.double(n))))
    case (NumberKind, FloatValue(Finite(bits))) => Some(TNum(Float(bits)))
    case (SplitKind, StringValue(s)) =>
      (match ParseDirection(s)
       case Some(d) => if d.Right? || d.Down? then Some(TStr(DirectionText(d))) else None
       case None => None)
    case (PaneDirectionKind, StringValue(s)) =>
      (match ParseDirection(s)
       case Some(d) => if IsCardinal(d) then Some(TStr(DirectionText(d))) else None
       case None => None)
    case _ => None
  }

  function ZoomMode(enabled: bool): Tree {
    TStr(if enabled then "on" else "off")
  }

  /** The probe of one key: as it is spelt, or a stand-in for a context string. */
  function KeyProbe(key: ConfigValue): Option<Tree> {
    match key
    case StringValue(s) => Some(TStr(s))
    case ContextValue(_, expected) => if expected.String? then Some(TStr("muxe-context")) else None
    case _ => None
  }

  function KeyProbes(keys: seq<ConfigValue>): Option<seq<Tree>> {
    if keys == [] then Some([])
    else
      var front, last := KeyProbes(keys[..|keys| - 1]), KeyProbe(keys[|keys| - 1]);
      if front.Some? && last.Some? then Some(front.value + [last.value]) else None
  }

  function ContextProbe(expected: ContextType): Tree {
    match expected
    case UnsignedInteger => TNum(Integer(0))
    case PaneId => TStr("pane")
    case TabId => TStr("tab")
    case WorkspaceId => TStr("workspace")
    case _ => TStr("muxe-context")
  }

  /** What a config-backed field without a context marker is probed with. */
  function Probe(render: Rendering, action: Action, field: Emitted, kind: ScalarKind): Option<Tree> {
    if kind.KeysKind? then
      match action
      case SendKeys(keys) => (match KeyProbes(keys) case Some(trees) => Some(TArr(trees)) case None => None)
      case _ => None
    else if field.name.ModeParam? then
      match action
      case PaneZoom(None) => Some(TStr("toggle"))
      case PaneZoom(Some(BooleanValue(enabled))) => Some(ZoomMode(enabled))
      case _ => None
    else
      match ScalarFor(action, field.name)
      case None => Some(DefaultProbe(field, kind))
      case Some(value) => ConvertedLiteral(render, value, kind)
  }

  /** The probe of a field when the method declares no parameters and the request is judged as a whole. */
  function WholeProbe(render: Rendering, action: Action, field: Emitted): Option<Tree> {
    match field.origin
    case Captured(expected) => Some(ContextProbe(expected))
    case Literal(kind) => WholeConfigured(render, action, field.name, kind)
    case Default(kind) => WholeConfigured(render, action, field.name, kind)
  }

  function WholeConfigured(render: Rendering, action: Action, name: Param, kind: ScalarKind): Option<Tree> {
    if kind.KeysKind? then Probe(render, action, Emitted(name, Literal(kind)), kind)
    else
      match ScalarFor(action, name)
      case None =>
        if name.FocusParam? then Some(TBool(true))
        else if name.ModeParam? then Some(TStr("toggle"))
        else Some(DefaultProbe(Emitted(OtherParam(""), Default(kind)), kind))
      case Some(ContextValue(_, expected)) => Some(ContextProbe(expected))
      case Some(value) =>
        if name.ModeParam? then (match value case BooleanValue(enabled) => Some(ZoomMode(enabled)) case _ => None)
        else ConvertedLiteral(render, value, kind)
  }

  function WholeParams(render: Rendering, action: Action, fields: seq<Emitted>): Option<map<Param, Tree>> {
    if fields == [] then Some(map[])
    else
      var front, last := WholeParams(render, action, fields[..|fields| - 1]),
          WholeProbe(render, action, fields[|fields| - 1]);
      if front.Some? && last.Some? then Some(front.value[fields[|fields| - 1].name := last.value]) else None
  }

  predicate MarkerFits(schema: Schema, expected: ContextType, property: Json) {
    match schema.types(property)
    case Some(accepted) =>
      if expected.UnsignedInteger? then "integer" in accepted || "number" in accepted else "string" in accepted
    case None => false
  }

  predicate FieldAccepted(render: Rendering, schema: Schema, action: Action, field: Emitted, property: Json) {
    match field.origin
    case Captured(expected) => schema.judge(property, ContextProbe(expected))
    case Literal(kind) => ConfiguredAccepted(render, schema, action, field, kind, property)
    case Default(kind) => ConfiguredAccepted(render, schema, action, field, kind, property)
  }

  predicate ConfiguredAccepted(render: Rendering, schema: Schema, action: Action, field: Emitted, kind: ScalarKind,
      property: Json) {
    var scalar := ScalarFor(action, field.name);
    if !kind.KeysKind? && !field.name.ModeParam? && scalar.Some? && IsContext(scalar.value)
    then MarkerFits(schema, scalar.value.expected, property)
    else
      match Probe(render, action, field, kind)
      case Some(probe) => schema.judge(property, probe)
      case None => false
  }

  /** The check of a request whose method declares its parameters: every required one is emitted, every
      emitted one is declared, and each is accepted. */
  predicate DeclaredAccepted(render: Rendering, schema: Schema, action: Action, fields: seq<Emitted>,
                             properties: map<Param, Json>, required: seq<Param>)
  {
    && (forall name <- required :: exists field <- fields :: field.name == name)
    && (forall field <- fields :: field.name in properties && FieldAccepted(render, schema, action, field, properties[field.name]))
  }

  /** What loading accepts of an action that emits one request. */
  predicate LoadAccepted(render: Rendering, schema: Schema, action: Action, d: Description) {
    match schema.methods(d.call)
    case None => false
    case Some(NotAnObject) => false
    case Some(Params(None, _)) =>
      var params := WholeParams(render, action, d.fields);
      params.Some? && schema.judgeAll(d.call, params.value)
    case Some(Params(Some(properties), required)) =>
      required.Some? && DeclaredAccepted(render, schema, action, d.fields, properties, required.value)
  }

  // ----- resolved actions -----

  datatype ResolvedTarget = AtIndex(nat) | InDirection(Direction)

  datatype Amount = WholeAmount(int) | RealAmount(Double) | OtherAmount

  datatype Resolved =
    | RSendKeys(keys: seq<string>)
    | RSendText(text: string)
    | RTabCreate(workspace: Option<string>, name: Option<string>, focus: Option<bool>, program: bool,
        cwd: Option<string>)
    | RTabClose
    | RTabRename(name: Option<string>)
    | RTabMove(target: ResolvedTarget)
    | RPaneSplit(split: Option<Direction>, focus: Option<bool>, program: bool, cwd: Option<string>)
    | RPaneClose
    | RPaneFocus(target: ResolvedTarget)
    | RPaneSwap(target: ResolvedTarget)
    | RPaneResize(direction: Direction, amount: Option<Amount>)
    | RPaneZoom(enabled: Option<bool>)
    | RElsewhere(kind: Kind)

  function CardinalTarget(target: ResolvedTarget): bool {
    match target
    case InDirection(d) => IsCardinal(d)
    case AtIndex(_) => false
  }

  function ResolvedKind(action: Resolved): Kind {
    match action
    case RSendKeys(_) => KeysForm
    case RSendText(_) => TextForm
    case RTabCreate(_, _, _, program, _) => CreateForm(program)
    case RTabClose => CloseTabForm
    case RTabRename(name) => RenameForm(name.Some?)
    case RTabMove(target) => MoveTabForm(target.AtIndex?)
    case RPaneSplit(split, _, program, _) =>
      SplitForm(if split.Some? then Some(split.value.Right? || split.value.Down?) else None, program)
    case RPaneClose => ClosePaneForm
    case RPaneFocus(target) => FocusForm(CardinalTarget(target))
    case RPaneSwap(target) => SwapForm(CardinalTarget(target))
    case RPaneResize(_, _) => ResizeForm
    case RPaneZoom(_) => ZoomForm
    case RElsewhere(kind) => kind
  }

  /** A literal text, boolean or other value, or nothing when it is something else. */
  function TextOf(value: ConfigValue): Option<string> {
    match value case StringValue(s) => Some(s) case _ => None
  }

  function BoolOf(value: ConfigValue): Option<bool> {
    match value case BooleanValue(b) => Some(b) case _ => None
  }

  function AmountOf(value: ConfigValue): Option<Amount> {
    match value
    case IntegerValue(n) => Some(WholeAmount(n))
    case FloatValue(x) => Some(RealAmount(x))
    case BooleanValue(_) => Some(OtherAmount)
    case StringValue(_) => Some(OtherAmount)
    case _ => None
  }

  /** An optional value, resolved if it is there. */
  function Optional<T>(value: Option<ConfigValue>, resolve: ConfigValue -> Option<T>): Option<Option<T>> {
    if value.None? then Some(None)
    else if resolve(value.value).Some? then Some(Some(resolve(value.value).value)) else None
  }

  function ResolvedTargetOf(target: Target): Option<ResolvedTarget> {
    match target
    case ByIndex(IntegerValue(n)) => if n >= 0 then Some(AtIndex(n)) else None
    case ByIndex(_) => None
    case Toward(value) => if DirectionOf(value).Some? then Some(InDirection(DirectionOf(value).value)) else None
  }

  function ResolvedKeys(render: Rendering, keys: seq<ConfigValue>): Option<seq<string>> {
    if keys == [] then Some([])
    else
      var front := ResolvedKeys(render, keys[..|keys| - 1]);
      match keys[|keys| - 1]
      case StringValue(s) => if front.Some? && render.key(s).Some? then Some(front.value + [render.key(s).value])
          else None
      case _ => None
  }

  /** Resolves an action that holds no context marker, or nothing when a value cannot be resolved. */
  function Resolve(render: Rendering, action: Action): Option<Resolved> {
    match action
    case SendKeys(keys) =>
      var resolved := ResolvedKeys(render, keys);
      if resolved.Some? then Some(RSendKeys(resolved.value)) else None
    case SendText(text) => if TextOf(text).Some? then Some(RSendText(TextOf(text).value)) else None
    case TabCreate(workspace, name, focus, command) =>
      var w, n, f, p, c := Optional(workspace, TextOf), Optional(name, TextOf), Optional(focus, BoolOf),
                           Optional(command.program, TextOf), Optional(command.cwd, TextOf);
      if w.Some? && n.Some? && f.Some? && p.Some? && c.Some?
      then Some(RTabCreate(w.value, n.value, f.value, p.value.Some?, Rendered(render, c.value))) else None
    case TabClose => Some(RTabClose)
    case TabRename(name) => if Optional(name, TextOf).Some? then Some(RTabRename(Optional(name, TextOf).value))
        else None
    case TabMove(target) => if ResolvedTargetOf(target).Some? then Some(RTabMove(ResolvedTargetOf(target).value))
        else None
    case PaneSplit(split, focus, command) =>
      var s, f, p, c := Optional(split, DirectionOf), Optional(focus, BoolOf), Optional(command.program, TextOf),
                        Optional(command.cwd, TextOf);
      if s.Some? && f.Some? && p.Some? && c.Some?
      then Some(RPaneSplit(s.value, f.value, p.value.Some?, Rendered(render, c.value))) else None
    case PaneClose => Some(RPaneClose)
    case PaneFocus(target) => if ResolvedTargetOf(target).Some?
        then Some(RPaneFocus(ResolvedTargetOf(target).value)) else None
    case PaneSwap(target) => if ResolvedTargetOf(target).Some?
        then Some(RPaneSwap(ResolvedTargetOf(target).value)) else None
    case PaneResize(direction, amount) =>
      var d, a := DirectionOf(direction), Optional(amount, AmountOf);
      if d.Some? && a.Some? then Some(RPaneResize(d.value, a.value)) else None
    case PaneZoom(enabled) => if Optional(enabled, BoolOf).Some?
        then Some(RPaneZoom(Optional(enabled, BoolOf).value)) else None
    case _ => Some(RElsewhere(KindOf(action)))
  }

  function Rendered(render: Rendering, cwd: Option<string>): Option<string> {
    if cwd.Some? then Some(render.cwd(cwd.value)) else None
  }

  // ----- the request dispatch sends -----

  /** Where the action was invoked. */
  datatype Place = Place(pane: Option<string>, tab: Option<string>)

  datatype Invocation = Invocation(call: string, params: map<Param, Tree>)

  datatype BuildError = NoContext | BadDirection | BadAmount | NotRunnable

  function TextOrNull(text: Option<string>): Tree {
    if text.Some? then TStr(text.value) else TNull
  }

  function Strings(keys: seq<string>): seq<Tree> {
    if keys == [] then [] else Strings(keys[..|keys| - 1]) + [TStr(keys[|keys| - 1])]
  }

  /** The number sent for a resize; one that is not finite is written as null. */
  function AmountTree(render: Rendering, amount: Option<Amount>): Option<Tree> {
    match amount
    case None => Some(TNull)
    case Some(WholeAmount(n)) => Some(TNum(Float(render.double(n))))
    case Some(RealAmount(x)) => Some(if x.Finite? then TNum(Float(x.bits)) else TNull)
    case Some(OtherAmount) => None
  }

  function BuildParams(render: Rendering, action: Resolved, place: Place): Result<map<Param, Tree>, BuildError> {
    if place.pane.None? then Err(NoContext)
    else
      var pane := TStr(place.pane.value);
      match action
      case RSendKeys(keys) => Ok(map[PaneParam := pane, KeysParam := TArr(Strings(keys))])
      case RSendText(text) => Ok(map[PaneParam := pane, TextParam := TStr(text)])
      case RTabCreate(workspace, name, focus, _, cwd) =>
        Ok(map[WorkspaceParam := TextOrNull(workspace), LabelParam := TextOrNull(name),
               FocusParam := TBool(if focus.Some? then focus.value else true), CwdParam := TextOrNull(cwd)])
      case RTabClose => if place.tab.Some? then Ok(map[TabParam := TStr(place.tab.value)]) else Err(NoContext)
      case RTabRename(Some(name)) =>
        if place.tab.Some? then Ok(map[TabParam := TStr(place.tab.value), LabelParam := TStr(name)]) else Err(NoContext)
      case RTabMove(AtIndex(n)) =>
        if place.tab.Some? then Ok(map[TabParam := TStr(place.tab.value), IndexParam := TNum(Integer(n))])
            else Err(NoContext)
      case RPaneSplit(Some(d), focus, _, cwd) =>
        if d.Right? || d.Down? then
          Ok(map[TargetPaneParam := pane, DirectionParam := TStr(DirectionText(d)),
                 FocusParam := TBool(if focus.Some? then focus.value else true), CwdParam := TextOrNull(cwd)])
        else Err(BadDirection)
      case RPaneClose => Ok(map[PaneParam := pane])
      case RPaneFocus(InDirection(d)) => Directed(pane, d)
      case RPaneSwap(InDirection(d)) => Directed(pane, d)
      case RPaneResize(d, amount) =>
        if !IsCardinal(d) then Err(BadDirection)
        else
          (match AmountTree(render, amount)
           case Some(tree) => Ok(map[PaneParam := pane, DirectionParam := TStr(DirectionText(d)), AmountParam := tree])
           case None => Err(BadAmount))
      case RPaneZoom(enabled) =>
        Ok(map[PaneParam := pane, ModeParam := if enabled.Some? then ZoomMode(enabled.value) else TStr("toggle")])
      case _ => Err(NotRunnable)
  }

  function Directed(pane: Tree, d: Direction): Result<map<Param, Tree>, BuildError> {
    if IsCardinal(d) then Ok(map[PaneParam := pane, DirectionParam := TStr(DirectionText(d))]) else Err(BadDirection)
  }

  function Build(render: Rendering, action: Resolved, place: Place): Result<Invocation, BuildError> {
    match Describe(ResolvedKind(action))
    case Ok(Some(description)) =>
      (match BuildParams(render, action, place)
       case Ok(params) => Ok(Invocation(description.call, params))
       case Err(error) => Err(error))
    case _ => Err(NotRunnable)
  }

  // ----- dispatch keeps what loading accepted -----

  predicate Plain(value: Option<ConfigValue>) {
    value.Some? ==> !IsContext(value.value)
  }

  predicate PlainTarget(target: Target) {
    match target
    case ByIndex(value) => !IsContext(value)
    case Toward(value) => !IsContext(value)
  }

  /** The action holds literal values or none. */
  predicate NoMarkers(action: Action) {
    match action
    case SendKeys(keys) => forall key <- keys :: !IsContext(key)
    case SendText(text) => !IsContext(text)
    case TabCreate(workspace, name, focus, command) =>
      Plain(workspace) && Plain(name) && Plain(focus) && Plain(command.program) && Plain(command.cwd)
    case TabRename(name) => Plain(name)
    case TabMove(target) => PlainTarget(target)
    case PaneSplit(split, focus, command) => Plain(split) && Plain(focus) && Plain(command.program)
        && Plain(command.cwd)
    case PaneFocus(target) => PlainTarget(target)
    case PaneSwap(target) => PlainTarget(target)
    case PaneResize(direction, amount) => !IsContext(direction) && Plain(amount)
    case PaneZoom(enabled) => Plain(enabled)
    case _ => true
  }

  predicate Configured(field: Emitted) {
    !field.origin.Captured?
  }

  function KindOfField(field: Emitted): ScalarKind
    requires Configured(field)
  {
    match field.origin case Literal(kind) => kind case Default(kind) => kind
  }

  /** Every config-backed field has a probe. */
  predicate Probed(render: Rendering, action: Action, fields: seq<Emitted>) {
    forall i | 0 <= i < |fields| && Configured(fields[i]) :: Probe(render, action, fields[i], KindOfField(fields[i])).Some?
  }

  function Names(fields: seq<Emitted>): set<Param> {
    set i | 0 <= i < |fields| :: fields[i].name
  }

  /** The field is sent with the value it was probed with; keys and directories are rendered later. */
  predicate SentAsProbed(render: Rendering, action: Action, field: Emitted, params: map<Param, Tree>)
    requires field.name in params
  {
    Configured(field) && !field.name.KeysParam? && !field.name.CwdParam?
    ==> Probe(render, action, field, KindOfField(field)) == Some(params[field.name])
  }

  /** The parameters sent are exactly the fields described, and every config-backed one but keys and
      directories has the value it was probed with. */
  predicate Delivers(render: Rendering, action: Action, fields: seq<Emitted>, params: map<Param, Tree>) {
    params.Keys == Names(fields) && forall i | 0 <= i < |fields| :: SentAsProbed(render, action, fields[i], params)
  }

  /** A resolved action is sent as described. */
  predicate SentAsDescribed(render: Rendering, action: Action, fields: seq<Emitted>, r: Resolved, place: Place) {
    && ResolvedKind(r) == KindOf(action)
    && BuildParams(render, r, place).Ok?
    && Delivers(render, action, fields, BuildParams(render, r, place).value)
  }

  lemma {:induction false} KeysSent(render: Rendering, action: Action, d: Description, place: Place)
    requires action.SendKeys?
    requires NoMarkers(action) && Describe(KindOf(action)) == Ok(Some(d)) && Probed(render, action, d.fields)
    requires place.pane.Some? && Resolve(render, action).Some?
    ensures SentAsDescribed(render, action, d.fields, Resolve(render, action).value, place)
  {
    assert Names(d.fields) == {d.fields[0].name, d.fields[1].name};
  }

  lemma {:induction false} TextSent(render: Rendering, action: Action, d: Description, place: Place)
    requires action.SendText?
    requires NoMarkers(action) && Describe(KindOf(action)) == Ok(Some(d)) && Probed(render, action, d.fields)
    requires place.pane.Some?
    ensures Resolve(render, action).Some?
    ensures SentAsDescribed(render, action, d.fields, Resolve(render, action).value, place)
  {
    assert Names(d.fields) == {d.fields[0].name, d.fields[1].name};
  }

  lemma {:induction false} CloseTabSent(render: Rendering, action: Action, d: Description, place: Place)
    requires action.TabClose?
    requires NoMarkers(action) && Describe(KindOf(action)) == Ok(Some(d)) && Probed(render, action, d.fields)
    requires place.pane.Some? && place.tab.Some?
    ensures Resolve(render, action).Some?
    ensures SentAsDescribed(render, action, d.fields, Resolve(render, action).value, place)
  {
    assert Names(d.fields) == {d.fields[0].name};
  }

  lemma {:induction false} RenameSent(render: Rendering, action: Action, d: Description, place: Place)
    requires action.TabRename?
    requires NoMarkers(action) && Describe(KindOf(action)) == Ok(Some(d)) && Probed(render, action, d.fields)
    requires place.pane.Some? && place.tab.Some?
    ensures Resolve(render, action).Some?
    ensures SentAsDescribed(render, action, d.fields, Resolve(render, action).value, place)
  {
    assert Names(d.fields) == {d.fields[0].name, d.fields[1].name};
  }

  lemma {:induction false} MoveSent(render: Rendering, action: Action, d: Description, place: Place)
    requires action.TabMove?
    requires NoMarkers(action) && Describe(KindOf(action)) == Ok(Some(d)) && Probed(render, action, d.fields)
    requires place.pane.Some? && place.tab.Some?
    ensures Resolve(render, action).Some?
    ensures SentAsDescribed(render, action, d.fields, Resolve(render, action).value, place)
  {
    assert Names(d.fields) == {d.fields[0].name, d.fields[1].name};
  }

  lemma {:induction false} ClosePaneSent(render: Rendering, action: Action, d: Description, place: Place)
    requires action.PaneClose?
    requires NoMarkers(action) && Describe(KindOf(action)) == Ok(Some(d)) && Probed(render, action, d.fields)
    requires place.pane.Some?
    ensures Resolve(render, action).Some?
    ensures SentAsDescribed(render, action, d.fields, Resolve(render, action).value, place)
  {
    assert Names(d.fields) == {d.fields[0].name};
  }

  lemma {:induction false} FocusSent(render: Rendering, action: Action, d: Description, place: Place)
    requires action.PaneFocus?
    requires NoMarkers(action) && Describe(KindOf(action)) == Ok(Some(d)) && Probed(render, action, d.fields)
    requires place.pane.Some?
    ensures Resolve(render, action).Some?
    ensures SentAsDescribed(render, action, d.fields, Resolve(render, action).value, place)
  {
    DirectionField(render, action, d.fields[1], action.target.direction, false);
    assert Names(d.fields) == {d.fields[0].name, d.fields[1].name};
  }

  lemma {:induction false} SwapSent(render: Rendering, action: Action, d: Description, place: Place)
    requires action.PaneSwap?
    requires NoMarkers(action) && Describe(KindOf(action)) == Ok(Some(d)) && Probed(render, action, d.fields)
    requires place.pane.Some?
    ensures Resolve(render, action).Some?
    ensures SentAsDescribed(render, action, d.fields, Resolve(render, action).value, place)
  {
    DirectionField(render, action, d.fields[1], action.target.direction, false);
    assert Names(d.fields) == {d.fields[0].name, d.fields[1].name};
  }

  lemma {:induction false} ZoomSent(render: Rendering, action: Action, d: Description, place: Place)
    requires action.PaneZoom?
    requires NoMarkers(action) && Describe(KindOf(action)) == Ok(Some(d)) && Probed(render, action, d.fields)
    requires place.pane.Some?
    ensures Resolve(render, action).Some?
    ensures SentAsDescribed(render, action, d.fields, Resolve(render, action).value, place)
  {
    assert Names(d.fields) == {d.fields[0].name, d.fields[1].name};
  }

  /** An optional text is probed with what resolving it sends. */
  lemma {:induction false} TextField(render: Rendering, action: Action, field: Emitted, value: Option<ConfigValue>)
    requires field.origin == Literal(StringKind) && !field.name.ModeParam?
    requires ScalarFor(action, field.name) == value && Plain(value)
    requires Probe(render, action, field, StringKind).Some?
    ensures Optional(value, TextOf).Some?
    ensures Probe(render, action, field, StringKind) == Some(TextOrNull(Optional(value, TextOf).value))
  {
  }

  lemma {:induction false} FocusField(render: Rendering, action: Action, field: Emitted, value: Option<ConfigValue>)
    requires field == Emitted(FocusParam, Default(BoolKind))
    requires ScalarFor(action, FocusParam) == value && Plain(value)
    requires Probe(render, action, field, BoolKind).Some?
    ensures Optional(value, BoolOf).Some?
    ensures var focus := Optional(value, BoolOf).value;
            Probe(render, action, field, BoolKind) == Some(TBool(if focus.Some? then focus.value else true))
  {
  }

  lemma {:induction false} DirectionField(render: Rendering, action: Action, field: Emitted, value: ConfigValue,
      split: bool)
    requires field == Emitted(DirectionParam, Literal(if split then SplitKind else PaneDirectionKind))
    requires ScalarFor(action, DirectionParam) == Some(value)
    requires Probe(render, action, field, KindOfField(field)).Some?
    ensures DirectionOf(value).Some?
    ensures var d := DirectionOf(value).value;
            (if split then d.Right? || d.Down? else IsCardinal(d))
            && Probe(render, action, field, KindOfField(field)) == Some(TStr(DirectionText(d)))
  {
  }

  lemma {:induction false} AmountField(render: Rendering, action: Action, field: Emitted, value: Option<ConfigValue>)
    requires field == Emitted(AmountParam, Literal(NumberKind))
    requires ScalarFor(action, AmountParam) == value && Plain(value)
    requires Probe(render, action, field, NumberKind).Some?
    ensures Optional(value, AmountOf).Some?
    ensures AmountTree(render, Optional(value, AmountOf).value) == Probe(render, action, field, NumberKind)
  {
  }

  lemma {:induction false} ResizeBuilt(render: Rendering, action: Action, d: Description, r: Resolved, place: Place)
    requires action.PaneResize? && Describe(KindOf(action)) == Ok(Some(d)) && place.pane.Some?
    requires r.RPaneResize? && IsCardinal(r.direction) && AmountTree(render, r.amount).Some?
    requires Probe(render, action, d.fields[1], PaneDirectionKind) == Some(TStr(DirectionText(r.direction)))
    requires Probe(render, action, d.fields[2], NumberKind) == AmountTree(render, r.amount)
    ensures SentAsDescribed(render, action, d.fields, r, place)
  {
    assert Names(d.fields) == {d.fields[0].name, d.fields[1].name, d.fields[2].name};
  }

  lemma {:induction false} ResizeSent(render: Rendering, action: Action, d: Description, place: Place)
    requires action.PaneResize?
    requires NoMarkers(action) && Describe(KindOf(action)) == Ok(Some(d)) && Probed(render, action, d.fields)
    requires place.pane.Some?
    ensures Resolve(render, action).Some?
    ensures SentAsDescribed(render, action, d.fields, Resolve(render, action).value, place)
  {
    DirectionField(render, action, d.fields[1], action.direction, false);
    AmountField(render, action, d.fields[2], action.amount);
    ResizeBuilt(render, action, d, Resolve(render, action).value, place);
  }

  lemma {:induction false} CreateResolves(render: Rendering, action: Action, d: Description)
    requires action.TabCreate?
    requires NoMarkers(action) && Describe(KindOf(action)) == Ok(Some(d)) && Probed(render, action, d.fields)
    ensures Resolve(render, action).Some?
    ensures var r := Resolve(render, action).value;
            && r.RTabCreate? && !r.program
            && Probe(render, action, d.fields[0], StringKind) == Some(TextOrNull(r.workspace))
            && Probe(render, action, d.fields[1], StringKind) == Some(TextOrNull(r.name))
            && Probe(render, action, d.fields[2], BoolKind) == Some(TBool(if r.focus.Some? then r.focus.value else true))
  {
    TextField(render, action, d.fields[0], action.workspace);
    TextField(render, action, d.fields[1], action.name);
    FocusField(render, action, d.fields[2], action.focus);
    TextField(render, action, d.fields[3], action.command.cwd);
  }

  lemma {:induction false} CreateBuilt(render: Rendering, action: Action, d: Description, r: Resolved, place: Place)
    requires action.TabCreate? && Describe(KindOf(action)) == Ok(Some(d)) && place.pane.Some?
    requires r.RTabCreate? && !r.program
    requires Probe(render, action, d.fields[0], StringKind) == Some(TextOrNull(r.workspace))
    requires Probe(render, action, d.fields[1], StringKind) == Some(TextOrNull(r.name))
    requires Probe(render, action, d.fields[2], BoolKind) == Some(TBool(if r.focus.Some? then r.focus.value else true))
    ensures SentAsDescribed(render, action, d.fields, r, place)
  {
    assert Names(d.fields) == {d.fields[0].name, d.fields[1].name, d.fields[2].name, d.fields[3].name};
  }

  lemma {:induction false} CreateSent(render: Rendering, action: Action, d: Description, place: Place)
    requires action.TabCreate?
    requires NoMarkers(action) && Describe(KindOf(action)) == Ok(Some(d)) && Probed(render, action, d.fields)
    requires place.pane.Some?
    ensures Resolve(render, action).Some?
    ensures SentAsDescribed(render, action, d.fields, Resolve(render, action).value, place)
  {
    CreateResolves(render, action, d);
    CreateBuilt(render, action, d, Resolve(render, action).value, place);
  }

  lemma {:induction false} SplitResolves(render: Rendering, action: Action, d: Description)
    requires action.PaneSplit?
    requires NoMarkers(action) && Describe(KindOf(action)) == Ok(Some(d)) && Probed(render, action, d.fields)
    ensures Resolve(render, action).Some?
    ensures var r := Resolve(render, action).value;
            && r.RPaneSplit? && !r.program && r.split.Some? && (r.split.value.Right? || r.split.value.Down?)
            && Probe(render, action, d.fields[1], SplitKind) == Some(TStr(DirectionText(r.split.value)))
            && Probe(render, action, d.fields[2], BoolKind) == Some(TBool(if r.focus.Some? then r.focus.value else true))
  {
    DirectionField(render, action, d.fields[1], action.split.value, true);
    FocusField(render, action, d.fields[2], action.focus);
    TextField(render, action, d.fields[3], action.command.cwd);
  }

  lemma {:induction false} SplitBuilt(render: Rendering, action: Action, d: Description, r: Resolved, place: Place)
    requires action.PaneSplit? && Describe(KindOf(action)) == Ok(Some(d)) && place.pane.Some?
    requires r.RPaneSplit? && !r.program && r.split.Some? && (r.split.value.Right? || r.split.value.Down?)
    requires Probe(render, action, d.fields[1], SplitKind) == Some(TStr(DirectionText(r.split.value)))
    requires Probe(render, action, d.fields[2], BoolKind) == Some(TBool(if r.focus.Some? then r.focus.value else true))
    ensures SentAsDescribed(render, action, d.fields, r, place)
  {
    assert Names(d.fields) == {d.fields[0].name, d.fields[1].name, d.fields[2].name, d.fields[3].name};
  }

  lemma {:induction false} SplitSent(render: Rendering, action: Action, d: Description, place: Place)
    requires action.PaneSplit?
    requires NoMarkers(action) && Describe(KindOf(action)) == Ok(Some(d)) && Probed(render, action, d.fields)
    requires place.pane.Some?
    ensures Resolve(render, action).Some?
    ensures SentAsDescribed(render, action, d.fields, Resolve(render, action).value, place)
  {
    SplitResolves(render, action, d);
    SplitBuilt(render, action, d, Resolve(render, action).value, place);
  }

  // ----- what loading promises -----

  /** Every action needs the captured pane, even one about tabs; those that name a tab need it as well. */
  predicate Placed(d: Description, place: Place) {
    place.pane.Some? && (TabParam in Names(d.fields) ==> place.tab.Some?)
  }

  lemma {:induction false} Sent(render: Rendering, action: Action, d: Description, place: Place)
    requires NoMarkers(action) && Describe(KindOf(action)) == Ok(Some(d)) && Probed(render, action, d.fields)
    requires Placed(d, place) && (action.SendKeys? ==> Resolve(render, action).Some?)
    ensures Resolve(render, action).Some?
    ensures SentAsDescribed(render, action, d.fields, Resolve(render, action).value, place)
  {
    assert action.TabClose? || action.TabRename? || action.TabMove? ==> d.fields[0].name in Names(d.fields);
    match action
    case SendKeys(_) => KeysSent(render, action, d, place);
    case SendText(_) => TextSent(render, action, d, place);
    case TabCreate(_, _, _, _) => CreateSent(render, action, d, place);
    case TabClose => CloseTabSent(render, action, d, place);
    case TabRename(_) => RenameSent(render, action, d, place);
    case TabMove(_) => MoveSent(render, action, d, place);
    case PaneSplit(_, _, _) => SplitSent(render, action, d, place);
    case PaneClose => ClosePaneSent(render, action, d, place);
    case PaneFocus(_) => FocusSent(render, action, d, place);
    case PaneSwap(_) => SwapSent(render, action, d, place);
    case PaneResize(_, _) => ResizeSent(render, action, d, place);
    case PaneZoom(_) => ZoomSent(render, action, d, place);
    case _ =>
  }

  /** Without the pane or the tab it names, nothing is sent, whatever was accepted. */
  lemma {:induction false} NotSentUnplaced(render: Rendering, action: Action, d: Description, place: Place)
    requires Describe(KindOf(action)) == Ok(Some(d)) && !Placed(d, place) && Resolve(render, action).Some?
    ensures BuildParams(render, Resolve(render, action).value, place).Err?
  {
    if place.pane.Some? {
      assert action.TabClose? || action.TabRename? || action.TabMove?;
    }
  }

  lemma {:induction false} KeysProbed(keys: seq<ConfigValue>)
    requires KeyProbes(keys).Some?
    ensures forall i | 0 <= i < |keys| :: KeyProbe(keys[i]).Some?
  {
    if keys != [] {
      KeysProbed(keys[..|keys| - 1]);
      assert keys == keys[..|keys| - 1] + [keys[|keys| - 1]];
    }
  }

  /** A key list resolves exactly when each entry is text and spells a key. */
  lemma {:induction false} KeysResolveExactly(render: Rendering, keys: seq<ConfigValue>)
    ensures ResolvedKeys(render, keys).Some?
            <==> forall i | 0 <= i < |keys| :: keys[i].StringValue? && render.key(TextOf(keys[i]).value).Some?
  {
    if keys != [] {
      KeysResolveExactly(render, keys[..|keys| - 1]);
      assert keys == keys[..|keys| - 1] + [keys[|keys| - 1]];
    }
  }

  /** The texts in a key list spell keys; an action without keys has nothing to spell. */
  predicate KeysSpelt(render: Rendering, action: Action) {
    action.SendKeys? ==> forall key <- action.keys | key.StringValue? :: render.key(TextOf(key).value).Some?
  }

  lemma {:induction false} KeysResolveIfSpelt(render: Rendering, action: Action, d: Description)
    requires action.SendKeys? && NoMarkers(action)
    requires Describe(KindOf(action)) == Ok(Some(d)) && Probed(render, action, d.fields)
    ensures Resolve(render, action).Some? <==> KeysSpelt(render, action)
  {
    assert Probe(render, action, d.fields[1], KeysKind).Some?;
    KeysProbed(action.keys);
    KeysResolveExactly(render, action.keys);
    forall i | 0 <= i < |action.keys|
      ensures action.keys[i].StringValue? && action.keys[i] in action.keys
    {
      assert action.keys[i] in action.keys;
    }
  }

  /** What loading probed resolves, but for a key list: that resolves exactly when it spells keys. */
  lemma {:induction false} ProbedResolvesExactly(render: Rendering, action: Action, d: Description)
    requires NoMarkers(action) && Describe(KindOf(action)) == Ok(Some(d)) && Probed(render, action, d.fields)
    ensures Resolve(render, action).Some? <==> KeysSpelt(render, action)
  {
    if action.SendKeys? {
      KeysResolveIfSpelt(render, action, d);
    } else {
      Sent(render, action, d, Place(Some(""), Some("")));
    }
  }

  lemma {:induction false} NoMarkerBehind(action: Action, name: Param)
    requires NoMarkers(action)
    ensures Plain(ScalarFor(action, name))
  {
  }

  lemma {:induction false} AcceptedIsProbed(render: Rendering, schema: Schema, action: Action, fields: seq<Emitted>,
                                            properties: map<Param, Json>, required: seq<Param>)
    requires NoMarkers(action) && DeclaredAccepted(render, schema, action, fields, properties, required)
    ensures Probed(render, action, fields)
    ensures forall i | 0 <= i < |fields| && Configured(fields[i]) ::
              fields[i].name in properties
              && schema.judge(properties[fields[i].name],
                  Probe(render, action, fields[i], KindOfField(fields[i])).value)
  {
    forall i | 0 <= i < |fields| && Configured(fields[i])
      ensures fields[i].name in properties && Probe(render, action, fields[i], KindOfField(fields[i])).Some?
      ensures schema.judge(properties[fields[i].name], Probe(render, action, fields[i], KindOfField(fields[i])).value)
    {
      assert fields[i] in fields;
      NoMarkerBehind(action, fields[i].name);
    }
  }

  /** What loading accepted is what dispatch sends. Take any action of literal or absent values that emits one
      request and that loading accepts, against a schema that declares the method's parameters. Its values
      resolve exactly when its key list, if it has one, spells keys. Then a request is sent exactly when the
      pane, and the tab if it names one, were captured. The request names the described method; its parameters
      are exactly the described ones, among them every required one and none that is not declared; and every
      config-backed value but keys and directories is one the schema has accepted for that parameter. */
  lemma {:induction false} DispatchSendsWhatLoadingAccepted(render: Rendering, schema: Schema, action: Action,
      d: Description, properties: map<Param, Json>, required: seq<Param>, place: Place)
    requires NoMarkers(action) && Describe(KindOf(action)) == Ok(Some(d))
    requires schema.methods(d.call) == Some(Params(Some(properties), Some(required)))
    requires LoadAccepted(render, schema, action, d)
    ensures Resolve(render, action).Some? <==> KeysSpelt(render, action)
    ensures Resolve(render, action).Some? ==>
              var built := Build(render, Resolve(render, action).value, place);
              && (built.Ok? <==> Placed(d, place))
              && (built.Ok? ==>
                    && built.value.call == d.call
                    && built.value.params.Keys == Names(d.fields)
                    && (forall name <- required :: name in built.value.params)
                    && built.value.params.Keys <= properties.Keys
                    && forall i | 0 <= i < |d.fields| && Configured(d.fields[i])
                                  && !d.fields[i].name.KeysParam? && !d.fields[i].name.CwdParam? ::
                         && Probe(render, action, d.fields[i], KindOfField(d.fields[i])) == Some(built.value.params[d.fields[i].name])
                         && schema.judge(properties[d.fields[i].name], built.value.params[d.fields[i].name]))
  {
    AcceptedIsProbed(render, schema, action, d.fields, properties, required);
    ProbedResolvesExactly(render, action, d);
    if Resolve(render, action).Some? {
      Sent(render, action, d, Place(Some(""), Some("")));
      if Placed(d, place) {
        var r := Resolve(render, action).value;
        Sent(render, action, d, place);
        SentIsDeclared(render, schema, action, d.fields, properties, required, BuildParams(render, r, place).value);
      } else {
        NotSentUnplaced(render, action, d, place);
      }
    }
  }

  /** Loading probes a key list as text and parses no key, so it accepts a list with the empty spelling, which
      is not a key; dispatch refuses it. */
  lemma {:induction false} UnspeltKeysLoad(render: Rendering, schema: Schema, action: Action, d: Description)
    requires render.key("").None? && action == SendKeys([StringValue("")])
    requires Describe(KindOf(action)) == Ok(Some(d))
    requires schema.methods(d.call) == Some(Params(Some(map[PaneParam := Null, KeysParam := Null]), Some([KeysParam])))
    requires forall property, value :: schema.judge(property, value)
    ensures LoadAccepted(render, schema, action, d) && Resolve(render, action).None?
  {
    var keys := action.keys;
    assert keys[..0] == [] && keys[0] == StringValue("");
    assert KeyProbes(keys[..0]).Some? && KeyProbe(keys[0]).Some?;
    assert KeyProbes(keys).Some?;
    assert d.fields[1].name == KeysParam;
    KeysResolveExactly(render, keys);
  }

  lemma {:induction false} SentIsDeclared(render: Rendering, schema: Schema, action: Action, fields: seq<Emitted>,
                                          properties: map<Param, Json>, required: seq<Param>, params: map<Param, Tree>)
    requires DeclaredAccepted(render, schema, action, fields, properties, required)
        && Delivers(render, action, fields, params)
    ensures forall name <- required :: name in params
    ensures params.Keys <= properties.Keys
    ensures forall i | 0 <= i < |fields| && Configured(fields[i]) && !fields[i].name.KeysParam? && !fields[i].name.CwdParam? ::
              Probe(render, action, fields[i], KindOfField(fields[i])) == Some(params[fields[i].name])
  {
    forall i | 0 <= i < |fields| && Configured(fields[i]) && !fields[i].name.KeysParam? && !fields[i].name.CwdParam?
      ensures Probe(render, action, fields[i], KindOfField(fields[i])) == Some(params[fields[i].name])
    {
      assert SentAsProbed(render, action, fields[i], params);
    }
    forall name <- required
      ensures name in params
    {
      var field :| field in fields && field.name == name;
    }
    forall name <- params
      ensures name in properties
    {
      var i :| 0 <= i < |fields| && fields[i].name == name;
      assert fields[i] in fields;
    }
  }

  /** The check of a request as a whole probes each config-backed field with the same value as the check
      parameter by parameter. */
  lemma {:induction false} WholeProbesAgree(render: Rendering, action: Action, d: Description, i: nat)
    requires NoMarkers(action) && Describe(KindOf(action)) == Ok(Some(d)) && i < |d.fields| && Configured(d.fields[i])
    ensures WholeProbe(render, action, d.fields[i]) == Probe(render, action, d.fields[i], KindOfField(d.fields[i]))
  {
    NoMarkerBehind(action, d.fields[i].name);
  }
}
