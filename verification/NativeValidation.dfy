/** Validating one native action: the configured-command extension, and every other type against its method
and the schema document. */
module NativeValidation {
  import opened Wrappers
  import opened Json
  import opened WireFields

  datatype Candidate = Candidate(typeName: string, fields: seq<Field>)

  /** A bundled method, and whether it answers once or with a stream of events. */
  datatype Method = Method(name: string, unary: bool)

  /** What validation takes from elsewhere: the bundled methods by native type, the digest of the bundled
      request schema, the schema validator, which answers with the place of the first fault, and whether a
      document declares a method. */
  datatype Rules = Rules(native: string -> Option<Method>, bundledSha256: string,
                         judge: (Json, string, map<string, Tree>) -> Option<string>,
                         declares: (Json, string) -> bool)

  datatype BindingFault = OtherField(name: string) | SecondBinding | NotLiteral | BadSelector | NoBinding | InvokeMissing

  datatype Fault =
    | UnknownType
    | EventStream
    | Structural(Refusal)
    | AgainstSchema(field: Option<string>)
    | Binding(BindingFault)

  const CONFIGURED_COMMAND := "native.herdr.command:invoke"

  const MAX_SELECTOR_BYTES := 1024

  function Utf8Length(text: string): nat {
    if text == [] then 0
    else
      var c := text[|text| - 1];
      Utf8Length(text[..|text| - 1])
      + if c < '\U{80}' then 1 else if c < '\U{800}' then 2 else if c < '\U{10000}' then 3 else 4
  }

  predicate IsControl(c: char) {
    c < ' ' || '\U{7F}' <= c <= '\U{9F}'
  }

  predicate ValidSelector(text: string) {
    text != "" && Utf8Length(text) <= MAX_SELECTOR_BYTES && forall c <- text :: !IsControl(c)
  }

  /** What is wrong with one more field, if the binding has or has not been seen. */
  function FieldFault(field: Field, seen: bool): Option<BindingFault> {
    if field.name != "binding" then Some(OtherField(field.name))
    else if seen then Some(SecondBinding)
    else if !field.value.StringValue? then Some(NotLiteral)
    else
      match field.value
      case StringValue(text) => if ValidSelector(text) then None else Some(BadSelector)
  }

  /** The binding found in the fields, if they hold one and nothing else. */
  function BindingIn(fields: seq<Field>): Result<Option<string>, BindingFault> {
    if fields == [] then Ok(None)
    else
      var front := BindingIn(fields[..|fields| - 1]);
      if front.Err? then front
      else
        var last := fields[|fields| - 1];
        var fault := FieldFault(last, front.value.Some?);
        if fault.Some? then Err(fault.value)
        else match last.value case StringValue(text) => Ok(Some(text))
  }

  function ConfiguredFault(rules: Rules, document: Json, fields: seq<Field>): Option<BindingFault> {
    var binding := BindingIn(fields);
    if binding.Err? then Some(binding.error)
    else if binding.value.None? then Some(NoBinding)
    else if !rules.declares(document, "command.invoke") then Some(InvokeMissing)
    else None
  }

  function DirectFault(rules: Rules, document: Json, candidate: Candidate): Option<Fault> {
    var bundled := rules.native(candidate.typeName);
    if bundled.None? then Some(UnknownType)
    else if !bundled.value.unary then Some(EventStream)
    else
      var checked := CheckedFields(candidate.fields);
      if checked.Err? then Some(Structural(checked.error))
      else
        var path := rules.judge(document, bundled.value.name, Params(checked.value));
        if path.Some? then Some(AgainstSchema(FieldFromInstancePath(path.value))) else None
  }

  /** Why the candidate is refused, or nothing when it is accepted. */
  function FaultOf(rules: Rules, document: Json, candidate: Candidate): Option<Fault> {
    if candidate.typeName == CONFIGURED_COMMAND then
      var fault := ConfiguredFault(rules, document, candidate.fields);
      if fault.Some? then Some(Binding(fault.value)) else None
    else DirectFault(rules, document, candidate)
  }

  lemma {:induction false} FrontBindingFailed(fields: seq<Field>, n: nat)
    requires n <= |fields| && BindingIn(fields[..n]).Err?
    ensures BindingIn(fields) == BindingIn(fields[..n])
  {
    if n < |fields| {
      assert fields[..|fields| - 1][..n] == fields[..n];
      FrontBindingFailed(fields[..|fields| - 1], n);
    } else {
      assert fields[..n] == fields;
    }
  }

  /** Goes through the fields for the one binding they may hold. */
  method FindBinding(fields: seq<Field>) returns (found: Result<Option<string>, BindingFault>)
    ensures found == BindingIn(fields)
  {
    var binding: Option<string> := None;
    for i := 0 to |fields|
      invariant BindingIn(fields[..i]) == Ok(binding)
    {
      var field := fields[i];
      assert fields[..i + 1][..i] == fields[..i] && fields[..i + 1][i] == field;
      var fault: Option<BindingFault> := None;
      if field.name != "binding" {
        fault := Some(OtherField(field.name));
      } else if binding.Some? {
        fault := Some(SecondBinding);
      } else if !field.value.StringValue? {
        fault := Some(NotLiteral);
      } else {
        match field.value
        case StringValue(text) =>
          if !ValidSelector(text) {
            fault := Some(BadSelector);
          } else {
            binding := Some(text);
          }
      }
      if fault.Some? {
        FrontBindingFailed(fields, i + 1);
        return Err(fault.value);
      }
    }
    assert fields[..|fields|] == fields;
    return Ok(binding);
  }

  method ValidateNativeCandidate(rules: Rules, document: Json, candidate: Candidate) returns (fault: Option<Fault>)
    ensures fault == FaultOf(rules, document, candidate)
  {
    if candidate.typeName != CONFIGURED_COMMAND {
      return DirectFault(rules, document, candidate);
    }
    var binding := FindBinding(candidate.fields);
    if binding.Err? {
      return Some(Binding(binding.error));
    }
    if binding.value.None? {
      return Some(Binding(NoBinding));
    }
    return if rules.declares(document, "command.invoke") then None else Some(Binding(InvokeMissing));
  }

  lemma {:induction false} BindingFoundExactly(fields: seq<Field>)
    ensures BindingIn(fields).Ok? <==>
              || fields == []
              || (|fields| == 1 && FieldFault(fields[0], false).None?)
    ensures BindingIn(fields).Ok? ==> (BindingIn(fields).value.None? <==> fields == [])
  {
    if fields != [] {
      BindingFoundExactly(fields[..|fields| - 1]);
    }
  }

  /** A configured command is accepted exactly when its only field is a literal, valid binding and the
      schema declares `command.invoke`. */
  lemma {:induction false} ConfiguredAcceptedExactly(rules: Rules, document: Json, fields: seq<Field>)
    ensures FaultOf(rules, document, Candidate(CONFIGURED_COMMAND, fields)).None? <==>
              && |fields| == 1 && fields[0].name == "binding"
              && (exists text :: fields[0].value == StringValue(text) && ValidSelector(text))
              && rules.declares(document, "command.invoke")
  {
    BindingFoundExactly(fields);
  }

  /** Any other action is accepted exactly when its type is a bundled unary method, its fields are acceptable
      at every depth, and the schema finds no fault with the parameters they make. */
  lemma {:induction false} DirectAcceptedExactly(rules: Rules, document: Json, candidate: Candidate)
    requires candidate.typeName != CONFIGURED_COMMAND
    ensures FaultOf(rules, document, candidate).None? <==>
              && rules.native(candidate.typeName).Some? && rules.native(candidate.typeName).value.unary
              && Acceptable(candidate.fields)
              && CheckedFields(candidate.fields).Ok?
              && rules.judge(document, rules.native(candidate.typeName).value.name,
                             Params(CheckedFields(candidate.fields).value)).None?
  {
    AcceptsExactly(candidate.fields);
  }
}
