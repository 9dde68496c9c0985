/**
 * Form validation of the client (use-validation.ts): each field has an
 * ordered list of rules; validating a field records the message of its first
 * failing rule, or "", and marks it touched. Whether a field's element is
 * rendered and what its `shouldValidate` answers are given with the field.
 */
module Validation {
  import opened Outcomes

  /** The model value of a field: missing, or a string. */
  datatype Input = Missing | Given(s: string)

  datatype Rule = Rule(validate: Input -> bool, message: string)

  /** `hasElement`: the field's element is rendered; `shouldValidate`: the answer of the optional guard. */
  datatype Field = Field(hasElement: bool, shouldValidate: Option<bool>, rules: seq<Rule>)

  /** The position of the first rule the value fails. */
  function FirstFailing(rules: seq<Rule>, v: Input): (k: Option<nat>)
    ensures k.None? <==> forall i :: 0 <= i < |rules| ==> rules[i].validate(v)
    ensures k.Some? ==> k.value < |rules| && !rules[k.value].validate(v) && forall i :: 0 <= i < k.value ==> rules[i].validate(v)
  {
    if rules == [] then None
    else if !rules[0].validate(v) then Some(0)
    else
      var rest := FirstFailing(rules[1..], v);
      assert forall i :: 1 <= i < |rules| ==> rules[i] == rules[1..][i - 1];
      if rest.None? then None else Some(rest.value + 1)
  }

  /** The message recorded for a value: the first failing rule's, or "" when all pass. */
  function ErrorFor(rules: seq<Rule>, v: Input): string {
    match FirstFailing(rules, v)
    case None => ""
    case Some(k) => rules[k].message
  }

  /** Rules after a failing one are never consulted: appending rules keeps an earlier failure's message. */
  lemma {:induction false} FirstFailureWins(rules: seq<Rule>, extra: seq<Rule>, v: Input)
    requires FirstFailing(rules, v).Some?
    ensures ErrorFor(rules + extra, v) == ErrorFor(rules, v)
  {
    var k := FirstFailing(rules, v).value;
    var all := rules + extra;
    assert forall i :: 0 <= i <= k ==> all[i] == rules[i];
    var m := FirstFailing(all, v);
    assert m.Some? && m.value <= k;
    assert !(m.value < k);
  }

  /** The effect of validating a field: nothing without an element; otherwise the new error and touched flag. */
  function Check(f: Field, v: Input): (c: Option<(string, bool)>)
    ensures !f.hasElement <==> c.None?
    ensures f.hasElement && f.shouldValidate == Some(false) ==> c == Some(("", false))
    ensures f.hasElement && f.shouldValidate != Some(false) ==> c == Some((ErrorFor(f.rules, v), true))
  {
    if !f.hasElement then None
    else if f.shouldValidate == Some(false) then Some(("", false))
    else Some((ErrorFor(f.rules, v), true))
  }

  function ValueOf(model: map<string, string>, name: string): Input {
    if name in model then Given(model[name]) else Missing
  }

  /** `isFormValid`: every recorded error is empty; fields never validated have none recorded. */
  predicate FormValid(errors: map<string, string>) {
    forall k :: k in errors ==> errors[k] == ""
  }

  /** Recording one field's error: the form is valid afterwards exactly when that error is "" and every other recorded one is. */
  lemma FormValidAfter(errors: map<string, string>, name: string, e: string)
    ensures FormValid(errors[name := e]) <==> e == "" && FormValid(errors - {name})
  {
    var m := errors[name := e];
    var rest := errors - {name};
    if FormValid(m) {
      assert m[name] == e;
      forall k | k in rest ensures rest[k] == "" {
        assert k in m && m[k] == rest[k];
      }
    }
    if e == "" && FormValid(rest) {
      forall k | k in m ensures m[k] == "" {
        if k != name {
          assert k in rest;
        }
      }
    }
  }

  class Form {
    const fields: map<string, Field>
    const model: map<string, string>
    var fieldErrors: map<string, string>
    var isTouched: map<string, bool>

    constructor(fields: map<string, Field>, model: map<string, string>)
      ensures this.fields == fields && this.model == model && fieldErrors == map[] && isTouched == map[]
    {
      this.fields := fields;
      this.model := model;
      fieldErrors := map[];
      isTouched := map[];
    }

    /** The rule loop: the first failing rule's message, then stop. */
    method FirstError(rules: seq<Rule>, v: Input) returns (message: string)
      ensures message == ErrorFor(rules, v)
    {
      message := "";
      var i := 0;
      while i < |rules|
        invariant 0 <= i <= |rules|
        invariant forall j :: 0 <= j < i ==> rules[j].validate(v)
      {
        if !rules[i].validate(v) {
          message := rules[i].message;
          return;
        }
        i := i + 1;
      }
    }

    /** `validateField` for a declared field. */
    method ValidateField(name: string)
      requires name in fields
      modifies this
      ensures var c := Check(fields[name], ValueOf(model, name));
        if c.None? then fieldErrors == old(fieldErrors) && isTouched == old(isTouched)
        else fieldErrors == old(fieldErrors)[name := c.value.0] && isTouched == old(isTouched)[name := c.value.1]
    {
      var field := fields[name];
      if !field.hasElement {
        return;
      }
      if field.shouldValidate == Some(false) {
        fieldErrors := fieldErrors[name := ""];
        isTouched := isTouched[name := false];
        return;
      }
      var message := FirstError(field.rules, ValueOf(model, name));
      fieldErrors := fieldErrors[name := message];
      isTouched := isTouched[name := true];
    }

    /** `validateAllFields`: each declared field once; what each check records stands at the end, and nothing else changes. */
    method ValidateAllFields(keys: seq<string>)
      requires forall i :: 0 <= i < |keys| ==> keys[i] in fields
      requires forall i, j :: 0 <= i < j < |keys| ==> keys[i] != keys[j]
      requires forall k :: k in fields ==> k in keys
      modifies this
      ensures forall k :: k in keys && Check(fields[k], ValueOf(model, k)).Some? ==>
        (k in fieldErrors && fieldErrors[k] == Check(fields[k], ValueOf(model, k)).value.0
         && k in isTouched && isTouched[k] == Check(fields[k], ValueOf(model, k)).value.1)
      ensures forall k :: !(k in keys && k in fields && Check(fields[k], ValueOf(model, k)).Some?) ==>
        (k in fieldErrors <==> k in old(fieldErrors)) && (k in fieldErrors ==> fieldErrors[k] == old(fieldErrors)[k])
        && (k in isTouched <==> k in old(isTouched)) && (k in isTouched ==> isTouched[k] == old(isTouched)[k])
    {
      var i := 0;
      while i < |keys|
        invariant 0 <= i <= |keys|
        invariant forall k :: k in keys[..i] && Check(fields[k], ValueOf(model, k)).Some? ==>
          (k in fieldErrors && fieldErrors[k] == Check(fields[k], ValueOf(model, k)).value.0
           && k in isTouched && isTouched[k] == Check(fields[k], ValueOf(model, k)).value.1)
        invariant forall k :: !(k in keys[..i] && k in fields && Check(fields[k], ValueOf(model, k)).Some?) ==>
          (k in fieldErrors <==> k in old(fieldErrors)) && (k in fieldErrors ==> fieldErrors[k] == old(fieldErrors)[k])
          && (k in isTouched <==> k in old(isTouched)) && (k in isTouched ==> isTouched[k] == old(isTouched)[k])
      {
        assert forall k :: k in keys[..i + 1] <==> k in keys[..i] || k == keys[i];
        assert keys[i] !in keys[..i];
        ValidateField(keys[i]);
        i := i + 1;
      }
      assert keys[..i] == keys;
    }
  }
}
