/** ValidatorRules: a frozen record of a value and the name of the property it
    belongs to, with chainable rules. A rule either raises a ValidationException
    whose message names the property, or returns the record itself, so that
    `values(v, p).required().string().max_length(n)` reports the first rule that
    fails. */
module Validators {
  import opened Errors
  import opened Values

  /** The messages of the ValidationExceptions the rules raise; each names
      the property. */
  function RequiredMessage(prop: string): string
  {
    prop + " is required"
  }

  function StringMessage(prop: string): string
  {
    prop + " must be a string"
  }

  function MaxLengthMessage(prop: string, length: int): string
  {
    prop + " must be at most " + IntToString(length) + " characters long"
  }

  function BooleanMessage(prop: string): string
  {
    prop + " must be a boolean"
  }

  datatype ValidatorRules = ValidatorRules(value: Value, prop: string) {

    /** `required`: None and the empty string are missing; 0 and False are not. */
    function Required(): (r: Result<ValidatorRules>)
      ensures r.Ok? <==> value != Null && value != Str("")
      ensures r.Ok? ==> r.value == this
      ensures r.Err? ==> r.error == Validation(RequiredMessage(prop))
    {
      if value == Null || value == Str("") then Err(Validation(RequiredMessage(prop)))
      else Ok(this)
    }

    /** `string`: anything but None that is not a str fails. */
    function IsString(): (r: Result<ValidatorRules>)
      ensures r.Ok? <==> value == Null || value.Str?
      ensures r.Ok? ==> r.value == this
      ensures r.Err? ==> r.error == Validation(StringMessage(prop))
    {
      if value != Null && !value.Str? then Err(Validation(StringMessage(prop)))
      else Ok(this)
    }

    /** `max_length(length)`: a value other than None that is longer than
        `length` fails; one exactly `length` long passes. A value other than
        None that has no length makes Python's `len` raise a TypeError. */
    function MaxLength(length: int): (r: Result<ValidatorRules>)
      ensures r.Ok? <==> value == Null || (HasLen(value) && Len(value) <= length)
      ensures r.Ok? ==> r.value == this
      ensures value != Null && !HasLen(value) ==> r == Err(TypeError(NoLenMessage(value)))
      ensures HasLen(value) && Len(value) > length ==>
                r == Err(Validation(MaxLengthMessage(prop, length)))
    {
      if value == Null then Ok(this)
      else if !HasLen(value) then Err(TypeError(NoLenMessage(value)))
      else if Len(value) > length then
        Err(Validation(MaxLengthMessage(prop, length)))
      else Ok(this)
    }

    /** `boolean`: anything but None that is not a bool fails. */
    function IsBoolean(): (r: Result<ValidatorRules>)
      ensures r.Ok? <==> value == Null || value.Bool?
      ensures r.Ok? ==> r.value == this
      ensures r.Err? ==> r.error == Validation(BooleanMessage(prop))
    {
      if value != Null && !value.Bool? then Err(Validation(BooleanMessage(prop)))
      else Ok(this)
    }
  }

  /** `ValidatorRules.values(value, prop)`. */
  function MakeRules(value: Value, prop: string): (r: ValidatorRules)
    ensures r.value == value && r.prop == prop
  {
    ValidatorRules(value, prop)
  }

  /** One link of a chain of rules. */
  datatype Rule = Required | IsString | MaxLength(length: int) | IsBoolean

  function Apply(rules: ValidatorRules, rule: Rule): Result<ValidatorRules>
  {
    match rule
    case Required => rules.Required()
    case IsString => rules.IsString()
    case MaxLength(n) => rules.MaxLength(n)
    case IsBoolean => rules.IsBoolean()
  }

  /** A passing rule hands back the record it was called on. */
  lemma {:induction false} ApplyKeepsRules(rules: ValidatorRules, rule: Rule)
    ensures Apply(rules, rule).Ok? ==> Apply(rules, rule).value == rules
  {
    match rule
    case Required =>
    case IsString =>
    case MaxLength(n) =>
    case IsBoolean =>
  }

  /** The method chain `rules.r0().r1()...`: each rule is called on what the
      previous one returned, and the first exception ends the chain. */
  function Chain(rules: ValidatorRules, rs: seq<Rule>): Result<ValidatorRules>
    decreases |rs|
  {
    if rs == [] then Ok(rules)
    else
      match Apply(rules, rs[0])
      case Err(e) => Err(e)
      case Ok(next) => Chain(next, rs[1..])
  }

  /** A chain raises nothing exactly when every rule in it passes on its own,
      and then it returns the record it started from. */
  lemma {:induction false} ChainPasses(rules: ValidatorRules, rs: seq<Rule>)
    ensures Chain(rules, rs).Ok? <==> forall k :: 0 <= k < |rs| ==> Apply(rules, rs[k]).Ok?
    ensures Chain(rules, rs).Ok? ==> Chain(rules, rs).value == rules
    decreases |rs|
  {
    if rs != [] {
      ApplyKeepsRules(rules, rs[0]);
      ChainPasses(rules, rs[1..]);
      if Apply(rules, rs[0]).Ok? {
        assert forall k :: 1 <= k < |rs| ==> rs[k] == rs[1..][k - 1];
      }
    }
  }

  /** A single-rule chain is that rule. */
  lemma {:induction false} ChainOfOne(rules: ValidatorRules, rule: Rule)
    ensures Chain(rules, [rule]) == Apply(rules, rule)
  {
    ApplyKeepsRules(rules, rule);
    assert [rule][1..] == [];
  }

  /** A chain reports the error of the first rule that fails, whatever the
      rules after it would say. */
  lemma {:induction false} ChainFirstFailure(rules: ValidatorRules, rs: seq<Rule>, k: nat)
    requires k < |rs|
    requires forall j :: 0 <= j < k ==> Apply(rules, rs[j]).Ok?
    requires Apply(rules, rs[k]).Err?
    ensures Chain(rules, rs) == Apply(rules, rs[k])
    decreases k
  {
    if k > 0 {
      ApplyKeepsRules(rules, rs[0]);
      assert forall j :: 0 <= j < k - 1 ==> rs[1..][j] == rs[j + 1];
      ChainFirstFailure(rules, rs[1..], k - 1);
    }
  }

  /** `values(None, 'prop').required().string().max_length(5)` reports the
      missing value. */
  lemma {:induction false} ChainReportsRequired()
    ensures Chain(MakeRules(Null, "prop"), [Required, IsString, MaxLength(5)])
            == Err(Validation(RequiredMessage("prop")))
  {
    ChainFirstFailure(MakeRules(Null, "prop"), [Required, IsString, MaxLength(5)], 0);
  }

  /** `values(5, 'prop').required().string().max_length(5)` reports the type. */
  lemma {:induction false} ChainReportsString()
    ensures Chain(MakeRules(Int(5), "prop"), [Required, IsString, MaxLength(5)])
            == Err(Validation(StringMessage("prop")))
  {
    ChainFirstFailure(MakeRules(Int(5), "prop"), [Required, IsString, MaxLength(5)], 1);
  }

  /** `values('valuee', 'prop').required().string().max_length(5)` reports the
      length. */
  lemma {:induction false} ChainReportsLength()
    ensures Chain(MakeRules(Str("valuee"), "prop"), [Required, IsString, MaxLength(5)])
            == Err(Validation(MaxLengthMessage("prop", 5)))
  {
    var rules := MakeRules(Str("valuee"), "prop");
    assert |"valuee"| != |""|;
    ChainFirstFailure(rules, [Required, IsString, MaxLength(5)], 2);
  }

  /** `values(None, 'prop').required().boolean()` reports the missing value. */
  lemma {:induction false} ChainReportsRequiredBeforeBoolean()
    ensures Chain(MakeRules(Null, "prop"), [Required, IsBoolean]) == Err(Validation(RequiredMessage("prop")))
  {
    ChainFirstFailure(MakeRules(Null, "prop"), [Required, IsBoolean], 0);
  }

  /** `values('1', 'prop').required().boolean()` reports the type. */
  lemma {:induction false} ChainReportsBoolean()
    ensures Chain(MakeRules(Str("1"), "prop"), [Required, IsBoolean])
            == Err(Validation(BooleanMessage("prop")))
  {
    assert |"1"| != |""|;
    ChainFirstFailure(MakeRules(Str("1"), "prop"), [Required, IsBoolean], 1);
  }

  /** The messages the unit tests expect, written out. */
  lemma RequiredMessageOfProp()
    ensures RequiredMessage("prop") == "prop is required"
  {
  }

  lemma StringMessageOfProp()
    ensures StringMessage("prop") == "prop must be a string"
  {
  }

  lemma BooleanMessageOfProp()
    ensures BooleanMessage("prop") == "prop must be a boolean"
  {
  }

  lemma MaxLengthMessageOfProp()
    ensures MaxLengthMessage("prop", 5) == "prop must be at most 5 characters long"
  {
    assert IntToString(5) == "5";
    assert "prop" + " must be at most " == "prop must be at most ";
    assert "prop must be at most " + "5" == "prop must be at most 5";
  }

  /** The chains of the unit tests whose rules all pass raise nothing. */
  lemma {:induction false} ValidChainsPass()
    ensures Chain(MakeRules(Str("value"), "prop"), [Required, IsString]).Ok?
    ensures Chain(MakeRules(Str("value"), "prop"), [Required, IsString, MaxLength(5)]).Ok?
    ensures Chain(MakeRules(Bool(true), "prop"), [Required, IsBoolean]).Ok?
    ensures Chain(MakeRules(Bool(false), "prop"), [Required, IsBoolean]).Ok?
  {
    ChainPasses(MakeRules(Str("value"), "prop"), [Required, IsString]);
    ChainPasses(MakeRules(Str("value"), "prop"), [Required, IsString, MaxLength(5)]);
    ChainPasses(MakeRules(Bool(true), "prop"), [Required, IsBoolean]);
    ChainPasses(MakeRules(Bool(false), "prop"), [Required, IsBoolean]);
  }
}
