/**
 * The part of Laravel's request validation that the organization workflows
 * use: a rule set maps each field name to its list of rules, and validating a
 * request yields, for every field that fails, the failures in rule order.
 * An empty error map means the request passes.
 */
module Validation {
  import opened Wrappers

  /**
   * The request fields and session keys the organization workflows use:
   * `email`, `validation_key`, `first_name`, `last_name`, `password`,
   * `password_confirmation`, `organization_name` and `description`.
   */
  datatype Key =
    | Email | ValidationKey | FirstName | LastName | Password | PasswordConfirmation
    | OrganizationName | Description

  /** Submitted form fields; a missing field is one `get` answers with null. */
  type Request = map<Key, string>

  /** The field `confirmed` compares with: the one named with `_confirmation` appended. */
  function ConfirmationOf(field: Key): (other: Option<Key>) {
    if field == Password then Some(PasswordConfirmation) else None
  }

  function Get(m: map<Key, string>, key: Key): (r: Option<string>)
    ensures r.Some? <==> key in m
    ensures r.Some? ==> r.value == m[key]
  {
    if key in m then Some(m[key]) else None
  }

  /** The characters PHP's `trim` strips by default. */
  const TrimmedChars: set<char> := {' ', '\t', '\n', '\r', '\0', '\U{B}'}

  /** A value `required` refuses: nothing left after trimming. */
  predicate Blank(s: string) {
    forall i :: 0 <= i < |s| ==> s[i] in TrimmedChars
  }

  /** The field is there and is not blank. */
  predicate Filled(req: Request, field: Key) {
    field in req && !Blank(req[field])
  }

  datatype Rule =
    | Required
    | ValidEmail
    | Max(size: nat)
    | Min(size: nat)
    | Confirmed
    | Unique          // unique:organization,name
    | Exists          // exists:organization,name
    | OrganizationHasEmail(organizationId: nat)

  /** One reported failure: the rule's default message, or a custom one. */
  datatype Failure = Violated(rule: Rule) | Custom(message: string)

  /**
   * What validation consults beyond the request. The email syntax check and
   * the application's custom `organization_has_email` rule are abstract here;
   * `unique` and `exists` look the value up among the organization names.
   */
  datatype Oracle = Oracle(
    isEmail: string -> bool,
    organizationHasEmail: (nat, string) -> bool)

  /** Whether a rule accepts the field's value, given the field is present. */
  predicate Holds(oracle: Oracle, names: set<string>, req: Request, field: Key, rule: Rule)
    requires field in req
  {
    var v := req[field];
    match rule
    case Required => !Blank(v)
    case ValidEmail => oracle.isEmail(v)
    case Max(n) => |v| <= n
    case Min(n) => |v| >= n
    case Confirmed =>
      var other := ConfirmationOf(field);
      other.Some? && other.value in req && req[other.value] == v
    case Unique => v !in names
    case Exists => v in names
    case OrganizationHasEmail(id) => oracle.organizationHasEmail(id, v)
  }

  /**
   * Whether a rule reports a failure. Only `required` runs on a missing or
   * blank value; every other rule is skipped for such a value.
   */
  predicate Fails(oracle: Oracle, names: set<string>, req: Request, field: Key, rule: Rule) {
    if rule == Required then !Filled(req, field)
    else Filled(req, field) && !Holds(oracle, names, req, field, rule)
  }

  function Report(rule: Rule, messages: map<Rule, string>): (failure: Failure) {
    if rule in messages then Custom(messages[rule]) else Violated(rule)
  }

  /** The failures of one field's rules, in the order the rules are listed. */
  function FieldFailures(oracle: Oracle, names: set<string>, req: Request, field: Key,
                         rules: seq<Rule>, messages: map<Rule, string>): (r: seq<Failure>)
    ensures |r| <= |rules|
  {
    if rules == [] then []
    else
      var rest := FieldFailures(oracle, names, req, field, rules[1..], messages);
      if Fails(oracle, names, req, field, rules[0]) then [Report(rules[0], messages)] + rest
      else rest
  }

  /** A field reports nothing exactly when none of its rules fails. */
  lemma {:induction false} FieldFailuresEmpty(oracle: Oracle, names: set<string>, req: Request, field: Key,
                                              rules: seq<Rule>, messages: map<Rule, string>)
    ensures FieldFailures(oracle, names, req, field, rules, messages) == [] <==>
              forall i :: 0 <= i < |rules| ==> !Fails(oracle, names, req, field, rules[i])
  {
    if rules != [] {
      FieldFailuresEmpty(oracle, names, req, field, rules[1..], messages);
      assert forall i :: 1 <= i < |rules| ==> rules[i] == rules[1..][i - 1];
    }
  }

  /** Each failing rule is reported, with its custom message if it has one. */
  lemma {:induction false} FieldFailuresReport(oracle: Oracle, names: set<string>, req: Request, field: Key,
                                               rules: seq<Rule>, messages: map<Rule, string>, i: nat)
    requires i < |rules| && Fails(oracle, names, req, field, rules[i])
    ensures Report(rules[i], messages) in FieldFailures(oracle, names, req, field, rules, messages)
  {
    if i > 0 {
      FieldFailuresReport(oracle, names, req, field, rules[1..], messages, i - 1);
    }
  }

  /** The error bag `validate` raises: exactly the fields with a failure. */
  function Validate(oracle: Oracle, names: set<string>, req: Request,
                    rules: map<Key, seq<Rule>>, messages: map<Rule, string>): (errors: map<Key, seq<Failure>>)
    ensures errors.Keys <= rules.Keys
    ensures forall f :: f in errors ==> errors[f] != []
  {
    map f | f in rules && FieldFailures(oracle, names, req, f, rules[f], messages) != [] ::
      FieldFailures(oracle, names, req, f, rules[f], messages)
  }

  /** A request passes exactly when no rule of any field fails. */
  lemma ValidatePasses(oracle: Oracle, names: set<string>, req: Request,
                       rules: map<Key, seq<Rule>>, messages: map<Rule, string>)
    ensures Validate(oracle, names, req, rules, messages) == map[] <==>
              forall f, i :: f in rules && 0 <= i < |rules[f]| ==> !Fails(oracle, names, req, f, rules[f][i])
  {
    var errors := Validate(oracle, names, req, rules, messages);
    forall f | f in rules
      ensures f !in errors <==> forall i :: 0 <= i < |rules[f]| ==> !Fails(oracle, names, req, f, rules[f][i])
    {
      FieldFailuresEmpty(oracle, names, req, f, rules[f], messages);
    }
    if errors != map[] {
      var f :| f in errors;
    }
  }

  /** A request passes exactly when every field reports nothing. */
  lemma ValidatePassesByField(oracle: Oracle, names: set<string>, req: Request,
                              rules: map<Key, seq<Rule>>, messages: map<Rule, string>)
    ensures Validate(oracle, names, req, rules, messages) == map[] <==>
              forall f :: f in rules ==> FieldFailures(oracle, names, req, f, rules[f], messages) == []
  {
    var errors := Validate(oracle, names, req, rules, messages);
    if errors != map[] {
      var f :| f in errors;
    }
  }

  /** A field whose only rule is `required` reports nothing exactly when it is filled. */
  lemma RequiredPasses(oracle: Oracle, names: set<string>, req: Request, field: Key, messages: map<Rule, string>)
    ensures FieldFailures(oracle, names, req, field, [Required], messages) == [] <==> Filled(req, field)
  {
    assert [Required][1..] == [];
  }

  /** With `required` and one more rule: filled, and the other rule holds. */
  lemma RequiredAndPasses(oracle: Oracle, names: set<string>, req: Request, field: Key,
                          rule: Rule, messages: map<Rule, string>)
    requires rule != Required
    ensures FieldFailures(oracle, names, req, field, [Required, rule], messages) == [] <==>
              Filled(req, field) && Holds(oracle, names, req, field, rule)
  {
    assert [Required, rule][1..] == [rule];
    assert [rule][1..] == [];
  }

  /** With `required` and two more rules: filled, and both other rules hold. */
  lemma RequiredAndBothPass(oracle: Oracle, names: set<string>, req: Request, field: Key,
                            first: Rule, second: Rule, messages: map<Rule, string>)
    requires first != Required && second != Required
    ensures FieldFailures(oracle, names, req, field, [Required, first, second], messages) == [] <==>
              Filled(req, field) && Holds(oracle, names, req, field, first) && Holds(oracle, names, req, field, second)
  {
    assert [Required, first, second][1..] == [first, second];
    RequiredAndPasses(oracle, names, req, field, second, messages);
    assert [first, second][1..] == [second];
    assert [Required, second][1..] == [second];
  }

  /** A field that passed a list starting with `required` is present and filled. */
  lemma PassedRequiredIsFilled(oracle: Oracle, names: set<string>, req: Request,
                               rules: map<Key, seq<Rule>>, messages: map<Rule, string>, f: Key)
    requires Validate(oracle, names, req, rules, messages) == map[]
    requires f in rules && |rules[f]| > 0 && rules[f][0] == Required
    ensures Filled(req, f)
  {
    ValidatePasses(oracle, names, req, rules, messages);
    assert !Fails(oracle, names, req, f, rules[f][0]);
  }
}
