/**
 * The join workflow, `postJoin($step)`: step 1 names an existing
 * organization, step 2 registers the visitor as a pending (inactive) user.
 * `PostJoin` is the whole effect of one request on the session and the stores.
 */
module Joining {
  import opened Wrappers
  import opened Validation
  import opened Entities

  /** The custom message of the `exists` rule, spelled as the controller spells it. */
  const MissingOrganization: string := "Specified organization does't exists."

  function JoinAlert(name: string): (alert: string) {
    "A request is sent to admins for joining this " + name + " organization. You will be notified on your email."
  }

  /** `needle` occurs in `hay`: the SQL pattern `'%' + needle + '%'`, wildcards in the needle aside. */
  predicate Contains(hay: string, needle: string) {
    exists i :: 0 <= i <= |hay| && OccursAt(hay, needle, i)
  }

  predicate OccursAt(hay: string, needle: string, i: nat) {
    i + |needle| <= |hay| && hay[i..i + |needle|] == needle
  }

  /** `where('name', 'like', ...)->first()`: the first organization, in table order, whose name matches. */
  function FirstLike(orgs: seq<Organization>, needle: string): (r: Option<Organization>)
    ensures r.Some? ==> r.value in orgs && Contains(r.value.name, needle)
  {
    if orgs == [] then None
    else if Contains(orgs[0].name, needle) then Some(orgs[0])
    else FirstLike(orgs[1..], needle)
  }

  /** `FirstLike` finds a match exactly when one exists, and it is the earliest one. */
  lemma {:induction false} FirstLikeIsFirst(orgs: seq<Organization>, needle: string)
    ensures FirstLike(orgs, needle).Some? <==> exists i :: 0 <= i < |orgs| && Contains(orgs[i].name, needle)
    ensures FirstLike(orgs, needle).Some? ==>
              exists i :: 0 <= i < |orgs| && orgs[i] == FirstLike(orgs, needle).value &&
                Contains(orgs[i].name, needle) && forall j :: 0 <= j < i ==> !Contains(orgs[j].name, needle)
  {
    if orgs != [] && !Contains(orgs[0].name, needle) {
      FirstLikeIsFirst(orgs[1..], needle);
      assert forall i :: 1 <= i < |orgs| ==> orgs[i] == orgs[1..][i - 1];
      if FirstLike(orgs, needle).Some? {
        var k :| 0 <= k < |orgs[1..]| && orgs[1..][k] == FirstLike(orgs, needle).value &&
                 Contains(orgs[1..][k].name, needle) &&
                 forall j :: 0 <= j < k ==> !Contains(orgs[1..][j].name, needle);
        assert forall j :: 0 <= j < k + 1 ==> !Contains(orgs[j].name, needle) by {
          forall j | 0 <= j < k + 1 ensures !Contains(orgs[j].name, needle) {
            if j > 0 { assert orgs[j] == orgs[1..][j - 1]; }
          }
        }
        assert orgs[k + 1] == FirstLike(orgs, needle).value;
      } else {
        forall i | 0 <= i < |orgs| ensures !Contains(orgs[i].name, needle) {
          if i > 0 { assert orgs[i] == orgs[1..][i - 1]; }
        }
      }
    }
  }

  /** The session's organization name; a missing one concatenates as the empty string. */
  function JoinedName(session: Session): (name: string) {
    Get(session, OrganizationName).GetOr("")
  }

  /** Step 2 can look its organization up; the controller reads the id of the result unchecked. */
  predicate Resolves(st: State) {
    FirstLike(st.db.organizations, JoinedName(st.session)).Some?
  }

  /** The organization step 2 checks the email against. */
  function LookedUp(st: State): (o: Organization)
    requires Resolves(st)
    ensures o in st.db.organizations
  {
    FirstLike(st.db.organizations, JoinedName(st.session)).value
  }

  function StepOneRules(): (rules: map<Key, seq<Rule>>)
    ensures forall f :: f in rules ==> |rules[f]| > 0 && rules[f][0] == Required
  {
    map[OrganizationName := [Required, Exists]]
  }

  function StepOneMessages(): (messages: map<Rule, string>) {
    map[Exists := MissingOrganization]
  }

  function StepTwoRules(organizationId: nat): (rules: map<Key, seq<Rule>>)
    ensures forall f :: f in rules ==> |rules[f]| > 0 && rules[f][0] == Required
  {
    map[Email := [Required, OrganizationHasEmail(organizationId), ValidEmail],
        Password := [Required, Confirmed]]
  }

  /** One request to `postJoin($step)`. */
  function PostJoin(st: State, oracle: Oracle, step: int, req: Request): (r: Step)
    ensures r.state.db.organizations == st.db.organizations && r.state.db.categories == st.db.categories
    ensures st.db.users <= r.state.db.users && |r.state.db.users| <= |st.db.users| + 1
  {
    if step == 1 then SelectOrganization(st, oracle, req)
    else if step == 2 then RequestMembership(st, oracle, req)
    else Step(st, NotFound)
  }

  /** The error bag of join step 1. */
  function StepOneErrors(st: State, oracle: Oracle, req: Request): (errors: map<Key, seq<Failure>>) {
    Validate(oracle, OrganizationNames(st.db.organizations), req, StepOneRules(), StepOneMessages())
  }

  /** The error bag of join step 2, whose rules name the looked-up organization. */
  function StepTwoErrors(st: State, oracle: Oracle, req: Request): (errors: map<Key, seq<Failure>>)
    requires Resolves(st)
  {
    Validate(oracle, OrganizationNames(st.db.organizations), req, StepTwoRules(LookedUp(st).id), map[])
  }

  /** Step 1: keep the name of an existing organization. */
  function SelectOrganization(st: State, oracle: Oracle, req: Request): (r: Step)
    ensures r.state.db == st.db
    ensures r.outcome.Advance? || r.outcome.Rejected?
    ensures r.outcome.Rejected? ==> r.state == st
  {
    var errors := StepOneErrors(st, oracle, req);
    if errors != map[] then Step(st, Rejected(errors))
    else
      PassedRequiredIsFilled(oracle, OrganizationNames(st.db.organizations), req, StepOneRules(), StepOneMessages(), OrganizationName);
      Step(st.(session := st.session[OrganizationName := req[OrganizationName]]), Advance(2))
  }

  /** Step 2: check the email against the looked-up organization, then add a pending user. */
  function RequestMembership(st: State, oracle: Oracle, req: Request): (r: Step)
    ensures r.state.session == st.session
    ensures r.state.db == st.db.(users := r.state.db.users)
    ensures r.outcome.Done? || r.outcome.Rejected? || r.outcome.ServerError?
    ensures !r.outcome.Done? ==> r.state == st
  {
    if !Resolves(st) then Step(st, ServerError)
    else
      var errors := StepTwoErrors(st, oracle, req);
      if errors != map[] then Step(st, Rejected(errors))
      else
        var names, rules := OrganizationNames(st.db.organizations), StepTwoRules(LookedUp(st).id);
        PassedRequiredIsFilled(oracle, names, req, rules, map[], Email);
        PassedRequiredIsFilled(oracle, names, req, rules, map[], Password);
        Step(st.(db := st.db.(users := st.db.users + [PendingMember(st, req)])), Done(JoinAlert(JoinedName(st.session))))
  }

  /** The pending user an accepted step 2 appends. */
  function PendingMember(st: State, req: Request): (u: User)
    requires Filled(req, Email) && Filled(req, Password)
    ensures u.id == NextId(|st.db.users|) && u.active == "0"
  {
    User(NextId(|st.db.users|), Get(req, FirstName), Get(req, LastName),
         Some(req[Password]), Some(req[Email]), "0")
  }

  // ---- What each step's rules accept ----

  predicate StepOneAccepts(db: Db, req: Request) {
    Filled(req, OrganizationName) && req[OrganizationName] in OrganizationNames(db.organizations)
  }

  predicate StepTwoAccepts(oracle: Oracle, organizationId: nat, req: Request) {
    && Filled(req, Email)
    && oracle.organizationHasEmail(organizationId, req[Email])
    && oracle.isEmail(req[Email])
    && Filled(req, Password)
    && PasswordConfirmation in req && req[PasswordConfirmation] == req[Password]
  }

  lemma StepOneRulesAccept(st: State, oracle: Oracle, req: Request)
    ensures StepOneErrors(st, oracle, req) == map[] <==> StepOneAccepts(st.db, req)
  {
    var names := OrganizationNames(st.db.organizations);
    var rules := StepOneRules();
    ValidatePassesByField(oracle, names, req, rules, StepOneMessages());
    assert rules.Keys == {OrganizationName};
    RequiredAndPasses(oracle, names, req, OrganizationName, Exists, StepOneMessages());
  }

  lemma StepTwoRulesAccept(st: State, oracle: Oracle, organizationId: nat, req: Request)
    ensures Validate(oracle, OrganizationNames(st.db.organizations), req, StepTwoRules(organizationId), map[]) == map[]
            <==> StepTwoAccepts(oracle, organizationId, req)
  {
    var names := OrganizationNames(st.db.organizations);
    var rules := StepTwoRules(organizationId);
    ValidatePassesByField(oracle, names, req, rules, map[]);
    assert rules.Keys == {Email, Password};
    assert rules[Email] == [Required, OrganizationHasEmail(organizationId), ValidEmail];
    assert rules[Password] == [Required, Confirmed];
    RequiredAndBothPass(oracle, names, req, Email, OrganizationHasEmail(organizationId), ValidEmail, map[]);
    RequiredAndPasses(oracle, names, req, Password, Confirmed, map[]);
  }

  // ---- Step dispatch and what each step writes ----

  /**
   * The step transitions: 404 exactly for a step outside 1..2; step 1
   * advances to step 2 and step 2 ends the workflow; a rejected or refused
   * request changes nothing.
   */
  lemma JoinTransitions(st: State, oracle: Oracle, step: int, req: Request)
    ensures var r := PostJoin(st, oracle, step, req);
      && (r.outcome.NotFound? <==> step != 1 && step != 2)
      && (r.outcome.ServerError? <==> step == 2 && !Resolves(st))
      && (r.outcome.Rejected? <==> || (step == 1 && StepOneErrors(st, oracle, req) != map[])
                                   || (step == 2 && Resolves(st) && StepTwoErrors(st, oracle, req) != map[]))
      && (r.outcome.Advance? <==> step == 1 && !r.outcome.Rejected?)
      && (r.outcome.Advance? ==> r.outcome.next == 2)
      && (r.outcome.Done? <==> step == 2 && Resolves(st) && !r.outcome.Rejected?)
      && (!r.outcome.Advance? && !r.outcome.Done? ==> r.state == st)
  {
  }

  /** A join request failing its step's rules is sent back with exactly those errors, and nothing is written. */
  lemma JoinInvalidIsRejected(st: State, oracle: Oracle, step: int, req: Request)
    requires step == 1 || (step == 2 && Resolves(st))
    requires step == 1 ==> StepOneErrors(st, oracle, req) != map[]
    requires step == 2 ==> StepTwoErrors(st, oracle, req) != map[]
    ensures PostJoin(st, oracle, step, req) ==
              Step(st, Rejected(if step == 1 then StepOneErrors(st, oracle, req) else StepTwoErrors(st, oracle, req)))
  {
  }

  /** Step 1 without the name of a stored organization, blank or missing included, is rejected and writes nothing. */
  lemma JoinStepOneRefused(st: State, oracle: Oracle, req: Request)
    requires !StepOneAccepts(st.db, req)
    ensures var r := PostJoin(st, oracle, 1, req);
      r.outcome.Rejected? && r.state == st
  {
    StepOneRulesAccept(st, oracle, req);
  }

  /**
   * Step 2 with a missing or invalid email, an email the organization does
   * not have, or a missing or unconfirmed password is rejected and writes nothing.
   */
  lemma JoinStepTwoRefused(st: State, oracle: Oracle, req: Request)
    requires Resolves(st)
    requires !StepTwoAccepts(oracle, LookedUp(st).id, req)
    ensures var r := PostJoin(st, oracle, 2, req);
      r.outcome.Rejected? && r.state == st
  {
    StepTwoRulesAccept(st, oracle, LookedUp(st).id, req);
  }

  /** Accepted step 1 writes only `organization_name`, and creates nothing. */
  lemma JoinStepOne(st: State, oracle: Oracle, req: Request)
    requires StepOneAccepts(st.db, req)
    ensures var r := PostJoin(st, oracle, 1, req);
      && r.outcome == Advance(2)
      && r.state == st.(session := st.session[OrganizationName := req[OrganizationName]])
  {
    StepOneRulesAccept(st, oracle, req);
  }

  /** Step 1 with a filled name no organization has is sent back with the custom message. */
  lemma JoinStepOneUnknownName(st: State, oracle: Oracle, req: Request)
    requires Filled(req, OrganizationName)
    requires req[OrganizationName] !in OrganizationNames(st.db.organizations)
    ensures PostJoin(st, oracle, 1, req) ==
              Step(st, Rejected(map[OrganizationName := [Custom(MissingOrganization)]]))
  {
    var names := OrganizationNames(st.db.organizations);
    var rules := StepOneRules();
    var rs := rules[OrganizationName];
    assert Fails(oracle, names, req, OrganizationName, Exists);
    assert FieldFailures(oracle, names, req, OrganizationName, [Exists], StepOneMessages())
        == [Custom(MissingOrganization)];
    assert rs[1..] == [Exists];
    assert FieldFailures(oracle, names, req, OrganizationName, rs, StepOneMessages())
        == [Custom(MissingOrganization)];
    var errors := Validate(oracle, names, req, rules, StepOneMessages());
    assert errors.Keys == {OrganizationName};
    assert errors == map[OrganizationName := [Custom(MissingOrganization)]];
  }

  /**
   * Accepted step 2 creates exactly one inactive user from the request
   * (names unvalidated, so possibly missing) and nothing else; the session
   * keeps the organization name.
   */
  lemma JoinStepTwo(st: State, oracle: Oracle, req: Request)
    requires Resolves(st)
    requires StepTwoAccepts(oracle, LookedUp(st).id, req)
    ensures var r := PostJoin(st, oracle, 2, req);
      && r.outcome == Done(JoinAlert(JoinedName(st.session)))
      && r.state.session == st.session
      && r.state.db.organizations == st.db.organizations
      && r.state.db.categories == st.db.categories
      && r.state.db.users == st.db.users +
           [User(NextId(|st.db.users|), Get(req, FirstName), Get(req, LastName),
                 Some(req[Password]), Some(req[Email]), "0")]
  {
    StepTwoRulesAccept(st, oracle, LookedUp(st).id, req);
  }

  /** An accepted step 1 leaves a session from which step 2 can look an organization up. */
  lemma StepOneEnablesStepTwo(st: State, oracle: Oracle, req: Request)
    requires StepOneAccepts(st.db, req)
    ensures Resolves(PostJoin(st, oracle, 1, req).state)
  {
    JoinStepOne(st, oracle, req);
    var name := req[OrganizationName];
    var i :| 0 <= i < |st.db.organizations| && st.db.organizations[i].name == name;
    assert OccursAt(st.db.organizations[i].name, name, 0);
    FirstLikeIsFirst(st.db.organizations, name);
  }

  /**
   * The lookup is by substring: when "Acme Corp" precedes "Acme", joining
   * "Acme" checks the email against "Acme Corp".
   */
  lemma LikePicksEarlierSuperstring()
    ensures var orgs := [Organization(1, "Acme Corp", None, 1), Organization(2, "Acme", None, 2)];
      FirstLike(orgs, "Acme") == Some(orgs[0])
  {
    var orgs := [Organization(1, "Acme Corp", None, 1), Organization(2, "Acme", None, 2)];
    assert OccursAt(orgs[0].name, "Acme", 0);
  }

  /** A user appended with the next id keeps the stores well formed. */
  lemma AddUserPreservesWellformed(db: Db, u: User)
    requires Wellformed(db)
    requires u.id == NextId(|db.users|)
    ensures Wellformed(db.(users := db.users + [u]))
  {
  }

  /** The join workflow keeps the stores well formed. */
  lemma PostJoinPreservesWellformed(st: State, oracle: Oracle, step: int, req: Request)
    requires Wellformed(st.db)
    ensures Wellformed(PostJoin(st, oracle, step, req).state.db)
  {
    if step == 2 && Resolves(st) {
      var id := LookedUp(st).id;
      if StepTwoAccepts(oracle, id, req) {
        JoinStepTwo(st, oracle, req);
        AddUserPreservesWellformed(st.db, PostJoin(st, oracle, step, req).state.db.users[|st.db.users|]);
      } else {
        StepTwoRulesAccept(st, oracle, id, req);
      }
    }
  }
}
