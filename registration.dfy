/**
 * The registration workflow, `store($step)`: four steps that collect an
 * email (with a verification key), the key back, a name and password, and
 * finally an organization name, after which one user, one organization and
 * six default categories are created. `Store` is the whole effect of one
 * request on the session and the stores.
 */
module Registration {
  import opened Wrappers
  import opened Validation
  import opened Entities
  import opened VerificationKey

  const KeyMismatch: string := "Validation key mismatch."
  const CreatedAlert: string := "Organization created successfully. Now sign in to your organization!"

  /** The default categories, in creation order and spelled as the controller spells them. */
  const CategoryNames: seq<string> :=
    ["Engineering", "New Employee Onboarding", "Marketing", "Product", "Human Resuorces", "Sales"]

  /** The rules of each step; `None` for a step number that aborts with 404. */
  function StoreRules(step: int): (rules: Option<map<Key, seq<Rule>>>)
    ensures rules.Some? <==> 1 <= step <= 4
    ensures rules.Some? ==> forall f :: f in rules.value ==> |rules.value[f]| > 0 && rules.value[f][0] == Required
  {
    if step == 1 then Some(map[Email := [Required, ValidEmail]])
    else if step == 2 then Some(map[ValidationKey := [Required]])
    else if step == 3 then
      Some(map[FirstName := [Required, Max(15)],
               LastName := [Required, Max(15)],
               Password := [Required, Min(6), Confirmed]])
    else if step == 4 then Some(map[OrganizationName := [Required, Unique]])
    else None
  }

  function StoreErrors(st: State, oracle: Oracle, rules: map<Key, seq<Rule>>, req: Request): (errors: map<Key, seq<Failure>>) {
    Validate(oracle, OrganizationNames(st.db.organizations), req, rules, map[])
  }

  /** The six categories of a new organization, numbered from `firstId`. */
  function DefaultCategories(firstId: nat, userId: nat, organizationId: nat): (cs: seq<Category>)
    ensures |cs| == |CategoryNames|
  {
    seq(|CategoryNames|, i requires 0 <= i < |CategoryNames| =>
      Category(firstId + i, CategoryNames[i], userId, organizationId))
  }

  /**
   * Finalization: the owner from whatever the session holds, active; the
   * organization from the request, owned by that user; then the categories.
   */
  function Register(db: Db, session: Session, name: string, description: Option<string>): (db': Db)
    ensures db.users <= db'.users && |db'.users| == |db.users| + 1
    ensures db.organizations <= db'.organizations && |db'.organizations| == |db.organizations| + 1
    ensures db.categories <= db'.categories && |db'.categories| == |db.categories| + |CategoryNames|
  {
    var owner := User(NextId(|db.users|), Get(session, FirstName), Get(session, LastName),
                      Get(session, Password), Get(session, Email), "1");
    var organization := Organization(NextId(|db.organizations|), name, description, owner.id);
    Db(db.users + [owner],
       db.organizations + [organization],
       db.categories + DefaultCategories(NextId(|db.categories|), owner.id, organization.id))
  }

  /**
   * One request to `store($step)`; `key` stands for the value `mt_rand`
   * draws, which only step 1 uses.
   */
  function Store(st: State, oracle: Oracle, step: int, req: Request, key: nat): (r: Step)
    ensures st.db.users <= r.state.db.users
    ensures st.db.organizations <= r.state.db.organizations
    ensures st.db.categories <= r.state.db.categories
  {
    if step == 1 then SubmitEmail(st, oracle, req, key)
    else if step == 2 then ConfirmKey(st, oracle, req)
    else if step == 3 then SubmitCredentials(st, oracle, req)
    else if step == 4 then CreateOrganization(st, oracle, req)
    else Step(st, NotFound)
  }

  /** Step 1: keep the email and a freshly drawn verification key. */
  function SubmitEmail(st: State, oracle: Oracle, req: Request, key: nat): (r: Step)
    ensures r.state.db == st.db
    ensures r.outcome.Advance? || r.outcome.Rejected?
    ensures r.outcome.Rejected? ==> r.state == st
  {
    var rules := StoreRules(1).value;
    var errors := StoreErrors(st, oracle, rules, req);
    if errors != map[] then Step(st, Rejected(errors))
    else
      PassedRequiredIsFilled(oracle, OrganizationNames(st.db.organizations), req, rules, map[], Email);
      Step(st.(session := st.session[Email := req[Email]][ValidationKey := Decimal(key)]), Advance(2))
  }

  /** Step 2: compare the submitted key with the stored one. */
  function ConfirmKey(st: State, oracle: Oracle, req: Request): (r: Step)
    ensures r.state == st
    ensures r.outcome.Advance? || r.outcome.Rejected?
  {
    var rules := StoreRules(2).value;
    var errors := StoreErrors(st, oracle, rules, req);
    if errors != map[] then Step(st, Rejected(errors))
    else
      PassedRequiredIsFilled(oracle, OrganizationNames(st.db.organizations), req, rules, map[], ValidationKey);
      if ValidationKey in st.session && req[ValidationKey] == st.session[ValidationKey] then
        Step(st, Advance(3))
      else
        Step(st, Rejected(map[ValidationKey := [Custom(KeyMismatch)]]))
  }

  /** Step 3: keep the name and the password. */
  function SubmitCredentials(st: State, oracle: Oracle, req: Request): (r: Step)
    ensures r.state.db == st.db
    ensures r.outcome.Advance? || r.outcome.Rejected?
    ensures r.outcome.Rejected? ==> r.state == st
  {
    var rules := StoreRules(3).value;
    var errors := StoreErrors(st, oracle, rules, req);
    if errors != map[] then Step(st, Rejected(errors))
    else
      var names := OrganizationNames(st.db.organizations);
      PassedRequiredIsFilled(oracle, names, req, rules, map[], FirstName);
      PassedRequiredIsFilled(oracle, names, req, rules, map[], LastName);
      PassedRequiredIsFilled(oracle, names, req, rules, map[], Password);
      var session := st.session[FirstName := req[FirstName]][LastName := req[LastName]][Password := req[Password]];
      Step(st.(session := session), Advance(4))
  }

  /** Step 4: check the organization name is unused, then finalize. */
  function CreateOrganization(st: State, oracle: Oracle, req: Request): (r: Step)
    ensures r.state.session == st.session
    ensures r.outcome.Done? || r.outcome.Rejected?
    ensures r.outcome.Rejected? ==> r.state == st
  {
    var rules := StoreRules(4).value;
    var errors := StoreErrors(st, oracle, rules, req);
    if errors != map[] then Step(st, Rejected(errors))
    else
      PassedRequiredIsFilled(oracle, OrganizationNames(st.db.organizations), req, rules, map[], OrganizationName);
      Step(st.(db := Register(st.db, st.session, req[OrganizationName], Get(req, Description))), Done(CreatedAlert))
  }

  // ---- What each step's rules accept ----

  predicate StepOneAccepts(oracle: Oracle, req: Request) {
    Filled(req, Email) && oracle.isEmail(req[Email])
  }

  predicate StepThreeAccepts(req: Request) {
    && Filled(req, FirstName) && |req[FirstName]| <= 15
    && Filled(req, LastName) && |req[LastName]| <= 15
    && Filled(req, Password) && |req[Password]| >= 6
    && PasswordConfirmation in req && req[PasswordConfirmation] == req[Password]
  }

  predicate StepFourAccepts(db: Db, req: Request) {
    Filled(req, OrganizationName) && req[OrganizationName] !in OrganizationNames(db.organizations)
  }

  lemma StepOneRules(st: State, oracle: Oracle, req: Request)
    ensures StoreErrors(st, oracle, StoreRules(1).value, req) == map[] <==> StepOneAccepts(oracle, req)
  {
    var names := OrganizationNames(st.db.organizations);
    var rules := StoreRules(1).value;
    ValidatePassesByField(oracle, names, req, rules, map[]);
    assert rules.Keys == {Email};
    RequiredAndPasses(oracle, names, req, Email, ValidEmail, map[]);
  }

  lemma StepTwoRules(st: State, oracle: Oracle, req: Request)
    ensures StoreErrors(st, oracle, StoreRules(2).value, req) == map[] <==> Filled(req, ValidationKey)
  {
    var names := OrganizationNames(st.db.organizations);
    var rules := StoreRules(2).value;
    ValidatePassesByField(oracle, names, req, rules, map[]);
    assert rules.Keys == {ValidationKey};
    RequiredPasses(oracle, names, req, ValidationKey, map[]);
  }

  lemma StepThreeRules(st: State, oracle: Oracle, req: Request)
    ensures StoreErrors(st, oracle, StoreRules(3).value, req) == map[] <==> StepThreeAccepts(req)
  {
    var names := OrganizationNames(st.db.organizations);
    var rules := StoreRules(3).value;
    ValidatePassesByField(oracle, names, req, rules, map[]);
    assert rules.Keys == {FirstName, LastName, Password};
    RequiredAndPasses(oracle, names, req, FirstName, Max(15), map[]);
    RequiredAndPasses(oracle, names, req, LastName, Max(15), map[]);
    RequiredAndBothPass(oracle, names, req, Password, Min(6), Confirmed, map[]);
  }

  lemma StepFourRules(st: State, oracle: Oracle, req: Request)
    ensures StoreErrors(st, oracle, StoreRules(4).value, req) == map[] <==> StepFourAccepts(st.db, req)
  {
    var names := OrganizationNames(st.db.organizations);
    var rules := StoreRules(4).value;
    ValidatePassesByField(oracle, names, req, rules, map[]);
    assert rules.Keys == {OrganizationName};
    RequiredAndPasses(oracle, names, req, OrganizationName, Unique, map[]);
  }

  // ---- Step dispatch and rejection ----

  /** A step number outside 1..4 aborts with 404 before anything is validated or written. */
  lemma StoreUnknownStep(st: State, oracle: Oracle, step: int, req: Request, key: nat)
    requires step < 1 || step > 4
    ensures Store(st, oracle, step, req, key) == Step(st, NotFound)
  {
  }

  /** A request failing its step's rules is sent back with exactly those errors. */
  lemma StoreInvalidIsRejected(st: State, oracle: Oracle, step: int, req: Request, key: nat)
    requires 1 <= step <= 4
    requires StoreErrors(st, oracle, StoreRules(step).value, req) != map[]
    ensures Store(st, oracle, step, req, key) == Step(st, Rejected(StoreErrors(st, oracle, StoreRules(step).value, req)))
  {
  }

  /**
   * The step transitions: a request that is neither rejected nor refused with
   * 404 leaves a step below 4 for the next one and ends the workflow at step 4;
   * a rejected or refused request changes nothing.
   */
  lemma StoreTransitions(st: State, oracle: Oracle, step: int, req: Request, key: nat)
    ensures var r := Store(st, oracle, step, req, key);
      && (r.outcome.NotFound? <==> step < 1 || step > 4)
      && !r.outcome.ServerError?
      && (r.outcome.Advance? <==> 1 <= step <= 3 && !r.outcome.Rejected?)
      && (r.outcome.Advance? ==> r.outcome.next == step + 1)
      && (r.outcome.Done? ==> step == 4 && r.outcome.message == CreatedAlert)
      && (r.outcome.Rejected? || r.outcome.NotFound? ==> r.state == st)
  {
  }

  // ---- What each accepted step writes ----

  /**
   * Step 1 writes exactly `email` (the submitted value) and `validation_key`
   * (a six-digit key); every other key and every store stays as it was.
   */
  lemma StoreStepOne(st: State, oracle: Oracle, req: Request, key: nat)
    requires KeyMin <= key <= KeyMax
    requires StepOneAccepts(oracle, req)
    ensures var r := Store(st, oracle, 1, req, key);
      && r.outcome == Advance(2)
      && r.state.db == st.db
      && r.state.session.Keys == st.session.Keys + {Email, ValidationKey}
      && r.state.session[Email] == req[Email]
      && IsSixDigitKey(r.state.session[ValidationKey])
      && forall k :: k in st.session && k != Email && k != ValidationKey ==>
           r.state.session[k] == st.session[k]
  {
    StepOneRules(st, oracle, req);
    DrawnKeyIsSixDigits(key);
  }

  /**
   * Step 2 never writes: it advances when the submitted key is the stored one
   * and is sent back with the mismatch error otherwise (also when no key is stored).
   */
  lemma StoreStepTwo(st: State, oracle: Oracle, req: Request, key: nat)
    requires Filled(req, ValidationKey)
    ensures var r := Store(st, oracle, 2, req, key);
      && r.state == st
      && (ValidationKey in st.session && req[ValidationKey] == st.session[ValidationKey] ==>
            r.outcome == Advance(3))
      && (!(ValidationKey in st.session && req[ValidationKey] == st.session[ValidationKey]) ==>
            r.outcome == Rejected(map[ValidationKey := [Custom(KeyMismatch)]]))
  {
    StepTwoRules(st, oracle, req);
  }

  /**
   * Step 3 writes exactly `first_name`, `last_name` and `password` from the
   * request; every other key and every store stays as it was.
   */
  lemma StoreStepThree(st: State, oracle: Oracle, req: Request, key: nat)
    requires StepThreeAccepts(req)
    ensures var r := Store(st, oracle, 3, req, key);
      && r.outcome == Advance(4)
      && r.state.db == st.db
      && r.state.session.Keys == st.session.Keys + {FirstName, LastName, Password}
      && r.state.session[FirstName] == req[FirstName]
      && r.state.session[LastName] == req[LastName]
      && r.state.session[Password] == req[Password]
      && forall k :: k in st.session && k !in {FirstName, LastName, Password} ==>
           r.state.session[k] == st.session[k]
  {
    StepThreeRules(st, oracle, req);
  }

  /** Step 4 with a name an organization already has creates nothing. */
  lemma StoreStepFourDuplicate(st: State, oracle: Oracle, req: Request, key: nat)
    requires OrganizationName in req
    requires req[OrganizationName] in OrganizationNames(st.db.organizations)
    ensures var r := Store(st, oracle, 4, req, key);
      r.outcome.Rejected? && OrganizationName in r.outcome.errors && r.state == st
  {
    StepFourRules(st, oracle, req);
  }

  /**
   * Accepted step 4 creates exactly one active user from the session's
   * fields, one organization that user owns, and the six categories in their
   * fixed order, each carrying both new ids; the session is not cleared.
   */
  lemma StoreStepFour(st: State, oracle: Oracle, req: Request, key: nat)
    requires StepFourAccepts(st.db, req)
    ensures var r := Store(st, oracle, 4, req, key);
      var db, db' := st.db, r.state.db;
      && r.outcome == Done(CreatedAlert)
      && r.state.session == st.session
      && |db'.users| == |db.users| + 1 && db'.users[..|db.users|] == db.users
      && |db'.organizations| == |db.organizations| + 1 && db'.organizations[..|db.organizations|] == db.organizations
      && |db'.categories| == |db.categories| + 6 && db'.categories[..|db.categories|] == db.categories
      && var owner, organization := db'.users[|db.users|], db'.organizations[|db.organizations|];
      && owner == User(NextId(|db.users|), Get(st.session, FirstName), Get(st.session, LastName),
                       Get(st.session, Password), Get(st.session, Email), "1")
      && organization == Organization(NextId(|db.organizations|), req[OrganizationName],
                                      Get(req, Description), owner.id)
      && forall i :: 0 <= i < 6 ==>
           db'.categories[|db.categories| + i] ==
             Category(NextId(|db.categories| + i), CategoryNames[i], owner.id, organization.id)
  {
    StepFourRules(st, oracle, req);
  }

  // ---- Across steps ----

  /**
   * After step 1 drew `key`, step 2 advances for the decimal form of a
   * number exactly when that number is the key.
   */
  lemma StepTwoAcceptsOnlyTheDrawnKey(st: State, oracle: Oracle, req1: Request, key: nat, req2: Request, n: nat, key2: nat)
    requires KeyMin <= key <= KeyMax
    requires StepOneAccepts(oracle, req1)
    requires ValidationKey in req2 && req2[ValidationKey] == Decimal(n)
    ensures var s1 := Store(st, oracle, 1, req1, key).state;
      var r := Store(s1, oracle, 2, req2, key2);
      (r.outcome == Advance(3) <==> n == key) && r.state == s1
  {
    StoreStepOne(st, oracle, req1, key);
    DecimalShape(n);
    assert Filled(req2, ValidationKey) by {
      assert req2[ValidationKey][0] !in TrimmedChars;
    }
    StoreStepTwo(Store(st, oracle, 1, req1, key).state, oracle, req2, key2);
    DecimalInjective(n, key);
  }

  /**
   * Steps 1 to 3 accepted in order leave the tables alone and leave the
   * session holding the email of step 1 and the name and password of step 3.
   */
  lemma FirstThreeSteps(st: State, oracle: Oracle, key: nat, key2: nat, key3: nat,
                        req1: Request, req2: Request, req3: Request)
    requires KeyMin <= key <= KeyMax
    requires StepOneAccepts(oracle, req1)
    requires ValidationKey in req2 && req2[ValidationKey] == Decimal(key)
    requires StepThreeAccepts(req3)
    ensures var s1 := Store(st, oracle, 1, req1, key);
      var s2 := Store(s1.state, oracle, 2, req2, key2);
      var s3 := Store(s2.state, oracle, 3, req3, key3);
      && s1.outcome == Advance(2) && s2.outcome == Advance(3) && s3.outcome == Advance(4)
      && s3.state.db == st.db
      && Get(s3.state.session, FirstName) == Some(req3[FirstName])
      && Get(s3.state.session, LastName) == Some(req3[LastName])
      && Get(s3.state.session, Password) == Some(req3[Password])
      && Get(s3.state.session, Email) == Some(req1[Email])
  {
    var r1 := Store(st, oracle, 1, req1, key);
    StoreStepOne(st, oracle, req1, key);
    StepTwoAcceptsOnlyTheDrawnKey(st, oracle, req1, key, req2, key, key2);
    StoreStepThree(r1.state, oracle, req3, key3);
  }

  /** Four accepted requests in order create the founding user from steps 1 and 3. */
  lemma RegistrationInOrder(st: State, oracle: Oracle, key: nat, key2: nat, key3: nat, key4: nat,
                            req1: Request, req2: Request, req3: Request, req4: Request)
    requires KeyMin <= key <= KeyMax
    requires StepOneAccepts(oracle, req1)
    requires ValidationKey in req2 && req2[ValidationKey] == Decimal(key)
    requires StepThreeAccepts(req3)
    requires StepFourAccepts(st.db, req4)
    ensures var s1 := Store(st, oracle, 1, req1, key);
      var s2 := Store(s1.state, oracle, 2, req2, key2);
      var s3 := Store(s2.state, oracle, 3, req3, key3);
      var s4 := Store(s3.state, oracle, 4, req4, key4);
      && s4.outcome == Done(CreatedAlert)
      && s4.state.db == Register(st.db, s3.state.session, req4[OrganizationName], Get(req4, Description))
      && s4.state.db.users == st.db.users +
           [User(NextId(|st.db.users|), Some(req3[FirstName]), Some(req3[LastName]),
                 Some(req3[Password]), Some(req1[Email]), "1")]
  {
    FirstThreeSteps(st, oracle, key, key2, key3, req1, req2, req3);
    var s3 := Store(Store(Store(st, oracle, 1, req1, key).state, oracle, 2, req2, key2).state, oracle, 3, req3, key3).state;
    StoreStepFour(s3, oracle, req4, key4);
  }

  /**
   * Nothing makes step 4 wait for steps 1 to 3: on an empty session it
   * still creates an active user, with every session-sourced field missing.
   */
  lemma StepFourOnEmptySession(db: Db, oracle: Oracle, req: Request, key: nat)
    requires StepFourAccepts(db, req)
    ensures var r := Store(State(map[], db), oracle, 4, req, key);
      r.outcome.Done? && r.state.db.users == db.users + [User(NextId(|db.users|), None, None, None, None, "1")]
  {
    StoreStepFour(State(map[], db), oracle, req, key);
  }

  /** The categories of a new organization are numbered on from `firstId` and carry its two ids. */
  lemma DefaultCategoriesShape(firstId: nat, userId: nat, organizationId: nat)
    ensures var cs := DefaultCategories(firstId, userId, organizationId);
      && |cs| == 6
      && forall i :: 0 <= i < 6 ==> cs[i].id == firstId + i && cs[i].userId == userId &&
                                     cs[i].organizationId == organizationId
  {
  }

  /** Finalization keeps the stores well formed. */
  lemma RegisterPreservesWellformed(db: Db, session: Session, name: string, description: Option<string>)
    requires Wellformed(db)
    ensures Wellformed(Register(db, session, name, description))
  {
    var db' := Register(db, session, name, description);
    var u, o, n := |db.users|, |db.organizations|, |db.categories|;
    var cs := DefaultCategories(NextId(n), NextId(u), NextId(o));
    DefaultCategoriesShape(NextId(n), NextId(u), NextId(o));
    assert db'.categories == db.categories + cs;
    forall i | 0 <= i < |db'.categories|
      ensures db'.categories[i].id == NextId(i)
      ensures 1 <= db'.categories[i].userId <= |db'.users|
      ensures 1 <= db'.categories[i].organizationId <= |db'.organizations|
    {
      if i >= n {
        assert db'.categories[i] == cs[i - n];
      } else {
        assert db'.categories[i] == db.categories[i];
      }
    }
  }

  /** Registration keeps the stores well formed. */
  lemma StorePreservesWellformed(st: State, oracle: Oracle, step: int, req: Request, key: nat)
    requires Wellformed(st.db)
    ensures Wellformed(Store(st, oracle, step, req, key).state.db)
  {
    var r := Store(st, oracle, step, req, key);
    var rules := StoreRules(4).value;
    if step == 4 && StoreErrors(st, oracle, rules, req) == map[] {
      PassedRequiredIsFilled(oracle, OrganizationNames(st.db.organizations), req, rules, map[], OrganizationName);
      RegisterPreservesWellformed(st.db, st.session, req[OrganizationName], Get(req, Description));
    } else {
      assert r.state.db == st.db;
    }
  }
}
