/**
 * `OrganizationController`: the server-side session and the three tables it
 * appends to, with the two workflow actions applied step by step in place,
 * and the JSON listing of an organization's first wikis. Each step method
 * updates the fields one statement at a time, as the controller does, and is
 * proved to end in exactly the state and outcome that the matching function
 * of `Registration` or `Joining` gives, so the lemmas proved about those
 * functions carry over to the methods.
 */
module Controller {
  import opened Wrappers
  import opened Validation
  import opened Entities
  import opened VerificationKey
  import Registration
  import Joining

  class OrganizationController {
    var session: Session
    var users: seq<User>
    var organizations: seq<Organization>
    var categories: seq<Category>
    const oracle: Oracle

    /** A fresh session over empty tables. */
    constructor (oracle: Oracle)
      ensures this.oracle == oracle
      ensures session == map[] && users == [] && organizations == [] && categories == []
      ensures Valid()
    {
      this.oracle := oracle;
      session := map[];
      users, organizations, categories := [], [], [];
    }

    function State(): (st: State)
      reads this
    {
      Entities.State(session, Db(users, organizations, categories))
    }

    ghost predicate Valid()
      reads this
    {
      Wellformed(State().db)
    }

    /**
     * `store($step)`: the new session and tables are those `Registration.Store`
     * gives for some key `mt_rand(100000, 999999)` can draw.
     */
    method Store(step: int, req: Request) returns (outcome: Outcome)
      requires Valid()
      modifies this
      ensures Valid()
      ensures exists key :: KeyMin <= key <= KeyMax &&
                Registration.Store(old(State()), oracle, step, req, key) == Step(State(), outcome)
    {
      if step == 1 {
        outcome := SubmitEmail(req);
        ghost var key :| KeyMin <= key <= KeyMax &&
          Registration.SubmitEmail(old(State()), oracle, req, key) == Step(State(), outcome);
        assert Registration.Store(old(State()), oracle, step, req, key) == Step(State(), outcome);
      } else if step == 2 {
        outcome := ConfirmKey(req);
        assert Registration.Store(old(State()), oracle, step, req, KeyMin) == Step(State(), outcome);
      } else if step == 3 {
        outcome := SubmitCredentials(req);
        assert Registration.Store(old(State()), oracle, step, req, KeyMin) == Step(State(), outcome);
      } else if step == 4 {
        outcome := CreateOrganization(req);
        assert Registration.Store(old(State()), oracle, step, req, KeyMin) == Step(State(), outcome);
      } else {
        outcome := NotFound;
        assert Registration.Store(old(State()), oracle, step, req, KeyMin) == Step(State(), outcome);
      }
    }

    /** Step 1: validate the email, then put it and a drawn key in the session. */
    method SubmitEmail(req: Request) returns (outcome: Outcome)
      requires Valid()
      modifies this
      ensures Valid()
      ensures exists key :: KeyMin <= key <= KeyMax &&
                Registration.SubmitEmail(old(State()), oracle, req, key) == Step(State(), outcome)
    {
      var rules := Registration.StoreRules(1).value;
      var errors := Validate(oracle, OrganizationNames(organizations), req, rules, map[]);
      if errors != map[] {
        outcome := Rejected(errors);
        assert Registration.SubmitEmail(old(State()), oracle, req, KeyMin) == Step(State(), outcome);
        return;
      }
      PassedRequiredIsFilled(oracle, OrganizationNames(organizations), req, rules, map[], Email);
      var key :| KeyMin <= key <= KeyMax;
      session := session[Email := req[Email]];
      session := session[ValidationKey := Decimal(key)];
      outcome := Advance(2);
      assert Registration.SubmitEmail(old(State()), oracle, req, key) == Step(State(), outcome);
    }

    /** Step 2: validate, then compare the submitted key with the stored one. */
    method ConfirmKey(req: Request) returns (outcome: Outcome)
      requires Valid()
      modifies this
      ensures Valid()
      ensures Registration.ConfirmKey(old(State()), oracle, req) == Step(State(), outcome)
    {
      var rules := Registration.StoreRules(2).value;
      var errors := Validate(oracle, OrganizationNames(organizations), req, rules, map[]);
      if errors != map[] {
        return Rejected(errors);
      }
      PassedRequiredIsFilled(oracle, OrganizationNames(organizations), req, rules, map[], ValidationKey);
      if ValidationKey in session && req[ValidationKey] == session[ValidationKey] {
        outcome := Advance(3);
      } else {
        outcome := Rejected(map[ValidationKey := [Custom(Registration.KeyMismatch)]]);
      }
    }

    /** Step 3: validate, then put the name and password in the session. */
    method SubmitCredentials(req: Request) returns (outcome: Outcome)
      requires Valid()
      modifies this
      ensures Valid()
      ensures Registration.SubmitCredentials(old(State()), oracle, req) == Step(State(), outcome)
    {
      var rules := Registration.StoreRules(3).value;
      var errors := Validate(oracle, OrganizationNames(organizations), req, rules, map[]);
      if errors != map[] {
        return Rejected(errors);
      }
      PassedRequiredIsFilled(oracle, OrganizationNames(organizations), req, rules, map[], FirstName);
      PassedRequiredIsFilled(oracle, OrganizationNames(organizations), req, rules, map[], LastName);
      PassedRequiredIsFilled(oracle, OrganizationNames(organizations), req, rules, map[], Password);
      session := session[FirstName := req[FirstName]];
      session := session[LastName := req[LastName]];
      session := session[Password := req[Password]];
      outcome := Advance(4);
    }

    /**
     * Step 4: validate the organization name, then create the owner, the
     * organization and its categories, one after the other.
     */
    method CreateOrganization(req: Request) returns (outcome: Outcome)
      requires Valid()
      modifies this
      ensures Valid()
      ensures Registration.CreateOrganization(old(State()), oracle, req) == Step(State(), outcome)
    {
      var rules := Registration.StoreRules(4).value;
      var errors := Validate(oracle, OrganizationNames(organizations), req, rules, map[]);
      if errors != map[] {
        return Rejected(errors);
      }
      PassedRequiredIsFilled(oracle, OrganizationNames(organizations), req, rules, map[], OrganizationName);
      ghost var before := State();
      Registration.RegisterPreservesWellformed(before.db, session, req[OrganizationName], Get(req, Description));
      var user := User(NextId(|users|), Get(session, FirstName), Get(session, LastName),
                       Get(session, Password), Get(session, Email), "1");
      users := users + [user];
      var organization := Organization(NextId(|organizations|), req[OrganizationName],
                                       Get(req, Description), user.id);
      organizations := organizations + [organization];
      CreateCategories(user.id, organization.id);
      outcome := Done(Registration.CreatedAlert);
      assert State().db == Registration.Register(before.db, before.session, req[OrganizationName], Get(req, Description));
    }

    /** The `foreach` over the default categories, creating each in turn. */
    method CreateCategories(userId: nat, organizationId: nat)
      modifies this`categories
      ensures categories == old(categories) +
                Registration.DefaultCategories(NextId(|old(categories)|), userId, organizationId)
    {
      ghost var added := Registration.DefaultCategories(NextId(|categories|), userId, organizationId);
      var names := Registration.CategoryNames;
      var i := 0;
      while i < |names|
        invariant 0 <= i <= |names|
        invariant |categories| == |old(categories)| + i
        invariant categories == old(categories) + added[..i]
      {
        assert added[i] == Category(NextId(|categories|), names[i], userId, organizationId);
        categories := categories + [Category(NextId(|categories|), names[i], userId, organizationId)];
        assert added[..i + 1] == added[..i] + [added[i]];
        i := i + 1;
      }
      assert added[..i] == added;
    }

    /** `postJoin($step)`: the new session and tables are those `Joining.PostJoin` gives. */
    method PostJoin(step: int, req: Request) returns (outcome: Outcome)
      requires Valid()
      modifies this
      ensures Valid()
      ensures Joining.PostJoin(old(State()), oracle, step, req) == Step(State(), outcome)
    {
      if step == 1 {
        outcome := SelectOrganization(req);
      } else if step == 2 {
        outcome := RequestMembership(req);
      } else {
        outcome := NotFound;
      }
    }

    /** Join step 1: validate that the organization exists, then put its name in the session. */
    method SelectOrganization(req: Request) returns (outcome: Outcome)
      requires Valid()
      modifies this
      ensures Valid()
      ensures Joining.SelectOrganization(old(State()), oracle, req) == Step(State(), outcome)
    {
      var rules, messages := Joining.StepOneRules(), Joining.StepOneMessages();
      var errors := Validate(oracle, OrganizationNames(organizations), req, rules, messages);
      if errors != map[] {
        return Rejected(errors);
      }
      PassedRequiredIsFilled(oracle, OrganizationNames(organizations), req, rules, messages, OrganizationName);
      session := session[OrganizationName := req[OrganizationName]];
      outcome := Advance(2);
    }

    /** Join step 2: look the organization up, validate, then add a pending user. */
    method RequestMembership(req: Request) returns (outcome: Outcome)
      requires Valid()
      modifies this
      ensures Valid()
      ensures Joining.RequestMembership(old(State()), oracle, req) == Step(State(), outcome)
    {
      ghost var before := State();
      var found := Joining.FirstLike(organizations, Joining.JoinedName(session));
      if found.None? {
        return ServerError;
      }
      var organization := found.value;
      assert organization == Joining.LookedUp(before);
      var rules := Joining.StepTwoRules(organization.id);
      var errors := Validate(oracle, OrganizationNames(organizations), req, rules, map[]);
      assert errors == Joining.StepTwoErrors(before, oracle, req);
      if errors != map[] {
        return Rejected(errors);
      }
      PassedRequiredIsFilled(oracle, OrganizationNames(organizations), req, rules, map[], Email);
      PassedRequiredIsFilled(oracle, OrganizationNames(organizations), req, rules, map[], Password);
      var member := User(NextId(|users|), Get(req, FirstName), Get(req, LastName),
                         Some(req[Password]), Some(req[Email]), "0");
      assert member == Joining.PendingMember(before, req);
      Joining.AddUserPreservesWellformed(before.db, member);
      users := users + [member];
      outcome := Done(Joining.JoinAlert(Joining.JoinedName(session)));
    }
  }

  // ---- getCategories ----

  datatype Wiki = Wiki(name: string, slug: string)

  /** One entry of the JSON listing; `route('wikis.show', ...)` is kept as its two slugs. */
  datatype WikiLink = WikiLink(organizationSlug: string, wikiSlug: string, name: string)

  /** The JSON listing, or the category page (its rendering is not modelled). */
  datatype CategoriesResponse = WikiLinks(links: seq<WikiLink>) | CategoryPage

  const MaxListedWikis: nat := 5

  /**
   * `getCategories` for a request whose content type is (or is not) JSON:
   * the links of the organization's first five wikis, in order.
   */
  method GetCategories(isJson: bool, organizationSlug: string, wikis: seq<Wiki>) returns (r: CategoriesResponse)
    ensures !isJson ==> r == CategoryPage
    ensures isJson ==> r.WikiLinks?
    ensures isJson ==> |r.links| == if |wikis| < MaxListedWikis then |wikis| else MaxListedWikis
    ensures isJson ==> forall i :: 0 <= i < |r.links| ==>
              r.links[i] == WikiLink(organizationSlug, wikis[i].slug, wikis[i].name)
  {
    if !isJson {
      return CategoryPage;
    }
    var links: seq<WikiLink> := [];
    var k := 0;
    while k < |wikis|
      invariant 0 <= k <= |wikis|
      invariant |links| == k <= MaxListedWikis
      invariant forall i :: 0 <= i < k ==> links[i] == WikiLink(organizationSlug, wikis[i].slug, wikis[i].name)
    {
      if |links| >= MaxListedWikis {
        break;
      }
      links := links + [WikiLink(organizationSlug, wikis[k].slug, wikis[k].name)];
      k := k + 1;
    }
    return WikiLinks(links);
  }
}
