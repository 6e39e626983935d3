/**
 * The records the workflows create, the append-only stores that hold them,
 * the session, and the outcome of one step request.
 */
module Entities {
  import opened Wrappers
  import opened Validation

  /** The server-side session: key to stored value. */
  type Session = map<Key, string>

  /** A user row; `active` is "1" for an owner and "0" for a pending member. */
  datatype User = User(
    id: nat,
    firstName: Option<string>,
    lastName: Option<string>,
    password: Option<string>,
    email: Option<string>,
    active: string)

  datatype Organization = Organization(
    id: nat,
    name: string,
    description: Option<string>,
    userId: nat)

  datatype Category = Category(
    id: nat,
    name: string,
    userId: nat,
    organizationId: nat)

  /** The three tables, in insertion order. */
  datatype Db = Db(users: seq<User>, organizations: seq<Organization>, categories: seq<Category>)

  /** Everything a step reads and may change. */
  datatype State = State(session: Session, db: Db)

  /** The redirect a step request ends in, without its URL. */
  datatype Outcome =
    | Advance(next: int)                          // to the form of the next step
    | Rejected(errors: map<Key, seq<Failure>>) // back to the same form, with errors
    | Done(message: string)                       // to `home`, with a success alert
    | NotFound                                    // abort(404)
    | ServerError                                 // an uncaught exception (HTTP 500)

  /** The new state and the response of one request. */
  datatype Step = Step(state: State, outcome: Outcome)

  /** The id the database hands out for the next row of a table. */
  function NextId(count: nat): (id: nat) {
    count + 1
  }

  /** The names `unique` and `exists` look a value up among. */
  function OrganizationNames(orgs: seq<Organization>): (names: set<string>) {
    set i | 0 <= i < |orgs| :: orgs[i].name
  }

  /**
   * The store invariant: ids are handed out in sequence, so every id is
   * fresh when assigned, and every owner an organization or a category
   * names exists.
   */
  ghost predicate Wellformed(db: Db) {
    && (forall i :: 0 <= i < |db.users| ==> db.users[i].id == NextId(i))
    && (forall i :: 0 <= i < |db.organizations| ==> db.organizations[i].id == NextId(i))
    && (forall i :: 0 <= i < |db.categories| ==> db.categories[i].id == NextId(i))
    && (forall i :: 0 <= i < |db.organizations| ==> 1 <= db.organizations[i].userId <= |db.users|)
    && (forall i :: 0 <= i < |db.categories| ==>
          1 <= db.categories[i].userId <= |db.users| &&
          1 <= db.categories[i].organizationId <= |db.organizations|)
  }

  /** In a well-formed store the next id of each table is not yet taken. */
  lemma NextIdsAreFresh(db: Db)
    requires Wellformed(db)
    ensures forall u :: u in db.users ==> u.id != NextId(|db.users|)
    ensures forall o :: o in db.organizations ==> o.id != NextId(|db.organizations|)
    ensures forall c :: c in db.categories ==> c.id != NextId(|db.categories|)
  {
  }
}
