/**
 * `POST /api/auth/register`: the admission rules for a new account over an
 * abstract user store. The database, the password hash and the request
 * parsing are parameters; each may fail, and any failure is a 500.
 */
module RegisterRoute {
  import opened Options

  datatype User = User(name: string, email: string, password: string)

  /** The JSON body; `None` when it does not parse. Each property may be missing. */
  datatype Body = Body(name: Option<string>, email: Option<string>, password: Option<string>)

  /** Which of the request's steps throw: connecting, hashing, saving. */
  datatype Faults = Faults(connect: bool, hash: bool, save: bool)

  const NoFaults := Faults(false, false, false)

  datatype Response =
    | Registered(user: User)
    | Failed(status: int, message: string)

  /** The HTTP status of a response. */
  function Status(r: Response): int {
    if r.Registered? then 201 else r.status
  }

  /** A missing or empty property is falsy. */
  predicate Given(s: Option<string>) {
    s.Some? && s.value != ""
  }

  predicate EmailTaken(store: seq<User>, email: string) {
    exists i :: 0 <= i < |store| && store[i].email == email
  }

  /** Handling one request: the new store and the response. */
  function Register(store: seq<User>, body: Option<Body>, hash: string -> string, faults: Faults): (seq<User>, Response) {
    if body.None? then (store, Failed(500, "Failed to register user"))
    else
      var b := body.value;
      if !Given(b.name) || !Given(b.email) || !Given(b.password) then
        (store, Failed(400, "All fields are required."))
      else if faults.connect then (store, Failed(500, "Failed to register user"))
      else if EmailTaken(store, b.email.value) then (store, Failed(400, "User already exists."))
      else if faults.hash || faults.save then (store, Failed(500, "Failed to register user"))
      else
        var user := User(b.name.value, b.email.value, hash(b.password.value));
        (store + [user], Registered(user))
  }

  /** A missing or empty property is refused before the store is consulted, whatever fails later. */
  lemma MissingFieldRefused(store: seq<User>, b: Body, hash: string -> string, faults: Faults)
    requires !Given(b.name) || !Given(b.email) || !Given(b.password)
    ensures Register(store, Some(b), hash, faults) == (store, Failed(400, "All fields are required."))
  {
  }

  /** A registered email is refused and nothing is saved. */
  lemma DuplicateRefused(store: seq<User>, b: Body, hash: string -> string, faults: Faults, i: int)
    requires Given(b.name) && Given(b.email) && Given(b.password) && !faults.connect
    requires 0 <= i < |store| && store[i].email == b.email.value
    ensures Register(store, Some(b), hash, faults) == (store, Failed(400, "User already exists."))
  {
  }

  /**
   * A request succeeds exactly when every property is given, the email is
   * new and nothing throws; it then adds exactly one user, holding the hash
   * of the password, and answers 201 with it.
   */
  lemma RegisterSucceeds(store: seq<User>, body: Option<Body>, hash: string -> string, faults: Faults)
    ensures Status(Register(store, body, hash, faults).1) == 201 <==>
      body.Some? && Given(body.value.name) && Given(body.value.email) && Given(body.value.password) &&
      !EmailTaken(store, body.value.email.value) && faults == NoFaults
    ensures Status(Register(store, body, hash, faults).1) == 201 ==>
      var u := User(body.value.name.value, body.value.email.value, hash(body.value.password.value));
      Register(store, body, hash, faults) == (store + [u], Registered(u))
    ensures Status(Register(store, body, hash, faults).1) != 201 ==> Register(store, body, hash, faults).0 == store
    ensures Status(Register(store, body, hash, faults).1) in {201, 400, 500}
  {
  }

  /** Every failure after parsing and validation, and an unparsable body, is a 500 that saves nothing. */
  lemma FaultIsServerError(store: seq<User>, body: Option<Body>, hash: string -> string, faults: Faults)
    requires body.None? || (Given(body.value.name) && Given(body.value.email) && Given(body.value.password))
    requires body.None? || faults.connect || (!EmailTaken(store, body.value.email.value) && faults != NoFaults)
    ensures Register(store, body, hash, faults) == (store, Failed(500, "Failed to register user"))
  {
  }

  predicate UniqueEmails(store: seq<User>) {
    forall i, j :: 0 <= i < j < |store| ==> store[i].email != store[j].email
  }

  /** One request keeps the emails in the store distinct. */
  lemma RegisterKeepsEmailsUnique(store: seq<User>, body: Option<Body>, hash: string -> string, faults: Faults)
    requires UniqueEmails(store)
    ensures UniqueEmails(Register(store, body, hash, faults).0)
  {
    var r := Register(store, body, hash, faults);
    if r.0 != store {
      var s := r.0;
      assert s == store + [s[|s| - 1]];
      forall i, j | 0 <= i < j < |s|
        ensures s[i].email != s[j].email
      {
        if j == |s| - 1 {
          assert s[i] == store[i];
        }
      }
    }
  }

  /** One request as the server sees it. */
  datatype Request = Request(body: Option<Body>, faults: Faults)

  /** Handling requests one after another, each seeing the store the previous ones left. */
  function RegisterAll(store: seq<User>, reqs: seq<Request>, hash: string -> string): seq<User>
    decreases |reqs|
  {
    if |reqs| == 0 then store
    else RegisterAll(Register(store, reqs[0].body, hash, reqs[0].faults).0, reqs[1..], hash)
  }

  /** Requests handled one at a time never leave two users with the same email. */
  lemma {:induction false} SequentialEmailsUnique(store: seq<User>, reqs: seq<Request>, hash: string -> string)
    requires UniqueEmails(store)
    ensures UniqueEmails(RegisterAll(store, reqs, hash))
    decreases |reqs|
  {
    if |reqs| > 0 {
      RegisterKeepsEmailsUnique(store, reqs[0].body, hash, reqs[0].faults);
      SequentialEmailsUnique(Register(store, reqs[0].body, hash, reqs[0].faults).0, reqs[1..], hash);
    }
  }

  /** The store only ever grows: earlier users are kept in place. */
  lemma {:induction false} RegisterAllKeepsPrefix(store: seq<User>, reqs: seq<Request>, hash: string -> string)
    ensures store <= RegisterAll(store, reqs, hash)
    decreases |reqs|
  {
    if |reqs| > 0 {
      var next := Register(store, reqs[0].body, hash, reqs[0].faults).0;
      assert store <= next;
      RegisterAllKeepsPrefix(next, reqs[1..], hash);
    }
  }
}
