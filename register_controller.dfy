/**
  `registerUser`: a new account with the role `user`, refused when a field is missing,
  the email is registered, or the username is taken. The unique indexes of the users
  collection can still refuse the insert (two registrations racing past the manual
  checks); the store's answer to the insert is a parameter, `fault`.
 */
module RegisterController {
  import opened Wrappers
  import opened Docs
  import opened Http
  import opened Db
  import Text

  const ALL_FIELDS: string := "All fields are required"
  const EMAIL_REGISTERED: string := "Email already registered"
  const USERNAME_TAKEN: string := "Username already taken"
  const INTERNAL: string := "Internal Server Error"

  /** What the insert can run into: a duplicate key (code 11000) on the named index
      path, or any other error. */
  datatype SaveFault = DuplicateKey(field: string) | Other

  /** The request body; `""` stands for a missing or empty field. */
  datatype RegisterRequest = RegisterRequest(username: string, email: string, password: string)

  /** The `user` object of the 201 answer (the password is never sent back). */
  datatype Registered = Registered(id: Id, username: string, email: string, role: string)

  predicate MissingFields(req: RegisterRequest) {
    req.username == "" || req.email == "" || req.password == ""
  }

  /** `User.findOne({ email })` finds a document. */
  predicate EmailTaken(st: State, email: string) {
    exists u :: u in st.users && u.body.email == email
  }

  /** `User.findOne({ username })` finds a document. */
  predicate UsernameTaken(st: State, username: string) {
    exists u :: u in st.users && u.body.username == username
  }

  /** The 409 message for a duplicate key on `field`: its first letter upper-cased,
      then " already exists". */
  function DuplicateMessage(field: string): (m: string)
    ensures |m| == |field| + 15
    ensures m[|field|..] == " already exists"
    ensures |field| > 0 ==> m[0] == Text.UpperChar(field[0]) && m[1..|field|] == field[1..]
  {
    Text.Capitalize(field) + " already exists"
  }

  function Register(st: State, req: RegisterRequest, fault: Option<SaveFault>, now: int): (o: Outcome<Registered>)
    requires WellFormedState(st)
    ensures WellFormedState(o.st)
  {
    if MissingFields(req) then Outcome(st, Err(400, ALL_FIELDS))
    else if EmailTaken(st, req.email) then Outcome(st, Err(409, EMAIL_REGISTERED))
    else if UsernameTaken(st, req.username) then Outcome(st, Err(409, USERNAME_TAKEN))
    else match fault
      case Some(DuplicateKey(field)) => Outcome(st, Err(409, DuplicateMessage(field)))
      case Some(Other) => Outcome(st, Err(500, INTERNAL))
      case None =>
        var u := User(req.username, req.email, ROLE_USER);
        Outcome(AddUser(st, u, now), Ok(201, Registered(st.nextId, u.username, u.email, u.role)))
  }

  method RegisterUser(db: Store, req: RegisterRequest, fault: Option<SaveFault>, now: int)
    returns (resp: Response<Registered>)
    requires db.Valid()
    modifies db
    ensures db.Valid()
    ensures Outcome(db.Snapshot(), resp) == Register(old(db.Snapshot()), req, fault, now)
  {
    if req.username == "" || req.email == "" || req.password == "" {
      return Err(400, ALL_FIELDS);
    }
    var existingEmail := exists u :: u in db.users && u.body.email == req.email;
    if existingEmail {
      return Err(409, EMAIL_REGISTERED);
    }
    var existingUsername := exists u :: u in db.users && u.body.username == req.username;
    if existingUsername {
      return Err(409, USERNAME_TAKEN);
    }
    if fault.Some? {
      if fault.value.DuplicateKey? {
        return Err(409, DuplicateMessage(fault.value.field));
      }
      return Err(500, INTERNAL);
    }
    var newUser := db.InsertUser(User(req.username, req.email, ROLE_USER), now);
    resp := Ok(201, Registered(newUser.id, newUser.body.username, newUser.body.email, newUser.body.role));
  }

  // ---------------------------------------------------------------------------
  // Properties
  // ---------------------------------------------------------------------------

  /** No two accounts share an email, and no two share a username. */
  predicate UniqueAccounts(st: State) {
    && (forall i, j :: 0 <= i < j < |st.users| ==> st.users[i].body.email != st.users[j].body.email)
    && (forall i, j :: 0 <= i < j < |st.users| ==> st.users[i].body.username != st.users[j].body.username)
  }

  /** Every field present, email and username free, and the insert not refused. */
  predicate RegisterAccepted(st: State, req: RegisterRequest, fault: Option<SaveFault>) {
    !MissingFields(req) && !EmailTaken(st, req.email) && !UsernameTaken(st, req.username) && fault.None?
  }

  /** The checks in their order, each refusal writing nothing: 400 for a missing field,
      409 for a registered email (before the username is looked at), 409 for a taken
      username, 409 with the index path's message for a duplicate key, 500 for any other
      error; and the registration succeeds exactly when none of these applies. */
  lemma RegisterRejections(st: State, req: RegisterRequest, fault: Option<SaveFault>, now: int)
    requires WellFormedState(st)
    ensures var o := Register(st, req, fault, now);
      && (MissingFields(req) ==> o.resp == Err(400, ALL_FIELDS))
      && (!MissingFields(req) && EmailTaken(st, req.email) ==> o.resp == Err(409, EMAIL_REGISTERED))
      && (!MissingFields(req) && !EmailTaken(st, req.email) && UsernameTaken(st, req.username) ==>
            o.resp == Err(409, USERNAME_TAKEN))
      && (!MissingFields(req) && !EmailTaken(st, req.email) && !UsernameTaken(st, req.username) ==>
            && (forall field :: fault == Some(DuplicateKey(field)) ==> o.resp == Err(409, DuplicateMessage(field)))
            && (fault == Some(Other) ==> o.resp == Err(500, INTERNAL)))
      && (o.resp.Err? ==> o.st == st)
      && (o.resp.Ok? <==> RegisterAccepted(st, req, fault))
  {
  }

  /** A successful registration appends one account under a fresh id, with the role
      `user` whatever the request says, and answers 201 with that account; nothing else in
      the store changes. */
  lemma RegisterStoresUser(st: State, req: RegisterRequest, fault: Option<SaveFault>, now: int)
    requires WellFormedState(st) && RegisterAccepted(st, req, fault)
    ensures var o := Register(st, req, fault, now);
      var d := Doc(st.nextId, now, User(req.username, req.email, ROLE_USER));
      && o.resp == Ok(201, Registered(d.id, req.username, req.email, ROLE_USER))
      && o.st.users == st.users + [d]
      && FindById(st.users, d.id).None?
      && FindById(o.st.users, d.id) == Some(d)
      && o.st == st.(users := o.st.users, nextId := st.nextId + 1)
  {
    var o := Register(st, req, fault, now);
    FindByIdUnique(o.st.users, |st.users|);
  }

  /** Whatever the store answers, a registration keeps emails and usernames unique. */
  lemma RegisterKeepsUnique(st: State, req: RegisterRequest, fault: Option<SaveFault>, now: int)
    requires WellFormedState(st) && UniqueAccounts(st)
    ensures UniqueAccounts(Register(st, req, fault, now).st)
  {
    var o := Register(st, req, fault, now);
    if o.resp.Ok? {
      var d := Doc(st.nextId, now, User(req.username, req.email, ROLE_USER));
      assert o.st == AddUser(st, d.body, now);
      forall i | 0 <= i < |st.users|
        ensures st.users[i].body.email != req.email && st.users[i].body.username != req.username
      {
        assert st.users[i] in st.users;
      }
      AppendKeepsUnique(st.users, d);
    }
  }

  /** Appending an account whose email and username are new keeps both unique. */
  lemma AppendKeepsUnique(us: seq<Doc<User>>, d: Doc<User>)
    requires forall i, j :: 0 <= i < j < |us| ==> us[i].body.email != us[j].body.email
    requires forall i, j :: 0 <= i < j < |us| ==> us[i].body.username != us[j].body.username
    requires forall i :: 0 <= i < |us| ==> us[i].body.email != d.body.email && us[i].body.username != d.body.username
    ensures var vs := us + [d];
      && (forall i, j :: 0 <= i < j < |vs| ==> vs[i].body.email != vs[j].body.email)
      && (forall i, j :: 0 <= i < j < |vs| ==> vs[i].body.username != vs[j].body.username)
  {
    var vs := us + [d];
    assert forall i :: 0 <= i < |us| ==> vs[i] == us[i];
    assert vs[|us|] == d;
  }

  /** Once an email is registered, every later registration with it is refused with 409,
      and so is every one with a taken username. */
  lemma RegisterTwiceRefused(st: State, req: RegisterRequest, again: RegisterRequest,
                             fault: Option<SaveFault>, fault2: Option<SaveFault>, now: int, later: int)
    requires WellFormedState(st) && RegisterAccepted(st, req, fault)
    requires again.username != "" && again.email != "" && again.password != ""
    requires again.email == req.email || again.username == req.username
    ensures var st' := Register(st, req, fault, now).st;
      && Register(st', again, fault2, later).resp.Err?
      && Register(st', again, fault2, later).resp.status == 409
      && Register(st', again, fault2, later).st == st'
  {
    var st' := Register(st, req, fault, now).st;
    var d := st'.users[|st.users|];
    assert d in st'.users;
    assert d.body.email == req.email && d.body.username == req.username;
  }
}
