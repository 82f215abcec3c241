/** `/api/auth`: self-registration of patient accounts and login for every
    role. Password hashing and comparison (bcrypt) and token signing (JWT)
    are parameters: `hashed` is the hash the register handler draws for the
    submitted password, `compare(p, h)` says whether password p matches hash
    h, and `sign(u)` is the token issued for identity u. */
module AuthRoutes {
  import opened Base
  import opened Query
  import opened Schema

  /** Some account already uses the email (`SELECT id FROM users WHERE email = ?`). */
  predicate EmailTaken(t: Tables, email: string) {
    exists k :: k in t.users && t.users[k].email == email
  }

  /** The UNIQUE constraint on `users.email`. */
  ghost predicate UniqueEmails(t: Tables) {
    forall a, b :: a in t.users && b in t.users && t.users[a].email == t.users[b].email ==> a == b
  }

  /** The body of a successful register or login: a signed token and the
      account it identifies. */
  datatype Session = Session(token: string, user: AuthUser)

  // ---------------------------------------------------------------------------
  // POST /register

  datatype RegisterRequest = RegisterRequest(
    name: Field<string>, email: Field<string>, password: Field<string>, role: Field<string>)

  const REGISTER_MISSING := "name, email, and password are required"
  const PATIENTS_ONLY := "Only patients can self-register"
  const EMAIL_TAKEN := "Email already registered"

  predicate RegisterComplete(req: RegisterRequest) {
    TruthyStr(req.name) && TruthyStr(req.email) && TruthyStr(req.password)
  }

  /** A role other than `patient` was asked for (`role && role !== 'patient'`). */
  predicate AsksOtherRole(req: RegisterRequest) {
    TruthyStr(req.role) && req.role.value != "patient"
  }

  function RegisterSpec(t: Tables, req: RegisterRequest, hashed: string, sign: AuthUser -> string, now: string)
    : (o: Outcome<Session>)
    ensures o.response.Failure? ==> o.after == t
    ensures o.response == Failure(400, REGISTER_MISSING) <==> !RegisterComplete(req)
    ensures o.response == Failure(403, PATIENTS_ONLY) <==> RegisterComplete(req) && AsksOtherRole(req)
    ensures o.response == Failure(409, EMAIL_TAKEN) <==>
      RegisterComplete(req) && !AsksOtherRole(req) && EmailTaken(t, req.email.value)
    ensures o.response.Success? <==>
      RegisterComplete(req) && !AsksOtherRole(req) && !EmailTaken(t, req.email.value)
    ensures o.response.Success? ==>
      var uid := t.userSeq + 1;
      var pid := t.patientSeq + 1;
      && RegisterComplete(req) && !EmailTaken(t, req.email.value)
      && o.response == Success(201, Session(sign(AuthUser(uid, req.name.value, req.email.value, Role.Patient)),
                                            AuthUser(uid, req.name.value, req.email.value, Role.Patient)))
      && o.after == t.(users := t.users[uid := User(uid, req.name.value, req.email.value, hashed, Role.Patient, now)],
                       userSeq := uid,
                       patients := t.patients[pid := Patient.Patient(pid, Some(uid), req.name.value,
                                                                     None, None, None, None, None, "low", now)],
                       patientSeq := pid)
  {
    if !RegisterComplete(req) then Outcome(Failure(400, REGISTER_MISSING), t)
    else if AsksOtherRole(req) then Outcome(Failure(403, PATIENTS_ONLY), t)
    else if EmailTaken(t, req.email.value) then Outcome(Failure(409, EMAIL_TAKEN), t)
    else
      var uid := t.userSeq + 1;
      var pid := t.patientSeq + 1;
      var u := User(uid, req.name.value, req.email.value, hashed, Role.Patient, now);
      var p := Patient.Patient(pid, Some(uid), req.name.value, None, None, None, None, None, "low", now);
      var me := AuthUser(uid, u.name, u.email, u.role);
      Outcome(Success(201, Session(sign(me), me)),
              t.(users := t.users[uid := u], userSeq := uid, patients := t.patients[pid := p], patientSeq := pid))
  }

  /** POST /register: the user row first, then its patient profile. */
  method Register(db: Database, req: RegisterRequest, hashed: string, sign: AuthUser -> string, now: string)
    returns (res: Response<Session>)
    modifies db
    ensures Outcome(res, db.Snapshot()) == RegisterSpec(old(db.Snapshot()), req, hashed, sign, now)
  {
    if !RegisterComplete(req) {
      return Failure(400, REGISTER_MISSING);
    }
    if AsksOtherRole(req) {
      return Failure(403, PATIENTS_ONLY);
    }
    if EmailTaken(db.Snapshot(), req.email.value) {
      return Failure(409, EMAIL_TAKEN);
    }
    var uid := db.userSeq + 1;
    db.InsertUserRow(User(uid, req.name.value, req.email.value, hashed, Role.Patient, now));
    var pid := db.patientSeq + 1;
    db.InsertPatientRow(Patient.Patient(pid, Some(uid), req.name.value, None, None, None, None, None, "low", now));
    var me := AuthUser(uid, req.name.value, req.email.value, Role.Patient);
    res := Success(201, Session(sign(me), me));
  }

  /** An account with an email nobody uses keeps every email on one account. */
  lemma FreshEmailKeepsUnique(t: Tables, u: User)
    requires UniqueEmails(t) && !EmailTaken(t, u.email) && u.id !in t.users
    ensures UniqueEmails(t.(users := t.users[u.id := u], userSeq := u.id))
  {
    var t' := t.(users := t.users[u.id := u], userSeq := u.id);
    forall a, b | a in t'.users && b in t'.users && t'.users[a].email == t'.users[b].email ensures a == b {
      if a != u.id && b != u.id {
        assert t.users[a].email == t.users[b].email;
      }
    }
  }

  /** Registering keeps the store well formed and every email on one account. */
  lemma RegisterKeepsInvariants(t: Tables, req: RegisterRequest, hashed: string, sign: AuthUser -> string, now: string)
    requires WellFormed(t) && UniqueEmails(t)
    ensures var after := RegisterSpec(t, req, hashed, sign, now).after;
      WellFormed(after) && UniqueEmails(after)
  {
    var o := RegisterSpec(t, req, hashed, sign, now);
    if o.response.Success? {
      var uid := t.userSeq + 1;
      var u := User(uid, req.name.value, req.email.value, hashed, Role.Patient, now);
      var t1 := t.(users := t.users[uid := u], userSeq := uid);
      var p := Patient.Patient(t.patientSeq + 1, Some(uid), req.name.value, None, None, None, None, None, "low", now);
      UserInsertKeepsWellFormed(t, u);
      PatientInsertKeepsWellFormed(t1, p);
      FreshEmailKeepsUnique(t, u);
      assert o.after == t1.(patients := t1.patients[p.id := p], patientSeq := p.id);
    }
  }

  // ---------------------------------------------------------------------------
  // POST /login

  datatype LoginRequest = LoginRequest(email: Field<string>, password: Field<string>)

  const LOGIN_MISSING := "email and password are required"
  const BAD_CREDENTIALS := "Invalid email or password"

  /** `SELECT * FROM users WHERE email = ?` read with `.get`. */
  function AccountOf(t: Tables, email: string): (r: Option<int>)
    requires WellFormed(t)
    ensures r.None? <==> !EmailTaken(t, email)
    ensures r.Some? ==> r.value in t.users && t.users[r.value].email == email
  {
    First(t.users, t.userSeq, (u: User) => u.email == email)
  }

  /** POST /login. An unknown email and a wrong password get the same answer. */
  function Login(t: Tables, req: LoginRequest, compare: (string, string) -> bool, sign: AuthUser -> string)
    : (r: Response<Session>)
    requires WellFormed(t)
    ensures r == Failure(400, LOGIN_MISSING) <==> !(TruthyStr(req.email) && TruthyStr(req.password))
    ensures r.Failure? && r.status != 400 ==> r == Failure(401, BAD_CREDENTIALS)
    ensures r.Success? ==>
      && r.status == 200
      && r.body.user.id in t.users
      && var u := t.users[r.body.user.id];
      && u.email == req.email.value && compare(req.password.value, u.password)
      && r.body.user == AuthUser(u.id, u.name, u.email, u.role)
      && r.body.token == sign(r.body.user)
  {
    if !TruthyStr(req.email) || !TruthyStr(req.password) then Failure(400, LOGIN_MISSING)
    else
      match AccountOf(t, req.email.value)
      case None => Failure(401, BAD_CREDENTIALS)
      case Some(k) =>
        var u := t.users[k];
        if !compare(req.password.value, u.password) then Failure(401, BAD_CREDENTIALS)
        else
          var me := AuthUser(u.id, u.name, u.email, u.role);
          Success(200, Session(sign(me), me))
  }

  /** With emails unique, login succeeds exactly when the account with that
      email exists and the password matches its hash. */
  lemma LoginSucceedsIff(t: Tables, req: LoginRequest, compare: (string, string) -> bool, sign: AuthUser -> string)
    requires WellFormed(t) && UniqueEmails(t)
    requires TruthyStr(req.email) && TruthyStr(req.password)
    ensures Login(t, req, compare, sign).Success? <==>
      exists k :: k in t.users && t.users[k].email == req.email.value && compare(req.password.value, t.users[k].password)
  {
    var r := Login(t, req, compare, sign);
    if k :| k in t.users && t.users[k].email == req.email.value && compare(req.password.value, t.users[k].password) {
      var a := AccountOf(t, req.email.value);
      assert a.Some?;
      assert a.value == k;
    }
  }

  /** A patient who has just registered can log in with the same email and
      password, and gets back the identity the registration returned, given
      that bcrypt accepts the password against the hash drawn for it. */
  lemma RegisterThenLogin(t: Tables, req: RegisterRequest, hashed: string, compare: (string, string) -> bool,
                          sign: AuthUser -> string, now: string)
    requires WellFormed(t)
    requires RegisterSpec(t, req, hashed, sign, now).response.Success?
    requires compare(req.password.value, hashed)
    ensures var o := RegisterSpec(t, req, hashed, sign, now);
      WellFormed(o.after) &&
      Login(o.after, LoginRequest(req.email, req.password), compare, sign) == Success(200, o.response.body)
  {
    var o := RegisterSpec(t, req, hashed, sign, now);
    var uid := t.userSeq + 1;
    var u := User(uid, req.name.value, req.email.value, hashed, Role.Patient, now);
    var t1 := t.(users := t.users[uid := u], userSeq := uid);
    var p := Patient.Patient(t.patientSeq + 1, Some(uid), req.name.value, None, None, None, None, None, "low", now);
    UserInsertKeepsWellFormed(t, u);
    PatientInsertKeepsWellFormed(t1, p);
    assert o.after == t1.(patients := t1.patients[p.id := p], patientSeq := p.id);
    var a := AccountOf(o.after, req.email.value);
    assert o.after.users[uid].email == req.email.value;
    assert forall k :: k in t.users ==> t.users[k].email != req.email.value;
    assert a.Some? && a.value == uid;
  }
}
