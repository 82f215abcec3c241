/** `/api/admin`: creating doctor accounts and listing every account, both
    for admins only. */
module Admin {
  import opened Base
  import opened TextOrder
  import opened Query
  import opened Schema
  import opened AuthMiddleware
  import opened AuthRoutes

  /** The message `requireRole('admin')` sends to every other role. */
  lemma AdminGateMessage()
    ensures "Access denied. Required role: " + JoinOr(RoleNames([Role.Admin])) == "Access denied. Required role: admin"
  {
    assert RoleNames([Role.Admin]) == ["admin"];
  }

  // ---------------------------------------------------------------------------
  // POST /create-doctor

  datatype DoctorRequest = DoctorRequest(
    name: Field<string>, email: Field<string>, password: Field<string>, specialization: Field<string>)

  /** The answer to a successful create-doctor: the new login and the new
      schedulable doctor. */
  datatype DoctorCreated = DoctorCreated(message: string, user: AuthUser, doctor: Doctor)

  const DOCTOR_MISSING := "name, email, password, and specialization are required"

  predicate DoctorComplete(req: DoctorRequest) {
    TruthyStr(req.name) && TruthyStr(req.email) && TruthyStr(req.password) && TruthyStr(req.specialization)
  }

  function CreateDoctorSpec(t: Tables, caller: AuthUser, req: DoctorRequest, hashed: string, now: string)
    : (o: Outcome<DoctorCreated>)
    ensures o.response.Failure? ==> o.after == t
    ensures o.response.Failure? && o.response.status == 403 <==> !caller.role.Admin?
    ensures o.response == Failure(400, DOCTOR_MISSING) <==> caller.role.Admin? && !DoctorComplete(req)
    ensures o.response == Failure(409, EMAIL_TAKEN) <==>
      caller.role.Admin? && DoctorComplete(req) && EmailTaken(t, req.email.value)
    ensures o.response.Success? <==>
      caller.role.Admin? && DoctorComplete(req) && !EmailTaken(t, req.email.value)
    ensures o.response.Success? ==>
      var uid := t.userSeq + 1;
      var did := t.doctorSeq + 1;
      && caller.role.Admin? && DoctorComplete(req) && !EmailTaken(t, req.email.value)
      && o.response == Success(201, DoctorCreated("Doctor account created",
                                                  AuthUser(uid, req.name.value, req.email.value, Role.Doctor),
                                                  Doctor.Doctor(did, req.name.value, req.specialization.value)))
      && o.after == t.(users := t.users[uid := User(uid, req.name.value, req.email.value, hashed, Role.Doctor, now)],
                       userSeq := uid,
                       doctors := t.doctors[did := Doctor.Doctor(did, req.name.value, req.specialization.value)],
                       doctorSeq := did)
  {
    var gate := Guard(caller, [Role.Admin]);
    if gate.Some? then Outcome(Failure(gate.value.status, gate.value.error), t)
    else if !DoctorComplete(req) then Outcome(Failure(400, DOCTOR_MISSING), t)
    else if EmailTaken(t, req.email.value) then Outcome(Failure(409, EMAIL_TAKEN), t)
    else
      var uid := t.userSeq + 1;
      var did := t.doctorSeq + 1;
      var u := User(uid, req.name.value, req.email.value, hashed, Role.Doctor, now);
      var d := Doctor.Doctor(did, req.name.value, req.specialization.value);
      Outcome(Success(201, DoctorCreated("Doctor account created", AuthUser(uid, u.name, u.email, Role.Doctor), d)),
              t.(users := t.users[uid := u], userSeq := uid, doctors := t.doctors[did := d], doctorSeq := did))
  }

  /** POST /create-doctor: the user row first, then the doctors row. */
  method CreateDoctor(db: Database, caller: AuthUser, req: DoctorRequest, hashed: string, now: string)
    returns (res: Response<DoctorCreated>)
    modifies db
    ensures Outcome(res, db.Snapshot()) == CreateDoctorSpec(old(db.Snapshot()), caller, req, hashed, now)
  {
    AdminGateMessage();
    var gate := Guard(caller, [Role.Admin]);
    if gate.Some? {
      return Failure(gate.value.status, gate.value.error);
    }
    if !DoctorComplete(req) {
      return Failure(400, DOCTOR_MISSING);
    }
    if EmailTaken(db.Snapshot(), req.email.value) {
      return Failure(409, EMAIL_TAKEN);
    }
    var uid := db.userSeq + 1;
    db.InsertUserRow(User(uid, req.name.value, req.email.value, hashed, Role.Doctor, now));
    var did := db.doctorSeq + 1;
    db.InsertDoctorRow(Doctor.Doctor(did, req.name.value, req.specialization.value));
    res := Success(201, DoctorCreated("Doctor account created",
                                      AuthUser(uid, req.name.value, req.email.value, Role.Doctor),
                                      Doctor.Doctor(did, req.name.value, req.specialization.value)));
  }

  /** Creating a doctor keeps the store well formed and every email on one
      account. */
  lemma CreateDoctorKeepsInvariants(t: Tables, caller: AuthUser, req: DoctorRequest, hashed: string, now: string)
    requires WellFormed(t) && UniqueEmails(t)
    ensures var after := CreateDoctorSpec(t, caller, req, hashed, now).after;
      WellFormed(after) && UniqueEmails(after)
  {
    var o := CreateDoctorSpec(t, caller, req, hashed, now);
    if o.response.Success? {
      var uid := t.userSeq + 1;
      var u := User(uid, req.name.value, req.email.value, hashed, Role.Doctor, now);
      var t1 := t.(users := t.users[uid := u], userSeq := uid);
      var d := Doctor.Doctor(t.doctorSeq + 1, req.name.value, req.specialization.value);
      UserInsertKeepsWellFormed(t, u);
      DoctorInsertKeepsWellFormed(t1, d);
      FreshEmailKeepsUnique(t, u);
      assert o.after == t1.(doctors := t1.doctors[d.id := d], doctorSeq := d.id);
    }
  }

  // ---------------------------------------------------------------------------
  // GET /users

  /** `SELECT id, name, email, role, created_at FROM users`: an account
      without its password hash. */
  datatype UserView = UserView(id: int, name: string, email: string, role: Role, createdAt: string)

  function ViewOf(u: User): UserView {
    UserView(u.id, u.name, u.email, u.role, u.createdAt)
  }

  function CreatedKey(u: User): seq<string> {
    [u.createdAt]
  }

  function Everyone(u: User): bool {
    true
  }

  /** Every account, newest first. */
  function UserRows(t: Tables): (rows: seq<User>)
    requires WellFormed(t)
    ensures forall x :: x in rows ==> x.id in t.users && t.users[x.id] == x
    ensures forall k :: k in t.users ==> t.users[k] in rows
    ensures |rows| == |t.users|
    ensures SortedByKey(rows, CreatedKey, true)
  {
    var rows := SelectSorted(t.users, t.userSeq, (u: User) => u.id, Everyone, CreatedKey, true);
    assert SelectedKeys(t.users, Everyone) == t.users.Keys;
    rows
  }

  /** GET /users: every account without its password, newest first. */
  function ListUsers(t: Tables, caller: AuthUser): (r: Response<seq<UserView>>)
    requires WellFormed(t)
    ensures r.Failure? <==> !caller.role.Admin?
    ensures r.Failure? ==> r == Failure(403, "Access denied. Required role: admin")
    ensures r.Success? ==>
      && r.status == 200
      && |r.body| == |t.users|
      && (forall v :: v in r.body ==> v.id in t.users && v == ViewOf(t.users[v.id]))
      && (forall k :: k in t.users ==> ViewOf(t.users[k]) in r.body)
      && (forall i, j :: 0 <= i < j < |r.body| ==> StrLe(r.body[j].createdAt, r.body[i].createdAt))
  {
    var gate := Guard(caller, [Role.Admin]);
    if gate.Some? then
      AdminGateMessage();
      Failure(gate.value.status, gate.value.error)
    else
      var rows := UserRows(t);
      var views := Views(rows);
      UserViews(t, rows, views);
      Success(200, views)
  }

  /** The selected columns of each row, in order. */
  function Views(rows: seq<User>): (r: seq<UserView>)
    ensures |r| == |rows| && forall i :: 0 <= i < |rows| ==> r[i] == ViewOf(rows[i])
  {
    seq(|rows|, i requires 0 <= i < |rows| => ViewOf(rows[i]))
  }

  lemma UserViews(t: Tables, rows: seq<User>, r: seq<UserView>)
    requires forall x :: x in rows ==> x.id in t.users && t.users[x.id] == x
    requires forall k :: k in t.users ==> t.users[k] in rows
    requires |r| == |rows| && forall i :: 0 <= i < |rows| ==> r[i] == ViewOf(rows[i])
    requires SortedByKey(rows, CreatedKey, true)
    ensures forall v :: v in r ==> v.id in t.users && v == ViewOf(t.users[v.id])
    ensures forall k :: k in t.users ==> ViewOf(t.users[k]) in r
    ensures forall i, j :: 0 <= i < j < |r| ==> StrLe(r[j].createdAt, r[i].createdAt)
  {
    forall i, j | 0 <= i < j < |r| ensures StrLe(r[j].createdAt, r[i].createdAt) {
      assert Before(CreatedKey(rows[i]), CreatedKey(rows[j]), true);
      KeyLeSingle(r[j].createdAt, r[i].createdAt);
    }
    forall v | v in r ensures v.id in t.users && v == ViewOf(t.users[v.id]) {
      var i :| 0 <= i < |r| && r[i] == v;
      assert rows[i] in rows;
    }
    forall k | k in t.users ensures ViewOf(t.users[k]) in r {
      var i :| 0 <= i < |rows| && rows[i] == t.users[k];
      assert r[i] == ViewOf(t.users[k]);
    }
  }
}
