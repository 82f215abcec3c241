/** The two Express middlewares every protected route runs through:
    `authenticate`, which reads the bearer token from the Authorization
    header, and `requireRole`, which admits only the listed roles. Token
    verification (a JWT signature and expiry check) is a parameter: it yields
    the payload, or None where the library throws. */
module AuthMiddleware {
  import opened Base

  /** What a middleware does with a request: pass it on to the next handler
      (with the value it attached), or answer it with an error. */
  datatype Gate<+T> = Next(value: T) | Stop(status: int, error: string)

  const BEARER := "Bearer "

  predicate StartsWith(s: string, prefix: string) {
    |prefix| <= |s| && s[..|prefix|] == prefix
  }

  /** `s.split(c)`: the pieces between occurrences of c, in order. */
  function Split(s: string, c: char): (r: seq<string>)
    ensures |r| >= 1
    ensures forall i :: 0 <= i < |r| ==> c !in r[i]
    decreases |s|
  {
    if s == [] then [""]
    else
      var rest := Split(s[1..], c);
      if s[0] == c then [""] + rest else [[s[0]] + rest[0]] + rest[1..]
  }

  /** The first piece of a split is a prefix of s that ends at the end of s
      or just before an occurrence of c. */
  lemma {:induction false} SplitFirst(s: string, c: char)
    ensures var r := Split(s, c); StartsWith(s, r[0]) && (|r[0]| == |s| || s[|r[0]|] == c)
    decreases |s|
  {
    if s != [] {
      SplitFirst(s[1..], c);
    }
  }

  /** A split has a second piece exactly when c occurs. */
  lemma {:induction false} SplitMany(s: string, c: char)
    ensures |Split(s, c)| >= 2 <==> c in s
    decreases |s|
  {
    if s != [] {
      SplitMany(s[1..], c);
      assert s == [s[0]] + s[1..];
    }
  }

  /** The pieces after the first are the split of what follows the first
      occurrence of c. */
  lemma {:induction false} SplitRest(s: string, c: char)
    ensures var r := Split(s, c); |r| >= 2 ==> |r[0]| < |s| && Split(s[|r[0]| + 1..], c) == r[1..]
    decreases |s|
  {
    SplitFirst(s, c);
    SplitMany(s, c);
    if s != [] {
      SplitRest(s[1..], c);
      var rest := Split(s[1..], c);
      if s[0] != c && |rest| >= 2 {
        assert s[1..][|rest[0]| + 1..] == s[|rest[0]| + 2..];
      }
    }
  }

  /** The three facts `Token` needs about a split. */
  lemma SplitHead(s: string, c: char)
    ensures var r := Split(s, c);
      && StartsWith(s, r[0])
      && (|r[0]| == |s| || s[|r[0]|] == c)
      && (|r| >= 2 <==> c in s)
      && (|r| >= 2 ==> Split(s[|r[0]| + 1..], c) == r[1..])
  {
    SplitFirst(s, c);
    SplitMany(s, c);
    SplitRest(s, c);
  }

  /** `authHeader.split(' ')[1]` for a header that starts with "Bearer ": the
      text after "Bearer " up to the next space. */
  function Token(header: string): (token: string)
    requires StartsWith(header, BEARER)
    ensures ' ' !in token
    ensures StartsWith(header[|BEARER|..], token)
    ensures |BEARER| + |token| == |header| || header[|BEARER| + |token|] == ' '
  {
    var pieces := Split(header, ' ');
    SplitHead(header, ' ');
    assert pieces[0] == "Bearer" by {
      BearerHead(header);
    }
    assert ' ' in header by {
      assert header[6] == ' ';
    }
    SplitHead(header[|BEARER|..], ' ');
    assert header[|pieces[0]| + 1..] == header[|BEARER|..];
    pieces[1]
  }

  lemma BearerHead(header: string)
    requires StartsWith(header, BEARER)
    ensures Split(header, ' ')[0] == "Bearer"
  {
    var s := header;
    assert s[0] == 'B' && s[1] == 'e' && s[2] == 'a' && s[3] == 'r' && s[4] == 'e' && s[5] == 'r' && s[6] == ' ';
    assert Split(s[6..], ' ')[0] == "";
    assert Split(s[5..], ' ')[0] == "r";
    assert Split(s[4..], ' ')[0] == "er";
    assert Split(s[3..], ' ')[0] == "rer";
    assert Split(s[2..], ' ')[0] == "arer";
    assert Split(s[1..], ' ')[0] == "earer";
  }

  /** `authenticate`: a missing header, or one that does not start with
      "Bearer ", is answered 401; so is a token `verify` rejects; otherwise
      the verified payload becomes the request's user. */
  function Authenticate(header: Option<string>, verify: string -> Option<AuthUser>): (g: Gate<AuthUser>)
    ensures g == Stop(401, "No token provided") <==> header.None? || !StartsWith(header.value, BEARER)
    ensures g == Stop(401, "Invalid or expired token") <==>
      header.Some? && StartsWith(header.value, BEARER) && verify(Token(header.value)).None?
    ensures g.Next? <==>
      header.Some? && StartsWith(header.value, BEARER) && verify(Token(header.value)).Some?
    ensures g.Next? ==> g.value == verify(Token(header.value)).value
  {
    if header.None? || !StartsWith(header.value, BEARER) then Stop(401, "No token provided")
    else
      match verify(Token(header.value))
      case None => Stop(401, "Invalid or expired token")
      case Some(user) => Next(user)
  }

  /** `roles.join(' or ')`. */
  function JoinOr(names: seq<string>): string {
    if names == [] then ""
    else if |names| == 1 then names[0]
    else names[0] + " or " + JoinOr(names[1..])
  }

  function RoleNames(roles: seq<Role>): (names: seq<string>)
    ensures |names| == |roles| && forall i :: 0 <= i < |roles| ==> names[i] == RoleName(roles[i])
  {
    seq(|roles|, i requires 0 <= i < |roles| => RoleName(roles[i]))
  }

  /** `requireRole(...roles)`: 401 without a user, 403 naming the allowed
      roles when the user's role is not among them, otherwise pass on. */
  function RequireRole(user: Option<AuthUser>, roles: seq<Role>): (g: Gate<AuthUser>)
    ensures g == Stop(401, "Not authenticated") <==> user.None?
    ensures g.Stop? && g.status == 403 <==> user.Some? && user.value.role !in roles
    ensures g.Stop? && g.status == 403 ==> g.error == "Access denied. Required role: " + JoinOr(RoleNames(roles))
    ensures g.Next? <==> user.Some? && user.value.role in roles
    ensures g.Next? ==> g.value == user.value
  {
    if user.None? then Stop(401, "Not authenticated")
    else if user.value.role !in roles then Stop(403, "Access denied. Required role: " + JoinOr(RoleNames(roles)))
    else Next(user.value)
  }

  /** `authenticate` followed by `requireRole(...roles)` in front of a
      handler, for a caller whose token verified: nothing when the handler
      runs, otherwise the HTTP failure the gate sends. */
  function Guard(caller: AuthUser, roles: seq<Role>): (r: Option<Response<()>>)
    ensures r.None? <==> caller.role in roles
    ensures r.Some? ==> r.value == Failure(403, "Access denied. Required role: " + JoinOr(RoleNames(roles)))
  {
    match RequireRole(Some(caller), roles)
    case Next(_) => None
    case Stop(status, error) => Some(Failure(status, error))
  }

  /** The message the pharmacy routes send to other roles. */
  lemma PharmacyGateMessage(user: AuthUser)
    requires user.role.Doctor? || user.role.Patient?
    ensures RequireRole(Some(user), [Role.Pharmacy, Role.Admin]) ==
      Stop(403, "Access denied. Required role: pharmacy or admin")
  {
    assert RoleNames([Role.Pharmacy, Role.Admin]) == ["pharmacy", "admin"];
    assert JoinOr(["pharmacy", "admin"]) == "pharmacy" + " or " + JoinOr(["admin"]);
  }
}
