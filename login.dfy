/**
 * `POST /api/auth/login`: looks the admin up by e-mail, checks the password
 * against the stored bcrypt hash, then records the login time, signs a token
 * and logs the login. The password check is a parameter (`passwordMatches`),
 * as are the token encoding and the clock.
 */
module Login {
  import opened Common
  import opened Store
  import opened Auth

  datatype LoginBody = LoginBody(email: Option<string>, password: Option<string>)

  datatype LoginReply =
    | LoggedIn(token: string, admin: Payload)
    | BadRequest(error: string)
    | Unauthorized(error: string)
    | ServerError(error: string)
  {
    function Status(): int
    {
      match this
      case LoggedIn(_, _) => 200
      case BadRequest(_) => 400
      case Unauthorized(_) => 401
      case ServerError(_) => 500
    }
  }

  /** Which store call throws: the lookup, the `last_login` update or the `activity_log` insert. */
  datatype LoginFault = NoFault | LookupThrows | UpdateThrows | LogThrows

  const RequiredMessage := "Email and password are required"
  const InvalidCredentials := "Invalid credentials"
  const InternalError := "Internal server error"
  const LoginAction := "login"
  const LoginDetails := "Admin logged in"

  /** The position of the first admin with `email`, as `admins[0]` of `WHERE email = ?` in table order. */
  function FindByEmail(admins: seq<Admin>, email: string): (r: Option<nat>)
    ensures r.None? <==> forall i :: 0 <= i < |admins| ==> admins[i].email != email
    ensures r.Some? ==> r.value < |admins| && admins[r.value].email == email
    ensures r.Some? ==> forall i :: 0 <= i < r.value ==> admins[i].email != email
    decreases |admins|
  {
    if admins == [] then None
    else if admins[0].email == email then Some(0)
    else
      match FindByEmail(admins[1..], email)
      case None => None
      case Some(k) => Some(k + 1)
  }

  /** `UPDATE admins SET last_login = NOW() WHERE id = ?`. */
  function SetLastLogin(admins: seq<Admin>, id: int, now: int): (r: seq<Admin>)
    ensures |r| == |admins|
    ensures forall i :: 0 <= i < |r| ==>
      r[i] == if admins[i].id == id then admins[i].(lastLogin := Some(now)) else admins[i]
  {
    seq(|admins|, i requires 0 <= i < |admins| =>
      if admins[i].id == id then admins[i].(lastLogin := Some(now)) else admins[i])
  }

  /** The admin as the token and the reply show it: id, e-mail and name only. */
  function View(a: Admin): (p: Payload)
    ensures p.id == a.id && p.email == a.email && p.name == a.name
  {
    Payload(a.id, a.email, a.name)
  }

  predicate HasCredentials(b: LoginBody)
  {
    Present(b.email) && Present(b.password)
  }

  /** The e-mail names an admin and the password matches that admin's hash. */
  predicate Authenticated(admins: seq<Admin>, b: LoginBody, passwordMatches: (string, string) -> bool)
  {
    && HasCredentials(b)
    && FindByEmail(admins, b.email.value).Some?
    && passwordMatches(b.password.value, admins[FindByEmail(admins, b.email.value).value].password)
  }

  /**
   * The handler. `body` is `None` when the request body is not JSON; `now`
   * is the clock, `encode` the token encoding.
   */
  method PostLogin(db: Database, body: Option<LoginBody>, now: int, passwordMatches: (string, string) -> bool,
                   encode: Claims -> string, fault: LoginFault) returns (reply: LoginReply)
    modifies db`admins, db`activityLog
    ensures body.None? ==> reply == ServerError(InternalError)
    ensures body.Some? && !HasCredentials(body.value) ==> reply == BadRequest(RequiredMessage)
    ensures reply.BadRequest? <==> body.Some? && !HasCredentials(body.value)
    ensures reply.Unauthorized? <==>
      body.Some? && HasCredentials(body.value) && fault != LookupThrows
      && !Authenticated(old(db.admins), body.value, passwordMatches)
    ensures reply.Unauthorized? ==> reply.error == InvalidCredentials
    ensures reply.LoggedIn? <==> body.Some? && Authenticated(old(db.admins), body.value, passwordMatches) && fault == NoFault
    ensures reply.LoggedIn? ==>
      var a := old(db.admins)[FindByEmail(old(db.admins), body.value.email.value).value];
      reply.admin == View(a) && reply.token == SignToken(encode, View(a), now)
    ensures reply.ServerError? ==> reply.error == InternalError
    ensures db.admins ==
      if body.Some? && Authenticated(old(db.admins), body.value, passwordMatches) && (fault == NoFault || fault == LogThrows)
      then SetLastLogin(old(db.admins), old(db.admins)[FindByEmail(old(db.admins), body.value.email.value).value].id, now)
      else old(db.admins)
    ensures db.activityLog ==
      if reply.LoggedIn? then old(db.activityLog) + [Activity(reply.admin.id, LoginAction, LoginDetails)]
      else old(db.activityLog)
  {
    if body.None? {
      return ServerError(InternalError);
    }
    var b := body.value;
    if !HasCredentials(b) {
      return BadRequest(RequiredMessage);
    }
    if fault == LookupThrows {
      return ServerError(InternalError);
    }
    var found := FindByEmail(db.admins, b.email.value);
    if found.None? {
      return Unauthorized(InvalidCredentials);
    }
    var admin := db.admins[found.value];
    if !passwordMatches(b.password.value, admin.password) {
      return Unauthorized(InvalidCredentials);
    }
    if fault == UpdateThrows {
      return ServerError(InternalError);
    }
    db.admins := SetLastLogin(db.admins, admin.id, now);
    var token := SignToken(encode, View(admin), now);
    if fault == LogThrows {
      return ServerError(InternalError);
    }
    db.activityLog := db.activityLog + [Activity(admin.id, LoginAction, LoginDetails)];
    reply := LoggedIn(token, View(admin));
  }

  /** With unique e-mails (the column's unique key), the admin found is the only one with that e-mail. */
  lemma FoundAdminIsUnique(admins: seq<Admin>, email: string)
    requires forall i, j :: 0 <= i < j < |admins| ==> admins[i].email != admins[j].email
    requires FindByEmail(admins, email).Some?
    ensures forall i :: 0 <= i < |admins| && admins[i].email == email ==> i == FindByEmail(admins, email).value
  {
  }

  /** A login changes no admin but the one who logged in, and only that admin's `last_login`. */
  lemma LoginTouchesOnlyLastLogin(admins: seq<Admin>, id: int, now: int)
    ensures forall i :: 0 <= i < |admins| ==>
      var r := SetLastLogin(admins, id, now)[i];
      r.id == admins[i].id && r.email == admins[i].email && r.name == admins[i].name
      && r.password == admins[i].password && (admins[i].id != id ==> r == admins[i])
  {
  }
}
