/** The `protect` middleware: it reads a bearer token from the Authorization
    header, has the identity provider verify it, finds the local user with
    the verified email or creates one, attaches that user to the request and
    passes control on. Token verification is the provider's and is a
    parameter here. */
module Auth {
  import opened Common

  datatype User = User(id: nat, name: string, email: string, photoURL: string, password: string)

  /** The claims of a verified token that the middleware reads. */
  datatype Claims = Claims(uid: string, email: string, name: Option<string>, picture: Option<string>)

  datatype AuthError = NoToken | TokenFailed
  {
    /** The 401 reply the error middleware sends. */
    function Reply(): ApiError
    {
      match this
      case NoToken => ApiError(401, "Not authorized, no token")
      case TokenFailed => ApiError(401, "Not authorized, token failed")
    }
  }

  predicate StartsWith(s: string, prefix: string)
  {
    |prefix| <= |s| && s[..|prefix|] == prefix
  }

  /** The header test: present and starting with "Bearer" (no space required). */
  predicate HasBearer(header: Option<string>)
  {
    header.Some? && StartsWith(header.value, "Bearer")
  }

  /** `authorization.split(" ")[1]`: undefined when there is no space. */
  function TokenOf(header: string): (token: Option<string>)
    ensures token.Some? ==> ' ' !in token.value
  {
    var parts := Split(header, ' ');
    if |parts| >= 2 then Some(parts[1]) else None
  }

  /** "Bearer <token>" yields the token, whenever the token holds no space. */
  lemma BearerToken(t: string)
    requires ' ' !in t
    ensures HasBearer(Some("Bearer " + t))
    ensures TokenOf("Bearer " + t) == Some(t)
  {
    assert Join(["Bearer", t], ' ') == "Bearer " + t;
    SplitJoin(["Bearer", t], ' ');
    assert ("Bearer " + t)[..6] == "Bearer";
  }

  /** A header without a space, such as "BearerX", passes the header test but
      has no token. */
  lemma NoSpaceNoToken(header: string)
    requires ' ' !in header
    ensures TokenOf(header) == None
  {
    assert Join([header], ' ') == header;
    SplitJoin([header], ' ');
  }

  /** `email.split('@')[0]`: the part of the email before its first '@'. */
  function LocalPart(email: string): (r: string)
    ensures r <= email && '@' !in r
    ensures |r| == |email| || email[|r|] == '@'
  {
    SplitHead(email, '@');
    Split(email, '@')[0]
  }

  /** `name || email.split('@')[0]`. */
  function DefaultName(name: Option<string>, email: string): string
  {
    if Truthy(name) then name.value else LocalPart(email)
  }

  /** `picture || ''`. */
  function DefaultPhoto(picture: Option<string>): string
  {
    if Truthy(picture) then picture.value else ""
  }

  /** The user record created for a first-seen identity, with a placeholder
      password that no local login can match. */
  function NewUser(id: nat, c: Claims): User
  {
    User(id, DefaultName(c.name, c.email), c.email, DefaultPhoto(c.picture), "firebase-auth|" + c.uid)
  }

  /** The created user carries the verified email; its name is the claimed
      name or else the email's local part, its photo the claimed picture or
      else empty, and its password holds the identity's uid. */
  lemma NewUserSpec(id: nat, c: Claims)
    ensures NewUser(id, c).email == c.email
    ensures Truthy(c.name) ==> NewUser(id, c).name == c.name.value
    ensures !Truthy(c.name) ==> NewUser(id, c).name == LocalPart(c.email)
    ensures NewUser(id, c).name == "" ==> c.email == "" || c.email[0] == '@'
    ensures NewUser(id, c).photoURL == (if Truthy(c.picture) then c.picture.value else "")
    ensures NewUser(id, c).password[..14] == "firebase-auth|" && NewUser(id, c).password[14..] == c.uid
  {
  }

  predicate HasEmail(users: seq<User>, email: string)
  {
    exists u :: u in users && u.email == email
  }

  /** The users collection; email is the natural key. */
  class UserTable {
    var users: seq<User>
    var nextId: nat

    ghost predicate Valid()
      reads this
    {
      (forall i :: 0 <= i < |users| ==> users[i].id < nextId) &&
      (forall i, j :: 0 <= i < j < |users| ==> users[i].id != users[j].id && users[i].email != users[j].email)
    }

    constructor ()
      ensures Valid() && users == []
    {
      users := [];
      nextId := 0;
    }

    /** `findOne({email})`. */
    method FindByEmail(email: string) returns (found: Option<User>)
      requires Valid()
      ensures found.Some? <==> HasEmail(users, email)
      ensures found.Some? ==> found.value in users && found.value.email == email
    {
      var i := 0;
      while i < |users|
        invariant 0 <= i <= |users|
        invariant forall k :: 0 <= k < i ==> users[k].email != email
      {
        if users[i].email == email {
          return Some(users[i]);
        }
        i := i + 1;
      }
      return None;
    }

    /** `User.create`: the new user for these claims, with a fresh id. */
    method Create(c: Claims) returns (u: User)
      requires Valid() && !HasEmail(users, c.email)
      modifies this
      ensures Valid()
      ensures u == NewUser(u.id, c)
      ensures forall v :: v in old(users) ==> v.id != u.id
      ensures users == old(users) + [u]
    {
      u := NewUser(nextId, c);
      users := users + [u];
      nextId := nextId + 1;
    }
  }

  /** The request as the middleware sees it: its Authorization header and the
      `user` slot it fills in. */
  class Request {
    const authorization: Option<string>
    var user: Option<User>

    constructor (authorization: Option<string>)
      ensures this.authorization == authorization && user == None
    {
      this.authorization := authorization;
      user := None;
    }
  }

  /** How a pass through the middleware ends: how many times `next` was called,
      and the error it raised, if any. */
  datatype GateResult = GateResult(nextCalls: nat, error: Option<AuthError>)

  /** The token the middleware holds after its header test: undefined unless
      the header passes the test. */
  function HeldToken(header: Option<string>): Option<string>
  {
    if HasBearer(header) then TokenOf(header.value) else None
  }

  /** `protect`. `verify` is the identity provider's check of a token, `None`
      when it rejects it.
      - No header, or one not starting with "Bearer": "no token", `next` is
        not called, nothing changes.
      - A rejected token: "token failed", `next` is not called, nothing
        changes.
      - An accepted token: the user with the verified email is reused, or
        exactly one user is created for it; that user is attached to the
        request and `next` is called once. The final `if (!token)` still runs
        after `next`, so should the provider accept an empty or missing token,
        the middleware raises "no token" on top of having called `next`. */
  method Protect(req: Request, table: UserTable, verify: Option<string> -> Option<Claims>)
    returns (res: GateResult)
    requires table.Valid()
    modifies req, table
    ensures table.Valid()
    ensures !HasBearer(req.authorization) ==>
      res == GateResult(0, Some(NoToken)) && req.user == old(req.user) && table.users == old(table.users)
    ensures HasBearer(req.authorization) && verify(HeldToken(req.authorization)).None? ==>
      res == GateResult(0, Some(TokenFailed)) && req.user == old(req.user) && table.users == old(table.users)
    ensures HasBearer(req.authorization) && verify(HeldToken(req.authorization)).Some? ==>
      var c := verify(HeldToken(req.authorization)).value;
      && res.nextCalls == 1
      && res.error == (if Truthy(HeldToken(req.authorization)) then None else Some(NoToken))
      && req.user.Some? && req.user.value.email == c.email && req.user.value in table.users
      && (HasEmail(old(table.users), c.email) ==>
            table.users == old(table.users) && req.user.value in old(table.users))
      && (!HasEmail(old(table.users), c.email) ==>
            table.users == old(table.users) + [req.user.value] &&
            req.user.value == NewUser(req.user.value.id, c) &&
            forall v :: v in old(table.users) ==> v.id != req.user.value.id)
  {
    var token: Option<string> := None;
    var nextCalls := 0;
    if HasBearer(req.authorization) {
      token := TokenOf(req.authorization.value);
      var claims := verify(token);
      if claims.None? {
        return GateResult(0, Some(TokenFailed));
      }
      var c := claims.value;
      var user := table.FindByEmail(c.email);
      if user.None? {
        var created := table.Create(c);
        user := Some(created);
      }
      req.user := user;
      nextCalls := 1;
    }
    if !Truthy(token) {
      return GateResult(nextCalls, Some(NoToken));
    }
    return GateResult(nextCalls, None);
  }
}
