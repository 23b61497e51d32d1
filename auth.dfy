/** Authentication input handling: the `Authorization: Bearer <token>`
    header of `get_current_user`, and the input checks of `register` and
    `change_password`. Verifying a JWT and hashing a password are library
    calls; the model takes the token verifier as a function parameter. */
module Auth {
  import opened Common
  import opened Text
  import opened Models

  const BearerPrefix := "Bearer "

  /** The token carried by an `Authorization` header value: what follows
      `Bearer `, or nothing when the header has another form. */
  function BearerToken(header: string): (token: Option<string>)
    ensures token.Some? <==> StartsWith(header, BearerPrefix)
    ensures token.Some? ==> header == BearerPrefix + token.value
  {
    if StartsWith(header, BearerPrefix) then Some(header[|BearerPrefix|..]) else None
  }

  /** Prefixing a token and reading the header back gives the token. */
  lemma BearerRoundTrip(token: string)
    ensures BearerToken(BearerPrefix + token) == Some(token)
  {
    var header := BearerPrefix + token;
    assert header[..|BearerPrefix|] == BearerPrefix;
    assert header[|BearerPrefix|..] == token;
  }

  /** `User.query.get(id)`. */
  function FindUser(users: seq<User>, id: int): (u: Option<User>)
    ensures u.Some? ==> u.value in users && u.value.id == id
    ensures u.None? <==> forall k :: 0 <= k < |users| ==> users[k].id != id
  {
    match IndexWhere(users, (x: User) => x.id == id)
    case None => None
    case Some(k) => Some(users[k])
  }

  /** `get_current_user()`: `header` is the `Authorization` header (absent
      reads as ''), and `decode` stands for JWT verification, giving the
      token's `user_id` claim, or nothing for an expired, forged or
      claimless token. */
  function CurrentUser(header: Option<string>, decode: string -> Option<int>, users: seq<User>): (u: Option<User>)
    ensures u.Some? <==>
      && BearerToken(header.GetOr("")).Some?
      && decode(BearerToken(header.GetOr("")).value).Some?
      && FindUser(users, decode(BearerToken(header.GetOr("")).value).value).Some?
    ensures u.Some? ==>
      u.value in users && Some(u.value.id) == decode(BearerToken(header.GetOr("")).value)
  {
    match BearerToken(header.GetOr(""))
    case None => None
    case Some(token) =>
      match decode(token)
      case None => None
      case Some(id) => FindUser(users, id)
  }

  predicate UsernameTaken(users: seq<User>, username: string) {
    exists k :: 0 <= k < |users| && users[k].username == username
  }

  predicate EmailTaken(users: seq<User>, email: string) {
    exists k :: 0 <= k < |users| && users[k].email == Some(email)
  }

  /** The 400 answer `register` gives for the stripped `username` and
      `password`, checked in the handler's order; `None` when the account can
      be created. */
  function RegistrationError(username: string, password: string, users: seq<User>): (e: Option<string>)
    ensures e.None? <==>
      username != "" && password != "" && |password| >= 6 && !UsernameTaken(users, username)
    ensures (username == "" || password == "") ==> e == Some("Username and password required")
    ensures username != "" && password != "" && |password| < 6 ==>
      e == Some("Password must be at least 6 characters")
    ensures username != "" && |password| >= 6 && UsernameTaken(users, username) ==>
      e == Some("Username already exists")
  {
    if username == "" || password == "" then Some("Username and password required")
    else if |password| < 6 then Some("Password must be at least 6 characters")
    else if UsernameTaken(users, username) then Some("Username already exists")
    else None
  }

  /** The 400 answer `change_password` gives for the stripped passwords
      before it consults the stored hash; `None` when they pass. */
  function PasswordChangeError(currentPassword: string, newPassword: string): (e: Option<string>)
    ensures e.None? <==> currentPassword != "" && newPassword != "" && |newPassword| >= 6
    ensures (currentPassword == "" || newPassword == "") ==>
      e == Some("Current and new password required")
    ensures currentPassword != "" && newPassword != "" && |newPassword| < 6 ==>
      e == Some("New password must be at least 6 characters")
  {
    if currentPassword == "" || newPassword == "" then Some("Current and new password required")
    else if |newPassword| < 6 then Some("New password must be at least 6 characters")
    else None
  }

  /** A password of whitespace only is refused: it strips to ''. */
  lemma BlankPasswordRefused(username: string, password: string, users: seq<User>)
    requires forall k :: 0 <= k < |password| ==> IsSpace(password[k])
    ensures RegistrationError(Strip(username), Strip(password), users).Some?
  {
    StripAllSpace(password);
  }
}
