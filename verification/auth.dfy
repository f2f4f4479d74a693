/** lib/auth.ts: the credential check run at sign-in, and the two callbacks
    that carry the signed-in user's role, id and avatar into the token and
    from the token into the session a route handler sees. The user lookup
    and the password comparison are inputs: `findUser` stands for the
    lookup by email, `passwordMatches(plain, hash)` for the hash comparison. */
module Auth {
  import opened Options
  import opened Numerals
  import opened Common

  datatype Credentials = Credentials(email: Option<string>, password: Option<string>)

  /** A stored user row. */
  datatype Usuario = Usuario(
    id: nat,
    email: string,
    password: string,
    nombre: string,
    rol: string,
    avatar: Option<string>)

  /** The user object `authorize` returns. */
  datatype AuthUser = AuthUser(
    id: string,
    email: string,
    name: string,
    role: string,
    avatar: Option<string>)

  /** The three errors `authorize` throws, in the order it checks for them. */
  datatype AuthError = MissingCredentials | UserNotFound | WrongPassword
  {
    function Message(): string
    {
      match this
      case MissingCredentials => "Por favor ingresa email y contraseña"
      case UserNotFound => "Usuario no encontrado"
      case WrongPassword => "Contraseña incorrecta"
    }
  }

  datatype AuthResult = Authorized(user: AuthUser) | Rejected(error: AuthError)

  /** A credential field that is truthy: present and not empty. */
  predicate Filled(field: Option<string>)
  {
    field.Some? && field.value != ""
  }

  predicate BothFilled(credentials: Option<Credentials>)
  {
    credentials.Some? && Filled(credentials.value.email) && Filled(credentials.value.password)
  }

  /** The user object built from a stored row. */
  function UserOf(u: Usuario): (user: AuthUser)
    ensures user.id == DecimalString(u.id)
    ensures ParseInt(user.id) == Some(u.id)
    ensures user.email == u.email && user.name == u.nombre && user.role == u.rol && user.avatar == u.avatar
  {
    ParseDecimalString(u.id);
    AuthUser(DecimalString(u.id), u.email, u.nombre, u.rol, u.avatar)
  }

  /** `authorize(credentials)`: missing fields, then an unknown email, then a
      wrong password are rejected, in that order; otherwise the user row is
      turned into the signed-in user. */
  function Authorize(credentials: Option<Credentials>, findUser: string -> Option<Usuario>,
                     passwordMatches: (string, string) -> bool): (r: AuthResult)
    ensures r == Rejected(MissingCredentials) <==> !BothFilled(credentials)
    ensures r == Rejected(UserNotFound) <==>
      BothFilled(credentials) && findUser(credentials.value.email.value).None?
    ensures r == Rejected(WrongPassword) <==>
      && BothFilled(credentials)
      && findUser(credentials.value.email.value).Some?
      && !passwordMatches(credentials.value.password.value, findUser(credentials.value.email.value).value.password)
    ensures r.Rejected? && r.error.Message() == "Por favor ingresa email y contraseña" <==> !BothFilled(credentials)
    ensures r.Rejected? && r.error.Message() == "Usuario no encontrado" <==>
      BothFilled(credentials) && findUser(credentials.value.email.value).None?
    ensures r.Rejected? && r.error.Message() == "Contraseña incorrecta" <==>
      && BothFilled(credentials)
      && findUser(credentials.value.email.value).Some?
      && !passwordMatches(credentials.value.password.value, findUser(credentials.value.email.value).value.password)
    ensures r.Authorized? ==>
      && BothFilled(credentials)
      && findUser(credentials.value.email.value).Some?
      && r.user == UserOf(findUser(credentials.value.email.value).value)
  {
    if !BothFilled(credentials) then Rejected(MissingCredentials)
    else
      var email := credentials.value.email.value;
      var password := credentials.value.password.value;
      match findUser(email)
      case None => Rejected(UserNotFound)
      case Some(u) =>
        if !passwordMatches(password, u.password) then Rejected(WrongPassword)
        else Authorized(UserOf(u))
  }

  /** Missing credentials are rejected before the lookup or the comparison
      could matter: the answer is the same whatever they would say. */
  lemma MissingCredentialsBeforeLookup(credentials: Option<Credentials>,
                                       find1: string -> Option<Usuario>, match1: (string, string) -> bool,
                                       find2: string -> Option<Usuario>, match2: (string, string) -> bool)
    requires !BothFilled(credentials)
    ensures Authorize(credentials, find1, match1) == Authorize(credentials, find2, match2) == Rejected(MissingCredentials)
  {
  }

  /** An unknown email is rejected whatever the password comparison says. */
  lemma UnknownEmailBeforeComparison(credentials: Option<Credentials>, findUser: string -> Option<Usuario>,
                                     match1: (string, string) -> bool, match2: (string, string) -> bool)
    requires BothFilled(credentials) && findUser(credentials.value.email.value).None?
    ensures Authorize(credentials, findUser, match1) == Authorize(credentials, findUser, match2) == Rejected(UserNotFound)
  {
  }

  /** The JWT: the fields the jwt callback writes, and the name and email
      next-auth puts there itself. */
  class Token {
    var role: Option<string>
    var id: Option<string>
    var avatar: Option<string>
    var name: Option<string>
    var email: Option<string>

    constructor (name: Option<string>, email: Option<string>)
      ensures this.name == name && this.email == email
      ensures role.None? && id.None? && avatar.None?
    {
      this.name, this.email := name, email;
      role, id, avatar := None, None, None;
    }
  }

  /** `session.user` as the session callback finds it. */
  class SessionUserObject {
    var id: Option<string>
    var name: Option<string>
    var email: Option<string>
    var role: Option<string>
    var avatar: Option<string>

    constructor (name: Option<string>, email: Option<string>)
      ensures this.name == name && this.email == email
      ensures id.None? && role.None? && avatar.None?
    {
      this.name, this.email := name, email;
      id, role, avatar := None, None, None;
    }

    /** The fields a route handler reads. */
    function View(): (user: SessionUser)
      reads this
      ensures user.id == id && user.role == role && user.avatar == avatar
      ensures user.name == name && user.email == email
    {
      SessionUser(id, name, email, role, avatar)
    }
  }

  class SessionObject {
    var user: SessionUserObject?

    constructor (user: SessionUserObject?)
      ensures this.user == user
    {
      this.user := user;
    }
  }

  /** The jwt callback: at sign-in, when `user` is given, copy its role, id
      and avatar into the token; later calls pass no user and leave the
      token as it is. The token itself is returned. */
  method Jwt(token: Token, user: Option<AuthUser>) returns (result: Token)
    modifies token
    ensures result == token
    ensures user.Some? ==>
      token.role == Some(user.value.role) && token.id == Some(user.value.id) && token.avatar == user.value.avatar
    ensures user.None? ==> token.role == old(token.role) && token.id == old(token.id) && token.avatar == old(token.avatar)
    ensures token.name == old(token.name) && token.email == old(token.email)
  {
    if user.Some? {
      token.role := Some(user.value.role);
      token.id := Some(user.value.id);
      token.avatar := user.value.avatar;
    }
    result := token;
  }

  /** The session callback: when the session has a user, copy role, id and
      avatar from the token onto it, undefined ones included; nothing else
      changes. The session itself is returned. */
  method SessionCallback(session: SessionObject, token: Token) returns (result: SessionObject)
    modifies session.user
    ensures result == session
    ensures session.user == old(session.user)
    ensures session.user != null ==>
      && session.user.role == token.role
      && session.user.id == token.id
      && session.user.avatar == token.avatar
      && session.user.name == old(session.user.name)
      && session.user.email == old(session.user.email)
  {
    var user := session.user;
    if user != null {
      user.role := token.role;
      user.id := token.id;
      user.avatar := token.avatar;
    }
    result := session;
  }

  /** Sign-in followed by a request: the jwt callback with the authorized
      user, then the session callback. The session a handler then sees
      carries the user's numeric id, so `parseInt(session.user.id)` gives the
      stored id back, and the handlers' teacher check holds exactly for the
      role 'maestro'. */
  method SignIn(u: Usuario, token: Token, session: SessionObject)
    requires session.user != null
    modifies token, session.user
    ensures session.user.View().id == Some(DecimalString(u.id))
    ensures SessionUserId(Session(session.user.View())) == Some(u.id)
    ensures IsMaestro(Some(Session(session.user.View()))) <==> u.rol == MAESTRO
    ensures session.user.View().avatar == u.avatar
  {
    var user := UserOf(u);
    var t := Jwt(token, Some(user));
    var s := SessionCallback(session, t);
    SessionUserIdOfDecimal(Session(session.user.View()), u.id);
  }
}
