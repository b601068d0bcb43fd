/**
 * The authentication service: backend calls for login, registration,
 * logout, session validation and token refresh, over a secure key/value
 * store holding two entries, `token` and `user`.
 *
 * Each backend call (a `fetch` followed by `response.json()`) is a
 * parameter: the `Reply` the backend gives. The store is the class's
 * `entries` map; `trace` records, in order, every store write, every store
 * deletion and every request sent.
 */
module Auth {
  import opened Wrappers
  import opened JsText

  const TokenKey: string := "token"
  const UserKey: string := "user"

  const LoginFailed: string := "Login failed"
  const RegistrationFailed: string := "Registration failed"
  const GoogleNotImplemented: string := "Google Sign-in will be implemented later"

  datatype User = User(id: string, name: string, email: string, avatar: Option<string>)

  datatype LoginCredentials = LoginCredentials(email: string, password: string)

  datatype RegisterData = RegisterData(name: string, email: string, password: string, passwordConfirmation: string)

  datatype AuthResponse = AuthResponse(user: User, token: string, expiresAt: string)

  /** The body of a successful refresh: the new token. */
  datatype RefreshBody = RefreshBody(token: string)

  /**
   * What a backend call yields, as far as the service looks at it: an ok
   * response with its body, a response that is not ok with the `message`
   * of its body if any, or an error thrown by `fetch` or `response.json()`.
   */
  datatype Reply<+T> = Ok(body: T) | NotOk(message: Option<string>) | Thrown(reason: string)

  /** A request sent to the backend; the authenticated ones carry their bearer token. */
  datatype Request =
    | LoginRequest(credentials: LoginCredentials)
    | RegisterRequest(userData: RegisterData)
    | LogoutRequest(bearer: string)
    | UserRequest(bearer: string)
    | RefreshRequest(bearer: string)

  /** An observable step of the service: a store write, a store deletion or a request. */
  datatype Effect = Write(key: string, value: string) | Erase(key: string) | Send(request: Request)

  /** `SecureStore.getItemAsync(key)` on the given entries. */
  function Lookup(entries: map<string, string>, key: string): Option<string> {
    if key in entries then Some(entries[key]) else None
  }

  /** Both entries are present and non-empty: what `getCurrentUser` asks before calling the backend. */
  predicate HasSession(entries: map<string, string>) {
    Truthy(Lookup(entries, TokenKey)) && Truthy(Lookup(entries, UserKey))
  }

  /** The logout request sent for the given entries: one when a token is stored, none otherwise. */
  function LogoutRequests(entries: map<string, string>): seq<Effect> {
    if Truthy(Lookup(entries, TokenKey)) then [Send(LogoutRequest(entries[TokenKey]))] else []
  }

  function HexDigit(n: int): char
    requires 0 <= n < 16
  {
    if n < 10 then ('0' as int + n) as char else ('a' as int + n - 10) as char
  }

  /** How `JSON.stringify` writes one character inside a string literal. */
  function EscapeChar(c: char): string {
    if c == '"' then "\\\""
    else if c == '\\' then "\\\\"
    else if c == '\n' then "\\n"
    else if c == '\r' then "\\r"
    else if c == '\t' then "\\t"
    else if c as int == 0x08 then "\\b"
    else if c as int == 0x0C then "\\f"
    else if c as int < 0x20 then "\\u00" + [HexDigit(c as int / 16), HexDigit(c as int % 16)]
    else [c]
  }

  function Escape(s: string): string {
    if s == [] then "" else EscapeChar(s[0]) + Escape(s[1..])
  }

  function Quote(s: string): string {
    "\"" + Escape(s) + "\""
  }

  /**
   * `JSON.stringify(user)` for a user with the fields of the service's
   * `User` interface, in declaration order; an absent avatar is omitted.
   */
  function Serialize(u: User): (json: string)
    ensures |json| >= 2 && json[0] == '{' && json[|json| - 1] == '}'
  {
    "{\"id\":" + Quote(u.id) + ",\"name\":" + Quote(u.name) + ",\"email\":" + Quote(u.email)
    + (match u.avatar case None => "" case Some(a) => ",\"avatar\":" + Quote(a))
    + "}"
  }

  /**
   * What a successful login or registration stores: the session is usable
   * by `getCurrentUser` exactly when the backend's token is non-empty.
   */
  lemma StoredSession(entries: map<string, string>, data: AuthResponse)
    ensures var stored := entries[TokenKey := data.token][UserKey := Serialize(data.user)];
      && Lookup(stored, TokenKey) == Some(data.token)
      && Lookup(stored, UserKey) == Some(Serialize(data.user))
      && (HasSession(stored) <==> data.token != "")
  {
  }

  /** After a logout nothing is stored, so a second logout sends no request and clears nothing more. */
  lemma LogoutIdempotent(entries: map<string, string>)
    ensures var once := entries - {TokenKey, UserKey};
      && once - {TokenKey, UserKey} == once
      && LogoutRequests(once) == []
      && !HasSession(once)
  {
  }

  class AuthService {
    /** The secure store: a key is absent when nothing is stored under it. */
    var entries: map<string, string>
    /** Every store write, store deletion and request so far, oldest first. */
    ghost var trace: seq<Effect>

    constructor (stored: map<string, string>)
      ensures entries == stored && trace == []
    {
      entries := stored;
      trace := [];
    }

    /** `SecureStore.setItemAsync(key, value)`. */
    method SetItem(key: string, value: string)
      modifies this
      ensures entries == old(entries)[key := value]
      ensures trace == old(trace) + [Write(key, value)]
    {
      entries := entries[key := value];
      trace := trace + [Write(key, value)];
    }

    /** `SecureStore.deleteItemAsync(key)`. */
    method DeleteItem(key: string)
      modifies this
      ensures entries == old(entries) - {key}
      ensures trace == old(trace) + [Erase(key)]
    {
      entries := entries - {key};
      trace := trace + [Erase(key)];
    }

    /**
     * `login`: on an ok reply the token and then the user are stored and
     * the body is returned; otherwise the error is raised and nothing is
     * stored.
     */
    method Login(credentials: LoginCredentials, reply: Reply<AuthResponse>) returns (r: Result<AuthResponse, string>)
      modifies this
      ensures reply.Ok? ==>
        && r == Success(reply.body)
        && entries == old(entries)[TokenKey := reply.body.token][UserKey := Serialize(reply.body.user)]
        && trace == old(trace) + [Send(LoginRequest(credentials)),
                                  Write(TokenKey, reply.body.token), Write(UserKey, Serialize(reply.body.user))]
      ensures reply.NotOk? ==> r == Failure(Or(reply.message, LoginFailed))
      ensures reply.Thrown? ==> r == Failure(reply.reason)
      ensures !reply.Ok? ==> entries == old(entries) && trace == old(trace) + [Send(LoginRequest(credentials))]
    {
      trace := trace + [Send(LoginRequest(credentials))];
      match reply {
        case Thrown(reason) =>
          r := Failure(reason);
        case NotOk(message) =>
          r := Failure(Or(message, LoginFailed));
        case Ok(data) =>
          SetItem(TokenKey, data.token);
          SetItem(UserKey, Serialize(data.user));
          r := Success(data);
      }
    }

    /** `register`: as `login`, against the registration endpoint and with its own fallback message. */
    method Register(userData: RegisterData, reply: Reply<AuthResponse>) returns (r: Result<AuthResponse, string>)
      modifies this
      ensures reply.Ok? ==>
        && r == Success(reply.body)
        && entries == old(entries)[TokenKey := reply.body.token][UserKey := Serialize(reply.body.user)]
        && trace == old(trace) + [Send(RegisterRequest(userData)),
                                  Write(TokenKey, reply.body.token), Write(UserKey, Serialize(reply.body.user))]
      ensures reply.NotOk? ==> r == Failure(Or(reply.message, RegistrationFailed))
      ensures reply.Thrown? ==> r == Failure(reply.reason)
      ensures !reply.Ok? ==> entries == old(entries) && trace == old(trace) + [Send(RegisterRequest(userData))]
    {
      trace := trace + [Send(RegisterRequest(userData))];
      match reply {
        case Thrown(reason) =>
          r := Failure(reason);
        case NotOk(message) =>
          r := Failure(Or(message, RegistrationFailed));
        case Ok(data) =>
          SetItem(TokenKey, data.token);
          SetItem(UserKey, Serialize(data.user));
          r := Success(data);
      }
    }

    /**
     * `logout`: tells the backend when a token is stored, then always
     * deletes both entries. Whatever the backend answers, or if the request
     * fails, the outcome is the same, so the reply is not a parameter.
     */
    method Logout()
      modifies this
      ensures TokenKey !in entries && UserKey !in entries
      ensures entries == old(entries) - {TokenKey, UserKey}
      ensures trace == old(trace) + LogoutRequests(old(entries)) + [Erase(TokenKey), Erase(UserKey)]
    {
      var token := Lookup(entries, TokenKey);
      if Truthy(token) {
        trace := trace + [Send(LogoutRequest(token.value))];
      }
      DeleteItem(TokenKey);
      DeleteItem(UserKey);
    }

    /**
     * `getCurrentUser`: without a stored session, null and no request.
     * Otherwise the token is checked with the backend: a rejection logs
     * out, an ok reply gives the backend's user (which is not stored), and
     * a failure gives null and leaves the store alone.
     */
    method GetCurrentUser(reply: Reply<User>) returns (u: Option<User>)
      modifies this
      ensures !HasSession(old(entries)) ==> u == None && entries == old(entries) && trace == old(trace)
      ensures HasSession(old(entries)) ==>
        var sent := old(trace) + [Send(UserRequest(old(entries)[TokenKey]))];
        match reply
        case Ok(user) => u == Some(user) && entries == old(entries) && trace == sent
        case NotOk(_) =>
          && u == None
          && entries == old(entries) - {TokenKey, UserKey}
          && trace == sent + [Send(LogoutRequest(old(entries)[TokenKey])), Erase(TokenKey), Erase(UserKey)]
        case Thrown(_) => u == None && entries == old(entries) && trace == sent
    {
      var token := Lookup(entries, TokenKey);
      var userString := Lookup(entries, UserKey);
      if !Truthy(token) || !Truthy(userString) {
        return None;
      }
      trace := trace + [Send(UserRequest(token.value))];
      match reply {
        case NotOk(_) =>
          Logout();
          u := None;
        case Ok(user) =>
          u := Some(user);
        case Thrown(_) =>
          u := None;
      }
    }

    /**
     * `refreshToken`: without a token, null and no request. Otherwise a
     * rejection logs out, an ok reply replaces the token alone and returns
     * it, and a failure gives null and leaves the store alone.
     */
    method RefreshToken(reply: Reply<RefreshBody>) returns (t: Option<string>)
      modifies this
      ensures !Truthy(Lookup(old(entries), TokenKey)) ==> t == None && entries == old(entries) && trace == old(trace)
      ensures Truthy(Lookup(old(entries), TokenKey)) ==>
        var sent := old(trace) + [Send(RefreshRequest(old(entries)[TokenKey]))];
        match reply
        case Ok(data) =>
          && t == Some(data.token)
          && entries == old(entries)[TokenKey := data.token]
          && trace == sent + [Write(TokenKey, data.token)]
        case NotOk(_) =>
          && t == None
          && entries == old(entries) - {TokenKey, UserKey}
          && trace == sent + [Send(LogoutRequest(old(entries)[TokenKey])), Erase(TokenKey), Erase(UserKey)]
        case Thrown(_) => t == None && entries == old(entries) && trace == sent
    {
      var token := Lookup(entries, TokenKey);
      if !Truthy(token) {
        return None;
      }
      trace := trace + [Send(RefreshRequest(token.value))];
      match reply {
        case NotOk(_) =>
          Logout();
          t := None;
        case Ok(data) =>
          SetItem(TokenKey, data.token);
          t := Some(data.token);
        case Thrown(_) =>
          t := None;
      }
    }

    /** `googleSignIn`: a placeholder that always raises and touches nothing. */
    method GoogleSignIn() returns (r: Result<AuthResponse, string>)
      ensures r.Failure? && r.error == GoogleNotImplemented
    {
      r := Failure(GoogleNotImplemented);
    }
  }
}
