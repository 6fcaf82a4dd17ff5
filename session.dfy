/**
 * The persisted session of the client: the single `userData` record kept
 * in the device's key-value store, the reads the services make of it
 * (`getStoredUserData`, `isAuthenticated`, `getStoredToken`), the two
 * axios interceptors, and the login / register / logout transitions with
 * their error-to-message classification.
 */
module Session {
  import opened Wrappers
  import opened JsString
  import opened Transport

  /** The record the client stores: `{id, name, email, token}`, each
      property possibly missing. */
  datatype UserRecord = UserRecord(id: Option<int>, name: Option<String>, email: Option<String>, token: Option<String>)

  /** What is kept under the key `userData`: a JSON object read back as a
      record, or a value that does not read back as one (the read fails,
      the text is not JSON, or it is JSON `null`). */
  datatype Stored = Parsed(record: UserRecord) | Garbled

  /** The body of a successful login or register response. */
  datatype Account = Account(id: Option<int>, displayName: Option<String>, email: Option<String>)

  /** What `login` and `register` resolve to, or that they reject: the
      catch block itself throws when an unclassified error response has a
      null body (`errorData.message` on null). */
  datatype AuthOutcome = Success(user: UserRecord) | Failure(message: String) | Thrown

  const MockToken: String := "mock-token"

  // ---------------------------------------------------------------------
  // reading the store
  // ---------------------------------------------------------------------

  /** `getStoredUserData`: the parsed record, or null when nothing is stored
      or it cannot be read. */
  function StoredUser(s: Option<Stored>): (r: Option<UserRecord>)
    ensures r.Some? <==> s.Some? && s.value.Parsed?
    ensures r.Some? ==> r.value == s.value.record
  {
    match s
    case Some(Parsed(u)) => Some(u)
    case _ => None
  }

  /** `isAuthenticated`, the gate of every personal action. */
  predicate Authenticated(s: Option<Stored>) {
    var u := StoredUser(s);
    u.Some? && TruthyNum(u.value.id) && TruthyStr(u.value.email)
  }

  /** The screens' test `userData && userData.id` on the stored record. */
  predicate HasUserId(s: Option<Stored>) {
    StoredUser(s).Some? && TruthyNum(StoredUser(s).value.id)
  }

  /** The id of the stored user, as the screens send it. */
  function UserId(s: Option<Stored>): (r: int)
    requires HasUserId(s)
    ensures StoredUser(s).value.id == Some(r) && r != 0
  {
    StoredUser(s).value.id.value
  }

  /** `getStoredToken` in the HTTP module: the stored `token`, or null when
      there is no readable record. */
  function StoredToken(s: Option<Stored>): (r: Option<String>)
    ensures StoredUser(s).None? ==> r.None?
    ensures StoredUser(s).Some? ==> r == StoredUser(s).value.token
  {
    match s
    case Some(Parsed(u)) => u.token
    case _ => None
  }

  /** The request interceptor: the headers a request is sent with. The
      request always proceeds; a missing or unreadable record only means
      that no header is added. */
  function RequestHeaders(s: Option<Stored>, headers: map<String, String>): (r: map<String, String>)
    ensures TruthyStr(StoredToken(s)) ==> r == headers["Authorization" := "Bearer " + StoredToken(s).value]
    ensures !TruthyStr(StoredToken(s)) ==> r == headers
  {
    var t := StoredToken(s);
    if t.Some? && t.value != [] then headers["Authorization" := "Bearer " + t.value] else headers
  }

  /** The response interceptor's effect on the store: a 401 removes the
      record, everything else leaves it as it is. */
  function AfterResponse<T>(s: Option<Stored>, reply: Reply<T>): (r: Option<Stored>)
    ensures IsUnauthorized(reply) ==> r.None?
    ensures !IsUnauthorized(reply) ==> r == s
  {
    if IsUnauthorized(reply) then None else s
  }

  // ---------------------------------------------------------------------
  // login and register
  // ---------------------------------------------------------------------

  /** The record stored for the account in a successful response. */
  function RecordOf(a: Account): UserRecord {
    UserRecord(a.id, a.displayName, a.email, Some(MockToken))
  }

  /** The connection-failure test of both catch blocks. */
  predicate IsNetworkError(e: HttpError) {
    e.code == "NETWORK_ERROR" || Contains(e.message, "Network Error")
  }

  /** The fixed messages `login` gives to particular statuses. */
  function LoginStatusMessage(status: int): Option<String> {
    if status == 401 then Some("E-posta veya şifre hatalı")
    else if status == 404 then Some("Kullanıcı bulunamadı")
    else if status == 500 then Some("Sunucu hatası. Lütfen daha sonra tekrar deneyin.")
    else if status == 400 then Some("Geçersiz istek. Lütfen bilgilerinizi kontrol edin.")
    else None
  }

  /** The fixed messages `register` gives to particular statuses. */
  function RegisterStatusMessage(status: int): Option<String> {
    if status == 400 then Some("Geçersiz bilgiler. Lütfen kontrol edin.")
    else if status == 409 then Some("Bu e-posta adresi zaten kullanılıyor")
    else if status == 500 then Some("Sunucu hatası. Lütfen daha sonra tekrar deneyin.")
    else None
  }

  const NetworkMessage: String := "İnternet bağlantınızı kontrol edin"

  /** The shared shape of the two catch blocks: a fixed status message, else
      the body's own text or `message`, else the connection message, else
      the fallback. `statusMessage` is one of the two tables above. */
  function ClassifyAuthError(e: HttpError, statusMessage: int -> Option<String>, fallback: String): AuthOutcome {
    if e.status.Some? && statusMessage(e.status.value).Some? then Failure(statusMessage(e.status.value).value)
    else if e.status.Some? && e.body.TextBody? then Failure(e.body.text)
    else if e.status.Some? && e.body.NoBody? then Thrown
    else if e.status.Some? && TruthyStr(e.body.message) then Failure(e.body.message.value)
    else if IsNetworkError(e) then Failure(NetworkMessage)
    else Failure(fallback)
  }

  /** What `login` resolves to for the reply to `POST /users/login`. */
  function LoginOutcome(reply: Reply<Option<Account>>): AuthOutcome {
    match reply
    case Ok(Some(a)) => Success(RecordOf(a))
    case Ok(None) => Failure("Giriş başarısız")
    case Fail(e) => ClassifyAuthError(e, LoginStatusMessage, "Giriş yapılırken bir hata oluştu")
  }

  /** What `register` resolves to for the reply to `POST /users/register`. */
  function RegisterOutcome(reply: Reply<Option<Account>>): AuthOutcome {
    match reply
    case Ok(Some(a)) => Success(RecordOf(a))
    case Ok(None) => Failure("Kayıt başarısız")
    case Fail(e) => ClassifyAuthError(e, RegisterStatusMessage, "Kayıt olurken bir hata oluştu")
  }

  /** The store after `login` or `register`: the interceptor runs first, then
      a successful response stores its record. */
  function AfterAuth(s: Option<Stored>, reply: Reply<Option<Account>>): Option<Stored> {
    match reply
    case Ok(Some(a)) => Some(Parsed(RecordOf(a)))
    case _ => AfterResponse(s, reply)
  }

  // ---------------------------------------------------------------------
  // properties
  // ---------------------------------------------------------------------

  /** Only a truthy response body succeeds, and then the outcome carries
      exactly the stored record `{id, name: displayName, email, token:
      'mock-token'}`; a falsy body fails with the fixed message. */
  lemma AuthSuccessIffData(reply: Reply<Option<Account>>)
    ensures LoginOutcome(reply).Success? <==> reply.Ok? && reply.data.Some?
    ensures RegisterOutcome(reply).Success? <==> reply.Ok? && reply.data.Some?
    ensures reply.Ok? && reply.data.Some? ==>
      var a := reply.data.value;
      LoginOutcome(reply).user == RegisterOutcome(reply).user == UserRecord(a.id, a.displayName, a.email, Some("mock-token"))
      && AfterAuth(None, reply) == Some(Parsed(LoginOutcome(reply).user))
    ensures reply == Ok(None) ==>
      LoginOutcome(reply) == Failure("Giriş başarısız") && RegisterOutcome(reply) == Failure("Kayıt başarısız")
  {
  }

  /** A response whose status has a fixed message gets that message,
      whatever its body and whether or not it also looks like a network
      failure. */
  lemma StatusMessageWins(e: HttpError)
    requires e.status.Some?
    ensures e.status.value in {401, 404, 500, 400} ==>
      LoginOutcome(Fail(e)).Failure? && LoginOutcome(Fail(e)).message == LoginStatusMessage(e.status.value).value
    ensures e.status.value in {400, 409, 500} ==>
      RegisterOutcome(Fail(e)).Failure? && RegisterOutcome(Fail(e)).message == RegisterStatusMessage(e.status.value).value
    ensures e.status == Some(401) ==> LoginOutcome(Fail(e)) == Failure("E-posta veya şifre hatalı")
    ensures e.status == Some(409) ==> RegisterOutcome(Fail(e)) == Failure("Bu e-posta adresi zaten kullanılıyor")
  {
    LoginStatusWins(e);
    RegisterStatusWins(e);
  }

  lemma ClassifiedWins(e: HttpError, statusMessage: int -> Option<String>, fallback: String)
    requires e.status.Some? && statusMessage(e.status.value).Some?
    ensures ClassifyAuthError(e, statusMessage, fallback) == Failure(statusMessage(e.status.value).value)
  {
  }

  lemma LoginStatusWins(e: HttpError)
    requires e.status.Some?
    ensures LoginStatusMessage(e.status.value).Some? ==>
      LoginOutcome(Fail(e)) == Failure(LoginStatusMessage(e.status.value).value)
    ensures e.status.value in {401, 404, 500, 400} ==> LoginStatusMessage(e.status.value).Some?
  {
    if LoginStatusMessage(e.status.value).Some? {
      ClassifiedWins(e, LoginStatusMessage, "Giriş yapılırken bir hata oluştu");
    }
  }

  lemma RegisterStatusWins(e: HttpError)
    requires e.status.Some?
    ensures RegisterStatusMessage(e.status.value).Some? ==>
      RegisterOutcome(Fail(e)) == Failure(RegisterStatusMessage(e.status.value).value)
    ensures e.status.value in {400, 409, 500} ==> RegisterStatusMessage(e.status.value).Some?
  {
    if RegisterStatusMessage(e.status.value).Some? {
      ClassifiedWins(e, RegisterStatusMessage, "Kayıt olurken bir hata oluştu");
    }
  }

  /** The catch block as a whole: every rejected request falls in exactly
      one of these cases, tried in this order. The network test is reached
      only without a response, or with an unclassified status and an object
      body whose `message` is falsy. */
  lemma ClassifyCases(e: HttpError, statusMessage: int -> Option<String>, fallback: String)
    ensures var r := ClassifyAuthError(e, statusMessage, fallback);
      var classified := e.status.Some? && statusMessage(e.status.value).Some?;
      var unclassified := e.status.Some? && statusMessage(e.status.value).None?;
      (classified ==> r == Failure(statusMessage(e.status.value).value))
      && (unclassified && e.body.TextBody? ==> r == Failure(e.body.text))
      && (r == Thrown <==> unclassified && e.body.NoBody?)
      && (unclassified && e.body.ObjectBody? && TruthyStr(e.body.message) ==> r == Failure(e.body.message.value))
      && (e.status.None? || (unclassified && e.body.ObjectBody? && !TruthyStr(e.body.message)) ==>
            r == Failure(if IsNetworkError(e) then NetworkMessage else fallback))
  {
  }

  /** Logging in with an account that has a truthy id and email opens the
      gate and makes every later request carry `Bearer mock-token`. */
  lemma LoginOpensGate(s: Option<Stored>, a: Account, headers: map<String, String>)
    requires TruthyNum(a.id) && TruthyStr(a.email)
    ensures Authenticated(AfterAuth(s, Ok(Some(a))))
    ensures RequestHeaders(AfterAuth(s, Ok(Some(a))), headers) == headers["Authorization" := "Bearer mock-token"]
  {
    assert StoredToken(AfterAuth(s, Ok(Some(a)))) == Some(MockToken);
    assert "Bearer " + MockToken == "Bearer mock-token";
  }

  /** A 401 anywhere closes the gate and stops the header being sent; any
      other reply leaves the store, and so the gate and headers, as they are. */
  lemma UnauthorizedClosesGate<T>(s: Option<Stored>, reply: Reply<T>, headers: map<String, String>)
    ensures IsUnauthorized(reply) ==>
      !Authenticated(AfterResponse(s, reply)) && StoredUser(AfterResponse(s, reply)).None?
      && RequestHeaders(AfterResponse(s, reply), headers) == headers
    ensures !IsUnauthorized(reply) ==>
      Authenticated(AfterResponse(s, reply)) == Authenticated(s)
      && RequestHeaders(AfterResponse(s, reply), headers) == RequestHeaders(s, headers)
  {
  }

  /** A store that is empty or unreadable is a signed-out session. */
  lemma UnreadableIsSignedOut(s: Option<Stored>, headers: map<String, String>)
    requires s.None? || s == Some(Garbled)
    ensures !Authenticated(s) && StoredUser(s).None? && StoredToken(s).None?
    ensures RequestHeaders(s, headers) == headers
  {
  }

  // ---------------------------------------------------------------------
  // the store itself
  // ---------------------------------------------------------------------

  /** The device store, holding the `userData` entry or nothing. */
  class Store {
    var userData: Option<Stored>

    constructor(initial: Option<Stored>)
      ensures userData == initial
    {
      userData := initial;
    }

    /** `storeUserData`: writes the record as JSON. */
    method StoreUserData(u: UserRecord)
      modifies this
      ensures userData == Some(Parsed(u))
      ensures StoredUser(userData) == Some(u)
    {
      userData := Some(Parsed(u));
    }

    /** `clearUserData`, and `clearStoredToken` of the HTTP module, which
        removes the same key. */
    method ClearUserData()
      modifies this
      ensures userData.None? && !Authenticated(userData)
    {
      userData := None;
    }

    /** The response interceptor applied to one reply; the reply itself is
        passed on unchanged, a failure still rejecting to the caller. */
    method Intercept<T>(reply: Reply<T>) returns (passed: Reply<T>)
      modifies this
      ensures passed == reply
      ensures userData == AfterResponse(old(userData), reply)
    {
      passed := reply;
      if IsUnauthorized(reply) {
        ClearUserData();
      }
    }

    /** `login(email, password)` answered by `reply`. */
    method Login(email: String, password: String, reply: Reply<Option<Account>>) returns (outcome: AuthOutcome, call: Call)
      modifies this
      ensures call == PostLogin(email, password)
      ensures outcome == LoginOutcome(reply)
      ensures userData == AfterAuth(old(userData), reply)
      ensures outcome.Success? ==> StoredUser(userData) == Some(outcome.user)
      ensures !outcome.Success? && !IsUnauthorized(reply) ==> userData == old(userData)
    {
      call := PostLogin(email, password);
      var r := Intercept(reply);
      match r {
        case Ok(Some(a)) =>
          StoreUserData(RecordOf(a));
          outcome := Success(RecordOf(a));
        case Ok(None) =>
          outcome := Failure("Giriş başarısız");
        case Fail(e) =>
          outcome := ClassifyAuthError(e, LoginStatusMessage, "Giriş yapılırken bir hata oluştu");
      }
    }

    /** `register(displayName, email, password)` answered by `reply`. */
    method Register(displayName: String, email: String, password: String, reply: Reply<Option<Account>>)
      returns (outcome: AuthOutcome, call: Call)
      modifies this
      ensures call == PostRegister(displayName, email, password)
      ensures outcome == RegisterOutcome(reply)
      ensures userData == AfterAuth(old(userData), reply)
      ensures outcome.Success? ==> StoredUser(userData) == Some(outcome.user)
      ensures !outcome.Success? && !IsUnauthorized(reply) ==> userData == old(userData)
    {
      call := PostRegister(displayName, email, password);
      var r := Intercept(reply);
      match r {
        case Ok(Some(a)) =>
          StoreUserData(RecordOf(a));
          outcome := Success(RecordOf(a));
        case Ok(None) =>
          outcome := Failure("Kayıt başarısız");
        case Fail(e) =>
          outcome := ClassifyAuthError(e, RegisterStatusMessage, "Kayıt olurken bir hata oluştu");
      }
    }

    /** `logout`: the remote call may fail; the record is removed anyway. */
    method Logout(reply: Reply<()>) returns (call: Call)
      modifies this
      ensures call == PostLogout
      ensures userData.None? && !Authenticated(userData)
    {
      call := PostLogout;
      var _ := Intercept(reply);
      ClearUserData();
    }
  }
}
