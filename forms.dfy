/**
 * The sign-in and registration forms: the ordered checks of their fields,
 * the single request they then make, and the alert that follows from what
 * the session service resolved to.
 */
module Forms {
  import opened Wrappers
  import opened JsString
  import opened Transport
  import opened Session
  import opened Alerts

  const FillAllMessage: String := "Lütfen tüm alanları doldurun"
  const MismatchMessage: String := "Şifreler eşleşmiyor"
  const ShortPasswordMessage: String := "Şifre en az 6 karakter olmalıdır"
  const MinPasswordLength: nat := 6

  const RegisteredMessage: String := "Hesabınız oluşturuldu! Giriş yapabilirsiniz."
  const RegisterFailedMessage: String := "Kayıt olunamadı"
  const RegisterThrownMessage: String := "Kayıt olurken bir hata oluştu"
  const LoggedInMessage: String := "Giriş yapıldı!"
  const LoginFailedMessage: String := "Giriş yapılamadı"
  const LoginThrownMessage: String := "Giriş yapılırken bir hata oluştu"

  /** `!s.trim()`: the field is empty once trimmed. */
  predicate Blank(s: String) { Trim(s) == [] }

  /** A field is blank exactly when it holds only white space. */
  lemma BlankIsWhiteSpace(s: String)
    ensures Blank(s) <==> IsBlank(s)
  {
    TrimEmptyIffBlank(s);
  }

  /** One character other than white space keeps a field from being blank. */
  lemma NotBlankAt(s: String, k: nat)
    requires k < |s| && !IsWhite(s[k])
    ensures !Blank(s)
  {
    BlankIsWhiteSpace(s);
  }

  // ---------------------------------------------------------------------
  // registration
  // ---------------------------------------------------------------------

  /** The checks of `handleRegister`, first failure first: a blank field,
      then a confirmation that differs (untrimmed), then a password of fewer
      than six UTF-16 units (untrimmed). `None` lets the request go. */
  function RegisterValidation(displayName: String, email: String, password: String, confirm: String): (r: Option<String>)
    ensures var anyBlank := Blank(displayName) || Blank(email) || Blank(password) || Blank(confirm);
      (r == Some(FillAllMessage) <==> anyBlank)
      && (r == Some(MismatchMessage) <==> !anyBlank && password != confirm)
      && (r == Some(ShortPasswordMessage) <==> !anyBlank && password == confirm && Utf16Length(password) < MinPasswordLength)
      && (r.None? <==> !anyBlank && password == confirm && Utf16Length(password) >= MinPasswordLength)
  {
    if Blank(displayName) || Blank(email) || Blank(password) || Blank(confirm) then Some(FillAllMessage)
    else if password != confirm then Some(MismatchMessage)
    else if Utf16Length(password) < MinPasswordLength then Some(ShortPasswordMessage)
    else None
  }

  /** The password is compared and measured as typed: white space around
      it counts, although it does not save a blank password. */
  lemma PasswordNotTrimmed()
    ensures RegisterValidation("Ali", "a@b.c", "secret", "secret ") == Some(MismatchMessage)
    ensures RegisterValidation("Ali", "a@b.c", "  abc ", "  abc ") == None
    ensures RegisterValidation("Ali", "a@b.c", "      ", "      ") == Some(FillAllMessage)
  {
    NotBlankAt("Ali", 0);
    NotBlankAt("a@b.c", 0);
    TrailingSpaceMismatch();
    PaddedPasswordAccepted();
    SpacesPasswordBlank();
  }

  lemma TrailingSpaceMismatch()
    requires !Blank("Ali") && !Blank("a@b.c")
    ensures RegisterValidation("Ali", "a@b.c", "secret", "secret ") == Some(MismatchMessage)
  {
    NotBlankAt("secret", 0);
    NotBlankAt("secret ", 0);
  }

  lemma PaddedPasswordAccepted()
    requires !Blank("Ali") && !Blank("a@b.c")
    ensures RegisterValidation("Ali", "a@b.c", "  abc ", "  abc ") == None
  {
    NotBlankAt("  abc ", 2);
    assert |"  abc "| == 6;
  }

  lemma SpacesPasswordBlank()
    ensures RegisterValidation("Ali", "a@b.c", "      ", "      ") == Some(FillAllMessage)
  {
    BlankIsWhiteSpace("      ");
    assert IsBlank("      ");
  }

  /** The alert after `register` resolved or threw. */
  function RegisterNotice(outcome: AuthOutcome): (n: Notice)
    ensures outcome.Success? <==> n.title == SuccessTitle
    ensures outcome.Success? ==> n.message == RegisteredMessage
    ensures outcome.Failure? ==> n.message == if outcome.message != [] then outcome.message else RegisterFailedMessage
    ensures outcome.Thrown? ==> n == Notice(ErrorTitle, RegisterThrownMessage)
  {
    match outcome
    case Success(_) => Notice(SuccessTitle, RegisteredMessage)
    case Failure(m) => Notice(ErrorTitle, if m != [] then m else RegisterFailedMessage)
    case Thrown => Notice(ErrorTitle, RegisterThrownMessage)
  }

  // ---------------------------------------------------------------------
  // sign-in
  // ---------------------------------------------------------------------

  /** The check of `handleLogin`: both fields must be non-blank once trimmed. */
  function LoginValidation(email: String, password: String): (r: Option<String>)
    ensures r.None? <==> !Blank(email) && !Blank(password)
    ensures r.Some? ==> r.value == FillAllMessage
  {
    if Blank(email) || Blank(password) then Some(FillAllMessage) else None
  }

  /** The alert after `login` resolved or threw. */
  function LoginNotice(outcome: AuthOutcome): (n: Notice)
    ensures outcome.Success? <==> n.title == SuccessTitle
    ensures outcome.Success? ==> n.message == LoggedInMessage
    ensures outcome.Failure? ==> n.message == if outcome.message != [] then outcome.message else LoginFailedMessage
    ensures outcome.Thrown? ==> n == Notice(ErrorTitle, LoginThrownMessage)
  {
    match outcome
    case Success(_) => Notice(SuccessTitle, LoggedInMessage)
    case Failure(m) => Notice(ErrorTitle, if m != [] then m else LoginFailedMessage)
    case Thrown => Notice(ErrorTitle, LoginThrownMessage)
  }

  /** A successful sign-in is reported as such exactly when the server
      answered with a body, and then the session holds that account. */
  lemma LoginReportsSession(reply: Reply<Option<Account>>, s: Option<Stored>)
    ensures LoginNotice(LoginOutcome(reply)).title == SuccessTitle <==> reply.Ok? && reply.data.Some?
    ensures reply.Ok? && reply.data.Some? ==> StoredUser(AfterAuth(s, reply)) == Some(RecordOf(reply.data.value))
  {
    AuthSuccessIffData(reply);
  }

  /** A response with a fixed status message shows that message, and an
      empty text body falls back to the form's own message. */
  lemma LoginFailureMessages(e: HttpError)
    ensures e.status == Some(401) ==> LoginNotice(LoginOutcome(Fail(e))) == Notice(ErrorTitle, "E-posta veya şifre hatalı")
    ensures e.status == Some(418) && e.body == TextBody([]) ==>
      LoginNotice(LoginOutcome(Fail(e))) == Notice(ErrorTitle, LoginFailedMessage)
    ensures e.status == Some(418) && e.body == NoBody ==>
      LoginNotice(LoginOutcome(Fail(e))) == Notice(ErrorTitle, LoginThrownMessage)
  {
  }

  // ---------------------------------------------------------------------
  // the two screens
  // ---------------------------------------------------------------------

  datatype RegisterState = RegisterState(displayName: String, email: String, password: String, confirmPassword: String,
                                         loading: bool)

  class RegisterPage {
    /** The device store the session lives in. */
    const store: Store

    var displayName: String
    var email: String
    var password: String
    var confirmPassword: String
    var loading: bool

    function State(): RegisterState
      reads this
    {
      RegisterState(displayName, email, password, confirmPassword, loading)
    }

    constructor(store: Store)
      ensures this.store == store
      ensures State() == RegisterState("", "", "", "", false)
    {
      this.store := store;
      displayName, email, password, confirmPassword := "", "", "", "";
      loading := false;
    }

    /** `handleRegister`: a failed check only alerts; otherwise one request
        with the trimmed name and e-mail and the password as typed, and the
        loading flag is back off afterwards. */
    method HandleRegister(reply: Reply<Option<Account>>) returns (notice: Notice, calls: seq<Call>)
      modifies this, store
      ensures var v := RegisterValidation(old(displayName), old(email), old(password), old(confirmPassword));
        (v.Some? ==>
          notice == Notice(ErrorTitle, v.value) && calls == []
          && State() == old(State()) && store.userData == old(store.userData))
        && (v.None? ==>
          calls == [PostRegister(Trim(old(displayName)), Trim(old(email)), old(password))]
          && notice == RegisterNotice(RegisterOutcome(reply))
          && store.userData == AfterAuth(old(store.userData), reply)
          && State() == old(State()).(loading := false))
    {
      var v := RegisterValidation(displayName, email, password, confirmPassword);
      if v.Some? {
        return Notice(ErrorTitle, v.value), [];
      }
      loading := true;
      var outcome, call := store.Register(Trim(displayName), Trim(email), password, reply);
      calls := [call];
      notice := RegisterNotice(outcome);
      loading := false;
    }
  }

  datatype LoginState = LoginState(email: String, password: String, loading: bool)

  class LoginPage {
    /** The device store the session lives in. */
    const store: Store

    var email: String
    var password: String
    var loading: bool

    function State(): LoginState
      reads this
    {
      LoginState(email, password, loading)
    }

    constructor(store: Store)
      ensures this.store == store
      ensures State() == LoginState("", "", false)
    {
      this.store := store;
      email, password := "", "";
      loading := false;
    }

    /** `handleLogin`: blank fields only alert; otherwise one request with
        the trimmed e-mail and the password as typed. */
    method HandleLogin(reply: Reply<Option<Account>>) returns (notice: Notice, calls: seq<Call>)
      modifies this, store
      ensures var v := LoginValidation(old(email), old(password));
        (v.Some? ==>
          notice == Notice(ErrorTitle, FillAllMessage) && calls == []
          && State() == old(State()) && store.userData == old(store.userData))
        && (v.None? ==>
          calls == [PostLogin(Trim(old(email)), old(password))]
          && notice == LoginNotice(LoginOutcome(reply))
          && store.userData == AfterAuth(old(store.userData), reply)
          && State() == old(State()).(loading := false))
    {
      if LoginValidation(email, password).Some? {
        return Notice(ErrorTitle, FillAllMessage), [];
      }
      loading := true;
      var outcome, call := store.Login(Trim(email), password, reply);
      calls := [call];
      notice := LoginNotice(outcome);
      loading := false;
    }
  }
}
