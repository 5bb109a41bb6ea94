/**
 * The registry's application services: function registration (safety
 * check, artifact upload, access key issue), the access-key check the
 * invoker asks for, user signup and login, and the HTTP answers the
 * registry gives for signup and login failures.  Randomness (fresh ids),
 * the MAC, the password hasher, the Java parser and the blob store's
 * availability are inputs of the model.
 */
module RegistryServices {
  import opened Common
  import opened Uuids
  import opened Registries
  import opened Encoding
  import opened CodeCheck
  import opened RegistryDomain

  // ---------------------------------------------------------------------
  // FunctionAuthService
  // ---------------------------------------------------------------------

  /** The verdict returned to the invoker: a key only with a positive verdict. */
  datatype AuthVerdict = AuthVerdict(isValid: bool, s3Key: Option<string>)

  /**
   * authFunction: with the FUNCTION_KEY encoder, the caller's key must
   * encode to the stored one; an unknown function is refused the same way
   * as a wrong key.  Nothing is written.
   */
  function AuthFunction(mac: Mac, encoders: map<EncodeType, HmacEncoder>, functions: map<Uuid, FunctionRow>,
                        functionId: Uuid, accessKey: string): (r: Result<AuthVerdict, string>)
    ensures r.Err? <==> FunctionKey !in encoders
    ensures r.Ok? ==> (r.value.s3Key.Some? <==> r.value.isValid)
    ensures r.Ok? ==> (r.value.isValid <==>
                         functionId in functions && Matches(mac, encoders[FunctionKey], accessKey, functions[functionId].accessKey))
    ensures r.Ok? && r.value.isValid ==> r.value.s3Key == Some(functions[functionId].s3Key)
  {
    match GetEncoder(encoders, FunctionKey)
    case Err(e) => Err(e)
    case Ok(encoder) =>
      if functionId !in functions then Ok(AuthVerdict(false, None))
      else
        var f := functions[functionId];
        var isValid := Matches(mac, encoder, accessKey, f.accessKey);
        Ok(AuthVerdict(isValid, if isValid then Some(f.s3Key) else None))
  }

  // ---------------------------------------------------------------------
  // FunctionRegisterService
  // ---------------------------------------------------------------------

  /** "functions/<userId>/<functionId>.zip". */
  function S3Key(userId: Uuid, functionId: Uuid): string {
    "functions/" + ToString(userId) + "/" + ToString(functionId) + ".zip"
  }

  /** The key names the owner and the function: distinct (owner, function) pairs never share an artifact. */
  lemma S3KeyInjective(u1: Uuid, f1: Uuid, u2: Uuid, f2: Uuid)
    requires S3Key(u1, f1) == S3Key(u2, f2)
    ensures u1 == u2 && f1 == f2
  {
    var k1, k2 := S3Key(u1, f1), S3Key(u2, f2);
    assert k1[10..46] == ToString(u1) && k2[10..46] == ToString(u2);
    assert k1[47..83] == ToString(f1) && k2[47..83] == ToString(f2);
    ToStringInjective(u1, u2);
    ToStringInjective(f1, f2);
  }

  /** getFileNameByRuntime, on the runtime's enum name. */
  function FileNameByRuntime(name: string): (r: Result<string, string>)
    ensures r.Ok? <==> StartsWith(name, "PYTHON") || StartsWith(name, "JAVA") || StartsWith(name, "NODE")
    ensures r.Err? ==> r.error == "Unknown runtime type: " + name
  {
    if StartsWith(name, "PYTHON") then Ok("main.py")
    else if StartsWith(name, "JAVA") then Ok("Main.java")
    else if StartsWith(name, "NODE") then Ok("index.js")
    else Err("Unknown runtime type: " + name)
  }

  /** Every runtime has a code file, chosen by its language family. */
  lemma FileNameOfRuntime(r: Runtime)
    ensures FileNameByRuntime(RuntimeName(r)) ==
              Ok(match LanguageOf(r) case PythonCode => "main.py" case JavaCode => "Main.java" case NodeCode => "index.js")
  {
    var name := RuntimeName(r);
    match LanguageOf(r)
    case PythonCode =>
      assert name[..6] == "PYTHON";
    case JavaCode =>
      assert name[..4] == "JAVA";
      assert !StartsWith(name, "PYTHON") by { assert name[0] == 'J'; }
    case NodeCode =>
      assert name[..4] == "NODE";
      assert !StartsWith(name, "PYTHON") && !StartsWith(name, "JAVA") by { assert name[0] == 'N'; }
  }

  /** The content of one zip entry: the JSON manifest, or UTF-8 text. */
  datatype EntryData = ManifestJson(runtime: Runtime, env: Option<map<string, string>>) | Utf8Text(text: string)

  datatype ZipEntry = ZipEntry(name: string, data: EntryData)

  /**
   * createZipArtifact: config.json (runtime and environment) first, then the
   * code file.  A failure inside, such as a null code string, becomes
   * "Failed to create zip artifact".
   */
  function ZipArtifact(runtime: Runtime, env: Option<map<string, string>>, code: Option<string>): (r: Result<seq<ZipEntry>, string>)
    ensures r.Ok? <==> code.Some?
    ensures r.Err? ==> r.error == "Failed to create zip artifact"
    ensures r.Ok? ==> |r.value| == 2
                      && r.value[0] == ZipEntry("config.json", ManifestJson(runtime, env))
                      && r.value[1].data == Utf8Text(code.value)
                      && FileNameByRuntime(RuntimeName(runtime)) == Ok(r.value[1].name)
  {
    FileNameOfRuntime(runtime);
    match FileNameByRuntime(RuntimeName(runtime))
    case Err(_) => Err("Failed to create zip artifact")
    case Ok(fileName) =>
      if code.None? then Err("Failed to create zip artifact")
      else Ok([ZipEntry("config.json", ManifestJson(runtime, env)), ZipEntry(fileName, Utf8Text(code.value))])
  }

  datatype RegisterCommand = RegisterCommand(
    userId: Uuid, functionName: string, description: string, runtime: Runtime,
    codeContent: Option<string>, envVars: Option<map<string, string>>)

  /** The exceptions register raises. */
  datatype RegisterError =
    | Unsupported(message: string)     // IllegalArgumentException from a factory
    | MaliciousCode                    // IllegalArgumentException("Malicious code detected.")
    | ArtifactFailed(message: string)  // RuntimeException from createZipArtifact
    | UploadFailed                     // the blob store's exception

  /** What register returns: the new function's id and the plaintext access key. */
  datatype Registered = Registered(functionId: Uuid, accessKey: string)

  /** isSafe of the checker the registry found. */
  method CheckerIsSafe(checker: Language, code: Option<string>, parse: JavaParse) returns (safe: bool)
    ensures checker == PythonCode ==> safe == PythonIsSafe(code)
    ensures checker == NodeCode ==> safe == NodeIsSafe(code)
    ensures checker == JavaCode ==> safe == JavaVerdict(code, parse)
    ensures safe == CheckerSafe(checker, code, parse)
    ensures code.None? ==> safe
  {
    match checker
    case PythonCode => safe := PythonIsSafe(code);
    case NodeCode => safe := NodeIsSafe(code);
    case JavaCode => safe := JavaIsSafe(code, parse);
  }

  /** FunctionRegisterService over the functions table and the artifact bucket. */
  class FunctionRegisterService {
    var functions: map<Uuid, FunctionRow>
    var bucket: map<string, seq<ZipEntry>>

    constructor (functions: map<Uuid, FunctionRow>, bucket: map<string, seq<ZipEntry>>)
      ensures this.functions == functions && this.bucket == bucket
    {
      this.functions := functions;
      this.bucket := bucket;
    }

    /**
     * register: the checker and the FUNCTION_KEY encoder are looked up, the
     * code is judged, then the artifact is built and uploaded under the
     * new function's key, and only then is the function saved, with the
     * encoding of the access key; the plaintext key is returned.
     */
    method Register(mac: Mac, checkers: map<Runtime, Language>, encoders: map<EncodeType, HmacEncoder>,
                    parse: JavaParse, uploadFails: bool, freshFunctionId: Uuid, freshKeyId: Uuid,
                    command: RegisterCommand) returns (r: Result<Registered, RegisterError>)
      modifies this
      ensures command.runtime !in checkers ==> r == Err(Unsupported("unsupported type: " + RuntimeName(command.runtime)))
      ensures command.runtime in checkers && FunctionKey !in encoders ==> r == Err(Unsupported("unsupported type: FUNCTION_KEY"))
      ensures (command.runtime in checkers && FunctionKey in encoders
               && !CheckerSafe(checkers[command.runtime], command.codeContent, parse)) ==> r == Err(MaliciousCode)
      ensures r == Err(MaliciousCode) ==> !CheckerSafe(checkers[command.runtime], command.codeContent, parse)
      ensures r.Err? && r.error.ArtifactFailed? <==>
                command.runtime in checkers && FunctionKey in encoders && command.codeContent.None?
      ensures r.Err? && r.error.ArtifactFailed? ==> r.error.message == "Failed to create zip artifact"
      ensures r == Err(UploadFailed) <==>
                command.runtime in checkers && FunctionKey in encoders
                && CheckerSafe(checkers[command.runtime], command.codeContent, parse)
                && command.codeContent.Some? && uploadFails
      ensures r.Ok? <==>
                command.runtime in checkers && FunctionKey in encoders
                && CheckerSafe(checkers[command.runtime], command.codeContent, parse)
                && command.codeContent.Some? && !uploadFails
      ensures r.Err? ==> functions == old(functions)
      ensures r.Err? && r.error != UploadFailed ==> bucket == old(bucket)
      ensures r == Err(UploadFailed) ==> uploadFails && bucket == old(bucket)
      ensures r.Ok? ==>
                var key := S3Key(command.userId, freshFunctionId);
                var plain := RemoveAll(ToString(freshKeyId), "-");
                && command.runtime in checkers && FunctionKey in encoders && !uploadFails
                && CheckerSafe(checkers[command.runtime], command.codeContent, parse)
                && r.value == Registered(freshFunctionId, plain)
                && key in bucket
                && ZipArtifact(command.runtime, command.envVars, command.codeContent) == Ok(bucket[key])
                && bucket == old(bucket)[key := bucket[key]]
                && functions == old(functions)[freshFunctionId := FunctionRow(
                     freshFunctionId, UserReference(command.userId), Encode(mac, encoders[FunctionKey], plain),
                     command.functionName, command.description, DEFAULT_TIMEOUT, command.runtime, key)]
    {
      var checker := GetChecker(checkers, command.runtime);
      if checker.Err? {
        return Err(Unsupported(checker.error));
      }
      var encoder := GetEncoder(encoders, FunctionKey);
      if encoder.Err? {
        assert "unsupported type: " + EncodeTypeName(FunctionKey) == "unsupported type: FUNCTION_KEY";
        return Err(Unsupported(encoder.error));
      }
      var safe := CheckerIsSafe(checker.value, command.codeContent, parse);
      if !safe {
        return Err(MaliciousCode);
      }
      var functionId := freshFunctionId;
      var s3Key := S3Key(command.userId, functionId);
      var zip := ZipArtifact(command.runtime, command.envVars, command.codeContent);
      if zip.Err? {
        return Err(ArtifactFailed(zip.error));
      }
      if uploadFails {
        return Err(UploadFailed);
      }
      bucket := bucket[s3Key := zip.value];
      var accessKey := RemoveAll(ToString(freshKeyId), "-");
      // The builder never sets a timeout, so the constructor sees Java's default 0.
      var entity := new FunctionEntity(functionId, command.userId, Encode(mac, encoder.value, accessKey),
                                         command.functionName, command.description, 0, command.runtime, s3Key);
      functions := functions[functionId := entity.Row()];
      r := Ok(Registered(functionId, accessKey));
    }
  }

  /**
   * The key register hands out authenticates the function it registered,
   * and the verdict carries the key of the uploaded artifact; any other key
   * whose encoding differs is refused.
   */
  lemma RegisteredKeyAuthenticates(mac: Mac, encoders: map<EncodeType, HmacEncoder>, functions: map<Uuid, FunctionRow>,
                                   functionId: Uuid, accessKey: string, other: string)
    requires FunctionKey in encoders && functionId in functions
    requires functions[functionId].accessKey == Encode(mac, encoders[FunctionKey], accessKey)
    ensures AuthFunction(mac, encoders, functions, functionId, accessKey) == Ok(AuthVerdict(true, Some(functions[functionId].s3Key)))
    ensures Encode(mac, encoders[FunctionKey], other) != Encode(mac, encoders[FunctionKey], accessKey) ==>
              AuthFunction(mac, encoders, functions, functionId, other) == Ok(AuthVerdict(false, None))
  {
  }

  /** A newly registered function always gets the default timeout of 300 seconds. */
  lemma RegisteredTimeoutIsDefault()
    ensures NormaliseTimeout(0) == DEFAULT_TIMEOUT
  {
  }

  // ---------------------------------------------------------------------
  // Login (UserAuthService, AuthService)
  // ---------------------------------------------------------------------

  /** How a login ends. */
  datatype LoginOutcome =
    | IssueTokens(user: User)              // tokenService.issueToken(user)
    | LoginFailed(status: Option<Status>)  // LoginFailedException
    | UserCompromised                      // UserCompromisedException
    | NullStatus                           // the switch on a null status
    | EncoderUnsupported(message: string)  // the factory has no PASSWORD encoder

  /** A password check against the stored (possibly null) hash. */
  type PasswordCheck = (string, Option<string>) -> bool

  /** The decision both login services share: look up, check the password, then switch on the status. */
  function LoginWith(users: map<string, User>, email: string, password: string, check: PasswordCheck): LoginOutcome {
    if email !in users then LoginFailed(None)
    else
      var user := users[email];
      if !check(password, user.password) then LoginFailed(None)
      else
        match user.status
        case None => NullStatus
        case Some(Active) => IssueTokens(user)
        case Some(PendingApproval) => LoginFailed(Some(PendingApproval))
        case Some(Compromised) => UserCompromised
  }

  /** UserAuthService.login: the PASSWORD encoder from the factory checks the password. */
  function UserAuthLogin(mac: Mac, encoders: map<EncodeType, HmacEncoder>, users: map<string, User>,
                         email: string, password: string): (o: LoginOutcome)
    ensures o.EncoderUnsupported? <==> Password !in encoders
    ensures o.EncoderUnsupported? ==> o.message == "unsupported type: PASSWORD"
    ensures o.IssueTokens? <==>
              Password in encoders && email in users && users[email].password.Some?
              && Matches(mac, encoders[Password], password, users[email].password.value)
              && users[email].status == Some(Active)
    ensures Password in encoders && email !in users ==> o == LoginFailed(None)
  {
    match GetEncoder(encoders, Password)
    case Err(e) => EncoderUnsupported(e)
    case Ok(encoder) => LoginWith(users, email, password, (d: string, h: Option<string>) => h.Some? && Matches(mac, encoder, d, h.value))
  }

  /** AuthService.login: a password hasher (bcrypt) checks the password; a null hash never matches. */
  function AuthLogin(hasherMatches: (string, string) -> bool, users: map<string, User>,
                     email: string, password: string): (o: LoginOutcome)
    ensures o.IssueTokens? <==>
              email in users && users[email].password.Some?
              && hasherMatches(password, users[email].password.value)
              && users[email].status == Some(Active)
    ensures email in users && users[email].password.None? ==> o == LoginFailed(None)
    ensures !o.EncoderUnsupported?
  {
    LoginWith(users, email, password, (d: string, h: Option<string>) => h.Some? && hasherMatches(d, h.value))
  }

  /**
   * The decision table: tokens only for an ACTIVE user with the right
   * password; a failure carries a status only for a PENDING_APPROVAL user
   * with the right password; COMPROMISED is its own exception.
   */
  lemma LoginDecisionTable(users: map<string, User>, email: string, password: string, check: PasswordCheck)
    ensures var o := LoginWith(users, email, password, check);
            && (o.IssueTokens? <==> email in users && check(password, users[email].password) && users[email].status == Some(Active))
            && (o.IssueTokens? ==> o.user == users[email])
            && (o == LoginFailed(None) <==> email !in users || !check(password, users[email].password))
            && (o.LoginFailed? && o.status.Some? <==>
                  email in users && check(password, users[email].password) && users[email].status == Some(PendingApproval))
            && (o.LoginFailed? && o.status.Some? ==> o.status == Some(PendingApproval))
            && (o == UserCompromised <==>
                  email in users && check(password, users[email].password) && users[email].status == Some(Compromised))
  {
  }

  /** A wrong password gives the same answer whatever the account's status: the status is never revealed. */
  lemma WrongPasswordHidesStatus(users: map<string, User>, email: string, password: string, check: PasswordCheck,
                                 s1: Option<Status>, s2: Option<Status>)
    requires email in users && !check(password, users[email].password)
    ensures LoginWith(users[email := users[email].(status := s1)], email, password, check) ==
            LoginWith(users[email := users[email].(status := s2)], email, password, check)
  {
  }

  /** Both login services take the same decision once their password checks agree. */
  lemma LoginServicesAgree(mac: Mac, encoders: map<EncodeType, HmacEncoder>, hasherMatches: (string, string) -> bool,
                           users: map<string, User>, email: string, password: string)
    requires Password in encoders
    requires forall d, h :: hasherMatches(d, h) == Matches(mac, encoders[Password], d, h)
    ensures UserAuthLogin(mac, encoders, users, email, password) == AuthLogin(hasherMatches, users, email, password)
  {
  }

  /** With only the system's encoders registered, UserAuthService cannot log anybody in. */
  lemma UserAuthNeedsPasswordEncoder(mac: Mac, functionSecret: string, tokenSecret: string,
                                     users: map<string, User>, email: string, password: string)
    ensures var registry := BuildEncoderRegistry(ShownEncoders(functionSecret, tokenSecret));
            && registry.Ok?
            && UserAuthLogin(mac, registry.value, users, email, password) == EncoderUnsupported("unsupported type: PASSWORD")
  {
    EncoderRegistryContents(functionSecret, tokenSecret);
  }

  // ---------------------------------------------------------------------
  // UserRegisterService
  // ---------------------------------------------------------------------

  datatype SignupError = SignupEncoderUnsupported(message: string) | EmailAlreadyExists

  /** UserRegisterService over the users table, keyed by the unique e-mail column. */
  class UserRegisterService {
    var users: map<string, User>

    constructor (users: map<string, User>)
      ensures this.users == users
    {
      this.users := users;
    }

    /**
     * register: a taken e-mail is refused and nothing is saved; otherwise
     * exactly one user is saved, through the signup constructor, with the
     * PASSWORD encoding of the password.
     */
    method Register(mac: Mac, encoders: map<EncodeType, HmacEncoder>, email: string, password: string, freshId: Uuid)
      returns (r: Result<(), SignupError>)
      modifies this
      ensures Password !in encoders ==> r == Err(SignupEncoderUnsupported("unsupported type: PASSWORD"))
      ensures Password in encoders && email in old(users) ==> r == Err(EmailAlreadyExists)
      ensures r.Err? ==> users == old(users)
      ensures r.Ok? <==> Password in encoders && email !in old(users)
      ensures r.Ok? ==> users == old(users)[email := SignupUser(freshId, email, Encode(mac, encoders[Password], password))]
    {
      var encoder := GetEncoder(encoders, Password);
      if encoder.Err? {
        assert "unsupported type: " + EncodeTypeName(Password) == "unsupported type: PASSWORD";
        return Err(SignupEncoderUnsupported(encoder.error));
      }
      if email in users {
        return Err(EmailAlreadyExists);
      }
      var user := SignupUser(freshId, email, Encode(mac, encoder.value, password));
      users := users[email := user];
      r := Ok(());
    }
  }

  /** Right after signup, the right password meets the pending status and the wrong one a plain failure. */
  lemma SignupThenLogin(mac: Mac, encoders: map<EncodeType, HmacEncoder>, users: map<string, User>,
                        email: string, password: string, other: string, freshId: Uuid)
    requires Password in encoders
    ensures var after := users[email := SignupUser(freshId, email, Encode(mac, encoders[Password], password))];
            && UserAuthLogin(mac, encoders, after, email, password) == LoginFailed(Some(PendingApproval))
            && (Encode(mac, encoders[Password], other) != Encode(mac, encoders[Password], password) ==>
                  UserAuthLogin(mac, encoders, after, email, other) == LoginFailed(None))
  {
  }

  // ---------------------------------------------------------------------
  // GlobalExceptionHandler
  // ---------------------------------------------------------------------

  /** The exceptions the registry's handler answers. */
  datatype HandledException = EmailTaken | LoginFailure(status: Option<Status>)

  datatype ErrorBody = ErrorBody(code: string, message: string)

  datatype HttpResponse = HttpResponse(status: int, body: Option<ErrorBody>)

  /** The handler's answer for each exception. */
  function Handle(e: HandledException): HttpResponse {
    match e
    case EmailTaken => HttpResponse(409, None)
    case LoginFailure(None) => HttpResponse(401, Some(ErrorBody("LOGIN_FAILED", "아이디 또는 비밀번호가 올바르지 않습니다.")))
    case LoginFailure(Some(PendingApproval)) => HttpResponse(403, Some(ErrorBody("ACCOUNT_PENDING", "관리자 승인 대기 중인 계정입니다.")))
    case LoginFailure(Some(Compromised)) => HttpResponse(423, Some(ErrorBody("ACCOUNT_LOCKED", "보안 문제로 잠긴 계정입니다.")))
    case LoginFailure(Some(Active)) => HttpResponse(401, Some(ErrorBody("LOGIN_FAILED", "로그인 처리에 실패했습니다.")))
  }

  /**
   * What a client sees: a duplicate e-mail is a bare 409; a failed login
   * is 401 LOGIN_FAILED unless the account is pending (403) or locked
   * (423); every login failure has a body.
   */
  lemma HandlerStatuses(e: HandledException)
    ensures Handle(e).status == 409 <==> e == EmailTaken
    ensures Handle(e).body.None? <==> e == EmailTaken
    ensures Handle(e).status == 403 <==> e == LoginFailure(Some(PendingApproval))
    ensures Handle(e).status == 423 <==> e == LoginFailure(Some(Compromised))
    ensures e.LoginFailure? && Handle(e).status == 401 ==> Handle(e).body.value.code == "LOGIN_FAILED"
    ensures Handle(e).status in {401, 403, 409, 423}
  {
  }

  /**
   * End to end: a fresh signup that logs in with the right password is
   * told 403 ACCOUNT_PENDING; with a wrong password, 401 LOGIN_FAILED.
   */
  lemma PendingSignupAnswered(mac: Mac, encoders: map<EncodeType, HmacEncoder>, users: map<string, User>,
                              email: string, password: string, other: string, freshId: Uuid)
    requires Password in encoders
    requires Encode(mac, encoders[Password], other) != Encode(mac, encoders[Password], password)
    ensures var after := users[email := SignupUser(freshId, email, Encode(mac, encoders[Password], password))];
            && UserAuthLogin(mac, encoders, after, email, password).LoginFailed?
            && Handle(LoginFailure(UserAuthLogin(mac, encoders, after, email, password).status)).status == 403
            && Handle(LoginFailure(UserAuthLogin(mac, encoders, after, email, password).status)).body.value.code == "ACCOUNT_PENDING"
            && UserAuthLogin(mac, encoders, after, email, other).LoginFailed?
            && Handle(LoginFailure(UserAuthLogin(mac, encoders, after, email, other).status)).status == 401
  {
    SignupThenLogin(mac, encoders, users, email, password, other, freshId);
  }
}
