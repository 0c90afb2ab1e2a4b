/** The gRPC handlers of the Auth service (internal/grpc/auth/auth.go).

    Each handler checks the request's fields in a fixed order, calls the
    service, and maps the service's error to a status code by the first
    sentinel it carries. The service is a parameter: a function from the
    request fields to Go's (value, error) pair. */
module GrpcAuth {
  import opened Errors

  /** The status codes the handlers use (google.golang.org/grpc/codes). */
  datatype Code = InvalidArgument | NotFound | AlreadyExists | DeadlineExceeded | Internal

  datatype Status = Status(code: Code, message: string)

  /** A handler's reply: the response message, or a status error. */
  datatype Reply<+T> = Ok(response: T) | Rejected(status: Status)

  datatype LoginRequest = LoginRequest(email: string, password: string, appId: int)
  datatype LoginResponse = LoginResponse(token: string)
  datatype RegisterRequest = RegisterRequest(email: string, password: string)
  datatype RegisterResponse = RegisterResponse(userId: int)
  datatype IsAdminRequest = IsAdminRequest(userId: int)
  datatype IsAdminResponse = IsAdminResponse(isAdmin: bool)

  const TimeoutStatus := Status(Code.DeadlineExceeded, "operation timeout")

  /** Login's error mapping: invalid credentials, then invalid app id, then
      an expired deadline, else internal. */
  function LoginErrorStatus(err: Error): (s: Status)
    ensures s.code == InvalidArgument <==> Is(err, ErrInvalidCredentials) || Is(err, ErrInvalidAppID)
    ensures s.code == Code.DeadlineExceeded <==>
              !Is(err, ErrInvalidCredentials) && !Is(err, ErrInvalidAppID) && Is(err, Errors.DeadlineExceeded)
    ensures s.code == Internal <==>
              !Is(err, ErrInvalidCredentials) && !Is(err, ErrInvalidAppID) && !Is(err, Errors.DeadlineExceeded)
    ensures Is(err, ErrInvalidCredentials) ==> s.message == "invalid credentials"
    ensures !Is(err, ErrInvalidCredentials) && Is(err, ErrInvalidAppID) ==> s.message == "invalid app id"
    ensures s.code == Internal ==> s.message == "failed to login"
    ensures s.code == Code.DeadlineExceeded ==> s == TimeoutStatus
  {
    if Is(err, ErrInvalidCredentials) then Status(InvalidArgument, "invalid credentials")
    else if Is(err, ErrInvalidAppID) then Status(InvalidArgument, "invalid app id")
    else if Is(err, Errors.DeadlineExceeded) then TimeoutStatus
    else Status(Internal, "failed to login")
  }

  /** serverAPI.Login */
  function Login(req: LoginRequest, login: (string, string, int) -> (string, Option<Error>)): (r: Reply<LoginResponse>)
    ensures req.email == "" ==> r == Rejected(Status(InvalidArgument, "email is required"))
    ensures req.email != "" && req.password == "" ==> r == Rejected(Status(InvalidArgument, "password is required"))
    ensures req.email != "" && req.password != "" && req.appId == 0 ==>
              r == Rejected(Status(InvalidArgument, "app_id is required"))
    ensures req.email != "" && req.password != "" && req.appId != 0 ==>
              var (token, err) := login(req.email, req.password, req.appId);
              && (err.None? ==> r == Ok(LoginResponse(token)))
              && (err.Some? ==> r == Rejected(LoginErrorStatus(err.value)))
  {
    if req.email == "" then Rejected(Status(InvalidArgument, "email is required"))
    else if req.password == "" then Rejected(Status(InvalidArgument, "password is required"))
    else if req.appId == 0 then Rejected(Status(InvalidArgument, "app_id is required"))
    else
      var (token, err) := login(req.email, req.password, req.appId);
      if err.Some? then Rejected(LoginErrorStatus(err.value)) else Ok(LoginResponse(token))
  }

  /** Register's error mapping: user exists, then an expired deadline, else
      internal. */
  function RegisterErrorStatus(err: Error): (s: Status)
    ensures s.code == AlreadyExists <==> Is(err, ErrUserExists)
    ensures s.code == Code.DeadlineExceeded <==> !Is(err, ErrUserExists) && Is(err, Errors.DeadlineExceeded)
    ensures s.code == Internal <==> !Is(err, ErrUserExists) && !Is(err, Errors.DeadlineExceeded)
    ensures s.code == AlreadyExists ==> s.message == "user already exists"
    ensures s.code == Internal ==> s.message == "failed to register user"
    ensures s.code == Code.DeadlineExceeded ==> s == TimeoutStatus
  {
    if Is(err, ErrUserExists) then Status(AlreadyExists, "user already exists")
    else if Is(err, Errors.DeadlineExceeded) then TimeoutStatus
    else Status(Internal, "failed to register user")
  }

  /** serverAPI.Register */
  function Register(req: RegisterRequest, register: (string, string) -> (int, Option<Error>)): (r: Reply<RegisterResponse>)
    ensures req.email == "" ==> r == Rejected(Status(InvalidArgument, "email is required"))
    ensures req.email != "" && req.password == "" ==> r == Rejected(Status(InvalidArgument, "password is required"))
    ensures req.email != "" && req.password != "" ==>
              var (userID, err) := register(req.email, req.password);
              && (err.None? ==> r == Ok(RegisterResponse(userID)))
              && (err.Some? ==> r == Rejected(RegisterErrorStatus(err.value)))
  {
    if req.email == "" then Rejected(Status(InvalidArgument, "email is required"))
    else if req.password == "" then Rejected(Status(InvalidArgument, "password is required"))
    else
      var (userID, err) := register(req.email, req.password);
      if err.Some? then Rejected(RegisterErrorStatus(err.value)) else Ok(RegisterResponse(userID))
  }

  /** IsAdmin's error mapping: user not found, then an expired deadline,
      else internal. */
  function IsAdminErrorStatus(err: Error): (s: Status)
    ensures s.code == NotFound <==> Is(err, ErrUserNotFound)
    ensures s.code == Code.DeadlineExceeded <==> !Is(err, ErrUserNotFound) && Is(err, Errors.DeadlineExceeded)
    ensures s.code == Internal <==> !Is(err, ErrUserNotFound) && !Is(err, Errors.DeadlineExceeded)
    ensures s.code == NotFound ==> s.message == "user not found"
    ensures s.code == Internal ==> s.message == "failed to check admin status"
    ensures s.code == Code.DeadlineExceeded ==> s == TimeoutStatus
  {
    if Is(err, ErrUserNotFound) then Status(NotFound, "user not found")
    else if Is(err, Errors.DeadlineExceeded) then TimeoutStatus
    else Status(Internal, "failed to check admin status")
  }

  /** serverAPI.IsAdmin */
  function IsAdmin(req: IsAdminRequest, isAdmin: int -> (bool, Option<Error>)): (r: Reply<IsAdminResponse>)
    ensures req.userId == 0 ==> r == Rejected(Status(InvalidArgument, "user_id is required"))
    ensures req.userId != 0 ==>
              var (flag, err) := isAdmin(req.userId);
              && (err.None? ==> r == Ok(IsAdminResponse(flag)))
              && (err.Some? ==> r == Rejected(IsAdminErrorStatus(err.value)))
  {
    if req.userId == 0 then Rejected(Status(InvalidArgument, "user_id is required"))
    else
      var (flag, err) := isAdmin(req.userId);
      if err.Some? then Rejected(IsAdminErrorStatus(err.value)) else Ok(IsAdminResponse(flag))
  }

  /** A rejected request never reaches the service: two services that
      differ in every answer produce the same reply to it. */
  lemma ValidationPrecedesService(req: LoginRequest, login1: (string, string, int) -> (string, Option<Error>),
                                  login2: (string, string, int) -> (string, Option<Error>))
    requires req.email == "" || req.password == "" || req.appId == 0
    ensures Login(req, login1) == Login(req, login2)
    ensures Login(req, login1).Rejected? && Login(req, login1).status.code == InvalidArgument
  {
  }

  /** A storage-level sentinel that reaches a handler unconverted, under
      any number of op-name prefixes, falls through to Internal in all
      three mappings. */
  lemma StorageSentinelsAreInternal(prefixes: seq<string>, k: Sentinel)
    requires k == StorageErrUserExists || k == StorageErrUserNotFound || k == StorageErrAppNotFound
    ensures LoginErrorStatus(WrapAll(Sentinel(k), prefixes)).code == Internal
    ensures RegisterErrorStatus(WrapAll(Sentinel(k), prefixes)).code == Internal
    ensures IsAdminErrorStatus(WrapAll(Sentinel(k), prefixes)).code == Internal
  {
    var err := WrapAll(Sentinel(k), prefixes);
    forall t: Sentinel ensures Is(err, t) <==> t == k {
      IsSurvivesWrapping(Sentinel(k), prefixes, t);
    }
  }
}
