/** Go's error values as the sso service uses them.

    A sentinel is a value made once with errors.New and recognised by
    identity; fmt.Errorf with %w wraps a cause under a text prefix; an error
    made by fmt.Errorf without %w, or handed back by a library, wraps nothing
    that the service can see. errors.Is walks the chain of wrapped causes. */
module Errors {

  datatype Option<+T> = None | Some(value: T)

  /** The sentinel error values of the repository, one constructor per
      distinct identity. */
  datatype Sentinel =
    | ErrInvalidCredentials   // auth.ErrInvalidCredentials (internal/services/auth/auth.go:15)
    | ErrInvalidAppID         // auth.ErrInvalidAppID, referenced by the gRPC handler only
    | ErrUserExists           // auth.ErrUserExists, referenced by the gRPC handler only
    | ErrUserNotFound         // auth.ErrUserNotFound, referenced by the gRPC handler only
    | StorageErrUserExists    // storage.ErrUserExists (internal/storage/storage.go:10)
    | StorageErrUserNotFound  // storage.ErrUserNotFound (internal/storage/storage.go:11)
    | StorageErrAppNotFound   // storage.ErrAppNotFound (internal/storage/storage.go:12)
    | DeadlineExceeded        // context.DeadlineExceeded

  datatype Error =
    | Sentinel(kind: Sentinel)
      /** fmt.Errorf("<prefix>: %w", cause) */
    | Wrapped(prefix: string, cause: Error)
      /** fmt.Errorf without %w, or an error value of a library */
    | Opaque(text: string)

  /** A Go function that returns a value or an error. */
  datatype Result<+T> = Success(value: T) | Failure(error: Error)

  /** errors.Unwrap */
  function Unwrap(err: Error): (r: Option<Error>)
    ensures r.Some? <==> err.Wrapped?
    ensures r.Some? ==> r.value < err
  {
    match err
    case Wrapped(_, cause) => Some(cause)
    case _ => None
  }

  /** The error followed by the errors reached by repeated Unwrap. */
  function Chain(err: Error): (c: seq<Error>)
    ensures |c| >= 1 && c[0] == err
    decreases err
  {
    match Unwrap(err)
    case None => [err]
    case Some(cause) => [err] + Chain(cause)
  }

  /** errors.Is(err, target) for a sentinel target: true iff the target
      sentinel itself occurs in the unwrap chain of err. */
  function Is(err: Error, target: Sentinel): (r: bool)
    ensures r <==> Sentinel(target) in Chain(err)
    decreases err
  {
    match err
    case Sentinel(k) => k == target
    case Wrapped(_, cause) => Is(cause, target)
    case Opaque(_) => false
  }

  /** The error obtained by wrapping err with each prefix in turn, the
      first prefix innermost: how an error travels up through the layers,
      each adding its operation name. */
  function WrapAll(err: Error, prefixes: seq<string>): Error
    decreases |prefixes|
  {
    if prefixes == [] then err
    else Wrapped(prefixes[|prefixes| - 1], WrapAll(err, prefixes[..|prefixes| - 1]))
  }

  /** Wrapping, however deep, keeps the identity of every sentinel in the
      chain and adds none. */
  lemma {:induction false} IsSurvivesWrapping(err: Error, prefixes: seq<string>, target: Sentinel)
    ensures Is(WrapAll(err, prefixes), target) <==> Is(err, target)
    decreases |prefixes|
  {
    if prefixes != [] {
      IsSurvivesWrapping(err, prefixes[..|prefixes| - 1], target);
    }
  }

  /** An unwrap chain ends in at most one sentinel, so no error is two
      sentinels at once. */
  lemma {:induction false} IsAtMostOne(err: Error, a: Sentinel, b: Sentinel)
    requires Is(err, a) && Is(err, b)
    ensures a == b
    decreases err
  {
    if err.Wrapped? {
      IsAtMostOne(err.cause, a, b);
    }
  }

  /** The number a string of decimal digits denotes, read left to right:
      an independent reading of what Decimal writes. */
  function DigitsValue(s: string): nat
    decreases |s|
  {
    if s == [] then 0
    else
      var d := s[|s| - 1];
      var digit := if '0' <= d <= '9' then (d as int) - ('0' as int) else 0;
      10 * DigitsValue(s[..|s| - 1]) + digit
  }

  /** The decimal text that fmt's %d prints for a non-negative integer:
      digits that spell n, with no leading zero. */
  function Decimal(n: nat): (s: string)
    ensures |s| >= 1
    ensures forall i :: 0 <= i < |s| ==> '0' <= s[i] <= '9'
    ensures DigitsValue(s) == n
    ensures s[0] != '0' || n == 0
    ensures n < 10 <==> |s| == 1
  {
    var digit := "0123456789"[n % 10];
    if n < 10 then [digit]
    else
      var p := Decimal(n / 10);
      assert (p + [digit])[..|p + [digit]| - 1] == p;
      p + [digit]
  }
}
