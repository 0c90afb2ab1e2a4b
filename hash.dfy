/** Password hashing with Argon2id (internal/lib/hash/argon2.go).

    argon2.IDKey and crypto/rand are library code: IDKey is a parameter of
    type Kdf, and the random source is a parameter of type Entropy. */
module PasswordHash {
  import opened Errors
  import opened Models

  // Argon2id cost parameters and lengths, fixed for every password.
  const TimeCost := 1
  const MemoryCost := 64 * 1024
  const Parallelism := 4
  const KeyLength := 32
  const SaltLength := 16

  datatype PasswordData = PasswordData(hash: seq<byte>, salt: seq<byte>)

  /** argon2.IDKey(password, salt, time, memory, threads, keyLen); the
      conversion []byte(password) is part of the call. */
  type Kdf = (string, seq<byte>, nat, nat, nat, nat) -> seq<byte>

  /** What the Argon2 library promises at the costs this package uses:
      the derived key has KeyLength bytes, for any password and salt. */
  ghost predicate YieldsKeyLength(idKey: Kdf) {
    forall p, s :: |idKey(p, s, TimeCost, MemoryCost, Parallelism, KeyLength)| == KeyLength
  }

  /** The key derivation both operations run: IDKey with the fixed costs. */
  function Derive(idKey: Kdf, password: string, salt: seq<byte>): (h: seq<byte>)
    ensures YieldsKeyLength(idKey) ==> |h| == KeyLength
  {
    idKey(password, salt, TimeCost, MemoryCost, Parallelism, KeyLength)
  }

  /** crypto/rand's reader: an endless stream of bytes, or a failing read. */
  datatype Entropy = Stream(next: nat -> byte) | ReadFailure(err: Error)

  /** rand.Read on a fresh buffer of n bytes. */
  function RandRead(source: Entropy, n: nat): (r: Result<seq<byte>>)
    ensures r.Success? <==> source.Stream?
    ensures r.Success? ==> |r.value| == n
    ensures source.ReadFailure? ==> r == Failure(source.err)
  {
    match source
    case Stream(next) => Success(seq(n, i requires 0 <= i < n => next(i)))
    case ReadFailure(e) => Failure(e)
  }

  /** HashPassword: refuse the empty password, draw a salt, derive the hash. */
  function HashPassword(idKey: Kdf, rand: Entropy, password: string): (r: Result<PasswordData>)
    ensures password == "" ==> r == Failure(Opaque("password cannot be empty"))
    ensures password != "" && rand.ReadFailure? ==>
              r == Failure(Wrapped("failed to generate salt", rand.err))
    ensures r.Success? <==> password != "" && rand.Stream?
    ensures r.Success? ==> |r.value.salt| == SaltLength
    ensures r.Success? ==> r.value.hash == Derive(idKey, password, r.value.salt)
    ensures r.Success? && YieldsKeyLength(idKey) ==> |r.value.hash| == KeyLength
  {
    if password == "" then
      Failure(Opaque("password cannot be empty"))
    else
      match RandRead(rand, SaltLength)
      case Failure(e) => Failure(Wrapped("failed to generate salt", e))
      case Success(salt) => Success(PasswordData(Derive(idKey, password, salt), salt))
  }

  /** ComparePassword: None is Go's nil error, that is, the password matches. */
  function ComparePassword(idKey: Kdf, password: string, salt: seq<byte>, originalHash: seq<byte>): (r: Option<Error>)
    ensures |salt| != SaltLength ==>
              r == Some(Opaque("invalid salt length: expected 16, got " + Decimal(|salt|)))
    ensures |salt| == SaltLength && |originalHash| != KeyLength ==>
              r == Some(Opaque("invalid hash length: expected 32, got " + Decimal(|originalHash|)))
    ensures |salt| == SaltLength && |originalHash| == KeyLength && password == "" ==>
              r == Some(Opaque("password cannot be empty"))
    ensures r.None? <==>
              |salt| == SaltLength && |originalHash| == KeyLength && password != ""
              && originalHash == Derive(idKey, password, salt)
    ensures forall k :: r.Some? ==> !Is(r.value, k)
  {
    // the messages as %d formats the two lengths
    assert Decimal(SaltLength) == "16" && Decimal(KeyLength) == "32";
    assert "invalid salt length: expected " + "16" + ", got " == "invalid salt length: expected 16, got ";
    assert "invalid hash length: expected " + "32" + ", got " == "invalid hash length: expected 32, got ";
    if |salt| != SaltLength then
      Some(Opaque("invalid salt length: expected " + Decimal(SaltLength) + ", got " + Decimal(|salt|)))
    else if |originalHash| != KeyLength then
      Some(Opaque("invalid hash length: expected " + Decimal(KeyLength) + ", got " + Decimal(|originalHash|)))
    else if password == "" then
      Some(Opaque("password cannot be empty"))
    else if originalHash != Derive(idKey, password, salt) then
      Some(Opaque("passwords do not match"))
    else
      None
  }

  /** A password hashed by HashPassword is accepted by ComparePassword
      against the stored salt and hash. */
  lemma HashThenCompare(idKey: Kdf, rand: Entropy, password: string)
    requires YieldsKeyLength(idKey)
    requires password != "" && rand.Stream?
    ensures HashPassword(idKey, rand, password).Success?
    ensures var d := HashPassword(idKey, rand, password).value;
            ComparePassword(idKey, password, d.salt, d.hash) == None
  {
  }

  /** At most one stored hash accepts a given password and salt: any other
      hash, such as one with a changed byte, is rejected. */
  lemma TamperedHashRejected(idKey: Kdf, password: string, salt: seq<byte>, hash: seq<byte>, tampered: seq<byte>)
    requires ComparePassword(idKey, password, salt, hash) == None
    requires tampered != hash
    ensures ComparePassword(idKey, password, salt, tampered).Some?
  {
  }
}
