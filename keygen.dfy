/** RSA key pairs in PEM text (internal/lib/keygen/rsa.go).

    The private key travels as PKCS#1 bytes (RFC 8017, appendix A.1.2) and
    the public key as SubjectPublicKeyInfo bytes (RFC 5280, section 4.1),
    each inside one PEM block (the textual envelope of RFC 7468). The PEM
    and x509 codecs and RSA key generation are library code, taken as
    parameters; only their encode/decode round trip is assumed, and only by
    the lemmas that need it. */
module KeyGen {
  import opened Errors
  import opened Models

  const GenerateOp := "lib.keygen.GenerateRSAKeyPair"
  const PrivateKeyLabel := "RSA PRIVATE KEY"
  const PublicKeyLabel := "PUBLIC KEY"

  datatype RsaPublicKey = RsaPublicKey(modulus: nat, exponent: nat)
  datatype RsaPrivateKey = RsaPrivateKey(publicKey: RsaPublicKey, privateExponent: nat, primes: seq<nat>)

  /** What x509.ParsePKIXPublicKey can hand back: an RSA key or a key of
      another algorithm. */
  datatype PublicKey = RsaKey(rsa: RsaPublicKey) | OtherKey(algorithm: string)

  /** pem.Block */
  datatype Block = Block(typ: string, headers: map<string, string>, bytes: seq<byte>)

  /** keygen.KeyPair: both keys as PEM text. */
  datatype KeyPair = KeyPair(privateKey: string, publicKey: string)

  /** encoding/pem and crypto/x509 as the key code calls them. pemDecode
      returns the first block and the text after it, or None when the text
      holds no block. */
  datatype Codecs = Codecs(
    pemDecode: string -> Option<(Block, string)>,
    pemEncode: Block -> string,
    parsePkcs1: seq<byte> -> Result<RsaPrivateKey>,
    marshalPkcs1: RsaPrivateKey -> seq<byte>,
    parsePkix: seq<byte> -> Result<PublicKey>,
    marshalPkix: PublicKey -> Result<seq<byte>>)

  /** The encode/decode round trip the libraries promise, on the inputs
      this package gives them: a PEM block with one of the two labels and no
      headers, encoded alone, decodes to itself with nothing left over; and for a key that generate
      returned (a valid key with at least two primes) the PKCS#1 and PKIX
      parsers invert the marshallers. */
  ghost predicate RoundTrips(c: Codecs, generate: int -> Result<RsaPrivateKey>) {
    && (forall b: Block :: b.headers == map[] && (b.typ == PrivateKeyLabel || b.typ == PublicKeyLabel) ==>
          c.pemDecode(c.pemEncode(b)) == Some((b, "")))
    && (forall bits :: generate(bits).Success? ==>
          c.parsePkcs1(c.marshalPkcs1(generate(bits).value)) == Success(generate(bits).value))
    && (forall bits :: generate(bits).Success? ==>
          var der := c.marshalPkix(RsaKey(generate(bits).value.publicKey));
          der.Success? ==> c.parsePkix(der.value) == Success(RsaKey(generate(bits).value.publicKey)))
  }

  /** The single PEM block of the text, or why there is none: no block at
      all, or bytes after the first one. This is the check both parsers
      share; it never looks at the block's type. */
  function SingleBlock(c: Codecs, pemKey: string, noBlock: string): (r: Result<Block>)
    ensures r.Success? <==> c.pemDecode(pemKey).Some? && c.pemDecode(pemKey).value.1 == ""
    ensures r.Success? ==> c.pemDecode(pemKey).value.0 == r.value
    ensures c.pemDecode(pemKey).None? ==>
              r == Failure(Opaque(noBlock))
    ensures c.pemDecode(pemKey).Some? && c.pemDecode(pemKey).value.1 != "" ==>
              r == Failure(Opaque("unexpected data after PEM block"))
  {
    match c.pemDecode(pemKey)
    case None => Failure(Opaque(noBlock))
    case Some((block, rest)) =>
      if |rest| > 0 then Failure(Opaque("unexpected data after PEM block")) else Success(block)
  }

  /** ParseRSAPrivateKey: exactly one PEM block holding PKCS#1 bytes. */
  function ParseRSAPrivateKey(c: Codecs, pemKey: string): (r: Result<RsaPrivateKey>)
    ensures c.pemDecode(pemKey).None? ==>
              r == Failure(Opaque("failed to parse PEM block containing the private key"))
    ensures c.pemDecode(pemKey).Some? && c.pemDecode(pemKey).value.1 != "" ==>
              r == Failure(Opaque("unexpected data after PEM block"))
    ensures c.pemDecode(pemKey).Some? && c.pemDecode(pemKey).value.1 == "" ==>
              var inner := c.parsePkcs1(c.pemDecode(pemKey).value.0.bytes);
              r == (if inner.Success? then inner else Failure(Wrapped("failed to parse private key", inner.error)))
  {
    match SingleBlock(c, pemKey, "failed to parse PEM block containing the private key")
    case Failure(e) => Failure(e)
    case Success(block) =>
      match c.parsePkcs1(block.bytes)
      case Failure(e) => Failure(Wrapped("failed to parse private key", e))
      case Success(key) => Success(key)
  }

  /** ParseRSAPublicKey: exactly one PEM block holding SubjectPublicKeyInfo
      bytes of an RSA key. */
  function ParseRSAPublicKey(c: Codecs, pemKey: string): (r: Result<RsaPublicKey>)
    ensures c.pemDecode(pemKey).None? ==>
              r == Failure(Opaque("failed to parse PEM block containing the public key"))
    ensures c.pemDecode(pemKey).Some? && c.pemDecode(pemKey).value.1 != "" ==>
              r == Failure(Opaque("unexpected data after PEM block"))
    ensures c.pemDecode(pemKey).Some? && c.pemDecode(pemKey).value.1 == "" ==>
              var inner := c.parsePkix(c.pemDecode(pemKey).value.0.bytes);
              && (inner.Failure? ==> r == Failure(Wrapped("failed to parse public key", inner.error)))
              && (inner.Success? && inner.value.OtherKey? ==> r == Failure(Opaque("not an RSA public key")))
              && (inner.Success? && inner.value.RsaKey? ==> r == Success(inner.value.rsa))
  {
    match SingleBlock(c, pemKey, "failed to parse PEM block containing the public key")
    case Failure(e) => Failure(e)
    case Success(block) =>
      match c.parsePkix(block.bytes)
      case Failure(e) => Failure(Wrapped("failed to parse public key", e))
      case Success(RsaKey(key)) => Success(key)
      case Success(OtherKey(_)) => Failure(Opaque("not an RSA public key"))
  }

  /** GenerateRSAKeyPair; generate stands for rsa.GenerateKey over
      crypto/rand. */
  function GenerateRSAKeyPair(c: Codecs, generate: int -> Result<RsaPrivateKey>, bits: int): (r: Result<KeyPair>)
    ensures generate(bits).Failure? ==> r == Failure(Wrapped(GenerateOp, generate(bits).error))
    ensures generate(bits).Success? && c.marshalPkix(RsaKey(generate(bits).value.publicKey)).Failure? ==>
              r == Failure(Wrapped(GenerateOp, c.marshalPkix(RsaKey(generate(bits).value.publicKey)).error))
    ensures r.Success? <==>
              generate(bits).Success? && c.marshalPkix(RsaKey(generate(bits).value.publicKey)).Success?
    ensures r.Success? && RoundTrips(c, generate) ==>
              var key := generate(bits).value;
              && c.pemDecode(r.value.privateKey) == Some((Block(PrivateKeyLabel, map[], c.marshalPkcs1(key)), ""))
              && c.pemDecode(r.value.publicKey)
                 == Some((Block(PublicKeyLabel, map[], c.marshalPkix(RsaKey(key.publicKey)).value), ""))
  {
    match generate(bits)
    case Failure(e) => Failure(Wrapped(GenerateOp, e))
    case Success(key) =>
      var privatePem := c.pemEncode(Block(PrivateKeyLabel, map[], c.marshalPkcs1(key)));
      match c.marshalPkix(RsaKey(key.publicKey))
      case Failure(e) => Failure(Wrapped(GenerateOp, e))
      case Success(der) => Success(KeyPair(privatePem, c.pemEncode(Block(PublicKeyLabel, map[], der))))
  }

  /** The private key text that GenerateRSAKeyPair emits parses back to the
      generated key. */
  lemma GeneratedPrivateKeyParses(c: Codecs, generate: int -> Result<RsaPrivateKey>, bits: int)
    requires RoundTrips(c, generate)
    requires GenerateRSAKeyPair(c, generate, bits).Success?
    ensures ParseRSAPrivateKey(c, GenerateRSAKeyPair(c, generate, bits).value.privateKey)
            == Success(generate(bits).value)
  {
    var key := generate(bits).value;
    assert c.parsePkcs1(c.marshalPkcs1(key)) == Success(key);
  }

  /** The public key text that GenerateRSAKeyPair emits parses back to the
      generated key's public half. */
  lemma GeneratedPublicKeyParses(c: Codecs, generate: int -> Result<RsaPrivateKey>, bits: int)
    requires RoundTrips(c, generate)
    requires GenerateRSAKeyPair(c, generate, bits).Success?
    ensures ParseRSAPublicKey(c, GenerateRSAKeyPair(c, generate, bits).value.publicKey)
            == Success(generate(bits).value.publicKey)
  {
    var key := generate(bits).value;
    var der := c.marshalPkix(RsaKey(key.publicKey)).value;
    assert c.parsePkix(der) == Success(RsaKey(key.publicKey));
  }

  /** Neither parser reads the block's type or headers: two texts that each
      hold a single block with the same bytes parse alike. */
  lemma ParsersIgnoreBlockType(c: Codecs, text1: string, text2: string)
    requires c.pemDecode(text1).Some? && c.pemDecode(text1).value.1 == ""
    requires c.pemDecode(text2).Some? && c.pemDecode(text2).value.1 == ""
    requires c.pemDecode(text1).value.0.bytes == c.pemDecode(text2).value.0.bytes
    ensures ParseRSAPrivateKey(c, text1) == ParseRSAPrivateKey(c, text2)
    ensures ParseRSAPublicKey(c, text1) == ParseRSAPublicKey(c, text2)
  {
  }
}
