/** The domain records shared by the storage, the token issuer and the
    service. */
module Models {

  /** A Go byte. */
  type byte = x: int | 0 <= x < 256

  /** models.User as the storage scans it: id, email, password hash and
      salt. */
  datatype User = User(id: int, email: string, passwordHash: seq<byte>, passwordSalt: seq<byte>)

  /** models.App: an application with its PEM-encoded RSA key pair. */
  datatype App = App(id: int, name: string, privateKey: string, publicKey: string)
}
