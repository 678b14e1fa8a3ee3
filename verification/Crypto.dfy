/** SHA-256, Ed25519 and RFC 3339 as abstract operations with the laws the service relies on. */
module Crypto {
  import opened Wrappers
  import opened Base58
  import opened Multibase

  type SecretKey = seq<byte>

  datatype Suite = Suite(
    digest: string -> seq<byte>,
    publicKey: SecretKey -> PublicKey,
    sign: (SecretKey, seq<byte>) -> seq<byte>,
    verify: (PublicKey, seq<byte>, seq<byte>) -> bool)
  {
    /** What a signer signs verifies under the signer's key.  Nothing is assumed here about other
        keys or messages: fixed-length signatures and digests cannot exclude all of them. */
    ghost predicate Correct() {
      forall secret: SecretKey, message: seq<byte> :: verify(publicKey(secret), message, sign(secret, message))
    }
  }

  /** Times are seconds since the epoch. */
  datatype Clock = Clock(format: int -> string, parse: string -> Option<int>)
  {
    ghost predicate RoundTrips(t: int) {
      format(t) != "" && parse(format(t)) == Some(t)
    }
  }
}
