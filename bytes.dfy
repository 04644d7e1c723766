/** Bytes and the SHA-256 digest, which the browser computes with `crypto.subtle.digest`. */
module Bytes {

  type Byte = b: int | 0 <= b < 256

  /** The digest length of SHA-256, in bytes. */
  const DigestLength: nat := 32

  /**
   * SHA-256 is a foreign call, so it is modelled as an arbitrary total function
   * whose every output is 32 bytes long. Nothing else is assumed about it.
   */
  type Sha256 = h: seq<Byte> -> seq<Byte> | forall b :: |h(b)| == DigestLength
    witness (b: seq<Byte>) => seq(DigestLength, _ => 0)

  /**
   * Collision resistance, stated for one pair of inputs: distinct inputs get
   * distinct digests. (A hash that never collides cannot exist, since its
   * outputs are finitely many; a pair-wise assumption is what the lemmas need.)
   */
  predicate NoCollision(h: Sha256, a: seq<Byte>, b: seq<Byte>) {
    a != b ==> h(a) != h(b)
  }

  /** A browser `File`: its name and its bytes (`file.size` is their number). */
  datatype File = File(name: string, content: seq<Byte>)
}
