/** Bytes and their SHA-256 digests. */
module Digests {
  type Byte = b: int | 0 <= b < 256

  type Content = seq<Byte>

  /** SHA-256 as an injective function: a constructor. `Unmatched` is a digest nothing hashes to. */
  datatype Digest = Sha256(of: Content) | Unmatched(hex: string)

  /** A hash as text: its digest, and how its hex letters are cased. Rows and files are keyed by the text,
      uploads are verified against the digest. */
  datatype Hash = Hash(digest: Digest, spelling: string)
}
