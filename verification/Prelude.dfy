/** Vocabulary shared by the models: byte strings, digests, hash functions and options. */
module Prelude {

  datatype Option<+T> = None | Some(value: T)

  /** Contents are strings; one char stands for one byte. */
  type Bytes = string

  /** A recorded hash: "" when there is none; every char is a byte. */
  type Hash = d: Bytes | forall i :: 0 <= i < |d| ==> d[i] as int < 256

  /** What a hash function returns: never empty. */
  type Digest = d: Hash | d != "" witness "0"

  /** The two hash functions, left uninterpreted: every theorem holds for any pair. */
  datatype Hasher = Hasher(md5: Bytes -> Digest, sha256: Bytes -> Digest)

  predicate HasPrefix(s: string, p: string) {
    |p| <= |s| && s[..|p|] == p
  }

  function TrimPrefix(s: string, p: string): string {
    if HasPrefix(s, p) then s[|p|..] else s
  }

  function TrimSuffix(s: string, suffix: string): string {
    if |suffix| <= |s| && s[|s| - |suffix|..] == suffix then s[..|s| - |suffix|] else s
  }

  predicate Distinct<T(==)>(s: seq<T>) {
    forall i, j :: 0 <= i < j < |s| ==> s[i] != s[j]
  }

  /** `order` lists the elements of `keys` once each: one way a map can be ranged over. */
  ghost predicate IsOrder<T(!new)>(order: seq<T>, keys: set<T>) {
    Distinct(order) && forall k :: k in keys <==> k in order
  }
}
