/** Optional values and results, as used for store lookups and validation. */
module Options {

  datatype Option<+T> = None | Some(value: T)

  /** A value or the reason it could not be produced. */
  datatype Result<+T, +E> = Success(value: T) | Failure(error: E)
}

/** Facts about prefixes of sequences that loops over a list use at each step. */
module Slices {

  /** The prefix one element longer is the prefix followed by that element. */
  lemma TakeSnoc<T>(s: seq<T>, k: nat)
    requires k < |s|
    ensures s[..k + 1] == s[..k] + [s[k]]
  {
  }

  /** Cutting the longer prefix back gives the shorter one. */
  lemma TakeTake<T>(s: seq<T>, k: nat)
    requires k < |s|
    ensures s[..k + 1][..k] == s[..k]
  {
  }

  /** The prefix as long as the sequence is the sequence. */
  lemma TakeAll<T>(s: seq<T>)
    ensures s[..|s|] == s
  {
  }
}
