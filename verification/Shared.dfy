/** Notions that several parts share. */
module Shared {

  datatype Option<T> = None | Some(value: T)

  ghost predicate Distinct<K>(s: seq<K>) {
    forall i, j | 0 <= i < j < |s| :: s[i] != s[j]
  }

  predicate PowerOfTwo(n: nat) {
    n == 1 || (n > 1 && n % 2 == 0 && PowerOfTwo(n / 2))
  }
}
