/** Small concepts that several models share. */
module Common {
  datatype Option<T> = None | Some(value: T)

  type byte = x: int | 0 <= x < 256

  ghost predicate NoDup(s: seq<nat>) {
    forall i, j :: 0 <= i < j < |s| ==> s[i] != s[j]
  }

  /** b' differs from b only in b[at..at+n]. */
  ghost predicate SameOutside(b: seq<byte>, b': seq<byte>, at: nat, n: nat) {
    |b'| == |b| && forall k :: 0 <= k < |b| && !(at <= k < at + n) ==> b'[k] == b[k]
  }
}
