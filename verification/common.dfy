/** Small shared vocabulary: an optional value, distinctness of a sequence, and regrouping of concatenations. */
module Common {

  /** A value that may be absent; `None` stands for JavaScript's `undefined` or a falsy field. */
  datatype Option<+T> = None | Some(value: T)

  /** No element of `xs` occurs twice. */
  predicate Distinct<T(==)>(xs: seq<T>) {
    forall i, j :: 0 <= i < j < |xs| ==> xs[i] != xs[j]
  }

  /** Concatenation regroups freely; stated once so that large proofs need not rediscover it. */
  lemma AppendAssoc<T>(a: seq<T>, b: seq<T>, c: seq<T>)
    ensures (a + b) + c == a + (b + c)
  {
  }

  /** Dropping a prefix of the left part of a concatenation drops it from that part alone. */
  lemma DropConcat<T>(a: seq<T>, b: seq<T>, n: nat)
    requires n <= |a|
    ensures (a + b)[n..] == a[n..] + b
  {
  }
}
