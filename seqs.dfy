/**
 * Small facts about sequence slicing and concatenation, stated once for any
 * element type so that the proofs using them need not rediscover them.
 */
module Seqs {

  /** A list is what comes before position `c`, the element at `c`, and what
      comes after it. */
  lemma SplitAround<T>(xs: seq<T>, c: nat)
    requires c < |xs|
    ensures xs == xs[..c] + ([xs[c]] + xs[c + 1..])
  {
    assert xs == xs[..c] + ([xs[c]] + xs[c + 1..]);
  }

  /** A prefix of `a + b` no longer than `a` is a prefix of `a`. */
  lemma TakeShort<T>(a: seq<T>, b: seq<T>, k: nat)
    requires k <= |a|
    ensures (a + b)[..k] == a[..k]
  {
    assert (a + b)[..k] == a[..k];
  }

  /** A prefix of `a + b` at least as long as `a` is `a` and a prefix of `b`. */
  lemma TakeLong<T>(a: seq<T>, b: seq<T>, j: nat)
    requires j <= |b|
    ensures (a + b)[..|a| + j] == a + b[..j]
  {
    assert (a + b)[..|a| + j] == a + b[..j];
  }

  /** Dropping the head of `a + b`, for non-empty `a`. */
  lemma DropHead<T>(a: seq<T>, b: seq<T>)
    requires a != []
    ensures (a + b)[0] == a[0] && (a + b)[1..] == a[1..] + b
  {
    assert (a + b)[1..] == a[1..] + b;
  }

  /** The whole of a list, and the empty list on either side. */
  lemma Whole<T>(a: seq<T>)
    ensures a[..|a|] == a && a + [] == a && [] + a == a
  {
    assert a[..|a|] == a;
    assert a + [] == a;
    assert [] + a == a;
  }

  /** Concatenation regroups freely. */
  lemma AppendAssoc<T>(a: seq<T>, b: seq<T>, c: seq<T>)
    ensures (a + b) + c == a + (b + c)
  {
  }

  /** A list is a prefix of itself followed by anything. */
  lemma Prefix<T>(a: seq<T>, b: seq<T>)
    ensures a <= a + b
  {
  }

  /** Cutting a list at `k` and joining the pieces gives it back. */
  lemma TakeDrop<T>(a: seq<T>, k: nat)
    requires k <= |a|
    ensures a[..k] + a[k..] == a
  {
    assert a[..k] + a[k..] == a;
  }

  /** A one-element list has nothing after its head. */
  lemma Single<T>(x: T)
    ensures [x][0] == x && [x][1..] == [] && [x][..0] == []
  {
    assert [x][1..] == [];
  }

  /** Dropping the last element of `a + [x]` gives back `a`. */
  lemma DropLast<T>(a: seq<T>, x: T)
    ensures (a + [x])[..|a + [x]| - 1] == a
  {
    assert (a + [x])[..|a + [x]| - 1] == a;
  }
}
