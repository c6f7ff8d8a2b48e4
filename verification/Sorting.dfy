/** sort.Slice of the Go standard library, as far as its callers rely on it. */
module Sorting {

  /** "Not after" is a total preorder. */
  ghost predicate StrictWeakOrder<T(!new)>(less: (T, T) -> bool) {
    && (forall a, b :: !(less(a, b) && less(b, a)))
    && (forall a, b, c :: less(a, c) ==> less(a, b) || less(b, c))
  }

  ghost predicate Ordered<T>(s: seq<T>, less: (T, T) -> bool) {
    forall i, j :: 0 <= i < j < |s| ==> !less(s[j], s[i])
  }

  ghost predicate NoDuplicates<T>(s: seq<T>) {
    forall i, j :: 0 <= i < j < |s| ==> s[i] != s[j]
  }

  function Insert<T>(x: T, s: seq<T>, i: nat): (r: seq<T>)
    requires i <= |s|
    ensures |r| == |s| + 1
    ensures forall k :: 0 <= k < |r| ==> r[k] == if k < i then s[k] else if k == i then x else s[k - 1]
    ensures multiset(r) == multiset(s) + multiset{x}
  {
    assert s == s[..i] + s[i..];
    s[..i] + [x] + s[i..]
  }

  lemma InsertOrdered<T(!new)>(x: T, s: seq<T>, i: nat, less: (T, T) -> bool)
    requires StrictWeakOrder(less) && Ordered(s, less) && i <= |s|
    requires i > 0 ==> !less(x, s[i - 1])
    requires i < |s| ==> !less(s[i], x)
    ensures Ordered(Insert(x, s, i), less)
  {
  }

  lemma InsertFresh<T>(s: seq<T>, k: nat, r: seq<T>, i: nat)
    requires k < |s| && i <= |r| && multiset(r) == multiset(s[..k])
    ensures multiset(Insert(s[k], r, i)) == multiset(s[..k + 1])
    ensures NoDuplicates(s) && NoDuplicates(r) ==> NoDuplicates(Insert(s[k], r, i))
  {
    assert s[..k + 1] == s[..k] + [s[k]];
    if NoDuplicates(s) {
      assert s[k] !in s[..k];
      forall j | 0 <= j < |r| ensures r[j] != s[k] {
        assert r[j] in multiset(r);
      }
    }
  }

  /** Puts x where it belongs in an ordered sequence. */
  method InsertSorted<T(!new)>(x: T, s: seq<T>, less: (T, T) -> bool) returns (ghost i: nat, r: seq<T>)
    requires StrictWeakOrder(less) && Ordered(s, less)
    ensures i <= |s| && r == Insert(x, s, i) && Ordered(r, less)
  {
    var k := |s|;
    while k > 0 && less(x, s[k - 1])
      invariant 0 <= k <= |s|
      invariant k < |s| ==> !less(s[k], x)
    {
      k := k - 1;
    }
    InsertOrdered(x, s, k, less);
    i, r := k, Insert(x, s, k);
  }

  method SortBy<T(!new)>(s: seq<T>, less: (T, T) -> bool) returns (r: seq<T>)
    requires StrictWeakOrder(less)
    ensures multiset(r) == multiset(s)
    ensures Ordered(r, less)
    ensures NoDuplicates(s) ==> NoDuplicates(r)
  {
    r := [];
    for k := 0 to |s|
      invariant multiset(r) == multiset(s[..k])
      invariant Ordered(r, less)
      invariant NoDuplicates(s) ==> NoDuplicates(r)
    {
      ghost var i, before := 0, r;
      i, r := InsertSorted(s[k], r, less);
      InsertFresh(s, k, before, i);
    }
    assert s[..|s|] == s;
  }
}
