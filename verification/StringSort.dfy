/** Sorting strings byte by byte, as the standard library does. */
module StringSort {
  /** Not after, in byte order. */
  predicate NotAfter(a: string, b: string) {
    a == "" || (b != "" && (a[0] < b[0] || (a[0] == b[0] && NotAfter(a[1..], b[1..]))))
  }

  lemma {:induction false} OrderTotal(a: string, b: string)
    ensures NotAfter(a, b) || NotAfter(b, a)
    decreases |a|
  {
    if a != "" && b != "" {
      OrderTotal(a[1..], b[1..]);
    }
  }

  lemma {:induction false} OrderTransitive(a: string, b: string, c: string)
    requires NotAfter(a, b) && NotAfter(b, c)
    ensures NotAfter(a, c)
    decreases |a|
  {
    if a != "" && a[0] == b[0] == c[0] {
      OrderTransitive(a[1..], b[1..], c[1..]);
    }
  }

  /** The two agree up to `k`, and there the first ends or has the smaller byte. */
  predicate SmallerAt(a: string, b: string, k: nat) {
    k <= |a| && k <= |b| && a[..k] == b[..k] && (k == |a| || (k < |b| && a[k] < b[k]))
  }

  /** The order is that of the first byte in which two strings differ. */
  lemma {:induction false} NotAfterExactly(a: string, b: string)
    ensures NotAfter(a, b) <==> exists k: nat :: SmallerAt(a, b, k)
    decreases |a|
  {
    if a == "" {
      assert SmallerAt(a, b, 0);
    } else if b != "" && a[0] == b[0] {
      NotAfterExactly(a[1..], b[1..]);
      if k: nat :| SmallerAt(a[1..], b[1..], k) {
        assert a[..k + 1] == [a[0]] + a[1..][..k] && b[..k + 1] == [b[0]] + b[1..][..k];
        assert SmallerAt(a, b, k + 1);
      }
      if k: nat :| SmallerAt(a, b, k) {
        assert k > 0 && a[..k][1..] == a[1..][..k - 1] && b[..k][1..] == b[1..][..k - 1];
        assert SmallerAt(a[1..], b[1..], k - 1);
      }
    } else if b != "" {
      if a[0] < b[0] {
        assert SmallerAt(a, b, 0);
      }
      forall k: nat | SmallerAt(a, b, k) ensures a[0] < b[0] {
        assert k > 0 ==> a[..k][0] == b[..k][0];
      }
    }
  }

  predicate Sorted(xs: seq<string>) {
    forall i, j :: 0 <= i < j < |xs| ==> NotAfter(xs[i], xs[j])
  }

  function Insert(x: string, xs: seq<string>): seq<string> {
    if xs == [] then [x]
    else if NotAfter(x, xs[0]) then [x] + xs
    else [xs[0]] + Insert(x, xs[1..])
  }

  function SortStrings(xs: seq<string>): seq<string> {
    if xs == [] then [] else Insert(xs[0], SortStrings(xs[1..]))
  }

  lemma {:induction false} InsertPermutes(x: string, xs: seq<string>)
    ensures multiset(Insert(x, xs)) == multiset(xs) + multiset{x}
    decreases |xs|
  {
    if xs != [] {
      assert xs == [xs[0]] + xs[1..];
      InsertPermutes(x, xs[1..]);
    }
  }

  lemma SortedHead(x: string, xs: seq<string>)
    requires Sorted(xs) && (xs != [] ==> NotAfter(x, xs[0]))
    ensures Sorted([x] + xs)
  {
    var ys := [x] + xs;
    forall i, j | 0 <= i < j < |ys| ensures NotAfter(ys[i], ys[j]) {
      if i == 0 && j > 1 {
        OrderTransitive(x, xs[0], xs[j - 1]);
      }
    }
  }

  lemma {:induction false} InsertSorts(x: string, xs: seq<string>)
    requires Sorted(xs)
    ensures Sorted(Insert(x, xs)) && Insert(x, xs) != []
    ensures Insert(x, xs)[0] == x || (xs != [] && Insert(x, xs)[0] == xs[0])
    decreases |xs|
  {
    if xs != [] {
      if NotAfter(x, xs[0]) {
        SortedHead(x, xs);
      } else {
        OrderTotal(x, xs[0]);
        assert xs[1..] != [] ==> NotAfter(xs[0], xs[1..][0]);
        InsertSorts(x, xs[1..]);
        SortedHead(xs[0], Insert(x, xs[1..]));
      }
    }
  }

  /** The result is the same strings, in order. */
  lemma {:induction false} SortedPermutation(xs: seq<string>)
    ensures Sorted(SortStrings(xs)) && multiset(SortStrings(xs)) == multiset(xs)
    decreases |xs|
  {
    if xs != [] {
      assert xs == [xs[0]] + xs[1..];
      SortedPermutation(xs[1..]);
      InsertSorts(xs[0], SortStrings(xs[1..]));
      InsertPermutes(xs[0], SortStrings(xs[1..]));
    }
  }

  predicate Distinct(xs: seq<string>) {
    forall i, j :: 0 <= i < j < |xs| ==> xs[i] != xs[j]
  }

  lemma {:induction false} DistinctOnce(xs: seq<string>, x: string)
    requires Distinct(xs)
    ensures multiset(xs)[x] <= 1
    decreases |xs|
  {
    if xs != [] {
      assert xs == [xs[0]] + xs[1..];
      DistinctOnce(xs[1..], x);
      if xs[0] == x {
        assert x !in xs[1..];
      }
    }
  }

  lemma OnceDistinct(xs: seq<string>)
    requires forall x :: multiset(xs)[x] <= 1
    ensures Distinct(xs)
  {
    forall i, j | 0 <= i < j < |xs| ensures xs[i] != xs[j] {
      assert xs == xs[..j] + xs[j..];
      assert xs[i] in multiset(xs[..j]) && xs[j] in multiset(xs[j..]);
      assert multiset(xs)[xs[i]] == multiset(xs[..j])[xs[i]] + multiset(xs[j..])[xs[i]];
    }
  }

  /** Sorting keeps the members, and keeps them distinct. */
  lemma SortKeeps(xs: seq<string>)
    ensures forall x :: x in SortStrings(xs) <==> x in xs
    ensures Distinct(xs) ==> Distinct(SortStrings(xs))
  {
    SortedPermutation(xs);
    var ys := SortStrings(xs);
    forall x ensures x in ys <==> x in xs {
      assert x in ys <==> x in multiset(ys);
      assert x in xs <==> x in multiset(xs);
    }
    if Distinct(xs) {
      forall x ensures multiset(ys)[x] <= 1 {
        DistinctOnce(xs, x);
      }
      OnceDistinct(ys);
    }
  }
}
