/** Ordering of strings, sorting (any sorted permutation stands for Go's sort.Sort), and facts about
    rearranged sequences. */
module Sorting {

  ghost predicate StrictOrder<T(!new)>(less: (T, T) -> bool) {
    && (forall a :: !less(a, a))
    && (forall a, b, c | less(a, b) && less(b, c) :: less(a, c))
  }

  predicate Sorted<T>(less: (T, T) -> bool, s: seq<T>) {
    forall i, j | 0 <= i < j < |s| :: !less(s[j], s[i])
  }

  lemma RestAbove<T(!new)>(less: (T, T) -> bool, s: seq<T>, i: nat, x: T, j: nat)
    requires StrictOrder(less) && Sorted(less, s) && i <= j < |s| && less(x, s[i])
    ensures !less(s[j], x)
  {
    assert !less(s[j], s[i]);
  }

  lemma InsertSorted<T>(less: (T, T) -> bool, s: seq<T>, i: nat, x: T)
    requires Sorted(less, s) && i <= |s|
    requires forall j | 0 <= j < i :: !less(x, s[j])
    requires forall j | i <= j < |s| :: !less(s[j], x)
    ensures Sorted(less, s[..i] + [x] + s[i..])
    ensures multiset(s[..i] + [x] + s[i..]) == multiset(s) + multiset{x}
  {
    assert s == s[..i] + s[i..];
  }

  method Sort<T(!new)>(less: (T, T) -> bool, s: seq<T>) returns (r: seq<T>)
    requires StrictOrder(less)
    ensures Sorted(less, r) && multiset(r) == multiset(s)
  {
    r := [];
    var n := 0;
    while n < |s|
      invariant 0 <= n <= |s| && Sorted(less, r) && multiset(r) == multiset(s[..n])
    {
      var x := s[n];
      var i := 0;
      while i < |r| && !less(x, r[i])
        invariant 0 <= i <= |r| && forall j | 0 <= j < i :: !less(x, r[j])
      {
        i := i + 1;
      }
      assert s[..n + 1] == s[..n] + [x];
      forall j | i <= j < |r| ensures !less(r[j], x) {
        RestAbove(less, r, i, x, j);
      }
      InsertSorted(less, r, i, x);
      r := r[..i] + [x] + r[i..];
      n := n + 1;
    }
    assert s[..|s|] == s;
  }

  /** Byte-wise comparison of strings. */
  predicate StrLess(a: string, b: string) {
    if |b| == 0 then false
    else if |a| == 0 then true
    else a[0] < b[0] || (a[0] == b[0] && StrLess(a[1..], b[1..]))
  }

  lemma {:induction false} StrLessTransitive(a: string, b: string, c: string)
    requires StrLess(a, b) && StrLess(b, c)
    ensures StrLess(a, c)
  {
    if |a| > 0 && a[0] == b[0] == c[0] {
      StrLessTransitive(a[1..], b[1..], c[1..]);
    }
  }

  lemma {:induction false} StrLessIrreflexive(a: string)
    ensures !StrLess(a, a)
  {
    if |a| > 0 {
      StrLessIrreflexive(a[1..]);
    }
  }

  lemma {:induction false} StrLessTotal(a: string, b: string)
    ensures StrLess(a, b) || a == b || StrLess(b, a)
  {
    if |a| > 0 && |b| > 0 && a[0] == b[0] {
      StrLessTotal(a[1..], b[1..]);
      assert a == [a[0]] + a[1..] && b == [b[0]] + b[1..];
    }
  }

  lemma StringsOrdered()
    ensures StrictOrder(StrLess)
  {
    forall a ensures !StrLess(a, a) {
      StrLessIrreflexive(a);
    }
    forall a, b, c | StrLess(a, b) && StrLess(b, c) ensures StrLess(a, c) {
      StrLessTransitive(a, b, c);
    }
  }

  // ---------- Rearrangements ----------

  ghost predicate NoRepeats<T>(s: seq<T>) {
    forall a, b | 0 <= a < b < |s| :: s[a] != s[b]
  }

  lemma Counted<T>(s: seq<T>, a: nat, b: nat)
    requires a < b < |s| && s[a] == s[b]
    ensures multiset(s)[s[a]] >= 2
  {
    assert s == s[..b] + [s[b]] + s[b + 1..];
    assert s[a] in s[..b];
  }

  lemma {:induction false} NoRepeatsCount<T>(s: seq<T>, x: T)
    requires NoRepeats(s)
    ensures multiset(s)[x] <= 1
  {
    if |s| > 0 {
      var rest := s[..|s| - 1];
      NoRepeatsCount(rest, x);
      assert s == rest + [s[|s| - 1]];
      assert x == s[|s| - 1] ==> x !in rest;
    }
  }

  lemma SortedNoRepeats<T>(s: seq<T>, r: seq<T>)
    requires multiset(s) == multiset(r) && NoRepeats(s)
    ensures NoRepeats(r)
  {
    forall a, b | 0 <= a < b < |r| ensures r[a] != r[b] {
      NoRepeatsCount(s, r[a]);
      if r[a] == r[b] {
        Counted(r, a, b);
      }
    }
  }

  lemma SplitAt<T>(s: seq<T>, k: nat)
    requires k < |s|
    ensures multiset(s) == multiset(s[..k] + s[k + 1..]) + multiset{s[k]}
  {
    assert s == s[..k] + [s[k]] + s[k + 1..];
  }

  /** Dropping one equal element from each of two sequences keeps and reflects being rearrangements. */
  lemma RestPermutes<T>(s: seq<T>, r: seq<T>, k: nat)
    requires |s| > 0 && k < |r| && r[k] == s[|s| - 1]
    ensures multiset(r) == multiset(s) <==> multiset(r[..k] + r[k + 1..]) == multiset(s[..|s| - 1])
  {
    var n := |s| - 1;
    SplitAt(r, k);
    SplitAt(s, n);
    assert s[..n] + s[n + 1..] == s[..n];
    assert multiset(r[..k] + r[k + 1..]) == multiset(r) - multiset{r[k]};
    assert multiset(s[..n]) == multiset(s) - multiset{r[k]};
  }

  lemma NonEmptyHas<T(!new)>(s: seq<T>)
    ensures |s| > 0 ==> exists x :: x in s
  {
    if |s| > 0 {
      assert s[0] in s;
    }
  }

  lemma Associates<T>(a: seq<T>, b: seq<T>, c: seq<T>)
    ensures a + (b + c) == a + b + c
  {
  }

  lemma {:induction false} NoRepeatsCardinality<T(!new)>(s: seq<T>, all: set<T>)
    requires NoRepeats(s) && forall x :: x in s <==> x in all
    ensures |s| == |all|
    decreases |s|
  {
    if |s| == 0 {
      assert all == {};
    } else {
      var last := s[|s| - 1];
      var rest := s[..|s| - 1];
      assert s == rest + [last];
      NoRepeatsCardinality(rest, all - {last});
    }
  }
}
