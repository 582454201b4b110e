/** A stable sort, as Python's list.sort, and what makes its result unique. */
module Sorting {

  /** x goes in after every element it is not strictly less than. */
  function Insert<T>(x: T, s: seq<T>, less: (T, T) -> bool): seq<T> {
    if s != [] && less(x, s[|s| - 1]) then Insert(x, s[..|s| - 1], less) + [s[|s| - 1]] else s + [x]
  }

  function StableSort<T>(xs: seq<T>, less: (T, T) -> bool): seq<T> {
    if xs == [] then [] else Insert(xs[|xs| - 1], StableSort(xs[..|xs| - 1], less), less)
  }

  ghost predicate SortedBy<T(!new)>(s: seq<T>, before: (T, T) -> bool) {
    forall i, j :: 0 <= i < j < |s| ==> before(s[i], s[j])
  }

  lemma {:induction false} InsertKeeps<T>(x: T, s: seq<T>, less: (T, T) -> bool)
    ensures multiset(Insert(x, s, less)) == multiset(s) + multiset{x}
    ensures |Insert(x, s, less)| == |s| + 1
  {
    if s != [] {
      assert s == s[..|s| - 1] + [s[|s| - 1]];
      InsertKeeps(x, s[..|s| - 1], less);
    }
  }

  lemma {:induction false} SortKeeps<T>(xs: seq<T>, less: (T, T) -> bool)
    ensures multiset(StableSort(xs, less)) == multiset(xs)
    ensures |StableSort(xs, less)| == |xs|
  {
    if xs != [] {
      assert xs == xs[..|xs| - 1] + [xs[|xs| - 1]];
      SortKeeps(xs[..|xs| - 1], less);
      InsertKeeps(xs[|xs| - 1], StableSort(xs[..|xs| - 1], less), less);
    }
  }

  ghost predicate Transitive<T(!new)>(before: (T, T) -> bool) {
    forall x, y, z :: before(x, y) && before(y, z) ==> before(x, z)
  }

  ghost predicate Asymmetric<T(!new)>(before: (T, T) -> bool) {
    forall x, y :: before(x, y) ==> !before(y, x)
  }

  lemma {:induction false} InsertSorted<T(!new)>(x: T, s: seq<T>, less: (T, T) -> bool, before: (T, T) -> bool)
    requires SortedBy(s, before) && Transitive(before)
    requires forall i :: 0 <= i < |s| ==> if less(x, s[i]) then before(x, s[i]) else before(s[i], x)
    ensures SortedBy(Insert(x, s, less), before)
  {
    if s != [] && less(x, s[|s| - 1]) {
      var init, last := s[..|s| - 1], s[|s| - 1];
      InsertSorted(x, init, less, before);
      InsertKeeps(x, init, less);
      var r := Insert(x, init, less);
      forall i | 0 <= i < |r| ensures before(r[i], last) {
        assert r[i] in multiset(r);
        assert r[i] == x || r[i] in init;
      }
    }
  }

  lemma {:induction false} SortedUnique<T(!new)>(a: seq<T>, b: seq<T>, before: (T, T) -> bool)
    requires SortedBy(a, before) && SortedBy(b, before) && Asymmetric(before)
    requires forall x :: x in a <==> x in b
    ensures a == b
  {
    assert a != [] ==> a[0] in b;
    assert b != [] ==> b[0] in a;
    if a != [] && b != [] {
      assert a[0] == b[0];
      forall x ensures x in a[1..] <==> x in b[1..] {
        Tail(a, before, x);
        Tail(b, before, x);
      }
      SortedUnique(a[1..], b[1..], before);
    }
  }

  lemma Tail<T(!new)>(a: seq<T>, before: (T, T) -> bool, x: T)
    requires a != [] && SortedBy(a, before) && Asymmetric(before)
    ensures x in a[1..] <==> x in a && x != a[0]
  {
    assert a == [a[0]] + a[1..];
    if x in a[1..] {
      var i :| 0 <= i < |a[1..]| && a[1..][i] == x;
      assert before(a[0], a[i + 1]);
    }
  }

  // ---------------------------------------------------------------- strings

  /** Strings compare by their first different character. */
  predicate Less(a: string, b: string) {
    b != [] && (a == [] || a[0] < b[0] || (a[0] == b[0] && Less(a[1..], b[1..])))
  }

  /** a and b agree before k, where a has ended or has the smaller character. */
  ghost predicate DiffersAt(a: string, b: string, k: nat) {
    && k < |b| && k <= |a| && a[..k] == b[..k]
    && (k < |a| ==> a[k] < b[k])
  }

  lemma HeadsAgree(a: string, b: string, k: nat)
    ensures DiffersAt(a, b, k) && k > 0 ==> a != [] && b != [] && a[0] == b[0]
  {
    if DiffersAt(a, b, k) && k > 0 { assert a[..k][0] == b[..k][0]; }
  }

  lemma {:induction false} LessIsFirstDifference(a: string, b: string)
    ensures Less(a, b) <==> exists k: nat :: DiffersAt(a, b, k)
  {
    if b != [] && a != [] && a[0] == b[0] {
      LessIsFirstDifference(a[1..], b[1..]);
      if Less(a, b) {
        var k: nat :| DiffersAt(a[1..], b[1..], k);
        assert a[..k + 1] == [a[0]] + a[1..][..k] && b[..k + 1] == [b[0]] + b[1..][..k];
        assert DiffersAt(a, b, k + 1);
      }
      if k: nat :| DiffersAt(a, b, k) {
        assert a[1..][..k - 1] == a[..k][1..] && b[1..][..k - 1] == b[..k][1..];
        assert DiffersAt(a[1..], b[1..], k - 1);
      }
    } else if Less(a, b) {
      assert DiffersAt(a, b, 0);
    } else {
      forall k: nat ensures DiffersAt(a, b, k) && k > 0 ==> a != [] && b != [] && a[0] == b[0] {
        HeadsAgree(a, b, k);
      }
    }
  }

  lemma {:induction false} LessTransitive(a: string, b: string, c: string)
    requires Less(a, b) && Less(b, c)
    ensures Less(a, c)
  {
    if a != [] && a[0] == b[0] == c[0] { LessTransitive(a[1..], b[1..], c[1..]); }
  }

  lemma {:induction false} LessTotal(a: string, b: string)
    ensures Less(a, b) || Less(b, a) || a == b
    ensures !(Less(a, b) && Less(b, a))
    ensures !Less(a, a)
  {
    if a != [] && b != [] { LessTotal(a[1..], b[1..]); }
    if a != [] { LessTotal(a[1..], a[1..]); }
    assert a != [] && b != [] && a[0] == b[0] && a[1..] == b[1..] ==> a == [a[0]] + a[1..] == b;
  }
}
