/** Backend names in the order Go compares strings, and the stable sort behind sort.SliceStable. */
module Ordering {
  import opened Sums

  /** Strict lexicographic order on names. */
  predicate NameLess(a: string, b: string) {
    if b == [] then false
    else if a == [] then true
    else a[0] < b[0] || (a[0] == b[0] && NameLess(a[1..], b[1..]))
  }

  lemma {:induction false} NameLessTransitive(a: string, b: string, c: string)
    requires NameLess(a, b) && NameLess(b, c)
    ensures NameLess(a, c)
  {
    if a != [] && a[0] == b[0] == c[0] {
      NameLessTransitive(a[1..], b[1..], c[1..]);
    }
  }

  lemma {:induction false} NameLessIrreflexive(a: string)
    ensures !NameLess(a, a)
  {
    if a != [] {
      NameLessIrreflexive(a[1..]);
    }
  }

  /** Any two names are comparable or the same name. */
  lemma {:induction false} NameLessTotal(a: string, b: string)
    ensures NameLess(a, b) || NameLess(b, a) || a == b
  {
    if a != [] && b != [] && a[0] == b[0] {
      NameLessTotal(a[1..], b[1..]);
      assert a == [a[0]] + a[1..] && b == [b[0]] + b[1..];
    }
  }

  /** The names agree up to place k, where a ends or has the lesser character. */
  predicate LessAt(a: string, b: string, k: nat) {
    k <= |a| && k < |b| && a[..k] == b[..k] && (k == |a| || a[k] < b[k])
  }

  /** The order of names is decided by the first place where they differ. */
  lemma {:induction false} NameLessIff(a: string, b: string)
    ensures NameLess(a, b) <==> exists k: nat :: LessAt(a, b, k)
  {
    if b != [] && a != [] && a[0] == b[0] {
      NameLessIff(a[1..], b[1..]);
      if k: nat :| LessAt(a[1..], b[1..], k) {
        assert a[..k + 1] == [a[0]] + a[1..][..k] && b[..k + 1] == [b[0]] + b[1..][..k];
        assert LessAt(a, b, k + 1);
      }
      if k: nat :| LessAt(a, b, k) {
        assert a[1..][..k - 1] == a[..k][1..] == b[..k][1..] == b[1..][..k - 1];
        assert LessAt(a[1..], b[1..], k - 1);
      }
    } else if b != [] {
      assert a[..0] == b[..0] && (a == [] || a[0] < b[0] ==> LessAt(a, b, 0));
      if k: nat :| LessAt(a, b, k) {
        assert k > 0 ==> a[..k][0] == b[..k][0];
      }
    }
  }

  type Less = (nat, nat) -> bool

  /** less is a strict weak order on the positions below n. */
  ghost predicate StrictWeakOrder(less: Less, n: nat) {
    && (forall i: nat :: i < n ==> !less(i, i))
    && (forall i: nat, j: nat, k: nat {:trigger less(i, j), less(j, k)} ::
          i < n && j < n && k < n && less(i, j) && less(j, k) ==> less(i, k))
    && (forall i: nat, j: nat, k: nat {:trigger less(i, k), less(i, j)} {:trigger less(i, k), less(j, k)} ::
          i < n && j < n && k < n && less(i, k) ==> less(i, j) || less(j, k))
  }

  /** i comes strictly before j: by less, and among equals by position. */
  predicate Leads(less: Less, i: nat, j: nat) {
    less(i, j) || (!less(j, i) && i < j)
  }

  ghost predicate InOrder(s: seq<nat>, less: Less) {
    forall a, b :: 0 <= a < b < |s| ==> Leads(less, s[a], s[b])
  }

  ghost predicate Below(s: seq<nat>, n: nat) {
    forall k :: 0 <= k < |s| ==> s[k] < n
  }

  ghost predicate Increasing(s: seq<nat>) {
    forall a, b :: 0 <= a < b < |s| ==> s[a] < s[b]
  }

  function Insert(s: seq<nat>, x: nat, less: Less): (r: seq<nat>)
    ensures multiset(r) == multiset(s) + multiset{x}
  {
    if s != [] && less(x, s[|s| - 1]) then
      assert s == s[..|s| - 1] + [s[|s| - 1]];
      Insert(s[..|s| - 1], x, less) + [s[|s| - 1]]
    else s + [x]
  }

  /** Stable insertion sort; a strict weak order has exactly one stable arrangement. */
  function StableSort(s: seq<nat>, less: Less): (r: seq<nat>)
    ensures multiset(r) == multiset(s)
  {
    if s == [] then [] else
      assert s == s[..|s| - 1] + [s[|s| - 1]];
      Insert(StableSort(s[..|s| - 1], less), s[|s| - 1], less)
  }

  lemma {:induction false} InsertKeepsOrder(s: seq<nat>, x: nat, less: Less, n: nat)
    requires StrictWeakOrder(less, n) && Below(s, n) && x < n
    requires InOrder(s, less) && forall k :: 0 <= k < |s| ==> s[k] < x
    ensures InOrder(Insert(s, x, less), less)
  {
    if s != [] {
      var last := s[|s| - 1];
      var front := s[..|s| - 1];
      if less(x, last) {
        InsertKeepsOrder(front, x, less, n);
        var r := Insert(front, x, less);
        forall a | 0 <= a < |r| ensures Leads(less, r[a], last) {
          assert r[a] in multiset(r);
          if r[a] != x {
            assert r[a] in multiset(front);
          }
        }
      } else {
        forall a | 0 <= a < |s| ensures Leads(less, s[a], x) {
          if a < |s| - 1 {
            assert Leads(less, s[a], last);
            assert !less(last, s[a]);
          }
        }
      }
    }
  }

  lemma {:induction false} SortIsInOrder(s: seq<nat>, less: Less, n: nat)
    requires StrictWeakOrder(less, n) && Below(s, n) && Increasing(s)
    ensures InOrder(StableSort(s, less), less)
  {
    if s != [] {
      var front := s[..|s| - 1];
      SortIsInOrder(front, less, n);
      var r := StableSort(front, less);
      forall k | 0 <= k < |r| ensures r[k] < s[|s| - 1] && r[k] < n {
        assert r[k] in multiset(front);
        var j :| 0 <= j < |front| && front[j] == r[k];
      }
      InsertKeepsOrder(r, s[|s| - 1], less, n);
    }
  }

  /** A sorted list holds exactly the positions it was given, each once. */
  lemma SortMembers(s: seq<nat>, less: Less)
    ensures |StableSort(s, less)| == |s|
    ensures forall i: nat :: i in StableSort(s, less) <==> i in s
    ensures Increasing(s) ==> Distinct(StableSort(s, less))
  {
    var r := StableSort(s, less);
    assert |multiset(r)| == |multiset(s)|;
    forall i: nat ensures i in r <==> i in s {
      assert i in multiset(r) <==> i in multiset(s);
    }
    if Increasing(s) {
      DistinctFromMultiset(s, r);
    }
  }

  lemma {:induction false} DistinctFromMultiset<T>(s: seq<T>, r: seq<T>)
    requires multiset(s) == multiset(r) && Distinct(s)
    ensures Distinct(r)
  {
    if !Distinct(r) {
      var a, b :| 0 <= a < b < |r| && r[a] == r[b];
      assert r == r[..a] + [r[a]] + r[a + 1..b] + [r[b]] + r[b + 1..];
      assert multiset(r)[r[a]] >= 2;
      OccursOnce(s, r[a]);
    }
  }

  lemma {:induction false} OccursOnce<T>(s: seq<T>, x: T)
    requires Distinct(s)
    ensures multiset(s)[x] <= 1
  {
    if s != [] {
      OccursOnce(s[1..], x);
      assert s == [s[0]] + s[1..];
      assert forall k :: 0 <= k < |s[1..]| ==> s[1..][k] != s[0];
    }
  }
}
