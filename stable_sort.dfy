/** `[...xs].sort(cmp)`: a stable sort driven by a comparator that returns a
    negative number, zero or a positive number. ECMAScript 2019 requires
    `Array.prototype.sort` to be stable; for a consistent comparator a stable
    sort has exactly one possible result, which insertion sort computes. */
module StableSort {

  /** `r` is ordered by `cmp`: no later element compares below an earlier one. */
  ghost predicate Sorted<T>(r: seq<T>, cmp: (T, T) -> int) {
    forall i, j :: 0 <= i < j < |r| ==> cmp(r[i], r[j]) <= 0
  }

  /** Markers that name a pair or a triple of values; the comparator laws below
      are instantiated only where a proof names the values it needs. */
  predicate Pair<T>(a: T, b: T) { true }
  predicate Triple<T>(a: T, b: T, c: T) { true }

  /** What the sort needs of its comparator on the values it meets:
      antisymmetric in sign on distinct values, never positive on a value and
      itself, and transitive in "not after". */
  ghost predicate ConsistentOn<T(!new)>(cmp: (T, T) -> int, s: seq<T>) {
    && (forall a, b {:trigger Pair(a, b)} :: a in s && b in s && a != b ==>
          (cmp(a, b) < 0 <==> cmp(b, a) > 0) && (cmp(a, b) == 0 <==> cmp(b, a) == 0))
    && (forall a :: a in s ==> cmp(a, a) <= 0)
    && (forall a, b, c {:trigger Triple(a, b, c)} ::
          a in s && b in s && c in s && cmp(a, b) <= 0 && cmp(b, c) <= 0 ==> cmp(a, c) <= 0)
  }

  lemma Antisymmetric<T(!new)>(cmp: (T, T) -> int, s: seq<T>, a: T, b: T)
    requires ConsistentOn(cmp, s) && a in s && b in s
    ensures cmp(a, b) > 0 ==> cmp(b, a) < 0
    ensures cmp(a, b) == 0 ==> cmp(b, a) <= 0
  {
    assert Pair(a, b);
  }

  lemma Transitive<T(!new)>(cmp: (T, T) -> int, s: seq<T>, a: T, b: T, c: T)
    requires ConsistentOn(cmp, s) && a in s && b in s && c in s
    requires cmp(a, b) <= 0 && cmp(b, c) <= 0
    ensures cmp(a, c) <= 0
  {
    assert Triple(a, b, c);
  }

  /** The elements of `s` that compare equal to `x`, in order. */
  function Ties<T>(s: seq<T>, x: T, cmp: (T, T) -> int): seq<T> {
    if s == [] then []
    else (if cmp(s[0], x) == 0 then [s[0]] else []) + Ties(s[1..], x, cmp)
  }

  /** Insert `x` into `r` after every element that does not compare above it. */
  function Insert<T>(r: seq<T>, x: T, cmp: (T, T) -> int): (o: seq<T>)
    ensures multiset(o) == multiset(r) + multiset{x}
    ensures |o| == |r| + 1
  {
    if r == [] then [x]
    else if cmp(r[|r| - 1], x) <= 0 then r + [x]
    else
      assert r == r[..|r| - 1] + [r[|r| - 1]];
      Insert(r[..|r| - 1], x, cmp) + [r[|r| - 1]]
  }

  /** The stable sort of `s`: each element in turn is inserted into the sorted prefix. */
  function Sort<T>(s: seq<T>, cmp: (T, T) -> int): (o: seq<T>)
    ensures multiset(o) == multiset(s)
    ensures |o| == |s|
  {
    if s == [] then []
    else
      assert s == s[..|s| - 1] + [s[|s| - 1]];
      Insert(Sort(s[..|s| - 1], cmp), s[|s| - 1], cmp)
  }

  lemma {:induction false} InsertSorted<T(!new)>(r: seq<T>, x: T, cmp: (T, T) -> int, dom: seq<T>)
    requires ConsistentOn(cmp, dom)
    requires x in dom && forall e :: e in r ==> e in dom
    requires Sorted(r, cmp)
    ensures Sorted(Insert(r, x, cmp), cmp)
  {
    if r != [] {
      var last := r[|r| - 1];
      if cmp(last, x) <= 0 {
        var o := r + [x];
        forall i, j | 0 <= i < j < |o| ensures cmp(o[i], o[j]) <= 0 {
          if j == |r| && i < |r| - 1 {
            Transitive(cmp, dom, r[i], last, x);
          }
        }
      } else {
        var front := r[..|r| - 1];
        assert forall e :: e in front ==> e in r;
        InsertSorted(front, x, cmp, dom);
        var ins := Insert(front, x, cmp);
        assert forall e :: e in ins ==> e in multiset(front) + multiset{x};
        forall e | e in ins ensures cmp(e, last) <= 0 {
          if e in front {
            var k :| 0 <= k < |front| && front[k] == e;
            assert r[k] == e;
          } else {
            assert e == x;
            Antisymmetric(cmp, dom, last, x);
          }
        }
        var o := ins + [last];
        forall i, j | 0 <= i < j < |o| ensures cmp(o[i], o[j]) <= 0 {
          if j == |ins| {
            assert o[i] in ins;
          } else {
            assert o[i] == ins[i] && o[j] == ins[j];
          }
        }
      }
    }
  }

  /** The sort orders its input by `cmp`. */
  lemma SortSorted<T(!new)>(s: seq<T>, cmp: (T, T) -> int)
    requires ConsistentOn(cmp, s)
    ensures Sorted(Sort(s, cmp), cmp)
  {
    SortSortedWithin(s, cmp, s);
  }

  lemma {:induction false} SortSortedWithin<T(!new)>(s: seq<T>, cmp: (T, T) -> int, dom: seq<T>)
    requires ConsistentOn(cmp, dom) && forall e :: e in s ==> e in dom
    ensures Sorted(Sort(s, cmp), cmp)
  {
    if s != [] {
      var front := s[..|s| - 1];
      assert forall e :: e in front ==> e in s;
      SortSortedWithin(front, cmp, dom);
      var sorted := Sort(front, cmp);
      assert forall e :: e in sorted ==> e in multiset(front);
      InsertSorted(sorted, s[|s| - 1], cmp, dom);
    }
  }

  lemma {:induction false} TiesAppend<T>(a: seq<T>, b: seq<T>, x: T, cmp: (T, T) -> int)
    ensures Ties(a + b, x, cmp) == Ties(a, x, cmp) + Ties(b, x, cmp)
  {
    if a == [] {
      assert a + b == b;
    } else {
      var head := if cmp(a[0], x) == 0 then [a[0]] else [];
      assert (a + b)[0] == a[0];
      assert (a + b)[1..] == a[1..] + b;
      TiesAppend(a[1..], b, x, cmp);
      assert Ties(a + b, x, cmp) == head + (Ties(a[1..], x, cmp) + Ties(b, x, cmp));
      assert Ties(a, x, cmp) == head + Ties(a[1..], x, cmp);
    }
  }

  /** Inserting `e` adds it at the end of its tie class and disturbs no other tie class. */
  lemma {:induction false} InsertTies<T(!new)>(r: seq<T>, e: T, x: T, cmp: (T, T) -> int, dom: seq<T>)
    requires ConsistentOn(cmp, dom)
    requires e in dom && x in dom && forall y :: y in r ==> y in dom
    ensures Ties(Insert(r, e, cmp), x, cmp) == Ties(r, x, cmp) + Ties([e], x, cmp)
  {
    if r == [] {
    } else {
      var last := r[|r| - 1];
      var front := r[..|r| - 1];
      if cmp(last, e) <= 0 {
        TiesAppend(r, [e], x, cmp);
      } else {
        assert forall y :: y in front ==> y in r;
        InsertTies(front, e, x, cmp, dom);
        TiesAppend(Insert(front, e, cmp), [last], x, cmp);
        assert r == front + [last];
        TiesAppend(front, [last], x, cmp);
        if cmp(last, x) == 0 && cmp(e, x) == 0 {
          // both tie with x, so `last` does not come after `e`, against the branch taken
          Antisymmetric(cmp, dom, e, x);
          Transitive(cmp, dom, last, x, e);
        }
      }
    }
  }

  /** Stability: every tie class keeps its input order. */
  lemma SortStable<T(!new)>(s: seq<T>, x: T, cmp: (T, T) -> int)
    requires ConsistentOn(cmp, s) && x in s
    ensures Ties(Sort(s, cmp), x, cmp) == Ties(s, x, cmp)
  {
    SortTiesAux(s, x, cmp, s);
  }

  /** `SortStable` for a prefix whose tie partner `x` may lie outside it. */
  lemma {:induction false} SortTiesAux<T(!new)>(s: seq<T>, x: T, cmp: (T, T) -> int, dom: seq<T>)
    requires ConsistentOn(cmp, dom) && x in dom && forall e :: e in s ==> e in dom
    ensures Ties(Sort(s, cmp), x, cmp) == Ties(s, x, cmp)
  {
    if s != [] {
      var front := s[..|s| - 1];
      var last := s[|s| - 1];
      assert s == front + [last];
      assert forall e :: e in front ==> e in s;
      SortTiesAux(front, x, cmp, dom);
      var sorted := Sort(front, cmp);
      assert forall e :: e in sorted ==> e in multiset(front);
      InsertTies(sorted, last, x, cmp, dom);
      TiesAppend(front, [last], x, cmp);
    }
  }

  /** When every pair compares 0, sorting changes nothing. */
  lemma {:induction false} SortAllTies<T>(s: seq<T>, cmp: (T, T) -> int)
    requires forall i, j :: 0 <= i < |s| && 0 <= j < |s| ==> cmp(s[i], s[j]) == 0
    ensures Sort(s, cmp) == s
  {
    if s != [] {
      var front, last := s[..|s| - 1], s[|s| - 1];
      SortAllTies(front, cmp);
      if front != [] {
        assert cmp(front[|front| - 1], last) == 0;
      }
      assert s == front + [last];
    }
  }
}
