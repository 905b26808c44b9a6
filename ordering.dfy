/** The stable comparison sort that both implementations rely on
    (`Array.prototype.sort` and `toSorted`, stable since ES2019), driven by a
    locale-aware comparator whose internals are not modelled.

    A comparator is given as `le`, where `le(a, b)` stands for
    `compare(a, b) <= 0`; it is assumed to be a total preorder. */
module Ordering {
  import opened Sequences

  ghost predicate TotalPreorder<T(!new)>(le: (T, T) -> bool) {
    && (forall a, b :: le(a, b) || le(b, a))
    && (forall a, b, c :: le(a, b) && le(b, c) ==> le(a, c))
  }

  ghost predicate Sorted<T>(s: seq<T>, le: (T, T) -> bool) {
    forall i, j :: 0 <= i < j < |s| ==> le(s[i], s[j])
  }

  /** `a` and `b` compare equal (`compare(a, b) == 0`). */
  predicate Equivalent<T>(a: T, b: T, le: (T, T) -> bool) {
    le(a, b) && le(b, a)
  }

  /** The elements of `s` that compare equal to `x`, in their order in `s`. */
  function Ties<T>(s: seq<T>, x: T, le: (T, T) -> bool): seq<T> {
    if s == [] then []
    else (if Equivalent(s[0], x, le) then [s[0]] else []) + Ties(s[1..], x, le)
  }

  /** `r` keeps, among elements that compare equal, the order they had in
      `s`. */
  ghost predicate Stable<T(!new)>(r: seq<T>, s: seq<T>, le: (T, T) -> bool) {
    forall x :: Ties(r, x, le) == Ties(s, x, le)
  }

  /** Inserts `x` into sorted `s` after every element that sorts no later
      than it. */
  function Insert<T>(x: T, s: seq<T>, le: (T, T) -> bool): (r: seq<T>)
    ensures |r| == |s| + 1
  {
    if s == [] then [x]
    else if le(s[0], x) then [s[0]] + Insert(x, s[1..], le)
    else [x] + s
  }

  lemma {:induction false} InsertPermutes<T>(x: T, s: seq<T>, le: (T, T) -> bool)
    ensures multiset(Insert(x, s, le)) == multiset(s) + multiset{x}
    decreases |s|
  {
    if s != [] && le(s[0], x) {
      InsertPermutes(x, s[1..], le);
      assert s == [s[0]] + s[1..];
    }
  }

  /** A stable sort of `s` by `le` (insertion sort, processing the input from
      left to right). */
  function SortBy<T>(s: seq<T>, le: (T, T) -> bool): (r: seq<T>)
    ensures |r| == |s|
  {
    if s == [] then []
    else Insert(s[|s| - 1], SortBy(s[..|s| - 1], le), le)
  }

  /** The sort's result is a permutation of its input. */
  lemma {:induction false} SortPermutes<T>(s: seq<T>, le: (T, T) -> bool)
    ensures multiset(SortBy(s, le)) == multiset(s)
    decreases |s|
  {
    if s != [] {
      SortPermutes(s[..|s| - 1], le);
      InsertPermutes(s[|s| - 1], SortBy(s[..|s| - 1], le), le);
      assert s == s[..|s| - 1] + [s[|s| - 1]];
    }
  }

  /** The head of sorted `s`, when it sorts no later than `x`, sorts no
      later than anything in `x` inserted into the rest. */
  lemma InsertHeadBound<T(!new)>(x: T, s: seq<T>, le: (T, T) -> bool)
    requires TotalPreorder(le) && Sorted(s, le) && s != [] && le(s[0], x)
    ensures forall k :: 0 <= k < |Insert(x, s[1..], le)| ==> le(s[0], Insert(x, s[1..], le)[k])
  {
    InsertPermutes(x, s[1..], le);
    var t := Insert(x, s[1..], le);
    forall k | 0 <= k < |t| ensures le(s[0], t[k]) {
      assert t[k] in multiset(t);
      if t[k] != x {
        assert t[k] in multiset(s[1..]);
        var j :| 0 <= j < |s[1..]| && s[1..][j] == t[k];
        assert s[j + 1] == t[k];
      }
    }
  }

  lemma {:induction false} InsertSorted<T(!new)>(x: T, s: seq<T>, le: (T, T) -> bool)
    requires TotalPreorder(le) && Sorted(s, le)
    ensures Sorted(Insert(x, s, le), le)
    decreases |s|
  {
    if s != [] {
      if le(s[0], x) {
        InsertSorted(x, s[1..], le);
        var t := Insert(x, s[1..], le);
        InsertHeadBound(x, s, le);
        var r := [s[0]] + t;
        assert Insert(x, s, le) == r;
        forall i, j | 0 <= i < j < |r| ensures le(r[i], r[j]) {
          if i > 0 { assert r[i] == t[i - 1] && r[j] == t[j - 1]; }
        }
      } else {
        var r := [x] + s;
        forall i, j | 0 <= i < j < |r| ensures le(r[i], r[j]) {
          if i == 0 { assert le(x, s[0]) && le(s[0], s[j - 1]); }
        }
      }
    }
  }

  /** The sort's result is ordered by the comparator. */
  lemma {:induction false} SortSorted<T(!new)>(s: seq<T>, le: (T, T) -> bool)
    requires TotalPreorder(le)
    ensures Sorted(SortBy(s, le), le)
    decreases |s|
  {
    if s != [] {
      SortSorted(s[..|s| - 1], le);
      InsertSorted(s[|s| - 1], SortBy(s[..|s| - 1], le), le);
    }
  }

  lemma {:induction false} TiesAppend<T>(a: seq<T>, b: seq<T>, x: T, le: (T, T) -> bool)
    ensures Ties(a + b, x, le) == Ties(a, x, le) + Ties(b, x, le)
    decreases |a|
  {
    if a != [] {
      assert (a + b)[0] == a[0] && (a + b)[1..] == a[1..] + b;
      TiesAppend(a[1..], b, x, le);
    } else {
      assert a + b == b;
    }
  }

  /** Inserting `y` behind its equals appends it to its class of ties. */
  lemma {:induction false} InsertTies<T(!new)>(y: T, s: seq<T>, x: T, le: (T, T) -> bool)
    requires TotalPreorder(le) && Sorted(s, le)
    ensures Ties(Insert(y, s, le), x, le) == Ties(s, x, le) + Ties([y], x, le)
    decreases |s|
  {
    if s == [] {
    } else if le(s[0], y) {
      var t := Insert(y, s[1..], le);
      assert Insert(y, s, le) == [s[0]] + t;
      assert Sorted(s[1..], le) by {
        forall i, j | 0 <= i < j < |s[1..]| ensures le(s[1..][i], s[1..][j]) {
          assert s[1..][i] == s[i + 1] && s[1..][j] == s[j + 1];
        }
      }
      InsertTies(y, s[1..], x, le);
      assert s == [s[0]] + s[1..];
      TiesAppend([s[0]], s[1..], x, le);
      TiesAppend([s[0]], t, x, le);
    } else {
      assert Insert(y, s, le) == [y] + s;
      TiesAppend([y], s, x, le);
      if Equivalent(y, x, le) {
        NoTiesAbove(y, s, x, le);
      }
    }
  }

  /** When `y` sorts strictly before the head of sorted `s`, nothing in `s`
      ties with anything that ties with `y`. */
  lemma {:induction false} NoTiesAbove<T(!new)>(y: T, s: seq<T>, x: T, le: (T, T) -> bool)
    requires TotalPreorder(le) && Sorted(s, le)
    requires s != [] && !le(s[0], y) && Equivalent(y, x, le)
    ensures Ties(s, x, le) == []
    decreases |s|
  {
    if |s| > 1 {
      assert le(s[0], s[1]);
      NoTiesAbove(y, s[1..], x, le);
    }
  }

  /** The sort is stable. */
  lemma {:induction false} SortStable<T(!new)>(s: seq<T>, le: (T, T) -> bool)
    requires TotalPreorder(le)
    ensures Stable(SortBy(s, le), s, le)
    decreases |s|
  {
    if s != [] {
      var init, last := s[..|s| - 1], s[|s| - 1];
      SortStable(init, le);
      SortSorted(init, le);
      forall x ensures Ties(SortBy(s, le), x, le) == Ties(s, x, le) {
        InsertTies(last, SortBy(init, le), x, le);
        TiesAppend(init, [last], x, le);
        assert init + [last] == s;
      }
    }
  }

  /** Sorting keeps a duplicate-free sequence duplicate-free. */
  lemma {:induction false} SortDistinct<T(!new)>(s: seq<T>, le: (T, T) -> bool)
    requires Distinct(s)
    ensures Distinct(SortBy(s, le))
    decreases |s|
  {
    if s != [] {
      var init, last := s[..|s| - 1], s[|s| - 1];
      SortDistinct(init, le);
      SortPermutes(init, le);
      assert last !in multiset(SortBy(init, le));
      InsertDistinct(last, SortBy(init, le), le);
    }
  }

  lemma {:induction false} InsertDistinct<T(!new)>(x: T, s: seq<T>, le: (T, T) -> bool)
    requires Distinct(s) && x !in s
    ensures Distinct(Insert(x, s, le))
    decreases |s|
  {
    if s != [] && le(s[0], x) {
      InsertDistinct(x, s[1..], le);
      InsertPermutes(x, s[1..], le);
      var t := Insert(x, s[1..], le);
      assert s[0] !in multiset(t) by {
        assert s[0] !in s[1..];
      }
      var r := [s[0]] + t;
      forall i, j | 0 <= i < j < |r| ensures r[i] != r[j] {
        if i == 0 { assert r[j] in multiset(t); }
        else { assert r[i] == t[i - 1] && r[j] == t[j - 1]; }
      }
    }
  }

  /** Comparing records by a key: `le` applied to `key(a)` and `key(b)`. */
  function ByKey<T, K>(key: T -> K, le: (K, K) -> bool): (T, T) -> bool {
    (a: T, b: T) => le(key(a), key(b))
  }

  /** Comparing by a key under a total preorder is a total preorder. */
  lemma ByKeyPreorder<T(!new), K(!new)>(key: T -> K, le: (K, K) -> bool)
    requires TotalPreorder(le)
    ensures TotalPreorder(ByKey(key, le))
  {
    var cmp := ByKey(key, le);
    forall a, b ensures cmp(a, b) || cmp(b, a) {
      assert le(key(a), key(b)) || le(key(b), key(a));
    }
    forall a, b, c | cmp(a, b) && cmp(b, c) ensures cmp(a, c) {
      assert le(key(a), key(b)) && le(key(b), key(c));
    }
  }
}
