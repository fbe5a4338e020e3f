/** Python's `sorted(xs, key=...)` / `xs.sort(key=...)` for the two key
    shapes the backend uses: a pair of integers compared lexicographically
    (a tuple key such as `(stops, price)`) or a single integer (padded with a
    constant second component). Python's sort is stable, and so is this one. */
module Sorting {

  /** A sort key: Python tuple `(major, minor)`. */
  datatype Key = Key(major: int, minor: int)

  /** Python's `<` on 2-tuples of ints. */
  predicate KeyLt(a: Key, b: Key)
  {
    a.major < b.major || (a.major == b.major && a.minor < b.minor)
  }

  /** `<` on keys is a strict total order. */
  lemma KeyLtTotal(a: Key, b: Key)
    ensures !KeyLt(a, a)
    ensures KeyLt(a, b) ==> !KeyLt(b, a)
    ensures !KeyLt(a, b) && !KeyLt(b, a) ==> a == b
  {
  }

  /** No later element is strictly smaller than an earlier one: the order
      Python's sort produces. */
  ghost predicate Sorted<T>(s: seq<T>, key: T -> Key)
  {
    forall i, j :: 0 <= i < j < |s| ==> !KeyLt(key(s[j]), key(s[i]))
  }

  /** The elements of `s` whose key is exactly `k`, in their order in `s`. */
  function Filter<T>(s: seq<T>, key: T -> Key, k: Key): seq<T>
  {
    if s == [] then []
    else if key(s[0]) == k then [s[0]] + Filter(s[1..], key, k)
    else Filter(s[1..], key, k)
  }

  /** Stability: elements with equal keys keep their relative order. */
  ghost predicate SameTies<T>(s: seq<T>, r: seq<T>, key: T -> Key)
  {
    forall k :: Filter(r, key, k) == Filter(s, key, k)
  }

  /** Puts `x` in front of the first element of `s` that is not smaller than
      it, so that `x` precedes every element of `s` with an equal key. */
  function Insert<T>(x: T, s: seq<T>, key: T -> Key): seq<T>
  {
    if s == [] then [x]
    else if KeyLt(key(s[0]), key(x)) then [s[0]] + Insert(x, s[1..], key)
    else [x] + s
  }

  lemma {:induction false} InsertCount<T>(x: T, s: seq<T>, key: T -> Key)
    ensures |Insert(x, s, key)| == |s| + 1
    ensures multiset(Insert(x, s, key)) == multiset(s) + multiset{x}
  {
    if s != [] && KeyLt(key(s[0]), key(x)) {
      InsertCount(x, s[1..], key);
      assert s == [s[0]] + s[1..];
    }
  }

  lemma {:induction false} InsertSorted<T>(x: T, s: seq<T>, key: T -> Key)
    requires Sorted(s, key)
    ensures Sorted(Insert(x, s, key), key)
  {
    if s != [] && KeyLt(key(s[0]), key(x)) {
      var t := s[1..];
      assert Sorted(t, key);
      InsertSorted(x, t, key);
      InsertCount(x, t, key);
      var r := Insert(x, t, key);
      forall e | e in multiset(r)
        ensures !KeyLt(key(e), key(s[0]))
      {
        if e != x {
          assert e in multiset(t);
          var j :| 0 <= j < |t| && t[j] == e;
          assert s[j + 1] == e;
        }
      }
      forall i, j | 0 <= i < j < |[s[0]] + r|
        ensures !KeyLt(key(([s[0]] + r)[j]), key(([s[0]] + r)[i]))
      {
        if i == 0 {
          assert ([s[0]] + r)[j] == r[j - 1];
          assert r[j - 1] in multiset(r);
        }
      }
    }
  }

  lemma {:induction false} InsertTies<T>(x: T, s: seq<T>, key: T -> Key, k: Key)
    ensures Filter(Insert(x, s, key), key, k)
         == if key(x) == k then [x] + Filter(s, key, k) else Filter(s, key, k)
  {
    if s == [] {
    } else if KeyLt(key(s[0]), key(x)) {
      InsertTies(x, s[1..], key, k);
      KeyLtTotal(key(s[0]), key(x));
      assert ([s[0]] + Insert(x, s[1..], key))[1..] == Insert(x, s[1..], key);
    } else {
      assert ([x] + s)[1..] == s;
    }
  }

  /** Stable insertion sort: `sorted(s, key=key)`. */
  function SortBy<T>(s: seq<T>, key: T -> Key): (r: seq<T>)
    ensures |r| == |s|
    ensures multiset(r) == multiset(s)
    ensures Sorted(r, key)
    ensures SameTies(s, r, key)
  {
    if s == [] then []
    else
      var rest := SortBy(s[1..], key);
      var r := Insert(s[0], rest, key);
      InsertCount(s[0], rest, key);
      InsertSorted(s[0], rest, key);
      assert s == [s[0]] + s[1..];
      assert SameTies(s, r, key) by {
        forall k
          ensures Filter(r, key, k) == Filter(s, key, k)
        {
          InsertTies(s[0], rest, key, k);
        }
      }
      r
  }

  // ---------------------------------------------------------------------------
  // Sortedness plus stability pin the result down
  // ---------------------------------------------------------------------------

  lemma {:induction false} FilterNonEmpty<T>(s: seq<T>, key: T -> Key, k: Key)
    requires Filter(s, key, k) != []
    ensures exists i :: 0 <= i < |s| && key(s[i]) == k
  {
    if key(s[0]) != k {
      FilterNonEmpty(s[1..], key, k);
      var i :| 0 <= i < |s[1..]| && key(s[1..][i]) == k;
      assert key(s[i + 1]) == k;
    }
  }

  /** Two sorted sequences of one length that agree on every class of equal
      keys are the same sequence: a stable sort has exactly one possible answer. */
  lemma {:induction false} SortedTiesUnique<T>(a: seq<T>, b: seq<T>, key: T -> Key)
    requires |a| == |b|
    requires Sorted(a, key) && Sorted(b, key)
    requires SameTies(a, b, key)
    ensures a == b
    decreases |a|
  {
    if a == [] {
      return;
    }
    var ka, kb := key(a[0]), key(b[0]);
    assert Filter(b, key, ka) != [];
    FilterNonEmpty(b, key, ka);
    var j :| 0 <= j < |b| && key(b[j]) == ka;
    assert !KeyLt(ka, kb);
    assert Filter(a, key, kb) != [];
    FilterNonEmpty(a, key, kb);
    var i :| 0 <= i < |a| && key(a[i]) == kb;
    assert !KeyLt(kb, ka);
    KeyLtTotal(ka, kb);
    assert a[0] == Filter(a, key, ka)[0] == Filter(b, key, ka)[0] == b[0];
    forall k
      ensures Filter(a[1..], key, k) == Filter(b[1..], key, k)
    {
      if k == ka {
        assert Filter(a[1..], key, k) == Filter(a, key, k)[1..];
        assert Filter(b[1..], key, k) == Filter(b, key, k)[1..];
      } else {
        assert Filter(a, key, k) == Filter(a[1..], key, k);
        assert Filter(b, key, k) == Filter(b[1..], key, k);
      }
    }
    SortedTiesUnique(a[1..], b[1..], key);
    assert a == [a[0]] + a[1..];
    assert b == [b[0]] + b[1..];
  }

  /** Sorting an already sorted sequence changes nothing. */
  lemma SortSortedIsIdentity<T>(s: seq<T>, key: T -> Key)
    requires Sorted(s, key)
    ensures SortBy(s, key) == s
  {
    SortedTiesUnique(SortBy(s, key), s, key);
  }

  /** Sorting twice is sorting once. */
  lemma SortIdempotent<T>(s: seq<T>, key: T -> Key)
    ensures SortBy(SortBy(s, key), key) == SortBy(s, key)
  {
    SortSortedIsIdentity(SortBy(s, key), key);
  }

  // ---------------------------------------------------------------------------
  // Permutations keep distinct elements distinct
  // ---------------------------------------------------------------------------

  /** Pairwise distinct projections. */
  ghost predicate Injective<T, U>(s: seq<T>, f: T -> U)
  {
    forall i, j :: 0 <= i < j < |s| ==> f(s[i]) != f(s[j])
  }

  lemma {:induction false} InjectiveCountsOnce<T, U>(s: seq<T>, f: T -> U, x: T)
    requires Injective(s, f)
    ensures multiset(s)[x] <= 1
  {
    if s != [] {
      assert Injective(s[1..], f);
      InjectiveCountsOnce(s[1..], f, x);
      assert s == [s[0]] + s[1..];
      if s[0] == x {
        forall j | 0 <= j < |s[1..]|
          ensures s[1..][j] != x
        {
          assert f(s[0]) != f(s[j + 1]);
        }
        assert x !in s[1..];
      }
    }
  }

  lemma TwoPositionsCountTwice<T>(s: seq<T>, i: nat, j: nat)
    requires i < j < |s| && s[i] == s[j]
    ensures multiset(s)[s[i]] >= 2
  {
    assert s == s[..j] + s[j..];
    assert s[i] in s[..j];
    assert s[j] in s[j..];
    assert multiset(s) == multiset(s[..j]) + multiset(s[j..]);
  }

  /** Reordering a sequence keeps its projections pairwise distinct. */
  lemma PermutationKeepsInjective<T, U>(a: seq<T>, b: seq<T>, f: T -> U)
    requires multiset(a) == multiset(b)
    requires Injective(a, f)
    ensures Injective(b, f)
  {
    forall i, j | 0 <= i < j < |b|
      ensures f(b[i]) != f(b[j])
    {
      if b[i] == b[j] {
        TwoPositionsCountTwice(b, i, j);
        InjectiveCountsOnce(a, f, b[i]);
      } else {
        assert b[i] in multiset(a) && b[j] in multiset(a);
        var p :| 0 <= p < |a| && a[p] == b[i];
        var q :| 0 <= q < |a| && a[q] == b[j];
        assert p != q;
      }
    }
  }
}
