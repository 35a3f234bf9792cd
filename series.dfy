/**
 * A pandas Series as this model sees it: an ordered sequence of (key, value)
 * entries. The generic group-by reducers (sum, row count, distinct values),
 * the descending value sort, `head(n)` and `idxmax` are defined here once and
 * instantiated by the analysis for products and months.
 */
module Series {
  import opened Wrappers

  /** The keys that occur in a sequence of (key, value) pairs. */
  function Keys<K(==), V>(s: seq<(K, V)>): set<K>
  {
    if |s| == 0 then {} else {s[0].0} + Keys(s[1..])
  }

  /** No key occurs twice: an index of a Series. */
  predicate UniqueKeys<K(==), V>(s: seq<(K, V)>)
  {
    forall i, j | 0 <= i < j < |s| :: s[i].0 != s[j].0
  }

  /** Values are non-increasing along the sequence (`ascending=False`). */
  predicate Descending<K>(s: seq<(K, real)>)
  {
    forall i, j | 0 <= i < j < |s| :: s[j].1 <= s[i].1
  }

  /** The sum of all values. */
  function Total<K>(s: seq<(K, real)>): real
  {
    if |s| == 0 then 0.0 else s[0].1 + Total(s[1..])
  }

  /** The sum of the values filed under key `k`: the group reducer `sum`. */
  function SumAt<K(==)>(s: seq<(K, real)>, k: K): real
  {
    if |s| == 0 then 0.0
    else (if s[0].0 == k then s[0].1 else 0.0) + SumAt(s[1..], k)
  }

  /** The number of entries filed under key `k`: the size of a group. */
  function CountAt<K(==), V>(s: seq<(K, V)>, k: K): nat
  {
    if |s| == 0 then 0
    else (if s[0].0 == k then 1 else 0) + CountAt(s[1..], k)
  }

  /** The distinct values filed under key `k`; `nunique` is its cardinality. */
  function ValuesAt<K(==), V(==)>(s: seq<(K, V)>, k: K): set<V>
  {
    if |s| == 0 then {}
    else (if s[0].0 == k then {s[0].1} else {}) + ValuesAt(s[1..], k)
  }

  lemma {:induction false} KeysMember<K, V>(s: seq<(K, V)>, k: K)
    ensures k in Keys(s) <==> exists i | 0 <= i < |s| :: s[i].0 == k
  {
    if |s| > 0 {
      KeysMember(s[1..], k);
      if k in Keys(s[1..]) {
        var i :| 0 <= i < |s[1..]| && s[1..][i].0 == k;
        assert s[i + 1].0 == k;
      }
      if exists i | 0 <= i < |s| :: s[i].0 == k {
        var i :| 0 <= i < |s| && s[i].0 == k;
        if i > 0 {
          assert s[1..][i - 1].0 == k;
        }
      }
    }
  }

  lemma {:induction false} KeysAppend<K, V>(s: seq<(K, V)>, t: seq<(K, V)>)
    ensures Keys(s + t) == Keys(s) + Keys(t)
  {
    if |s| == 0 {
      assert s + t == t;
    } else {
      assert (s + t)[1..] == s[1..] + t;
      KeysAppend(s[1..], t);
    }
  }

  /** A key is in some group exactly when that group has at least one row. */
  lemma {:induction false} CountAtPositive<K, V>(s: seq<(K, V)>, k: K)
    ensures k in Keys(s) <==> CountAt(s, k) > 0
  {
    if |s| > 0 {
      CountAtPositive(s[1..], k);
    }
  }

  /** A group's distinct values are never more than its rows, and never none. */
  lemma {:induction false} ValuesAtBounds<K, V>(s: seq<(K, V)>, k: K)
    ensures |ValuesAt(s, k)| <= CountAt(s, k)
    ensures k in Keys(s) <==> |ValuesAt(s, k)| > 0
  {
    if |s| > 0 {
      ValuesAtBounds(s[1..], k);
      if s[0].0 == k {
        assert s[0].1 in ValuesAt(s, k);
      }
    }
  }

  lemma {:induction false} ValuesAtMember<K, V>(s: seq<(K, V)>, k: K, v: V)
    ensures v in ValuesAt(s, k) <==> exists i | 0 <= i < |s| :: s[i] == (k, v)
  {
    if |s| > 0 {
      ValuesAtMember(s[1..], k, v);
      if v in ValuesAt(s[1..], k) {
        var i :| 0 <= i < |s[1..]| && s[1..][i] == (k, v);
        assert s[i + 1] == (k, v);
      }
      if exists i | 0 <= i < |s| :: s[i] == (k, v) {
        var i :| 0 <= i < |s| && s[i] == (k, v);
        if i > 0 {
          assert s[1..][i - 1] == (k, v);
        }
      }
    }
  }

  /** A sequence whose i-th key is `ks[i]` has exactly the keys listed in `ks`. */
  lemma KeysOfIndexed<K, V>(s: seq<(K, V)>, ks: seq<K>)
    requires |s| == |ks|
    requires forall i | 0 <= i < |s| :: s[i].0 == ks[i]
    ensures forall k :: k in Keys(s) <==> k in ks
  {
    forall k ensures k in Keys(s) <==> k in ks {
      KeysMember(s, k);
    }
  }

  /** `n` copies of `a` added up. */
  function Repeat(a: real, n: nat): real
  {
    if n == 0 then 0.0 else a + Repeat(a, n - 1)
  }

  lemma {:induction false} RepeatIsProduct(a: real, n: nat)
    ensures Repeat(a, n) == a * (n as real)
  {
    if n > 0 {
      RepeatIsProduct(a, n - 1);
      assert a * (n as real) == a * ((n - 1) as real) + a;
    }
  }

  /** A sum of `n` values, each within `[lo, hi]`, has its mean within `[lo, hi]`. */
  lemma MeanWithin(sum: real, n: nat, lo: real, hi: real)
    requires n > 0
    requires Repeat(lo, n) <= sum <= Repeat(hi, n)
    ensures lo <= sum / (n as real) <= hi
  {
    RepeatIsProduct(lo, n);
    RepeatIsProduct(hi, n);
    var c := n as real;
    assert lo * c <= sum;
    assert sum <= hi * c;
    assert (sum / c) * c == sum;
  }

  /** Bounds on each value of a group bound its sum by the group's size. */
  lemma {:induction false} SumAtBounds<K>(s: seq<(K, real)>, k: K, lo: real, hi: real)
    requires forall i | 0 <= i < |s| && s[i].0 == k :: lo <= s[i].1 <= hi
    ensures Repeat(lo, CountAt(s, k)) <= SumAt(s, k) <= Repeat(hi, CountAt(s, k))
  {
    if |s| > 0 {
      assert forall i | 0 <= i < |s[1..]| && s[1..][i].0 == k :: lo <= s[1..][i].1 <= hi by {
        forall i | 0 <= i < |s[1..]| && s[1..][i].0 == k ensures lo <= s[1..][i].1 <= hi {
          assert s[1..][i] == s[i + 1];
        }
      }
      SumAtBounds(s[1..], k, lo, hi);
    }
  }

  /** The distinct keys of `s`, each once. */
  function DistinctKeys<K(==), V>(s: seq<(K, V)>): (r: seq<K>)
    ensures forall i, j | 0 <= i < j < |r| :: r[i] != r[j]
    ensures forall i | 0 <= i < |r| :: r[i] in Keys(s)
    ensures forall k | k in Keys(s) :: k in r
  {
    if |s| == 0 then []
    else if s[0].0 in Keys(s[1..]) then DistinctKeys(s[1..])
    else [s[0].0] + DistinctKeys(s[1..])
  }

  /** One entry per key of `ks`, holding that key's group sum. */
  function SumsOf<K(==)>(ks: seq<K>, s: seq<(K, real)>): (r: seq<(K, real)>)
    ensures |r| == |ks|
    ensures forall i | 0 <= i < |ks| :: r[i] == (ks[i], SumAt(s, ks[i]))
  {
    if |ks| == 0 then [] else [(ks[0], SumAt(s, ks[0]))] + SumsOf(ks[1..], s)
  }

  /**
   * `groupby(key)[value].sum()`: one entry per key present in `s`, whose value
   * is the sum of that key's rows.
   */
  function GroupSum<K(==)>(s: seq<(K, real)>): (r: seq<(K, real)>)
    ensures UniqueKeys(r)
    ensures Keys(r) == Keys(s)
    ensures forall i | 0 <= i < |r| :: r[i].1 == SumAt(s, r[i].0)
  {
    var ks := DistinctKeys(s);
    var r := SumsOf(ks, s);
    assert Keys(r) == Keys(s) by {
      forall k | k in Keys(r) ensures k in Keys(s) {
        KeysMember(r, k);
      }
      forall k | k in Keys(s) ensures k in Keys(r) {
        KeysMember(r, k);
        var i :| 0 <= i < |ks| && ks[i] == k;
        assert r[i].0 == k;
      }
    }
    r
  }

  lemma {:induction false} SumsOfEmpty<K>(ks: seq<K>)
    ensures Total(SumsOf(ks, [])) == 0.0
  {
    if |ks| > 0 {
      SumsOfEmpty(ks[1..]);
    }
  }

  lemma {:induction false} SumsOfCons<K>(ks: seq<K>, p: (K, real), s: seq<(K, real)>)
    requires forall i, j | 0 <= i < j < |ks| :: ks[i] != ks[j]
    ensures Total(SumsOf(ks, [p] + s)) == (if p.0 in ks then p.1 else 0.0) + Total(SumsOf(ks, s))
  {
    if |ks| > 0 {
      assert ([p] + s)[1..] == s;
      SumsOfCons(ks[1..], p, s);
      assert p.0 == ks[0] ==> p.0 !in ks[1..];
    }
  }

  /** Summing every group over a complete list of keys gives the grand total. */
  lemma {:induction false} SumsOfTotal<K>(ks: seq<K>, s: seq<(K, real)>)
    requires forall i, j | 0 <= i < j < |ks| :: ks[i] != ks[j]
    requires forall k | k in Keys(s) :: k in ks
    ensures Total(SumsOf(ks, s)) == Total(s)
  {
    if |s| == 0 {
      SumsOfEmpty(ks);
    } else {
      assert s == [s[0]] + s[1..];
      SumsOfCons(ks, s[0], s[1..]);
      SumsOfTotal(ks, s[1..]);
    }
  }

  /** Grouping conserves the total: no row is lost or counted twice. */
  lemma GroupSumTotal<K>(s: seq<(K, real)>)
    ensures Total(GroupSum(s)) == Total(s)
  {
    SumsOfTotal(DistinctKeys(s), s);
  }

  /** Places `x` before the first entry whose value is not larger. */
  function InsertDescending<K(==)>(x: (K, real), s: seq<(K, real)>): (r: seq<(K, real)>)
    requires Descending(s)
    ensures Descending(r)
    ensures multiset(r) == multiset(s) + multiset{x}
    ensures r[0] == x || (|s| > 0 && r[0] == s[0])
  {
    if |s| == 0 || s[0].1 <= x.1 then [x] + s
    else
      var rest := InsertDescending(x, s[1..]);
      assert s == [s[0]] + s[1..];
      [s[0]] + rest
  }

  /**
   * `sort_values(ascending=False)`: the same entries, values non-increasing.
   * pandas' default sort is not stable, so which of several equal-valued
   * entries comes first is left open by this contract.
   */
  function SortDescending<K(==)>(s: seq<(K, real)>): (r: seq<(K, real)>)
    ensures Descending(r)
    ensures multiset(r) == multiset(s)
  {
    if |s| == 0 then []
    else
      assert s == [s[0]] + s[1..];
      InsertDescending(s[0], SortDescending(s[1..]))
  }

  lemma {:induction false} InsertDescendingKeeps<K>(x: (K, real), s: seq<(K, real)>)
    requires Descending(s)
    ensures Keys(InsertDescending(x, s)) == Keys(s) + {x.0}
    ensures Total(InsertDescending(x, s)) == x.1 + Total(s)
    ensures UniqueKeys(s) && x.0 !in Keys(s) ==> UniqueKeys(InsertDescending(x, s))
  {
    var r := InsertDescending(x, s);
    if |s| == 0 || s[0].1 <= x.1 {
      assert r[1..] == s;
      if UniqueKeys(s) && x.0 !in Keys(s) {
        forall j | 0 < j < |r| ensures r[0].0 != r[j].0 {
          KeysMember(s, r[j].0);
          assert r[j] == s[j - 1];
        }
      }
    } else {
      var rest := InsertDescending(x, s[1..]);
      assert r == [s[0]] + rest && r[1..] == rest;
      InsertDescendingKeeps(x, s[1..]);
      if UniqueKeys(s) && x.0 !in Keys(s) {
        UniqueKeysTail(s);
        forall j | 0 < j < |r| ensures r[0].0 != r[j].0 {
          KeysMember(rest, r[j].0);
          assert r[j] == rest[j - 1];
          assert r[j].0 in Keys(rest);
        }
      }
    }
  }

  /** Sorting keeps the keys and the total. */
  lemma {:induction false} SortDescendingKeeps<K>(s: seq<(K, real)>)
    ensures Keys(SortDescending(s)) == Keys(s)
    ensures Total(SortDescending(s)) == Total(s)
  {
    if |s| > 0 {
      var sorted := SortDescending(s[1..]);
      assert SortDescending(s) == InsertDescending(s[0], sorted);
      assert Keys(s) == {s[0].0} + Keys(s[1..]);
      assert Total(s) == s[0].1 + Total(s[1..]);
      SortDescendingKeeps(s[1..]);
      InsertDescendingKeeps(s[0], sorted);
    }
  }

  lemma UniqueKeysTail<K, V>(s: seq<(K, V)>)
    requires |s| > 0 && UniqueKeys(s)
    ensures UniqueKeys(s[1..]) && s[0].0 !in Keys(s[1..])
  {
    KeysMember(s[1..], s[0].0);
  }

  /** Sorting never makes two entries share a key. */
  lemma {:induction false} SortDescendingUnique<K>(s: seq<(K, real)>)
    requires UniqueKeys(s)
    ensures UniqueKeys(SortDescending(s))
  {
    if |s| > 0 {
      var sorted := SortDescending(s[1..]);
      assert SortDescending(s) == InsertDescending(s[0], sorted);
      UniqueKeysTail(s);
      SortDescendingUnique(s[1..]);
      SortDescendingKeeps(s[1..]);
      InsertDescendingKeeps(s[0], sorted);
    }
  }

  /** `head(n)`: the first `n` entries, or all of them when there are fewer. */
  function Head<K, V>(s: seq<(K, V)>, n: nat): (r: seq<(K, V)>)
    ensures |r| == (if |s| < n then |s| else n)
    ensures r <= s
  {
    if |s| <= n then s else s[..n]
  }

  /** The position of the first entry holding the largest value. */
  function MaxIndex<K>(s: seq<(K, int)>): (i: nat)
    requires |s| > 0
    ensures i < |s|
    ensures forall j | 0 <= j < |s| :: s[j].1 <= s[i].1
    ensures forall j | 0 <= j < i :: s[j].1 < s[i].1
  {
    if |s| == 1 then 0
    else
      var k := MaxIndex(s[..|s| - 1]);
      assert forall j | 0 <= j < |s| - 1 :: s[..|s| - 1][j] == s[j];
      if s[k].1 < s[|s| - 1].1 then |s| - 1 else k
  }

  /**
   * `idxmax()`: the key of the first entry holding the largest value.
   * pandas raises `ValueError` on an empty Series; that error is `None` here.
   */
  function IdxMax<K>(s: seq<(K, int)>): (r: Option<K>)
    ensures r.None? <==> |s| == 0
    ensures r.Some? ==> exists i | 0 <= i < |s| ::
      && s[i].0 == r.value
      && (forall j | 0 <= j < |s| :: s[j].1 <= s[i].1)
      && (forall j | 0 <= j < i :: s[j].1 < s[i].1)
  {
    if |s| == 0 then None else Some(s[MaxIndex(s)].0)
  }
}
