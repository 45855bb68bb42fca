/**
 * The pandas building blocks the aggregation layer is made of, over plain
 * sequences: `unique()`, `nunique()`, boolean-mask selection of one group,
 * `dropna()`, `sum()`, `duplicated()`, `min()`/`max()` and the sorted keys of
 * a `groupby`.  Every sequence function here recurses on the prefix
 * `s[..|s| - 1]`, so the element appended last is the one processed last,
 * which is the order in which pandas scans a column.
 */
module Grouping {
  import opened Wrappers

  predicate NoDuplicates<T(==)>(s: seq<T>) {
    forall i, j :: 0 <= i < j < |s| ==> s[i] != s[j]
  }

  predicate StrictlyIncreasing(s: seq<int>) {
    forall i, j :: 0 <= i < j < |s| ==> s[i] < s[j]
  }

  function Id<T>(x: T): T { x }

  /** The column `key` of a table: one value per row, index-aligned. */
  function Keys<R, K>(rs: seq<R>, key: R -> K): (ks: seq<K>)
    ensures |ks| == |rs|
    ensures forall i :: 0 <= i < |rs| ==> ks[i] == key(rs[i])
    ensures forall r :: r in rs ==> key(r) in ks
  {
    if rs == [] then []
    else Keys(rs[..|rs| - 1], key) + [key(rs[|rs| - 1])]
  }

  /** `Series.unique()`: the distinct values, in order of first appearance. */
  function Distinct<T(==,!new)>(s: seq<T>): (d: seq<T>)
    ensures NoDuplicates(d)
    ensures forall x :: x in d <==> x in s
    ensures |d| <= |s|
  {
    if s == [] then []
    else
      var p := Distinct(s[..|s| - 1]);
      assert forall x :: x in s <==> x in s[..|s| - 1] || x == s[|s| - 1] by {
        assert s == s[..|s| - 1] + [s[|s| - 1]];
      }
      if s[|s| - 1] in p then p else p + [s[|s| - 1]]
  }

  /** The dictionary `{k: f(k) for k in ks}`. */
  function Tabulate<K(!new), V>(ks: seq<K>, f: K -> V): (m: map<K, V>)
    ensures forall k :: k in m <==> k in ks
    ensures forall k :: k in m ==> m[k] == f(k)
  {
    map k | k in ks :: f(k)
  }

  /** Filling the dictionary one key at a time, in the order of `ks`. */
  lemma TabulateStep<K(!new), V>(ks: seq<K>, i: nat, f: K -> V)
    requires i < |ks|
    ensures Tabulate(ks[..i + 1], f) == Tabulate(ks[..i], f)[ks[i] := f(ks[i])]
  {
    var a, b := Tabulate(ks[..i + 1], f), Tabulate(ks[..i], f)[ks[i] := f(ks[i])];
    assert ks[..i + 1] == ks[..i] + [ks[i]];
    forall j ensures j in a <==> j in b {
      assert j in ks[..i + 1] <==> j in ks[..i] || j == ks[i];
    }
    assert a == b;
  }

  /** `df[df[key] == k]`: the rows whose key is `k`, in table order. */
  function Members<R(==,!new), K(==)>(rs: seq<R>, key: R -> K, k: K): (m: seq<R>)
    ensures |m| <= |rs|
    ensures forall r :: r in m <==> r in rs && key(r) == k
  {
    if rs == [] then []
    else
      var p := Members(rs[..|rs| - 1], key, k);
      assert forall r :: r in rs <==> r in rs[..|rs| - 1] || r == rs[|rs| - 1] by {
        assert rs == rs[..|rs| - 1] + [rs[|rs| - 1]];
      }
      if key(rs[|rs| - 1]) == k then p + [rs[|rs| - 1]] else p
  }

  /** `value_counts()[x]` of a plain column. */
  function Count<T(==,!new)>(s: seq<T>, x: T): (n: nat)
    ensures n <= |s|
    ensures n > 0 <==> x in s
  {
    assert |Members(s, Id, x)| > 0 ==> Members(s, Id, x)[0] in Members(s, Id, x);
    |Members(s, Id, x)|
  }

  /** The non-missing values of column `proj`, in table order (`dropna()`). */
  function Present<R(!new), V>(rs: seq<R>, proj: R -> Option<V>): (vs: seq<V>)
    ensures |vs| <= |rs|
    ensures |vs| == 0 <==> forall r :: r in rs ==> proj(r).None?
  {
    if rs == [] then []
    else
      var p := Present(rs[..|rs| - 1], proj);
      assert forall r :: r in rs <==> r in rs[..|rs| - 1] || r == rs[|rs| - 1] by {
        assert rs == rs[..|rs| - 1] + [rs[|rs| - 1]];
      }
      match proj(rs[|rs| - 1])
      case Some(v) => p + [v]
      case None => p
  }

  /** Every non-missing value of the column appears among the present values. */
  lemma {:induction false} PresentHas<R(!new), V>(rs: seq<R>, proj: R -> Option<V>, r: R)
    requires r in rs && proj(r).Some?
    ensures proj(r).value in Present(rs, proj)
  {
    var p := rs[..|rs| - 1];
    assert rs == p + [rs[|rs| - 1]];
    if r != rs[|rs| - 1] {
      assert r in p;
      PresentHas(p, proj, r);
    }
  }

  /** A non-empty column holding one value throughout has that value as its only distinct one. */
  lemma {:induction false} DistinctOfConstant<T(!new)>(s: seq<T>, c: T)
    requires |s| > 0
    requires forall i :: 0 <= i < |s| ==> s[i] == c
    ensures Distinct(s) == [c]
  {
    var p := s[..|s| - 1];
    if p != [] {
      DistinctOfConstant(p, c);
    }
  }

  /** Every present value comes from a row whose cell holds it. */
  lemma {:induction false} PresentOnly<R(!new), V>(rs: seq<R>, proj: R -> Option<V>, v: V)
    requires v in Present(rs, proj)
    ensures exists r :: r in rs && proj(r) == Some(v)
  {
    var p := rs[..|rs| - 1];
    assert rs == p + [rs[|rs| - 1]];
    if v in Present(p, proj) {
      PresentOnly(p, proj, v);
      var r :| r in p && proj(r) == Some(v);
      assert r in rs;
    } else {
      assert proj(rs[|rs| - 1]) == Some(v);
    }
  }

  /** `sum()` of the column `w`. */
  function Weight<R>(rs: seq<R>, w: R -> int): (n: int)
    ensures (forall r :: r in rs ==> w(r) >= 0) ==> n >= 0
  {
    if rs == [] then 0 else Weight(rs[..|rs| - 1], w) + w(rs[|rs| - 1])
  }

  function One<R>(r: R): int { 1 }

  /** The sum of the per-group totals of `w`, taken over the group keys `d`. */
  function KeySum<R(==,!new), K(==)>(d: seq<K>, rs: seq<R>, key: R -> K, w: R -> int): int {
    if d == [] then 0
    else Weight(Members(rs, key, d[0]), w) + KeySum(d[1..], rs, key, w)
  }

  /** `duplicated().sum()`: how many rows repeat a value seen in an earlier row. */
  function DuplicateCount<T(==)>(s: seq<T>): (n: nat)
    ensures n <= |s|
    ensures |s| > 0 ==> n < |s|
  {
    if s == [] then 0
    else DuplicateCount(s[..|s| - 1]) + (if s[|s| - 1] in s[..|s| - 1] then 1 else 0)
  }

  /** A, A, A, B, C, ..., H: the second and third A are the only repeats. */
  lemma DuplicateCountExample()
    ensures DuplicateCount(["A", "A", "A", "B", "C", "D", "E", "F", "G", "H"]) == 2
  {
    var s := ["A", "A", "A", "B", "C", "D", "E", "F", "G", "H"];
    assert s[..1][..0] == s[..0];
    assert DuplicateCount(s[..1]) == 0;
    assert s[..2][..1] == s[..1];
    assert s[1] in s[..1];
    assert DuplicateCount(s[..2]) == 1;
    assert s[..3][..2] == s[..2];
    assert s[2] in s[..2];
    assert DuplicateCount(s[..3]) == 2;
    assert s[..4][..3] == s[..3];
    assert s[3] !in s[..3];
    assert DuplicateCount(s[..4]) == 2;
    assert s[..5][..4] == s[..4];
    assert s[4] !in s[..4];
    assert DuplicateCount(s[..5]) == 2;
    assert s[..6][..5] == s[..5];
    assert s[5] !in s[..5];
    assert DuplicateCount(s[..6]) == 2;
    assert s[..7][..6] == s[..6];
    assert s[6] !in s[..6];
    assert DuplicateCount(s[..7]) == 2;
    assert s[..8][..7] == s[..7];
    assert s[7] !in s[..7];
    assert DuplicateCount(s[..8]) == 2;
    assert s[..9][..8] == s[..8];
    assert s[8] !in s[..8];
    assert DuplicateCount(s[..9]) == 2;
    assert s[..10][..9] == s[..9];
    assert s[9] !in s[..9];
    assert DuplicateCount(s[..10]) == 2;
    assert s[..10] == s;
  }

  function MaxOf(s: seq<int>): (m: int)
    requires |s| > 0
    ensures m in s && forall x :: x in s ==> x <= m
  {
    if |s| == 1 then s[0]
    else
      var p := MaxOf(s[1..]);
      assert forall x :: x in s <==> x == s[0] || x in s[1..] by {
        assert s == [s[0]] + s[1..];
      }
      if s[0] > p then s[0] else p
  }

  function MinOf(s: seq<int>): (m: int)
    requires |s| > 0
    ensures m in s && forall x :: x in s ==> m <= x
  {
    if |s| == 1 then s[0]
    else
      var p := MinOf(s[1..]);
      assert forall x :: x in s <==> x == s[0] || x in s[1..] by {
        assert s == [s[0]] + s[1..];
      }
      if s[0] < p then s[0] else p
  }

  /** A key below every key of an ascending list can go in front of it. */
  lemma ConsIncreasing(h: int, t: seq<int>)
    requires StrictlyIncreasing(t)
    requires forall y :: y in t ==> h < y
    ensures StrictlyIncreasing([h] + t)
  {
    var r := [h] + t;
    forall i, j | 0 <= i < j < |r| ensures r[i] < r[j] {
      assert r[j] == t[j - 1] && r[j] in t;
      if i > 0 {
        assert r[i] == t[i - 1];
      }
    }
  }

  /** Adds `x` to an ascending list of distinct keys. */
  function Insert(x: int, s: seq<int>): (r: seq<int>)
    requires StrictlyIncreasing(s)
    ensures StrictlyIncreasing(r)
    ensures forall y :: y in r <==> y == x || y in s
  {
    if s == [] then [x]
    else
      assert forall y :: y in s <==> y == s[0] || y in s[1..] by {
        assert s == [s[0]] + s[1..];
      }
      assert StrictlyIncreasing(s[1..]) by {
        forall i, j | 0 <= i < j < |s| - 1 ensures s[1..][i] < s[1..][j] {
          assert s[1..][i] == s[i + 1] && s[1..][j] == s[j + 1];
        }
      }
      if x < s[0] then
        assert forall y :: y in s ==> x < y by {
          forall y | y in s ensures x < y {
            var k :| 0 <= k < |s| && s[k] == y;
            assert k == 0 || s[0] < s[k];
          }
        }
        ConsIncreasing(x, s);
        [x] + s
      else if x == s[0] then s
      else
        var t := Insert(x, s[1..]);
        assert forall y :: y in s[1..] ==> s[0] < y by {
          forall y | y in s[1..] ensures s[0] < y {
            var k :| 0 <= k < |s| - 1 && s[1..][k] == y;
            assert s[1..][k] == s[k + 1];
          }
        }
        ConsIncreasing(s[0], t);
        [s[0]] + t
  }

  /** The keys of `groupby(...)`: the distinct values in ascending order. */
  function SortedKeys(s: seq<int>): (r: seq<int>)
    ensures StrictlyIncreasing(r)
    ensures forall y :: y in r <==> y in s
  {
    if s == [] then []
    else
      assert s == s[..|s| - 1] + [s[|s| - 1]];
      Insert(s[|s| - 1], SortedKeys(s[..|s| - 1]))
  }

  lemma IncreasingHasNoDuplicates(s: seq<int>)
    requires StrictlyIncreasing(s)
    ensures NoDuplicates(s)
  {
  }

  // ---------------------------------------------------------------------
  // Counting lemmas

  lemma {:induction false} MembersAppend<R(!new), K>(p: seq<R>, v: R, key: R -> K, k: K)
    ensures Members(p + [v], key, k) == Members(p, key, k) + (if key(v) == k then [v] else [])
  {
    assert (p + [v])[..|p|] == p;
  }

  lemma {:induction false} WeightAppend<R>(p: seq<R>, q: seq<R>, w: R -> int)
    ensures Weight(p + q, w) == Weight(p, w) + Weight(q, w)
    decreases |q|
  {
    if q == [] {
      assert p + q == p;
    } else {
      var q' := q[..|q| - 1];
      assert (p + q)[..|p + q| - 1] == p + q';
      WeightAppend(p, q', w);
    }
  }

  /** Summing `w` over every row equals counting the rows when `w` is 1. */
  lemma {:induction false} WeightOfOnes<R>(rs: seq<R>)
    ensures Weight(rs, One) == |rs|
  {
    if rs != [] {
      WeightOfOnes(rs[..|rs| - 1]);
    }
  }

  /** Appending one row adds its weight to exactly the one group it belongs to. */
  lemma {:induction false} KeySumAppend<R(!new), K>(d: seq<K>, p: seq<R>, v: R, key: R -> K, w: R -> int)
    requires NoDuplicates(d)
    ensures KeySum(d, p + [v], key, w) == KeySum(d, p, key, w) + (if key(v) in d then w(v) else 0)
  {
    if d != [] {
      var k, rest := d[0], d[1..];
      NoDuplicatesTail(d);
      KeySumAppend(rest, p, v, key, w);
      GroupWeightAppend(p, v, key, k, w);
      KeySumCons(d, p + [v], key, w);
      KeySumCons(d, p, key, w);
    }
  }

  /** The head of a list without repeats is not in its tail, which has no repeats either. */
  lemma NoDuplicatesTail<T>(d: seq<T>)
    requires NoDuplicates(d) && |d| > 0
    ensures NoDuplicates(d[1..]) && d[0] !in d[1..]
    ensures forall x :: x in d <==> x == d[0] || x in d[1..]
  {
    assert d == [d[0]] + d[1..];
  }

  /** One group's total after appending a row: the row's weight counts when its key is the group's. */
  lemma GroupWeightAppend<R(!new), K>(p: seq<R>, v: R, key: R -> K, k: K, w: R -> int)
    ensures Weight(Members(p + [v], key, k), w) == Weight(Members(p, key, k), w) + (if key(v) == k then w(v) else 0)
  {
    MembersAppend(p, v, key, k);
    WeightAppend(Members(p, key, k), if key(v) == k then [v] else [], w);
    assert Weight([v], w) == w(v) by {
      assert [v][..0] == [];
    }
  }

  /** `KeySum` over a non-empty key list: the first group plus the rest. */
  lemma KeySumCons<R(!new), K>(d: seq<K>, rs: seq<R>, key: R -> K, w: R -> int)
    requires |d| > 0
    ensures KeySum(d, rs, key, w) == Weight(Members(rs, key, d[0]), w) + KeySum(d[1..], rs, key, w)
  {
  }

  /**
   * Grouping partitions the table: when `d` lists every key once, the group
   * totals add up to the table total.
   */
  lemma {:induction false} PartitionWeight<R(!new), K>(d: seq<K>, rs: seq<R>, key: R -> K, w: R -> int)
    requires NoDuplicates(d)
    requires forall r :: r in rs ==> key(r) in d
    ensures KeySum(d, rs, key, w) == Weight(rs, w)
    decreases |rs|
  {
    if rs == [] {
      KeySumOfEmpty(d, key, w);
    } else {
      var p, v := rs[..|rs| - 1], rs[|rs| - 1];
      assert rs == p + [v];
      assert forall r :: r in p ==> r in rs;
      PartitionWeight(d, p, key, w);
      KeySumAppend(d, p, v, key, w);
    }
  }

  lemma {:induction false} KeySumOfEmpty<R(!new), K>(d: seq<K>, key: R -> K, w: R -> int)
    ensures KeySum(d, [], key, w) == 0
  {
    if d != [] {
      KeySumOfEmpty(d[1..], key, w);
    }
  }

  /** The group sizes add up to the number of rows. */
  lemma PartitionCount<R(!new), K>(d: seq<K>, rs: seq<R>, key: R -> K)
    requires NoDuplicates(d)
    requires forall r :: r in rs ==> key(r) in d
    ensures KeySum(d, rs, key, One) == |rs|
  {
    PartitionWeight(d, rs, key, One);
    WeightOfOnes(rs);
  }

  /** Every row past the first occurrence of its value is a duplicate. */
  lemma {:induction false} DuplicatesAndDistinct<T(!new)>(s: seq<T>)
    ensures DuplicateCount(s) + |Distinct(s)| == |s|
  {
    if s != [] {
      DuplicatesAndDistinct(s[..|s| - 1]);
    }
  }

  /** No row is a duplicate exactly when the column has no repeated value. */
  lemma {:induction false} NoDuplicateCount<T>(s: seq<T>)
    ensures DuplicateCount(s) == 0 <==> NoDuplicates(s)
  {
    if s != [] {
      var p, v := s[..|s| - 1], s[|s| - 1];
      NoDuplicateCount(p);
      assert s == p + [v];
      if NoDuplicates(s) {
        assert NoDuplicates(p) by {
          forall i, j | 0 <= i < j < |p| ensures p[i] != p[j] {
            assert p[i] == s[i] && p[j] == s[j];
          }
        }
        forall i | 0 <= i < |p| ensures p[i] != v {
          assert p[i] == s[i];
        }
      }
      if DuplicateCount(s) == 0 {
        assert v !in p && NoDuplicates(p);
        forall i, j | 0 <= i < j < |s| ensures s[i] != s[j] {
          if j == |s| - 1 {
            assert s[i] == p[i];
          } else {
            assert s[i] == p[i] && s[j] == p[j];
          }
        }
      }
    }
  }
}
