/**
 * Whole-table operations the pipeline borrows from pandas, stated over
 * sequences of rows: column sums, `drop_duplicates` (keep the first
 * occurrence), `sort_values(ascending=False)` and `rank(ascending=False)`
 * with the default "average" tie method.
 */
module TableOps {

  // ---------------------------------------------------------------------
  // Column sums
  // ---------------------------------------------------------------------

  /** The sum of column `f` over the rows of `s`. */
  function SumOf<T>(s: seq<T>, f: T -> real): real
  {
    if s == [] then 0.0 else f(s[0]) + SumOf(s[1..], f)
  }

  lemma {:induction false} SumOfAppend<T>(a: seq<T>, b: seq<T>, f: T -> real)
    ensures SumOf(a + b, f) == SumOf(a, f) + SumOf(b, f)
  {
    if a == [] {
      assert a + b == b;
    } else {
      assert (a + b)[1..] == a[1..] + b;
      SumOfAppend(a[1..], b, f);
    }
  }

  /** Taking one row out of a table takes its value out of the column sum. */
  lemma {:induction false} SumOfRemove<T>(t: seq<T>, j: nat, f: T -> real)
    requires j < |t|
    ensures SumOf(t, f) == f(t[j]) + SumOf(t[..j] + t[j + 1..], f)
  {
    assert t == t[..j] + ([t[j]] + t[j + 1..]);
    SumOfAppend(t[..j], [t[j]] + t[j + 1..], f);
    assert ([t[j]] + t[j + 1..])[1..] == t[j + 1..];
    SumOfAppend(t[..j], t[j + 1..], f);
  }

  /** A column sum does not depend on the order of the rows. */
  lemma {:induction false} SumOfPermutation<T>(s: seq<T>, t: seq<T>, f: T -> real)
    requires multiset(s) == multiset(t)
    ensures SumOf(s, f) == SumOf(t, f)
  {
    if s == [] {
      assert |t| == |multiset(t)| == 0;
    } else {
      var x := s[0];
      assert x in multiset(t);
      var j :| 0 <= j < |t| && t[j] == x;
      var rest := t[..j] + t[j + 1..];
      MultisetRemove(s, t, j);
      SumOfPermutation(s[1..], rest, f);
      SumOfRemove(t, j, f);
    }
  }

  lemma {:induction false} MultisetRemove<T>(s: seq<T>, t: seq<T>, j: nat)
    requires s != [] && j < |t| && t[j] == s[0]
    requires multiset(s) == multiset(t)
    ensures multiset(s[1..]) == multiset(t[..j] + t[j + 1..])
  {
    assert s == [s[0]] + s[1..];
    assert multiset(s) == multiset{s[0]} + multiset(s[1..]);
    assert t == t[..j] + [t[j]] + t[j + 1..];
    assert multiset(t) == multiset(t[..j]) + multiset{t[j]} + multiset(t[j + 1..]);
    var rest := t[..j] + t[j + 1..];
    assert multiset(rest) == multiset(t[..j]) + multiset(t[j + 1..]);
    assert multiset(t) == multiset(rest) + multiset{s[0]};
    assert multiset(s[1..]) == multiset(s) - multiset{s[0]};
    assert multiset(rest) == multiset(t) - multiset{s[0]};
  }

  /** A column that is another column times a constant sums to that column's sum times the constant. */
  lemma {:induction false} SumOfScaled<T>(s: seq<T>, f: T -> real, g: T -> real, c: real)
    requires forall i :: 0 <= i < |s| ==> g(s[i]) == f(s[i]) * c
    ensures SumOf(s, g) == SumOf(s, f) * c
  {
    if s != [] {
      SumOfScaled(s[1..], f, g, c);
    }
  }

  /**
   * A column of non-negative values has a non-negative sum, and the sum is
   * at least any one of its values.
   */
  lemma {:induction false} SumOfNonNegative<T>(s: seq<T>, f: T -> real, k: nat)
    requires forall i :: 0 <= i < |s| ==> f(s[i]) >= 0.0
    ensures SumOf(s, f) >= 0.0
    ensures k < |s| ==> SumOf(s, f) >= f(s[k])
  {
    if s != [] {
      assert forall i :: 0 <= i < |s| - 1 ==> s[1..][i] == s[i + 1];
      SumOfNonNegative(s[1..], f, if k == 0 then 0 else k - 1);
    }
  }

  /** A column of non-negative values with a non-zero sum has a positive value. */
  lemma {:induction false} SumOfPositive<T>(s: seq<T>, f: T -> real) returns (k: nat)
    requires forall i :: 0 <= i < |s| ==> f(s[i]) >= 0.0
    requires SumOf(s, f) != 0.0
    ensures k < |s| && f(s[k]) > 0.0
  {
    if f(s[0]) > 0.0 {
      k := 0;
    } else {
      assert forall i :: 0 <= i < |s| - 1 ==> s[1..][i] == s[i + 1];
      k := SumOfPositive(s[1..], f);
      k := k + 1;
    }
  }

  // ---------------------------------------------------------------------
  // drop_duplicates(): keep the first occurrence of every row
  // ---------------------------------------------------------------------

  /** Position of the first occurrence of `x` in `s`. */
  function FirstIndex<T(==)>(s: seq<T>, x: T): (i: nat)
    requires x in s
    ensures i < |s| && s[i] == x && x !in s[..i]
  {
    if s[0] == x then 0
    else
      var i := 1 + FirstIndex(s[1..], x);
      assert s[..i] == [s[0]] + s[1..][..i - 1];
      i
  }

  /** Appending rows does not move the first occurrence of a row already present. */
  lemma {:induction false} FirstIndexAppend<T>(a: seq<T>, b: seq<T>, x: T)
    requires x in a
    ensures FirstIndex(a + b, x) == FirstIndex(a, x)
  {
    if a[0] != x {
      assert (a + b)[1..] == a[1..] + b;
      FirstIndexAppend(a[1..], b, x);
    }
  }

  ghost predicate NoDuplicates<T>(s: seq<T>)
  {
    forall i, j :: 0 <= i < j < |s| ==> s[i] != s[j]
  }

  /** pandas `drop_duplicates()`: see DropDuplicatesKeepsFirst. */
  function DropDuplicates<T(==)>(s: seq<T>): seq<T>
  {
    if s == [] then []
    else
      var d := DropDuplicates(s[..|s| - 1]);
      if s[|s| - 1] in d then d else d + [s[|s| - 1]]
  }

  /**
   * DropDuplicates keeps every distinct row of `s` exactly once, ordered by
   * the position of its first occurrence in `s`.
   */
  lemma {:induction false} DropDuplicatesKeepsFirst<T>(s: seq<T>)
    ensures forall i :: 0 <= i < |DropDuplicates(s)| ==> DropDuplicates(s)[i] in s
    ensures forall i :: 0 <= i < |s| ==> s[i] in DropDuplicates(s)
    ensures NoDuplicates(DropDuplicates(s))
    ensures forall i, j :: 0 <= i < j < |DropDuplicates(s)| ==>
              FirstIndex(s, DropDuplicates(s)[i]) < FirstIndex(s, DropDuplicates(s)[j])
  {
    if s != [] {
      var init, x := s[..|s| - 1], s[|s| - 1];
      assert s == init + [x];
      var d := DropDuplicates(init);
      DropDuplicatesKeepsFirst(init);
      forall y | y in init
        ensures FirstIndex(s, y) == FirstIndex(init, y)
      {
        FirstIndexAppend(init, [x], y);
      }
      forall i | 0 <= i < |s|
        ensures s[i] in DropDuplicates(s)
      {
        if i < |init| {
          assert s[i] == init[i];
        }
      }
      if x !in d {
        var r := d + [x];
        assert x !in init;
        assert FirstIndex(s, x) == |init|;
        forall i, j | 0 <= i < j < |r|
          ensures FirstIndex(s, r[i]) < FirstIndex(s, r[j])
        {
          assert r[i] == d[i] && r[i] in init;
          if j < |d| {
            assert r[j] == d[j] && r[j] in init;
          }
        }
      }
    }
  }

  // ---------------------------------------------------------------------
  // sort_values(ascending=False)
  // ---------------------------------------------------------------------

  ghost predicate SortedDesc<T>(s: seq<T>, key: T -> real)
  {
    forall i, j :: 0 <= i < j < |s| ==> key(s[i]) >= key(s[j])
  }

  function InsertDesc<T>(x: T, s: seq<T>, key: T -> real): (r: seq<T>)
    requires SortedDesc(s, key)
    ensures SortedDesc(r, key)
    ensures multiset(r) == multiset(s) + multiset{x}
  {
    if s == [] || key(x) >= key(s[0]) then [x] + s
    else
      var rest := InsertDesc(x, s[1..], key);
      assert s == [s[0]] + s[1..];
      InsertedRowsBounded(x, s, rest, key);
      SortedDescCons(s[0], rest, key);
      assert multiset([s[0]] + rest) == multiset{s[0]} + multiset(rest);
      [s[0]] + rest
  }

  /** Inserting x after the head of a sorted table keeps every later row no larger than the head. */
  lemma {:induction false} InsertedRowsBounded<T>(x: T, s: seq<T>, rest: seq<T>, key: T -> real)
    requires s != [] && SortedDesc(s, key) && key(x) < key(s[0])
    requires multiset(rest) == multiset(s[1..]) + multiset{x}
    ensures forall y :: y in rest ==> key(y) <= key(s[0])
  {
    forall y | y in rest ensures key(y) <= key(s[0]) {
      assert y in multiset(rest);
      if y != x {
        assert y in multiset(s[1..]);
        var k :| 0 <= k < |s[1..]| && s[1..][k] == y;
        assert s[k + 1] == y;
      }
    }
  }

  /** A row no smaller than every row of a sorted table can go in front of it. */
  lemma {:induction false} SortedDescCons<T>(h: T, s: seq<T>, key: T -> real)
    requires SortedDesc(s, key)
    requires forall y :: y in s ==> key(y) <= key(h)
    ensures SortedDesc([h] + s, key)
  {
    var r := [h] + s;
    forall i, j | 0 <= i < j < |r| ensures key(r[i]) >= key(r[j]) {
      assert r[j] == s[j - 1];
      if i > 0 {
        assert r[i] == s[i - 1];
      }
    }
  }

  /**
   * pandas `sort_values(key, ascending=False)`: the same rows, with the key
   * non-increasing. pandas' default sort is not stable, so nothing is promised
   * about the order of rows with equal keys.
   */
  function SortDesc<T>(s: seq<T>, key: T -> real): (r: seq<T>)
    ensures SortedDesc(r, key)
    ensures multiset(r) == multiset(s)
  {
    if s == [] then []
    else
      assert s == [s[0]] + s[1..];
      InsertDesc(s[0], SortDesc(s[1..], key), key)
  }

  lemma {:induction false} DivisionDistributes(x: real, y: real, c: real)
    requires c != 0.0
    ensures x / c + y / c == (x + y) / c
  {
  }

  /** A column that is another table's column divided by c sums to that column's sum divided by c. */
  lemma {:induction false} SumOfRatio<A, B>(a: seq<A>, f: A -> real, b: seq<B>, g: B -> real, c: real)
    requires |a| == |b| && c != 0.0
    requires forall i :: 0 <= i < |a| ==> g(b[i]) == f(a[i]) / c
    ensures SumOf(b, g) == SumOf(a, f) / c
  {
    if a != [] {
      SumOfRatio(a[1..], f, b[1..], g, c);
      DivisionDistributes(f(a[0]), SumOf(a[1..], f), c);
    }
  }

  /** Two tables whose columns agree row by row have the same column sum. */
  lemma {:induction false} SumOfPointwise<A, B>(a: seq<A>, f: A -> real, b: seq<B>, g: B -> real)
    requires |a| == |b|
    requires forall i :: 0 <= i < |a| ==> f(a[i]) == g(b[i])
    ensures SumOf(a, f) == SumOf(b, g)
  {
    if a != [] {
      SumOfPointwise(a[1..], f, b[1..], g);
    }
  }

  // ---------------------------------------------------------------------
  // rank(ascending=False), method="average"
  // ---------------------------------------------------------------------

  /** 1 for a row whose key is above x, 0 otherwise. */
  function Above<T>(key: T -> real, x: real): T -> real
  {
    t => if key(t) > x then 1.0 else 0.0
  }

  /** 1 for a row whose key equals x, 0 otherwise. */
  function Tied<T>(key: T -> real, x: real): T -> real
  {
    t => if key(t) == x then 1.0 else 0.0
  }

  /** The number of rows whose key is above x. */
  function CountAbove<T>(rows: seq<T>, key: T -> real, x: real): real
  {
    SumOf(rows, Above(key, x))
  }

  /** The number of rows whose key equals x. */
  function CountTied<T>(rows: seq<T>, key: T -> real, x: real): real
  {
    SumOf(rows, Tied(key, x))
  }

  /**
   * Descending average rank of the value x in the key column: the rows tied
   * at x would occupy positions CountAbove + 1 .. CountAbove + CountTied of
   * the descending order, and share the mean of those positions.
   */
  function RankDesc<T>(rows: seq<T>, key: T -> real, x: real): real
  {
    CountAbove(rows, key, x) + (CountTied(rows, key, x) + 1.0) / 2.0
  }

  lemma {:induction false} CountsBounded<T>(rows: seq<T>, key: T -> real, x: real)
    ensures 0.0 <= CountAbove(rows, key, x) && 0.0 <= CountTied(rows, key, x)
    ensures CountAbove(rows, key, x) + CountTied(rows, key, x) <= |rows| as real
    ensures (exists i :: 0 <= i < |rows| && key(rows[i]) == x) ==> CountTied(rows, key, x) >= 1.0
  {
    if rows != [] {
      CountsBounded(rows[1..], key, x);
      assert forall i :: 0 < i < |rows| ==> rows[i] == rows[1..][i - 1];
    }
  }

  /** Every row above x or tied with x is above any smaller y. */
  lemma {:induction false} CountsOrdered<T>(rows: seq<T>, key: T -> real, x: real, y: real)
    requires y < x
    ensures CountAbove(rows, key, y) >= CountAbove(rows, key, x) + CountTied(rows, key, x)
  {
    if rows != [] {
      CountsOrdered(rows[1..], key, x, y);
    }
  }

  lemma {:induction false} CountsBelow<T>(rows: seq<T>, key: T -> real, x: real)
    requires forall i :: 0 <= i < |rows| ==> key(rows[i]) < x
    ensures CountAbove(rows, key, x) == 0.0 && CountTied(rows, key, x) == 0.0
  {
    if rows != [] {
      CountsBelow(rows[1..], key, x);
    }
  }

  lemma {:induction false} CountsOfStrictMaximum<T>(rows: seq<T>, key: T -> real, k: nat)
    requires k < |rows|
    requires forall i :: 0 <= i < |rows| && i != k ==> key(rows[i]) < key(rows[k])
    ensures CountAbove(rows, key, key(rows[k])) == 0.0 && CountTied(rows, key, key(rows[k])) == 1.0
  {
    if k == 0 {
      CountsBelow(rows[1..], key, key(rows[0]));
    } else {
      assert rows[1..][k - 1] == rows[k];
      CountsOfStrictMaximum(rows[1..], key, k - 1);
    }
  }

  /**
   * What pandas' descending average rank promises: ranks lie between 1 and
   * the number of rows, rows with equal keys share a rank, and a row with a
   * strictly larger key has a strictly smaller rank.
   */
  lemma {:induction false} RankDescProperties<T>(rows: seq<T>, key: T -> real, i: nat, j: nat)
    requires i < |rows| && j < |rows|
    ensures 1.0 <= RankDesc(rows, key, key(rows[i])) <= |rows| as real
    ensures key(rows[i]) == key(rows[j]) ==> RankDesc(rows, key, key(rows[i])) == RankDesc(rows, key, key(rows[j]))
    ensures key(rows[i]) > key(rows[j]) ==> RankDesc(rows, key, key(rows[i])) < RankDesc(rows, key, key(rows[j]))
  {
    CountsBounded(rows, key, key(rows[i]));
    CountsBounded(rows, key, key(rows[j]));
    if key(rows[i]) > key(rows[j]) {
      CountsOrdered(rows, key, key(rows[i]), key(rows[j]));
    }
  }

  /** A row whose key is strictly larger than every other row's has rank 1. */
  lemma {:induction false} RankOfStrictMaximum<T>(rows: seq<T>, key: T -> real, k: nat)
    requires k < |rows|
    requires forall i :: 0 <= i < |rows| && i != k ==> key(rows[i]) < key(rows[k])
    ensures RankDesc(rows, key, key(rows[k])) == 1.0
  {
    CountsOfStrictMaximum(rows, key, k);
  }

  /** Reordering the rows does not change any rank. */
  lemma {:induction false} RankDescPermutation<T>(s: seq<T>, t: seq<T>, key: T -> real, x: real)
    requires multiset(s) == multiset(t)
    ensures RankDesc(s, key, x) == RankDesc(t, key, x)
  {
    SumOfPermutation(s, t, Above(key, x));
    SumOfPermutation(s, t, Tied(key, x));
  }

  /** Ranks depend only on the key column. */
  lemma {:induction false} RankDescPointwise<A, B>(a: seq<A>, ka: A -> real, b: seq<B>, kb: B -> real, x: real)
    requires |a| == |b|
    requires forall i :: 0 <= i < |a| ==> ka(a[i]) == kb(b[i])
    ensures RankDesc(a, ka, x) == RankDesc(b, kb, x)
  {
    SumOfPointwise(a, Above(ka, x), b, Above(kb, x));
    SumOfPointwise(a, Tied(ka, x), b, Tied(kb, x));
  }

  /** The rank column of a table holds each row's descending average rank of its key. */
  ghost predicate RankColumn<T>(s: seq<T>, key: T -> real, rank: T -> real)
  {
    forall i :: 0 <= i < |s| ==> rank(s[i]) == RankDesc(s, key, key(s[i]))
  }

  /**
   * A rank column lies between 1 and the number of rows, gives equal keys
   * equal ranks and a larger key a smaller rank, never decreases down a table
   * sorted by its key, and gives a strict maximum rank 1.
   */
  lemma {:induction false} RankColumnProperties<T>(s: seq<T>, key: T -> real, rank: T -> real)
    requires RankColumn(s, key, rank)
    ensures forall i :: 0 <= i < |s| ==> 1.0 <= rank(s[i]) <= |s| as real
    ensures forall i, j :: 0 <= i < |s| && 0 <= j < |s| && key(s[i]) == key(s[j]) ==> rank(s[i]) == rank(s[j])
    ensures forall i, j :: 0 <= i < |s| && 0 <= j < |s| && key(s[i]) > key(s[j]) ==> rank(s[i]) < rank(s[j])
    ensures SortedDesc(s, key) ==> forall i, j :: 0 <= i < j < |s| ==> rank(s[i]) <= rank(s[j])
    ensures forall k :: 0 <= k < |s| && (forall i :: 0 <= i < |s| && i != k ==> key(s[i]) < key(s[k])) ==>
              rank(s[k]) == 1.0
  {
    forall i, j | 0 <= i < |s| && 0 <= j < |s|
      ensures 1.0 <= rank(s[i]) <= |s| as real
      ensures key(s[i]) == key(s[j]) ==> rank(s[i]) == rank(s[j])
      ensures key(s[i]) > key(s[j]) ==> rank(s[i]) < rank(s[j])
    {
      RankDescProperties(s, key, i, j);
    }
    forall k | 0 <= k < |s| && (forall i :: 0 <= i < |s| && i != k ==> key(s[i]) < key(s[k]))
      ensures rank(s[k]) == 1.0
    {
      RankOfStrictMaximum(s, key, k);
    }
  }

  /** Reordering a table keeps its rank column a rank column. */
  lemma {:induction false} RankColumnPermutation<T>(s: seq<T>, t: seq<T>, key: T -> real, rank: T -> real)
    requires multiset(s) == multiset(t)
    requires RankColumn(s, key, rank)
    ensures RankColumn(t, key, rank)
  {
    forall i | 0 <= i < |t| ensures rank(t[i]) == RankDesc(t, key, key(t[i])) {
      assert t[i] in multiset(s);
      var j :| 0 <= j < |s| && s[j] == t[i];
      RankDescPermutation(s, t, key, key(t[i]));
    }
  }

  // ---------------------------------------------------------------------
  // Distinct keys survive a reordering
  // ---------------------------------------------------------------------

  lemma {:induction false} TwoOccurrences<T>(s: seq<T>, i: nat, j: nat)
    requires i < j < |s| && s[i] == s[j]
    ensures multiset(s)[s[i]] >= 2
  {
    assert s == s[..i] + [s[i]] + s[i + 1..j] + [s[j]] + s[j + 1..];
  }

  lemma {:induction false} DistinctKeysOccurOnce<T, K>(s: seq<T>, key: T -> K, x: T)
    requires forall i, j :: 0 <= i < j < |s| ==> key(s[i]) != key(s[j])
    ensures multiset(s)[x] <= 1
  {
    if s != [] {
      assert s == [s[0]] + s[1..];
      DistinctKeysOccurOnce(s[1..], key, x);
      if s[0] == x {
        assert x !in s[1..] by {
          forall i | 0 <= i < |s| - 1 ensures s[1..][i] != x {
            assert key(s[i + 1]) != key(s[0]);
          }
        }
      }
    }
  }

  /** A reordering of a table whose key column has no repeats has no repeats either. */
  lemma {:induction false} PermutationKeepsDistinctKeys<T, K>(s: seq<T>, t: seq<T>, key: T -> K)
    requires multiset(s) == multiset(t)
    requires forall i, j :: 0 <= i < j < |s| ==> key(s[i]) != key(s[j])
    ensures forall i, j :: 0 <= i < j < |t| ==> key(t[i]) != key(t[j])
  {
    forall i, j | 0 <= i < j < |t| ensures key(t[i]) != key(t[j]) {
      assert t[i] in multiset(s) && t[j] in multiset(s);
      var p :| 0 <= p < |s| && s[p] == t[i];
      var q :| 0 <= q < |s| && s[q] == t[j];
      if p == q {
        TwoOccurrences(t, i, j);
        DistinctKeysOccurOnce(s, key, t[i]);
        assert false;
      } else if p < q {
        assert key(s[p]) != key(s[q]);
      } else {
        assert key(s[q]) != key(s[p]);
      }
    }
  }
}
