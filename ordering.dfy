/**
 * The two orderings the queries ask the database for: rows by an integer
 * column, descending (`order_by(col.desc())`), and rows by a text column,
 * ascending (`order_by(name.asc())`). Rows with equal keys may come in any
 * order, as in SQL, so both are specified by their properties and defined by
 * repeatedly choosing an extreme row.
 */
module Ordering {

  /** A nonempty finite table has a row with the largest score. */
  lemma {:induction false} MaxScoreExists<K>(scores: map<K, int>)
    requires |scores| > 0
    ensures exists k :: k in scores && forall j :: j in scores ==> scores[j] <= scores[k]
    decreases |scores|
  {
    var x :| x in scores;
    var rest := scores - {x};
    assert rest.Keys == scores.Keys - {x};
    if rest == map[] {
      forall j | j in scores ensures scores[j] <= scores[x] {
        assert j == x || j in rest.Keys;
      }
    } else {
      MaxScoreExists(rest);
      var m :| m in rest && forall j :: j in rest ==> rest[j] <= rest[m];
      if scores[x] <= scores[m] {
        assert forall j :: j in scores ==> scores[j] <= scores[m] by {
          forall j | j in scores ensures scores[j] <= scores[m] {
            if j != x { assert j in rest; }
          }
        }
      } else {
        assert forall j :: j in scores ==> scores[j] <= scores[x] by {
          forall j | j in scores ensures scores[j] <= scores[x] {
            if j != x { assert j in rest; }
          }
        }
      }
    }
  }

  /** A key with the largest score. */
  ghost function MaxScoreKey<K>(scores: map<K, int>): (k: K)
    requires |scores| > 0
    ensures k in scores && forall j :: j in scores ==> scores[j] <= scores[k]
  {
    MaxScoreExists(scores);
    var k :| k in scores && forall j :: j in scores ==> scores[j] <= scores[k];
    k
  }

  /** `r` lists keys of `scores`, each once, largest score first. */
  ghost predicate SortedDesc<K>(r: seq<K>, scores: map<K, int>)
  {
    && (forall i :: 0 <= i < |r| ==> r[i] in scores)
    && (forall i, j :: 0 <= i < j < |r| ==> r[i] != r[j])
    && (forall i, j :: 0 <= i < j < |r| ==> scores[r[i]] >= scores[r[j]])
  }

  lemma ConsDesc<K>(k: K, tail: seq<K>, scores: map<K, int>)
    requires k in scores && forall j :: j in scores ==> scores[j] <= scores[k]
    requires SortedDesc(tail, scores - {k})
    ensures SortedDesc([k] + tail, scores)
  {
    var r := [k] + tail;
    assert forall i :: 1 <= i < |r| ==> r[i] == tail[i - 1];
  }

  /** Every key of `scores` exactly once, largest score first. */
  ghost function ByScoreDesc<K>(scores: map<K, int>): (r: seq<K>)
    ensures |r| == |scores|
    ensures forall k :: k in scores ==> k in r
    ensures SortedDesc(r, scores)
    decreases |scores|
  {
    if |scores| == 0 then []
    else
      var k := MaxScoreKey(scores);
      var rest := scores - {k};
      assert rest.Keys == scores.Keys - {k};
      var tail := ByScoreDesc(rest);
      ConsDesc(k, tail, scores);
      [k] + tail
  }

  /** A prefix of a descending listing holds the largest scores: none is below a key left out. */
  lemma PrefixHoldsLargest<K>(all: seq<K>, scores: map<K, int>, n: nat)
    requires SortedDesc(all, scores) && (forall k :: k in scores ==> k in all) && n <= |all|
    ensures forall i, k :: 0 <= i < n && k in scores && k !in all[..n] ==> scores[all[i]] >= scores[k]
  {
    forall i, k | 0 <= i < n && k in scores && k !in all[..n]
      ensures scores[all[i]] >= scores[k]
    {
      var j :| 0 <= j < |all| && all[j] == k;
      assert j >= n;
    }
  }

  /**
   * Text order as the database compares strings: character by character,
   * a proper prefix first.
   */
  predicate NameLe(a: string, b: string)
    decreases |a|
  {
    |a| == 0 || (|b| > 0 && (a[0] < b[0] || (a[0] == b[0] && NameLe(a[1..], b[1..]))))
  }

  lemma {:induction false} NameLeTotal(a: string, b: string)
    ensures NameLe(a, b) || NameLe(b, a)
    decreases |a|
  {
    if |a| > 0 && |b| > 0 && a[0] == b[0] {
      NameLeTotal(a[1..], b[1..]);
    }
  }

  lemma {:induction false} NameLeTransitive(a: string, b: string, c: string)
    requires NameLe(a, b) && NameLe(b, c)
    ensures NameLe(a, c)
    decreases |a|
  {
    if |a| > 0 && a[0] == b[0] && b[0] == c[0] {
      NameLeTransitive(a[1..], b[1..], c[1..]);
    }
  }

  /** A nonempty finite table has a row whose name sorts first. */
  lemma {:induction false} MinNameExists<K>(names: map<K, string>)
    requires |names| > 0
    ensures exists k :: k in names && forall j :: j in names ==> NameLe(names[k], names[j])
    decreases |names|
  {
    var x :| x in names;
    var rest := names - {x};
    assert rest.Keys == names.Keys - {x};
    if rest == map[] {
      forall j | j in names ensures NameLe(names[x], names[j]) {
        assert j == x || j in rest.Keys;
        NameLeTotal(names[x], names[j]);
      }
    } else {
      MinNameExists(rest);
      var m :| m in rest && forall j :: j in rest ==> NameLe(rest[m], rest[j]);
      NameLeTotal(names[x], names[m]);
      if NameLe(names[m], names[x]) {
        forall j | j in names ensures NameLe(names[m], names[j]) {
          if j != x { assert j in rest; }
        }
      } else {
        forall j | j in names ensures NameLe(names[x], names[j]) {
          if j != x {
            assert j in rest;
            NameLeTransitive(names[x], names[m], names[j]);
          } else {
            NameLeTotal(names[x], names[x]);
          }
        }
      }
    }
  }

  /** A key whose name sorts first. */
  ghost function MinNameKey<K>(names: map<K, string>): (k: K)
    requires |names| > 0
    ensures k in names && forall j :: j in names ==> NameLe(names[k], names[j])
  {
    MinNameExists(names);
    var k :| k in names && forall j :: j in names ==> NameLe(names[k], names[j]);
    k
  }

  /** `r` lists keys of `names`, each once, in ascending name order. */
  ghost predicate SortedByName<K>(r: seq<K>, names: map<K, string>)
  {
    && (forall i :: 0 <= i < |r| ==> r[i] in names)
    && (forall i, j :: 0 <= i < j < |r| ==> r[i] != r[j])
    && (forall i, j :: 0 <= i < j < |r| ==> NameLe(names[r[i]], names[r[j]]))
  }

  lemma ConsByName<K>(k: K, tail: seq<K>, names: map<K, string>)
    requires k in names && forall j :: j in names ==> NameLe(names[k], names[j])
    requires SortedByName(tail, names - {k})
    ensures SortedByName([k] + tail, names)
  {
    var r := [k] + tail;
    assert forall i :: 1 <= i < |r| ==> r[i] == tail[i - 1];
  }

  /** Every key of `names` exactly once, in ascending name order. */
  ghost function ByNameAsc<K>(names: map<K, string>): (r: seq<K>)
    ensures |r| == |names|
    ensures forall k :: k in names ==> k in r
    ensures SortedByName(r, names)
    decreases |names|
  {
    if |names| == 0 then []
    else
      var k := MinNameKey(names);
      var rest := names - {k};
      assert rest.Keys == names.Keys - {k};
      var tail := ByNameAsc(rest);
      ConsByName(k, tail, names);
      [k] + tail
  }
}
