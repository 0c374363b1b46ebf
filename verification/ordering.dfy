/**
 * Orderings used by the listing queries (`ORDER BY name ASC`,
 * `ORDER BY price ASC`, `ORDER BY createdAt DESC`): the lexicographic order
 * of text, and sorting a set of row ids into the unique sequence that is
 * strictly increasing under a strict total order.
 */
module Ordering {

  /** Lexicographic order on character codes. The database's collation
      depends on the provider named by DATABASE_URL; this model fixes the
      binary one. */
  predicate TextLess(a: string, b: string)
    decreases |a|
  {
    if |a| == 0 then |b| > 0
    else if |b| == 0 then false
    else if a[0] != b[0] then a[0] < b[0]
    else TextLess(a[1..], b[1..])
  }

  lemma {:induction false} TextLessIrreflexive(a: string)
    ensures !TextLess(a, a)
    decreases |a|
  {
    if |a| > 0 {
      TextLessIrreflexive(a[1..]);
    }
  }

  lemma {:induction false} TextLessTransitive(a: string, b: string, c: string)
    requires TextLess(a, b) && TextLess(b, c)
    ensures TextLess(a, c)
    decreases |a|
  {
    if |a| > 0 && a[0] == b[0] && b[0] == c[0] {
      TextLessTransitive(a[1..], b[1..], c[1..]);
    }
  }

  lemma {:induction false} TextLessTotal(a: string, b: string)
    requires a != b
    ensures TextLess(a, b) || TextLess(b, a)
    decreases |a|
  {
    if |a| > 0 && |b| > 0 && a[0] == b[0] {
      TextLessTotal(a[1..], b[1..]);
    }
  }

  /** The ORDER BY tuple of a row: a text column, a number column (negated
      for a descending order) and the row id. The queries give no tie-break;
      the id makes the order total, and is this model's choice. */
  datatype SortKey = SortKey(text: string, number: real, id: int)

  predicate KeyLess(a: SortKey, b: SortKey) {
    || TextLess(a.text, b.text)
    || (a.text == b.text && a.number < b.number)
    || (a.text == b.text && a.number == b.number && a.id < b.id)
  }

  lemma KeyLessIrreflexive(a: SortKey)
    ensures !KeyLess(a, a)
  {
    TextLessIrreflexive(a.text);
  }

  /** The key of a row listed newest first (`orderBy: { createdAt: 'desc' }`);
      equal creation times go in id order, the model's own tie-break. */
  function NewestFirst(createdAt: int, id: int): SortKey {
    SortKey("", -(createdAt as real), id)
  }

  /** A row listed before another is at least as new, and strictly newer or
      of smaller id. */
  lemma NewestFirstOrder(a: int, ida: int, b: int, idb: int)
    requires KeyLess(NewestFirst(a, ida), NewestFirst(b, idb))
    ensures a > b || (a == b && ida < idb)
  {
    TextLessIrreflexive("");
  }

  lemma KeyLessTransitive(a: SortKey, b: SortKey, c: SortKey)
    requires KeyLess(a, b) && KeyLess(b, c)
    ensures KeyLess(a, c)
  {
    if TextLess(a.text, b.text) && TextLess(b.text, c.text) {
      TextLessTransitive(a.text, b.text, c.text);
    }
  }

  lemma KeyLessTotal(a: SortKey, b: SortKey)
    requires a != b
    ensures KeyLess(a, b) || KeyLess(b, a)
  {
    if a.text != b.text {
      TextLessTotal(a.text, b.text);
    }
  }

  /** Each key comes strictly before every later one. */
  ghost predicate Sorted(xs: seq<SortKey>) {
    forall i, j :: 0 <= i < j < |xs| ==> KeyLess(xs[i], xs[j])
  }

  /** `xs` with `x` placed before the first key it precedes. */
  function Insert(xs: seq<SortKey>, x: SortKey): seq<SortKey>
  {
    if |xs| == 0 then [x]
    else if KeyLess(x, xs[0]) then [x] + xs
    else [xs[0]] + Insert(xs[1..], x)
  }

  lemma {:induction false} InsertSorted(xs: seq<SortKey>, x: SortKey)
    requires Sorted(xs)
    requires x !in xs
    ensures Sorted(Insert(xs, x))
    ensures forall y :: y in Insert(xs, x) <==> y in xs || y == x
    ensures |Insert(xs, x)| == |xs| + 1
    decreases |xs|
  {
    if |xs| > 0 && KeyLess(x, xs[0]) {
      forall j | 0 <= j < |xs| ensures KeyLess(x, xs[j]) {
        if j > 0 {
          KeyLessTransitive(x, xs[0], xs[j]);
        }
      }
    } else if |xs| > 0 {
      assert xs[0] in xs;
      KeyLessTotal(x, xs[0]);
      InsertSorted(xs[1..], x);
      var tail := Insert(xs[1..], x);
      forall y | y in tail ensures KeyLess(xs[0], y) {
        if y != x {
          var k :| 1 <= k < |xs| && xs[k] == y;
        }
      }
    }
  }

  /** The keys of `s` as the sequence that is strictly sorted. */
  method Sort(s: set<SortKey>) returns (r: seq<SortKey>)
    ensures Sorted(r)
    ensures forall x :: x in r <==> x in s
    ensures |r| == |s|
  {
    r := [];
    var rest := s;
    while rest != {}
      invariant Sorted(r)
      invariant forall x :: x in r <==> x in s && x !in rest
      invariant rest <= s
      invariant |r| + |rest| == |s|
      decreases |rest|
    {
      var x :| x in rest;
      InsertSorted(r, x);
      r := Insert(r, x);
      rest := rest - {x};
    }
  }

  /** The ids of the rows, in the order of their sort keys; every key carries
      the id of its row, so no id appears twice. */
  method OrderIds(keys: map<int, SortKey>) returns (ids: seq<int>)
    requires forall id :: id in keys ==> keys[id].id == id
    ensures forall i :: 0 <= i < |ids| ==> ids[i] in keys
    ensures forall id :: id in ids <==> id in keys
    ensures forall i, j :: 0 <= i < j < |ids| ==> KeyLess(keys[ids[i]], keys[ids[j]])
    ensures forall i, j :: 0 <= i < j < |ids| ==> ids[i] != ids[j]
  {
    var all := set id | id in keys :: keys[id];
    var sorted := Sort(all);
    forall i | 0 <= i < |sorted| ensures sorted[i].id in keys && keys[sorted[i].id] == sorted[i] {
      assert sorted[i] in sorted;
      assert sorted[i] in all;
      var id :| id in keys && keys[id] == sorted[i];
      assert keys[id].id == id;
    }
    ids := seq(|sorted|, i requires 0 <= i < |sorted| => sorted[i].id);
    forall id | id in keys ensures id in ids {
      assert keys[id] in all;
      var i :| 0 <= i < |sorted| && sorted[i] == keys[id];
      assert ids[i] == id;
    }
    forall i, j | 0 <= i < j < |ids| ensures ids[i] != ids[j] {
      KeyLessIrreflexive(sorted[i]);
    }
  }

  /** Two strictly sorted sequences with the same keys are equal: the order a
      listing is returned in is determined by the rows alone. */
  lemma {:induction false} SortedUnique(a: seq<SortKey>, b: seq<SortKey>)
    requires Sorted(a) && Sorted(b)
    requires forall x :: x in a <==> x in b
    ensures a == b
    decreases |a|
  {
    if |a| > 0 {
      assert a[0] in a;
    }
    if |b| > 0 {
      assert b[0] in b;
    }
    if |a| > 0 && |b| > 0 {
      if a[0] != b[0] {
        var k :| 0 <= k < |a| && a[k] == b[0];
        var m :| 0 <= m < |b| && b[m] == a[0];
        assert k > 0 && m > 0;
        KeyLessTransitive(a[0], b[0], a[0]);
        KeyLessIrreflexive(a[0]);
      }
      forall x ensures x in a[1..] <==> x in b[1..] {
        KeyLessIrreflexive(a[0]);
        if x in a[1..] {
          var k :| 1 <= k < |a| && a[k] == x;
          assert KeyLess(a[0], a[k]);
          assert x in a && x in b;
          var m :| 0 <= m < |b| && b[m] == x;
          assert b[1..][m - 1] == x;
        }
        if x in b[1..] {
          var k :| 1 <= k < |b| && b[k] == x;
          assert KeyLess(b[0], b[k]);
          assert x in b && x in a;
          var m :| 0 <= m < |a| && a[m] == x;
          assert a[1..][m - 1] == x;
        }
      }
      SortedUnique(a[1..], b[1..]);
    }
  }

  /** A row left out of the first `n` of a listing of every row in key order
      comes after each of those `n`. */
  lemma LeftOutComesLater(keys: map<int, SortKey>, ids: seq<int>, n: nat, id: int)
    requires forall x :: x in ids <==> x in keys
    requires forall i :: 0 <= i < |ids| ==> ids[i] in keys
    requires forall i, j :: 0 <= i < j < |ids| ==> KeyLess(keys[ids[i]], keys[ids[j]])
    requires n <= |ids| && id in keys
    requires forall i :: 0 <= i < n ==> ids[i] != id
    ensures n < |ids|
    ensures forall i :: 0 <= i < n ==> KeyLess(keys[ids[i]], keys[id])
  {
    var k :| 0 <= k < |ids| && ids[k] == id;
    assert n <= k;
  }
}
