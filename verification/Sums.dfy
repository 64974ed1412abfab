/** Sums of usage over keyed items, and what grouping, ranking and regrouping keep of them. */
module Sums {
  import opened Ranking

  datatype Usage = Usage(tasks: nat, input: nat, output: nat, cacheRead: nat, cacheWrite: nat, cost: real)

  datatype Field = Tasks | Input | Output | CacheRead | CacheWrite | Cost

  function Read(u: Usage, f: Field): real {
    match f
    case Tasks => u.tasks as real
    case Input => u.input as real
    case Output => u.output as real
    case CacheRead => u.cacheRead as real
    case CacheWrite => u.cacheWrite as real
    case Cost => u.cost
  }

  lemma {:induction false} SameUsage(u: Usage, v: Usage)
    requires forall f :: Read(u, f) == Read(v, f)
    ensures u == v
  {
    assert Read(u, Tasks) == Read(v, Tasks) && Read(u, Input) == Read(v, Input) && Read(u, Output) == Read(v, Output);
    assert Read(u, CacheRead) == Read(v, CacheRead) && Read(u, CacheWrite) == Read(v, CacheWrite)
           && Read(u, Cost) == Read(v, Cost);
  }

  datatype Item = Item(key: string, usage: Usage)

  /** The total of one field. */
  function Sum(xs: seq<Item>, f: Field): real {
    if xs == [] then 0.0 else Sum(xs[..|xs| - 1], f) + Read(xs[|xs| - 1].usage, f)
  }

  /** What an item adds to the sum for key `k`. */
  function Share(x: Item, k: string, f: Field): real { if x.key == k then Read(x.usage, f) else 0.0 }

  function SumFor(xs: seq<Item>, k: string, f: Field): real {
    if xs == [] then 0.0 else SumFor(xs[..|xs| - 1], k, f) + Share(xs[|xs| - 1], k, f)
  }

  // ---- Entering items into a map ------------------------------------------------------------

  function Entered(b: map<string, Usage>, x: Item): map<string, Usage> {
    var u := x.usage;
    if x.key !in b then b[x.key := u]
    else
      var e := b[x.key];
      b[x.key := Usage(e.tasks + u.tasks, e.input + u.input, e.output + u.output,
                       e.cacheRead + u.cacheRead, e.cacheWrite + u.cacheWrite, e.cost + u.cost)]
  }

  function Buckets(xs: seq<Item>): map<string, Usage> {
    if xs == [] then map[] else Entered(Buckets(xs[..|xs| - 1]), xs[|xs| - 1])
  }

  predicate Named(xs: seq<Item>, k: string) { exists i :: 0 <= i < |xs| && xs[i].key == k }

  function ReadAt(b: map<string, Usage>, k: string, f: Field): real { if k in b then Read(b[k], f) else 0.0 }

  lemma {:induction false} EnteredReads(b: map<string, Usage>, x: Item, k: string, f: Field)
    ensures ReadAt(Entered(b, x), k, f) == ReadAt(b, k, f) + Share(x, k, f)
    ensures k in Entered(b, x) <==> k in b || k == x.key
  {
  }

  /** The map has an entry for each key that occurs, and each field of the entry is the sum over that key's items. */
  lemma {:induction false} BucketsMean(xs: seq<Item>, k: string, f: Field)
    ensures k in Buckets(xs) <==> Named(xs, k)
    ensures ReadAt(Buckets(xs), k, f) == SumFor(xs, k, f)
    decreases |xs|
  {
    if xs != [] {
      var n := |xs| - 1;
      BucketsMean(xs[..n], k, f);
      NamedSnoc(xs[..n], xs[n], k);
      assert xs == xs[..n] + [xs[n]];
      EnteredReads(Buckets(xs[..n]), xs[n], k, f);
    }
  }

  lemma {:induction false} NamedSnoc(xs: seq<Item>, x: Item, k: string)
    ensures Named(xs + [x], k) <==> Named(xs, k) || x.key == k
  {
    NamedConcat(xs, [x], k);
    assert [x][0].key == x.key;
  }

  lemma {:induction false} NamedConcat(xs: seq<Item>, ys: seq<Item>, k: string)
    ensures Named(xs + ys, k) <==> Named(xs, k) || Named(ys, k)
  {
    if Named(xs, k) { var i :| 0 <= i < |xs| && xs[i].key == k; assert (xs + ys)[i].key == k; }
    if Named(ys, k) { var i :| 0 <= i < |ys| && ys[i].key == k; assert (xs + ys)[|xs| + i].key == k; }
  }

  lemma {:induction false} SumSnoc(xs: seq<Item>, x: Item, k: string, f: Field)
    ensures SumFor(xs + [x], k, f) == SumFor(xs, k, f) + Share(x, k, f)
    ensures Sum(xs + [x], f) == Sum(xs, f) + Read(x.usage, f)
  {
    assert (xs + [x])[..|xs|] == xs;
  }

  lemma {:induction false} BucketsSnoc(xs: seq<Item>, x: Item)
    ensures Buckets(xs + [x]) == Entered(Buckets(xs), x)
  {
    assert (xs + [x])[..|xs|] == xs;
  }

  lemma {:induction false} SumConcat(xs: seq<Item>, ys: seq<Item>, k: string, f: Field)
    ensures SumFor(xs + ys, k, f) == SumFor(xs, k, f) + SumFor(ys, k, f)
    ensures Sum(xs + ys, f) == Sum(xs, f) + Sum(ys, f)
    decreases |ys|
  {
    if ys == [] {
      assert xs + ys == xs;
    } else {
      var n := |ys| - 1;
      var front, y := ys[..n], ys[n];
      assert ys == front + [y] && xs + ys == (xs + front) + [y];
      SumConcat(xs, front, k, f);
      SumSnoc(xs + front, y, k, f);
      SumSnoc(front, y, k, f);
    }
  }

  // ---- Conservation ---------------------------------------------------------------------------

  function SumOver(ks: seq<string>, xs: seq<Item>, f: Field): real {
    if ks == [] then 0.0 else SumOver(ks[..|ks| - 1], xs, f) + SumFor(xs, ks[|ks| - 1], f)
  }

  lemma {:induction false} SumOverSnoc(ks: seq<string>, xs: seq<Item>, x: Item, f: Field)
    requires forall i, j :: 0 <= i < j < |ks| ==> ks[i] != ks[j]
    ensures SumOver(ks, xs + [x], f) == SumOver(ks, xs, f) + (if x.key in ks then Read(x.usage, f) else 0.0)
    decreases |ks|
  {
    if ks != [] {
      var n := |ks| - 1;
      var front, k := ks[..n], ks[n];
      SumOverSnoc(front, xs, x, f);
      assert ks == front + [k] && k !in front;
      SumSnoc(xs, x, k, f);
    }
  }

  /** The sums of any list of distinct keys that covers the items add up to the items' total. */
  lemma {:induction false} KeysCoverTotal(ks: seq<string>, xs: seq<Item>, f: Field)
    requires forall i, j :: 0 <= i < j < |ks| ==> ks[i] != ks[j]
    requires forall i :: 0 <= i < |xs| ==> xs[i].key in ks
    ensures SumOver(ks, xs, f) == Sum(xs, f)
    decreases |xs|
  {
    if xs == [] {
      NothingToSum(ks, xs, f);
    } else {
      var n := |xs| - 1;
      KeysCoverTotal(ks, xs[..n], f);
      assert xs == xs[..n] + [xs[n]];
      SumOverSnoc(ks, xs[..n], xs[n], f);
      SumSnoc(xs[..n], xs[n], "", f);
    }
  }

  lemma {:induction false} NothingToSum(ks: seq<string>, xs: seq<Item>, f: Field)
    requires xs == []
    ensures SumOver(ks, xs, f) == 0.0
    decreases |ks|
  {
    if ks != [] { NothingToSum(ks[..|ks| - 1], xs, f); }
  }

  type Row = Ranked<Usage>

  function RowItems(rows: seq<Row>): (xs: seq<Item>)
    ensures |xs| == |rows| && forall i :: 0 <= i < |rows| ==> xs[i] == Item(rows[i].key, rows[i].value)
  {
    seq(|rows|, i requires 0 <= i < |rows| => Item(rows[i].key, rows[i].value))
  }

  function CostOf(u: Usage): real { u.cost }

  /** The ranking by cost of the buckets of `xs`. */
  ghost predicate IsRollup(rows: seq<Row>, xs: seq<Item>) { IsRanking(rows, Buckets(xs), CostOf) }

  lemma {:induction false} OneRowPerKey(xs: seq<Item>, i: nat, f: Field)
    requires i < |xs| && forall i, j :: 0 <= i < j < |xs| ==> xs[i].key != xs[j].key
    ensures SumFor(xs, xs[i].key, f) == Read(xs[i].usage, f)
    decreases |xs|
  {
    var n := |xs| - 1;
    var front := xs[..n];
    assert xs == front + [xs[n]];
    SumSnoc(front, xs[n], xs[i].key, f);
    if i < n {
      OneRowPerKey(front, i, f);
    } else {
      BucketsMean(front, xs[n].key, f);
    }
  }

  /** Grouping rows with distinct keys again gives every key the value it had. */
  lemma {:induction false} RegroupedTable(rows: seq<Row>, m: map<string, Usage>, k: string, f: Field)
    requires Tabulates(rows, m)
    ensures SumFor(RowItems(rows), k, f) == ReadAt(m, k, f) && (Named(RowItems(rows), k) <==> k in m)
  {
    var ys := RowItems(rows);
    if k in m {
      var i :| 0 <= i < |rows| && rows[i].key == k;
      OneRowPerKey(ys, i, f);
      assert ys[i].key == k;
    } else {
      assert !Named(ys, k);
      BucketsMean(ys, k, f);
    }
  }

  lemma {:induction false} RegroupedRows(rows: seq<Row>, xs: seq<Item>, k: string, f: Field)
    requires Tabulates(rows, Buckets(xs))
    ensures SumFor(RowItems(rows), k, f) == SumFor(xs, k, f) && (Named(RowItems(rows), k) <==> Named(xs, k))
  {
    RegroupedTable(rows, Buckets(xs), k, f);
    BucketsMean(xs, k, f);
  }

  lemma {:induction false} KeysCovered(rows: seq<Row>, xs: seq<Item>, ks: seq<string>, i: nat)
    requires Tabulates(rows, Buckets(xs)) && i < |xs|
    requires |ks| == |rows| && forall j :: 0 <= j < |ks| ==> ks[j] == rows[j].key
    ensures xs[i].key in ks
  {
    assert Named(xs, xs[i].key);
    BucketsMean(xs, xs[i].key, Cost);
    var j :| 0 <= j < |rows| && rows[j].key == xs[i].key;
    assert ks[j] == xs[i].key;
  }

  lemma {:induction false} TableConserves(rows: seq<Row>, xs: seq<Item>, f: Field)
    requires Tabulates(rows, Buckets(xs))
    ensures Sum(RowItems(rows), f) == Sum(xs, f)
  {
    var ys := RowItems(rows);
    var ks := seq(|rows|, i requires 0 <= i < |rows| => rows[i].key);
    forall i | 0 <= i < |xs| ensures xs[i].key in ks { KeysCovered(rows, xs, ks, i); }
    forall i | 0 <= i < |ys| ensures ys[i].key in ks { assert ks[i] == ys[i].key; }
    KeysCoverTotal(ks, xs, f);
    KeysCoverTotal(ks, ys, f);
    forall k ensures SumFor(ys, k, f) == SumFor(xs, k, f) { RegroupedRows(rows, xs, k, f); }
    SameSums(ks, xs, ys, f);
  }

  /** No task, token or dollar is lost or counted twice between the records and the rows. */
  lemma {:induction false} RollupConserves(rows: seq<Row>, xs: seq<Item>, f: Field)
    requires IsRollup(rows, xs)
    ensures Sum(RowItems(rows), f) == Sum(xs, f)
  {
    RankingTabulates(rows, Buckets(xs), CostOf);
    TableConserves(rows, xs, f);
  }

  lemma {:induction false} SameSums(ks: seq<string>, xs: seq<Item>, ys: seq<Item>, f: Field)
    requires forall k :: SumFor(ys, k, f) == SumFor(xs, k, f)
    ensures SumOver(ks, ys, f) == SumOver(ks, xs, f)
    decreases |ks|
  {
    if ks != [] { SameSums(ks[..|ks| - 1], xs, ys, f); }
  }

  /** Two lists with the same sums and keys group into the same map. */
  lemma {:induction false} SameBuckets(xs: seq<Item>, ys: seq<Item>)
    requires forall k, f :: SumFor(xs, k, f) == SumFor(ys, k, f)
    requires forall k :: Named(xs, k) <==> Named(ys, k)
    ensures Buckets(xs) == Buckets(ys)
  {
    var b, c := Buckets(xs), Buckets(ys);
    forall k ensures k in b <==> k in c {
      BucketsMean(xs, k, Cost);
      BucketsMean(ys, k, Cost);
    }
    forall k | k in b ensures b[k] == c[k] {
      forall f ensures Read(b[k], f) == Read(c[k], f) {
        BucketsMean(xs, k, f);
        BucketsMean(ys, k, f);
      }
      SameUsage(b[k], c[k]);
    }
  }
}
