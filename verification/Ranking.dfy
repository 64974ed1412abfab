/** Reports list the entries of a keyed map by falling score, ties in key order. */
module Ranking {
  import opened Sorting

  datatype Ranked<T> = Ranked(score: real, key: string, value: T)

  predicate Higher<T>(x: Ranked<T>, y: Ranked<T>) {
    x.score > y.score || (x.score == y.score && x.key != y.key && LexLe(x.key, y.key))
  }

  ghost predicate Falling<T>(rows: seq<Ranked<T>>) {
    forall i, j :: 0 <= i < j < |rows| ==> Higher(rows[i], rows[j])
  }

  /** `rows` holds each entry of `m` once, ranked. */
  ghost predicate IsRanking<T(!new)>(rows: seq<Ranked<T>>, m: map<string, T>, score: T -> real) {
    && Falling(rows)
    && forall x :: x in rows <==> x.key in m && x == Ranked(score(m[x.key]), x.key, m[x.key])
  }

  lemma {:induction false} HigherTrans<T>(x: Ranked<T>, y: Ranked<T>, z: Ranked<T>)
    requires Higher(x, y) && Higher(y, z)
    ensures Higher(x, z)
  {
    if x.score == z.score {
      LexTrans(x.key, y.key, z.key);
      LexTotal(x.key, y.key);
    }
  }

  lemma {:induction false} HigherTotal<T>(x: Ranked<T>, y: Ranked<T>)
    requires x.key != y.key
    ensures Higher(x, y) != Higher(y, x)
  {
    LexTotal(x.key, y.key);
  }

  function Place<T>(x: Ranked<T>, rows: seq<Ranked<T>>): seq<Ranked<T>> {
    if rows == [] then [x]
    else if Higher(x, rows[0]) then [x] + rows
    else [rows[0]] + Place(x, rows[1..])
  }

  lemma {:induction false} PlaceMembers<T>(x: Ranked<T>, rows: seq<Ranked<T>>, y: Ranked<T>)
    ensures y in Place(x, rows) <==> y == x || y in rows
    decreases |rows|
  {
    if rows != [] {
      assert rows == [rows[0]] + rows[1..];
      if !Higher(x, rows[0]) { PlaceMembers(x, rows[1..], y); }
    }
  }

  lemma {:induction false} PlaceFalls<T>(x: Ranked<T>, rows: seq<Ranked<T>>)
    requires Falling(rows) && forall i :: 0 <= i < |rows| ==> rows[i].key != x.key
    ensures Falling(Place(x, rows))
    decreases |rows|
  {
    if rows != [] {
      if Higher(x, rows[0]) {
        forall i | 0 <= i < |rows| ensures Higher(x, rows[i]) {
          if i > 0 { HigherTrans(x, rows[0], rows[i]); }
        }
      } else {
        HigherTotal(x, rows[0]);
        PlaceFalls(x, rows[1..]);
        var rest := Place(x, rows[1..]);
        forall i | 0 <= i < |rest| ensures Higher(rows[0], rest[i]) {
          assert rest[i] in rest;
          PlaceMembers(x, rows[1..], rest[i]);
        }
      }
    }
  }

  method RankAll<T(!new)>(m: map<string, T>, score: T -> real) returns (rows: seq<Ranked<T>>)
    ensures IsRanking(rows, m, score)
  {
    rows := [];
    var left := m.Keys;
    while left != {}
      invariant left <= m.Keys && Falling(rows)
      invariant forall x :: x in rows <==> x.key in m && x.key !in left && x == Ranked(score(m[x.key]), x.key, m[x.key])
      decreases left
    {
      var k :| k in left;
      var x := Ranked(score(m[k]), k, m[k]);
      forall i | 0 <= i < |rows| ensures rows[i].key != k { assert rows[i] in rows; }
      PlaceFalls(x, rows);
      forall y ensures y in Place(x, rows) <==> y == x || y in rows { PlaceMembers(x, rows, y); }
      rows := Place(x, rows);
      left := left - {k};
    }
  }

  /** A ranking is determined by its map: nothing depends on the order of insertion. */
  lemma {:induction false} FallingUnique<T(!new)>(xs: seq<Ranked<T>>, ys: seq<Ranked<T>>)
    requires Falling(xs) && Falling(ys) && forall x :: x in xs <==> x in ys
    ensures xs == ys
    decreases |xs|
  {
    if ys != [] { assert ys[0] in xs; }
    if xs == [] {
      assert xs == ys;
    } else {
      assert xs[0] in ys;
      SameTop(xs, ys);
      forall x ensures x in xs[1..] <==> x in ys[1..] {
        BelowTop(xs, x);
        BelowTop(ys, x);
      }
      FallingUnique(xs[1..], ys[1..]);
      assert xs == [xs[0]] + xs[1..] && ys == [ys[0]] + ys[1..];
    }
  }

  lemma {:induction false} SameTop<T>(xs: seq<Ranked<T>>, ys: seq<Ranked<T>>)
    requires Falling(xs) && Falling(ys) && xs != [] && ys != [] && xs[0] in ys && ys[0] in xs
    ensures xs[0] == ys[0]
  {
    var i :| 0 <= i < |xs| && xs[i] == ys[0];
    var j :| 0 <= j < |ys| && ys[j] == xs[0];
    if i != 0 && j != 0 {
      assert Higher(xs[0], xs[i]) && Higher(ys[0], ys[j]);
      HigherTrans(xs[0], ys[0], xs[0]);
    }
  }

  lemma {:induction false} BelowTop<T>(xs: seq<Ranked<T>>, x: Ranked<T>)
    requires Falling(xs) && xs != []
    ensures x in xs[1..] <==> x in xs && x != xs[0]
  {
    if x in xs[1..] {
      var i :| 0 <= i < |xs[1..]| && xs[1..][i] == x;
      assert Higher(xs[0], xs[i + 1]);
    }
  }

  lemma {:induction false} RankingUnique<T(!new)>(xs: seq<Ranked<T>>, ys: seq<Ranked<T>>, m: map<string, T>,
                                                  score: T -> real)
    requires IsRanking(xs, m, score) && IsRanking(ys, m, score)
    ensures xs == ys
  {
    FallingUnique(xs, ys);
  }

  /** Each key of `m` stands at exactly one place of `rows`, with its value. */
  ghost predicate Tabulates<T>(rows: seq<Ranked<T>>, m: map<string, T>) {
    && (forall i, j :: 0 <= i < j < |rows| ==> rows[i].key != rows[j].key)
    && (forall i :: 0 <= i < |rows| ==> rows[i].key in m && rows[i].value == m[rows[i].key])
    && (forall k :: k in m ==> exists i :: 0 <= i < |rows| && rows[i].key == k)
  }

  lemma {:induction false} RankingTabulates<T(!new)>(rows: seq<Ranked<T>>, m: map<string, T>, score: T -> real)
    requires IsRanking(rows, m, score)
    ensures Tabulates(rows, m)
  {
    assert forall i :: 0 <= i < |rows| ==> rows[i] in rows;
    forall i, j | 0 <= i < j < |rows| ensures rows[i].key != rows[j].key {
      assert Higher(rows[i], rows[j]);
    }
    forall k | k in m ensures exists i :: 0 <= i < |rows| && rows[i].key == k {
      var x := Ranked(score(m[k]), k, m[k]);
      assert x in rows;
      var i :| 0 <= i < |rows| && rows[i] == x;
    }
  }
}
