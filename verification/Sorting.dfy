/** Sorting by time with ties broken on a unique id: the one listing that does not depend on map order. */
module Sorting {
  type Id = string

  /** The order of Rust strings, code point by code point. */
  predicate LexLe(a: string, b: string) {
    a == [] || (b != [] && (a[0] < b[0] || (a[0] == b[0] && LexLe(a[1..], b[1..]))))
  }

  lemma {:induction false} LexTotal(a: string, b: string)
    ensures LexLe(a, b) || LexLe(b, a)
    ensures LexLe(a, b) && LexLe(b, a) ==> a == b
    decreases |a|
  {
    if a != [] && b != [] {
      LexTotal(a[1..], b[1..]);
      assert a == [a[0]] + a[1..] && b == [b[0]] + b[1..];
    }
  }

  lemma {:induction false} LexTrans(a: string, b: string, c: string)
    requires LexLe(a, b) && LexLe(b, c)
    ensures LexLe(a, c)
    decreases |a|
  {
    if a != [] && b != [] && c != [] && a[0] == b[0] == c[0] { LexTrans(a[1..], b[1..], c[1..]); }
  }

  /** Anything stamped with a time and an id. */
  datatype Stamped<T> = Stamped(time: int, id: Id, value: T)

  predicate Le<T>(x: Stamped<T>, y: Stamped<T>) {
    x.time < y.time || (x.time == y.time && LexLe(x.id, y.id))
  }

  predicate Before<T>(x: Stamped<T>, y: Stamped<T>) { Le(x, y) && x.id != y.id }

  /** Sorted by time then id, no id twice at the same time. */
  ghost predicate Ascending<T>(xs: seq<Stamped<T>>) {
    forall i, j :: 0 <= i < j < |xs| ==> Before(xs[i], xs[j])
  }

  lemma {:induction false} LeTrans<T>(x: Stamped<T>, y: Stamped<T>, z: Stamped<T>)
    requires Le(x, y) && Le(y, z)
    ensures Le(x, z)
  {
    if x.time == y.time == z.time { LexTrans(x.id, y.id, z.id); }
  }

  lemma {:induction false} LeTotal<T>(x: Stamped<T>, y: Stamped<T>)
    ensures Le(x, y) || Le(y, x)
    ensures Le(x, y) && Le(y, x) ==> x.id == y.id && x.time == y.time
  {
    LexTotal(x.id, y.id);
  }

  function Insert<T>(x: Stamped<T>, xs: seq<Stamped<T>>): seq<Stamped<T>> {
    if xs == [] then [x]
    else if Le(x, xs[0]) then [x] + xs
    else [xs[0]] + Insert(x, xs[1..])
  }

  function Sort<T>(xs: seq<Stamped<T>>): seq<Stamped<T>> {
    if xs == [] then [] else Insert(xs[0], Sort(xs[1..]))
  }

  ghost predicate DistinctIds<T>(xs: seq<Stamped<T>>) {
    forall i, j :: 0 <= i < j < |xs| ==> xs[i].id != xs[j].id
  }

  lemma {:induction false} InsertFits<T>(x: Stamped<T>, xs: seq<Stamped<T>>)
    ensures multiset(Insert(x, xs)) == multiset(xs) + multiset{x}
    ensures Ascending(xs) && (forall i :: 0 <= i < |xs| ==> xs[i].id != x.id) ==> Ascending(Insert(x, xs))
    decreases |xs|
  {
    if xs != [] {
      assert xs == [xs[0]] + xs[1..];
      if Le(x, xs[0]) {
        forall i | 0 <= i < |xs| && Ascending(xs) ensures Le(x, xs[i]) {
          if i > 0 { LeTrans(x, xs[0], xs[i]); }
        }
      } else {
        InsertFits(x, xs[1..]);
        LeTotal(x, xs[0]);
        var r := Insert(x, xs[1..]);
        forall i | 0 <= i < |r| && Ascending(xs) && (forall i :: 0 <= i < |xs| ==> xs[i].id != x.id)
          ensures Before(xs[0], r[i]) {
          assert r[i] in multiset(r);
          assert r[i] == x || r[i] in xs[1..];
        }
      }
    }
  }

  lemma {:induction false} SortFits<T>(xs: seq<Stamped<T>>)
    ensures multiset(Sort(xs)) == multiset(xs)
    ensures DistinctIds(xs) ==> Ascending(Sort(xs))
    decreases |xs|
  {
    if xs != [] {
      assert xs == [xs[0]] + xs[1..];
      SortFits(xs[1..]);
      InsertFits(xs[0], Sort(xs[1..]));
      if DistinctIds(xs) {
        forall i | 0 <= i < |Sort(xs[1..])| ensures Sort(xs[1..])[i].id != xs[0].id {
          assert Sort(xs[1..])[i] in multiset(xs[1..]);
        }
      }
    }
  }

  /** Two ascending listings of the same elements are the same listing. */
  lemma {:induction false} AscendingUnique<T(!new)>(xs: seq<Stamped<T>>, ys: seq<Stamped<T>>)
    requires Ascending(xs) && Ascending(ys) && forall x :: x in xs <==> x in ys
    ensures xs == ys
    decreases |xs|
  {
    if ys != [] { assert ys[0] in xs; }
    if xs == [] {
      assert xs == ys;
    } else {
      assert xs[0] in ys;
      SameFirst(xs, ys);
      forall x ensures x in xs[1..] <==> x in ys[1..] {
        TailMembers(xs, x);
        TailMembers(ys, x);
      }
      AscendingUnique(xs[1..], ys[1..]);
      assert xs == [xs[0]] + xs[1..] && ys == [ys[0]] + ys[1..];
    }
  }

  lemma {:induction false} TailMembers<T>(xs: seq<Stamped<T>>, x: Stamped<T>)
    requires Ascending(xs) && xs != []
    ensures x in xs[1..] <==> x in xs && x != xs[0]
  {
    if x in xs[1..] {
      var i :| 0 <= i < |xs[1..]| && xs[1..][i] == x;
      assert Before(xs[0], xs[i + 1]);
    }
  }

  lemma {:induction false} SameFirst<T>(xs: seq<Stamped<T>>, ys: seq<Stamped<T>>)
    requires Ascending(xs) && Ascending(ys) && xs != [] && ys != [] && xs[0] in ys && ys[0] in xs
    ensures xs[0] == ys[0]
  {
    var i :| 0 <= i < |xs| && xs[i] == ys[0];
    var j :| 0 <= j < |ys| && ys[j] == xs[0];
    LeTotal(xs[0], ys[0]);
    assert i == 0 || j == 0;
  }

  /** `order` visits every key of `m` once, as some iteration of a hash map does. */
  ghost predicate Visits<V>(order: seq<Id>, m: map<Id, V>) {
    && (forall i, j :: 0 <= i < j < |order| ==> order[i] != order[j])
    && (forall id :: id in order <==> id in m)
  }

  /** Values are stored under their own ids. */
  ghost predicate Keyed<T>(m: map<Id, Stamped<T>>) { forall id :: id in m ==> m[id].id == id }

  ghost predicate IsListing<T(!new)>(xs: seq<Stamped<T>>, m: map<Id, Stamped<T>>) {
    Ascending(xs) && forall x :: x in xs <==> (x.id in m && m[x.id] == x)
  }

  /** Sorting the values in any iteration order gives the one listing. */
  lemma {:induction false} SortedVisitIsListing<T(!new)>(order: seq<Id>, m: map<Id, Stamped<T>>, xs: seq<Stamped<T>>)
    requires Keyed(m) && Visits(order, m)
    requires |xs| == |order| && forall i :: 0 <= i < |order| ==> xs[i] == m[order[i]]
    ensures IsListing(Sort(xs), m)
  {
    assert DistinctIds(xs) by {
      forall i, j | 0 <= i < j < |xs| ensures xs[i].id != xs[j].id {
        assert order[i] in m && order[j] in m;
      }
    }
    SortFits(xs);
    forall x ensures x in Sort(xs) <==> (x.id in m && m[x.id] == x) {
      assert x in Sort(xs) <==> x in multiset(Sort(xs));
      assert x in xs <==> x in multiset(xs);
      if x in xs {
        var i :| 0 <= i < |xs| && xs[i] == x;
        assert order[i] in m;
      }
      if x.id in m && m[x.id] == x {
        var i :| 0 <= i < |order| && order[i] == x.id;
        assert xs[i] == x;
      }
    }
  }

  lemma {:induction false} ListingExists<T(!new)>(m: map<Id, Stamped<T>>)
    requires Keyed(m)
    ensures exists xs :: IsListing(xs, m)
    decreases |m|
  {
    if m == map[] {
      assert IsListing([], m);
    } else {
      var id :| id in m;
      var rest := m - {id};
      ListingExists(rest);
      var ys :| IsListing(ys, rest);
      var xs := Insert(m[id], ys);
      assert forall i :: 0 <= i < |ys| ==> ys[i] in ys;
      InsertFits(m[id], ys);
      forall x ensures x in xs <==> (x.id in m && m[x.id] == x) {
        assert x in xs <==> x in multiset(xs);
        assert x in ys <==> x in multiset(ys);
      }
      assert IsListing(xs, m);
    }
  }

  ghost function Listing<T(!new)>(m: map<Id, Stamped<T>>): (xs: seq<Stamped<T>>)
    requires Keyed(m)
    ensures IsListing(xs, m)
  {
    ListingExists(m);
    var xs :| IsListing(xs, m);
    xs
  }

  lemma {:induction false} ListingUnique<T(!new)>(xs: seq<Stamped<T>>, m: map<Id, Stamped<T>>)
    requires Keyed(m) && IsListing(xs, m)
    ensures xs == Listing(m)
  {
    AscendingUnique(xs, Listing(m));
  }
}
