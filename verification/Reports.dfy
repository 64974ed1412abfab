/** Model prices by family. */
module Prices {
  import opened Options
  import opened Text
  import opened Rollups

  datatype Family = Opus | Sonnet | Haiku

  function FamilyOf(model: string): Option<Family> {
    var lc := Lower(model);
    if Contains(lc, "opus") then Some(Opus)
    else if Contains(lc, "sonnet") then Some(Sonnet)
    else if Contains(lc, "haiku") then Some(Haiku)
    else None
  }

  lemma {:induction false} NotAt(s: string, p: string, i: nat, k: nat)
    requires i + k < |s| && k < |p| && s[i + k] != p[k]
    ensures !At(s, p, i)
  {
    assert i + |p| <= |s| ==> s[i..i + |p|][k] == s[i + k];
  }

  lemma {:induction false} ShortNames()
    ensures FamilyOf("opus") == Some(Opus) && FamilyOf("sonnet") == Some(Sonnet)
  {
    assert Lower("opus") == "opus" && Lower("sonnet") == "sonnet";
    assert At("opus", "opus", 0) && At("sonnet", "sonnet", 0);
    NotAt("sonnet", "opus", 0, 0);
    NotAt("sonnet", "opus", 1, 1);
    NotAt("sonnet", "opus", 2, 0);
  }

  /** Dollars per million tokens of each sort. */
  function Price(f: Family, t: Tokens): real {
    match f
    case Opus =>
      (t.input as real * 15.0 + t.output as real * 75.0 + t.cacheRead as real * 1.5
       + t.cacheWrite as real * 18.75) / 1000000.0
    case Sonnet =>
      (t.input as real * 3.0 + t.output as real * 15.0 + t.cacheRead as real * 0.3
       + t.cacheWrite as real * 3.75) / 1000000.0
    case Haiku =>
      (t.input as real * 0.8 + t.output as real * 4.0 + t.cacheRead as real * 0.08
       + t.cacheWrite as real * 1.0) / 1000000.0
  }

  function CostUsd(model: string, t: Tokens): Option<real> {
    match FamilyOf(model) case None => None case Some(f) => Some(Price(f, t))
  }

  predicate NoTokens(t: Tokens) { t.input == t.output == t.cacheRead == t.cacheWrite == 0 }

  lemma {:induction false} PriceIsZeroIff(f: Family, t: Tokens)
    ensures Price(f, t) >= 0.0 && (Price(f, t) == 0.0 <==> NoTokens(t))
  {
    match f { case Opus => case Sonnet => case Haiku => }
  }

  /** Families price the same tokens differently, unless there are none. */
  lemma {:induction false} FamiliesPriceApart(f: Family, g: Family, t: Tokens)
    requires f != g
    ensures Price(f, t) == Price(g, t) <==> NoTokens(t)
  {
    match f { case Opus => case Sonnet => case Haiku => }
    match g { case Opus => case Sonnet => case Haiku => }
  }
}

/** The diff report beside the analysis of the same run. */
module Reports {
  import opened Options
  import opened Sums
  import opened Rollups
  import opened Prices

  // ---- Run totals ----------------------------------------------------------------------

  /** `diff` looks a record's model up in the map only. */
  function DiffCost(t: Task, book: Book): Option<real> { EffectiveCost(t, MapModel(book, t.id), book) }

  function DiffItem(t: Task, book: Book): Item {
    Item(t.id, Usage(1, t.tokens.input, t.tokens.output, t.tokens.cacheRead, t.tokens.cacheWrite,
                     OrZero(DiffCost(t, book))))
  }

  function DiffItems(ts: seq<Task>, book: Book): (xs: seq<Item>)
    ensures |xs| == |ts| && forall i :: 0 <= i < |ts| ==> xs[i] == DiffItem(ts[i], book)
  {
    seq(|ts|, i requires 0 <= i < |ts| => DiffItem(ts[i], book))
  }

  /** A run's summary, as far as a comparison reads it; times in milliseconds. */
  datatype Run = Run(id: string, startedAt: int, endedAt: int, total: nat, failed: nat, tasks: seq<Task>)

  datatype RunTotals = RunTotals(total: nat, failed: nat, wallMs: int,
                                 input: nat, output: nat, cacheRead: nat, cacheWrite: nat, cost: real)

  /** The counts and times of the summary, and the sums over its records. */
  ghost predicate TotalsOf(r: RunTotals, run: Run, book: Book) {
    && r.total == run.total && r.failed == run.failed && run.startedAt + r.wallMs == run.endedAt
    && SumsOf(r, run.tasks, book)
  }

  ghost predicate SumsOf(r: RunTotals, ts: seq<Task>, book: Book) {
    var xs := DiffItems(ts, book);
    && r.input as real == Sum(xs, Input) && r.output as real == Sum(xs, Output)
    && r.cacheRead as real == Sum(xs, CacheRead) && r.cacheWrite as real == Sum(xs, CacheWrite)
    && r.cost == Sum(xs, Field.Cost)
  }

  function Added(r: RunTotals, t: Task, c: Option<real>): RunTotals {
    r.(input := r.input + t.tokens.input, output := r.output + t.tokens.output,
       cacheRead := r.cacheRead + t.tokens.cacheRead,
       cacheWrite := r.cacheWrite + t.tokens.cacheWrite, cost := if c.Some? then r.cost + c.value else r.cost)
  }

  lemma {:induction false} AddedTotals(r: RunTotals, ts: seq<Task>, t: Task, book: Book)
    requires SumsOf(r, ts, book)
    ensures SumsOf(Added(r, t, DiffCost(t, book)), ts + [t], book)
  {
    var xs, x := DiffItems(ts, book), DiffItem(t, book);
    assert DiffItems(ts + [t], book) == xs + [x];
    SumSnoc(xs, x, "", Input);
    SumSnoc(xs, x, "", Output);
    SumSnoc(xs, x, "", CacheRead);
    SumSnoc(xs, x, "", CacheWrite);
    SumSnoc(xs, x, "", Field.Cost);
  }

  method ComputeTotals(run: Run, book: Book) returns (r: RunTotals)
    ensures TotalsOf(r, run, book)
  {
    var ts := run.tasks;
    r := RunTotals(run.total, run.failed, run.endedAt - run.startedAt, 0, 0, 0, 0, 0.0);
    for i := 0 to |ts|
      invariant r.total == run.total && r.failed == run.failed && r.wallMs == run.endedAt - run.startedAt
      invariant SumsOf(r, ts[..i], book)
    {
      assert ts[..i + 1] == ts[..i] + [ts[i]];
      AddedTotals(r, ts[..i], ts[i], book);
      r := Added(r, ts[i], DiffCost(ts[i], book));
    }
    assert ts[..|ts|] == ts;
  }

  // ---- Agreement with the analysis --------------------------------------------------------

  ghost predicate StandardPrices(book: Book) { forall m, t :: book.price(m, t) == CostUsd(m, t) }

  function FamilyOfModel(m: Option<string>): Option<Family> { if m.Some? then FamilyOf(m.value) else None }

  /** The cost is stored, or the record names no model of its own, or its family is the map's, or it used no tokens. */
  predicate SameBasis(t: Task, book: Book) {
    || t.stored.Some? || t.model.None?
    || FamilyOfModel(t.model) == FamilyOfModel(MapModel(book, t.id))
    || NoTokens(t.tokens)
  }

  /** The two reports put the same cost on a record exactly when they price it on the same basis. */
  lemma {:induction false} CostsAgreeIff(t: Task, book: Book)
    requires StandardPrices(book)
    ensures OrZero(DiffCost(t, book)) == OrZero(Rollups.Cost(t, book)) <==> SameBasis(t, book)
  {
    if t.stored.None? && t.model.Some? {
      var own, other := FamilyOfModel(t.model), FamilyOfModel(MapModel(book, t.id));
      assert OrZero(Rollups.Cost(t, book)) == (if own.Some? then Price(own.value, t.tokens) else 0.0);
      assert OrZero(DiffCost(t, book)) == (if other.Some? then Price(other.value, t.tokens) else 0.0);
      if own.Some? { PriceIsZeroIff(own.value, t.tokens); }
      if other.Some? { PriceIsZeroIff(other.value, t.tokens); }
      if own.Some? && other.Some? && own != other { FamiliesPriceApart(own.value, other.value, t.tokens); }
    }
  }

  lemma {:induction false} BothSnoc(ts: seq<Task>, t: Task, book: Book, f: Field)
    ensures Sum(DiffItems(ts + [t], book), f) == Sum(DiffItems(ts, book), f) + Read(DiffItem(t, book).usage, f)
    ensures Sum(ItemsOf(ts + [t], book), f) == Sum(ItemsOf(ts, book), f) + Read(UsageOf(t, book), f)
  {
    assert DiffItems(ts + [t], book) == DiffItems(ts, book) + [DiffItem(t, book)];
    SumSnoc(DiffItems(ts, book), DiffItem(t, book), "", f);
    ItemsSnoc(ts, t, book);
    SumSnoc(ItemsOf(ts, book), ItemOf(t, book), "", f);
  }

  lemma {:induction false} TokensAgree(ts: seq<Task>, book: Book, f: Field)
    requires f != Field.Cost
    ensures Sum(DiffItems(ts, book), f) == Sum(ItemsOf(ts, book), f)
    decreases |ts|
  {
    if ts != [] {
      var n := |ts| - 1;
      TokensAgree(ts[..n], book, f);
      BothSnoc(ts[..n], ts[n], book, f);
      assert ts[..n] + [ts[n]] == ts;
    }
  }

  /** How far apart the two reports price a record: not at all on the same basis. */
  function Gap(t: Task, book: Book): real {
    if SameBasis(t, book) then 0.0 else OrZero(DiffCost(t, book)) - OrZero(Rollups.Cost(t, book))
  }

  function Gaps(ts: seq<Task>, book: Book): real {
    if ts == [] then 0.0 else Gaps(ts[..|ts| - 1], book) + Gap(ts[|ts| - 1], book)
  }

  /** What `diff` reports for a run over what `analyze` does. */
  function Apart(ts: seq<Task>, book: Book): real {
    Sum(DiffItems(ts, book), Field.Cost) - Sum(ItemsOf(ts, book), Field.Cost)
  }

  lemma {:induction false} GapSnoc(ts: seq<Task>, t: Task, book: Book)
    requires StandardPrices(book)
    ensures Apart(ts + [t], book) == Apart(ts, book) + Gap(t, book)
  {
    BothSnoc(ts, t, book, Field.Cost);
    CostsAgreeIff(t, book);
  }

  lemma {:induction false} TotalsGap(ts: seq<Task>, book: Book)
    requires StandardPrices(book)
    ensures Apart(ts, book) == Gaps(ts, book)
    decreases |ts|
  {
    if ts == [] {
      assert DiffItems(ts, book) == ItemsOf(ts, book);
    } else {
      var n := |ts| - 1;
      TotalsGap(ts[..n], book);
      GapSnoc(ts[..n], ts[n], book);
      assert ts[..n] + [ts[n]] == ts;
    }
  }

  /**
   The totals `diff` and `analyze` give a run are apart by the gaps of its records that are off the
   basis, so they are equal if and only if those gaps cancel; tokens always agree.
   */
  lemma {:induction false} TotalsDifferByGaps(ts: seq<Task>, book: Book)
    requires StandardPrices(book)
    ensures Sum(DiffItems(ts, book), Field.Cost) - Sum(ItemsOf(ts, book), Field.Cost) == Gaps(ts, book)
    ensures Sum(DiffItems(ts, book), Field.Cost) == Sum(ItemsOf(ts, book), Field.Cost) <==> Gaps(ts, book) == 0.0
    ensures forall f :: f != Field.Cost ==> Sum(DiffItems(ts, book), f) == Sum(ItemsOf(ts, book), f)
  {
    TotalsGap(ts, book);
    forall f | f != Field.Cost ensures Sum(DiffItems(ts, book), f) == Sum(ItemsOf(ts, book), f) {
      TokensAgree(ts, book, f);
    }
  }

  /** The gap of a record is zero only on the same basis. */
  lemma {:induction false} GapIsZeroIff(t: Task, book: Book)
    requires StandardPrices(book)
    ensures Gap(t, book) == 0.0 <==> SameBasis(t, book)
  {
    CostsAgreeIff(t, book);
  }

  lemma {:induction false} NoGaps(ts: seq<Task>, book: Book)
    requires forall i :: 0 <= i < |ts| ==> SameBasis(ts[i], book)
    ensures Gaps(ts, book) == 0.0
    decreases |ts|
  {
    if ts != [] { NoGaps(ts[..|ts| - 1], book); }
  }

  lemma {:induction false} OneGap(ts: seq<Task>, book: Book, i: nat)
    requires i < |ts| && forall j :: 0 <= j < |ts| && j != i ==> SameBasis(ts[j], book)
    ensures Gaps(ts, book) == Gap(ts[i], book)
    decreases |ts|
  {
    var n := |ts| - 1;
    if i < n { OneGap(ts[..n], book, i); } else { NoGaps(ts[..n], book); }
  }

  /** The two reports give a run the same total when every record is priced on the same basis; tokens always agree. */
  lemma {:induction false} ReportsAgree(ts: seq<Task>, book: Book)
    requires StandardPrices(book)
    ensures (forall i :: 0 <= i < |ts| ==> SameBasis(ts[i], book)) ==>
              Sum(DiffItems(ts, book), Field.Cost) == Sum(ItemsOf(ts, book), Field.Cost)
    ensures forall f :: f != Field.Cost ==> Sum(DiffItems(ts, book), f) == Sum(ItemsOf(ts, book), f)
  {
    TotalsDifferByGaps(ts, book);
    if forall i :: 0 <= i < |ts| ==> SameBasis(ts[i], book) { NoGaps(ts, book); }
  }

  /** A run with exactly one record off the basis gets two totals, apart by that record's two prices. */
  lemma {:induction false} OneOffBasisTotalsDiffer(ts: seq<Task>, book: Book, i: nat)
    requires StandardPrices(book) && i < |ts| && !SameBasis(ts[i], book)
    requires forall j :: 0 <= j < |ts| && j != i ==> SameBasis(ts[j], book)
    ensures Sum(DiffItems(ts, book), Field.Cost) - Sum(ItemsOf(ts, book), Field.Cost)
            == OrZero(DiffCost(ts[i], book)) - OrZero(Rollups.Cost(ts[i], book)) != 0.0
  {
    TotalsDifferByGaps(ts, book);
    OneGap(ts, book, i);
    GapIsZeroIff(ts[i], book);
  }

  /**
   A record that names an Opus model where the manifest has Sonnet: `analyze` reports five times the cost
   `diff` does.
   */
  lemma {:induction false} OpusUnderSonnetEntry(t: Task, book: Book)
    requires t.model == Some("opus") && t.stored.None? && !NoTokens(t.tokens)
    requires StandardPrices(book) && MapModel(book, t.id) == Some("sonnet")
    ensures Sum(ItemsOf([t], book), Field.Cost) == 5.0 * Sum(DiffItems([t], book), Field.Cost) > 0.0
  {
    ShortNames();
    PriceIsZeroIff(Sonnet, t.tokens);
    BothSnoc([], t, book, Field.Cost);
    assert [] + [t] == [t];
  }

  /** Two records off the basis can hide each other: Opus under a Sonnet entry and Sonnet under an Opus entry. */
  lemma {:induction false} SwappedModelsCancel(t: Task, u: Task, book: Book)
    requires StandardPrices(book) && t.stored.None? && u.stored.None? && t.tokens == u.tokens && !NoTokens(t.tokens)
    requires t.model == Some("opus") && MapModel(book, t.id) == Some("sonnet")
    requires u.model == Some("sonnet") && MapModel(book, u.id) == Some("opus")
    ensures !SameBasis(t, book) && !SameBasis(u, book)
    ensures Sum(DiffItems([t, u], book), Field.Cost) == Sum(ItemsOf([t, u], book), Field.Cost)
  {
    ShortNames();
    assert Gap(t, book) + Gap(u, book) == 0.0;
    assert [t, u][..1] == [t] && [t][..0] == [];
    assert Gaps([t], book) == Gaps([], book) + Gap(t, book);
    TotalsDifferByGaps([t, u], book);
  }

  // ---- The comparison of two runs ------------------------------------------------------------

  datatype Metrics = Metrics(status: Status, duration: int, tokens: Tokens, cost: Option<real>)

  function MetricsOf(t: Task, book: Book): Metrics { Metrics(t.status, t.duration, t.tokens, DiffCost(t, book)) }

  datatype Pair = Pair(id: string, a: Metrics, b: Metrics)

  datatype DiffReport = DiffReport(idA: string, idB: string, pairs: seq<Pair>, onlyA: seq<string>, onlyB: seq<string>,
                                   totalA: RunTotals, totalB: RunTotals)

  /** The record a lookup by id finds: the last one. */
  function ById(ts: seq<Task>): map<string, Task> {
    if ts == [] then map[] else ById(ts[..|ts| - 1])[ts[|ts| - 1].id := ts[|ts| - 1]]
  }

  function Paired(ts: seq<Task>, other: map<string, Task>, a: Book, b: Book): seq<Pair> {
    if ts == [] then []
    else
      var t := ts[|ts| - 1];
      Paired(ts[..|ts| - 1], other, a, b) +
      (if t.id in other then [Pair(t.id, MetricsOf(t, a), MetricsOf(other[t.id], b))] else [])
  }

  function Unpaired(ts: seq<Task>, other: map<string, Task>): seq<string> {
    if ts == [] then []
    else Unpaired(ts[..|ts| - 1], other) + (if ts[|ts| - 1].id in other then [] else [ts[|ts| - 1].id])
  }

  method Index(ts: seq<Task>) returns (m: map<string, Task>)
    ensures m == ById(ts)
  {
    m := map[];
    for i := 0 to |ts|
      invariant m == ById(ts[..i])
    {
      assert ts[..i + 1][..i] == ts[..i];
      m := m[ts[i].id := ts[i]];
    }
    assert ts[..|ts|] == ts;
  }

  method BuildReport(runA: Run, a: Book, runB: Run, b: Book) returns (r: DiffReport)
    ensures r.idA == runA.id && r.idB == runB.id
    ensures r.pairs == Paired(runA.tasks, ById(runB.tasks), a, b)
    ensures r.onlyA == Unpaired(runA.tasks, ById(runB.tasks)) && r.onlyB == Unpaired(runB.tasks, ById(runA.tasks))
    ensures TotalsOf(r.totalA, runA, a) && TotalsOf(r.totalB, runB, b)
  {
    var ta, tb := runA.tasks, runB.tasks;
    var ma := Index(ta);
    var mb := Index(tb);
    var pairs: seq<Pair>, onlyA: seq<string>, onlyB: seq<string> := [], [], [];
    for i := 0 to |ta|
      invariant pairs == Paired(ta[..i], mb, a, b) && onlyA == Unpaired(ta[..i], mb)
    {
      assert ta[..i + 1][..i] == ta[..i];
      if ta[i].id in mb {
        pairs := pairs + [Pair(ta[i].id, MetricsOf(ta[i], a), MetricsOf(mb[ta[i].id], b))];
      } else {
        onlyA := onlyA + [ta[i].id];
      }
    }
    assert ta[..|ta|] == ta;
    for i := 0 to |tb|
      invariant onlyB == Unpaired(tb[..i], ma)
    {
      assert tb[..i + 1][..i] == tb[..i];
      if tb[i].id !in ma { onlyB := onlyB + [tb[i].id]; }
    }
    assert tb[..|tb|] == tb;
    var ra := ComputeTotals(runA, a);
    var rb := ComputeTotals(runB, b);
    r := DiffReport(runA.id, runB.id, pairs, onlyA, onlyB, ra, rb);
  }

  predicate HasId(ts: seq<Task>, id: string) { exists i :: 0 <= i < |ts| && ts[i].id == id }

  predicate UniqueIds(ts: seq<Task>) { forall i, j :: 0 <= i < j < |ts| ==> ts[i].id != ts[j].id }

  lemma {:induction false} ByIdFinds(ts: seq<Task>, id: string)
    ensures id in ById(ts) <==> HasId(ts, id)
    ensures id in ById(ts) ==> ById(ts)[id].id == id && ById(ts)[id] in ts
    decreases |ts|
  {
    if ts != [] {
      var n := |ts| - 1;
      ByIdFinds(ts[..n], id);
      assert forall i :: 0 <= i < n ==> ts[..n][i] == ts[i];
      if HasId(ts, id) && ts[n].id != id { var i :| 0 <= i < |ts| && ts[i].id == id; assert ts[..n][i].id == id; }
      if HasId(ts[..n], id) { var i :| 0 <= i < n && ts[..n][i].id == id; assert ts[i].id == id; }
    }
  }

  /** How often an id is listed. */
  function Listed(ids: seq<string>, id: string): nat {
    if ids == [] then 0 else Listed(ids[..|ids| - 1], id) + (if ids[|ids| - 1] == id then 1 else 0)
  }

  function CountId(ts: seq<Task>, id: string): nat {
    if ts == [] then 0 else CountId(ts[..|ts| - 1], id) + (if ts[|ts| - 1].id == id then 1 else 0)
  }

  function IdsOf(ps: seq<Pair>): (ids: seq<string>)
    ensures |ids| == |ps| && forall i :: 0 <= i < |ps| ==> ids[i] == ps[i].id
  {
    seq(|ps|, i requires 0 <= i < |ps| => ps[i].id)
  }

  lemma {:induction false} ListedSnoc(ids: seq<string>, x: string, id: string)
    ensures Listed(ids + [x], id) == Listed(ids, id) + (if x == id then 1 else 0)
  {
    assert (ids + [x])[..|ids|] == ids;
  }

  lemma {:induction false} PairedCount(ts: seq<Task>, other: map<string, Task>, a: Book, b: Book, id: string)
    ensures Listed(IdsOf(Paired(ts, other, a, b)), id) == if id in other then CountId(ts, id) else 0
    decreases |ts|
  {
    if ts != [] {
      var n := |ts| - 1;
      PairedCount(ts[..n], other, a, b, id);
      var ps := Paired(ts[..n], other, a, b);
      if ts[n].id in other {
        assert IdsOf(Paired(ts, other, a, b)) == IdsOf(ps) + [ts[n].id];
        ListedSnoc(IdsOf(ps), ts[n].id, id);
      } else {
        assert Paired(ts, other, a, b) == ps;
      }
    }
  }

  lemma {:induction false} UnpairedCount(ts: seq<Task>, other: map<string, Task>, id: string)
    ensures Listed(Unpaired(ts, other), id) == if id in other then 0 else CountId(ts, id)
    decreases |ts|
  {
    if ts != [] {
      var n := |ts| - 1;
      UnpairedCount(ts[..n], other, id);
      var us := Unpaired(ts[..n], other);
      if ts[n].id in other {
        assert Unpaired(ts, other) == us;
      } else {
        ListedSnoc(us, ts[n].id, id);
      }
    }
  }

  lemma {:induction false} CountOfUnique(ts: seq<Task>, id: string)
    requires UniqueIds(ts)
    ensures CountId(ts, id) == if HasId(ts, id) then 1 else 0
    decreases |ts|
  {
    if ts != [] {
      var n := |ts| - 1;
      CountOfUnique(ts[..n], id);
      if HasId(ts, id) { var i :| 0 <= i < |ts| && ts[i].id == id; if i < n { assert ts[..n][i].id == id; } }
      if HasId(ts[..n], id) { var i :| 0 <= i < n && ts[..n][i].id == id; assert ts[i].id == id; }
    }
  }

  /**
   Over records with unique ids the report is a partition: an id is listed once as a pair if
   both runs have it, once as only-A or only-B if one has it, and not at all otherwise.
   */
  lemma {:induction false} ReportPartitionsIds(ta: seq<Task>, a: Book, tb: seq<Task>, b: Book, id: string)
    requires UniqueIds(ta) && UniqueIds(tb)
    ensures Listed(IdsOf(Paired(ta, ById(tb), a, b)), id) == if HasId(ta, id) && HasId(tb, id) then 1 else 0
    ensures Listed(Unpaired(ta, ById(tb)), id) == if HasId(ta, id) && !HasId(tb, id) then 1 else 0
    ensures Listed(Unpaired(tb, ById(ta)), id) == if HasId(tb, id) && !HasId(ta, id) then 1 else 0
  {
    PairedCount(ta, ById(tb), a, b, id);
    UnpairedCount(ta, ById(tb), id);
    UnpairedCount(tb, ById(ta), id);
    ByIdFinds(ta, id);
    ByIdFinds(tb, id);
    CountOfUnique(ta, id);
    CountOfUnique(tb, id);
  }

  /** A pair sets the metrics of the two runs' own records side by side, A's on the left. */
  lemma {:induction false} PairsAreFaithful(ta: seq<Task>, a: Book, tb: seq<Task>, b: Book, i: nat)
    requires i < |Paired(ta, ById(tb), a, b)|
    ensures var p := Paired(ta, ById(tb), a, b)[i];
            exists x, y :: x in ta && y in tb && x.id == y.id == p.id && p.a == MetricsOf(x, a)
              && p.b == MetricsOf(y, b)
    decreases |ta|
  {
    var n := |ta| - 1;
    var front := Paired(ta[..n], ById(tb), a, b);
    if i < |front| {
      PairsAreFaithful(ta[..n], a, tb, b, i);
      var p := front[i];
      var x, y :| x in ta[..n] && y in tb && x.id == y.id == p.id && p.a == MetricsOf(x, a) && p.b == MetricsOf(y, b);
      assert x in ta;
    } else {
      ByIdFinds(tb, ta[n].id);
      assert ta[n] in ta && ById(tb)[ta[n].id] in tb;
    }
  }
}
