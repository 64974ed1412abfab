/** Cost and failure rollups of one run and across runs, and the diff report's own totals. */
module Rollups {
  import opened Options
  import opened Ranking
  import opened Sums

  datatype Tokens = Tokens(input: nat, output: nat, cacheRead: nat, cacheWrite: nat)

  // ---- Records --------------------------------------------------------------------------------

  datatype Status = Success | Failed | TimedOut | Cancelled | SpawnFailed | ApprovalRejected | ApprovalTimedOut

  /** A classified failure: its kind label and its one-line rendering. */
  datatype Reason = Reason(kind: string, text: string)

  datatype Task = Task(id: string, model: Option<string>, stored: Option<real>, duration: int, tokens: Tokens,
                       status: Status, reason: Option<Reason>, preview: Option<string>)

  /** The task-to-model map of the resolved manifest, and a price table. */
  datatype Book = Book(models: map<string, string>, price: (string, Tokens) -> Option<real>)

  function MapModel(book: Book, id: string): Option<string> {
    if id in book.models then Some(book.models[id]) else None
  }

  function OwnOrMapModel(t: Task, book: Book): Option<string> {
    if t.model.Some? then t.model else MapModel(book, t.id)
  }

  /** The stored cost, else the price of the tokens under `model`. */
  function EffectiveCost(t: Task, model: Option<string>, book: Book): Option<real> {
    if t.stored.Some? then t.stored else if model.None? then None else book.price(model.value, t.tokens)
  }

  /** What `analyze` takes a record to cost. */
  function Cost(t: Task, book: Book): Option<real> { EffectiveCost(t, OwnOrMapModel(t, book), book) }

  function OrZero(c: Option<real>): real { if c.Some? then c.value else 0.0 }

  // ---- One run's cost rollup --------------------------------------------------------------------

  function UsageOf(t: Task, book: Book): Usage {
    Usage(1, t.tokens.input, t.tokens.output, t.tokens.cacheRead, t.tokens.cacheWrite,
          OrZero(Cost(t, book)))
  }

  function ItemOf(t: Task, book: Book): Item {
    var m := OwnOrMapModel(t, book);
    Item(if m.Some? then m.value else "unknown", UsageOf(t, book))
  }

  function ItemsOf(ts: seq<Task>, book: Book): (xs: seq<Item>)
    ensures |xs| == |ts| && forall i :: 0 <= i < |ts| ==> xs[i] == ItemOf(ts[i], book)
  {
    seq(|ts|, i requires 0 <= i < |ts| => ItemOf(ts[i], book))
  }

  lemma {:induction false} ItemsSnoc(ts: seq<Task>, t: Task, book: Book)
    ensures ItemsOf(ts + [t], book) == ItemsOf(ts, book) + [ItemOf(t, book)]
  {
  }

  datatype CostRollup = CostRollup(total: real, lead: real, worker: real, byModel: seq<Row>, withCost: nat,
                                   missing: nat)

  /** The cost of the records with this id. */
  function CostOfId(ts: seq<Task>, book: Book, id: Option<string>): real {
    if ts == [] then 0.0
    else
      var t := ts[|ts| - 1];
      CostOfId(ts[..|ts| - 1], book, id) + (if Some(t.id) == id then UsageOf(t, book).cost else 0.0)
  }

  function CountPriced(ts: seq<Task>, book: Book): nat {
    if ts == [] then 0
    else
      var t := ts[|ts| - 1];
      CountPriced(ts[..|ts| - 1], book) + (if Cost(t, book).Some? then 1 else 0)
  }

  /** What the accumulators hold after `ts`. */
  ghost predicate TotalsFit(ts: seq<Task>, book: Book, lead: Option<string>, r: CostRollup) {
    && r.total == Sum(ItemsOf(ts, book), Field.Cost) == r.lead + r.worker
    && r.lead == CostOfId(ts, book, lead)
    && r.withCost == CountPriced(ts, book) && r.withCost + r.missing == |ts|
  }

  function Counted(r: CostRollup, cost: Option<real>, isLead: bool): CostRollup {
    var c := OrZero(cost);
    var r := if cost.Some? then r.(withCost := r.withCost + 1) else r.(missing := r.missing + 1);
    if isLead then r.(total := r.total + c, lead := r.lead + c) else r.(total := r.total + c, worker := r.worker + c)
  }

  lemma {:induction false} TotalsStep(ts: seq<Task>, t: Task, book: Book, lead: Option<string>, r: CostRollup)
    requires TotalsFit(ts, book, lead, r)
    ensures TotalsFit(ts + [t], book, lead, Counted(r, Cost(t, book), Some(t.id) == lead))
  {
    assert (ts + [t])[..|ts|] == ts;
    ItemsSnoc(ts, t, book);
    SumSnoc(ItemsOf(ts, book), ItemOf(t, book), "", Field.Cost);
  }

  lemma {:induction false} NoTotals(book: Book, lead: Option<string>)
    ensures TotalsFit([], book, lead, CostRollup(0.0, 0.0, 0.0, [], 0, 0))
    ensures Buckets(ItemsOf([], book)) == map[]
  {
  }

  lemma {:induction false} RollupStep(ts: seq<Task>, i: nat, book: Book, lead: Option<string>, r: CostRollup)
    requires i < |ts| && TotalsFit(ts[..i], book, lead, r)
    ensures TotalsFit(ts[..i + 1], book, lead, Counted(r, Cost(ts[i], book), Some(ts[i].id) == lead))
    ensures Buckets(ItemsOf(ts[..i + 1], book)) == Entered(Buckets(ItemsOf(ts[..i], book)), ItemOf(ts[i], book))
  {
    assert ts[..i + 1] == ts[..i] + [ts[i]];
    TotalsStep(ts[..i], ts[i], book, lead, r);
    ItemsSnoc(ts[..i], ts[i], book);
    BucketsSnoc(ItemsOf(ts[..i], book), ItemOf(ts[i], book));
  }

  method Accumulate(ts: seq<Task>, book: Book, lead: Option<string>)
      returns (r: CostRollup, byModel: map<string, Usage>)
    ensures TotalsFit(ts, book, lead, r) && byModel == Buckets(ItemsOf(ts, book))
  {
    byModel := map[];
    r := CostRollup(0.0, 0.0, 0.0, [], 0, 0);
    NoTotals(book, lead);
    for i := 0 to |ts|
      invariant TotalsFit(ts[..i], book, lead, r)
      invariant byModel == Buckets(ItemsOf(ts[..i], book))
    {
      RollupStep(ts, i, book, lead, r);
      var cost := Cost(ts[i], book);
      r := Counted(r, cost, Some(ts[i].id) == lead);
      byModel := Entered(byModel, ItemOf(ts[i], book));
    }
    assert ts[..|ts|] == ts;
  }

  method BuildCostRollup(ts: seq<Task>, book: Book, lead: Option<string>) returns (r: CostRollup)
    ensures IsRollup(r.byModel, ItemsOf(ts, book))
    ensures r.total == Sum(ItemsOf(ts, book), Field.Cost) == r.lead + r.worker
    ensures r.lead == CostOfId(ts, book, lead)
    ensures r.withCost == CountPriced(ts, book) && r.withCost + r.missing == |ts|
  {
    var byModel;
    r, byModel := Accumulate(ts, book, lead);
    var rows := RankAll(byModel, CostOf);
    r := r.(byModel := rows);
  }

  // ---- Across runs --------------------------------------------------------------------------------

  function Flat(runs: seq<seq<Item>>): seq<Item> {
    if runs == [] then [] else Flat(runs[..|runs| - 1]) + runs[|runs| - 1]
  }

  function RowsOfRuns(runs: seq<CostRollup>): (xss: seq<seq<Item>>)
    ensures |xss| == |runs| && forall i :: 0 <= i < |runs| ==> xss[i] == RowItems(runs[i].byModel)
  {
    seq(|runs|, i requires 0 <= i < |runs| => RowItems(runs[i].byModel))
  }

  function SumTotals(runs: seq<CostRollup>): real {
    if runs == [] then 0.0 else SumTotals(runs[..|runs| - 1]) + runs[|runs| - 1].total
  }

  lemma {:induction false} EnterStep(xs: seq<Item>, rows: seq<Row>, j: nat)
    requires j < |rows|
    ensures Buckets(xs + RowItems(rows[..j + 1]))
            == Entered(Buckets(xs + RowItems(rows[..j])), Item(rows[j].key, rows[j].value))
  {
    var x := Item(rows[j].key, rows[j].value);
    assert RowItems(rows[..j + 1]) == RowItems(rows[..j]) + [x];
    assert xs + (RowItems(rows[..j]) + [x]) == (xs + RowItems(rows[..j])) + [x];
    BucketsSnoc(xs + RowItems(rows[..j]), x);
  }

  method EnterRows(buckets: map<string, Usage>, rows: seq<Row>, ghost before: seq<Item>)
      returns (after: map<string, Usage>)
    requires buckets == Buckets(before)
    ensures after == Buckets(before + RowItems(rows))
  {
    after := buckets;
    assert before + RowItems(rows[..0]) == before;
    for j := 0 to |rows|
      invariant after == Buckets(before + RowItems(rows[..j]))
    {
      EnterStep(before, rows, j);
      after := Entered(after, Item(rows[j].key, rows[j].value));
    }
    assert rows[..|rows|] == rows;
  }

  method AggregateModels(runs: seq<CostRollup>) returns (total: real, usage: seq<Row>)
    ensures IsRollup(usage, Flat(RowsOfRuns(runs))) && total == SumTotals(runs)
  {
    total := 0.0;
    var buckets: map<string, Usage> := map[];
    for i := 0 to |runs|
      invariant buckets == Buckets(Flat(RowsOfRuns(runs[..i]))) && total == SumTotals(runs[..i])
    {
      assert runs[..i + 1][..i] == runs[..i];
      assert RowsOfRuns(runs[..i + 1])[..i] == RowsOfRuns(runs[..i]);
      total := total + runs[i].total;
      buckets := EnterRows(buckets, runs[i].byModel, Flat(RowsOfRuns(runs[..i])));
    }
    assert runs[..|runs|] == runs;
    usage := RankAll(buckets, CostOf);
  }

  /** Each of `runs` is the rollup of the matching list of items. */
  ghost predicate RollupsOf(runs: seq<CostRollup>, all: seq<seq<Item>>) {
    && |runs| == |all|
    && forall i :: 0 <= i < |runs| ==> IsRollup(runs[i].byModel, all[i]) && runs[i].total == Sum(all[i], Field.Cost)
  }

  ghost predicate TablesOf(xss: seq<seq<Item>>, all: seq<seq<Item>>) {
    && |xss| == |all|
    && forall i, k, f :: 0 <= i < |all| ==>
       SumFor(xss[i], k, f) == SumFor(all[i], k, f) && (Named(xss[i], k) <==> Named(all[i], k))
  }

  lemma {:induction false} RollupsAreTables(runs: seq<CostRollup>, all: seq<seq<Item>>)
    requires RollupsOf(runs, all)
    ensures TablesOf(RowsOfRuns(runs), all)
  {
    forall i, k, f | 0 <= i < |all|
      ensures SumFor(RowsOfRuns(runs)[i], k, f) == SumFor(all[i], k, f)
              && (Named(RowsOfRuns(runs)[i], k) <==> Named(all[i], k))
    {
      RankingTabulates(runs[i].byModel, Buckets(all[i]), CostOf);
      RegroupedRows(runs[i].byModel, all[i], k, f);
    }
  }

  lemma {:induction false} FlatTables(xss: seq<seq<Item>>, all: seq<seq<Item>>, k: string, f: Field)
    requires TablesOf(xss, all)
    ensures SumFor(Flat(xss), k, f) == SumFor(Flat(all), k, f)
    ensures Named(Flat(xss), k) <==> Named(Flat(all), k)
    decreases |xss|
  {
    if xss != [] {
      var n := |xss| - 1;
      FlatTables(xss[..n], all[..n], k, f);
      SumConcat(Flat(xss[..n]), xss[n], k, f);
      SumConcat(Flat(all[..n]), all[n], k, f);
      NamedConcat(Flat(xss[..n]), xss[n], k);
      NamedConcat(Flat(all[..n]), all[n], k);
    }
  }

  lemma {:induction false} FlatTotal(runs: seq<CostRollup>, all: seq<seq<Item>>)
    requires RollupsOf(runs, all)
    ensures SumTotals(runs) == Sum(Flat(all), Field.Cost)
    decreases |runs|
  {
    if runs != [] {
      var n := |runs| - 1;
      FlatTotal(runs[..n], all[..n]);
      SumConcat(Flat(all[..n]), all[n], "", Field.Cost);
    }
  }

  /**
   Aggregating the runs' rollups is rolling up all their records at once: the same rows in the
   same order, every field summed over every record, and the cross-run total is their cost.
   */
  lemma {:induction false} AggregateIsOneRollup(runs: seq<CostRollup>, all: seq<seq<Item>>, usage: seq<Row>)
    requires RollupsOf(runs, all)
    ensures IsRollup(usage, Flat(RowsOfRuns(runs))) <==> IsRollup(usage, Flat(all))
    ensures IsRollup(usage, Flat(all)) ==> forall f :: Sum(RowItems(usage), f) == Sum(Flat(all), f)
    ensures SumTotals(runs) == Sum(Flat(all), Field.Cost)
  {
    FlatTotal(runs, all);
    RollupsAreTables(runs, all);
    forall k, f ensures SumFor(Flat(RowsOfRuns(runs)), k, f) == SumFor(Flat(all), k, f) {
      FlatTables(RowsOfRuns(runs), all, k, f);
    }
    forall k ensures Named(Flat(RowsOfRuns(runs)), k) <==> Named(Flat(all), k) {
      FlatTables(RowsOfRuns(runs), all, k, Field.Cost);
    }
    SameBuckets(Flat(RowsOfRuns(runs)), Flat(all));
    if IsRollup(usage, Flat(all)) {
      forall f ensures Sum(RowItems(usage), f) == Sum(Flat(all), f) { RollupConserves(usage, Flat(all), f); }
    }
  }
}
