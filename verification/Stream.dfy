/**
 The run stream: replay of a run directory, the poll-and-diff tail, and the live
 continuation after replay, against one deduplicated snapshot.
 */
module Stream {
  import opened Options
  import opened Sorting

  /** A finished task: end time, task id, and the rest of the record. */
  type Task = Stamped<string>

  datatype Summary = Summary(runId: string, endedAt: int, rest: string)

  /** The snapshot reader's answer: one record per task id, and the summary once finalized. */
  datatype Snapshot = Snapshot(tasks: map<Id, Task>, summary: Option<Summary>)

  datatype Payload = Done(task: Task) | Finalized(summary: Summary) | Event(envelope: string)

  datatype Item = Item(seqNo: nat, ts: int, runId: string, payload: Payload)

  // ---- Replay ----------------------------------------------------------------------------

  const NIL_RUN := "00000000-0000-0000-0000-000000000000"

  function ReplayRunId(snap: Snapshot): string {
    if snap.summary.Some? then snap.summary.value.runId else NIL_RUN
  }

  /** `n` tasks numbered from `first`. */
  function Numbered(first: nat, runId: string, ts: seq<Task>): (items: seq<Item>)
    ensures |items| == |ts|
    ensures forall i :: 0 <= i < |ts| ==> items[i] == Item(first + i, ts[i].time, runId, Done(ts[i]))
  {
    seq(|ts|, i requires 0 <= i < |ts| => Item(first + i, ts[i].time, runId, Done(ts[i])))
  }

  function Closing(seqNo: nat, runId: string, summary: Option<Summary>): seq<Item> {
    if summary.Some? then [Item(seqNo, summary.value.endedAt, runId, Finalized(summary.value))] else []
  }

  /** The replay of a snapshot, with no iteration order left in it. */
  ghost function ReplayItems(snap: Snapshot): seq<Item>
    requires Keyed(snap.tasks)
  {
    var ts := Listing(snap.tasks);
    Numbered(1, ReplayRunId(snap), ts) + Closing(|ts| + 1, ReplayRunId(snap), snap.summary)
  }

  /** Collect in map order, sort, then number. */
  method BuildReplayItems(snap: Snapshot, order: seq<Id>) returns (items: seq<Item>)
    requires Keyed(snap.tasks) && Visits(order, snap.tasks)
    ensures items == ReplayItems(snap)
  {
    var tasks := Collect(order, snap.tasks);
    SortedVisitIsListing(order, snap.tasks, tasks);
    tasks := Sort(tasks);
    ListingUnique(tasks, snap.tasks);
    items := [];
    var seqNo := 1;
    for i := 0 to |tasks|
      invariant seqNo == i + 1
      invariant items == Numbered(1, ReplayRunId(snap), tasks)[..i]
    {
      items := items + [Item(seqNo, tasks[i].time, ReplayRunId(snap), Done(tasks[i]))];
      seqNo := seqNo + 1;
    }
    if snap.summary.Some? {
      items := items + [Item(seqNo, snap.summary.value.endedAt, ReplayRunId(snap), Finalized(snap.summary.value))];
    }
  }

  method Collect(order: seq<Id>, tasks: map<Id, Task>) returns (xs: seq<Task>)
    requires forall id :: id in order ==> id in tasks
    ensures |xs| == |order| && forall i :: 0 <= i < |order| ==> xs[i] == tasks[order[i]]
  {
    xs := [];
    for i := 0 to |order|
      invariant |xs| == i && forall k :: 0 <= k < i ==> xs[k] == tasks[order[k]]
    {
      xs := xs + [tasks[order[i]]];
    }
  }

  // ---- Tail ------------------------------------------------------------------------------------

  /** What the tail loop remembers, and all it has sent. */
  datatype Tail = Tail(emitted: map<Id, int>, seqNo: nat, finalized: bool, out: seq<Item>)

  const START: Tail := Tail(map[], 0, false, [])

  function TailRunId(dirId: string, snap: Snapshot): string {
    if snap.summary.Some? then snap.summary.value.runId else dirId
  }

  predicate IsFresh(emitted: map<Id, int>, x: Task) { x.id in emitted ==> x.time > emitted[x.id] }

  function Fresh(emitted: map<Id, int>, tasks: map<Id, Task>): map<Id, Task> {
    map id | id in tasks && (id in emitted ==> tasks[id].time > emitted[id]) :: tasks[id]
  }

  function Emit(t: Tail, runId: string, x: Task): Tail {
    Tail(t.emitted[x.id := x.time], t.seqNo + 1, t.finalized, t.out + [Item(t.seqNo + 1, x.time, runId, Done(x))])
  }

  function EmitAll(t: Tail, runId: string, xs: seq<Task>): Tail {
    if xs == [] then t else Emit(EmitAll(t, runId, xs[..|xs| - 1]), runId, xs[|xs| - 1])
  }

  function Close(t: Tail, runId: string, summary: Option<Summary>): Tail {
    if summary.Some? && !t.finalized
    then Tail(t.emitted, t.seqNo + 1, true, t.out + Closing(t.seqNo + 1, runId, summary))
    else t
  }

  /** One poll whose sends all succeed. */
  ghost function Tick(t: Tail, dirId: string, snap: Snapshot): Tail
    requires Keyed(snap.tasks)
  {
    var runId := TailRunId(dirId, snap);
    Close(EmitAll(t, runId, Listing(Fresh(t.emitted, snap.tasks))), runId, snap.summary)
  }

  /** The loop stops after the poll that finalizes. */
  ghost function RunTail(dirId: string, snaps: seq<Snapshot>): Tail
    requires forall i :: 0 <= i < |snaps| ==> Keyed(snaps[i].tasks)
  {
    if snaps == [] then START
    else
      var t := RunTail(dirId, snaps[..|snaps| - 1]);
      if t.finalized then t else Tick(t, dirId, snaps[|snaps| - 1])
  }

  /** The tail task's variables; `room` is how many more sends the receiver will take. */
  class Tailer {
    var emitted: map<Id, int>
    var seqNo: nat
    var finalized: bool
    var out: seq<Item>
    var room: nat

    constructor (room: nat)
      ensures View() == START && this.room == room
    {
      emitted, seqNo, finalized, out := map[], 0, false, [];
      this.room := room;
    }

    ghost function View(): Tail
      reads this
    {
      Tail(emitted, seqNo, finalized, out)
    }

    method Send(item: Item) returns (ok: bool)
      modifies this`out, this`room
      ensures ok == (old(room) > 0)
      ensures out == if ok then old(out) + [item] else old(out)
      ensures room == if ok then old(room) - 1 else old(room)
    {
      ok := room > 0;
      if ok { out := out + [item]; room := room - 1; }
    }

    method SendAll(runId: string, xs: seq<Task>) returns (ok: bool)
      modifies this
      ensures ok ==> View() == EmitAll(old(View()), runId, xs)
      ensures !ok ==> room == 0 && out < EmitAll(old(View()), runId, xs).out
    {
      ghost var t0 := View();
      for i := 0 to |xs|
        invariant View() == EmitAll(t0, runId, xs[..i])
      {
        EmitNext(t0, runId, xs, i);
        ghost var t := View();
        seqNo := seqNo + 1;
        emitted := emitted[xs[i].id := xs[i].time];
        ok := Send(Item(seqNo, xs[i].time, runId, Done(xs[i])));
        if !ok { return; }
        assert View() == Emit(t, runId, xs[i]);
      }
      assert xs[..|xs|] == xs;
      ok := true;
    }

    /** A poll either does all of `Tick`, or stops at the send the receiver refused, having sent a proper prefix. */
    method EmitDiff(dirId: string, snap: Snapshot, order: seq<Id>) returns (ok: bool)
      requires Keyed(snap.tasks) && Visits(order, snap.tasks)
      modifies this
      ensures ok ==> View() == Tick(old(View()), dirId, snap)
      ensures !ok ==> room == 0 && out < Tick(old(View()), dirId, snap).out
    {
      ghost var t0 := View();
      var runId := TailRunId(dirId, snap);
      var news := CollectFresh(emitted, order, snap.tasks);
      news := Sort(news);
      ListingUnique(news, Fresh(emitted, snap.tasks));
      ok := SendAll(runId, news);
      if !ok { return; }
      if snap.summary.Some? && !finalized {
        finalized := true;
        seqNo := seqNo + 1;
        ok := Send(Item(seqNo, snap.summary.value.endedAt, runId, Finalized(snap.summary.value)));
      }
    }
  }

  method CollectFresh(emitted: map<Id, int>, order: seq<Id>, tasks: map<Id, Task>) returns (xs: seq<Task>)
    requires Keyed(tasks) && Visits(order, tasks)
    ensures IsListing(Sort(xs), Fresh(emitted, tasks))
  {
    xs := [];
    ghost var picked: seq<Id> := [];
    for i := 0 to |order|
      invariant |xs| == |picked|
      invariant forall k :: 0 <= k < |picked| ==>
                picked[k] in order[..i] && picked[k] in tasks && xs[k] == tasks[picked[k]]
      invariant forall j, k :: 0 <= j < k < |picked| ==> picked[j] != picked[k]
      invariant forall id :: id in picked <==> id in order[..i] && id in Fresh(emitted, tasks)
    {
      assert order[..i + 1] == order[..i] + [order[i]];
      assert order[i] in order && order[i] !in order[..i];
      var rec := tasks[order[i]];
      if order[i] !in emitted || rec.time > emitted[order[i]] {
        xs := xs + [rec];
        picked := picked + [order[i]];
      }
    }
    assert order[..|order|] == order;
    SortedVisitIsListing(picked, Fresh(emitted, tasks), xs);
  }

  lemma {:induction false} EmitAllGrows(t: Tail, runId: string, xs: seq<Task>, k: nat)
    requires k <= |xs|
    ensures EmitAll(t, runId, xs[..k]).out <= EmitAll(t, runId, xs).out
    decreases |xs|
  {
    if k == |xs| {
      assert xs[..k] == xs;
    } else {
      var front := xs[..|xs| - 1];
      EmitAllGrows(t, runId, front, k);
      assert front[..k] == xs[..k];
    }
  }

  lemma {:induction false} EmitNext(t: Tail, runId: string, xs: seq<Task>, i: nat)
    requires i < |xs|
    ensures EmitAll(t, runId, xs[..i + 1]) == Emit(EmitAll(t, runId, xs[..i]), runId, xs[i])
    ensures EmitAll(t, runId, xs[..i]).out < EmitAll(t, runId, xs).out
  {
    assert xs[..i + 1][..i] == xs[..i];
    EmitAllGrows(t, runId, xs, i + 1);
  }

  // ---- What the consumer sees ----------------------------------------------------------------

  /** The consumer's view: for each task id the last record received. */
  function LastWins(out: seq<Item>): map<Id, Task> {
    if out == [] then map[]
    else
      var m := LastWins(out[..|out| - 1]);
      var p := out[|out| - 1].payload;
      if p.Done? then m[p.task.id := p.task] else m
  }

  ghost predicate TailInv(t: Tail) {
    && t.seqNo == |t.out|
    && (forall i :: 0 <= i < |t.out| ==> t.out[i].seqNo == i + 1)
    && t.emitted.Keys == LastWins(t.out).Keys
    && (forall id :: id in t.emitted ==> LastWins(t.out)[id].id == id && t.emitted[id] == LastWins(t.out)[id].time)
    && (forall i :: 0 <= i < |t.out| && t.out[i].payload.Done? ==>
          t.out[i].payload.task.id in t.emitted && t.out[i].payload.task.time <= t.emitted[t.out[i].payload.task.id])
    && Rising(t.out)
    && (forall i :: 0 <= i < |t.out| && t.out[i].payload.Finalized? ==> t.finalized && i == |t.out| - 1)
  }

  /** Records sent for one task have strictly increasing end times. */
  ghost predicate Rising(out: seq<Item>) {
    forall i, j :: 0 <= i < j < |out| && out[i].payload.Done? && out[j].payload.Done?
                   && out[i].payload.task.id == out[j].payload.task.id ==>
      out[i].payload.task.time < out[j].payload.task.time
  }

  lemma {:induction false} EmitInv(t: Tail, runId: string, x: Task)
    requires TailInv(t) && !t.finalized && IsFresh(t.emitted, x)
    ensures TailInv(Emit(t, runId, x))
    ensures LastWins(Emit(t, runId, x).out) == LastWins(t.out)[x.id := x]
  {
    var t' := Emit(t, runId, x);
    assert t'.out[..|t.out|] == t.out;
  }

  function Overlay(m: map<Id, Task>, xs: seq<Task>): map<Id, Task> {
    if xs == [] then m else Overlay(m, xs[..|xs| - 1])[xs[|xs| - 1].id := xs[|xs| - 1]]
  }

  lemma {:induction false} OverlayOther(m: map<Id, Task>, xs: seq<Task>, id: Id)
    requires forall i :: 0 <= i < |xs| ==> xs[i].id != id
    ensures id in Overlay(m, xs) <==> id in m
    ensures id in m ==> Overlay(m, xs)[id] == m[id]
    decreases |xs|
  {
    if xs != [] { OverlayOther(m, xs[..|xs| - 1], id); }
  }

  lemma {:induction false} OverlayOwn(m: map<Id, Task>, xs: seq<Task>, k: nat)
    requires k < |xs| && forall i, j :: 0 <= i < j < |xs| ==> xs[i].id != xs[j].id
    ensures xs[k].id in Overlay(m, xs) && Overlay(m, xs)[xs[k].id] == xs[k]
    decreases |xs|
  {
    if k < |xs| - 1 { OverlayOwn(m, xs[..|xs| - 1], k); }
  }

  lemma {:induction false} OverlayListing(m: map<Id, Task>, xs: seq<Task>, news: map<Id, Task>)
    requires Keyed(news) && IsListing(xs, news)
    ensures Overlay(m, xs) == m + news
  {
    forall i, j | 0 <= i < j < |xs| ensures xs[i].id != xs[j].id { assert Before(xs[i], xs[j]); }
    forall id
      ensures id in Overlay(m, xs) <==> id in m + news
      ensures id in Overlay(m, xs) ==> Overlay(m, xs)[id] == (m + news)[id]
    {
      if id in news {
        assert news[id] in xs;
        var k :| 0 <= k < |xs| && xs[k] == news[id];
        OverlayOwn(m, xs, k);
      } else {
        forall i | 0 <= i < |xs| ensures xs[i].id != id { assert xs[i] in xs; }
        OverlayOther(m, xs, id);
      }
    }
  }

  lemma {:induction false} EmitAllInv(t: Tail, runId: string, xs: seq<Task>)
    requires TailInv(t) && !t.finalized
    requires forall i, j :: 0 <= i < j < |xs| ==> xs[i].id != xs[j].id
    requires forall i :: 0 <= i < |xs| ==> IsFresh(t.emitted, xs[i])
    ensures var t' := EmitAll(t, runId, xs);
            TailInv(t') && !t'.finalized && LastWins(t'.out) == Overlay(LastWins(t.out), xs)
    decreases |xs|
  {
    if xs != [] {
      var n := |xs| - 1;
      var front := xs[..n];
      assert forall i :: 0 <= i < n ==> front[i] == xs[i];
      EmitAllInv(t, runId, front);
      var mid := EmitAll(t, runId, front);
      OverlayOther(LastWins(t.out), front, xs[n].id);
      assert xs[n].id in mid.emitted ==>
             xs[n].id in LastWins(mid.out) && mid.emitted[xs[n].id] == LastWins(mid.out)[xs[n].id].time;
      assert xs[n].id in t.emitted ==> t.emitted[xs[n].id] == LastWins(t.out)[xs[n].id].time;
      assert IsFresh(t.emitted, xs[n]);
      EmitInv(mid, runId, xs[n]);
    }
  }

  lemma {:induction false} CloseInv(t: Tail, runId: string, summary: Option<Summary>)
    requires TailInv(t) && !t.finalized
    ensures var t' := Close(t, runId, summary);
            && TailInv(t') && LastWins(t'.out) == LastWins(t.out) && t'.finalized == summary.Some?
            && (summary.Some? ==> t'.out != [] && t'.out[|t'.out| - 1].payload == Finalized(summary.value))
  {
    var t' := Close(t, runId, summary);
    assert summary.Some? ==> t'.out[..|t.out|] == t.out;
  }

  lemma {:induction false} TickInv(t: Tail, dirId: string, snap: Snapshot)
    requires Keyed(snap.tasks) && TailInv(t) && !t.finalized
    ensures var t' := Tick(t, dirId, snap);
            && TailInv(t') && t'.finalized == snap.summary.Some?
            && (t'.finalized ==> t'.out != [] && t'.out[|t'.out| - 1].payload == Finalized(snap.summary.value))
            && LastWins(t'.out) == LastWins(t.out) + Fresh(t.emitted, snap.tasks)
  {
    var runId := TailRunId(dirId, snap);
    var news := Fresh(t.emitted, snap.tasks);
    var xs := Listing(news);
    forall i, j | 0 <= i < j < |xs| ensures xs[i].id != xs[j].id { assert Before(xs[i], xs[j]); }
    forall i | 0 <= i < |xs| ensures IsFresh(t.emitted, xs[i]) { assert xs[i] in xs; }
    EmitAllInv(t, runId, xs);
    OverlayListing(LastWins(t.out), xs, news);
    CloseInv(EmitAll(t, runId, xs), runId, snap.summary);
  }

  /** No id disappears, and a record that changed ends later than before. */
  ghost predicate Advances(before: map<Id, Task>, after: map<Id, Task>) {
    forall id :: id in before ==> id in after && (after[id] == before[id] || after[id].time > before[id].time)
  }

  /** A poll leaves the consumer with exactly the snapshot if and only if the snapshot advances what it had. */
  lemma {:induction false} TickConvergesIff(t: Tail, dirId: string, snap: Snapshot)
    requires Keyed(snap.tasks) && TailInv(t) && !t.finalized
    ensures LastWins(Tick(t, dirId, snap).out) == snap.tasks <==> Advances(LastWins(t.out), snap.tasks)
  {
    TickInv(t, dirId, snap);
    var news := Fresh(t.emitted, snap.tasks);
    var after := LastWins(t.out) + news;
    if after == snap.tasks {
      forall id | id in LastWins(t.out)
        ensures id in snap.tasks
                && (snap.tasks[id] == LastWins(t.out)[id] || snap.tasks[id].time > LastWins(t.out)[id].time) {
        assert id in after;
      }
    }
    if Advances(LastWins(t.out), snap.tasks) {
      forall id ensures id in after <==> id in snap.tasks {}
      forall id | id in after ensures after[id] == snap.tasks[id] {}
    }
  }

  /**
   Over any sequence of advancing snapshots: the consumer holds the latest snapshot polled, numbers
   are 1, 2, 3, ..., each task's end times rise, and at most one Finalized is sent, as the last item.
   */
  lemma {:induction false} TailConverges(dirId: string, snaps: seq<Snapshot>)
    requires snaps != []
    requires forall i :: 0 <= i < |snaps| ==> Keyed(snaps[i].tasks)
    requires forall i :: 0 <= i < |snaps| - 1 ==> snaps[i].summary.None? && Advances(snaps[i].tasks, snaps[i + 1].tasks)
    ensures var t := RunTail(dirId, snaps);
            && TailInv(t) && LastWins(t.out) == snaps[|snaps| - 1].tasks
            && t.finalized == snaps[|snaps| - 1].summary.Some?
    decreases |snaps|
  {
    var n := |snaps| - 1;
    var front := snaps[..n];
    if n == 0 {
      assert RunTail(dirId, front) == START;
    } else {
      assert forall i :: 0 <= i < n ==> front[i] == snaps[i];
      TailConverges(dirId, front);
    }
    var t := RunTail(dirId, front);
    TickInv(t, dirId, snaps[n]);
    TickConvergesIff(t, dirId, snaps[n]);
  }

  /**
   Without any condition on the snapshots the numbering, the rising end times and the single closing item still
   hold.
   */
  lemma {:induction false} TailOrdered(dirId: string, snaps: seq<Snapshot>)
    requires forall i :: 0 <= i < |snaps| ==> Keyed(snaps[i].tasks)
    ensures TailInv(RunTail(dirId, snaps))
    decreases |snaps|
  {
    if snaps != [] {
      var front := snaps[..|snaps| - 1];
      assert forall i :: 0 <= i < |front| ==> front[i] == snaps[i];
      TailOrdered(dirId, front);
      var t := RunTail(dirId, front);
      if !t.finalized { TickInv(t, dirId, snaps[|snaps| - 1]); }
    }
  }

  /** A record rewritten with the same end time is never sent again: the consumer keeps the old one. */
  lemma {:induction false} RewriteWithSameEndIsMissed(dirId: string)
    ensures var a, b := Stamped(7, "t", "failed"), Stamped(7, "t", "ok");
            var snaps := [Snapshot(map["t" := a], None), Snapshot(map["t" := b], None)];
            Keyed(snaps[0].tasks) && Keyed(snaps[1].tasks) && LastWins(RunTail(dirId, snaps).out) != snaps[1].tasks
  {
    var a, b := Stamped(7, "t", "failed"), Stamped(7, "t", "ok");
    var snaps := [Snapshot(map["t" := a], None), Snapshot(map["t" := b], None)];
    assert snaps[..1] == [snaps[0]];
    TailConverges(dirId, [snaps[0]]);
    var t := RunTail(dirId, [snaps[0]]);
    assert LastWins(t.out)["t"] == a && snaps[1].tasks["t"] == b;
    TickConvergesIff(t, dirId, snaps[1]);
  }

  // ---- Replay, tail and live agree -----------------------------------------------------------

  /** The same item for another run id. */
  function Relabel(items: seq<Item>, runId: string): seq<Item> {
    seq(|items|, i requires 0 <= i < |items| => items[i].(runId := runId))
  }

  /** The first poll sends what replay sends, up to the run id used before finalization. */
  lemma {:induction false} FirstTickIsReplay(dirId: string, snap: Snapshot)
    requires Keyed(snap.tasks)
    ensures Tick(START, dirId, snap).out == Relabel(ReplayItems(snap), TailRunId(dirId, snap))
    ensures Tick(START, dirId, snap).out == ReplayItems(snap) <==>
            snap.summary.Some? || snap.tasks == map[] || dirId == NIL_RUN
  {
    var runId := TailRunId(dirId, snap);
    assert Fresh(map[], snap.tasks) == snap.tasks;
    var xs := Listing(snap.tasks);
    EmitAllNumbers(runId, xs);
    assert Tick(START, dirId, snap).out == Numbered(1, runId, xs) + Closing(|xs| + 1, runId, snap.summary);
    assert Tick(START, dirId, snap).out == Relabel(ReplayItems(snap), runId);
    if snap.summary.None? && snap.tasks != map[] {
      var id :| id in snap.tasks;
      assert snap.tasks[id] in xs;
      assert ReplayItems(snap)[0].runId == NIL_RUN && Tick(START, dirId, snap).out[0].runId == dirId;
    }
    assert xs == [] || xs[0] in xs;
  }

  lemma {:induction false} EmitAllNumbers(runId: string, xs: seq<Task>)
    ensures var t := EmitAll(START, runId, xs);
            t.out == Numbered(1, runId, xs) && t.seqNo == |xs| && !t.finalized
    decreases |xs|
  {
    if xs != [] { EmitAllNumbers(runId, xs[..|xs| - 1]); }
  }

  const U64_MAX: nat := 0xFFFF_FFFF_FFFF_FFFF

  /** A line from the control socket: skipped when blank or not an envelope. */
  datatype Wire = Skip | Envelope(text: string)

  function Envelopes(lines: seq<Wire>): seq<string> {
    if lines == [] then []
    else Envelopes(lines[..|lines| - 1]) + (if lines[|lines| - 1].Envelope? then [lines[|lines| - 1].text] else [])
  }

  function AtMost(n: nat): nat { if n <= U64_MAX then n else U64_MAX }

  /** The live loop: each envelope gets the next number; the counter sticks at its maximum. */
  method ForwardLive(lines: seq<Wire>, startSeq: nat, runId: string, clock: nat -> int) returns (items: seq<Item>)
    requires startSeq <= U64_MAX
    ensures |items| == |Envelopes(lines)|
    ensures forall i :: 0 <= i < |items| ==>
      items[i].payload == Event(Envelopes(lines)[i]) && items[i].seqNo == AtMost(startSeq + i)
        && items[i].runId == runId
  {
    items := [];
    var seqNo := startSeq;
    for k := 0 to |lines|
      invariant |items| == |Envelopes(lines[..k])|
      invariant forall i :: 0 <= i < |items| ==>
        items[i].payload == Event(Envelopes(lines[..k])[i]) && items[i].seqNo == AtMost(startSeq + i)
          && items[i].runId == runId
      invariant seqNo == AtMost(startSeq + |items|)
    {
      assert lines[..k + 1][..k] == lines[..k];
      if lines[k].Envelope? {
        items := items + [Item(seqNo, clock(k), runId, Event(lines[k].text))];
        seqNo := if seqNo == U64_MAX then U64_MAX else seqNo + 1;
      }
    }
    assert lines[..|lines|] == lines;
  }

  /** Replay, then live from the next number: the numbers run on across the seam. */
  method ReplayThenLive(snap: Snapshot, order: seq<Id>, lines: seq<Wire>, runId: string, clock: nat -> int)
      returns (items: seq<Item>)
    requires Keyed(snap.tasks) && Visits(order, snap.tasks) && |ReplayItems(snap)| < U64_MAX
    ensures ReplayItems(snap) <= items && |items| == |ReplayItems(snap)| + |Envelopes(lines)|
    ensures forall i :: 0 <= i < |items| ==> items[i].seqNo == AtMost(i + 1)
  {
    var replay := BuildReplayItems(snap, order);
    var next := if replay == [] then 1 else replay[|replay| - 1].seqNo + 1;
    assert forall i :: 0 <= i < |replay| ==> replay[i].seqNo == i + 1;
    var live := ForwardLive(lines, next, runId, clock);
    items := replay + live;
  }
}
