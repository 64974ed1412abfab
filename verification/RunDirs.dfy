/** A run directory, how it is read and classified, and the summary a prune synthesizes for it. */
module RunDirs {
  import opened Options
  import opened Utf8
  import opened Sorting

  datatype Detail = Detail(success: bool, rest: string)

  type Task = Stamped<Detail>

  datatype Meta = Meta(runId: string, startedAt: int, rest: string)

  datatype RunSummary = RunSummary(meta: Meta, name: Option<string>, endedAt: int, durationMs: int,
                                   total: nat, failed: nat, interrupted: bool, tasks: seq<Task>, peak: Option<int>)

  /** The file formats: a summary reads back as written; the other readers are arbitrary. */
  datatype Formats = Formats(encode: RunSummary -> seq<byte>, parse: seq<byte> -> Option<RunSummary>,
                             rows: seq<byte> -> seq<Task>, meta: seq<byte> -> Option<Meta>,
                             name: seq<byte> -> Option<string>)

  ghost predicate Lawful(f: Formats) { forall s :: f.parse(f.encode(s)) == Some(s) }

  datatype File = File(bytes: seq<byte>, mtime: int)

  datatype Dir = Dir(files: map<string, File>, taskDirs: nat, mtime: int)

  const SUMMARY := "summary.json"
  const ROWS := "summary.jsonl"
  const META := "meta.json"
  const RESOLVED := "resolved.json"
  const TMP := "summary.json.tmp"

  // ---- Reading ----------------------------------------------------------------------

  /** Later rows win over earlier ones and over the seed. */
  function Overlay(tasks: map<Id, Task>, rows: seq<Task>): map<Id, Task> {
    if rows == [] then tasks
    else Overlay(tasks, rows[..|rows| - 1])[rows[|rows| - 1].id := rows[|rows| - 1]]
  }

  function SummaryOf(f: Formats, d: Dir): Option<RunSummary> {
    if SUMMARY in d.files then f.parse(d.files[SUMMARY].bytes) else None
  }

  function RowsOf(f: Formats, d: Dir): seq<Task> {
    if ROWS in d.files then f.rows(d.files[ROWS].bytes) else []
  }

  function TasksOf(f: Formats, d: Dir): map<Id, Task> {
    var s := SummaryOf(f, d);
    Overlay(Overlay(map[], if s.Some? then s.value.tasks else []), RowsOf(f, d))
  }

  function FailedIds(tasks: map<Id, Task>): set<Id> {
    set id | id in tasks && !tasks[id].value.success
  }

  // ---- Classification ------------------------------------------------------------------

  datatype Status = Running | Stale | Aborted | Complete | Cancelled

  datatype RunEntry = RunEntry(total: nat, failed: nat, status: Status, peak: Option<int>)

  /** Four hours, in milliseconds. */
  const STALENESS: int := 4 * 3600 * 1000

  /** A timestamp in the future counts as recent. */
  predicate Recent(d: Dir, now: int) {
    ROWS in d.files && (d.files[ROWS].mtime > now || now - d.files[ROWS].mtime <= STALENESS)
  }

  function Classify(live: bool, settled: nat, recent: bool): Status {
    if live then Running
    else if settled == 0 && !recent then Aborted
    else if recent then Running
    else Stale
  }

  function EntryOf(f: Formats, d: Dir, live: bool, now: int): RunEntry {
    var s := SummaryOf(f, d);
    if s.Some? then
      RunEntry(s.value.total, s.value.failed, if s.value.interrupted then Cancelled else Complete, s.value.peak)
    else
      var tasks := TasksOf(f, d);
      RunEntry(if |tasks| >= d.taskDirs then |tasks| else d.taskDirs, |FailedIds(tasks)|,
               if SUMMARY in d.files then Aborted else Classify(live, |tasks|, Recent(d, now)), None)
  }

  /** Finalized states come from a summary that parses, and only from one. */
  lemma {:induction false} FinalIffSummaryParses(f: Formats, d: Dir, live: bool, now: int)
    ensures var st := EntryOf(f, d, live, now).status;
            st == Complete || st == Cancelled <==> SummaryOf(f, d).Some?
  {
  }

  // ---- Keys ------------------------------------------------------------------------------

  lemma {:induction false} OverlayKeyed(tasks: map<Id, Task>, rows: seq<Task>)
    requires Keyed(tasks)
    ensures Keyed(Overlay(tasks, rows))
    decreases |rows|
  {
    if rows != [] { OverlayKeyed(tasks, rows[..|rows| - 1]); }
  }

  lemma {:induction false} TasksKeyed(f: Formats, d: Dir)
    ensures Keyed(TasksOf(f, d))
  {
    var s := SummaryOf(f, d);
    OverlayKeyed(map[], if s.Some? then s.value.tasks else []);
    OverlayKeyed(Overlay(map[], if s.Some? then s.value.tasks else []), RowsOf(f, d));
  }

  predicate Names(rows: seq<Task>, id: Id) { exists i :: 0 <= i < |rows| && rows[i].id == id }

  lemma {:induction false} NamesSnoc(rows: seq<Task>)
    requires rows != []
    ensures var n := |rows| - 1; forall id :: Names(rows, id) <==> rows[n].id == id || Names(rows[..n], id)
  {
    var n := |rows| - 1;
    var front := rows[..n];
    forall id ensures Names(rows, id) <==> rows[n].id == id || Names(front, id) {
      if i :| 0 <= i < |rows| && rows[i].id == id && i < n { assert front[i].id == id; }
      if i :| 0 <= i < |front| && front[i].id == id { assert rows[i].id == id; }
    }
  }

  /** Reading rows a second time over their own result changes nothing. */
  lemma {:induction false} OverlayIdempotent(tasks: map<Id, Task>, rows: seq<Task>)
    ensures Overlay(Overlay(tasks, rows), rows) == Overlay(tasks, rows)
  {
    OverlayKeys(tasks, rows);
    OverlaySame(Overlay(tasks, rows), tasks, rows);
  }

  /** After overlaying, the ids of the rows hold row values, whatever lay under them. */
  lemma {:induction false} OverlaySame(a: map<Id, Task>, b: map<Id, Task>, rows: seq<Task>)
    ensures forall id :: Names(rows, id) ==>
              id in Overlay(a, rows) && id in Overlay(b, rows) && Overlay(a, rows)[id] == Overlay(b, rows)[id]
    ensures forall id :: !Names(rows, id) ==>
              (id in Overlay(a, rows) <==> id in a) && (id in a ==> Overlay(a, rows)[id] == a[id])
    decreases |rows|
  {
    if rows != [] {
      var n := |rows| - 1;
      var front := rows[..n];
      OverlaySame(a, b, front);
      NamesSnoc(rows);
    }
  }

  lemma {:induction false} OverlayKeys(tasks: map<Id, Task>, rows: seq<Task>)
    ensures forall id :: id in Overlay(tasks, rows) <==> id in tasks || Names(rows, id)
    decreases |rows|
  {
    if rows != [] {
      var n := |rows| - 1;
      var front := rows[..n];
      OverlayKeys(tasks, front);
      NamesSnoc(rows);
    }
  }

  /** A listing of a map, read back row by row, is the map. */
  lemma {:induction false} ListingReadsBack(xs: seq<Task>, m: map<Id, Task>)
    requires Keyed(m) && IsListing(xs, m)
    ensures Overlay(map[], xs) == m
  {
    ListedOnce(xs);
    var o := Overlay(map[], xs);
    forall id ensures id in o <==> id in m {
      OverlayKeys(map[], xs);
      if id in o { var i :| 0 <= i < |xs| && xs[i].id == id; assert xs[i] in xs; }
      if id in m { assert m[id] in xs; var i :| 0 <= i < |xs| && xs[i] == m[id]; assert xs[i].id == id; }
    }
    forall id | id in m ensures o[id] == m[id] {
      assert m[id] in xs;
      var i :| 0 <= i < |xs| && xs[i] == m[id];
    }
  }

  lemma {:induction false} ListedOnce(xs: seq<Task>)
    requires Ascending(xs)
    ensures forall i :: 0 <= i < |xs| ==> xs[i].id in Overlay(map[], xs) && Overlay(map[], xs)[xs[i].id] == xs[i]
    decreases |xs|
  {
    if xs != [] {
      var n := |xs| - 1;
      ListedOnce(xs[..n]);
      forall i | 0 <= i < |xs| ensures xs[i].id in Overlay(map[], xs) && Overlay(map[], xs)[xs[i].id] == xs[i] {
        if i < n { assert xs[..n][i] == xs[i]; assert Before(xs[i], xs[n]); }
      }
    }
  }

  // ---- Counting ---------------------------------------------------------------------------

  function CountFailed(xs: seq<Task>): nat {
    if xs == [] then 0 else CountFailed(xs[..|xs| - 1]) + (if xs[|xs| - 1].value.success then 0 else 1)
  }

  lemma {:induction false} ListingFront(xs: seq<Task>, m: map<Id, Task>)
    requires Keyed(m) && IsListing(xs, m) && xs != []
    ensures var n := |xs| - 1;
            xs[n].id in m && m[xs[n].id] == xs[n] && IsListing(xs[..n], m - {xs[n].id})
  {
    var n := |xs| - 1;
    var front, m' := xs[..n], m - {xs[n].id};
    assert xs[n] in xs;
    forall x ensures x in front <==> x.id in m' && m'[x.id] == x {
      if x in front { var i :| 0 <= i < n && front[i] == x; assert xs[i] in xs; assert Before(xs[i], xs[n]); }
      if x.id in m' && m'[x.id] == x { assert x in xs; }
    }
  }

  lemma {:induction false} CountWithout(m: map<Id, Task>, id: Id)
    requires id in m
    ensures |m| == |m - {id}| + 1
    ensures |FailedIds(m)| == |FailedIds(m - {id})| + (if m[id].value.success then 0 else 1)
  {
    var m' := m - {id};
    assert m.Keys == m'.Keys + {id};
    assert |m| == |m.Keys| && |m'| == |m'.Keys|;
    assert FailedIds(m) == FailedIds(m') + (if m[id].value.success then {} else {id});
  }

  lemma {:induction false} CountsAgree(xs: seq<Task>, m: map<Id, Task>)
    requires Keyed(m) && IsListing(xs, m)
    ensures |xs| == |m| && CountFailed(xs) == |FailedIds(m)|
    decreases |xs|
  {
    if xs == [] {
      assert forall id :: id in m ==> m[id] in xs;
      assert m == map[];
      assert FailedIds(m) == {};
    } else {
      var n := |xs| - 1;
      ListingFront(xs, m);
      CountsAgree(xs[..n], m - {xs[n].id});
      CountWithout(m, xs[n].id);
    }
  }

  // ---- The synthesized summary --------------------------------------------------------------

  /** The latest end time, or the start when nothing ended. */
  function LatestEnd(xs: seq<Task>, start: int): (t: int)
    ensures xs == [] ==> t == start
    ensures xs != [] ==> (exists i :: 0 <= i < |xs| && xs[i].time == t) && forall i :: 0 <= i < |xs| ==> xs[i].time <= t
  {
    if xs == [] then start
    else
      var n := |xs| - 1;
      var rest := LatestEnd(xs[..n], start);
      var t := if n == 0 || xs[n].time > rest then xs[n].time else rest;
      assert forall i :: 0 <= i < n ==> xs[..n][i] == xs[i];
      assert n == 0 ==> xs[n].time == t;
      t
  }

  function MetaOf(f: Formats, d: Dir): Option<Meta> {
    if META in d.files then f.meta(d.files[META].bytes) else None
  }

  /** `load_summary`: the summary if it parses, else one built from the rows and the metadata. */
  ghost function Loaded(f: Formats, d: Dir): Option<RunSummary> {
    TasksKeyed(f, d);
    var m, s := MetaOf(f, d), SummaryOf(f, d);
    if s.Some? then s
    else if ROWS !in d.files || m.None? then None
    else
      var tasks := Listing(TasksOf(f, d));
      var end := LatestEnd(tasks, m.value.startedAt);
      Some(RunSummary(m.value, if RESOLVED in d.files then f.name(d.files[RESOLVED].bytes) else None,
                      end, end - m.value.startedAt, |tasks|, CountFailed(tasks), true, tasks, None))
  }

  ghost function Synthesized(f: Formats, d: Dir, now: int): Option<RunSummary> {
    if ROWS in d.files then Loaded(f, d)
    else match MetaOf(f, d)
         case None => None
         case Some(m) => Some(RunSummary(m, None, now, now - m.startedAt, 0, 0, true, [], None))
  }

  predicate Sweepable(s: Status, includeAborted: bool) { s == Stale || (s == Aborted && includeAborted) }

  /** For a run that a sweep selects, a summary can be built exactly when its metadata reads. */
  lemma {:induction false} SynthesizedIff(f: Formats, d: Dir, live: bool, now: int, includeAborted: bool)
    requires Sweepable(EntryOf(f, d, live, now).status, includeAborted)
    ensures Synthesized(f, d, now).Some? <==> MetaOf(f, d).Some?
    ensures Synthesized(f, d, now).Some? ==> Synthesized(f, d, now).value.interrupted
  {
    FinalIffSummaryParses(f, d, live, now);
  }

  predicate SameAt(d: Dir, d': Dir, n: string) {
    (n in d'.files <==> n in d.files) && (n in d.files ==> d'.files[n] == d.files[n])
  }

  /** Nothing but a temporary file differs. */
  ghost predicate Untouched(d: Dir, d': Dir) {
    && d'.taskDirs == d.taskDirs
    && forall n :: n != TMP ==> SameAt(d, d', n)
  }

  /** No reader looks at a temporary file. */
  lemma {:induction false} UntouchedReadsAlike(f: Formats, d: Dir, d': Dir, live: bool, now: int)
    requires Untouched(d, d')
    ensures EntryOf(f, d', live, now) == EntryOf(f, d, live, now) && TasksOf(f, d') == TasksOf(f, d)
    ensures Synthesized(f, d', now) == Synthesized(f, d, now)
  {
    assert SameAt(d, d', SUMMARY) && SameAt(d, d', ROWS) && SameAt(d, d', META) && SameAt(d, d', RESOLVED);
    assert SummaryOf(f, d') == SummaryOf(f, d) && RowsOf(f, d') == RowsOf(f, d) && MetaOf(f, d') == MetaOf(f, d);
  }

  /** The directory once the summary is in place. */
  ghost predicate PrunedTo(f: Formats, d: Dir, d': Dir, s: RunSummary) {
    && d'.taskDirs == d.taskDirs
    && SUMMARY in d'.files && d'.files[SUMMARY].bytes == f.encode(s)
    && forall n :: n != SUMMARY && n != TMP ==> SameAt(d, d', n)
  }

  /**
   A pruned run is Cancelled and no sweep selects it again; its tasks read back unchanged, its
   failure count is the one listed before, and its total is the settled count.
   */
  lemma {:induction false} PrunedRunReadsBack(f: Formats, d: Dir, d': Dir, live: bool, now: int, later: int,
                                              includeAborted: bool)
    requires Lawful(f) && Sweepable(EntryOf(f, d, live, now).status, includeAborted)
    requires Synthesized(f, d, now).Some? && PrunedTo(f, d, d', Synthesized(f, d, now).value)
    ensures var e, e' := EntryOf(f, d, live, now), EntryOf(f, d', live, later);
            && e'.status == Cancelled && (forall any :: !Sweepable(e'.status, any))
            && TasksOf(f, d') == TasksOf(f, d)
            && e'.failed == e.failed && e'.total == |TasksOf(f, d)|
            && (e'.total == e.total <==> d.taskDirs <= |TasksOf(f, d)|)
  {
    FinalIffSummaryParses(f, d, live, now);
    var s := Synthesized(f, d, now).value;
    var rows := RowsOf(f, d);
    assert SameAt(d, d', ROWS);
    assert SummaryOf(f, d') == Some(s);
    TasksKeyed(f, d);
    var m := TasksOf(f, d);
    assert m == Overlay(map[], rows);
    if ROWS in d.files {
      ListingReadsBack(Listing(m), m);
      CountsAgree(Listing(m), m);
      OverlayIdempotent(map[], rows);
    } else {
      assert m == map[];
      assert FailedIds(m) == {};
    }
  }
}
