/**
 The prune sweep over the runs directory. Every file-system call may work, fail, or be the last
 one before the process dies, with or without having taken effect.
 */
module Prune {
  import opened Options
  import opened Utf8
  import opened Sorting
  import opened RunDirs

  datatype Fate = Works | Fails | DiesBefore | DiesAfter

  datatype PruneOptions = PruneOptions(apply: bool, remove: bool, includeAborted: bool, olderThan: Option<int>)

  datatype Selected = Selected(run: string, status: Status, age: int, total: nat, failed: nat)

  /** What a sweep reports. */
  datatype Report = Report(candidates: seq<Selected>, outcomes: seq<(string, bool)>)

  function Age(d: Dir, now: int): int { if now >= d.mtime then now - d.mtime else 0 }

  predicate Candidate(f: Formats, o: PruneOptions, d: Dir, live: bool, now: int) {
    && Sweepable(EntryOf(f, d, live, now).status, o.includeAborted)
    && (o.olderThan.Some? ==> Age(d, now) >= o.olderThan.value)
  }

  function SelectedOf(f: Formats, run: string, d: Dir, live: bool, now: int): Selected {
    var e := EntryOf(f, d, live, now);
    Selected(run, e.status, Age(d, now), e.total, e.failed)
  }

  ghost predicate Lists(cs: seq<Selected>, run: string) { exists i :: 0 <= i < |cs| && cs[i].run == run }

  /** Where a write of `bytes` to `name` can leave a directory, whatever happened to it. */
  ghost predicate Written(d: Dir, d': Dir, name: string, bytes: seq<byte>) {
    && d'.taskDirs == d.taskDirs
    && (SameAt(d, d', name) || (name in d'.files && d'.files[name].bytes == bytes))
    && forall n :: n != name && n != name + ".tmp" ==> SameAt(d, d', n)
  }

  /** What a sweep may leave of a run it selected. */
  ghost predicate Settled(f: Formats, d: Dir, d': Dir, now: int) {
    Untouched(d, d') || (Synthesized(f, d, now).Some? && PrunedTo(f, d, d', Synthesized(f, d, now).value))
  }

  lemma {:induction false} WrittenSettles(f: Formats, d: Dir, d': Dir, now: int)
    requires Synthesized(f, d, now).Some? && Written(d, d', SUMMARY, f.encode(Synthesized(f, d, now).value))
    ensures Settled(f, d, d', now)
    ensures SameAt(d, d', SUMMARY) ==> Untouched(d, d')
    ensures SUMMARY in d'.files && d'.files[SUMMARY].bytes == f.encode(Synthesized(f, d, now).value)
            ==> PrunedTo(f, d, d', Synthesized(f, d, now).value)
  {
    assert SUMMARY + ".tmp" == TMP;
    assert forall n :: n != SUMMARY && n != TMP ==> SameAt(d, d', n);
  }

  /**
   Wherever a sweep is cut off, a selected run still has the status it had or is Cancelled, its
   tasks read the same, and Running, Complete and a half-written summary are never seen.
   */
  lemma {:induction false} SettledIsOldOrCancelled(f: Formats, d: Dir, d': Dir, live: bool, now: int,
                                                   includeAborted: bool)
    requires Lawful(f) && Sweepable(EntryOf(f, d, live, now).status, includeAborted) && Settled(f, d, d', now)
    ensures var e, e' := EntryOf(f, d, live, now), EntryOf(f, d', live, now);
            && (e' == e || e'.status == Cancelled) && TasksOf(f, d') == TasksOf(f, d) && e'.failed == e.failed
    ensures EntryOf(f, d', live, now).status == Cancelled
            <==> Synthesized(f, d, now).Some? && PrunedTo(f, d, d', Synthesized(f, d, now).value)
  {
    if Untouched(d, d') {
      UntouchedReadsAlike(f, d, d', live, now);
      if Synthesized(f, d, now).Some? && PrunedTo(f, d, d', Synthesized(f, d, now).value) {
        PrunedRunReadsBack(f, d, d', live, now, now, includeAborted);
      }
    } else {
      PrunedRunReadsBack(f, d, d', live, now, now, includeAborted);
    }
  }

  function At(dirs: map<string, Dir>, run: string): Option<Dir> { if run in dirs then Some(dirs[run]) else None }

  ghost predicate Succeeded(f: Formats, d: Dir, d': Dir, now: int) {
    Synthesized(f, d, now).Some? && PrunedTo(f, d, d', Synthesized(f, d, now).value)
  }

  /** What a selected run may look like, given what was reported and whether the process lived to report it. */
  ghost predicate Reported(f: Formats, remove: bool, d: Dir, after: Option<Dir>, ok: bool, dead: bool, now: int) {
    if remove then
      (ok ==> after == None) && (after.Some? ==> Partial(d, after.value))
    else
      && after.Some? && Settled(f, d, after.value, now)
      && (ok ==> Succeeded(f, d, after.value, now))
      && (!ok && !dead ==> Untouched(d, after.value))
  }

  /** The keys of a map in some iteration order. */
  method KeyOrder<V>(m: map<string, V>) returns (order: seq<string>)
    ensures Visits(order, m)
  {
    order := [];
    var left := m.Keys;
    while left != {}
      invariant left <= m.Keys
      invariant forall i, j :: 0 <= i < j < |order| ==> order[i] != order[j]
      invariant forall id :: id in order <==> id in m && id !in left
      decreases left
    {
      var id :| id in left;
      order := order + [id];
      left := left - {id};
    }
  }

  /** Collect the tasks in map order, sort them, count and find the latest end. */
  method BuildSynthesized(f: Formats, d: Dir, now: int) returns (s: Option<RunSummary>)
    ensures s == Synthesized(f, d, now)
  {
    TasksKeyed(f, d);
    var m := MetaOf(f, d);
    if ROWS in d.files {
      var done := SummaryOf(f, d);
      if done.Some? { return done; }
      if m.None? { return None; }
      var all := TasksOf(f, d);
      var order := KeyOrder(all);
      var tasks: seq<Task> := [];
      for i := 0 to |order|
        invariant |tasks| == i && forall k :: 0 <= k < i ==> tasks[k] == all[order[k]]
      {
        tasks := tasks + [all[order[i]]];
      }
      SortedVisitIsListing(order, all, tasks);
      tasks := Sort(tasks);
      ListingUnique(tasks, all);
      var end := LatestEnd(tasks, m.value.startedAt);
      var name := if RESOLVED in d.files then f.name(d.files[RESOLVED].bytes) else None;
      return Some(RunSummary(m.value, name, end, end - m.value.startedAt, |tasks|, CountFailed(tasks), true, tasks,
                             None));
    }
    if m.None? { return None; }
    return Some(RunSummary(m.value, None, now, now - m.value.startedAt, 0, 0, true, [], None));
  }

  class RunsBase {
    var dirs: map<string, Dir>
    var script: seq<Fate>
    var dead: bool
    /** Runs whose control socket lies in the session's runtime directory. */
    var sockets: set<string>

    constructor (dirs: map<string, Dir>, script: seq<Fate>, sockets: set<string>)
      ensures this.dirs == dirs && this.script == script && this.sockets == sockets && !dead
    {
      this.dirs, this.script, this.sockets, dead := dirs, script, sockets, false;
    }

    /** Does the coming call take effect, and does its caller live to see it succeed? */
    method Attempt() returns (acts: bool, ok: bool)
      modifies this`script, this`dead
      ensures ok ==> acts && !dead
      ensures old(dead) ==> !acts
      ensures dead <==> old(dead) || (|old(script)| > 0 && (old(script[0]).DiesBefore? || old(script[0]).DiesAfter?))
      ensures !ok && acts ==> dead
    {
      var fate := if script == [] then Works else script[0];
      if script != [] { script := script[1..]; }
      acts := !dead && (fate.Works? || fate.DiesAfter?);
      ok := !dead && fate.Works?;
      dead := dead || fate.DiesBefore? || fate.DiesAfter?;
    }

    method Store(run: string, name: string, file: File, now: int) returns (ok: bool)
      requires run in dirs
      modifies this`dirs, this`script, this`dead
      ensures run in dirs && dirs == old(dirs)[run := dirs[run]] && dirs[run].taskDirs == old(dirs[run].taskDirs)
      ensures dirs[run].files == old(dirs[run].files) || dirs[run].files == old(dirs[run].files)[name := file]
      ensures ok ==> dirs[run].files == old(dirs[run].files)[name := file] && !dead
      ensures old(dead) ==> dead
    {
      var acts;
      acts, ok := Attempt();
      if acts {
        var d := dirs[run];
        dirs := dirs[run := d.(files := d.files[name := file], mtime := now)];
      }
      assert dirs == old(dirs)[run := dirs[run]];
    }

    /** The rename takes effect at once or not at all. */
    method Rename(run: string, name: string, target: string, now: int) returns (ok: bool)
      requires run in dirs && name != target
      modifies this`dirs, this`script, this`dead
      ensures run in dirs && dirs == old(dirs)[run := dirs[run]] && dirs[run].taskDirs == old(dirs[run].taskDirs)
      ensures dirs[run].files == old(dirs[run].files)
              || (name in old(dirs[run].files)
                  && dirs[run].files == (old(dirs[run].files) - {name})[target := old(dirs[run].files[name])])
      ensures ok ==> name in old(dirs[run].files) && !dead
      ensures ok ==> dirs[run].files == (old(dirs[run].files) - {name})[target := old(dirs[run].files[name])]
      ensures !ok && !dead ==> dirs == old(dirs)
      ensures old(dead) ==> dead
    {
      var acts;
      acts, ok := Attempt();
      var d := dirs[run];
      if name !in d.files {
        acts, ok := false, false;
      }
      if acts {
        dirs := dirs[run := d.(files := (d.files - {name})[target := d.files[name]], mtime := now)];
      }
      assert dirs == old(dirs)[run := dirs[run]];
    }

    method Remove(run: string, name: string, now: int) returns (ok: bool)
      requires run in dirs
      modifies this`dirs, this`script, this`dead
      ensures run in dirs && dirs == old(dirs)[run := dirs[run]] && dirs[run].taskDirs == old(dirs[run].taskDirs)
      ensures dirs[run].files == old(dirs[run].files) || dirs[run].files == old(dirs[run].files) - {name}
      ensures ok ==> dirs[run].files == old(dirs[run].files) - {name} && !dead
      ensures old(dead) ==> dead
    {
      var acts;
      acts, ok := Attempt();
      if acts {
        var d := dirs[run];
        dirs := dirs[run := d.(files := d.files - {name}, mtime := now)];
      }
      assert dirs == old(dirs)[run := dirs[run]];
    }

    /** Truncate the sibling, write it byte by byte, sync, rename. */
    method WriteAtomic(run: string, name: string, bytes: seq<byte>, now: int) returns (ok: bool)
      requires run in dirs
      modifies this`dirs, this`script, this`dead
      ensures run in dirs && dirs == old(dirs)[run := dirs[run]]
      ensures Written(old(dirs[run]), dirs[run], name, bytes)
      ensures ok ==> !dead && name in dirs[run].files && dirs[run].files[name].bytes == bytes
      ensures ok ==> name + ".tmp" !in dirs[run].files
      ensures !ok && !dead ==> SameAt(old(dirs[run]), dirs[run], name)
      ensures old(dead) ==> dead
    {
      var tmp := name + ".tmp";
      assert |tmp| != |name|;
      ghost var d0 := dirs[run];
      ok := Store(run, tmp, File([], now), now);
      if !ok { return; }
      for i := 0 to |bytes|
        invariant run in dirs && dirs == old(dirs)[run := dirs[run]] && dirs[run].taskDirs == d0.taskDirs && !dead
        invariant dirs[run].files == d0.files[tmp := File(bytes[..i], now)]
      {
        ok := Store(run, tmp, File(bytes[..i + 1], now), now);
        if !ok { return; }
      }
      assert bytes[..|bytes|] == bytes;
      var acts;
      acts, ok := Attempt();
      if !ok { return; }
      ok := Rename(run, tmp, name, now);
      if !ok && !dead {
        var gone := Remove(run, tmp, now);
      }
    }

    method SynthesizeSummary(f: Formats, run: string, now: int) returns (ok: bool)
      requires run in dirs
      modifies this`dirs, this`script, this`dead
      ensures run in dirs && dirs == old(dirs)[run := dirs[run]]
      ensures Settled(f, old(dirs[run]), dirs[run], now)
      ensures ok ==> !dead && Synthesized(f, old(dirs[run]), now).Some?
                     && PrunedTo(f, old(dirs[run]), dirs[run], Synthesized(f, old(dirs[run]), now).value)
      ensures !ok && !dead ==> Untouched(old(dirs[run]), dirs[run])
      ensures old(dead) ==> dead
    {
      ghost var d := dirs[run];
      var s := BuildSynthesized(f, dirs[run], now);
      if s.None? { return false; }
      ok := WriteAtomic(run, SUMMARY, f.encode(s.value), now);
      WrittenSettles(f, d, dirs[run], now);
    }

    /** Delete the task directories of a run, one after the other. */
    method RemoveTasks(run: string, now: int) returns (ok: bool)
      requires run in dirs
      modifies this`dirs, this`script, this`dead
      ensures run in dirs && dirs == old(dirs)[run := dirs[run]]
      ensures dirs[run].files == old(dirs[run].files) && dirs[run].taskDirs <= old(dirs[run].taskDirs)
      ensures ok ==> dirs[run].taskDirs == 0
      ensures old(dead) ==> dead
    {
      ok := true;
      while ok && dirs[run].taskDirs > 0
        invariant run in dirs && dirs == old(dirs)[run := dirs[run]]
        invariant dirs[run].files == old(dirs[run].files) && dirs[run].taskDirs <= old(dirs[run].taskDirs)
        invariant old(dead) ==> dead
        decreases dirs[run].taskDirs, ok
      {
        var acts;
        acts, ok := Attempt();
        if acts { dirs := dirs[run := dirs[run].(taskDirs := dirs[run].taskDirs - 1, mtime := now)]; }
      }
    }

    /** Delete the contents of a run in some order, the task directories at some point of it, and then the directory. */
    method RemoveAll(run: string, now: int) returns (ok: bool)
      requires run in dirs
      modifies this`dirs, this`script, this`dead
      ensures forall r :: r != run ==> At(dirs, r) == At(old(dirs), r)
      ensures run in dirs ==> Partial(old(dirs[run]), dirs[run])
      ensures ok <==> run !in dirs && !dead
      ensures old(dead) ==> dead
    {
      var names := KeyOrder(dirs[run].files);
      var turn :| 0 <= turn <= |names|;
      for i := 0 to |names| + 1
        invariant run in dirs && dirs == old(dirs)[run := dirs[run]] && Partial(old(dirs[run]), dirs[run])
        invariant old(dead) ==> dead
      {
        if i == turn {
          ok := RemoveTasks(run, now);
          if !ok { return; }
        }
        if i < |names| {
          ok := Remove(run, names[i], now);
          if !ok { return; }
        }
      }
      var acts;
      acts, ok := Attempt();
      if acts { dirs := dirs - {run}; }
    }

    /**
     Remove a run, and then, as far as that goes, its leftover socket: the socket goes only after the
     directory, a failure to unlink it is no failure, and no other run's socket is touched.
     */
    method RemoveRun(run: string, now: int) returns (ok: bool)
      requires run in dirs
      modifies this
      ensures forall r :: r != run ==> At(dirs, r) == At(old(dirs), r)
      ensures run in dirs ==> Partial(old(dirs[run]), dirs[run]) && sockets == old(sockets)
      ensures sockets == old(sockets) || sockets == old(sockets) - {run}
      ensures ok <==> run !in dirs && !dead
      ensures old(dead) ==> dead
    {
      ok := RemoveAll(run, now);
      if ok && run in sockets {
        var acts;
        acts, ok := Attempt();
        if acts { sockets := sockets - {run}; }
        ok := !dead;
      }
    }

    method Act(f: Formats, remove: bool, run: string, now: int) returns (ok: bool)
      requires run in dirs
      modifies this
      ensures forall r :: r != run ==> At(dirs, r) == At(old(dirs), r)
      ensures Reported(f, remove, old(dirs[run]), At(dirs, run), ok, dead, now)
      ensures forall r :: r in sockets ==> r in old(sockets)
      ensures forall r :: r in old(sockets) && r !in sockets ==> remove && r == run && r !in dirs
      ensures old(dead) ==> dead
    {
      if remove {
        ok := RemoveRun(run, now);
      } else {
        ok := SynthesizeSummary(f, run, now);
      }
    }

    /**
     The sweep: classify every run, select, then act on each selected one. Runs that are not
     selected keep their directory and their socket, and each outcome is as reported.
     */
    method Sweep(f: Formats, o: PruneOptions, live: set<string>, now: int) returns (rep: Report)
      modifies this
      ensures Gathered(rep.candidates, old(dirs).Keys, Wanted(f, o, old(dirs), live, now),
                       Details(f, old(dirs), live, now))
      ensures forall r :: !Lists(rep.candidates, r) ==> At(dirs, r) == At(old(dirs), r)
      ensures forall r :: r in old(sockets) && r !in sockets ==>
              o.apply && o.remove && Lists(rep.candidates, r) && r !in dirs
      ensures !o.apply ==> dirs == old(dirs) && rep.outcomes == []
      ensures o.apply ==> |rep.outcomes| == |rep.candidates| && Told(f, o.remove, old(dirs), rep, dirs, dead, now)
    {
      var cs := SelectCandidates(f, o, live, now);
      rep := Report(cs, []);
      if !o.apply { return; }
      ghost var was := dirs;
      for i := 0 to |cs|
        invariant rep.candidates == cs && |rep.outcomes| == i
        invariant forall r :: !Lists(cs[..i], r) ==> At(dirs, r) == At(was, r)
        invariant forall r :: r in old(sockets) && r !in sockets ==> o.remove && Lists(cs[..i], r) && r !in dirs
        invariant Told(f, o.remove, was, rep, dirs, dead, now)
      {
        ghost var before, died := dirs, dead;
        var run := cs[i].run;
        ListsSnoc(cs, i);
        assert run in was;
        assert At(dirs, run) == At(was, run) by { assert !Lists(cs[..i], run); }
        var ok := Act(f, o.remove, run, now);
        ToldStep(f, o.remove, was, rep, before, died, dirs, dead, ok, now);
        rep := rep.(outcomes := rep.outcomes + [(run, ok)]);
      }
      assert cs[..|cs|] == cs;
    }

    /** Exactly the runs to sweep, each once, with what is printed of them. */
    method SelectCandidates(f: Formats, o: PruneOptions, live: set<string>, now: int) returns (cs: seq<Selected>)
      ensures Gathered(cs, dirs.Keys, Wanted(f, o, dirs, live, now), Details(f, dirs, live, now))
    {
      ghost var wanted, details := Wanted(f, o, dirs, live, now), Details(f, dirs, live, now);
      var names := KeyOrder(dirs);
      cs := [];
      for i := 0 to |names|
        invariant Gathered(cs, set k | 0 <= k < i :: names[k], wanted, details)
      {
        var run := names[i];
        assert (set k | 0 <= k < i + 1 :: names[k]) == (set k | 0 <= k < i :: names[k]) + {run};
        assert run !in (set k | 0 <= k < i :: names[k]);
        GatherStep(cs, set k | 0 <= k < i :: names[k], wanted, details, run);
        if Candidate(f, o, dirs[run], run in live, now) {
          cs := cs + [SelectedOf(f, run, dirs[run], run in live, now)];
        }
      }
      assert (set k | 0 <= k < |names| :: names[k]) == dirs.Keys;
    }
  }

  ghost function Wanted(f: Formats, o: PruneOptions, dirs: map<string, Dir>, live: set<string>, now: int): set<string> {
    set r | r in dirs && Candidate(f, o, dirs[r], r in live, now)
  }

  ghost function Details(f: Formats, dirs: map<string, Dir>, live: set<string>, now: int)
    : (details: map<string, Selected>)
    ensures forall r :: r in details ==> details[r].run == r
  {
    map r | r in dirs :: SelectedOf(f, r, dirs[r], r in live, now)
  }

  /** The wanted ones among `seen`, each once, with their details. */
  ghost predicate Gathered(cs: seq<Selected>, seen: set<string>, wanted: set<string>, details: map<string, Selected>) {
    && (forall r :: Lists(cs, r) <==> r in seen && r in wanted)
    && (forall i :: 0 <= i < |cs| ==> cs[i].run in details && cs[i] == details[cs[i].run])
    && (forall i, j :: 0 <= i < j < |cs| ==> cs[i].run != cs[j].run)
  }

  lemma {:induction false} GatherStep(cs: seq<Selected>, seen: set<string>, wanted: set<string>,
                                      details: map<string, Selected>, run: string)
    requires Gathered(cs, seen, wanted, details) && run !in seen && run in details
    requires details[run].run == run
    ensures Gathered(if run in wanted then cs + [details[run]] else cs, seen + {run}, wanted, details)
  {
    assert !Lists(cs, run);
    if run in wanted {
      var more := cs + [details[run]];
      assert more[..|cs|] == cs && more[..|cs| + 1] == more;
      ListsSnoc(more, |cs|);
    }
  }

  /** Every outcome reported so far describes what became of its candidate. */
  ghost predicate Told(f: Formats, remove: bool, was: map<string, Dir>, rep: Report, dirs: map<string, Dir>, dead: bool,
                       now: int) {
    && |rep.outcomes| <= |rep.candidates|
    && forall i :: 0 <= i < |rep.outcomes| ==>
         var r := rep.candidates[i].run;
         rep.outcomes[i].0 == r && r in was && Reported(f, remove, was[r], At(dirs, r), rep.outcomes[i].1, dead, now)
  }

  lemma {:induction false} ReportedLater(f: Formats, remove: bool, d: Dir, after: Option<Dir>, ok: bool, dead: bool,
                                         dead': bool, now: int)
    requires Reported(f, remove, d, after, ok, dead, now) && (dead ==> dead')
    ensures Reported(f, remove, d, after, ok, dead', now)
  {
  }

  lemma {:induction false} ToldStep(f: Formats, remove: bool, was: map<string, Dir>, rep: Report,
                                    dirs: map<string, Dir>, dead: bool, dirs': map<string, Dir>, dead': bool,
                                    ok: bool, now: int)
    requires Told(f, remove, was, rep, dirs, dead, now) && (dead ==> dead')
    requires |rep.outcomes| < |rep.candidates|
    requires forall i, j :: 0 <= i < j < |rep.candidates| ==> rep.candidates[i].run != rep.candidates[j].run
    requires var run := rep.candidates[|rep.outcomes|].run;
             && (forall r :: r != run ==> At(dirs', r) == At(dirs, r))
             && run in was && Reported(f, remove, was[run], At(dirs', run), ok, dead', now)
    ensures var run := rep.candidates[|rep.outcomes|].run;
            Told(f, remove, was, rep.(outcomes := rep.outcomes + [(run, ok)]), dirs', dead', now)
  {
    forall i | 0 <= i < |rep.outcomes|
      ensures var r := rep.candidates[i].run; Reported(f, remove, was[r], At(dirs', r), rep.outcomes[i].1, dead', now)
    {
      var r := rep.candidates[i].run;
      ReportedLater(f, remove, was[r], At(dirs, r), rep.outcomes[i].1, dead, dead', now);
    }
  }

  lemma {:induction false} ListsSnoc(cs: seq<Selected>, i: nat)
    requires i < |cs|
    ensures forall r :: Lists(cs[..i + 1], r) <==> Lists(cs[..i], r) || r == cs[i].run
  {
    var a, b := cs[..i], cs[..i + 1];
    forall r ensures Lists(b, r) <==> Lists(a, r) || r == cs[i].run {
      if Lists(a, r) { var k :| 0 <= k < |a| && a[k].run == r; assert b[k].run == r; }
      assert b[i] == cs[i];
    }
  }

  // ---- Removal ----------------------------------------------------------------------------

  /** Some of the files are gone, the others as they were. */
  ghost predicate Partial(d: Dir, d': Dir) {
    && d'.taskDirs <= d.taskDirs && d'.files.Keys <= d.files.Keys
    && forall n :: n in d'.files ==> d'.files[n] == d.files[n]
  }

  /**
   A removal cut off half-way leaves a run that is never finalized; it can show as Running only
   if its unreadable summary went first while its rows were still recent or its socket answered.
   */
  lemma {:induction false} InterruptedRemoval(f: Formats, d: Dir, d': Dir, live: bool, now: int, includeAborted: bool)
    requires Sweepable(EntryOf(f, d, live, now).status, includeAborted) && Partial(d, d')
    ensures var st := EntryOf(f, d', live, now).status;
            && st in {Running, Stale, Aborted}
            && (st == Running <==> SUMMARY in d.files && SUMMARY !in d'.files && (live || Recent(d', now)))
  {
    FinalIffSummaryParses(f, d, live, now);
    assert SummaryOf(f, d').None?;
  }

  /** No summary parses and every text has no rows. */
  const BLANK := Formats(s => [], b => None, b => [], b => None, b => None)

  const HALF_GONE := Dir(map[ROWS := File([], 0)], 0, 0)

  /** An unreadable summary beside fresh rows: Aborted, until a removal takes the summary first and dies. */
  lemma {:induction false} RemovalShowsRunning()
    ensures var d := HALF_GONE.(files := HALF_GONE.files[SUMMARY := File([], 0)]);
            && EntryOf(BLANK, d, false, 0).status == Aborted && Partial(d, HALF_GONE)
            && EntryOf(BLANK, HALF_GONE, false, 0).status == Running
  {
    assert SUMMARY != ROWS by { assert |SUMMARY| != |ROWS|; }
    assert SUMMARY !in HALF_GONE.files && ROWS in HALF_GONE.files;
    assert Recent(HALF_GONE, 0);
  }
}
