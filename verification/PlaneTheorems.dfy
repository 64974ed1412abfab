/** Results over whole runs of the communication plane: every interleaving, failed append, crash and resume. */
module PlaneTheorems {
  import opened Topology
  import opened Journal
  import opened Framing
  import opened Plane
  import opened PlaneCalls
  import opened PlaneJournal
  import opened PlaneEpoch
  import opened PlaneAccess

  // ---- The invariant of every reachable state -----------------------------------------

  ghost predicate Inv(cfg: Config, s: State) {
    && TreeInv(cfg, s) && CallsInv(cfg, s) && JournalInv(s) && EpochInv(s)
    && CountInv(s) && NotAhead(s) && AccessInv(cfg, s) && DiskInv(cfg, s) && StraysInv(s)
  }

  lemma {:induction false} InitInv(cfg: Config)
    requires RolesBound(cfg)
    ensures Inv(cfg, Init(cfg))
  {
    var s := Init(cfg);
    assert OnDisk(s) == [] by { assert TailAfter<Record>(Blank, []) == Blank; }
    assert s.journal[..0] == [];
    assert Since(s) == [];
    forall owner ensures OwnedBy(s.memory.store.artifacts, owner) == {} {}
  }

  lemma {:induction false} Reachable(cfg: Config, evs: seq<Event>)
    requires RolesBound(cfg)
    ensures Inv(cfg, Exec(cfg, evs))
    decreases |evs|
  {
    if evs == [] {
      InitInv(cfg);
    } else {
      var s, e := Exec(cfg, evs[..|evs| - 1]), evs[|evs| - 1];
      Reachable(cfg, evs[..|evs| - 1]);
      ReplayKeysFit(OnDisk(s));
      TreeInvStep(cfg, s, e);
      CallsInvStep(cfg, s, e);
      JournalInvStep(cfg, s, e);
      EpochInvStep(cfg, s, e);
      CountInvStep(cfg, s, e);
      NotAheadStep(cfg, s, e);
      AccessInvStep(cfg, s, e);
      OwedPutsAreUnread(s);
      DiskInvStep(cfg, s, e);
      StraysInvStep(cfg, s, e);
    }
  }

  lemma {:induction false} OwedPutsAreUnread(s: State)
    requires JournalInv(s)
    ensures OwedIsUnread(s)
  {
    ReplayKeys(EMPTY, OnDisk(s));
    forall id | id in OwedPuts(s.calls) ensures id !in Rebuilt(s).store.artifacts {
      var k :| k in s.calls && id in PutOf(s.calls[k]);
      forall i | 0 <= i < |OnDisk(s)| ensures !Puts(OnDisk(s)[i], id) {
        assert NewIds(OnDisk(s)[i]) !! Holds(s.calls[k]);
      }
    }
  }

  // ---- Replay invents nothing -----------------------------------------------------------

  /** Step `k` of the run wrote record `r` to memory. */
  ghost predicate WroteAt(cfg: Config, evs: seq<Event>, k: nat, r: Record) {
    exists call :: WroteFor(cfg, evs, k, call, r)
  }

  ghost predicate WroteFor(cfg: Config, evs: seq<Event>, k: nat, call: nat, r: Record) {
    k < |evs| && Commits(cfg, Exec(cfg, evs[..k]), Exec(cfg, evs[..k + 1]), call, r)
  }

  /**
   At every point of every run, what replay would rebuild is part of the live memory, and
   each message, ack, artifact and grant in either was written by a step of the run.
   */
  lemma {:induction false} ReplayInventsNothing(cfg: Config, evs: seq<Event>, r: Record)
    requires RolesBound(cfg) && Plain(r)
    ensures var s := Exec(cfg, evs);
            && Below(Rebuilt(s).store, s.memory.store)
            && (Absorbed(Rebuilt(s).store, r) ==> Absorbed(s.memory.store, r))
            && (Absorbed(s.memory.store, r) ==> exists k, r' :: WroteAt(cfg, evs, k, r') && SameAct(r', r))
  {
    Reachable(cfg, evs);
    var s := Exec(cfg, evs);
    if Absorbed(Rebuilt(s).store, r) { AbsorbedUp(Rebuilt(s).store, s.memory.store, r); }
    if Absorbed(s.memory.store, r) {
      var k, r' := Origin(cfg, evs, r);
    }
  }

  lemma {:induction false} Origin(cfg: Config, evs: seq<Event>, r: Record) returns (k: nat, r': Record)
    requires RolesBound(cfg) && Plain(r) && Absorbed(Exec(cfg, evs).memory.store, r)
    ensures WroteAt(cfg, evs, k, r') && SameAct(r', r)
    decreases |evs|
  {
    assert evs != [];
    var front := evs[..|evs| - 1];
    if Absorbed(Exec(cfg, front).memory.store, r) {
      k, r' := Origin(cfg, front, r);
      EarlierWrite(cfg, evs, k, r');
    } else {
      k := |evs| - 1;
      r' := LastWrite(cfg, evs, r);
    }
  }

  lemma {:induction false} EarlierWrite(cfg: Config, evs: seq<Event>, k: nat, r: Record)
    requires evs != [] && WroteAt(cfg, evs[..|evs| - 1], k, r)
    ensures WroteAt(cfg, evs, k, r)
  {
    var front := evs[..|evs| - 1];
    var call :| WroteFor(cfg, front, k, call, r);
    assert front[..k] == evs[..k] && front[..k + 1] == evs[..k + 1];
    assert WroteFor(cfg, evs, k, call, r);
  }

  lemma {:induction false} LastWrite(cfg: Config, evs: seq<Event>, r: Record) returns (r': Record)
    requires RolesBound(cfg) && Plain(r) && evs != []
    requires !Absorbed(Exec(cfg, evs[..|evs| - 1]).memory.store, r) && Absorbed(Exec(cfg, evs).memory.store, r)
    ensures WroteAt(cfg, evs, |evs| - 1, r') && SameAct(r', r)
  {
    var n := |evs| - 1;
    var s := Exec(cfg, evs[..n]);
    Reachable(cfg, evs[..n]);
    var f := EffectOf(cfg, s, evs[n]);
    var call;
    call, r' := NewEffect(cfg, s, Step(cfg, s, evs[n]), f, r);
    assert evs[..n + 1] == evs;
    assert WroteFor(cfg, evs, n, call, r');
  }

  /** Only a commit adds to live memory; a restart takes from it. */
  lemma {:induction false} QuietEffect(cfg: Config, s: State, s': State, f: Effect, r: Record)
    requires JournalInv(s) && Does(cfg, s, s', f) && !f.Commit? && Absorbed(s'.memory.store, r)
    ensures Absorbed(s.memory.store, r)
  {
    match f {
      case Restarted => AbsorbedUp(Rebuilt(s).store, s.memory.store, r);
      case _ =>
    }
  }

  lemma {:induction false} NewlyAbsorbed(st: Store, r': Record, r: Record)
    requires Fresh(st, r') && Plain(r') && Plain(r) && !Absorbed(st, r) && Absorbed(StoreAfter(st, r'), r)
    ensures SameAct(r', r)
  {
  }

  /** An effect that newly appears in memory comes from a commit of that record. */
  lemma {:induction false} NewEffect(cfg: Config, s: State, s': State, f: Effect, r: Record)
      returns (call: nat, r': Record)
    requires CallsInv(cfg, s) && JournalInv(s) && Does(cfg, s, s', f) && Plain(r)
    requires !Absorbed(s.memory.store, r) && Absorbed(s'.memory.store, r)
    ensures Commits(cfg, s, s', call, r') && SameAct(r', r)
  {
    if !f.Commit? { QuietEffect(cfg, s, s', f, r); }
    call, r' := f.k, f.r;
    NewlyAbsorbed(s.memory.store, r', r);
  }

  // ---- Replay equals live memory ----------------------------------------------------------

  /** No call has written memory without having appended yet. */
  ghost predicate Settled(s: State) { forall k :: k in s.calls ==> !s.calls[k].stage.Recorded? }

  /** Since the last start every append was whole, on a file that ended with a newline. */
  ghost predicate Unharmed(s: State) {
    && s.epoch.from <= |s.journal| && Clean(s.journal[..s.epoch.from])
    && forall i :: s.epoch.from <= i < |s.journal| ==> s.journal[i].wrote.Full?
  }

  /** Every ack and grant appended since the start was known before, or has a copy after its target. */
  ghost predicate InTime(m: Memory, rs: seq<Record>) {
    forall j :: 0 <= j < |rs| && Acting(rs[j]) ==> HeldBy(m.store, rs[j]) || Effective(m, rs, rs[j])
  }

  lemma {:induction false} ReadsSinceStart(s: State)
    requires s.epoch.from <= |s.journal| && Unharmed(s)
    ensures OnDisk(s) == Recovered(s.journal[..s.epoch.from]) + Since(s)
  {
    var boot, more := s.journal[..s.epoch.from], s.journal[s.epoch.from..];
    assert forall i :: 0 <= i < |more| ==> more[i] == s.journal[s.epoch.from + i];
    WholeAppends(boot, more);
    assert boot + more == s.journal;
  }

  lemma {:induction false} UnharmedReads(s: State)
    requires EpochInv(s) && Unharmed(s)
    ensures Rebuilt(s) == Replay(s.epoch.base, Since(s))
    ensures OnDisk(s) == Recovered(s.journal[..s.epoch.from]) + Since(s)
  {
    ReadsSinceStart(s);
    ReplayConcat(EMPTY, Recovered(s.journal[..s.epoch.from]), Since(s));
  }

  /**
   With nothing in progress and no append harmed since the last start, replay rebuilds the
   live messages and artifacts exactly when every ack and grant reached the journal in time.
   */
  lemma {:induction false} ReplayEqualsLiveIffInTime(cfg: Config, evs: seq<Event>)
    requires RolesBound(cfg)
    requires Settled(Exec(cfg, evs)) && Unharmed(Exec(cfg, evs))
    ensures var s := Exec(cfg, evs);
            Rebuilt(s).store == s.memory.store <==> InTime(s.epoch.base, Since(s))
  {
    Reachable(cfg, evs);
    var s := Exec(cfg, evs);
    var ep, rs := s.epoch, Since(s);
    UnharmedReads(s);
    forall r ensures Owed(s.calls, s.next, r) == 0 { NothingOwed(s.calls, s.next, r); }
    assert multiset(ep.log) == multiset(rs);
    SinceIsNew(s);
    SameStoreIffOnTime(ep.base, ep.log, rs);
  }

  lemma {:induction false} SinceIsNew(s: State)
    requires EpochInv(s) && JournalInv(s) && Unharmed(s) && multiset(s.epoch.log) == multiset(Since(s))
    ensures NewOver(s.epoch.base, Since(s))
  {
    UnharmedReads(s);
    var boot, rs := Recovered(s.journal[..s.epoch.from]), Since(s);
    ApartSuffix(boot, rs);
    ApartIsDistinct(rs);
    forall i | 0 <= i < |rs| ensures Fresh(s.epoch.base.store, rs[i]) && Plain(rs[i]) {
      assert rs[i] in multiset(s.epoch.log);
      var k :| 0 <= k < |s.epoch.log| && s.epoch.log[k] == rs[i];
    }
  }

  lemma {:induction false} ApartSuffix(a: seq<Record>, b: seq<Record>)
    requires forall i, j :: 0 <= i < j < |a + b| ==> NewIds((a + b)[i]) !! NewIds((a + b)[j])
    ensures forall i, j :: 0 <= i < j < |b| ==> NewIds(b[i]) !! NewIds(b[j])
  {
    forall i, j | 0 <= i < j < |b| ensures NewIds(b[i]) !! NewIds(b[j]) {
      assert (a + b)[|a| + i] == b[i] && (a + b)[|a| + j] == b[j];
    }
  }

  // ---- Counters ----------------------------------------------------------------------------

  /** Replayed counters leave room for every call still in progress. */
  ghost predicate NotAhead(s: State) {
    forall a, mail :: a != "" ==>
      Ops(Rebuilt(s).activity, a, mail) + Flight(s.calls, s.next, a, mail) <= Ops(s.memory.activity, a, mail)
  }

  lemma {:induction false} OpsOfPrefix(rs: seq<Record>, k: nat, a: Id, mail: bool)
    requires k <= |rs|
    ensures Ops(Replay(EMPTY, rs[..k]).activity, a, mail) <= Ops(Replay(EMPTY, rs).activity, a, mail)
    decreases |rs|
  {
    if k == |rs| {
      assert rs[..k] == rs;
    } else {
      var front := rs[..|rs| - 1];
      OpsOfPrefix(front, k, a, mail);
      assert front[..k] == rs[..k];
      OpsNoted(Replay(EMPTY, front).activity, rs[|rs| - 1], a, mail);
    }
  }

  lemma {:induction false} AppendNotAhead(cfg: Config, s: State, k: nat, wrote: Wrote, a: Id, mail: bool)
    requires CallsInv(cfg, s) && CountInv(s) && NotAhead(s) && k in s.calls && s.calls[k].stage.Recorded? && a != ""
    ensures var s' := DoAppend(s, k, wrote);
            Ops(Rebuilt(s').activity, a, mail) + Flight(s'.calls, s'.next, a, mail) <= Ops(s'.memory.activity, a, mail)
  {
    var s' := DoAppend(s, k, wrote);
    var r := s.calls[k].stage.rec;
    var p := RecoveredShape(s.journal, Entry(r, wrote));
    assert OnDisk(s)[..|p|] == p;
    OpsOfPrefix(OnDisk(s), |p|, a, mail);
    ReplaySnoc(EMPTY, p, r);
    OpsNoted(Replay(EMPTY, p).activity, r, a, mail);
    FlightUpdate(s.calls, s'.calls, s.next, k, a, mail);
  }

  lemma {:induction false} SameFlight(calls: map<nat, Call>, calls': map<nat, Call>, n: nat, k: nat, a: Id, mail: bool)
    requires k in calls && k in calls' && calls' == calls[k := calls'[k]]
    requires calls'[k].caller == calls[k].caller && calls'[k].op == calls[k].op
    ensures Flight(calls', n, a, mail) == Flight(calls, n, a, mail)
  {
    FlightUpdate(calls, calls', n, k, a, mail);
  }

  lemma {:induction false} EndedFlight(calls: map<nat, Call>, n: nat, k: nat, a: Id, mail: bool)
    ensures Flight(calls - {k}, n, a, mail) <= Flight(calls, n, a, mail)
  {
    FlightUpdate(calls, calls - {k}, n, k, a, mail);
  }

  lemma {:induction false} StartedNotAhead(cfg: Config, s: State, c: Call, a: Id, mail: bool)
    requires CallsInv(cfg, s) && NotAhead(s) && c == Call(AsCaller(cfg, c.caller.id), c.op, Noted) && a != ""
    ensures var s' := DoBegin(cfg, s, c.caller.id, c.op);
            Ops(Rebuilt(s').activity, a, mail) + Flight(s'.calls, s'.next, a, mail) <= Ops(s'.memory.activity, a, mail)
  {
    FlightUpdate(s.calls, DoBegin(cfg, s, c.caller.id, c.op).calls, s.next, s.next, a, mail);
  }

  lemma {:induction false} QuietNotAhead(cfg: Config, s: State, s': State, f: Effect, a: Id, mail: bool)
    requires CallsInv(cfg, s) && NotAhead(s) && Does(cfg, s, s', f) && !f.Appended? && !f.Restarted? && a != ""
    ensures Ops(Rebuilt(s').activity, a, mail) + Flight(s'.calls, s'.next, a, mail) <= Ops(s'.memory.activity, a, mail)
  {
    match f {
      case Commit(k, r) => SameFlight(s.calls, s'.calls, s.next, k, a, mail);
      case Ended(k) => EndedFlight(s.calls, s.next, k, a, mail);
      case Moved(k, stage) => SameFlight(s.calls, s'.calls, s.next, k, a, mail);
      case Started(c) => StartedNotAhead(cfg, s, c, a, mail);
      case _ =>
    }
  }

  lemma {:induction false} NotAheadStep(cfg: Config, s: State, e: Event)
    requires TreeInv(cfg, s) && CallsInv(cfg, s) && CountInv(s) && NotAhead(s)
    ensures NotAhead(Step(cfg, s, e))
  {
    var f := EffectOf(cfg, s, e);
    var s' := Step(cfg, s, e);
    forall a, mail | a != ""
      ensures Ops(Rebuilt(s').activity, a, mail)
              + Flight(s'.calls, s'.next, a, mail) <= Ops(s'.memory.activity, a, mail)
    {
      match f {
        case Appended(k, wrote) => AppendNotAhead(cfg, s, k, wrote, a, mail);
        case Restarted => NothingInFlight(s.next, a, mail);
        case _ => QuietNotAhead(cfg, s, s', f, a, mail);
      }
    }
  }

  /** Replayed counters never exceed the live ones. */
  lemma {:induction false} CountersNeverAhead(cfg: Config, evs: seq<Event>, a: Id, mail: bool)
    requires RolesBound(cfg) && a != ""
    ensures Ops(Rebuilt(Exec(cfg, evs)).activity, a, mail) <= Ops(Exec(cfg, evs).memory.activity, a, mail)
  {
    Reachable(cfg, evs);
  }

  /**
   If no append was harmed since the last start, an actor's counter is rebuilt exactly when
   it has no call in progress and no call that ended without a record (a list, a read, or an error).
   */
  lemma {:induction false} CountersEqualIff(cfg: Config, evs: seq<Event>, a: Id, mail: bool)
    requires RolesBound(cfg) && a != "" && Unharmed(Exec(cfg, evs))
    ensures var s := Exec(cfg, evs);
            Ops(Rebuilt(s).activity, a, mail) == Ops(s.memory.activity, a, mail) <==>
            forall k :: (k in s.calls ==> Counts(s.calls, k, a, mail) == 0)
              && (k in s.wasted ==> Counts(s.wasted, k, a, mail) == 0)
  {
    Reachable(cfg, evs);
    var s := Exec(cfg, evs);
    UnharmedReads(s);
    FlightIsZero(s.calls, s.next, a, mail);
    FlightIsZero(s.wasted, s.next, a, mail);
  }

  lemma {:induction false} FlightIsZero(calls: map<nat, Call>, n: nat, a: Id, mail: bool)
    ensures Flight(calls, n, a, mail) == 0 <==> forall k: nat :: k < n && k in calls ==> Counts(calls, k, a, mail) == 0
    decreases n
  {
    if n > 0 { FlightIsZero(calls, n - 1, a, mail); }
  }

  // ---- Message flow, files and quotas ----------------------------------------------------

  /** Lead to anyone, sub-lead to root, self or its own workers, worker to its parent or itself; ackers may read. */
  lemma {:induction false} MessagesFollowTheTree(cfg: Config, evs: seq<Event>, id: Id)
    requires RolesBound(cfg) && id in Exec(cfg, evs).memory.store.messages
    ensures var s := Exec(cfg, evs);
            var m := s.memory.store.messages[id];
            && MaySend(cfg.lead, s.home, AsCaller(cfg, m.from), m.to)
            && forall a :: a in m.ackedBy ==> MayRead(s.home, AsCaller(cfg, a), m)
  {
    Reachable(cfg, evs);
  }

  /** Step `k` of the run made the file `id` stray, and why. */
  ghost predicate StrayAt(cfg: Config, evs: seq<Event>, k: nat, why: Why, id: Id) {
    k < |evs| && MakesStray(cfg, Exec(cfg, evs[..k]), evs[k], why, id)
  }

  lemma {:induction false} StrayAtSnoc(cfg: Config, evs: seq<Event>, why: Why, id: Id)
    requires evs != []
    ensures var front := evs[..|evs| - 1];
            (exists k :: StrayAt(cfg, evs, k, why, id)) <==>
            (exists k :: StrayAt(cfg, front, k, why, id)) || MakesStray(cfg, Exec(cfg, front), evs[|evs| - 1], why, id)
  {
    var n := |evs| - 1;
    var front := evs[..n];
    forall k: nat | k < n ensures StrayAt(cfg, front, k, why, id) <==> StrayAt(cfg, evs, k, why, id) {
      assert front[..k] == evs[..k];
    }
    assert MakesStray(cfg, Exec(cfg, front), evs[n], why, id) <==> StrayAt(cfg, evs, n, why, id);
  }

  lemma {:induction false} StraysHaveACause(cfg: Config, evs: seq<Event>, why: Why, id: Id)
    ensures id in StraysBy(Exec(cfg, evs).disk, why) <==> exists k :: StrayAt(cfg, evs, k, why, id)
    decreases |evs|
  {
    if evs != [] {
      var n := |evs| - 1;
      StraysHaveACause(cfg, evs[..n], why, id);
      StraysStep(cfg, Exec(cfg, evs[..n]), evs[n], why, id);
      StrayAtSnoc(cfg, evs, why, id);
    }
  }

  lemma {:induction false} StrayIff(cfg: Config, evs: seq<Event>, id: Id)
    ensures id in Strays(Exec(cfg, evs).disk) <==> exists k, why :: StrayAt(cfg, evs, k, why, id)
  {
    var d := Exec(cfg, evs).disk;
    StraysHaveACause(cfg, evs, BadWrite, id);
    StraysHaveACause(cfg, evs, BadUnlink, id);
    StraysHaveACause(cfg, evs, Crash, id);
    StraysHaveACause(cfg, evs, LostRecord, id);
    if id in Strays(d) {
      var why := if id in d.failed then BadWrite else if id in d.kept then BadUnlink
                 else if id in d.interrupted then Crash else LostRecord;
      assert id in StraysBy(d, why);
      var k: nat :| StrayAt(cfg, evs, k, why, id);
    }
    if k: nat, why :| StrayAt(cfg, evs, k, why, id) {
      StraysHaveACause(cfg, evs, why, id);
      assert id in StraysBy(d, why);
    }
  }

  /**
   In every run: no owner is over the limit, every artifact has its file, and the files without an entry are
   exactly those of puts in flight and those that some step of the run made stray.
   */
  lemma {:induction false} FilesAndQuotas(cfg: Config, evs: seq<Event>)
    requires RolesBound(cfg)
    ensures var s := Exec(cfg, evs);
            && (forall owner :: |OwnedBy(s.memory.store.artifacts, owner)| <= cfg.perActor)
            && (forall id :: id in s.memory.store.artifacts ==> FileHolds(cfg, s, s.memory.store.artifacts[id]))
            && (forall id :: id in s.disk.files && id !in s.memory.store.artifacts <==>
                  id in InFlight(s.calls) || exists k, why :: StrayAt(cfg, evs, k, why, id))
  {
    Reachable(cfg, evs);
    var s := Exec(cfg, evs);
    forall id
      ensures id in s.disk.files && id !in s.memory.store.artifacts <==>
              id in InFlight(s.calls) || exists k, why :: StrayAt(cfg, evs, k, why, id)
    {
      StrayIff(cfg, evs, id);
      if id in InFlight(s.calls) { InFlightHasFile(cfg, s, id); }
    }
  }

  // ---- Artifacts that a restart does not find ---------------------------------------------

  lemma {:induction false} NotOwed(calls: map<nat, Call>, n: nat, r: Record, id: Id)
    requires Puts(r, id) && id !in OwedPuts(calls)
    ensures Owed(calls, n, r) == 0
    decreases n
  {
    if n > 0 {
      NotOwed(calls, n - 1, r, id);
      assert n - 1 in calls ==> id !in PutOf(calls[n - 1]);
    }
  }

  /** A live artifact was there at the start, or its put record was appended since, or is still owed. */
  lemma {:induction false} LiveIsAppendedOrOwed(s: State, id: Id)
    requires EpochInv(s) && id in s.memory.store.artifacts && id !in OwedPuts(s.calls)
    ensures id in s.epoch.base.store.artifacts || exists i :: 0 <= i < |Since(s)| && Puts(Since(s)[i], id)
  {
    ReplayKeys(s.epoch.base, s.epoch.log);
    if id !in s.epoch.base.store.artifacts {
      var i :| 0 <= i < |s.epoch.log| && Puts(s.epoch.log[i], id);
      var r := s.epoch.log[i];
      NotOwed(s.calls, s.next, r, id);
      assert r in multiset(s.epoch.log);
      assert r in multiset(Since(s));
    }
  }

  /**
   If no append was harmed since the last start, replay misses exactly the artifacts whose put has not yet
   appended its record.
   */
  lemma {:induction false} UnreadIffOwed(cfg: Config, evs: seq<Event>, id: Id)
    requires RolesBound(cfg) && Unharmed(Exec(cfg, evs))
    ensures var s := Exec(cfg, evs);
            && (Unread(s, id) <==> id in OwedPuts(s.calls))
            && (Unread(s, id) <==>
                  exists k :: k in s.calls && s.calls[k].stage.Recorded? && Puts(s.calls[k].stage.rec, id))
  {
    Reachable(cfg, evs);
    var s := Exec(cfg, evs);
    if id in OwedPuts(s.calls) {
      OwedIsLive(cfg, s, id);
      OwedPutsAreUnread(s);
      var k :| k in s.calls && id in PutOf(s.calls[k]);
      assert Puts(s.calls[k].stage.rec, id);
    } else if Unread(s, id) {
      LiveIsAppendedOrOwed(s, id);
      UnharmedReads(s);
      ReplayKeys(s.epoch.base, Since(s));
    }
    if k :| k in s.calls && s.calls[k].stage.Recorded? && Puts(s.calls[k].stage.rec, id) {
      assert id in PutOf(s.calls[k]);
    }
  }

  ghost predicate Appended(s: State, id: Id) {
    exists i :: 0 <= i < |s.journal| && Puts(s.journal[i].rec, id)
  }

  lemma {:induction false} LiveWasAppended(s: State, id: Id)
    requires EpochInv(s) && id in s.memory.store.artifacts && id !in OwedPuts(s.calls)
    ensures Appended(s, id)
  {
    LiveIsAppendedOrOwed(s, id);
    var from := s.epoch.from;
    if id in s.epoch.base.store.artifacts {
      var boot := s.journal[..from];
      ReplayKeys(EMPTY, Recovered(boot));
      var i :| 0 <= i < |Recovered(boot)| && Puts(Recovered(boot)[i], id);
      var j := RecoveredWasAppended(boot, i);
      assert s.journal[j] == boot[j];
    } else {
      var i :| 0 <= i < |Since(s)| && Puts(Since(s)[i], id);
      RecordsAt(s.journal[from..], i);
      assert s.journal[from + i] == s.journal[from..][i];
    }
  }

  /**
   In every run, harmed appends or not: replay misses a live artifact exactly when its put still owes its record,
   or the record was appended and no record that puts the artifact can be read any more.
   */
  lemma {:induction false} UnreadIffNoRecordSurvives(cfg: Config, evs: seq<Event>, id: Id)
    requires RolesBound(cfg) && id in Exec(cfg, evs).memory.store.artifacts
    ensures var s := Exec(cfg, evs);
            Unread(s, id) <==>
            || id in OwedPuts(s.calls)
            || (Appended(s, id) && forall i :: 0 <= i < |OnDisk(s)| ==> !Puts(OnDisk(s)[i], id))
  {
    Reachable(cfg, evs);
    var s := Exec(cfg, evs);
    ReplayKeys(EMPTY, OnDisk(s));
    OwedPutsAreUnread(s);
    if id !in OwedPuts(s.calls) { LiveWasAppended(s, id); }
  }

  /**
   In every run: an artifact lost at a restart that met no step of its put had its record appended, and some
   append since the start before was harmed, or that start found a journal already unterminated or unreadable.
   */
  lemma {:induction false} LostWasHarmed(cfg: Config, evs: seq<Event>, k: nat, id: Id)
    requires RolesBound(cfg) && StrayAt(cfg, evs, k, LostRecord, id)
    ensures var s := Exec(cfg, evs[..k]);
            Appended(s, id) && !Unharmed(s)
  {
    Reachable(cfg, evs[..k]);
    LiveWasAppended(Exec(cfg, evs[..k]), id);
    if Unharmed(Exec(cfg, evs[..k])) { UnreadIffOwed(cfg, evs[..k], id); }
  }

  lemma {:induction false} RecordsAt<R>(es: seq<Entry<R>>, i: nat)
    ensures |Records(es)| == |es| && (i < |es| ==> Records(es)[i] == es[i].rec)
    decreases |es|
  {
    if es != [] { RecordsAt(es[1..], if i == 0 then 0 else i - 1); }
  }

  lemma {:induction false} RecoveredWasAppended<R>(es: seq<Entry<R>>, i: nat) returns (j: nat)
    requires i < |Recovered(es)|
    ensures j < |es| && es[j].rec == Recovered(es)[i]
  {
    TearCostsAtMostTwo(es);
    var k := SubsequenceAt(Recovered(es), Landed(es), i);
    j := LandedAt(es, k);
  }

  lemma {:induction false} SubsequenceAt<T>(a: seq<T>, b: seq<T>, i: nat) returns (j: nat)
    requires Subsequence(a, b) && i < |a|
    ensures j < |b| && b[j] == a[i]
    decreases |b|
  {
    if a[0] == b[0] && Subsequence(a[1..], b[1..]) {
      if i == 0 { return 0; }
      j := SubsequenceAt(a[1..], b[1..], i - 1);
    } else {
      j := SubsequenceAt(a, b[1..], i);
    }
    j := j + 1;
  }

  lemma {:induction false} LandedAt<R>(es: seq<Entry<R>>, i: nat) returns (j: nat)
    requires i < |Landed(es)|
    ensures j < |es| && es[j].rec == Landed(es)[i]
    decreases |es|
  {
    var first := es[0].wrote.Full? || es[0].wrote.NoNewline?;
    if first && i == 0 { return 0; }
    j := LandedAt(es[1..], if first then i - 1 else i);
    j := j + 1;
  }

  // ---- Grants -----------------------------------------------------------------------------

  /** Step `k` of the run is a grant of artifact `a` to `w` by `g`, who can read `a` at that step. */
  ghost predicate GrantsAt(cfg: Config, evs: seq<Event>, k: nat, g: Caller, a: Id, w: Id) {
    && k < |evs| && evs[k].CommitGrant?
    && var s := Exec(cfg, evs[..k]);
       && Enabled(cfg, s, evs[k])
       && s.calls[evs[k].call].caller == g && s.calls[evs[k].call].op.artifactId == a
       && s.calls[evs[k].call].stage.to == w
       && a in s.memory.store.artifacts && CanReadArtifact(s.tree, g, s.memory.store.artifacts[a])
  }

  ghost predicate FromAbove(cfg: Config, home: map<Id, Id>, g: Caller, w: Id) {
    g == Caller(cfg.lead, Lead) || (g.role == Sublead && w in home && home[w] == g.id)
  }

  /**
   A worker that can read an artifact it does not own was granted it, at some step of the run,
   by the root lead or by its own parent sub-lead, who could read the artifact at that step.
   No chain of grants between workers ends at it.
   */
  lemma {:induction false} WorkerReadsOnlyFromAbove(cfg: Config, evs: seq<Event>, w: Id, a: Id)
    requires RolesBound(cfg) && cfg.roleOf(w) == Worker
    requires var s := Exec(cfg, evs);
             a in s.memory.store.artifacts && s.memory.store.artifacts[a].owner != w
             && CanReadArtifact(s.tree, AsCaller(cfg, w), s.memory.store.artifacts[a])
    ensures exists k, g :: GrantsAt(cfg, evs, k, g, a, w) && FromAbove(cfg, Exec(cfg, evs).home, g, w)
  {
    var k, g := GrantSource(cfg, evs, w, a);
  }

  lemma {:induction false} GrantSource(cfg: Config, evs: seq<Event>, w: Id, a: Id) returns (k: nat, g: Caller)
    requires RolesBound(cfg) && cfg.roleOf(w) == Worker
    requires GivenTo(Exec(cfg, evs).memory.store, a, w)
    ensures GrantsAt(cfg, evs, k, g, a, w) && FromAbove(cfg, Exec(cfg, evs).home, g, w)
    decreases |evs|
  {
    assert evs != [];
    var front := evs[..|evs| - 1];
    if GivenTo(Exec(cfg, front).memory.store, a, w) {
      k, g := GrantSource(cfg, front, w, a);
      EarlierGrant(cfg, evs, k, g, a, w);
    } else {
      k := |evs| - 1;
      g := LastGrant(cfg, evs, a, w);
    }
  }

  /** `w` has been granted an artifact of someone else. */
  predicate GivenTo(st: Store, a: Id, w: Id) {
    a in st.artifacts && st.artifacts[a].owner != w && w in st.artifacts[a].grants
  }

  lemma {:induction false} EarlierGrant(cfg: Config, evs: seq<Event>, k: nat, g: Caller, a: Id, w: Id)
    requires RolesBound(cfg) && evs != []
    requires GrantsAt(cfg, evs[..|evs| - 1], k, g, a, w) && FromAbove(cfg, Exec(cfg, evs[..|evs| - 1]).home, g, w)
    ensures GrantsAt(cfg, evs, k, g, a, w) && FromAbove(cfg, Exec(cfg, evs).home, g, w)
  {
    var front := evs[..|evs| - 1];
    assert front[..k] == evs[..k];
    Reachable(cfg, front);
    TreeInvStep(cfg, Exec(cfg, front), evs[|evs| - 1]);
  }

  lemma {:induction false} LastGrant(cfg: Config, evs: seq<Event>, a: Id, w: Id) returns (g: Caller)
    requires RolesBound(cfg) && cfg.roleOf(w) == Worker && evs != []
    requires !GivenTo(Exec(cfg, evs[..|evs| - 1]).memory.store, a, w) && GivenTo(Exec(cfg, evs).memory.store, a, w)
    ensures GrantsAt(cfg, evs, |evs| - 1, g, a, w) && FromAbove(cfg, Exec(cfg, evs).home, g, w)
  {
    var front, e := evs[..|evs| - 1], evs[|evs| - 1];
    var s := Exec(cfg, front);
    Reachable(cfg, front);
    GrantStep(cfg, s, e, a, w);
    g := s.calls[e.call].caller;
    TreeInvStep(cfg, s, e);
  }

  /** One step: a worker's new grant is made by this step, from above; old ones keep their artifact's owner. */
  lemma {:induction false} GrantStep(cfg: Config, s: State, e: Event, a: Id, w: Id)
    requires RolesBound(cfg) && cfg.roleOf(w) == Worker
    requires TreeInv(cfg, s) && CallsInv(cfg, s) && JournalInv(s) && ParentsFit(cfg, s)
    requires GivenTo(Step(cfg, s, e).memory.store, a, w)
    ensures var st := s.memory.store;
            || GivenTo(st, a, w)
            || (&& e.CommitGrant? && Enabled(cfg, s, e) && a in st.artifacts
                && s.calls[e.call].op.artifactId == a && s.calls[e.call].stage.to == w
                && CanReadArtifact(s.tree, s.calls[e.call].caller, st.artifacts[a])
                && FromAbove(cfg, s.home, s.calls[e.call].caller, w))
  {
    if !Enabled(cfg, s, e) { return; }
    match e {
      case CommitPut(k, now) => PutGrantsNothing(cfg, s, k, now, a, w);
      case CommitGrant(k) => GrantGoesDown(cfg, s, k, a, w);
      case CommitSend(k, id, now) =>
      case CommitAck(k) => AckKeepsArtifacts(s, k);
      case Restart => assert Below(Rebuilt(s).store, s.memory.store);
      case _ => StoreKept(cfg, s, e);
    }
  }

  predicate WritesMemory(e: Event) { e.CommitSend? || e.CommitAck? || e.CommitPut? || e.CommitGrant? }

  lemma {:induction false} StoreKept(cfg: Config, s: State, e: Event)
    requires Enabled(cfg, s, e) && !WritesMemory(e) && !e.Restart?
    ensures Step(cfg, s, e).memory.store == s.memory.store
  {
    match e {
      case Resolve(k) => assert DoResolve(cfg, s, k).memory == s.memory;
      case WriteFile(k, id, res) => assert DoWriteFile(cfg, s, k, id, res).memory == s.memory;
      case _ =>
    }
  }

  lemma {:induction false} AckKeepsArtifacts(s: State, k: nat)
    requires Awaits(s, k, true) && s.calls[k].op.AckOp?
    ensures DoAck(s, k).memory.store.artifacts == s.memory.store.artifacts
  {
  }

  lemma {:induction false} PutGrantsNothing(cfg: Config, s: State, k: nat, now: int, a: Id, w: Id)
    requires CallsInv(cfg, s) && Enabled(cfg, s, CommitPut(k, now))
    requires GivenTo(DoPut(cfg, s, k, now).memory.store, a, w)
    ensures GivenTo(s.memory.store, a, w)
  {
  }

  lemma {:induction false} GrantGoesDown(cfg: Config, s: State, k: nat, a: Id, w: Id)
    requires RolesBound(cfg) && cfg.roleOf(w) == Worker && CallsInv(cfg, s) && ParentsFit(cfg, s)
    requires Enabled(cfg, s, CommitGrant(k))
    requires GivenTo(DoGrant(s, k).memory.store, a, w)
    ensures var st := s.memory.store;
            && a in st.artifacts && st.artifacts[a].owner != w
            && (|| w in st.artifacts[a].grants
                || (&& s.calls[k].op.artifactId == a && s.calls[k].stage.to == w
                    && CanReadArtifact(s.tree, s.calls[k].caller, st.artifacts[a])
                    && FromAbove(cfg, s.home, s.calls[k].caller, w)))
  {
    var c := s.calls[k];
    assert StageFits(cfg, s, c);
    if w !in s.memory.store.artifacts[a].grants {
      assert c.stage.to == w && c.op.artifactId == a;
      OnlyFromAbove(cfg, s.home, s.tree, c.caller, s.memory.store.artifacts[a], w);
    }
  }

  /** Whoever is not above a worker cannot give it anything it could not already read. */
  lemma {:induction false} OnlyFromAbove(cfg: Config, home: map<Id, Id>, t: Tree, g: Caller, art: Artifact, w: Id)
    requires RolesBound(cfg) && cfg.roleOf(w) == Worker
    requires forall x :: x in home ==> cfg.roleOf(home[x]) != Worker
    requires g == AsCaller(cfg, g.id) && MaySend(cfg.lead, home, g, w) && CanReadArtifact(t, g, art)
    ensures FromAbove(cfg, home, g, w) || art.owner == w || w in art.grants
  {
  }
}
