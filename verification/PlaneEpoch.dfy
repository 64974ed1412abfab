/** Memory writes since the last start against journal entries since the last start. */
module PlaneEpoch {
  import opened Topology
  import opened Journal
  import opened Framing
  import opened Plane
  import opened PlaneCalls

  // ---- Sums over the calls in progress ------------------------------------------------

  /** Whether call `k` still owes the journal a copy of `r`. */
  function Owes(calls: map<nat, Call>, k: nat, r: Record): nat {
    if k in calls && calls[k].stage == Recorded(r) then 1 else 0
  }

  function Owed(calls: map<nat, Call>, n: nat, r: Record): nat {
    if n == 0 then 0 else Owed(calls, n - 1, r) + Owes(calls, n - 1, r)
  }

  /** Whether call `k` is a mailbox (or artifact) operation counted for actor `a`. */
  function Counts(calls: map<nat, Call>, k: nat, a: Id, mail: bool): nat {
    if k in calls && calls[k].caller.id == a && OfMailbox(calls[k].op) == mail then 1 else 0
  }

  function Flight(calls: map<nat, Call>, n: nat, a: Id, mail: bool): nat {
    if n == 0 then 0 else Flight(calls, n - 1, a, mail) + Counts(calls, n - 1, a, mail)
  }

  lemma {:induction false} OwedUpdate(calls: map<nat, Call>, calls': map<nat, Call>, n: nat, k: nat, r: Record)
    requires forall j :: j != k ==> Owes(calls', j, r) == Owes(calls, j, r)
    ensures Owed(calls', n, r) + (if k < n then Owes(calls, k, r) else 0)
         == Owed(calls, n, r) + (if k < n then Owes(calls', k, r) else 0)
    decreases n
  {
    if n > 0 { OwedUpdate(calls, calls', n - 1, k, r); }
  }

  lemma {:induction false} FlightUpdate(calls: map<nat, Call>, calls': map<nat, Call>, n: nat, k: nat, a: Id,
                                        mail: bool)
    requires forall j :: j != k ==> Counts(calls', j, a, mail) == Counts(calls, j, a, mail)
    ensures Flight(calls', n, a, mail) + (if k < n then Counts(calls, k, a, mail) else 0)
         == Flight(calls, n, a, mail) + (if k < n then Counts(calls', k, a, mail) else 0)
    decreases n
  {
    if n > 0 { FlightUpdate(calls, calls', n - 1, k, a, mail); }
  }

  lemma {:induction false} NothingOwed(calls: map<nat, Call>, n: nat, r: Record)
    requires forall k :: k in calls ==> !calls[k].stage.Recorded?
    ensures Owed(calls, n, r) == 0
    decreases n
  {
    if n > 0 { NothingOwed(calls, n - 1, r); }
  }

  lemma {:induction false} NothingInFlight(n: nat, a: Id, mail: bool)
    ensures Flight(map[], n, a, mail) == 0
    decreases n
  {
    if n > 0 { NothingInFlight(n - 1, a, mail); }
  }

  // ---- The store since the last start --------------------------------------------------

  /** The records appended since the last start, whatever became of their bytes. */
  function Since(s: State): seq<Record>
    requires s.epoch.from <= |s.journal|
  {
    Records(s.journal[s.epoch.from..])
  }

  ghost predicate EpochInv(s: State) {
    var ep := s.epoch;
    && ep.from <= |s.journal|
    && ep.base == Replay(EMPTY, Recovered(s.journal[..ep.from]))
    && s.memory.store == Replay(ep.base, ep.log).store
    && NewOver(ep.base, ep.log) && OnTime(ep.base, ep.log)
    && Balanced(s)
  }

  /** Every record written to memory since the start was appended or is still owed. */
  ghost predicate Balanced(s: State)
    requires s.epoch.from <= |s.journal|
  {
    forall r :: multiset(s.epoch.log)[r] == multiset(Since(s))[r] + Owed(s.calls, s.next, r)
  }

  lemma {:induction false} RecordsSnoc<R>(es: seq<Entry<R>>, e: Entry<R>)
    ensures Records(es + [e]) == Records(es) + [e.rec]
    decreases |es|
  {
    if es == [] {
      assert es + [e] == [e] && [e][1..] == [];
    } else {
      assert (es + [e])[1..] == es[1..] + [e];
      RecordsSnoc(es[1..], e);
    }
  }

  /** One more memory write, of a record with a new id or an existing target. */
  lemma {:induction false} LogGrows(m: Memory, log: seq<Record>, r: Record)
    requires NewOver(m, log) && OnTime(m, log) && Plain(r)
    requires Fresh(Replay(m, log).store, r)
    requires r.AckRec? ==> r.messageId in Replay(m, log).store.messages
    requires r.GrantRec? ==> r.artifactId in Replay(m, log).store.artifacts
    ensures NewOver(m, log + [r]) && OnTime(m, log + [r])
    ensures Replay(m, log + [r]).store == StoreAfter(Replay(m, log).store, r)
  {
    var log', n := log + [r], |log|;
    ReplaySnoc(m, log, r);
    ReplayCores(m, log);
    assert log'[..n] == log;
    assert NewOver(m, log') by {
      forall i, j | 0 <= i < j < |log'| ensures !SameNew(log'[i], log'[j]) {
        assert log'[i] == log[i];
        if j < n { assert log'[j] == log[j]; }
      }
    }
    KnownInFront(m, log');
    forall j | 0 <= j < |log'| && Acting(log'[j]) ensures Effective(m, log', log'[j]) {
      if j < n {
        assert log'[j] == log[j];
        var i :| 0 <= i < |log| && SameAct(log[i], log[j]) && KnownBefore(m, log, i);
        KnownPrefix(m, log', i);
        assert SameAct(log'[i], log'[j]) && KnownBefore(m, log', i);
      } else {
        assert SameAct(log'[n], r) && KnownBefore(m, log', n);
      }
    }
  }

  lemma {:induction false} CommitKeepsEpoch(cfg: Config, s: State, k: nat, r: Record, s': State)
    requires CallsInv(cfg, s) && EpochInv(s) && Commits(cfg, s, s', k, r)
    ensures EpochInv(s')
  {
    LogGrows(s.epoch.base, s.epoch.log, r);
    assert Since(s') == Since(s);
    CommitBalances(cfg, s, k, r, s');
  }

  lemma {:induction false} CommitBalances(cfg: Config, s: State, k: nat, r: Record, s': State)
    requires CallsInv(cfg, s) && Commits(cfg, s, s', k, r)
    requires s.epoch.from <= |s.journal| && Balanced(s)
    ensures Balanced(s')
  {
    assert k < s.next && s'.calls == s.calls[k := s'.calls[k]] && s'.calls[k].stage == Recorded(r);
    assert Since(s') == Since(s) && s'.epoch.log == s.epoch.log + [r];
    forall x ensures multiset(s'.epoch.log)[x] == multiset(Since(s'))[x] + Owed(s'.calls, s'.next, x) {
      OwedUpdate(s.calls, s'.calls, s.next, k, x);
    }
  }

  ghost predicate Quiet(s: State, s': State) {
    && s'.memory.store == s.memory.store && s'.epoch == s.epoch && s'.journal == s.journal
    && s.next <= s'.next <= s.next + 1
    && (forall j, r :: Owes(s'.calls, j, r) == Owes(s.calls, j, r))
    && (forall r :: Owes(s.calls, s.next, r) == 0)
  }

  lemma {:induction false} QuietBalances(s: State, s': State)
    requires s.epoch.from <= |s.journal| && Balanced(s) && Quiet(s, s')
    ensures Balanced(s')
  {
    forall x ensures Owed(s'.calls, s'.next, x) == Owed(s.calls, s.next, x) {
      OwedUpdate(s.calls, s'.calls, s.next, 0, x);
    }
    assert Since(s') == Since(s);
  }

  lemma {:induction false} QuietKeepsEpoch(s: State, s': State)
    requires EpochInv(s) && Quiet(s, s')
    ensures EpochInv(s')
  {
    QuietBalances(s, s');
  }

  lemma {:induction false} EffectIsQuiet(cfg: Config, s: State, s': State, f: Effect)
    requires CallsInv(cfg, s) && Does(cfg, s, s', f) && (f.Ended? || f.Moved? || f.Started? || f.Grown? || f.Skipped?)
    ensures Quiet(s, s')
  {
    assert s.next !in s.calls;
  }

  lemma {:induction false} AppendKeepsEpoch(cfg: Config, s: State, k: nat, wrote: Wrote)
    requires CallsInv(cfg, s) && EpochInv(s) && k in s.calls && s.calls[k].stage.Recorded?
    ensures EpochInv(DoAppend(s, k, wrote))
  {
    var s' := DoAppend(s, k, wrote);
    assert s'.journal[..s.epoch.from] == s.journal[..s.epoch.from];
    AppendBalances(cfg, s, k, wrote);
  }

  lemma {:induction false} AppendBalances(cfg: Config, s: State, k: nat, wrote: Wrote)
    requires CallsInv(cfg, s) && k in s.calls && s.calls[k].stage.Recorded?
    requires s.epoch.from <= |s.journal| && Balanced(s)
    ensures Balanced(DoAppend(s, k, wrote))
  {
    var s' := DoAppend(s, k, wrote);
    var e := Entry(s.calls[k].stage.rec, wrote);
    assert s'.journal[s.epoch.from..] == s.journal[s.epoch.from..] + [e];
    RecordsSnoc(s.journal[s.epoch.from..], e);
    assert k < s.next;
    forall x ensures multiset(s'.epoch.log)[x] == multiset(Since(s'))[x] + Owed(s'.calls, s'.next, x) {
      OwedUpdate(s.calls, s'.calls, s.next, k, x);
    }
  }

  lemma {:induction false} RestartKeepsEpoch(cfg: Config, s: State)
    requires EpochInv(s)
    ensures EpochInv(DoRestart(cfg, s))
  {
    var s' := DoRestart(cfg, s);
    assert s'.journal[..|s.journal|] == s.journal;
    assert Since(s') == [];
    forall x ensures Owed(map[], s.next, x) == 0 { NothingOwed(map[], s.next, x); }
  }

  lemma {:induction false} EpochInvStep(cfg: Config, s: State, e: Event)
    requires TreeInv(cfg, s) && CallsInv(cfg, s) && EpochInv(s)
    ensures EpochInv(Step(cfg, s, e))
  {
    var f := EffectOf(cfg, s, e);
    var s' := Step(cfg, s, e);
    match f {
      case Commit(k, r) => CommitKeepsEpoch(cfg, s, k, r, s');
      case Appended(k, wrote) => AppendKeepsEpoch(cfg, s, k, wrote);
      case Restarted => RestartKeepsEpoch(cfg, s);
      case _ =>
        EffectIsQuiet(cfg, s, s', f);
        QuietKeepsEpoch(s, s');
    }
  }

  // ---- Activity counters ------------------------------------------------------------------

  function Ops(act: Activity, a: Id, mail: bool): nat {
    if mail then TallyOf(act, a).messageOps else TallyOf(act, a).artifactOps
  }

  /** For every actor: the live counter is what was appended since the start on top of the
      counters at the start, plus the calls in progress and the calls that left no record. */
  ghost predicate CountInv(s: State) {
    && s.epoch.from <= |s.journal|
    && (forall k :: k in s.calls && s.calls[k].stage.Recorded? ==>
          Author(s.calls[k].stage.rec) == s.calls[k].caller.id
            && OnMailbox(s.calls[k].stage.rec) == OfMailbox(s.calls[k].op))
    && forall a, mail :: a != "" ==>
         Ops(s.memory.activity, a, mail)
         == Ops(Replay(s.epoch.base, Since(s)).activity, a, mail) + Flight(s.calls, s.next, a, mail)
           + Flight(s.wasted, s.next, a, mail)
  }

  lemma {:induction false} OpsNoted(act: Activity, r: Record, a: Id, mail: bool)
    ensures Ops(NotedAfter(act, r), a, mail)
         == Ops(act, a, mail) + (if a != "" && Author(r) == a && OnMailbox(r) == mail then 1 else 0)
  {
  }

  lemma {:induction false} CountInvStep(cfg: Config, s: State, e: Event)
    requires TreeInv(cfg, s) && CallsInv(cfg, s) && CountInv(s)
    ensures CountInv(Step(cfg, s, e))
  {
    var f := EffectOf(cfg, s, e);
    var s' := Step(cfg, s, e);
    match f {
      case Commit(k, r) => CountMove(cfg, s, s', k);
      case Ended(k) => CountEnd(cfg, s, s', k);
      case Moved(k, stage) => CountMove(cfg, s, s', k);
      case Started(c) => CountStart(cfg, s, c);
      case Appended(k, wrote) => CountAppend(cfg, s, k, wrote);
      case Grown(g) =>
      case Restarted => CountRestart(cfg, s);
      case Skipped =>
    }
  }

  lemma {:induction false} CountMove(cfg: Config, s: State, s': State, k: nat)
    requires CallsInv(cfg, s) && CountInv(s) && k in s.calls && k in s'.calls
    requires s'.memory.activity == s.memory.activity && s'.epoch.base == s.epoch.base && s'.epoch.from == s.epoch.from
    requires s'.journal == s.journal && s'.next == s.next && s'.wasted == s.wasted
    requires s'.calls == s.calls[k := s'.calls[k]] && s'.calls[k].caller == s.calls[k].caller
             && s'.calls[k].op == s.calls[k].op
    requires s'.calls[k].stage.Recorded? ==>
      Author(s'.calls[k].stage.rec) == s.calls[k].caller.id
        && OnMailbox(s'.calls[k].stage.rec) == OfMailbox(s.calls[k].op)
    ensures CountInv(s')
  {
    forall a, mail | a != "" ensures Flight(s'.calls, s.next, a, mail) == Flight(s.calls, s.next, a, mail) {
      FlightUpdate(s.calls, s'.calls, s.next, k, a, mail);
    }
  }

  lemma {:induction false} FlightMoved(calls: map<nat, Call>, wasted: map<nat, Call>, n: nat, k: nat, a: Id, mail: bool)
    requires k in calls && k !in wasted
    ensures Flight(calls - {k}, n, a, mail) + Flight(wasted[k := calls[k]], n, a, mail)
         == Flight(calls, n, a, mail) + Flight(wasted, n, a, mail)
  {
    FlightUpdate(calls, calls - {k}, n, k, a, mail);
    FlightUpdate(wasted, wasted[k := calls[k]], n, k, a, mail);
  }

  lemma {:induction false} CountEnd(cfg: Config, s: State, s': State, k: nat)
    requires CallsInv(cfg, s) && CountInv(s) && Ends(cfg, s, s', k)
    ensures CountInv(s')
  {
    forall a, mail | a != ""
      ensures Flight(s'.calls, s.next, a, mail) + Flight(s'.wasted, s.next, a, mail)
           == Flight(s.calls, s.next, a, mail) + Flight(s.wasted, s.next, a, mail)
    {
      FlightMoved(s.calls, s.wasted, s.next, k, a, mail);
    }
  }

  lemma {:induction false} CountStart(cfg: Config, s: State, c: Call)
    requires CallsInv(cfg, s) && CountInv(s) && c == Call(AsCaller(cfg, c.caller.id), c.op, Noted)
    ensures CountInv(DoBegin(cfg, s, c.caller.id, c.op))
  {
    var s' := DoBegin(cfg, s, c.caller.id, c.op);
    forall a, mail | a != ""
      ensures Flight(s'.calls, s'.next, a, mail) + Flight(s'.wasted, s'.next, a, mail)
           == Flight(s.calls, s.next, a, mail) + Flight(s.wasted, s.next, a, mail)
             + (if c.caller.id == a && OfMailbox(c.op) == mail then 1 else 0)
    {
      FlightUpdate(s.calls, s'.calls, s.next, s.next, a, mail);
    }
  }

  lemma {:induction false} CountAppend(cfg: Config, s: State, k: nat, wrote: Wrote)
    requires CallsInv(cfg, s) && CountInv(s) && k in s.calls && s.calls[k].stage.Recorded?
    ensures CountInv(DoAppend(s, k, wrote))
  {
    var s' := DoAppend(s, k, wrote);
    var r := s.calls[k].stage.rec;
    var e := Entry(r, wrote);
    assert s'.journal[s.epoch.from..] == s.journal[s.epoch.from..] + [e];
    RecordsSnoc(s.journal[s.epoch.from..], e);
    ReplaySnoc(s.epoch.base, Since(s), r);
    forall a, mail | a != ""
      ensures Ops(Replay(s.epoch.base, Since(s')).activity, a, mail) + Flight(s'.calls, s.next, a, mail)
           == Ops(Replay(s.epoch.base, Since(s)).activity, a, mail) + Flight(s.calls, s.next, a, mail)
    {
      OpsNoted(Replay(s.epoch.base, Since(s)).activity, r, a, mail);
      FlightUpdate(s.calls, s'.calls, s.next, k, a, mail);
    }
  }

  lemma {:induction false} CountRestart(cfg: Config, s: State)
    requires CountInv(s)
    ensures CountInv(DoRestart(cfg, s))
  {
    var s' := DoRestart(cfg, s);
    assert Since(s') == [];
    forall a, mail ensures Flight(map[], s.next, a, mail) == 0 {
      NothingInFlight(s.next, a, mail);
    }
  }
}
