/** What every step keeps about the journal, and what replay therefore rebuilds. */
module PlaneJournal {
  import opened Topology
  import opened Journal
  import opened Framing
  import opened Plane
  import opened PlaneCalls

  function OnDisk(s: State): seq<Record> { Recovered(s.journal) }

  /** The memory a resumed process would have. */
  function Rebuilt(s: State): Memory { Replay(EMPTY, OnDisk(s)) }

  // ---- Replay never runs ahead of memory ---------------------------------------------

  /** The ids of a journal's records are apart from each other, issued, and not held by any call. */
  ghost predicate IdsApart(s: State, rs: seq<Record>) {
    && (forall i, j :: 0 <= i < j < |rs| ==> NewIds(rs[i]) !! NewIds(rs[j]))
    && (forall i :: 0 <= i < |rs| ==> NewIds(rs[i]) <= s.used)
    && (forall i, k :: 0 <= i < |rs| && k in s.calls ==> NewIds(rs[i]) !! Holds(s.calls[k]))
  }

  ghost predicate JournalInv(s: State) {
    Below(Rebuilt(s).store, s.memory.store) && IdsApart(s, OnDisk(s))
  }

  lemma {:induction false} ApartIsDistinct(rs: seq<Record>)
    requires forall i, j :: 0 <= i < j < |rs| ==> NewIds(rs[i]) !! NewIds(rs[j])
    ensures Distinct(rs)
  {
    forall i, j | 0 <= i < j < |rs| ensures !SameNew(rs[i], rs[j]) {
      assert NewIds(rs[i]) !! NewIds(rs[j]);
    }
  }

  /** What replay reads after an append: a prefix of what it read, with or without the new record. */
  ghost predicate ReadsOn(s: State, p: seq<Record>, r: Record, wrote: Wrote) {
    && p <= OnDisk(s)
    && var rs' := Recovered(s.journal + [Entry(r, wrote)]);
       rs' == p || rs' == p + [r]
  }

  lemma {:induction false} AppendBelow(s: State, p: seq<Record>, r: Record, wrote: Wrote)
    requires ReadsOn(s, p, r, wrote) && Distinct(OnDisk(s)) && Below(Rebuilt(s).store, s.memory.store)
             && Absorbed(s.memory.store, r)
    ensures Below(Replay(EMPTY, Recovered(s.journal + [Entry(r, wrote)])).store, s.memory.store)
  {
    PrefixBelow(OnDisk(s), |p|);
    assert OnDisk(s)[..|p|] == p;
    BelowTrans(Replay(EMPTY, p).store, Rebuilt(s).store, s.memory.store);
    BelowApply(Replay(EMPTY, p).store, s.memory.store, r);
    ReplaySnoc(EMPTY, p, r);
  }

  /** A record that a call owes moves to the journal: its ids stay apart. */
  lemma {:induction false} AppendApart(cfg: Config, s: State, k: nat, wrote: Wrote, p: seq<Record>)
    requires CallsInv(cfg, s) && IdsApart(s, OnDisk(s)) && k in s.calls && s.calls[k].stage.Recorded?
    requires p <= OnDisk(s)
    ensures IdsApart(DoAppend(s, k, wrote), p) && IdsApart(DoAppend(s, k, wrote), p + [s.calls[k].stage.rec])
  {
    var rs, r := OnDisk(s), s.calls[k].stage.rec;
    assert StageFits(cfg, s, s.calls[k]);
    assert Holds(s.calls[k]) == NewIds(r);
    assert forall i :: 0 <= i < |p| ==> p[i] == rs[i];
  }

  lemma {:induction false} AppendKeepsJournal(cfg: Config, s: State, k: nat, wrote: Wrote)
    requires CallsInv(cfg, s) && JournalInv(s) && k in s.calls && s.calls[k].stage.Recorded?
    ensures JournalInv(DoAppend(s, k, wrote))
  {
    var s' := DoAppend(s, k, wrote);
    var rs, r := OnDisk(s), s.calls[k].stage.rec;
    var p := RecoveredShape(s.journal, Entry(r, wrote));
    assert StageFits(cfg, s, s.calls[k]);
    ApartIsDistinct(rs);
    AppendBelow(s, p, r, wrote);
    AppendApart(cfg, s, k, wrote, p);
  }

  lemma {:induction false} JournalInvStep(cfg: Config, s: State, e: Event)
    requires TreeInv(cfg, s) && CallsInv(cfg, s) && JournalInv(s)
    ensures JournalInv(Step(cfg, s, e))
  {
    var f := EffectOf(cfg, s, e);
    var s' := Step(cfg, s, e);
    match f {
      case Commit(k, r) =>
        CommitApart(cfg, s, k, r, s');
      case Ended(k) => EndedApart(cfg, s, s', k);
      case Moved(k, stage) => MovedApart(cfg, s, s', k, stage);
      case Started(c) => StartedApart(cfg, s, c);
      case Appended(k, wrote) => AppendKeepsJournal(cfg, s, k, wrote);
      case Grown(g) => QuietApart(s, s');
      case Restarted => RestartedApart(cfg, s);
      case Skipped =>
    }
  }

  lemma {:induction false} QuietApart(s: State, s': State)
    requires JournalInv(s) && s'.journal == s.journal && s'.memory.store == s.memory.store && s.used <= s'.used
    requires forall k :: k in s'.calls ==> Holds(s'.calls[k]) == {} || (k in s.calls && s'.calls[k] == s.calls[k])
    ensures JournalInv(s')
  {
  }

  lemma {:induction false} EndedApart(cfg: Config, s: State, s': State, k: nat)
    requires JournalInv(s) && Ends(cfg, s, s', k)
    ensures JournalInv(s')
  {
    QuietApart(s, s');
  }

  lemma {:induction false} StartedApart(cfg: Config, s: State, c: Call)
    requires JournalInv(s) && c.stage == Noted
    ensures JournalInv(DoBegin(cfg, s, c.caller.id, c.op))
  {
    QuietApart(s, DoBegin(cfg, s, c.caller.id, c.op));
  }

  lemma {:induction false} RestartedApart(cfg: Config, s: State)
    requires JournalInv(s)
    ensures JournalInv(DoRestart(cfg, s))
  {
    assert Rebuilt(DoRestart(cfg, s)) == Rebuilt(s);
  }

  lemma {:induction false} MovedApart(cfg: Config, s: State, s': State, k: nat, stage: Stage)
    requires JournalInv(s) && Moves(cfg, s, s', k, stage)
    ensures JournalInv(s')
  {
    var rs := OnDisk(s);
    assert Holds(s'.calls[k]) == FileOf(s'.calls[k]) && Holds(s.calls[k]) == FileOf(s.calls[k]);
    forall i | 0 <= i < |rs| ensures NewIds(rs[i]) !! Holds(s'.calls[k]) {
      assert NewIds(rs[i]) !! Holds(s.calls[k]) && NewIds(rs[i]) <= s.used;
    }
  }

  lemma {:induction false} CommitApart(cfg: Config, s: State, k: nat, r: Record, s': State)
    requires CallsInv(cfg, s) && JournalInv(s) && Commits(cfg, s, s', k, r)
    ensures JournalInv(s')
  {
    var rs := OnDisk(s);
    CommitKeeps(cfg, s, k, r, s');
    BelowTrans(Rebuilt(s).store, s.memory.store, s'.memory.store);
    assert Holds(s'.calls[k]) == NewIds(r);
    forall i | 0 <= i < |rs| ensures NewIds(rs[i]) !! NewIds(r) {
      assert NewIds(rs[i]) <= s.used && NewIds(rs[i]) !! Holds(s.calls[k]);
      match r {
        case SendRec(m) => assert m.id !in s.used;
        case PutRec(a) => assert NewIds(r) == Holds(s.calls[k]);
        case _ =>
      }
    }
  }
}
