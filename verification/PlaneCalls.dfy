/** What every step keeps about the calls in progress. */
module PlaneCalls {
  import opened Options
  import opened Topology
  import opened Journal
  import opened Framing
  import opened Plane

  /** Stages only look at parts of the state that grow. */
  lemma {:induction false} StageKeeps(cfg: Config, s: State, s': State, c: Call)
    requires StageFits(cfg, s, c)
    requires Extends(s.home, s'.home) && Below(s.memory.store, s'.memory.store) && s.used <= s'.used
    requires forall id :: id in FileOf(c) ==>
      && id !in s'.memory.store.artifacts && id !in Strays(s'.disk)
      && id in s'.disk.files && s'.disk.files[id] == s.disk.files[id]
      && id in s'.disk.payload && s'.disk.payload[id] == s.disk.payload[id]
    ensures StageFits(cfg, s', c)
  {
    if c.stage.Recorded? { AbsorbedUp(s.memory.store, s'.memory.store, c.stage.rec); }
  }

  ghost predicate Ready(cfg: Config, s: State, k: nat, r: Record) {
    && CallsInv(cfg, s) && k in s.calls && !s.calls[k].stage.Recorded?
    && Fresh(s.memory.store, r) && Plain(r)
    && Author(r) == s.calls[k].caller.id && (OnMailbox(r) <==> OfMailbox(s.calls[k].op))
    && (r.AckRec? ==> r.messageId in s.memory.store.messages)
    && (r.GrantRec? ==> r.artifactId in s.memory.store.artifacts)
    && (forall j :: j in s.calls && j != k ==> Holds(s.calls[j]) !! NewIds(r))
  }

  lemma {:induction false} CommitKeeps(cfg: Config, s: State, k: nat, r: Record, s': State)
    requires Ready(cfg, s, k, r)
    requires s' == Committed(s, k, r).(used := s.used + NewIds(r))
    ensures CallsInv(cfg, s') && Below(s.memory.store, s'.memory.store)
  {
    FreshGrows(s.memory.store, r);
    CommitStages(cfg, s, k, r, s');
    CommitHolds(cfg, s, k, r, s');
    assert s'.memory.store.messages.Keys <= s'.used && s'.memory.store.artifacts.Keys <= s'.used;
  }

  lemma {:induction false} CommitStages(cfg: Config, s: State, k: nat, r: Record, s': State)
    requires Ready(cfg, s, k, r) && Below(s.memory.store, s'.memory.store)
    requires s' == Committed(s, k, r).(used := s.used + NewIds(r))
    ensures forall j :: j in s'.calls ==> StageFits(cfg, s', s'.calls[j])
  {
    assert s'.calls[k].stage == Recorded(r);
    assert StageFits(cfg, s, s.calls[k]);
    assert Absorbed(s'.memory.store, r);
    forall j | j in s'.calls ensures StageFits(cfg, s', s'.calls[j]) {
      if j != k {
        assert Holds(s.calls[j]) !! NewIds(r);
        CommitStage(cfg, s, k, r, s', j);
      }
    }
  }

  lemma {:induction false} CommitHolds(cfg: Config, s: State, k: nat, r: Record, s': State)
    requires Ready(cfg, s, k, r)
    requires s' == Committed(s, k, r).(used := s.used + NewIds(r))
    ensures forall i, j :: i in s'.calls && j in s'.calls && i != j ==> Holds(s'.calls[i]) !! Holds(s'.calls[j])
  {
    assert Holds(s'.calls[k]) == NewIds(r);
    assert forall j :: j in s'.calls && j != k ==> s'.calls[j] == s.calls[j];
  }

  lemma {:induction false} CommitStage(cfg: Config, s: State, k: nat, r: Record, s': State, j: nat)
    requires Ready(cfg, s, k, r) && s' == Committed(s, k, r).(used := s.used + NewIds(r))
    requires Below(s.memory.store, s'.memory.store)
    requires j in s.calls && j != k && Holds(s.calls[j]) !! NewIds(r)
    ensures StageFits(cfg, s', s.calls[j])
  {
    forall id | id in FileOf(s.calls[j]) ensures id !in s'.memory.store.artifacts {
      assert id in Holds(s.calls[j]);
      assert StageFits(cfg, s, s.calls[j]);
    }
    assert StageFits(cfg, s, s.calls[j]);
    StageKeeps(cfg, s, s', s.calls[j]);
  }

  // ---- The four memory writes -------------------------------------------------------

  /** `s'` is `s` after record `r` was written for call `k`, with the checks its handler makes. */
  ghost predicate Commits(cfg: Config, s: State, s': State, k: nat, r: Record) {
    && Ready(cfg, s, k, r)
    && s' == Committed(s, k, r).(used := s.used + NewIds(r))
    && Checked(cfg, s, s.calls[k], r)
  }

  /** What the handlers check before each kind of memory write. */
  ghost predicate Checked(cfg: Config, s: State, c: Call, r: Record) {
    var st := s.memory.store;
    match r
    case SendRec(m) => c.stage.Cleared? && c.op.SendOp? && m.to == c.stage.to && m.id !in s.used
    case AckRec(id, _) => id in st.messages && CanReadMessage(s.tree, c.caller, st.messages[id])
    case PutRec(a) =>
      && c.stage == Written(a.id) && c.op.PutOp? && c.op.content.Some? && a.size == |c.op.content.value|
      && |OwnedBy(st.artifacts, a.owner)| < cfg.perActor
    case GrantRec(id, to, _) =>
      && c.stage == Cleared(to) && c.op.GrantOp?
      && id in st.artifacts && CanReadArtifact(s.tree, c.caller, st.artifacts[id])
  }

  lemma {:induction false} SendCommits(cfg: Config, s: State, k: nat, id: Id, now: int) returns (r: Record)
    requires CallsInv(cfg, s) && Awaits(s, k, false) && s.calls[k].op.SendOp? && id !in s.used
    ensures Ready(cfg, s, k, r) && Checked(cfg, s, s.calls[k], r)
    ensures DoSend(s, k, id, now) == Committed(s, k, r).(used := s.used + NewIds(r))
  {
    var c := s.calls[k];
    r := SendRec(Message(id, c.caller.id, c.stage.to, c.op.subject, c.op.body, c.op.refs, now, {}));
    HeldIdsAreUsed(cfg, s);
  }

  lemma {:induction false} AckCommits(cfg: Config, s: State, k: nat) returns (r: Option<Record>)
    requires CallsInv(cfg, s) && Awaits(s, k, true) && s.calls[k].op.AckOp?
    ensures match r
            case Some(r) => Ready(cfg, s, k, r) && Checked(cfg, s, s.calls[k], r)
              && DoAck(s, k) == Committed(s, k, r).(used := s.used + NewIds(r))
            case None => DoAck(s, k) == Drop(s, k)
  {
    var c := s.calls[k];
    if c.op.messageId in s.memory.store.messages
      && CanReadMessage(s.tree, c.caller, s.memory.store.messages[c.op.messageId]) {
      r := Some(AckRec(c.op.messageId, c.caller.id));
      assert s.used + NewIds(r.value) == s.used;
    } else {
      r := None;
    }
  }

  lemma {:induction false} PutCommits(cfg: Config, s: State, k: nat, now: int) returns (r: Option<Record>)
    requires CallsInv(cfg, s) && k in s.calls && s.calls[k].stage.Written? && s.calls[k].op.PutOp?
             && s.calls[k].op.content.Some?
    ensures match r
            case Some(r) => Ready(cfg, s, k, r) && Checked(cfg, s, s.calls[k], r)
              && DoPut(cfg, s, k, now) == Committed(s, k, r).(used := s.used + NewIds(r))
            case None => && DoPut(cfg, s, k, now) == At(s, k, Refused(s.calls[k].stage.id))
                         && StageFits(cfg, DoPut(cfg, s, k, now), DoPut(cfg, s, k, now).calls[k])
  {
    var c := s.calls[k];
    assert StageFits(cfg, s, c);
    if |OwnedBy(s.memory.store.artifacts, c.caller.id)| < cfg.perActor {
      r := Some(PutRec(Artifact(c.stage.id, c.caller.id, c.op.name, c.op.mime, |c.op.content.value|, now, {})));
      assert s.used + NewIds(r.value) == s.used;
      assert Holds(c) == NewIds(r.value);
    } else {
      r := None;
    }
  }

  lemma {:induction false} GrantCommits(cfg: Config, s: State, k: nat) returns (r: Option<Record>)
    requires CallsInv(cfg, s) && Awaits(s, k, false) && s.calls[k].op.GrantOp?
    ensures match r
            case Some(r) => Ready(cfg, s, k, r) && Checked(cfg, s, s.calls[k], r)
              && DoGrant(s, k) == Committed(s, k, r).(used := s.used + NewIds(r))
            case None => DoGrant(s, k) == Drop(s, k)
  {
    var c := s.calls[k];
    if c.op.artifactId in s.memory.store.artifacts
      && CanReadArtifact(s.tree, c.caller, s.memory.store.artifacts[c.op.artifactId]) {
      r := Some(GrantRec(c.op.artifactId, c.stage.to, c.caller.id));
      assert s.used + NewIds(r.value) == s.used;
    } else {
      r := None;
    }
  }

  // ---- The other steps ----------------------------------------------------------------

  /** What a step did, in terms of the call it belongs to. */
  datatype Effect =
    | Commit(k: nat, r: Record)
    | Ended(k: nat)
    | Moved(k: nat, stage: Stage)
    | Started(call: Call)
    | Appended(k: nat, wrote: Wrote)
    | Grown(step: TreeStep)
    | Restarted
    | Skipped

  /** `s'` is what effect `f` makes of `s`. */
  ghost predicate Does(cfg: Config, s: State, s': State, f: Effect) {
    match f
    case Commit(k, r) => Commits(cfg, s, s', k, r)
    case Ended(k) => Ends(cfg, s, s', k)
    case Moved(k, stage) => Moves(cfg, s, s', k, stage)
    case Started(c) => s' == DoBegin(cfg, s, c.caller.id, c.op) && c == Call(AsCaller(cfg, c.caller.id), c.op, Noted)
    case Appended(k, wrote) => k in s.calls && s.calls[k].stage.Recorded? && s' == DoAppend(s, k, wrote)
    case Grown(g) => TreeEnabled(s.tree, s.home, g) && (g.AddSublead? ==> cfg.roleOf(g.lead) == Sublead)
      && s' == s.(tree := TreeAfter(s.tree, s.home, g), home := HomeAfter(s.home, g))
    case Restarted => s' == DoRestart(cfg, s)
    case Skipped => s' == s
  }

  ghost predicate Ends(cfg: Config, s: State, s': State, k: nat) {
    && k in s.calls && s' == Drop(s, k).(used := s'.used, disk := s'.disk)
    && !s.calls[k].stage.Recorded? && DiskMoves(cfg, s, k, s')
  }

  ghost predicate Moves(cfg: Config, s: State, s': State, k: nat, stage: Stage) {
    && k in s.calls && s' == At(s, k, stage).(used := s'.used, disk := s'.disk)
    && !s.calls[k].stage.Recorded? && !stage.Recorded? && DiskMoves(cfg, s, k, s')
    && StageFits(cfg, s', s'.calls[k])
  }

  /** How a step of call `k` that is neither a commit nor an append touches the disk. */
  ghost predicate DiskMoves(cfg: Config, s: State, k: nat, s': State)
    requires k in s.calls
  {
    || (&& s'.used == s.used && s'.disk == s.disk
        && FileOf(s.calls[k]) == if k in s'.calls then FileOf(s'.calls[k]) else {})
    || (exists id :: NewFile(cfg, s, k, s', id))
    || (exists id :: BadFile(s, k, s', id))
    || OldFile(s, k, s')
  }

  ghost predicate NewFile(cfg: Config, s: State, k: nat, s': State, id: Id)
    requires k in s.calls
  {
    var c := s.calls[k];
    && c.op.PutOp? && c.op.content.Some? && |c.op.content.value| <= cfg.maxArtifact && FileOf(c) == {}
    && id !in s.used && s'.used == s.used + {id} && k in s'.calls && s'.calls[k].stage == Written(id)
    && s'.disk == s.disk.(files := s.disk.files[id := c.op.content.value],
                          payload := s.disk.payload[id := c.op.content.value])
  }

  ghost predicate BadFile(s: State, k: nat, s': State, id: Id)
    requires k in s.calls
  {
    && id !in s.used && s'.used == s.used + {id} && k !in s'.calls && FileOf(s.calls[k]) == {} && id in s'.disk.files
    && s'.disk == s.disk.(files := s.disk.files[id := s'.disk.files[id]], failed := s.disk.failed + {id})
  }

  ghost predicate OldFile(s: State, k: nat, s': State)
    requires k in s.calls
  {
    var c := s.calls[k];
    && k !in s'.calls && c.stage.Refused? && s'.used == s.used
    && (s'.disk == s.disk.(files := s.disk.files - {c.stage.id})
        || s'.disk == s.disk.(kept := s.disk.kept + {c.stage.id}))
  }

  lemma {:induction false} WriteEffect(cfg: Config, s: State, k: nat, id: Id, result: FileWrite) returns (f: Effect)
    requires CallsInv(cfg, s) && Awaits(s, k, true) && s.calls[k].op.PutOp? && id !in s.used
    ensures Does(cfg, s, DoWriteFile(cfg, s, k, id, result), f)
  {
    var content := s.calls[k].op.content;
    var s' := DoWriteFile(cfg, s, k, id, result);
    assert StageFits(cfg, s, s.calls[k]);
    if content.None? || |content.value| > cfg.maxArtifact || result == NotCreated {
      f := Ended(k);
    } else if result == Stored {
      f := Moved(k, Written(id));
      assert NewFile(cfg, s, k, s', id);
      assert FileFits(cfg, s', s'.calls[k], id);
    } else {
      f := Ended(k);
      assert BadFile(s, k, s', id);
    }
  }

  lemma {:induction false} UnlinkEffect(cfg: Config, s: State, k: nat, ok: bool)
    requires k in s.calls && s.calls[k].stage.Refused?
    ensures Ends(cfg, s, DoUnlink(s, k, ok), k)
  {
    assert OldFile(s, k, DoUnlink(s, k, ok));
  }

  lemma {:induction false} DropEffect(cfg: Config, s: State, k: nat)
    requires k in s.calls && (s.calls[k].stage.Noted? || s.calls[k].stage.Cleared?)
    ensures Ends(cfg, s, Drop(s, k), k)
  {
  }

  lemma {:induction false} ResolveEffect(cfg: Config, s: State, k: nat) returns (f: Effect)
    requires TreeInv(cfg, s) && CallsInv(cfg, s)
    requires Awaits(s, k, true) && (s.calls[k].op.SendOp? || s.calls[k].op.GrantOp?)
    ensures Does(cfg, s, DoResolve(cfg, s, k), f)
  {
    var c := s.calls[k];
    var to := ResolveRecipient(s.tree, c.caller, c.op.to);
    assert StageFits(cfg, s, c);
    var s' := DoResolve(cfg, s, k);
    if k in s'.calls {
      ChecksFollowHome(s.tree, s.home, c.caller, to.value);
      f := Moved(k, Cleared(to.value));
    } else {
      f := Ended(k);
      DropEffect(cfg, s, k);
    }
  }

  lemma {:induction false} PutEffect(cfg: Config, s: State, k: nat, now: int) returns (f: Effect)
    requires CallsInv(cfg, s) && k in s.calls && s.calls[k].stage.Written? && s.calls[k].op.PutOp?
             && s.calls[k].op.content.Some?
    ensures Does(cfg, s, DoPut(cfg, s, k, now), f)
  {
    var r := PutCommits(cfg, s, k, now);
    f := if r.Some? then Commit(k, r.value) else Moved(k, Refused(s.calls[k].stage.id));
  }

  /** Every step is one of the effects. */
  lemma {:induction false} EffectOf(cfg: Config, s: State, e: Event) returns (f: Effect)
    requires TreeInv(cfg, s) && CallsInv(cfg, s)
    ensures Does(cfg, s, Step(cfg, s, e), f)
  {
    if !Enabled(cfg, s, e) { return Skipped; }
    match e {
      case Grow(g) => f := Grown(g);
      case Begin(actor, op) => f := Started(Call(AsCaller(cfg, actor), op, Noted));
      case Answer(k) => f := Ended(k); DropEffect(cfg, s, k);
      case Resolve(k) => f := ResolveEffect(cfg, s, k);
      case CommitSend(k, id, now) =>
        var r := SendCommits(cfg, s, k, id, now);
        f := Commit(k, r);
      case CommitAck(k) =>
        var r := AckCommits(cfg, s, k);
        if r.Some? { f := Commit(k, r.value); } else { f := Ended(k); DropEffect(cfg, s, k); }
      case WriteFile(k, id, result) => f := WriteEffect(cfg, s, k, id, result);
      case CommitPut(k, now) => f := PutEffect(cfg, s, k, now);
      case Unlink(k, ok) => f := Ended(k); UnlinkEffect(cfg, s, k, ok);
      case CommitGrant(k) =>
        var r := GrantCommits(cfg, s, k);
        if r.Some? { f := Commit(k, r.value); } else { f := Ended(k); DropEffect(cfg, s, k); }
      case AppendLine(k, wrote) => f := Appended(k, wrote);
      case Restart => f := Restarted;
    }
  }

  /** Ids held by calls were all issued. */
  lemma {:induction false} HeldIdsAreUsed(cfg: Config, s: State)
    requires CallsInv(cfg, s)
    ensures forall j :: j in s.calls ==> Holds(s.calls[j]) <= s.used
  {
    forall j | j in s.calls ensures Holds(s.calls[j]) <= s.used {
      assert StageFits(cfg, s, s.calls[j]);
    }
  }

  // ---- The invariant of calls ------------------------------------------------------------

  /** The files that other calls hold are not touched. */
  lemma {:induction false} OthersFilesStay(cfg: Config, s: State, k: nat, s': State, j: nat)
    requires CallsInv(cfg, s) && k in s.calls && j in s.calls && j != k && DiskMoves(cfg, s, k, s')
    requires s'.memory.store == s.memory.store
    ensures forall id :: id in FileOf(s.calls[j]) ==>
      && id !in s'.memory.store.artifacts && id !in Strays(s'.disk)
      && id in s'.disk.files && s'.disk.files[id] == s.disk.files[id]
      && id in s'.disk.payload && s'.disk.payload[id] == s.disk.payload[id]
  {
    assert Holds(s.calls[j]) !! Holds(s.calls[k]);
    assert StageFits(cfg, s, s.calls[j]);
  }

  lemma {:induction false} DiskIdsAreUsed(cfg: Config, s: State, k: nat, s': State)
    requires CallsInv(cfg, s) && k in s.calls && DiskMoves(cfg, s, k, s')
    ensures s.used <= s'.used
    ensures s'.disk.files.Keys <= s'.used && Strays(s'.disk) <= s'.used
  {
    assert StageFits(cfg, s, s.calls[k]);
  }

  lemma {:induction false} EndedKeeps(cfg: Config, s: State, k: nat, s': State)
    requires CallsInv(cfg, s) && k in s.calls && s' == Drop(s, k).(used := s'.used, disk := s'.disk)
             && DiskMoves(cfg, s, k, s')
    ensures CallsInv(cfg, s')
  {
    DiskIdsAreUsed(cfg, s, k, s');
    forall j | j in s'.calls ensures StageFits(cfg, s', s'.calls[j]) { OthersStage(cfg, s, k, s', j); }
  }

  lemma {:induction false} OthersStage(cfg: Config, s: State, k: nat, s': State, j: nat)
    requires CallsInv(cfg, s) && k in s.calls && DiskMoves(cfg, s, k, s') && j in s.calls && j != k
    requires s'.memory.store == s.memory.store && s'.home == s.home
    ensures StageFits(cfg, s', s.calls[j])
  {
    DiskIdsAreUsed(cfg, s, k, s');
    OthersFilesStay(cfg, s, k, s', j);
    StageKeeps(cfg, s, s', s.calls[j]);
  }

  lemma {:induction false} OthersHold(cfg: Config, s: State, k: nat, stage: Stage, s': State, j: nat)
    requires CallsInv(cfg, s) && k in s.calls && s' == At(s, k, stage).(used := s'.used, disk := s'.disk)
    requires DiskMoves(cfg, s, k, s') && !stage.Recorded? && j in s.calls && j != k
    ensures Holds(s'.calls[j]) !! Holds(s'.calls[k])
  {
    HeldIdsAreUsed(cfg, s);
    assert Holds(s'.calls[k]) == FileOf(s'.calls[k]);
    assert Holds(s.calls[j]) !! Holds(s.calls[k]);
  }

  lemma {:induction false} MovedKeeps(cfg: Config, s: State, k: nat, stage: Stage, s': State)
    requires CallsInv(cfg, s) && k in s.calls && s' == At(s, k, stage).(used := s'.used, disk := s'.disk)
             && DiskMoves(cfg, s, k, s')
    requires !stage.Recorded?
    requires StageFits(cfg, s', s'.calls[k])
    ensures CallsInv(cfg, s')
  {
    assert s.used <= s'.used && s'.disk.files.Keys <= s'.used && Strays(s'.disk) <= s'.used by {
      DiskIdsAreUsed(cfg, s, k, s');
    }
    forall j | j in s'.calls && j != k
      ensures StageFits(cfg, s', s'.calls[j]) && Holds(s'.calls[j]) !! Holds(s'.calls[k])
    {
      OthersStage(cfg, s, k, s', j);
      OthersHold(cfg, s, k, stage, s', j);
    }
  }

  lemma {:induction false} StartedKeeps(cfg: Config, s: State, actor: Id, op: Op)
    requires CallsInv(cfg, s)
    ensures CallsInv(cfg, DoBegin(cfg, s, actor, op))
  {
    var s' := DoBegin(cfg, s, actor, op);
    forall j | j in s'.calls ensures j < s'.next && StageFits(cfg, s', s'.calls[j]) {
      if j != s.next { StageKeeps(cfg, s, s', s.calls[j]); }
    }
  }

  lemma {:induction false} AppendedKeeps(cfg: Config, s: State, k: nat, wrote: Wrote)
    requires CallsInv(cfg, s) && k in s.calls && s.calls[k].stage.Recorded?
    ensures CallsInv(cfg, DoAppend(s, k, wrote))
  {
    var s' := DoAppend(s, k, wrote);
    forall j | j in s'.calls ensures StageFits(cfg, s', s'.calls[j]) {
      StageKeeps(cfg, s, s', s.calls[j]);
    }
  }

  lemma {:induction false} GrownKeeps(cfg: Config, s: State, g: TreeStep)
    requires TreeInv(cfg, s) && CallsInv(cfg, s) && TreeEnabled(s.tree, s.home, g)
    ensures CallsInv(cfg, s.(tree := TreeAfter(s.tree, s.home, g), home := HomeAfter(s.home, g)))
  {
    var s' := s.(tree := TreeAfter(s.tree, s.home, g), home := HomeAfter(s.home, g));
    TreeStepFits(s.tree, s.home, g);
    forall j | j in s'.calls ensures StageFits(cfg, s', s'.calls[j]) {
      StageKeeps(cfg, s, s', s.calls[j]);
    }
  }

  lemma {:induction false} RestartedKeeps(cfg: Config, s: State)
    requires CallsInv(cfg, s) && Below(Replay(EMPTY, Recovered(s.journal)).store, s.memory.store)
    ensures CallsInv(cfg, DoRestart(cfg, s))
  {
    HeldIdsAreUsed(cfg, s);
    forall id | id in InFlight(s.calls) ensures id in s.used {
      var k :| k in s.calls && id in FileOf(s.calls[k]);
      assert Holds(s.calls[k]) <= s.used;
    }
    forall id | id in OwedPuts(s.calls) ensures id in s.used {
      var k :| k in s.calls && id in PutOf(s.calls[k]);
      assert PutOf(s.calls[k]) == NewIds(s.calls[k].stage.rec) && Holds(s.calls[k]) <= s.used;
    }
  }

  lemma {:induction false} CallsInvStep(cfg: Config, s: State, e: Event)
    requires TreeInv(cfg, s) && CallsInv(cfg, s)
    requires Below(Replay(EMPTY, Recovered(s.journal)).store, s.memory.store)
    ensures CallsInv(cfg, Step(cfg, s, e))
  {
    var f := EffectOf(cfg, s, e);
    match f {
      case Commit(k, r) => CommitKeeps(cfg, s, k, r, Step(cfg, s, e));
      case Ended(k) => EndedKeeps(cfg, s, k, Step(cfg, s, e));
      case Moved(k, stage) => MovedKeeps(cfg, s, k, stage, Step(cfg, s, e));
      case Started(c) => StartedKeeps(cfg, s, c.caller.id, c.op);
      case Appended(k, wrote) => AppendedKeeps(cfg, s, k, wrote);
      case Grown(g) => GrownKeeps(cfg, s, g);
      case Restarted => RestartedKeeps(cfg, s);
      case Skipped =>
    }
  }
}
