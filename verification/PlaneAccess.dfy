/** What every step keeps about who sent, acked and was granted what, and about files and quotas. */
module PlaneAccess {
  import opened Topology
  import opened Journal
  import opened Framing
  import opened Plane
  import opened PlaneCalls

  // ---- Message flow ---------------------------------------------------------------------

  predicate MayRead(home: map<Id, Id>, c: Caller, m: Message) {
    c.id == m.from || c.id == m.to || MayObserve(home, c, m.from) || MayObserve(home, c, m.to)
  }

  /** The message went along an allowed edge, and everyone who acked it may read it. */
  ghost predicate MessageFits(cfg: Config, home: map<Id, Id>, m: Message) {
    && MaySend(cfg.lead, home, AsCaller(cfg, m.from), m.to)
    && forall a :: a in m.ackedBy ==> MayRead(home, AsCaller(cfg, a), m)
  }

  /** Parents are the root lead or sub-leads, never workers. */
  ghost predicate ParentsFit(cfg: Config, s: State) {
    && (forall i :: 0 <= i < |s.tree.layers| ==> cfg.roleOf(s.tree.layers[i].lead) == Sublead)
    && (forall w :: w in s.home ==> cfg.roleOf(s.home[w]) != Worker)
  }

  ghost predicate AccessInv(cfg: Config, s: State) {
    && ParentsFit(cfg, s)
    && (forall id :: id in s.memory.store.messages ==>
          s.memory.store.messages[id].id == id && MessageFits(cfg, s.home, s.memory.store.messages[id]))
  }

  lemma {:induction false} FlowGrows(cfg: Config, home: map<Id, Id>, home': map<Id, Id>, m: Message)
    requires Extends(home, home') && MessageFits(cfg, home, m)
    ensures MessageFits(cfg, home', m)
  {
  }

  lemma {:induction false} ParentsFitStep(cfg: Config, s: State, g: TreeStep)
    requires RolesBound(cfg) && TreeInv(cfg, s) && ParentsFit(cfg, s) && TreeEnabled(s.tree, s.home, g)
    requires g.AddSublead? ==> cfg.roleOf(g.lead) == Sublead
    ensures ParentsFit(cfg, s.(tree := TreeAfter(s.tree, s.home, g), home := HomeAfter(s.home, g)))
  {
    var t' := TreeAfter(s.tree, s.home, g);
    forall i | 0 <= i < |t'.layers| ensures cfg.roleOf(t'.layers[i].lead) == Sublead {
      if i < |s.tree.layers| { assert t'.layers[i].lead == s.tree.layers[i].lead; }
    }
  }

  lemma {:induction false} CommitKeepsAccess(cfg: Config, s: State, s': State, k: nat, r: Record)
    requires TreeInv(cfg, s) && CallsInv(cfg, s) && AccessInv(cfg, s) && Commits(cfg, s, s', k, r)
    ensures AccessInv(cfg, s')
  {
    var c := s.calls[k];
    assert StageFits(cfg, s, c);
    match r {
      case SendRec(m) => assert MaySend(cfg.lead, s.home, c.caller, m.to);
      case AckRec(id, who) =>
        var m := s.memory.store.messages[id];
        ChecksFollowHome(s.tree, s.home, c.caller, m.from);
        ChecksFollowHome(s.tree, s.home, c.caller, m.to);
        assert MayRead(s.home, AsCaller(cfg, who), m);
      case _ =>
    }
  }

  lemma {:induction false} AccessInvStep(cfg: Config, s: State, e: Event)
    requires RolesBound(cfg) && TreeInv(cfg, s) && CallsInv(cfg, s) && AccessInv(cfg, s)
    requires Below(Replay(EMPTY, Recovered(s.journal)).store, s.memory.store)
    requires KeysFit(Replay(EMPTY, Recovered(s.journal)).store)
    ensures AccessInv(cfg, Step(cfg, s, e))
  {
    var f := EffectOf(cfg, s, e);
    var s' := Step(cfg, s, e);
    match f {
      case Commit(k, r) => CommitKeepsAccess(cfg, s, s', k, r);
      case Grown(g) =>
        ParentsFitStep(cfg, s, g);
        TreeStepFits(s.tree, s.home, g);
        forall id | id in s.memory.store.messages ensures MessageFits(cfg, s'.home, s.memory.store.messages[id]) {
          FlowGrows(cfg, s.home, s'.home, s.memory.store.messages[id]);
        }
      case Restarted =>
        forall id | id in s'.memory.store.messages ensures MessageFits(cfg, s'.home, s'.memory.store.messages[id]) {
          assert SameMessage(s'.memory.store.messages[id], s.memory.store.messages[id]);
          assert MessageFits(cfg, s.home, s.memory.store.messages[id]);
        }
      case _ =>
    }
  }

  /** Entries are stored under their own ids. */
  ghost predicate KeysFit(st: Store) {
    && (forall id :: id in st.messages ==> st.messages[id].id == id)
    && (forall id :: id in st.artifacts ==> st.artifacts[id].id == id)
  }

  lemma {:induction false} ReplayKeysFit(rs: seq<Record>)
    ensures KeysFit(Replay(EMPTY, rs).store)
    decreases |rs|
  {
    if rs != [] { ReplayKeysFit(rs[..|rs| - 1]); }
  }

  // ---- Artifact files and quota ------------------------------------------------------------

  /** A stored artifact's file holds the bytes that were put, within the size limit. */
  ghost predicate FileHolds(cfg: Config, s: State, a: Artifact) {
    && a.id in s.disk.files && a.id in s.disk.payload && s.disk.files[a.id] == s.disk.payload[a.id]
    && a.size == |s.disk.payload[a.id]| && a.size <= cfg.maxArtifact
  }

  ghost predicate DiskInv(cfg: Config, s: State) {
    && (forall id :: id in s.memory.store.artifacts ==>
        s.memory.store.artifacts[id].id == id && FileHolds(cfg, s, s.memory.store.artifacts[id]))
    && (forall id :: id in s.disk.files ==>
          id in s.memory.store.artifacts || id in InFlight(s.calls) || id in Strays(s.disk))
    && (forall owner :: |OwnedBy(s.memory.store.artifacts, owner)| <= cfg.perActor)
  }

  lemma {:induction false} SmallerOwned(a: map<Id, Artifact>, b: map<Id, Artifact>, owner: Id)
    requires forall id :: id in a ==> id in b && a[id].owner == b[id].owner
    ensures |OwnedBy(a, owner)| <= |OwnedBy(b, owner)|
  {
    var x, y := OwnedBy(a, owner), OwnedBy(b, owner);
    assert x <= y;
    assert y == x + (y - x);
    assert |y| == |x| + |y - x|;
  }

  lemma {:induction false} OneMoreOwned(arts: map<Id, Artifact>, a: Artifact, owner: Id)
    requires a.id !in arts
    ensures |OwnedBy(arts[a.id := a], owner)| == |OwnedBy(arts, owner)| + (if a.owner == owner then 1 else 0)
  {
    var before, after := OwnedBy(arts, owner), OwnedBy(arts[a.id := a], owner);
    if a.owner == owner {
      assert after == before + {a.id};
    } else {
      assert after == before;
    }
  }

  lemma {:induction false} CommitKeepsQuota(cfg: Config, s: State, s': State, k: nat, r: Record, owner: Id)
    requires DiskInv(cfg, s) && Commits(cfg, s, s', k, r)
    ensures |OwnedBy(s'.memory.store.artifacts, owner)| <= cfg.perActor
  {
    if r.PutRec? {
      OneMoreOwned(s.memory.store.artifacts, r.artifact, owner);
    } else {
      SmallerOwned(s'.memory.store.artifacts, s.memory.store.artifacts, owner);
    }
  }

  lemma {:induction false} CommitKeepsDisk(cfg: Config, s: State, s': State, k: nat, r: Record)
    requires CallsInv(cfg, s) && DiskInv(cfg, s) && Commits(cfg, s, s', k, r)
    ensures DiskInv(cfg, s')
  {
    forall owner ensures |OwnedBy(s'.memory.store.artifacts, owner)| <= cfg.perActor {
      CommitKeepsQuota(cfg, s, s', k, r, owner);
    }
    assert StageFits(cfg, s, s.calls[k]);
    forall id | id in s'.memory.store.artifacts
      ensures s'.memory.store.artifacts[id].id == id && FileHolds(cfg, s', s'.memory.store.artifacts[id])
    {
      if id in s.memory.store.artifacts { assert FileHolds(cfg, s, s.memory.store.artifacts[id]); }
    }
    forall id | id in s.disk.files && id in InFlight(s.calls)
      ensures id in InFlight(s'.calls) || id in s'.memory.store.artifacts
    {
      var j :| j in s.calls && id in FileOf(s.calls[j]);
      if j != k { assert s'.calls[j] == s.calls[j]; }
    }
  }

  lemma {:induction false} EndedKeepsDisk(cfg: Config, s: State, s': State, k: nat)
    requires CallsInv(cfg, s) && DiskInv(cfg, s) && Ends(cfg, s, s', k)
    ensures DiskInv(cfg, s')
  {
    assert StageFits(cfg, s, s.calls[k]);
    forall id | id in s'.memory.store.artifacts ensures FileHolds(cfg, s', s'.memory.store.artifacts[id]) {
      assert FileHolds(cfg, s, s.memory.store.artifacts[id]) && id in s.used;
    }
    forall id | id in s'.disk.files && id in InFlight(s.calls)
      ensures id in InFlight(s'.calls) || id in s'.disk.kept
    {
      var j :| j in s.calls && id in FileOf(s.calls[j]);
      if j != k { assert s'.calls[j] == s.calls[j]; }
    }
  }

  lemma {:induction false} MovedKeepsDisk(cfg: Config, s: State, s': State, k: nat, stage: Stage)
    requires CallsInv(cfg, s) && DiskInv(cfg, s) && Moves(cfg, s, s', k, stage)
    ensures DiskInv(cfg, s')
  {
    forall id | id in s'.memory.store.artifacts ensures FileHolds(cfg, s', s'.memory.store.artifacts[id]) {
      assert FileHolds(cfg, s, s.memory.store.artifacts[id]) && id in s.used;
    }
    forall id | id in s'.disk.files && id !in s.memory.store.artifacts && id !in Strays(s.disk)
      ensures id in InFlight(s'.calls)
    {
      if id in s.disk.files {
        var j :| j in s.calls && id in FileOf(s.calls[j]);
        assert id in FileOf(s'.calls[j]);
      } else {
        assert id in FileOf(s'.calls[k]);
      }
    }
  }

  lemma {:induction false} RestartedKeepsDisk(cfg: Config, s: State)
    requires DiskInv(cfg, s)
    requires Below(Replay(EMPTY, Recovered(s.journal)).store, s.memory.store)
    requires KeysFit(Replay(EMPTY, Recovered(s.journal)).store)
    ensures DiskInv(cfg, DoRestart(cfg, s))
  {
    var s' := DoRestart(cfg, s);
    forall owner ensures |OwnedBy(s'.memory.store.artifacts, owner)| <= cfg.perActor {
      SmallerOwned(s'.memory.store.artifacts, s.memory.store.artifacts, owner);
    }
    forall id | id in s'.memory.store.artifacts ensures FileHolds(cfg, s', s'.memory.store.artifacts[id]) {
      assert FileHolds(cfg, s, s.memory.store.artifacts[id]);
      assert SameArtifact(s'.memory.store.artifacts[id], s.memory.store.artifacts[id]);
    }
  }

  lemma {:induction false} OthersKeepDisk(cfg: Config, s: State, s': State)
    requires DiskInv(cfg, s) && s'.memory.store == s.memory.store && s'.disk == s.disk
    requires forall k :: k in s.calls && FileOf(s.calls[k]) != {} ==> k in s'.calls && s'.calls[k] == s.calls[k]
    ensures DiskInv(cfg, s')
  {
    forall id | id in s'.memory.store.artifacts ensures FileHolds(cfg, s', s'.memory.store.artifacts[id]) {
      assert FileHolds(cfg, s, s.memory.store.artifacts[id]);
    }
    forall id | id in InFlight(s.calls) ensures id in InFlight(s'.calls) {
      var j :| j in s.calls && id in FileOf(s.calls[j]);
      assert s'.calls[j] == s.calls[j];
    }
  }

  lemma {:induction false} DiskInvStep(cfg: Config, s: State, e: Event)
    requires TreeInv(cfg, s) && CallsInv(cfg, s) && DiskInv(cfg, s)
    requires Below(Replay(EMPTY, Recovered(s.journal)).store, s.memory.store)
    requires KeysFit(Replay(EMPTY, Recovered(s.journal)).store)
    ensures DiskInv(cfg, Step(cfg, s, e))
  {
    var f := EffectOf(cfg, s, e);
    var s' := Step(cfg, s, e);
    match f {
      case Commit(k, r) => CommitKeepsDisk(cfg, s, s', k, r);
      case Ended(k) => EndedKeepsDisk(cfg, s, s', k);
      case Moved(k, stage) => MovedKeepsDisk(cfg, s, s', k, stage);
      case Restarted => RestartedKeepsDisk(cfg, s);
      case Started(c) => assert s.next !in s.calls; OthersKeepDisk(cfg, s, s');
      case _ => OthersKeepDisk(cfg, s, s');
    }
  }

  // ---- Stray files ----------------------------------------------------------------------------

  /** A stray file stays on disk, and no artifact ever takes its id. */
  ghost predicate StraysInv(s: State) {
    forall id :: id in Strays(s.disk) ==> id in s.disk.files && id !in s.memory.store.artifacts
  }

  /** Replay has no artifact whose put record a call still owes. */
  ghost predicate OwedIsUnread(s: State) {
    forall id :: id in OwedPuts(s.calls) ==> id !in Replay(EMPTY, Recovered(s.journal)).store.artifacts
  }

  lemma {:induction false} CommitKeepsStrays(cfg: Config, s: State, s': State, k: nat, r: Record)
    requires CallsInv(cfg, s) && StraysInv(s) && Commits(cfg, s, s', k, r)
    ensures StraysInv(s')
  {
    assert StageFits(cfg, s, s.calls[k]);
  }

  lemma {:induction false} MovesKeepStrays(cfg: Config, s: State, s': State, k: nat)
    requires CallsInv(cfg, s) && StraysInv(s) && k in s.calls && DiskMoves(cfg, s, k, s')
    requires s'.memory.store == s.memory.store
    ensures StraysInv(s')
  {
    assert StageFits(cfg, s, s.calls[k]);
  }

  lemma {:induction false} InFlightHasFile(cfg: Config, s: State, id: Id)
    requires CallsInv(cfg, s) && id in InFlight(s.calls)
    ensures id in s.disk.files && id !in s.memory.store.artifacts
  {
    var k :| k in s.calls && id in FileOf(s.calls[k]);
    assert StageFits(cfg, s, s.calls[k]);
  }

  lemma {:induction false} OwedIsLive(cfg: Config, s: State, id: Id)
    requires CallsInv(cfg, s) && id in OwedPuts(s.calls)
    ensures id in s.memory.store.artifacts
  {
    var k :| k in s.calls && id in PutOf(s.calls[k]);
    assert StageFits(cfg, s, s.calls[k]);
  }

  lemma {:induction false} LiveHasFile(cfg: Config, s: State, id: Id)
    requires DiskInv(cfg, s) && id in s.memory.store.artifacts
    ensures id in s.disk.files
  {
    assert FileHolds(cfg, s, s.memory.store.artifacts[id]);
  }

  lemma {:induction false} RestartKeepsStrays(cfg: Config, s: State)
    requires CallsInv(cfg, s) && DiskInv(cfg, s) && StraysInv(s) && OwedIsUnread(s)
    requires Below(Replay(EMPTY, Recovered(s.journal)).store, s.memory.store)
    ensures StraysInv(DoRestart(cfg, s))
  {
    var s' := DoRestart(cfg, s);
    forall id | id in Strays(s'.disk) ensures id in s'.disk.files && id !in s'.memory.store.artifacts {
      if id in s'.memory.store.artifacts { assert id in s.memory.store.artifacts; }
      if id in InFlight(s.calls) {
        InFlightHasFile(cfg, s, id);
      } else if id in OwedPuts(s.calls) {
        OwedIsLive(cfg, s, id);
        LiveHasFile(cfg, s, id);
      } else if id !in Strays(s.disk) {
        LiveHasFile(cfg, s, id);
      }
    }
  }

  lemma {:induction false} StraysInvStep(cfg: Config, s: State, e: Event)
    requires TreeInv(cfg, s) && CallsInv(cfg, s) && DiskInv(cfg, s) && StraysInv(s) && OwedIsUnread(s)
    requires Below(Replay(EMPTY, Recovered(s.journal)).store, s.memory.store)
    ensures StraysInv(Step(cfg, s, e))
  {
    var f := EffectOf(cfg, s, e);
    var s' := Step(cfg, s, e);
    match f {
      case Commit(k, r) => CommitKeepsStrays(cfg, s, s', k, r);
      case Ended(k) => MovesKeepStrays(cfg, s, s', k);
      case Moved(k, stage) => MovesKeepStrays(cfg, s, s', k);
      case Restarted => RestartKeepsStrays(cfg, s);
      case _ =>
    }
  }

  /** A live artifact that replay would not rebuild. */
  predicate Unread(s: State, id: Id) {
    id in s.memory.store.artifacts && id !in Replay(EMPTY, Recovered(s.journal)).store.artifacts
  }

  datatype Why = BadWrite | BadUnlink | Crash | LostRecord

  function StraysBy(d: Disk, why: Why): set<Id> {
    match why case BadWrite => d.failed case BadUnlink => d.kept case Crash => d.interrupted case LostRecord => d.lost
  }

  /**
   The step makes the file `id` stray: its write stops half-way, its unlink fails, or at a restart its put was
   in progress or still owed its record, or was not, and yet replay does not have it.
   */
  predicate MakesStray(cfg: Config, s: State, e: Event, why: Why, id: Id) {
    Enabled(cfg, s, e) &&
    match why
    case BadWrite =>
      && e.WriteFile? && e.result.Partial? && e.id == id
      && s.calls[e.call].op.content.Some? && |s.calls[e.call].op.content.value| <= cfg.maxArtifact
    case BadUnlink => e.Unlink? && !e.ok && s.calls[e.call].stage.id == id
    case Crash => e.Restart? && (id in InFlight(s.calls) || id in OwedPuts(s.calls))
    case LostRecord => e.Restart? && Unread(s, id) && id !in OwedPuts(s.calls)
  }

  /** The four sets grow by exactly what such a step adds, and never shrink. */
  lemma {:induction false} StraysStep(cfg: Config, s: State, e: Event, why: Why, id: Id)
    ensures id in StraysBy(Step(cfg, s, e).disk, why) <==>
            id in StraysBy(s.disk, why) || MakesStray(cfg, s, e, why, id)
  {
    if Enabled(cfg, s, e) {
      match e {
        case CommitAck(k) => assert DoAck(s, k).disk == s.disk;
        case CommitGrant(k) => assert DoGrant(s, k).disk == s.disk;
        case _ =>
      }
    }
  }
}
