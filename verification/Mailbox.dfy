/**
 The communication store as the handlers use it: three maps, updated in place. Each method is
 one locked section of a handler, and refines the matching step of the plane.
 */
module Mailbox {
  import opened Options
  import opened Utf8
  import opened Topology
  import opened Journal
  import opened Plane
  import opened PlaneCalls
  import opened PlaneJournal
  import opened PlaneAccess
  import opened PlaneTheorems
  import opened Framing
  import opened Sorting

  datatype Error = NotFound(id: string) | Forbidden | CountExceeded(actor: string, limit: nat)
    | InvalidScope(scope: string)

  datatype Outcome<T> = Ok(value: T) | Err(error: Error)

  /** Messages and artifacts are stored under their own ids. */
  ghost predicate IdsMatch(st: Store) {
    && (forall id :: id in st.messages ==> st.messages[id].id == id)
    && (forall id :: id in st.artifacts ==> st.artifacts[id].id == id)
  }

  lemma {:induction false} ReplayIdsMatch(rs: seq<Record>)
    ensures IdsMatch(Replay(EMPTY, rs).store)
    decreases |rs|
  {
    if rs != [] { ReplayIdsMatch(rs[..|rs| - 1]); }
  }

  // ---- Listing ----------------------------------------------------------------------

  /** A message without its body, under its sort key. */
  function Brief(m: Message): Stamped<Message> { Stamped(m.createdAt, m.id, m.(body := [])) }

  predicate KnownScope(scope: string) { scope in {"inbox", "sent", "visible", "all"} }

  predicate Refuses(c: Caller, scope: string) { !KnownScope(scope) || (scope == "all" && c.role != Role.Lead) }

  predicate InScope(t: Tree, c: Caller, scope: string, m: Message) {
    || (scope == "inbox" && m.to == c.id)
    || (scope == "sent" && m.from == c.id)
    || (scope == "visible" && CanReadMessage(t, c, m))
    || scope == "all"
  }

  function Shown(t: Tree, c: Caller, scope: string, messages: map<Id, Message>): map<Id, Stamped<Message>> {
    map id | id in messages && InScope(t, c, scope, messages[id]) :: Brief(messages[id])
  }

  /** What a sub-lead or a worker lists as visible is its own mail and, for a sub-lead, that of its workers. */
  lemma {:induction false} VisibleStaysInTheSubtree(t: Tree, home: map<Id, Id>, c: Caller, messages: map<Id, Message>,
                                                    id: Id)
    requires Fits(t, home) && c.role != Role.Lead && id in Shown(t, c, "visible", messages)
    ensures var m := messages[id];
            || m.from == c.id || m.to == c.id
            || (&& c.role == Role.Sublead
                && ((m.from in home && home[m.from] == c.id) || (m.to in home && home[m.to] == c.id)))
  {
    ParentIsHome(t, home, messages[id].from);
    ParentIsHome(t, home, messages[id].to);
  }

  class CommunicationStore {
    var messages: map<Id, Message>
    var artifacts: map<Id, Artifact>
    var activity: Activity

    ghost predicate Valid()
      reads this
    {
      IdsMatch(Store(messages, artifacts))
    }

    ghost function Mem(): Memory
      reads this
    {
      Memory(Store(messages, artifacts), activity)
    }

    /** A store opened on a journal holds the replay of the lines that parse. */
    constructor (lines: seq<Option<Record>>)
      ensures Valid() && Mem() == Replay(EMPTY, Parsed(lines))
    {
      var m := ReplayJournal(lines);
      messages, artifacts, activity := m.store.messages, m.store.artifacts, m.activity;
      ReplayIdsMatch(Parsed(lines));
    }

    /** A named actor's message counter rises by one; its other counter, and everyone else's, stay. */
    method NoteMessageOp(actor: Id)
      modifies this`activity
      ensures TallyOf(activity, actor).messageOps == TallyOf(old(activity), actor).messageOps
              + (if actor == "" then 0 else 1)
      ensures forall a :: TallyOf(activity, a).artifactOps == TallyOf(old(activity), a).artifactOps
      ensures forall a :: a != actor ==> TallyOf(activity, a) == TallyOf(old(activity), a)
      ensures activity == NoteMessage(old(activity), actor)
    {
      if actor == "" { return; }
      var t := if actor in activity then activity[actor] else Tally(0, 0);
      activity := activity[actor := t.(messageOps := t.messageOps + 1)];
    }

    /** A named actor's artifact counter rises by one; its other counter, and everyone else's, stay. */
    method NoteArtifactOp(actor: Id)
      modifies this`activity
      ensures TallyOf(activity, actor).artifactOps == TallyOf(old(activity), actor).artifactOps
              + (if actor == "" then 0 else 1)
      ensures forall a :: TallyOf(activity, a).messageOps == TallyOf(old(activity), a).messageOps
      ensures forall a :: a != actor ==> TallyOf(activity, a) == TallyOf(old(activity), a)
      ensures activity == NoteArtifact(old(activity), actor)
    {
      if actor == "" { return; }
      var t := if actor in activity then activity[actor] else Tally(0, 0);
      activity := activity[actor := t.(artifactOps := t.artifactOps + 1)];
    }

    method InsertMessage(m: Message, ghost s: State, ghost k: nat) returns (r: Record)
      requires Valid() && s.memory == Mem() && Awaits(s, k, false) && s.calls[k].op.SendOp?
      requires DoSend(s, k, m.id, m.createdAt).calls[k].stage == Recorded(SendRec(m))
      modifies this`messages
      ensures Valid() && Mem() == DoSend(s, k, m.id, m.createdAt).memory && r == SendRec(m)
    {
      messages := messages[m.id := m];
      r := SendRec(m);
    }

    /** Not found, forbidden, or acked; the record to journal is the one the plane's call now owes. */
    method Ack(t: Tree, c: Caller, id: Id, ghost s: State, ghost k: nat) returns (r: Outcome<Record>)
      requires Valid() && s.memory == Mem() && s.tree == t
      requires Awaits(s, k, true) && s.calls[k].op == AckOp(id) && s.calls[k].caller == c
      modifies this`messages
      ensures Valid() && Mem() == DoAck(s, k).memory
      ensures match r
              case Ok(rec) =>
                k in DoAck(s, k).calls && DoAck(s, k).calls[k].stage == Recorded(rec)
                && Absorbed(Mem().store, rec)
              case Err(e) =>
                k in DoAck(s, k).wasted && Mem() == old(Mem())
                && e == (if id in messages then Forbidden else NotFound(id))
    {
      if id !in messages { return Err(NotFound(id)); }
      var m := messages[id];
      if !CanReadMessage(t, c, m) { return Err(Forbidden); }
      messages := messages[id := m.(ackedBy := m.ackedBy + {c.id})];
      r := Ok(AckRec(id, c.id));
    }

    method CountOwned(owner: Id, order: seq<Id>) returns (n: nat)
      requires Visits(order, artifacts)
      ensures n == |OwnedBy(artifacts, owner)|
    {
      n := 0;
      ghost var seen: set<Id> := {};
      for i := 0 to |order|
        invariant seen == set id | id in order[..i] && artifacts[id].owner == owner
        invariant n == |seen|
      {
        assert order[..i + 1] == order[..i] + [order[i]];
        if artifacts[order[i]].owner == owner {
          assert order[i] !in order[..i];
          n := n + 1;
          seen := seen + {order[i]};
        }
      }
      assert order[..|order|] == order;
      assert seen == OwnedBy(artifacts, owner);
    }

    /** The count check and the insertion, in whatever order the count visits the map. */
    method InsertArtifact(cfg: Config, a: Artifact, order: seq<Id>, ghost s: State, ghost k: nat)
        returns (r: Outcome<Record>)
      requires Valid() && s.memory == Mem() && Visits(order, artifacts)
      requires k in s.calls && s.calls[k].stage == Written(a.id) && s.calls[k].op.PutOp? && s.calls[k].op.content.Some?
      requires var c := s.calls[k];
               a == Artifact(a.id, c.caller.id, c.op.name, c.op.mime, |c.op.content.value|, a.createdAt, {})
      modifies this`artifacts
      ensures Valid() && Mem() == DoPut(cfg, s, k, a.createdAt).memory
      ensures match r
              case Ok(rec) => DoPut(cfg, s, k, a.createdAt).calls[k].stage == Recorded(rec)
              case Err(e) =>
                e == CountExceeded(a.owner, cfg.perActor)
                && DoPut(cfg, s, k, a.createdAt).calls[k].stage == Refused(a.id)
    {
      var n := CountOwned(a.owner, order);
      if n >= cfg.perActor { return Err(CountExceeded(a.owner, cfg.perActor)); }
      artifacts := artifacts[a.id := a];
      r := Ok(PutRec(a));
    }

    method Grant(t: Tree, c: Caller, id: Id, to: Id, ghost s: State, ghost k: nat) returns (r: Outcome<Record>)
      requires Valid() && s.memory == Mem() && s.tree == t
      requires Awaits(s, k, false) && s.calls[k].op.GrantOp? && s.calls[k].op.artifactId == id
      requires s.calls[k].caller == c && s.calls[k].stage == Cleared(to)
      modifies this`artifacts
      ensures Valid() && Mem() == DoGrant(s, k).memory
      ensures match r
              case Ok(rec) =>
                k in DoGrant(s, k).calls && DoGrant(s, k).calls[k].stage == Recorded(rec)
                && Absorbed(Mem().store, rec)
              case Err(e) =>
                k in DoGrant(s, k).wasted && Mem() == old(Mem())
                && e == (if id in artifacts then Forbidden else NotFound(id))
    {
      if id !in artifacts { return Err(NotFound(id)); }
      var a := artifacts[id];
      if !CanReadArtifact(t, c, a) { return Err(Forbidden); }
      artifacts := artifacts[id := a.(grants := a.grants + {to})];
      r := Ok(GrantRec(id, to, c.id));
    }

    /**
     The listing does not depend on the iteration order. A scope the caller may not use is
     reported only if the store holds some message: on an empty store every scope answers.
     */
    method ListMessages(t: Tree, c: Caller, scope: string, order: seq<Id>) returns (r: Outcome<seq<Stamped<Message>>>)
      requires Valid() && Visits(order, messages)
      ensures r.Err? <==> Refuses(c, scope) && messages != map[]
      ensures r.Err? ==> r.error == if KnownScope(scope) then Forbidden else InvalidScope(scope)
      ensures r.Ok? ==> Keyed(Shown(t, c, scope, messages)) && r.value == Listing(Shown(t, c, scope, messages))
    {
      var out: seq<Stamped<Message>> := [];
      var kept: seq<Id> := [];
      ghost var want := Shown(t, c, scope, messages);
      for i := 0 to |order|
        invariant i > 0 ==> !Refuses(c, scope)
        invariant |out| == |kept| && forall j :: 0 <= j < |kept| ==> kept[j] in want && out[j] == want[kept[j]]
        invariant forall j, l :: 0 <= j < l < |kept| ==> kept[j] != kept[l]
        invariant forall id :: id in kept <==> id in order[..i] && id in want
      {
        assert order[..i + 1] == order[..i] + [order[i]];
        var m := messages[order[i]];
        if !KnownScope(scope) { return Err(InvalidScope(scope)); }
        if scope == "all" && c.role != Role.Lead { return Err(Forbidden); }
        if InScope(t, c, scope, m) {
          assert order[i] !in order[..i];
          out := out + [Brief(m)];
          kept := kept + [order[i]];
        }
      }
      assert order[..|order|] == order;
      assert messages != map[] ==> |order| > 0 by {
        if messages != map[] { var id :| id in messages; assert id in order; }
      }
      SortedVisitIsListing(kept, want, out);
      ListingUnique(Sort(out), want);
      return Ok(Sort(out));
    }
  }

  lemma {:induction false} NothingListed()
    ensures Keyed<Message>(map[]) && Listing<Message>(map[]) == []
  {
    assert IsListing<Message>([], map[]);
    ListingUnique<Message>([], map[]);
  }

  lemma {:induction false} OneMessageReplayed(lines: seq<Option<Record>>)
    requires lines == [Some(SendRec(MAIL))]
    ensures Replay(EMPTY, Parsed(lines)).store.messages == map["m" := MAIL]
  {
    assert lines[..0] == [] && Parsed(lines[..0]) == [];
    assert Parsed(lines) == [] + [SendRec(MAIL)];
    ReplaySnoc(EMPTY, [], SendRec(MAIL));
  }

  /** A worker asks an empty store for every message, and is answered with none. */
  method WorkerListsAllOfNone(t: Tree) returns (r: Outcome<seq<Stamped<Message>>>)
    ensures r == Ok([])
  {
    var store := new CommunicationStore([]);
    assert Parsed([]) == [] && store.messages == map[];
    r := store.ListMessages(t, Caller("w", Worker), "all", []);
    assert Shown(t, Caller("w", Worker), "all", store.messages) == map[];
    NothingListed();
  }

  /** It asks a store that holds one message, and is refused. */
  method WorkerListsAllOfOne(t: Tree) returns (r: Outcome<seq<Stamped<Message>>>)
    ensures r == Err(Forbidden)
  {
    var lines := [Some(SendRec(MAIL))];
    var store := new CommunicationStore(lines);
    OneMessageReplayed(lines);
    assert "m" in store.messages;
    r := store.ListMessages(t, Caller("w", Worker), "all", ["m"]);
  }

  // ---- The order of two appends -----------------------------------------------------------

  const ROOT := Config("lead", x => if x == "lead" then Role.Lead else Worker, true, 100, 100, 1)

  const MAIL := Message("m", "lead", "lead", "", [], [], 0, {})

  /** The root lead sends to itself and acks, both in memory before either record is appended. */
  const OVERTAKEN: seq<Event> := [
    Begin("lead", SendOp("self", "", [], [])), Resolve(0), CommitSend(0, "m", 0),
    Begin("lead", AckOp("m")), CommitAck(1), AppendLine(1, Full), AppendLine(0, Full)]

  function Prefix(n: nat): State
    requires n <= 7
  {
    Exec(ROOT, OVERTAKEN[..n])
  }

  lemma {:induction false} PrefixStep(n: nat)
    requires n < 7
    ensures Prefix(n + 1) == Step(ROOT, Prefix(n), OVERTAKEN[n])
  {
    assert OVERTAKEN[..n + 1][..n] == OVERTAKEN[..n];
  }

  const ME := Caller("lead", Role.Lead)

  const SENDING := SendOp("self", "", [], [])

  /** `s` has these calls and messages, and nothing in its journal. */
  ghost predicate Looks(s: State, calls: map<nat, Call>, messages: map<Id, Message>) {
    && s.tree == NewTree("lead") && s.calls == calls && s.next == |calls| && s.memory.store == Store(messages, map[])
    && s.journal == [] && s.epoch.from == 0 && (messages == map[] ==> s.used == {})
  }

  lemma {:induction false} Started()
    ensures Looks(Prefix(1), map[0 := Call(ME, SENDING, Noted)], map[])
  {
    PrefixStep(0);
    assert Prefix(0) == Init(ROOT);
  }

  lemma {:induction false} Resolved()
    ensures Looks(Prefix(2), map[0 := Call(ME, SENDING, Cleared("lead"))], map[])
  {
    Started();
    PrefixStep(1);
    assert ResolveRecipient(NewTree("lead"), ME, "self") == Some("lead");
  }

  lemma {:induction false} SentInMemory()
    ensures Looks(Prefix(3), map[0 := Call(ME, SENDING, Recorded(SendRec(MAIL)))], map["m" := MAIL])
  {
    Resolved();
    PrefixStep(2);
  }

  lemma {:induction false} AckStarted()
    ensures Looks(Prefix(4), map[0 := Call(ME, SENDING, Recorded(SendRec(MAIL))), 1 := Call(ME, AckOp("m"), Noted)],
                  map["m" := MAIL])
  {
    SentInMemory();
    PrefixStep(3);
  }

  lemma {:induction false} AckedInMemory()
    ensures Looks(Prefix(5),
                  map[0 := Call(ME, SENDING, Recorded(SendRec(MAIL))),
                      1 := Call(ME, AckOp("m"), Recorded(AckRec("m", "lead")))],
                  map["m" := MAIL.(ackedBy := {"lead"})])
  {
    AckStarted();
    PrefixStep(4);
  }

  lemma {:induction false} BothAppended()
    ensures var s := Prefix(7);
            && s.calls == map[] && s.memory.store.messages == map["m" := MAIL.(ackedBy := {"lead"})]
            && s.memory.store.artifacts == map[]
            && s.journal == [Entry(AckRec("m", "lead"), Full), Entry(SendRec(MAIL), Full)] && s.epoch.from == 0
  {
    AckedInMemory();
    PrefixStep(5);
    PrefixStep(6);
  }

  /** A replay that reads the ack first drops it. */
  lemma {:induction false} AckReadFirst()
    ensures Replay(EMPTY, [AckRec("m", "lead"), SendRec(MAIL)]).store == Store(map["m" := MAIL], map[])
  {
    var send, ack := SendRec(MAIL), AckRec("m", "lead");
    assert [ack, send] == [] + [ack] + [send];
    ReplaySnoc(EMPTY, [], ack);
    ReplaySnoc(EMPTY, [] + [ack], send);
  }

  lemma {:induction false} WholePair(a: Record, b: Record)
    ensures Recovered([Entry(a, Full), Entry(b, Full)]) == [a, b]
  {
    var x, y := Entry(a, Full), Entry(b, Full);
    assert Clean<Record>([]) && Recovered<Record>([]) == [];
    CleanGrowth([], x);
    CleanGrowth([] + [x], y);
    assert [] + [x] + [y] == [x, y];
  }

  /**
   The ack's record overtakes the send's: nothing is pending and every append was whole, yet a
   resumed process has the message without its ack.
   */
  lemma {:induction false} OvertakingAckIsLost()
    ensures var s := Exec(ROOT, OVERTAKEN);
            && PlaneTheorems.Settled(s) && Unharmed(s)
            && s.memory.store == Store(map["m" := MAIL.(ackedBy := {"lead"})], map[])
            && Rebuilt(s).store == Store(map["m" := MAIL], map[])
  {
    BothAppended();
    assert OVERTAKEN[..7] == OVERTAKEN;
    WholePair(AckRec("m", "lead"), SendRec(MAIL));
    AckReadFirst();
    assert Exec(ROOT, OVERTAKEN).journal[..0] == [];
  }

  // ---- A put whose record is lost -----------------------------------------------------------

  const STORING := PutOp("", None, Some([]))

  /** The root lead puts an artifact; the append fails and its error is swallowed. */
  const UNRECORDED: seq<Event> :=
    [Begin("lead", STORING), WriteFile(0, "a", Stored), CommitPut(0, 0), AppendLine(0, Nothing)]

  const KEPT := Artifact("a", "lead", "", None, 0, 0, {})

  function Put(n: nat): State
    requires n <= 4
  {
    Exec(ROOT, UNRECORDED[..n])
  }

  lemma {:induction false} PutStep(n: nat)
    requires n < 4
    ensures Put(n + 1) == Step(ROOT, Put(n), UNRECORDED[n])
  {
    assert UNRECORDED[..n + 1][..n] == UNRECORDED[..n];
  }

  /** `s` has these calls, artifacts and files, and nothing in its journal. */
  ghost predicate Stores(s: State, calls: map<nat, Call>, artifacts: map<Id, Artifact>, files: map<Id, seq<byte>>) {
    && s.calls == calls && s.wasted == map[] && s.next == |calls| && s.memory.store == Store(map[], artifacts)
    && s.disk.files == files && Strays(s.disk) == {} && s.journal == [] && (files == map[] ==> s.used == {})
  }

  lemma {:induction false} PutStarted()
    ensures Stores(Put(1), map[0 := Call(ME, STORING, Noted)], map[], map[])
  {
    PutStep(0);
    assert Put(0) == Init(ROOT);
  }

  lemma {:induction false} PutStored()
    ensures Stores(Put(2), map[0 := Call(ME, STORING, Written("a"))], map[], map["a" := []])
  {
    PutStarted();
    PutStep(1);
  }

  lemma {:induction false} PutInMemory()
    ensures Stores(Put(3), map[0 := Call(ME, STORING, Recorded(PutRec(KEPT)))], map["a" := KEPT], map["a" := []])
  {
    PutStored();
    PutStep(2);
    assert OwnedBy(Put(2).memory.store.artifacts, "lead") == {};
  }

  lemma {:induction false} PutReturned()
    ensures var s := Put(4);
            && s.calls == map[] && s.wasted == map[] && s.memory.store == Store(map[], map["a" := KEPT])
            && s.disk.files == map["a" := []] && Strays(s.disk) == {}
            && s.journal == [Entry(PutRec(KEPT), Nothing)]
  {
    PutInMemory();
    PutStep(3);
  }

  lemma {:induction false} NothingReadBack(r: Record)
    ensures Recovered([Entry(r, Nothing)]) == []
  {
    var es := [Entry(r, Nothing)];
    assert es[1..] == [] && NextTail(Blank, es[0]) == Blank && Framing.Settled(Blank, es[0]) == [];
    assert Terminated<Record>(Blank, []) == [] && TailAfter<Record>(Blank, []) == Blank;
    assert Survivors(Blank, es) == [];
  }

  /**
   The put has returned Ok, no call is in progress, and a restart finds the file without an entry, although
   no crash met any step of the put.
   */
  lemma {:induction false} UnrecordedPutIsLost()
    ensures var s := Exec(ROOT, UNRECORDED);
            && s.calls == map[] && s.wasted == map[] && s.memory.store.artifacts == map["a" := KEPT]
    ensures var s := Exec(ROOT, UNRECORDED + [Restart]);
            && s.memory.store.artifacts == map[] && s.disk.files == map["a" := []]
            && s.disk.lost == {"a"} && s.disk.interrupted == {}
    ensures StrayAt(ROOT, UNRECORDED + [Restart], 4, LostRecord, "a")
  {
    PutReturned();
    NothingReadBack(PutRec(KEPT));
    var evs := UNRECORDED + [Restart];
    assert UNRECORDED[..4] == UNRECORDED && evs[..4] == UNRECORDED && evs[4] == Restart;
    assert Replay(EMPTY, []).store == Store(map[], map[]);
    var s := Exec(ROOT, UNRECORDED);
    assert InFlight(s.calls) == {} && OwedPuts(s.calls) == {};
    assert s.memory.store.artifacts.Keys == {"a"} && Replay(EMPTY, Recovered(s.journal)).store.artifacts.Keys == {};
    assert Exec(ROOT, evs) == DoRestart(ROOT, s);
  }
}
