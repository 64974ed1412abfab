/** The records of the communication journal and the memory rebuilt from them. */
module Journal {
  import opened Options
  import opened Topology
  import opened Utf8

  datatype Message = Message(id: Id, from: Id, to: Id, subject: string, body: seq<byte>,
                             refs: seq<Id>, createdAt: int, ackedBy: set<Id>)

  datatype Artifact = Artifact(id: Id, owner: Id, name: string, mime: Option<string>,
                               size: nat, createdAt: int, grants: set<Id>)

  datatype Record =
    | SendRec(message: Message)
    | AckRec(messageId: Id, who: Id)
    | PutRec(artifact: Artifact)
    | GrantRec(artifactId: Id, to: Id, who: Id)

  datatype Store = Store(messages: map<Id, Message>, artifacts: map<Id, Artifact>)

  datatype Tally = Tally(messageOps: nat, artifactOps: nat)

  type Activity = map<Id, Tally>

  datatype Memory = Memory(store: Store, activity: Activity)

  const EMPTY: Memory := Memory(Store(map[], map[]), map[])

  // ---- Applying a record ------------------------------------------------------

  function TallyOf(act: Activity, a: Id): Tally { if a in act then act[a] else Tally(0, 0) }

  /** `note_message_op`: the empty actor id is not counted. */
  function NoteMessage(act: Activity, a: Id): Activity {
    if a == "" then act else act[a := TallyOf(act, a).(messageOps := TallyOf(act, a).messageOps + 1)]
  }

  function NoteArtifact(act: Activity, a: Id): Activity {
    if a == "" then act else act[a := TallyOf(act, a).(artifactOps := TallyOf(act, a).artifactOps + 1)]
  }

  function WithAck(st: Store, id: Id, who: Id): Store {
    if id in st.messages
    then st.(messages := st.messages[id := st.messages[id].(ackedBy := st.messages[id].ackedBy + {who})])
    else st
  }

  function WithGrant(st: Store, id: Id, to: Id): Store {
    if id in st.artifacts
    then st.(artifacts := st.artifacts[id := st.artifacts[id].(grants := st.artifacts[id].grants + {to})])
    else st
  }

  function StoreAfter(st: Store, r: Record): Store {
    match r
    case SendRec(m) => st.(messages := st.messages[m.id := m])
    case AckRec(id, who) => WithAck(st, id, who)
    case PutRec(a) => st.(artifacts := st.artifacts[a.id := a])
    case GrantRec(id, to, _) => WithGrant(st, id, to)
  }

  /** The actor whose operation a record stands for. */
  function Author(r: Record): Id {
    match r
    case SendRec(m) => m.from
    case AckRec(_, who) => who
    case PutRec(a) => a.owner
    case GrantRec(_, _, who) => who
  }

  predicate OnMailbox(r: Record) { r.SendRec? || r.AckRec? }

  function NotedAfter(act: Activity, r: Record): Activity {
    if OnMailbox(r) then NoteMessage(act, Author(r)) else NoteArtifact(act, Author(r))
  }

  function Apply(m: Memory, r: Record): Memory {
    Memory(StoreAfter(m.store, r), NotedAfter(m.activity, r))
  }

  function Replay(m: Memory, rs: seq<Record>): Memory {
    if rs == [] then m else Apply(Replay(m, rs[..|rs| - 1]), rs[|rs| - 1])
  }

  /** The reader's loop over the parsed lines of the journal. */
  method ReplayJournal(lines: seq<Option<Record>>) returns (m: Memory)
    ensures m == Replay(EMPTY, Parsed(lines))
  {
    m := EMPTY;
    var i := 0;
    while i < |lines|
      invariant 0 <= i <= |lines|
      invariant m == Replay(EMPTY, Parsed(lines[..i]))
    {
      assert lines[..i + 1][..i] == lines[..i];
      assert Parsed(lines[..i + 1]) ==
        Parsed(lines[..i]) + (if lines[i].Some? then [lines[i].value] else []);
      if lines[i].Some? {
        ReplaySnoc(EMPTY, Parsed(lines[..i]), lines[i].value);
        m := Apply(m, lines[i].value);
      } else {
        assert Parsed(lines[..i + 1]) == Parsed(lines[..i]);
      }
      i := i + 1;
    }
    assert lines[..i] == lines;
  }

  /** The records of the lines that parsed, in order. */
  function Parsed(lines: seq<Option<Record>>): seq<Record> {
    if lines == [] then []
    else Parsed(lines[..|lines| - 1]) +
         (if lines[|lines| - 1].Some? then [lines[|lines| - 1].value] else [])
  }

  lemma {:induction false} ReplaySnoc(m: Memory, rs: seq<Record>, r: Record)
    ensures Replay(m, rs + [r]) == Apply(Replay(m, rs), r)
  {
    assert (rs + [r])[..|rs|] == rs;
  }

  lemma {:induction false} ReplayConcat(m: Memory, a: seq<Record>, b: seq<Record>)
    ensures Replay(m, a + b) == Replay(Replay(m, a), b)
    decreases |b|
  {
    if b == [] {
      assert a + b == a;
    } else {
      var front := b[..|b| - 1];
      ReplayConcat(m, a, front);
      assert a + b == (a + front) + [b[|b| - 1]];
      ReplaySnoc(m, a + front, b[|b| - 1]);
    }
  }

  // ---- Order between stores -----------------------------------------------------

  predicate SameMessage(a: Message, b: Message) { a.(ackedBy := {}) == b.(ackedBy := {}) }

  predicate SameArtifact(a: Artifact, b: Artifact) { a.(grants := {}) == b.(grants := {}) }

  /** Everything in `a` is in `b`: messages, acks, artifacts and grants. */
  ghost predicate Below(a: Store, b: Store) {
    && (forall id :: id in a.messages ==>
          id in b.messages && SameMessage(a.messages[id], b.messages[id])
            && a.messages[id].ackedBy <= b.messages[id].ackedBy)
    && (forall id :: id in a.artifacts ==>
          id in b.artifacts && SameArtifact(a.artifacts[id], b.artifacts[id])
            && a.artifacts[id].grants <= b.artifacts[id].grants)
  }

  /** The effect of `r` is already in `st`. */
  predicate Absorbed(st: Store, r: Record) {
    match r
    case SendRec(m) => m.id in st.messages && SameMessage(m, st.messages[m.id])
      && m.ackedBy <= st.messages[m.id].ackedBy
    case AckRec(id, who) => id in st.messages && who in st.messages[id].ackedBy
    case PutRec(a) => a.id in st.artifacts && SameArtifact(a, st.artifacts[a.id])
      && a.grants <= st.artifacts[a.id].grants
    case GrantRec(id, to, _) => id in st.artifacts && to in st.artifacts[id].grants
  }

  lemma {:induction false} BelowApply(a: Store, b: Store, r: Record)
    requires Below(a, b) && Absorbed(b, r)
    ensures Below(StoreAfter(a, r), b)
  {
  }

  lemma {:induction false} AbsorbedUp(a: Store, b: Store, r: Record)
    requires Below(a, b) && Absorbed(a, r)
    ensures Absorbed(b, r)
  {
  }

  lemma {:induction false} BelowTrans(a: Store, b: Store, c: Store)
    requires Below(a, b) && Below(b, c)
    ensures Below(a, c)
  {
  }

  /** `r` creates a message or artifact id that `st` does not have, or acts on an existing one. */
  predicate Fresh(st: Store, r: Record) {
    (r.SendRec? ==> r.message.id !in st.messages) && (r.PutRec? ==> r.artifact.id !in st.artifacts)
  }

  lemma {:induction false} FreshGrows(st: Store, r: Record)
    requires Fresh(st, r)
    ensures Below(st, StoreAfter(st, r))
  {
  }

  // ---- Unique ids ------------------------------------------------------------

  predicate SameNew(a: Record, b: Record) {
    || (a.SendRec? && b.SendRec? && a.message.id == b.message.id)
    || (a.PutRec? && b.PutRec? && a.artifact.id == b.artifact.id)
  }

  /** No id is created twice. */
  predicate Distinct(rs: seq<Record>) {
    forall i, j :: 0 <= i < j < |rs| ==> !SameNew(rs[i], rs[j])
  }

  /** The ids after a replay are those before it and those it created. */
  lemma {:induction false} ReplayKeys(m: Memory, rs: seq<Record>)
    ensures forall id :: id in Replay(m, rs).store.messages <==>
              id in m.store.messages || exists i :: 0 <= i < |rs| && Sends(rs[i], id)
    ensures forall id :: id in Replay(m, rs).store.artifacts <==>
              id in m.store.artifacts || exists i :: 0 <= i < |rs| && Puts(rs[i], id)
    decreases |rs|
  {
    if rs != [] {
      var n := |rs| - 1;
      var front := rs[..n];
      ReplayKeys(m, front);
      var before := Replay(m, front).store;
      forall id
        ensures id in Replay(m, rs).store.messages
                <==> id in m.store.messages || exists i :: 0 <= i < |rs| && Sends(rs[i], id)
        ensures id in Replay(m, rs).store.artifacts
                <==> id in m.store.artifacts || exists i :: 0 <= i < |rs| && Puts(rs[i], id)
      {
        if id in before.messages && id !in m.store.messages {
          var i :| 0 <= i < |front| && Sends(front[i], id);
          assert Sends(rs[i], id);
        }
        if id in before.artifacts && id !in m.store.artifacts {
          var i :| 0 <= i < |front| && Puts(front[i], id);
          assert Puts(rs[i], id);
        }
        if Sends(rs[n], id) || Puts(rs[n], id) {
          assert id in Replay(m, rs).store.messages || id in Replay(m, rs).store.artifacts;
        }
        if i :| 0 <= i < |rs| && Sends(rs[i], id) && i < n { assert Sends(front[i], id); }
        if i :| 0 <= i < |rs| && Puts(rs[i], id) && i < n { assert Puts(front[i], id); }
      }
    }
  }

  predicate Sends(r: Record, id: Id) { r.SendRec? && r.message.id == id }

  predicate Puts(r: Record, id: Id) { r.PutRec? && r.artifact.id == id }

  /** Replaying fewer records of a journal never shows more. */
  lemma {:induction false} PrefixBelow(rs: seq<Record>, k: nat)
    requires Distinct(rs) && k <= |rs|
    ensures Below(Replay(EMPTY, rs[..k]).store, Replay(EMPTY, rs).store)
    decreases |rs|
  {
    if k == |rs| {
      assert rs[..k] == rs;
    } else {
      var n := |rs| - 1;
      var front := rs[..n];
      PrefixBelow(front, k);
      assert front[..k] == rs[..k];
      var before := Replay(EMPTY, front).store;
      FreshOver(EMPTY, rs);
      FreshGrows(before, rs[n]);
      BelowTrans(Replay(EMPTY, rs[..k]).store, before, Replay(EMPTY, rs).store);
    }
  }

  // ---- Which acks and grants a replay holds ---------------------------------------

  /** New messages and artifacts start without acks and grants. */
  predicate Plain(r: Record) {
    (r.SendRec? ==> r.message.ackedBy == {}) && (r.PutRec? ==> r.artifact.grants == {})
  }

  /** The records create ids once each, none of them in `m`. */
  ghost predicate NewOver(m: Memory, rs: seq<Record>) {
    && Distinct(rs)
    && (forall i :: 0 <= i < |rs| ==> Fresh(m.store, rs[i]) && Plain(rs[i]))
  }

  predicate KnownBefore(m: Memory, rs: seq<Record>, j: nat)
    requires j < |rs|
  {
    match rs[j]
    case AckRec(id, _) => id in m.store.messages || exists i :: 0 <= i < j && Sends(rs[i], id)
    case GrantRec(id, _, _) => id in m.store.artifacts || exists i :: 0 <= i < j && Puts(rs[i], id)
    case _ => true
  }

  /** Some copy of the ack (or of the same grant) comes after the record it acts on. */
  ghost predicate Effective(m: Memory, rs: seq<Record>, r: Record) {
    exists j :: 0 <= j < |rs| && SameAct(rs[j], r) && KnownBefore(m, rs, j)
  }

  predicate SameAct(a: Record, b: Record) {
    a == b || (a.GrantRec? && b.GrantRec? && a.artifactId == b.artifactId && a.to == b.to)
  }

  predicate Acting(r: Record) { r.AckRec? || r.GrantRec? }

  ghost predicate OnTime(m: Memory, rs: seq<Record>) {
    forall j :: 0 <= j < |rs| && Acting(rs[j]) ==> Effective(m, rs, rs[j])
  }

  /** An act was held before the replay. */
  predicate HeldBy(st: Store, r: Record) { Acting(r) && Absorbed(st, r) }

  /** After a replay, an ack or grant is held exactly when it was before or is effective. */
  lemma {:induction false} HeldIffEffective(m: Memory, rs: seq<Record>, r: Record)
    requires NewOver(m, rs) && Acting(r)
    ensures HeldBy(Replay(m, rs).store, r) <==> HeldBy(m.store, r) || Effective(m, rs, r)
    decreases |rs|
  {
    if rs != [] {
      var n := |rs| - 1;
      HeldIffEffective(m, rs[..n], r);
      FreshOver(m, rs);
      KnownInFront(m, rs);
      HeldSnoc(Replay(m, rs[..n]).store, rs[n], r);
      EffectiveSnoc(m, rs, r);
    }
  }

  predicate Reaches(st: Store, r: Record) {
    match r
    case AckRec(id, _) => id in st.messages
    case GrantRec(id, _, _) => id in st.artifacts
    case _ => true
  }

  lemma {:induction false} HeldSnoc(st: Store, last: Record, r: Record)
    requires Fresh(st, last) && Plain(last) && Acting(r)
    ensures HeldBy(StoreAfter(st, last), r) <==> HeldBy(st, r) || (SameAct(last, r) && Reaches(st, last))
  {
  }

  lemma {:induction false} EffectiveSnoc(m: Memory, rs: seq<Record>, r: Record)
    requires rs != []
    ensures var n := |rs| - 1;
            Effective(m, rs, r) <==> Effective(m, rs[..n], r) || (SameAct(rs[n], r) && KnownBefore(m, rs, n))
  {
    var n := |rs| - 1;
    var front := rs[..n];
    if Effective(m, front, r) {
      var j :| 0 <= j < |front| && SameAct(front[j], r) && KnownBefore(m, front, j);
      KnownPrefix(m, rs, j);
    }
    if Effective(m, rs, r) {
      var j :| 0 <= j < |rs| && SameAct(rs[j], r) && KnownBefore(m, rs, j);
      if j < n { KnownPrefix(m, rs, j); assert SameAct(front[j], r); }
    }
  }

  lemma {:induction false} KnownPrefix(m: Memory, rs: seq<Record>, j: nat)
    requires j < |rs| - 1
    ensures KnownBefore(m, rs[..|rs| - 1], j) <==> KnownBefore(m, rs, j)
  {
    var front := rs[..|rs| - 1];
    assert forall i :: 0 <= i <= j ==> front[i] == rs[i];
  }

  lemma {:induction false} KnownInFront(m: Memory, rs: seq<Record>)
    requires rs != []
    ensures var n := |rs| - 1;
            var before := Replay(m, rs[..n]).store;
            KnownBefore(m, rs, n) <==> match rs[n]
                                       case AckRec(id, _) => id in before.messages
                                       case GrantRec(id, _, _) => id in before.artifacts
                                       case _ => true
  {
    var n := |rs| - 1;
    var front := rs[..n];
    ReplayKeys(m, front);
    assert forall i :: 0 <= i < n ==> front[i] == rs[i];
    if rs[n].AckRec? && rs[n].messageId in Replay(m, front).store.messages && rs[n].messageId !in m.store.messages {
      var i :| 0 <= i < |front| && Sends(front[i], rs[n].messageId);
      assert Sends(rs[i], rs[n].messageId);
    }
    if rs[n].GrantRec? && rs[n].artifactId in Replay(m, front).store.artifacts
      && rs[n].artifactId !in m.store.artifacts {
      var i :| 0 <= i < |front| && Puts(front[i], rs[n].artifactId);
      assert Puts(rs[i], rs[n].artifactId);
    }
  }

  lemma {:induction false} FreshOver(m: Memory, rs: seq<Record>)
    requires Distinct(rs) && rs != [] && Fresh(m.store, rs[|rs| - 1])
    ensures Fresh(Replay(m, rs[..|rs| - 1]).store, rs[|rs| - 1])
  {
    var n := |rs| - 1;
    var front := rs[..n];
    ReplayKeys(m, front);
    assert forall i :: 0 <= i < n ==> !SameNew(rs[i], rs[n]);
    assert forall i :: 0 <= i < n ==> front[i] == rs[i];
  }

  /** Everything but acks and grants is fixed by the base and by the creating record. */
  lemma {:induction false} ReplayCores(m: Memory, rs: seq<Record>)
    requires NewOver(m, rs)
    ensures var st := Replay(m, rs).store;
            && (forall id :: id in m.store.messages ==>
                id in st.messages && SameMessage(st.messages[id], m.store.messages[id]))
            && (forall id :: id in m.store.artifacts ==>
                id in st.artifacts && SameArtifact(st.artifacts[id], m.store.artifacts[id]))
            && (forall i :: 0 <= i < |rs| && rs[i].SendRec? ==>
                  rs[i].message.id in st.messages && SameMessage(st.messages[rs[i].message.id], rs[i].message))
            && (forall i :: 0 <= i < |rs| && rs[i].PutRec? ==>
                  rs[i].artifact.id in st.artifacts && SameArtifact(st.artifacts[rs[i].artifact.id], rs[i].artifact))
    decreases |rs|
  {
    if rs != [] {
      var front := rs[..|rs| - 1];
      ReplayCores(m, front);
      FreshOver(m, rs);
      FreshGrows(Replay(m, front).store, rs[|rs| - 1]);
      assert forall i :: 0 <= i < |front| ==> rs[i] == front[i];
    }
  }

  /**
   Two orders of the same records, the first one (the order of the memory writes) with
   every act on time: they rebuild the same store exactly when the second is on time too.
   */
  lemma {:induction false} SameStoreIffOnTime(m: Memory, log: seq<Record>, rs: seq<Record>)
    requires NewOver(m, log) && NewOver(m, rs) && multiset(log) == multiset(rs)
    requires OnTime(m, log)
    ensures Replay(m, rs).store == Replay(m, log).store <==>
            forall j :: 0 <= j < |rs| && Acting(rs[j]) ==> HeldBy(m.store, rs[j]) || Effective(m, rs, rs[j])
  {
    var a, b := Replay(m, rs).store, Replay(m, log).store;
    assert forall r :: r in multiset(log) <==> r in log;
    assert forall r :: r in multiset(rs) <==> r in rs;
    forall j | 0 <= j < |rs| && Acting(rs[j]) ensures HeldBy(b, rs[j]) {
      assert rs[j] in log;
      var k :| 0 <= k < |log| && log[k] == rs[j];
      assert Effective(m, log, log[k]);
      HeldIffEffective(m, log, rs[j]);
    }
    forall j | 0 <= j < |rs| && Acting(rs[j])
      ensures HeldBy(a, rs[j]) <==> HeldBy(m.store, rs[j]) || Effective(m, rs, rs[j])
    {
      HeldIffEffective(m, rs, rs[j]);
    }
    if forall j :: 0 <= j < |rs| && Acting(rs[j]) ==> HeldBy(a, rs[j]) { SameStore(m, log, rs); }
  }

  lemma {:induction false} SameStore(m: Memory, log: seq<Record>, rs: seq<Record>)
    requires NewOver(m, log) && NewOver(m, rs) && multiset(log) == multiset(rs)
    requires OnTime(m, log)
    requires forall j :: 0 <= j < |rs| && Acting(rs[j]) ==> HeldBy(Replay(m, rs).store, rs[j])
    ensures Replay(m, rs).store == Replay(m, log).store
  {
    var a, b := Replay(m, rs).store, Replay(m, log).store;
    SameKeys(m, log, rs);
    forall id | id in a.messages ensures a.messages[id] == b.messages[id] {
      SameCoreOf(m, log, rs, id);
      forall who ensures who in a.messages[id].ackedBy <==> who in b.messages[id].ackedBy {
        SameActs(m, log, rs, AckRec(id, who));
      }
      assert a.messages[id].ackedBy == b.messages[id].ackedBy;
    }
    forall id | id in a.artifacts ensures a.artifacts[id] == b.artifacts[id] {
      SameCoreOf(m, log, rs, id);
      forall to ensures to in a.artifacts[id].grants <==> to in b.artifacts[id].grants {
        SameActs(m, log, rs, GrantRec(id, to, ""));
      }
      assert a.artifacts[id].grants == b.artifacts[id].grants;
    }
    assert a.messages == b.messages && a.artifacts == b.artifacts;
  }

  lemma {:induction false} SameKeys(m: Memory, log: seq<Record>, rs: seq<Record>)
    requires multiset(log) == multiset(rs)
    ensures Replay(m, rs).store.messages.Keys == Replay(m, log).store.messages.Keys
    ensures Replay(m, rs).store.artifacts.Keys == Replay(m, log).store.artifacts.Keys
  {
    ReplayKeys(m, log);
    ReplayKeys(m, rs);
    forall i | 0 <= i < |rs| ensures rs[i] in log { assert rs[i] in multiset(rs); }
    forall i | 0 <= i < |log| ensures log[i] in rs { assert log[i] in multiset(log); }
  }

  lemma {:induction false} SameCoreOf(m: Memory, log: seq<Record>, rs: seq<Record>, id: Id)
    requires NewOver(m, log) && NewOver(m, rs) && multiset(log) == multiset(rs)
    ensures var a, b := Replay(m, rs).store, Replay(m, log).store;
            && (id in a.messages ==> id in b.messages && SameMessage(a.messages[id], b.messages[id]))
            && (id in a.artifacts ==> id in b.artifacts && SameArtifact(a.artifacts[id], b.artifacts[id]))
  {
    SameKeys(m, log, rs);
    ReplayKeys(m, rs);
    ReplayCores(m, log);
    ReplayCores(m, rs);
    var a := Replay(m, rs).store;
    if id in a.messages && id !in m.store.messages {
      var i :| 0 <= i < |rs| && Sends(rs[i], id);
      assert rs[i] in multiset(log);
      var k :| 0 <= k < |log| && log[k] == rs[i];
    }
    if id in a.artifacts && id !in m.store.artifacts {
      var i :| 0 <= i < |rs| && Puts(rs[i], id);
      assert rs[i] in multiset(log);
      var k :| 0 <= k < |log| && log[k] == rs[i];
    }
  }

  lemma {:induction false} SameActs(m: Memory, log: seq<Record>, rs: seq<Record>, r: Record)
    requires NewOver(m, log) && NewOver(m, rs) && multiset(log) == multiset(rs) && Acting(r)
    requires forall j :: 0 <= j < |rs| && Acting(rs[j]) ==> HeldBy(Replay(m, rs).store, rs[j])
    requires OnTime(m, log)
    ensures HeldBy(Replay(m, rs).store, r) <==> HeldBy(Replay(m, log).store, r)
  {
    HeldIffEffective(m, rs, r);
    HeldIffEffective(m, log, r);
    if Effective(m, rs, r) {
      var j :| 0 <= j < |rs| && SameAct(rs[j], r) && KnownBefore(m, rs, j);
      assert rs[j] in multiset(log);
      var k :| 0 <= k < |log| && log[k] == rs[j];
      assert Effective(m, log, log[k]);
      var k' :| 0 <= k' < |log| && SameAct(log[k'], log[k]) && KnownBefore(m, log, k');
      assert SameAct(log[k'], r);
    }
    if Effective(m, log, r) {
      var k :| 0 <= k < |log| && SameAct(log[k], r) && KnownBefore(m, log, k);
      assert log[k] in multiset(rs);
      var j :| 0 <= j < |rs| && rs[j] == log[k];
      assert HeldBy(Replay(m, rs).store, rs[j]);
    }
  }
}
