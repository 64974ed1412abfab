/**
 The communication plane as a step system. A handler call counts itself, checks,
 writes memory under the store's lock, drops the lock, and then appends its record
 to the journal; any steps of other calls, of the dispatcher, or a crash may come
 between any two of these.
 */
module Plane {
  import opened Options
  import opened Utf8
  import opened Topology
  import opened Journal
  import opened Framing

  datatype Config = Config(lead: Id, roleOf: Id -> Role, enabled: bool, maxMessage: nat, maxArtifact: nat,
                           perActor: nat)

  /** Tool calls. Content that is not base64 decodes to `None`. */
  datatype Op =
    | SendOp(to: string, subject: string, body: seq<byte>, refs: seq<Id>)
    | AckOp(messageId: Id)
    | PutOp(name: string, mime: Option<string>, content: Option<seq<byte>>)
    | GrantOp(artifactId: Id, to: string)
    | MailQuery
    | ArtifactQuery

  predicate OfMailbox(op: Op) { op.SendOp? || op.AckOp? || op.MailQuery? }

  /** How far a call has come. */
  datatype Stage =
    | Noted
    | Cleared(to: Id)
    | Written(id: Id)
    | Refused(id: Id)
    | Recorded(rec: Record)

  datatype Call = Call(caller: Caller, op: Op, stage: Stage)

  /**
   `payload` remembers what each artifact id was given. The four sets say why a file is stray: its write failed,
   its unlink failed, a crash met its put before the record was appended, or the record was appended and lost.
   */
  datatype Disk = Disk(files: map<Id, seq<byte>>, payload: map<Id, seq<byte>>,
                       failed: set<Id>, kept: set<Id>, interrupted: set<Id>, lost: set<Id>)

  function Strays(d: Disk): set<Id> { d.failed + d.kept + d.interrupted + d.lost }

  /** Since the last start: journal length and memory at the start, and the memory writes since. */
  datatype Epoch = Epoch(from: nat, base: Memory, log: seq<Record>)

  datatype State = State(
    tree: Tree,
    home: map<Id, Id>,
    memory: Memory,
    calls: map<nat, Call>,
    wasted: map<nat, Call>,
    next: nat,
    journal: seq<Entry<Record>>,
    epoch: Epoch,
    used: set<Id>,
    disk: Disk)

  datatype FileWrite = Stored | Partial(bytes: nat) | NotCreated

  datatype Event =
    | Grow(step: TreeStep)
    | Begin(actor: Id, op: Op)
    | Answer(call: nat)
    | Resolve(call: nat)
    | CommitSend(call: nat, id: Id, now: int)
    | CommitAck(call: nat)
    | WriteFile(call: nat, id: Id, result: FileWrite)
    | CommitPut(call: nat, now: int)
    | Unlink(call: nat, ok: bool)
    | CommitGrant(call: nat)
    | AppendLine(call: nat, wrote: Wrote)
    | Restart

  function Init(cfg: Config): State {
    State(NewTree(cfg.lead), map[cfg.lead := cfg.lead], EMPTY, map[], map[], 0, [],
          Epoch(0, EMPTY, []), {}, Disk(map[], map[], {}, {}, {}, {}))
  }

  // ---- Access checks --------------------------------------------------------------

  predicate CanReadMessage(t: Tree, c: Caller, m: Message) {
    m.from == c.id || m.to == c.id || CanObserve(t, c, m.from) || CanObserve(t, c, m.to)
  }

  predicate CanReadArtifact(t: Tree, c: Caller, a: Artifact) {
    a.owner == c.id || c.id in a.grants || CanObserve(t, c, a.owner)
  }

  function OwnedBy(arts: map<Id, Artifact>, owner: Id): set<Id> {
    set id | id in arts && arts[id].owner == owner
  }

  // ---- Steps ------------------------------------------------------------------------

  /** A call ends without a journal record: a query, an error, or a refused put. */
  function Drop(s: State, k: nat): State
    requires k in s.calls
  {
    s.(calls := s.calls - {k}, wasted := s.wasted[k := s.calls[k]])
  }

  function At(s: State, k: nat, stage: Stage): State
    requires k in s.calls
  {
    s.(calls := s.calls[k := s.calls[k].(stage := stage)])
  }

  /** A memory write together with the record the call now owes the journal. */
  function Committed(s: State, k: nat, r: Record): State
    requires k in s.calls
  {
    At(s, k, Recorded(r)).(
      memory := s.memory.(store := StoreAfter(s.memory.store, r)),
      epoch := s.epoch.(log := s.epoch.log + [r]))
  }

  function DoBegin(cfg: Config, s: State, actor: Id, op: Op): State {
    var act := if OfMailbox(op) then NoteMessage(s.memory.activity, actor) else NoteArtifact(s.memory.activity, actor);
    s.(memory := s.memory.(activity := act),
       calls := s.calls[s.next := Call(Caller(actor, cfg.roleOf(actor)), op, Noted)],
       next := s.next + 1)
  }

  predicate Awaits(s: State, k: nat, noted: bool) {
    k in s.calls && (if noted then s.calls[k].stage.Noted? else s.calls[k].stage.Cleared?)
  }

  function DoResolve(cfg: Config, s: State, k: nat): State
    requires Awaits(s, k, true) && (s.calls[k].op.SendOp? || s.calls[k].op.GrantOp?)
  {
    var c := s.calls[k];
    var to := ResolveRecipient(s.tree, c.caller, c.op.to);
    if c.op.SendOp? && |c.op.body| > cfg.maxMessage then Drop(s, k)
    else if to.Some? && CanSend(s.tree, c.caller, to.value) then At(s, k, Cleared(to.value))
    else Drop(s, k)
  }

  function DoSend(s: State, k: nat, id: Id, now: int): State
    requires Awaits(s, k, false) && s.calls[k].op.SendOp?
  {
    var c := s.calls[k];
    var m := Message(id, c.caller.id, c.stage.to, c.op.subject, c.op.body, c.op.refs, now, {});
    Committed(s, k, SendRec(m)).(used := s.used + {id})
  }

  function DoAck(s: State, k: nat): State
    requires Awaits(s, k, true) && s.calls[k].op.AckOp?
  {
    var c := s.calls[k];
    var id := c.op.messageId;
    if id in s.memory.store.messages && CanReadMessage(s.tree, c.caller, s.memory.store.messages[id])
    then Committed(s, k, AckRec(id, c.caller.id))
    else Drop(s, k)
  }

  function DoWriteFile(cfg: Config, s: State, k: nat, id: Id, result: FileWrite): State
    requires Awaits(s, k, true) && s.calls[k].op.PutOp?
  {
    var content := s.calls[k].op.content;
    if content == None || |content.value| > cfg.maxArtifact then Drop(s, k)
    else
      match result
      case Stored =>
        At(s, k, Written(id)).(
          used := s.used + {id},
          disk := s.disk.(files := s.disk.files[id := content.value], payload := s.disk.payload[id := content.value]))
      case Partial(n) =>
        Drop(s, k).(
          used := s.used + {id},
          disk := (var written := content.value[..if n <= |content.value| then n else |content.value|];
                   s.disk.(files := s.disk.files[id := written], failed := s.disk.failed + {id})))
      case NotCreated => Drop(s, k)
  }

  function DoPut(cfg: Config, s: State, k: nat, now: int): State
    requires k in s.calls && s.calls[k].stage.Written? && s.calls[k].op.PutOp? && s.calls[k].op.content.Some?
  {
    var c := s.calls[k];
    var id := c.stage.id;
    if |OwnedBy(s.memory.store.artifacts, c.caller.id)| >= cfg.perActor then At(s, k, Refused(id))
    else Committed(s, k, PutRec(Artifact(id, c.caller.id, c.op.name, c.op.mime, |c.op.content.value|, now, {})))
  }

  function DoUnlink(s: State, k: nat, ok: bool): State
    requires k in s.calls && s.calls[k].stage.Refused?
  {
    var id := s.calls[k].stage.id;
    Drop(s, k).(disk := if ok then s.disk.(files := s.disk.files - {id}) else s.disk.(kept := s.disk.kept + {id}))
  }

  function DoGrant(s: State, k: nat): State
    requires Awaits(s, k, false) && s.calls[k].op.GrantOp?
  {
    var c := s.calls[k];
    var id := c.op.artifactId;
    if id in s.memory.store.artifacts && CanReadArtifact(s.tree, c.caller, s.memory.store.artifacts[id])
    then Committed(s, k, GrantRec(id, c.stage.to, c.caller.id))
    else Drop(s, k)
  }

  function DoAppend(s: State, k: nat, wrote: Wrote): State
    requires k in s.calls && s.calls[k].stage.Recorded?
  {
    s.(calls := s.calls - {k}, journal := s.journal + [Entry(s.calls[k].stage.rec, wrote)])
  }

  function FileOf(c: Call): set<Id> {
    if c.stage.Written? || c.stage.Refused? then {c.stage.id} else {}
  }

  function InFlight(calls: map<nat, Call>): set<Id> {
    set k, id | k in calls && id in FileOf(calls[k]) :: id
  }

  /** The artifact whose put record a call still owes the journal. */
  function PutOf(c: Call): set<Id> {
    if c.stage.Recorded? && c.stage.rec.PutRec? then {c.stage.rec.artifact.id} else {}
  }

  function OwedPuts(calls: map<nat, Call>): set<Id> {
    set k, id | k in calls && id in PutOf(calls[k]) :: id
  }

  /** The process dies and a resumed one rebuilds its memory from the journal. */
  function DoRestart(cfg: Config, s: State): State {
    var m := Replay(EMPTY, Recovered(s.journal));
    s.(tree := NewTree(cfg.lead),
       memory := m,
       calls := map[],
       wasted := map[],
       epoch := Epoch(|s.journal|, m, []),
       disk := s.disk.(
         interrupted := s.disk.interrupted + InFlight(s.calls) + OwedPuts(s.calls),
         lost := s.disk.lost + (s.memory.store.artifacts.Keys - m.store.artifacts.Keys - OwedPuts(s.calls))))
  }

  predicate Enabled(cfg: Config, s: State, e: Event) {
    match e
    case Grow(g) => TreeEnabled(s.tree, s.home, g) && (g.AddSublead? ==> cfg.roleOf(g.lead) == Sublead)
    case Begin(_, _) => cfg.enabled
    case Answer(k) => Awaits(s, k, true) && (s.calls[k].op.MailQuery? || s.calls[k].op.ArtifactQuery?)
    case Resolve(k) => Awaits(s, k, true) && (s.calls[k].op.SendOp? || s.calls[k].op.GrantOp?)
    case CommitSend(k, id, _) => Awaits(s, k, false) && s.calls[k].op.SendOp? && id !in s.used
    case CommitAck(k) => Awaits(s, k, true) && s.calls[k].op.AckOp?
    case WriteFile(k, id, _) => Awaits(s, k, true) && s.calls[k].op.PutOp? && id !in s.used
    case CommitPut(k, _) => k in s.calls && s.calls[k].stage.Written? && s.calls[k].op.PutOp?
      && s.calls[k].op.content.Some?
    case Unlink(k, _) => k in s.calls && s.calls[k].stage.Refused?
    case CommitGrant(k) => Awaits(s, k, false) && s.calls[k].op.GrantOp?
    case AppendLine(k, _) => k in s.calls && s.calls[k].stage.Recorded?
    case Restart => true
  }

  function Do(cfg: Config, s: State, e: Event): State
    requires Enabled(cfg, s, e)
  {
    match e
    case Grow(g) => s.(tree := TreeAfter(s.tree, s.home, g), home := HomeAfter(s.home, g))
    case Begin(actor, op) => DoBegin(cfg, s, actor, op)
    case Answer(k) => Drop(s, k)
    case Resolve(k) => DoResolve(cfg, s, k)
    case CommitSend(k, id, now) => DoSend(s, k, id, now)
    case CommitAck(k) => DoAck(s, k)
    case WriteFile(k, id, result) => DoWriteFile(cfg, s, k, id, result)
    case CommitPut(k, now) => DoPut(cfg, s, k, now)
    case Unlink(k, ok) => DoUnlink(s, k, ok)
    case CommitGrant(k) => DoGrant(s, k)
    case AppendLine(k, wrote) => DoAppend(s, k, wrote)
    case Restart => DoRestart(cfg, s)
  }

  /** An event that is not enabled does not happen. */
  function Step(cfg: Config, s: State, e: Event): State {
    if Enabled(cfg, s, e) then Do(cfg, s, e) else s
  }

  function Exec(cfg: Config, evs: seq<Event>): State {
    if evs == [] then Init(cfg) else Step(cfg, Exec(cfg, evs[..|evs| - 1]), evs[|evs| - 1])
  }

  /** Roles are bound to ids: the root lead is the one actor with the lead role. */
  ghost predicate RolesBound(cfg: Config) {
    forall a :: cfg.roleOf(a) == Lead <==> a == cfg.lead
  }

  function AsCaller(cfg: Config, a: Id): Caller { Caller(a, cfg.roleOf(a)) }

  // ---- The tree -----------------------------------------------------------------------

  ghost predicate TreeInv(cfg: Config, s: State) {
    && Fits(s.tree, s.home) && s.tree.lead == cfg.lead
    && cfg.lead in s.home && s.home[cfg.lead] == cfg.lead
  }

  lemma {:induction false} TreeInvStep(cfg: Config, s: State, e: Event)
    requires TreeInv(cfg, s)
    ensures TreeInv(cfg, Step(cfg, s, e)) && Extends(s.home, Step(cfg, s, e).home)
  {
    if Enabled(cfg, s, e) && e.Grow? {
      TreeStepFits(s.tree, s.home, e.step);
    }
  }

  // ---- Calls in progress ------------------------------------------------------------

  ghost predicate StageFits(cfg: Config, s: State, c: Call) {
    && c.caller == AsCaller(cfg, c.caller.id)
    && match c.stage
       case Noted => true
       case Cleared(to) => (c.op.SendOp? || c.op.GrantOp?) && MaySend(cfg.lead, s.home, c.caller, to)
       case Written(id) => FileFits(cfg, s, c, id)
       case Refused(id) => FileFits(cfg, s, c, id)
       case Recorded(r) =>
         && Author(r) == c.caller.id && (OnMailbox(r) <==> OfMailbox(c.op))
         && Plain(r) && Absorbed(s.memory.store, r) && NewIds(r) <= s.used
  }

  ghost predicate FileFits(cfg: Config, s: State, c: Call, id: Id) {
    && c.op.PutOp? && c.op.content.Some? && |c.op.content.value| <= cfg.maxArtifact
    && id in s.used && id !in s.memory.store.artifacts && id !in Strays(s.disk)
    && id in s.disk.files && s.disk.files[id] == c.op.content.value
    && id in s.disk.payload && s.disk.payload[id] == c.op.content.value
  }

  function NewIds(r: Record): set<Id> {
    if r.SendRec? then {r.message.id} else if r.PutRec? then {r.artifact.id} else {}
  }

  /** The file or new id a call holds: no two calls hold the same one. */
  function Holds(c: Call): set<Id> {
    FileOf(c) + (if c.stage.Recorded? then NewIds(c.stage.rec) else {})
  }

  ghost predicate CallsInv(cfg: Config, s: State) {
    && (forall k :: k in s.calls ==> k < s.next && StageFits(cfg, s, s.calls[k]))
    && (forall k :: k in s.wasted ==> k < s.next && k !in s.calls)
    && (forall j, k :: j in s.calls && k in s.calls && j != k ==> Holds(s.calls[j]) !! Holds(s.calls[k]))
    && s.memory.store.messages.Keys <= s.used && s.memory.store.artifacts.Keys <= s.used
    && s.disk.files.Keys <= s.used && Strays(s.disk) <= s.used
  }
}
