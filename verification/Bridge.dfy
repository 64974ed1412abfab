/**
 The web console's control bridge: a map from run to connection, filled under a lock on first
 use and emptied by the pump task of each connection when its stream ends; and the writer
 socket of each connection, shared by all senders under a lock of its own.
 */
module Bridge {
  import opened Options
  import opened Utf8
  import Follower

  type Run = string

  datatype Pump = Streaming | Ended | Cleaned

  /**
   One connection pair. `turns` lists the senders that took the write lock, in order; `wire` is what the socket
   carries.
   */
  datatype Gen = Gen(run: Run, pump: Pump, hello: seq<byte>, holder: Option<nat>, turns: seq<nat>, wire: seq<byte>)

  /** How far a `send_op` has come: it has its entry, holds the write lock with `n` bytes written, or is gone. */
  datatype Stage = Queued | Holding(n: nat) | Gone(n: nat)

  datatype Sender = Sender(gen: nat, text: seq<byte>, stage: Stage)

  /** A sender is known by its position in `senders`. */
  datatype State = State(registry: map<Run, nat>, gens: seq<Gen>, senders: seq<Sender>)

  const EMPTY: State := State(map[], [], [])

  /** What dialling a run comes to; the bridge's hello is written before the entry is registered. */
  datatype Dial = Opens(hello: seq<byte>) | Missing | Refuses | Breaks

  datatype BridgeError = NotFound | Dead | Io | Rejected

  datatype Result = Ok(gen: nat) | Err(error: BridgeError)

  /**
   One step of some task. `Release` is the end of a sender's turn, or of its wait: the line is out,
   a write failed, or its future was dropped.
   */
  datatype Step =
    | Subscribe(run: Run, dial: Dial)
    | SendBegin(run: Run, op: Option<seq<byte>>, dial: Dial)
    | Acquire(token: nat)
    | Write(token: nat, k: nat)
    | Release(token: nat)
    | PumpEnds(gen: nat)
    | PumpCleans(gen: nat)

  /** A serialized message: not empty, no newline inside. */
  predicate Serialized(text: seq<byte>) { text != [] && Follower.NEWLINE !in text }

  predicate Fits(dial: Dial) { dial.Opens? ==> Serialized(dial.hello) }

  function LineOf(text: seq<byte>): seq<byte> { text + [Follower.NEWLINE] }

  function ErrorOf(dial: Dial): BridgeError
    requires !dial.Opens?
  {
    match dial case Missing => NotFound case Refuses => Dead case Breaks => Io
  }

  /** Reuse the registered entry, or dial, say hello, spawn the pump and register, all under the map lock. */
  function Connected(s: State, run: Run, dial: Dial): State {
    if run in s.registry || !dial.Opens? then s
    else s.(registry := s.registry[run := |s.gens|],
            gens := s.gens + [Gen(run, Streaming, dial.hello, None, [], LineOf(dial.hello))])
  }

  /** A pump's exit: remove the entry, but only if it is still this pump's own channel. */
  function Cleanup(s: State, g: nat): State
    requires g < |s.gens|
  {
    var run := s.gens[g].run;
    s.(registry := if run in s.registry && s.registry[run] == g then s.registry - {run} else s.registry,
       gens := s.gens[g := s.gens[g].(pump := Cleaned)])
  }

  function Begun(s: State, run: Run, op: Option<seq<byte>>, dial: Dial): State {
    if op.None? then s
    else
      var c := Connected(s, run, dial);
      if run in c.registry then c.(senders := c.senders + [Sender(c.registry[run], op.value, Queued)]) else c
  }

  predicate Sends(s: State, t: nat) { t < |s.senders| && s.senders[t].gen < |s.gens| }

  function Locked(s: State, t: nat): State
    requires Sends(s, t)
  {
    var g := s.senders[t].gen;
    s.(senders := s.senders[t := s.senders[t].(stage := Holding(0))],
       gens := s.gens[g := s.gens[g].(holder := Some(t), turns := s.gens[g].turns + [t])])
  }

  predicate CanWrite(s: State, t: nat, k: nat) {
    Sends(s, t) && s.senders[t].stage.Holding? && s.senders[t].stage.n + k <= |s.senders[t].text| + 1
  }

  function Written(s: State, t: nat, k: nat): State
    requires CanWrite(s, t, k)
  {
    var x := s.senders[t];
    var n := x.stage.n;
    s.(senders := s.senders[t := x.(stage := Holding(n + k))],
       gens := s.gens[x.gen := s.gens[x.gen].(wire := s.gens[x.gen].wire + LineOf(x.text)[n..n + k])])
  }

  function Released(s: State, t: nat): State
    requires Sends(s, t)
  {
    var x := s.senders[t];
    match x.stage
    case Queued => s.(senders := s.senders[t := x.(stage := Gone(0))])
    case Holding(n) =>
      s.(senders := s.senders[t := x.(stage := Gone(n))], gens := s.gens[x.gen := s.gens[x.gen].(holder := None)])
    case Gone(_) => s
  }

  /** A client hello is rejected before connecting (`op` is `None`). A step that is not possible does not happen. */
  function Next(s: State, e: Step): State {
    match e
    case Subscribe(run, dial) => if Fits(dial) then Connected(s, run, dial) else s
    case SendBegin(run, op, dial) =>
      if Fits(dial) && (op.Some? ==> Serialized(op.value)) then Begun(s, run, op, dial) else s
    case Acquire(t) =>
      if Sends(s, t) && s.senders[t].stage.Queued? && s.gens[s.senders[t].gen].holder.None? then Locked(s, t) else s
    case Write(t, k) => if CanWrite(s, t, k) then Written(s, t, k) else s
    case Release(t) => if Sends(s, t) then Released(s, t) else s
    case PumpEnds(g) =>
      if g < |s.gens| && s.gens[g].pump == Streaming then s.(gens := s.gens[g := s.gens[g].(pump := Ended)]) else s
    case PumpCleans(g) =>
      if g < |s.gens| && s.gens[g].pump == Ended then Cleanup(s, g) else s
  }

  function Exec(es: seq<Step>): State {
    if es == [] then EMPTY else Next(Exec(es[..|es| - 1]), es[|es| - 1])
  }

  // ---- The registry --------------------------------------------------------------------------

  /** A generation is registered, under its own run, exactly until its pump has cleaned up. */
  ghost predicate RegistryInv(s: State) {
    && (forall run :: run in s.registry ==> s.registry[run] < |s.gens| && s.gens[s.registry[run]].run == run)
    && (forall g :: 0 <= g < |s.gens| ==>
          (s.gens[g].pump != Cleaned <==> s.gens[g].run in s.registry && s.registry[s.gens[g].run] == g))
    && (forall t :: 0 <= t < |s.senders| ==> s.senders[t].gen < |s.gens|)
  }

  lemma {:induction false} ConnectedRegistry(s: State, run: Run, dial: Dial)
    requires RegistryInv(s)
    ensures RegistryInv(Connected(s, run, dial))
  {
    var s' := Connected(s, run, dial);
    forall g | 0 <= g < |s'.gens|
      ensures s'.gens[g].pump != Cleaned <==> s'.gens[g].run in s'.registry && s'.registry[s'.gens[g].run] == g
    {
      if g < |s.gens| { assert s'.gens[g] == s.gens[g]; }
    }
  }

  /** Steps that register nothing and end no pump's life. */
  lemma {:induction false} QuietRegistry(s: State, s': State)
    requires RegistryInv(s) && s'.registry == s.registry && |s'.gens| == |s.gens|
    requires forall g :: 0 <= g < |s.gens| ==>
               s'.gens[g].run == s.gens[g].run && (s'.gens[g].pump == Cleaned <==> s.gens[g].pump == Cleaned)
    requires forall t :: 0 <= t < |s'.senders| ==> s'.senders[t].gen < |s.gens|
    ensures RegistryInv(s')
  {
  }

  lemma {:induction false} CleanupRegistry(s: State, g: nat)
    requires RegistryInv(s) && g < |s.gens|
    ensures RegistryInv(Cleanup(s, g))
  {
  }

  lemma {:induction false} BegunRegistry(s: State, run: Run, op: Option<seq<byte>>, dial: Dial)
    requires RegistryInv(s)
    ensures RegistryInv(Begun(s, run, op, dial))
  {
    ConnectedRegistry(s, run, dial);
    QuietRegistry(Connected(s, run, dial), if op.Some? then Begun(s, run, op, dial) else Connected(s, run, dial));
  }

  lemma {:induction false} NextRegistry(s: State, e: Step)
    requires RegistryInv(s)
    ensures RegistryInv(Next(s, e))
  {
    match e {
      case Subscribe(run, dial) => ConnectedRegistry(s, run, dial);
      case SendBegin(run, op, dial) => BegunRegistry(s, run, op, dial);
      case PumpCleans(g) => if g < |s.gens| { CleanupRegistry(s, g); }
      case _ => QuietRegistry(s, Next(s, e));
    }
  }

  // ---- The write lock --------------------------------------------------------------------------

  function Count(x: Sender): nat {
    match x.stage case Queued => 0 case Holding(n) => n case Gone(n) => n
  }

  /**
   The holder of a write lock is the sender that took it last; every other sender of that
   connection is waiting, or gone. No sender takes it twice.
   */
  ghost predicate LockInv(s: State) {
    && (forall t :: 0 <= t < |s.senders| ==>
        Serialized(s.senders[t].text) && Count(s.senders[t]) <= |s.senders[t].text| + 1)
    && (forall g :: 0 <= g < |s.gens| ==> Serialized(s.gens[g].hello) && TurnsInv(s, g))
    && (forall t :: 0 <= t < |s.senders| && s.senders[t].stage.Holding? ==>
          s.senders[t].gen < |s.gens| && s.gens[s.senders[t].gen].holder == Some(t))
  }

  ghost predicate TurnsInv(s: State, g: nat)
    requires g < |s.gens|
  {
    var ts, h := s.gens[g].turns, s.gens[g].holder;
    && (forall i :: 0 <= i < |ts| ==>
        ts[i] < |s.senders| && s.senders[ts[i]].gen == g && !s.senders[ts[i]].stage.Queued?)
    && (forall i, j :: 0 <= i < j < |ts| ==> ts[i] != ts[j])
    && (h.Some? ==> ts != [] && ts[|ts| - 1] == h.value && h.value < |s.senders| && s.senders[h.value].stage.Holding?)
  }

  lemma {:induction false} ConnectedLocks(s: State, run: Run, dial: Dial)
    requires LockInv(s) && Fits(dial)
    ensures LockInv(Connected(s, run, dial))
  {
    var s' := Connected(s, run, dial);
    forall g | 0 <= g < |s'.gens| ensures Serialized(s'.gens[g].hello) && TurnsInv(s', g) {
      if g < |s.gens| { assert s'.gens[g] == s.gens[g] && TurnsInv(s, g); }
    }
  }

  lemma {:induction false} BegunLocks(s: State, run: Run, op: Option<seq<byte>>, dial: Dial)
    requires LockInv(s) && Fits(dial) && (op.Some? ==> Serialized(op.value))
    ensures LockInv(Begun(s, run, op, dial))
  {
    ConnectedLocks(s, run, dial);
    var c, s' := Connected(s, run, dial), Begun(s, run, op, dial);
    forall g | 0 <= g < |s'.gens| ensures TurnsInv(s', g) { assert op.None? || TurnsInv(c, g); }
  }

  lemma {:induction false} LockedTurns(s: State, t: nat, g: nat)
    requires g < |s.gens| && TurnsInv(s, g) && Sends(s, t) && s.senders[t].stage.Queued?
    requires s.gens[s.senders[t].gen].holder.None?
    ensures TurnsInv(Locked(s, t), g)
  {
    var s', ts := Locked(s, t), s.gens[g].turns;
    assert forall i :: 0 <= i < |ts| ==> ts[i] != t && s'.senders[ts[i]] == s.senders[ts[i]];
    if g == s.senders[t].gen { assert s'.gens[g].turns == ts + [t]; }
  }

  lemma {:induction false} LockedLocks(s: State, t: nat)
    requires LockInv(s) && Sends(s, t) && s.senders[t].stage.Queued? && s.gens[s.senders[t].gen].holder.None?
    ensures LockInv(Locked(s, t))
  {
    forall g | 0 <= g < |s.gens| ensures TurnsInv(Locked(s, t), g) { LockedTurns(s, t, g); }
  }

  lemma {:induction false} WrittenLocks(s: State, t: nat, k: nat)
    requires LockInv(s) && CanWrite(s, t, k)
    ensures LockInv(Written(s, t, k))
  {
    var s' := Written(s, t, k);
    forall g | 0 <= g < |s'.gens| ensures TurnsInv(s', g) { assert TurnsInv(s, g); }
  }

  lemma {:induction false} ReleasedLocks(s: State, t: nat)
    requires LockInv(s) && Sends(s, t)
    ensures LockInv(Released(s, t))
  {
    var s' := Released(s, t);
    forall g | 0 <= g < |s'.gens| ensures TurnsInv(s', g) { assert TurnsInv(s, g); }
  }

  lemma {:induction false} PumpLocks(s: State, s': State)
    requires LockInv(s) && s'.senders == s.senders && |s'.gens| == |s.gens|
    requires forall g :: 0 <= g < |s.gens| ==> s'.gens[g] == s.gens[g].(pump := s'.gens[g].pump)
    ensures LockInv(s')
  {
    forall g | 0 <= g < |s'.gens| ensures TurnsInv(s', g) { assert TurnsInv(s, g); }
  }

  lemma {:induction false} NextLocks(s: State, e: Step)
    requires LockInv(s)
    ensures LockInv(Next(s, e))
  {
    match e {
      case Subscribe(run, dial) => if Fits(dial) { ConnectedLocks(s, run, dial); }
      case SendBegin(run, op, dial) =>
        if Fits(dial) && (op.Some? ==> Serialized(op.value)) { BegunLocks(s, run, op, dial); }
      case Acquire(t) =>
        if Sends(s, t) && s.senders[t].stage.Queued? && s.gens[s.senders[t].gen].holder.None? { LockedLocks(s, t); }
      case Write(t, k) => if CanWrite(s, t, k) { WrittenLocks(s, t, k); }
      case Release(t) => if Sends(s, t) { ReleasedLocks(s, t); }
      case _ => PumpLocks(s, Next(s, e));
    }
  }

  // ---- The writer socket -------------------------------------------------------------------------

  /** The bytes a sender has put on the socket. */
  function Piece(x: Sender): seq<byte> {
    if Count(x) <= |x.text| + 1 then LineOf(x.text)[..Count(x)] else []
  }

  /** The pieces of these senders, one after the other. */
  function Join(xs: seq<Sender>, ts: seq<nat>): seq<byte> {
    if ts == [] then []
    else Join(xs, ts[..|ts| - 1]) + (if ts[|ts| - 1] < |xs| then Piece(xs[ts[|ts| - 1]]) else [])
  }

  /** Each socket carries the bridge's hello and then the pieces in the order in which the lock was taken. */
  ghost predicate WireInv(s: State) {
    forall g :: 0 <= g < |s.gens| ==> WireFits(s, g)
  }

  ghost predicate WireFits(s: State, g: nat)
    requires g < |s.gens|
  {
    s.gens[g].wire == LineOf(s.gens[g].hello) + Join(s.senders, s.gens[g].turns)
  }

  lemma {:induction false} JoinSame(xs: seq<Sender>, ys: seq<Sender>, ts: seq<nat>)
    requires forall i :: 0 <= i < |ts| ==> ts[i] < |xs| && ts[i] < |ys| && Piece(xs[ts[i]]) == Piece(ys[ts[i]])
    ensures Join(xs, ts) == Join(ys, ts)
    decreases |ts|
  {
    if ts != [] { JoinSame(xs, ys, ts[..|ts| - 1]); }
  }

  lemma {:induction false} JoinSnoc(xs: seq<Sender>, ts: seq<nat>, t: nat)
    requires t < |xs|
    ensures Join(xs, ts + [t]) == Join(xs, ts) + Piece(xs[t])
  {
    assert (ts + [t])[..|ts|] == ts;
  }

  /** Only the sender that took the lock last can be writing. */
  lemma {:induction false} HolderIsLast(s: State, t: nat)
    requires LockInv(s) && Sends(s, t) && s.senders[t].stage.Holding?
    ensures var ts := s.gens[s.senders[t].gen].turns;
            && ts != [] && ts[|ts| - 1] == t
            && forall i :: 0 <= i < |ts| - 1 ==> ts[i] < |s.senders| && ts[i] != t
  {
    assert TurnsInv(s, s.senders[t].gen);
  }

  /** Changing the last sender's piece changes the end of the join. */
  lemma {:induction false} JoinLast(xs: seq<Sender>, ys: seq<Sender>, ts: seq<nat>, t: nat)
    requires ts != [] && ts[|ts| - 1] == t && t < |xs| && |ys| == |xs| && ys == xs[t := ys[t]]
    requires forall i :: 0 <= i < |ts| - 1 ==> ts[i] < |xs| && ts[i] != t
    ensures Join(xs, ts) == Join(xs, ts[..|ts| - 1]) + Piece(xs[t])
    ensures Join(ys, ts) == Join(xs, ts[..|ts| - 1]) + Piece(ys[t])
  {
    JoinSame(xs, ys, ts[..|ts| - 1]);
  }

  lemma {:induction false} PieceGrows(x: Sender, k: nat)
    requires x.stage.Holding? && x.stage.n + k <= |x.text| + 1
    ensures Piece(x.(stage := Holding(x.stage.n + k))) == Piece(x) + LineOf(x.text)[x.stage.n..x.stage.n + k]
  {
  }

  lemma {:induction false} Regroup(a: seq<byte>, b: seq<byte>, c: seq<byte>, d: seq<byte>)
    ensures a + (b + c) + d == a + (b + (c + d))
  {
  }

  /** A chunk written by the holder lands at the end of its own piece, which is the last one. */
  lemma {:induction false} ChunkLandsLast(s: State, t: nat, k: nat)
    requires LockInv(s) && WireInv(s) && CanWrite(s, t, k)
    ensures WireFits(Written(s, t, k), s.senders[t].gen)
  {
    var g, x := s.senders[t].gen, s.senders[t];
    var ys := s.senders[t := x.(stage := Holding(x.stage.n + k))];
    HolderIsLast(s, t);
    assert WireFits(s, g);
    JoinLast(s.senders, ys, s.gens[g].turns, t);
    PieceGrows(x, k);
    Regroup(LineOf(s.gens[g].hello), Join(s.senders, s.gens[g].turns[..|s.gens[g].turns| - 1]), Piece(x),
            LineOf(x.text)[x.stage.n..x.stage.n + k]);
  }

  lemma {:induction false} WrittenWire(s: State, t: nat, k: nat)
    requires LockInv(s) && WireInv(s) && CanWrite(s, t, k)
    ensures WireInv(Written(s, t, k))
  {
    var s' := Written(s, t, k);
    ChunkLandsLast(s, t, k);
    forall g | 0 <= g < |s'.gens| ensures WireFits(s', g) {
      if g != s.senders[t].gen {
        assert TurnsInv(s, g) && WireFits(s, g);
        JoinSame(s.senders, s'.senders, s.gens[g].turns);
      }
    }
  }

  /** Steps that write nothing: new senders are at the end, and pieces stay. */
  lemma {:induction false} QuietWire(s: State, s': State)
    requires LockInv(s) && WireInv(s)
    requires |s.senders| <= |s'.senders|
    requires forall t :: 0 <= t < |s.senders| ==> Piece(s'.senders[t]) == Piece(s.senders[t])
    requires |s'.gens| == |s.gens|
    requires forall g :: 0 <= g < |s.gens| ==>
               s'.gens[g].wire == s.gens[g].wire && s'.gens[g].hello == s.gens[g].hello
               && s'.gens[g].turns == s.gens[g].turns
    ensures WireInv(s')
  {
    forall g | 0 <= g < |s'.gens| ensures WireFits(s', g) {
      assert TurnsInv(s, g) && WireFits(s, g);
      JoinSame(s.senders, s'.senders, s.gens[g].turns);
    }
  }

  lemma {:induction false} ConnectedWire(s: State, run: Run, dial: Dial)
    requires WireInv(s)
    ensures WireInv(Connected(s, run, dial))
  {
    var s' := Connected(s, run, dial);
    forall g | 0 <= g < |s'.gens| ensures WireFits(s', g) {
      if g < |s.gens| { assert s'.gens[g] == s.gens[g] && WireFits(s, g); }
    }
  }

  lemma {:induction false} LockedWire(s: State, t: nat)
    requires LockInv(s) && WireInv(s) && Sends(s, t) && s.senders[t].stage.Queued?
    ensures WireInv(Locked(s, t))
  {
    var s' := Locked(s, t);
    forall g | 0 <= g < |s'.gens| ensures WireFits(s', g) {
      assert TurnsInv(s, g) && WireFits(s, g);
      JoinSame(s.senders, s'.senders, s.gens[g].turns);
      if g == s.senders[t].gen {
        JoinSnoc(s'.senders, s.gens[g].turns, t);
        assert Piece(s'.senders[t]) == [];
      }
    }
  }

  lemma {:induction false} BegunWire(s: State, run: Run, op: Option<seq<byte>>, dial: Dial)
    requires LockInv(s) && WireInv(s) && Fits(dial)
    ensures WireInv(Begun(s, run, op, dial))
  {
    ConnectedWire(s, run, dial);
    ConnectedLocks(s, run, dial);
    if op.Some? { QuietWire(Connected(s, run, dial), Begun(s, run, op, dial)); }
  }

  lemma {:induction false} NextWire(s: State, e: Step)
    requires RegistryInv(s) && LockInv(s) && WireInv(s)
    ensures WireInv(Next(s, e))
  {
    match e {
      case Subscribe(run, dial) => ConnectedWire(s, run, dial);
      case SendBegin(run, op, dial) => if Fits(dial) { BegunWire(s, run, op, dial); }
      case Acquire(t) => if Sends(s, t) && s.senders[t].stage.Queued? { LockedWire(s, t); }
      case Write(t, k) => if CanWrite(s, t, k) { WrittenWire(s, t, k); }
      case _ => QuietWire(s, Next(s, e));
    }
  }

  /** Every interleaving of subscriptions, sends, dropped sends and pump exits keeps the three invariants. */
  lemma {:induction false} Reachable(es: seq<Step>)
    ensures RegistryInv(Exec(es)) && LockInv(Exec(es)) && WireInv(Exec(es))
    decreases |es|
  {
    if es != [] {
      var s, e := Exec(es[..|es| - 1]), es[|es| - 1];
      Reachable(es[..|es| - 1]);
      NextRegistry(s, e);
      NextLocks(s, e);
      NextWire(s, e);
    }
  }

  // ---- What the connections of a run are ----------------------------------------------------------

  /** At most one connection of a run has a pump that has not cleaned up; it is the registered one. */
  lemma {:induction false} OneLiveGenerationPerRun(es: seq<Step>, g: nat, h: nat)
    requires var s := Exec(es);
             g < |s.gens| && h < |s.gens| && s.gens[g].run == s.gens[h].run
             && s.gens[g].pump != Cleaned && s.gens[h].pump != Cleaned
    ensures g == h
  {
    Reachable(es);
  }

  /**
   When a pump cleans up, the entry under its run is always its own: the cleanup removes that
   entry, touches no other, and the next successful call registers a generation never used before.
   */
  lemma {:induction false} CleanupRemovesOwnEntry(es: seq<Step>, g: nat, hello: seq<byte>)
    requires g < |Exec(es).gens| && Exec(es).gens[g].pump == Ended && Serialized(hello)
    ensures var s, s' := Exec(es), Next(Exec(es), PumpCleans(g));
            var run := s.gens[g].run;
            && run in s.registry && s.registry[run] == g
            && s'.registry == s.registry - {run}
            && Next(s', Subscribe(run, Opens(hello))).registry[run] == |s.gens|
  {
    Reachable(es);
  }

  /** While a pump is up, further calls share its connection. */
  lemma {:induction false} LiveEntryIsReused(es: seq<Step>, g: nat, dial: Dial)
    requires g < |Exec(es).gens| && Exec(es).gens[g].pump != Cleaned
    ensures Next(Exec(es), Subscribe(Exec(es).gens[g].run, dial)) == Exec(es)
  {
    Reachable(es);
  }

  /** Under which run, if any, a generation is registered. */
  predicate Registered(s: State, g: nat) { exists run :: run in s.registry && s.registry[run] == g }

  /**
   For every run and every sender that holds a write lock: its bytes go to the connection it took its
   entry from, to no other, and that connection is the registered one if and only if its pump has
   not cleaned up meanwhile.
   */
  lemma {:induction false} SendLandsOnRegisteredIff(es: seq<Step>, t: nat, k: nat)
    requires CanWrite(Exec(es), t, k)
    ensures var s, s' := Exec(es), Next(Exec(es), Write(t, k));
            var x := s.senders[t];
            && s'.gens[x.gen].wire == s.gens[x.gen].wire + LineOf(x.text)[x.stage.n..x.stage.n + k]
            && (forall h :: 0 <= h < |s.gens| && h != x.gen ==> s'.gens[h].wire == s.gens[h].wire)
            && (Registered(s', x.gen) <==> s.gens[x.gen].pump != Cleaned)
  {
    Reachable(es);
    var s := Exec(es);
    var g := s.senders[t].gen;
    assert forall run :: run in s.registry && s.registry[run] == g ==> run == s.gens[g].run;
  }

  /** Two senders never write to one connection at the same time. */
  lemma {:induction false} OneWriterAtATime(es: seq<Step>, t: nat, u: nat)
    requires var s := Exec(es);
             t < |s.senders| && u < |s.senders| && s.senders[t].gen == s.senders[u].gen
             && s.senders[t].stage.Holding? && s.senders[u].stage.Holding?
    ensures t == u
  {
    Reachable(es);
  }

  // ---- What the dispatcher reads ---------------------------------------------------------------------

  /** The whole line is out. */
  predicate Whole(x: Sender) { Count(x) == |x.text| + 1 }

  /** Some of the line is out, but not its newline. */
  predicate CutShort(x: Sender) { 0 < Count(x) <= |x.text| }

  ghost predicate InRange(xs: seq<Sender>, ts: seq<nat>) {
    forall i :: 0 <= i < |ts| ==> ts[i] < |xs| && Serialized(xs[ts[i]].text) && Count(xs[ts[i]]) <= |xs[ts[i]].text| + 1
  }

  /** The texts of the senders whose whole line is out, in the order of their turns. */
  function WholeTexts(xs: seq<Sender>, ts: seq<nat>): seq<seq<byte>> {
    if ts == [] then []
    else
      var t := ts[|ts| - 1];
      WholeTexts(xs, ts[..|ts| - 1]) + (if t < |xs| && Whole(xs[t]) then [xs[t].text] else [])
  }

  ghost predicate SomeCut(xs: seq<Sender>, ts: seq<nat>)
    requires InRange(xs, ts)
  {
    exists i :: 0 <= i < |ts| && CutShort(xs[ts[i]])
  }

  /** No whole line was written after one that was cut short. */
  ghost predicate NoneGlued(xs: seq<Sender>, ts: seq<nat>)
    requires InRange(xs, ts)
  {
    forall i, j :: 0 <= i < j < |ts| ==> !(CutShort(xs[ts[i]]) && Whole(xs[ts[j]]))
  }

  lemma {:induction false} PieceReads(x: Sender, cur: seq<byte>)
    requires Serialized(x.text) && Count(x) <= |x.text| + 1
    ensures Whole(x) ==> Follower.LinesOf(cur, Piece(x)) == [cur + x.text] && Follower.RestOf(cur, Piece(x)) == []
    ensures !Whole(x) ==> Follower.LinesOf(cur, Piece(x)) == [] && Follower.RestOf(cur, Piece(x)) == cur + Piece(x)
    ensures CutShort(x) <==> Piece(x) != [] && !Whole(x)
  {
    if Whole(x) {
      assert Piece(x) == x.text + [Follower.NEWLINE];
      Follower.SplitConcat(cur, x.text, [Follower.NEWLINE]);
      Follower.NoNewline(cur, x.text);
      assert [Follower.NEWLINE][1..] == [];
    } else {
      assert Piece(x) == x.text[..Count(x)];
      Follower.NoNewline(cur, Piece(x));
    }
  }

  /** The socket's bytes after the turns `ts`. */
  function Sent(hello: seq<byte>, xs: seq<Sender>, ts: seq<nat>): seq<byte> { LineOf(hello) + Join(xs, ts) }

  lemma {:induction false} SentSnoc(hello: seq<byte>, xs: seq<Sender>, ts: seq<nat>)
    requires InRange(xs, ts) && ts != []
    ensures var n := |ts| - 1;
            var front, p := Sent(hello, xs, ts[..n]), Piece(xs[ts[n]]);
            && Follower.LinesOf([], Sent(hello, xs, ts)) == Follower.LinesOf([], front)
               + Follower.LinesOf(Follower.RestOf([], front), p)
            && Follower.RestOf([], Sent(hello, xs, ts)) == Follower.RestOf(Follower.RestOf([], front), p)
  {
    var n := |ts| - 1;
    assert Sent(hello, xs, ts) == Sent(hello, xs, ts[..n]) + Piece(xs[ts[n]]);
    Follower.SplitConcat([], Sent(hello, xs, ts[..n]), Piece(xs[ts[n]]));
  }

  lemma {:induction false} HelloReads(hello: seq<byte>, xs: seq<Sender>)
    requires Serialized(hello)
    ensures Follower.LinesOf([], Sent(hello, xs, [])) == [hello] && Follower.RestOf([], Sent(hello, xs, [])) == []
  {
    var x := Sender(0, hello, Gone(|hello| + 1));
    PieceReads(x, []);
    assert [] + hello == hello;
    assert Sent(hello, xs, []) == Piece(x);
  }

  /** The reader has one line per whole line, after the hello. */
  lemma {:induction false} LinesCounted(hello: seq<byte>, xs: seq<Sender>, ts: seq<nat>)
    requires Serialized(hello) && InRange(xs, ts)
    ensures |Follower.LinesOf([], Sent(hello, xs, ts))| == 1 + |WholeTexts(xs, ts)|
    decreases |ts|
  {
    if ts == [] {
      HelloReads(hello, xs);
    } else {
      var n := |ts| - 1;
      LinesCounted(hello, xs, ts[..n]);
      SentSnoc(hello, xs, ts);
      PieceReads(xs[ts[n]], Follower.RestOf([], Sent(hello, xs, ts[..n])));
    }
  }

  lemma {:induction false} CutSnoc(xs: seq<Sender>, ts: seq<nat>)
    requires InRange(xs, ts) && ts != []
    ensures var n := |ts| - 1;
            && (SomeCut(xs, ts) <==> SomeCut(xs, ts[..n]) || CutShort(xs[ts[n]]))
            && (NoneGlued(xs, ts) <==> NoneGlued(xs, ts[..n]) && !(Whole(xs[ts[n]]) && SomeCut(xs, ts[..n])))
  {
    var n := |ts| - 1;
    var front := ts[..n];
    assert forall i :: 0 <= i < n ==> front[i] == ts[i];
  }

  /** With no line glued so far, the reader holds a beginning of a line exactly if some line was cut short. */
  lemma {:induction false} RestIffCut(hello: seq<byte>, xs: seq<Sender>, ts: seq<nat>)
    requires Serialized(hello) && InRange(xs, ts) && NoneGlued(xs, ts)
    ensures Follower.RestOf([], Sent(hello, xs, ts)) != [] <==> SomeCut(xs, ts)
    decreases |ts|
  {
    if ts == [] {
      HelloReads(hello, xs);
    } else {
      var n := |ts| - 1;
      CutSnoc(xs, ts);
      RestIffCut(hello, xs, ts[..n]);
      SentSnoc(hello, xs, ts);
      PieceReads(xs[ts[n]], Follower.RestOf([], Sent(hello, xs, ts[..n])));
    }
  }

  lemma {:induction false} LinesWholeIff(hello: seq<byte>, xs: seq<Sender>, ts: seq<nat>)
    requires Serialized(hello) && InRange(xs, ts)
    ensures Follower.LinesOf([], Sent(hello, xs, ts)) == [hello] + WholeTexts(xs, ts) <==> NoneGlued(xs, ts)
    decreases |ts|
  {
    if ts == [] {
      HelloReads(hello, xs);
    } else {
      var n := |ts| - 1;
      var front := ts[..n];
      LinesWholeIff(hello, xs, front);
      LinesCounted(hello, xs, front);
      CutSnoc(xs, ts);
      SentSnoc(hello, xs, ts);
      if NoneGlued(xs, front) { RestIffCut(hello, xs, front); }
      LastLineWholeIff(xs[ts[n]], Follower.LinesOf([], Sent(hello, xs, front)),
                       Follower.RestOf([], Sent(hello, xs, front)), [hello] + WholeTexts(xs, front));
      assert [hello] + (WholeTexts(xs, front) + [xs[ts[n]].text]) == [hello] + WholeTexts(xs, front) + [xs[ts[n]].text];
      assert WholeTexts(xs, front) + [] == WholeTexts(xs, front);
    }
  }

  lemma {:induction false} LastLineWholeIff(x: Sender, lines: seq<seq<byte>>, rest: seq<byte>, want: seq<seq<byte>>)
    requires Serialized(x.text) && Count(x) <= |x.text| + 1 && |lines| == |want|
    ensures Whole(x) ==> (lines + Follower.LinesOf(rest, Piece(x)) == want + [x.text] <==> lines == want && rest == [])
    ensures !Whole(x) ==> lines + Follower.LinesOf(rest, Piece(x)) == lines
  {
    PieceReads(x, rest);
    if Whole(x) {
      var a, b := lines + [rest + x.text], want + [x.text];
      assert a[..|lines|] == lines && b[..|lines|] == want;
      assert a[|lines|] == rest + x.text && b[|lines|] == x.text;
      if a == b { assert |rest + x.text| == |x.text|; }
      if rest == [] { assert rest + x.text == x.text; }
    }
  }

  /**
   In every run, each connection carries its hello and then, in the order in which the write lock was
   taken, the lines of its senders: whole if the send succeeded, else a beginning. All turns but the
   last are over. The dispatcher reads the hello and exactly the whole lines if and only if no
   whole line follows one that an error or a dropped send cut short.
   */
  lemma {:induction false} WireIsHelloThenLines(es: seq<Step>, g: nat)
    requires g < |Exec(es).gens|
    ensures var s := Exec(es);
            var x := s.gens[g];
            && x.wire == LineOf(x.hello) + Join(s.senders, x.turns)
            && InRange(s.senders, x.turns)
            && (forall i :: 0 <= i < |x.turns| ==>
                s.senders[x.turns[i]].gen == g && Piece(s.senders[x.turns[i]]) <= LineOf(s.senders[x.turns[i]].text))
            && (forall i :: 0 <= i < |x.turns| - 1 ==> s.senders[x.turns[i]].stage.Gone?)
            && (Follower.LinesOf([], x.wire) == [x.hello] + WholeTexts(s.senders, x.turns)
                <==> NoneGlued(s.senders, x.turns))
  {
    Reachable(es);
    var s := Exec(es);
    var ts := s.gens[g].turns;
    assert TurnsInv(s, g) && WireFits(s, g);
    forall i | 0 <= i < |ts| - 1 ensures s.senders[ts[i]].stage.Gone? {
      if s.senders[ts[i]].stage.Holding? { HolderIsLast(s, ts[i]); }
    }
    LinesWholeIff(s.gens[g].hello, s.senders, ts);
  }

  // ---- An op that misses the new connection --------------------------------------------------------------

  lemma {:induction false} ExecSnoc(es: seq<Step>, e: Step)
    ensures Exec(es + [e]) == Next(Exec(es), e)
  {
    assert (es + [e])[..|es|] == es;
  }

  /**
   A sender fetches its entry, the pump ends and cleans up, a new connection opens, and then the sender takes
   the lock.
   */
  const LATE: seq<Step> :=
    [SendBegin("r", Some([1]), Opens([2]))] + [PumpEnds(0)] + [PumpCleans(0)] + [Subscribe("r", Opens([3]))]
      + [Acquire(0)]

  lemma {:induction false} LateSender()
    ensures var s := Exec(LATE);
            && s.registry == map["r" := 1] && |s.gens| == 2 && s.senders == [Sender(0, [1], Holding(0))]
            && s.gens[0].wire == [2, 10] && s.gens[1].wire == [3, 10]
  {
    var a, b, c, d := SendBegin("r", Some([1]), Opens([2])), PumpEnds(0), PumpCleans(0), Subscribe("r", Opens([3]));
    ExecSnoc([], a);
    assert [] + [a] == [a];
    assert Exec([]) == EMPTY;
    assert LineOf([2]) == [2, 10] && LineOf([3]) == [3, 10];
    assert Serialized([1]) && Fits(Opens([2])) && Fits(Opens([3]));
    FirstConnection();
    assert Exec([a]) == State(map["r" := 0], [Gen("r", Streaming, [2], None, [], [2, 10])], [Sender(0, [1], Queued)]);
    ExecSnoc([a], b);
    ExecSnoc([a] + [b], c);
    assert Exec([a] + [b] + [c]) == State(map[], [Gen("r", Cleaned, [2], None, [], [2, 10])], [Sender(0, [1], Queued)]);
    ExecSnoc([a] + [b] + [c], d);
    ExecSnoc([a] + [b] + [c] + [d], Acquire(0));
  }

  lemma {:induction false} FirstConnection()
    ensures Next(EMPTY, SendBegin("r", Some([1]), Opens([2])))
            == State(map["r" := 0], [Gen("r", Streaming, [2], None, [], [2, 10])], [Sender(0, [1], Queued)])
  {
    assert LineOf([2]) == [2, 10];
    assert Serialized([1]) && Fits(Opens([2]));
    var c := Connected(EMPTY, "r", Opens([2]));
    assert c.registry == map["r" := 0] && c.gens == [Gen("r", Streaming, [2], None, [], [2, 10])];
  }

  /** Its op goes to the dead connection, and the registered one carries nothing but its hello. */
  lemma {:induction false} StaleSendMissesNewConnection()
    ensures var s := Exec(LATE + [Write(0, 2)]);
            && s.registry == map["r" := 1] && |s.gens| == 2
            && s.gens[0].wire == [2, 10, 1, 10] && s.gens[1].wire == [3, 10]
  {
    LateSender();
    ExecSnoc(LATE, Write(0, 2));
    assert LineOf([1])[0..2] == [1, 10];
    assert [2, 10] + [1, 10] == [2, 10, 1, 10];
  }

  // ---- A line cut short ---------------------------------------------------------------------------------------

  /** Two senders on one connection. */
  function Pair(h: seq<byte>, x: Sender, y: Sender, holder: Option<nat>, turns: seq<nat>, wire: seq<byte>): State {
    State(map["r" := 0], [Gen("r", Streaming, h, holder, turns, wire)], [x] + [y])
  }

  /** The second sender reuses the connection of the first. */
  lemma {:induction false} PairBegins(h: seq<byte>, x: seq<byte>, y: seq<byte>)
    requires Serialized(h) && Serialized(x) && Serialized(y)
    ensures Exec([SendBegin("r", Some(x), Opens(h))] + [SendBegin("r", Some(y), Missing)])
            == Pair(h, Sender(0, x, Queued), Sender(0, y, Queued), None, [], LineOf(h))
  {
    var a, b := SendBegin("r", Some(x), Opens(h)), SendBegin("r", Some(y), Missing);
    ExecSnoc([], a);
    assert [] + [a] == [a];
    assert Exec([]) == EMPTY;
    assert Fits(Opens(h)) && Fits(Missing);
    var g := Gen("r", Streaming, h, None, [], LineOf(h));
    assert Connected(EMPTY, "r", Opens(h)) == State(map["r" := 0], [g], []);
    assert Exec([a]) == State(map["r" := 0], [g], [Sender(0, x, Queued)]);
    ExecSnoc([a], b);
  }

  /** The first takes the lock, writes `n` bytes, and is dropped. */
  lemma {:induction false} FirstIsCut(h: seq<byte>, x: Sender, y: Sender, n: nat, wire: seq<byte>)
    requires x == Sender(0, x.text, Queued) && n <= |x.text|
    ensures Next(Next(Next(Pair(h, x, y, None, [], wire), Acquire(0)), Write(0, n)), Release(0))
            == Pair(h, x.(stage := Gone(n)), y, None, [0], wire + x.text[..n])
  {
    var s := Pair(h, x, y, None, [], wire);
    var s1 := Pair(h, x.(stage := Holding(0)), y, Some(0), [0], wire);
    assert [] + [0] == [0];
    assert Sends(s, 0) && Next(s, Acquire(0)) == Locked(s, 0);
    assert Locked(s, 0).gens == s1.gens && Locked(s, 0).senders == s1.senders;
    var s2 := Pair(h, x.(stage := Holding(n)), y, Some(0), [0], wire + x.text[..n]);
    assert LineOf(x.text)[0..n] == x.text[..n];
    assert CanWrite(s1, 0, n) && Next(s1, Write(0, n)) == Written(s1, 0, n) == s2;
    assert Sends(s2, 0) && Next(s2, Release(0)) == Released(s2, 0);
  }

  /** The second takes the lock and writes its whole line. */
  lemma {:induction false} SecondIsWhole(h: seq<byte>, x: Sender, y: Sender, wire: seq<byte>)
    requires y == Sender(0, y.text, Queued)
    ensures var size := |y.text| + 1;
            Next(Next(Pair(h, x, y, None, [0], wire), Acquire(1)), Write(1, size))
            == Pair(h, x, y.(stage := Holding(size)), Some(1), [0, 1], wire + LineOf(y.text))
  {
    var size := |y.text| + 1;
    var s := Pair(h, x, y, None, [0], wire);
    var s1 := Pair(h, x, y.(stage := Holding(0)), Some(1), [0, 1], wire);
    assert [0] + [1] == [0, 1];
    assert Sends(s, 1) && Next(s, Acquire(1)) == Locked(s, 1);
    assert Locked(s, 1).gens == s1.gens && Locked(s, 1).senders == s1.senders;
    assert LineOf(y.text)[0..size] == LineOf(y.text);
    assert CanWrite(s1, 1, size) && Next(s1, Write(1, size)) == Written(s1, 1, size);
  }

  function CutRun(h: seq<byte>, x: seq<byte>, y: seq<byte>, n: nat): seq<Step> {
    [SendBegin("r", Some(x), Opens(h))] + [SendBegin("r", Some(y), Missing)] + [Acquire(0)] + [Write(0, n)]
      + [Release(0)]
    + [Acquire(1)] + [Write(1, |y| + 1)]
  }

  /** A sender is dropped after `n` bytes, and the dispatcher reads the next op, sent whole, glued to them. */
  lemma {:induction false} CutLineIsGlued(h: seq<byte>, x: seq<byte>, y: seq<byte>, n: nat)
    requires Serialized(h) && Serialized(x) && Serialized(y) && 0 < n <= |x|
    ensures var s := Exec(CutRun(h, x, y, n));
            && |s.senders| == 2 && |s.gens| == 1 && s.senders[1].text == y && Whole(s.senders[1])
            && Follower.LinesOf([], s.gens[0].wire) == [h, x[..n] + y]
  {
    var es := [SendBegin("r", Some(x), Opens(h))] + [SendBegin("r", Some(y), Missing)];
    PairBegins(h, x, y);
    ExecSnoc(es, Acquire(0));
    ExecSnoc(es + [Acquire(0)], Write(0, n));
    ExecSnoc(es + [Acquire(0)] + [Write(0, n)], Release(0));
    FirstIsCut(h, Sender(0, x, Queued), Sender(0, y, Queued), n, LineOf(h));
    var cut := es + [Acquire(0)] + [Write(0, n)] + [Release(0)];
    ExecSnoc(cut, Acquire(1));
    ExecSnoc(cut + [Acquire(1)], Write(1, |y| + 1));
    SecondIsWhole(h, Sender(0, x, Gone(n)), Sender(0, y, Queued), LineOf(h) + x[..n]);
    GluedReads(h, x[..n], y);
  }

  lemma {:induction false} GluedReads(h: seq<byte>, p: seq<byte>, y: seq<byte>)
    requires Serialized(h) && Serialized(y) && Follower.NEWLINE !in p
    ensures Follower.LinesOf([], LineOf(h) + p + LineOf(y)) == [h, p + y]
  {
    var a, b := Sender(0, h, Gone(|h| + 1)), Sender(0, p + y, Gone(|p + y| + 1));
    assert Piece(a) == LineOf(h) && Piece(b) == LineOf(p + y) && LineOf(h) + p + LineOf(y) == LineOf(h) + LineOf(p + y);
    PieceReads(a, []);
    PieceReads(b, []);
    Follower.SplitConcat([], LineOf(h), LineOf(p + y));
    assert [] + h == h && [] + (p + y) == p + y;
  }

  // ---- The shared state as the tasks update it -------------------------------------------------------------

  /** The state is that of some run, so what is proved of every run holds of it. */
  ghost predicate Reached(s: State) { exists es :: Exec(es) == s }

  lemma {:induction false} ReachedStep(s: State, e: Step)
    requires Reached(s)
    ensures Reached(Next(s, e))
  {
    var es :| Exec(es) == s;
    ExecSnoc(es, e);
  }

  lemma {:induction false} EntryFits(s: State, run: Run)
    requires Reached(s) && run in s.registry
    ensures s.registry[run] < |s.gens| && s.gens[s.registry[run]].run == run && s.gens[s.registry[run]].pump != Cleaned
  {
    var es :| Exec(es) == s;
    Reachable(es);
  }

  lemma {:induction false} GenFits(s: State, g: nat)
    requires Reached(s) && g < |s.gens|
    ensures s.gens[g].pump != Cleaned ==> s.gens[g].run in s.registry && s.registry[s.gens[g].run] == g
  {
    var es :| Exec(es) == s;
    Reachable(es);
  }

  lemma {:induction false} SenderFits(s: State, t: nat)
    requires Reached(s) && t < |s.senders|
    ensures Sends(s, t) && Serialized(s.senders[t].text) && Count(s.senders[t]) <= |s.senders[t].text| + 1
  {
    var es :| Exec(es) == s;
    Reachable(es);
  }

  class ControlBridge {
    var registry: map<Run, nat>
    var gens: seq<Gen>
    var senders: seq<Sender>

    constructor ()
      ensures Valid() && View() == EMPTY
    {
      registry, gens, senders := map[], [], [];
      assert Exec([]) == EMPTY;
    }

    ghost function View(): State
      reads this
    {
      State(registry, gens, senders)
    }

    ghost predicate Valid()
      reads this
    {
      Reached(View())
    }

    /**
     The entry for `run`; a missing socket, a refused and a failed connection are told apart, and register
     nothing.
     */
    method EnsureConnected(run: Run, dial: Dial) returns (r: Result)
      requires Valid() && Fits(dial)
      modifies this`registry, this`gens
      ensures Valid() && View() == Connected(old(View()), run, dial)
      ensures r.Ok? <==> run in old(registry) || dial.Opens?
      ensures r.Ok? ==> run in registry && registry[run] == r.gen < |gens| && gens[r.gen].pump != Cleaned
      ensures r.Err? ==> r.error == ErrorOf(dial) && View() == old(View())
    {
      ReachedStep(View(), Subscribe(run, dial));
      if run in registry {
        EntryFits(View(), run);
        return Ok(registry[run]);
      }
      match dial {
        case Missing => return Err(NotFound);
        case Refuses => return Err(Dead);
        case Breaks => return Err(Io);
        case Opens(hello) =>
          gens := gens + [Gen(run, Streaming, hello, None, [], hello + [Follower.NEWLINE])];
          registry := registry[run := |gens| - 1];
          return Ok(|gens| - 1);
      }
    }

    /** The head of `send_op`: a client hello is refused before anything is dialled. */
    method BeginSend(run: Run, op: Option<seq<byte>>, dial: Dial) returns (r: Result)
      requires Valid() && Fits(dial) && (op.Some? ==> Serialized(op.value))
      modifies this
      ensures Valid() && View() == Next(old(View()), SendBegin(run, op, dial))
      ensures op.None? ==> r == Err(Rejected) && View() == old(View())
      ensures r.Ok? ==> |senders| == |old(senders)| + 1 && Registered(View(), r.gen)
      ensures r.Ok? ==> senders[|senders| - 1] == Sender(r.gen, op.value, Queued)
    {
      ReachedStep(View(), SendBegin(run, op, dial));
      if op.None? { return Err(Rejected); }
      r := EnsureConnected(run, dial);
      if r.Ok? { senders := senders + [Sender(r.gen, op.value, Queued)]; }
    }

    /** Taking the write lock, if it is free. */
    method TryLock(t: nat) returns (ok: bool)
      requires Valid() && t < |senders| && senders[t].stage.Queued?
      modifies this`gens, this`senders
      ensures Valid() && View() == Next(old(View()), Acquire(t))
      ensures senders[t].gen == old(senders[t]).gen < |gens| == |old(gens)|
      ensures ok <==> old(gens)[senders[t].gen].holder.None?
      ensures ok ==> senders[t].stage == Holding(0)
    {
      SenderFits(View(), t);
      ReachedStep(View(), Acquire(t));
      var g := senders[t].gen;
      ok := gens[g].holder.None?;
      if ok {
        senders := senders[t := senders[t].(stage := Holding(0))];
        gens := gens[g := gens[g].(holder := Some(t), turns := gens[g].turns + [t])];
      }
    }

    /** One write call on the socket takes some of what is left. */
    method WriteSome(t: nat, k: nat)
      requires Valid() && CanWrite(View(), t, k)
      modifies this`gens, this`senders
      ensures Valid() && View() == Next(old(View()), Write(t, k))
    {
      ReachedStep(View(), Write(t, k));
      var x := senders[t];
      var n := x.stage.n;
      gens := gens[x.gen := gens[x.gen].(wire := gens[x.gen].wire + (x.text + [Follower.NEWLINE])[n..n + k])];
      senders := senders[t := x.(stage := Holding(n + k))];
    }

    /** The end of a turn, or of a wait for one. */
    method Unlock(t: nat)
      requires Valid() && t < |senders|
      modifies this`gens, this`senders
      ensures Valid() && View() == Next(old(View()), Release(t))
      ensures |gens| == |old(gens)| && |senders| == |old(senders)|
      ensures senders[t] == old(senders[t]).(stage := Gone(Count(old(senders[t]))))
      ensures forall g :: 0 <= g < |gens| ==> gens[g].wire == old(gens)[g].wire
    {
      SenderFits(View(), t);
      ReachedStep(View(), Release(t));
      var x := senders[t];
      match x.stage {
        case Queued => senders := senders[t := x.(stage := Gone(0))];
        case Gone(_) =>
        case Holding(n) =>
          senders := senders[t := x.(stage := Gone(n))];
          gens := gens[x.gen := gens[x.gen].(holder := None)];
      }
    }

    /** The next chunk of the line after `before`. */
    method WriteNext(t: nat, n: nat, k: nat, ghost before: seq<byte>)
      requires Valid() && t < |senders| && senders[t].stage == Holding(n) && n + k <= |senders[t].text| + 1
      requires senders[t].gen < |gens| && gens[senders[t].gen].wire == before + Piece(senders[t])
      modifies this`gens, this`senders
      ensures Valid() && |senders| == |old(senders)| && |gens| == |old(gens)|
      ensures senders[t] == old(senders[t]).(stage := Holding(n + k))
      ensures gens[senders[t].gen].wire == before + Piece(senders[t])
    {
      PieceGrows(senders[t], k);
      WriteSome(t, k);
    }

    /** `write_all`: chunk after chunk, until the line is out or the socket fails with a chunk of 0. */
    method WriteChunks(t: nat, chunks: seq<nat>, ghost before: seq<byte>) returns (n: nat)
      requires Valid() && t < |senders| && senders[t].stage == Holding(0)
      requires senders[t].gen < |gens| && gens[senders[t].gen].wire == before
      modifies this`gens, this`senders
      ensures Valid() && |senders| == |old(senders)| && |gens| == |old(gens)|
      ensures n <= |senders[t].text| + 1 && senders[t] == old(senders[t]).(stage := Holding(n))
      ensures gens[senders[t].gen].wire == before + Piece(senders[t])
    {
      var size, i := |senders[t].text| + 1, 0;
      n := 0;
      assert before + Piece(senders[t]) == before;
      while n < size && i < |chunks| && chunks[i] > 0
        invariant Valid() && |senders| == |old(senders)| && |gens| == |old(gens)| && n <= size
        invariant senders[t] == old(senders[t]).(stage := Holding(n))
        invariant gens[senders[t].gen].wire == before + Piece(senders[t])
        decreases |chunks| - i
      {
        var k := if n + chunks[i] <= size then chunks[i] else size - n;
        WriteNext(t, n, k, before);
        n, i := n + k, i + 1;
      }
    }

    /**
     Writing a whole line under the lock in chunks of the socket's choosing. Success puts exactly the
     line on the socket, an error a beginning of it.
     */
    method WriteAll(t: nat, chunks: seq<nat>) returns (ok: bool)
      requires Valid() && t < |senders| && senders[t].stage == Holding(0)
      modifies this`gens, this`senders
      ensures Valid() && |senders| == |old(senders)| && senders[t].stage.Gone? && (ok <==> Whole(senders[t]))
      ensures |gens| == |old(gens)| > old(senders[t]).gen
      ensures gens[old(senders[t]).gen].wire == old(gens)[old(senders[t]).gen].wire + Piece(senders[t])
      ensures senders[t].text == old(senders[t]).text
    {
      SenderFits(View(), t);
      var n := WriteChunks(t, chunks, gens[senders[t].gen].wire);
      ok := n == |senders[t].text| + 1;
      Unlock(t);
    }

    /** The pump's exit. */
    method FinishPump(g: nat)
      requires Valid() && g < |gens| && gens[g].pump == Ended
      modifies this
      ensures Valid() && View() == Next(old(View()), PumpCleans(g))
      ensures registry == old(registry) - {old(gens)[g].run}
    {
      GenFits(View(), g);
      ReachedStep(View(), PumpCleans(g));
      var run := gens[g].run;
      if run in registry {
        if registry[run] == g { registry := registry - {run}; }
      }
      gens := gens[g := gens[g].(pump := Cleaned)];
    }
  }
}
