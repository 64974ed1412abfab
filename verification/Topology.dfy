/**
 The tree of actors of a run and the questions the communication plane asks of it:
 who is a worker's parent, does an actor exist, who may send to whom, who may see what.
 */
module Topology {
  import opened Options

  type Id = string

  datatype Role = Lead | Sublead | Worker

  datatype Caller = Caller(id: Id, role: Role)

  /** A sub-tree layer is registered, then removed from the live map, then archived. */
  datatype Phase = Live | Detached | Archived

  datatype Layer = Layer(lead: Id, phase: Phase, workers: set<Id>)

  /** `layers` lists the sub-tree layers in whatever order a map iteration visits them. */
  datatype Tree = Tree(lead: Id, index: map<Id, Option<Id>>, rootWorkers: set<Id>, layers: seq<Layer>)

  function NewTree(lead: Id): Tree { Tree(lead, map[], {lead}, []) }

  // ---- Lookups --------------------------------------------------------------

  /** The lead of the first layer in phase `p` that holds `w`. */
  function FirstHolding(layers: seq<Layer>, p: Phase, w: Id): Option<Id> {
    if layers == [] then None
    else if layers[0].phase == p && w in layers[0].workers then Some(layers[0].lead)
    else FirstHolding(layers[1..], p, w)
  }

  function WorkerParent(t: Tree, w: Id): Option<Id> {
    if w in t.index then
      (match t.index[w] case Some(s) => Some(s) case None => Some(t.lead))
    else if w in t.rootWorkers then Some(t.lead)
    else match FirstHolding(t.layers, Live, w)
         case Some(s) => Some(s)
         case None => FirstHolding(t.layers, Archived, w)
  }

  function ParentFor(t: Tree, c: Caller): Option<Id> {
    match c.role
    case Lead => None
    case Sublead => Some(t.lead)
    case Worker => WorkerParent(t, c.id)
  }

  predicate ActorExists(t: Tree, a: Id) {
    || a == t.lead
    || a in t.rootWorkers
    || exists i :: 0 <= i < |t.layers|
                   && t.layers[i].phase != Detached && (a == t.layers[i].lead || a in t.layers[i].workers)
  }

  /** The addressed actor, or `None` for the unknown-actor error. */
  function ResolveRecipient(t: Tree, c: Caller, raw: string): Option<Id> {
    var target :=
      if raw == "self" then Some(c.id)
      else if raw == "root" then Some(t.lead)
      else if raw == "parent" then ParentFor(t, c)
      else Some(raw);
    if target.Some? && ActorExists(t, target.value) then target else None
  }

  predicate CanSend(t: Tree, c: Caller, to: Id) {
    match c.role
    case Lead => true
    case Sublead => to == t.lead || to == c.id || WorkerParent(t, to) == Some(c.id)
    case Worker => ParentFor(t, c) == Some(to) || to == c.id
  }

  predicate CanObserve(t: Tree, c: Caller, target: Id) {
    || c.id == target
    || match c.role
       case Lead => true
       case Sublead => WorkerParent(t, target) == Some(c.id)
       case Worker => false
  }

  // ---- Where each actor was registered ------------------------------------------

  /** `home` gives, once and for all, the layer under which an actor id is registered. */
  ghost predicate Fits(t: Tree, home: map<Id, Id>) {
    && (forall w :: w in t.index ==>
          w in home && home[w] == (match t.index[w] case Some(s) => s case None => t.lead))
    && (forall w :: w in t.rootWorkers ==> w in home && home[w] == t.lead)
    && (forall i, w :: 0 <= i < |t.layers| && w in t.layers[i].workers ==> w in home && home[w] == t.layers[i].lead)
  }

  /** The send rule in terms of `home` alone. */
  predicate MaySend(lead: Id, home: map<Id, Id>, c: Caller, to: Id) {
    match c.role
    case Lead => true
    case Sublead => to == lead || to == c.id || (to in home && home[to] == c.id)
    case Worker => to == c.id || (c.id in home && home[c.id] == to)
  }

  /** The observation rule in terms of `home` alone. */
  predicate MayObserve(home: map<Id, Id>, c: Caller, target: Id) {
    c.id == target || c.role == Lead || (c.role == Sublead && target in home && home[target] == c.id)
  }

  lemma {:induction false} FirstHoldingFits(layers: seq<Layer>, p: Phase, w: Id)
    ensures match FirstHolding(layers, p, w)
            case Some(s) =>
              exists i :: 0 <= i < |layers| && layers[i].phase == p && w in layers[i].workers && layers[i].lead == s
            case None => forall i :: 0 <= i < |layers| && layers[i].phase == p ==> w !in layers[i].workers
    decreases |layers|
  {
    if layers != [] {
      FirstHoldingFits(layers[1..], p, w);
      if !(layers[0].phase == p && w in layers[0].workers) {
        match FirstHolding(layers[1..], p, w) {
          case Some(s) =>
            var i :| 0 <= i < |layers[1..]| && layers[1..][i].phase == p && w in layers[1..][i].workers
              && layers[1..][i].lead == s;
            assert layers[i + 1].phase == p && w in layers[i + 1].workers && layers[i + 1].lead == s;
          case None =>
            forall i | 0 <= i < |layers| && layers[i].phase == p ensures w !in layers[i].workers {
              if i > 0 { assert layers[1..][i - 1] == layers[i]; }
            }
        }
      }
    }
  }

  /** The lookup never answers anything but the registered parent. */
  lemma {:induction false} ParentIsHome(t: Tree, home: map<Id, Id>, w: Id)
    requires Fits(t, home)
    ensures WorkerParent(t, w).Some? ==> w in home && WorkerParent(t, w) == Some(home[w])
  {
    FirstHoldingFits(t.layers, Live, w);
    FirstHoldingFits(t.layers, Archived, w);
  }

  /** The lookup finds every registered worker whose layer is not between the two lists. */
  lemma {:induction false} ParentIsFound(t: Tree, home: map<Id, Id>, w: Id)
    requires Fits(t, home)
    ensures WorkerParent(t, w) == None <==>
            && w !in t.index && w !in t.rootWorkers
            && forall i :: 0 <= i < |t.layers| && w in t.layers[i].workers ==> t.layers[i].phase == Detached
  {
    FirstHoldingFits(t.layers, Live, w);
    FirstHoldingFits(t.layers, Archived, w);
    if WorkerParent(t, w) == None {
      forall i | 0 <= i < |t.layers| && w in t.layers[i].workers ensures t.layers[i].phase == Detached {
        assert t.layers[i].phase != Live && t.layers[i].phase != Archived;
      }
    }
  }

  /** The layered lookup lets nothing through that the registration forbids. */
  lemma {:induction false} ChecksFollowHome(t: Tree, home: map<Id, Id>, c: Caller, x: Id)
    requires Fits(t, home)
    ensures CanSend(t, c, x) ==> MaySend(t.lead, home, c, x)
    ensures CanObserve(t, c, x) ==> MayObserve(home, c, x)
  {
    ParentIsHome(t, home, x);
    ParentIsHome(t, home, c.id);
  }

  // ---- How the tree changes ----------------------------------------------------

  /** Each constructor is one locked update made by the dispatcher. */
  datatype TreeStep =
    | AddSublead(lead: Id)
    | AddWorker(worker: Id, layer: Id)
    | AddIndex(worker: Id)
    | DropIndex(worker: Id)
    | Detach(lead: Id)
    | Archive(lead: Id)

  function Reworked(layers: seq<Layer>, lead: Id, f: Layer -> Layer): (r: seq<Layer>)
    ensures |r| == |layers|
    ensures forall i :: 0 <= i < |layers| ==> r[i] == if layers[i].lead == lead then f(layers[i]) else layers[i]
  {
    if layers == [] then []
    else [if layers[0].lead == lead then f(layers[0]) else layers[0]] + Reworked(layers[1..], lead, f)
  }

  predicate HasLayer(t: Tree, lead: Id) { exists i :: 0 <= i < |t.layers| && t.layers[i].lead == lead }

  /** An actor id is registered under one layer only; ids are generated afresh. */
  predicate TreeEnabled(t: Tree, home: map<Id, Id>, e: TreeStep) {
    match e
    case AddSublead(s) => s != t.lead && !HasLayer(t, s)
    case AddWorker(w, l) => (l == t.lead || HasLayer(t, l)) && (w in home ==> home[w] == l)
    case AddIndex(w) => w in home
    case _ => true
  }

  function TreeAfter(t: Tree, home: map<Id, Id>, e: TreeStep): Tree
    requires TreeEnabled(t, home, e)
  {
    match e
    case AddSublead(s) => t.(layers := t.layers + [Layer(s, Live, {})])
    case AddWorker(w, l) =>
      if l == t.lead then t.(rootWorkers := t.rootWorkers + {w})
      else t.(layers := Reworked(t.layers, l, (x: Layer) => x.(workers := x.workers + {w})))
    case AddIndex(w) => t.(index := t.index[w := if home[w] == t.lead then None else Some(home[w])])
    case DropIndex(w) => t.(index := t.index - {w})
    case Detach(s) =>
      t.(layers := Reworked(t.layers, s, (x: Layer) => if x.phase == Live then x.(phase := Detached) else x))
    case Archive(s) =>
      t.(layers := Reworked(t.layers, s, (x: Layer) => if x.phase == Detached then x.(phase := Archived) else x))
  }

  function HomeAfter(home: map<Id, Id>, e: TreeStep): map<Id, Id> {
    if e.AddWorker? then home[e.worker := e.layer] else home
  }

  ghost predicate Extends(home: map<Id, Id>, home': map<Id, Id>) {
    forall w :: w in home ==> w in home' && home'[w] == home[w]
  }

  lemma {:induction false} TreeStepFits(t: Tree, home: map<Id, Id>, e: TreeStep)
    requires Fits(t, home) && TreeEnabled(t, home, e)
    ensures Fits(TreeAfter(t, home, e), HomeAfter(home, e))
    ensures Extends(home, HomeAfter(home, e)) && TreeAfter(t, home, e).lead == t.lead
  {
    var t', home' := TreeAfter(t, home, e), HomeAfter(home, e);
    forall i, w | 0 <= i < |t'.layers| && w in t'.layers[i].workers
      ensures w in home' && home'[w] == t'.layers[i].lead
    {
      if i < |t.layers| {
        assert t'.layers[i].lead == t.layers[i].lead;
      }
    }
  }

  /** Detaching and archiving a sub-tree leaves every worker's parent as it was, whatever other sub-trees are doing. */
  lemma {:induction false} ArchivingKeepsParents(t: Tree, home: map<Id, Id>, s: Id, w: Id)
    requires Fits(t, home)
    requires forall i :: 0 <= i < |t.layers| && t.layers[i].lead == s ==> t.layers[i].phase != Detached
    ensures var gone := TreeAfter(t, home, Detach(s));
            && WorkerParent(TreeAfter(gone, home, Archive(s)), w) == WorkerParent(t, w)
            && WorkerParent(gone, w) in {None, WorkerParent(t, w)}
  {
    var gone := TreeAfter(t, home, Detach(s));
    var back := TreeAfter(gone, home, Archive(s));
    TreeStepFits(t, home, Detach(s));
    TreeStepFits(gone, home, Archive(s));
    ParentIsFound(t, home, w);
    ParentIsFound(back, home, w);
    ParentIsHome(t, home, w);
    ParentIsHome(back, home, w);
    ParentIsHome(gone, home, w);
    ParentIsFound(gone, home, w);
    assert forall i :: 0 <= i < |t.layers| ==>
      && back.layers[i].workers == gone.layers[i].workers == t.layers[i].workers
      && (back.layers[i].phase == Detached <==> t.layers[i].phase == Detached);
    assert WorkerParent(back, w) == None <==> WorkerParent(t, w) == None;
  }

  // ---- Runs of tree steps ----------------------------------------------------------

  datatype Grove = Grove(tree: Tree, home: map<Id, Id>)

  /** Any steps, in any order; one that is not enabled does not happen. */
  function After(g: Grove, es: seq<TreeStep>): Grove {
    if es == [] then g
    else
      var h, e := After(g, es[..|es| - 1]), es[|es| - 1];
      if TreeEnabled(h.tree, h.home, e) then Grove(TreeAfter(h.tree, h.home, e), HomeAfter(h.home, e)) else h
  }

  /** Layers keep their place, lead and workers. */
  ghost predicate LayersStay(a: Tree, b: Tree) {
    && |a.layers| <= |b.layers|
    && forall i :: 0 <= i < |a.layers| ==>
       b.layers[i].lead == a.layers[i].lead && a.layers[i].workers <= b.layers[i].workers
  }

  lemma {:induction false} RunFits(g: Grove, es: seq<TreeStep>)
    requires Fits(g.tree, g.home)
    ensures var h := After(g, es);
            Fits(h.tree, h.home) && Extends(g.home, h.home) && h.tree.lead == g.tree.lead && LayersStay(g.tree, h.tree)
    decreases |es|
  {
    if es != [] {
      var h, e := After(g, es[..|es| - 1]), es[|es| - 1];
      RunFits(g, es[..|es| - 1]);
      if TreeEnabled(h.tree, h.home, e) {
        TreeStepFits(h.tree, h.home, e);
        assert LayersStay(h.tree, TreeAfter(h.tree, h.home, e));
      }
    }
  }

  /**
   A parent, once answered, never changes: after any run of registrations, reapings and
   terminations the lookup answers the same, or nothing, and nothing exactly while the worker is
   neither indexed nor a root worker and every layer that holds it is between the two lists.
   */
  lemma {:induction false} ParentsNeverChange(g: Grove, es: seq<TreeStep>, w: Id)
    requires Fits(g.tree, g.home) && WorkerParent(g.tree, w).Some?
    ensures var t := After(g, es).tree;
            && WorkerParent(t, w) in {None, WorkerParent(g.tree, w)}
            && (WorkerParent(t, w) == None <==>
                  && w !in t.index && w !in t.rootWorkers
                  && forall i :: 0 <= i < |t.layers| && w in t.layers[i].workers ==> t.layers[i].phase == Detached)
  {
    var h := After(g, es);
    RunFits(g, es);
    ParentIsHome(g.tree, g.home, w);
    ParentIsHome(h.tree, h.home, w);
    ParentIsFound(h.tree, h.home, w);
  }

  /** Whatever happens around a termination, once the layer is archived its workers have their parent again. */
  lemma {:induction false} ArchivedWorkersHaveTheirParent(g: Grove, es: seq<TreeStep>, i: nat, w: Id)
    requires Fits(g.tree, g.home) && i < |g.tree.layers| && w in g.tree.layers[i].workers
    ensures var s := g.tree.layers[i].lead;
            WorkerParent(After(g, es + [Archive(s)]).tree, w) == Some(s)
  {
    var s := g.tree.layers[i].lead;
    var h := After(g, es);
    assert (es + [Archive(s)])[..|es|] == es;
    RunFits(g, es);
    TreeStepFits(h.tree, h.home, Archive(s));
    var t := TreeAfter(h.tree, h.home, Archive(s));
    assert t.layers[i].phase != Detached && w in t.layers[i].workers;
    ParentIsFound(t, h.home, w);
    ParentIsHome(t, h.home, w);
  }

  /** Between the two steps a reaped worker of the sub-tree has no parent at all. */
  lemma {:induction false} DetachedWorkerIsOrphaned()
    ensures var t := Tree("lead", map[], {"lead"}, [Layer("s1", Live, {"w1"})]);
            var home := map["lead" := "lead", "w1" := "s1"];
            && Fits(t, home)
            && WorkerParent(t, "w1") == Some("s1")
            && WorkerParent(TreeAfter(t, home, Detach("s1")), "w1") == None
            && WorkerParent(TreeAfter(TreeAfter(t, home, Detach("s1")), home, Archive("s1")), "w1") == Some("s1")
  {
    var t := Tree("lead", map[], {"lead"}, [Layer("s1", Live, {"w1"})]);
    var home := map["lead" := "lead", "w1" := "s1"];
    assert t.layers[1..] == [];
    var gone := TreeAfter(t, home, Detach("s1"));
    assert gone.layers == [Layer("s1", Detached, {"w1"})];
    ParentIsFound(gone, home, "w1");
    var back := TreeAfter(gone, home, Archive("s1"));
    assert back.layers == [Layer("s1", Archived, {"w1"})];
    ParentIsFound(back, home, "w1");
    ParentIsHome(back, home, "w1");
    ParentIsFound(t, home, "w1");
    ParentIsHome(t, home, "w1");
  }
}
