/** The terminal UI's state, without rendering: tiles and focus, modes, and the approval queue. */
module Tui {
  import opened Options

  type Id = string

  datatype Tile = Tile(id: Id, completedAt: Option<int>)

  datatype NoticeReason = Promoted | Disappeared

  datatype Notice = Notice(taskId: Id, reason: NoticeReason)

  datatype ApprovalKind = Plan | Action

  /** An approval as the dispatcher sends it. */
  datatype Request = Request(id: Id, taskId: string, summary: string, plan: Option<string>, kind: ApprovalKind)

  /** An approval as the queue keeps it. */
  datatype Item = Item(id: Id, path: string, summary: string, plan: Option<string>, kind: ApprovalKind)

  datatype SubMode = Overview | Editing(draft: string) | Rejecting(draft: string)

  /** `Elsewhere` stands for the help, picker, kill, reprompt and policy modes. */
  datatype Mode =
    | Normal
    | Completed(selected: Id)
    | Detail(taskId: Id, returnTo: Mode)
    | Approval(request: Request, sub: SubMode)
    | Elsewhere(name: string)

  datatype Answer = Answer(id: Id, approved: bool, comment: Option<string>, edited: Option<string>,
                           reason: Option<string>)

  datatype App = App(tasks: seq<Tile>, focus: nat, mode: Mode, notice: Option<Notice>, completedAfter: int,
                     items: seq<Item>, selected: nat, listPane: bool, client: bool, connected: bool, sent: seq<Answer>)

  // ---- Tiles -----------------------------------------------------------------------------------

  /** Whole seconds between two millisecond instants, toward zero. */
  function Seconds(ms: int): int { if ms >= 0 then ms / 1000 else -(-ms / 1000) }

  predicate IsPromoted(t: Tile, after: int, now: int) {
    t.completedAt.Some? && Seconds(now - t.completedAt.value) >= after
  }

  /** Tile positions below `n` that are, or are not, promoted, in order. */
  function Indices(ts: seq<Tile>, n: nat, promoted: bool, after: int, now: int): (xs: seq<nat>)
    requires n <= |ts|
    ensures forall i :: 0 <= i < |xs| ==> xs[i] < n
  {
    if n == 0 then []
    else
      Indices(ts, n - 1, promoted, after, now) +
      (if IsPromoted(ts[n - 1], after, now) == promoted then [n - 1] else [])
  }

  lemma {:induction false} IndicesMean(ts: seq<Tile>, n: nat, promoted: bool, after: int, now: int)
    requires n <= |ts|
    ensures var xs := Indices(ts, n, promoted, after, now);
            && (forall k: nat :: k in xs <==> k < n && IsPromoted(ts[k], after, now) == promoted)
            && forall i, j :: 0 <= i < j < |xs| ==> xs[i] < xs[j]
    decreases n
  {
    if n > 0 { IndicesMean(ts, n - 1, promoted, after, now); }
  }

  function ActiveIndices(a: App, now: int): seq<nat> { Indices(a.tasks, |a.tasks|, false, a.completedAfter, now) }

  /** Latest completion first; ties keep their order. */
  predicate Later(x: Tile, y: Tile) {
    x.completedAt.Some? && (y.completedAt.None? || x.completedAt.value > y.completedAt.value)
  }

  function PlaceIndex(ts: seq<Tile>, i: nat, xs: seq<nat>): seq<nat>
    requires i < |ts| && forall j :: 0 <= j < |xs| ==> xs[j] < |ts|
  {
    if xs == [] then [i]
    else if Later(ts[xs[0]], ts[i]) then [xs[0]] + PlaceIndex(ts, i, xs[1..])
    else [i] + xs
  }

  function SortIndices(ts: seq<Tile>, xs: seq<nat>): seq<nat>
    requires forall j :: 0 <= j < |xs| ==> xs[j] < |ts|
    ensures forall j :: 0 <= j < |SortIndices(ts, xs)| ==> SortIndices(ts, xs)[j] < |ts|
    decreases |xs|
  {
    if xs == [] then []
    else
      PlaceInRange(ts, xs[0], SortIndices(ts, xs[1..]));
      PlaceIndex(ts, xs[0], SortIndices(ts, xs[1..]))
  }

  lemma {:induction false} PlaceInRange(ts: seq<Tile>, i: nat, xs: seq<nat>)
    requires i < |ts| && forall j :: 0 <= j < |xs| ==> xs[j] < |ts|
    ensures forall j :: 0 <= j < |PlaceIndex(ts, i, xs)| ==> PlaceIndex(ts, i, xs)[j] < |ts|
    decreases |xs|
  {
    if xs != [] && Later(ts[xs[0]], ts[i]) { PlaceInRange(ts, i, xs[1..]); }
  }

  function CompletedIndices(a: App, now: int): seq<nat> {
    SortIndices(a.tasks, Indices(a.tasks, |a.tasks|, true, a.completedAfter, now))
  }

  /** `xs[i]` may stand before `xs[j]`: it completed later, or at the same time and comes first. */
  predicate Ordered(ts: seq<Tile>, i: nat, j: nat)
    requires i < |ts| && j < |ts|
  {
    Later(ts[i], ts[j]) || (!Later(ts[j], ts[i]) && i < j)
  }

  ghost predicate Sorted(ts: seq<Tile>, xs: seq<nat>) {
    && (forall j :: 0 <= j < |xs| ==> xs[j] < |ts|)
    && forall i, j :: 0 <= i < j < |xs| ==> Ordered(ts, xs[i], xs[j])
  }

  lemma {:induction false} PlaceMembers(ts: seq<Tile>, i: nat, xs: seq<nat>, k: nat)
    requires i < |ts| && forall j :: 0 <= j < |xs| ==> xs[j] < |ts|
    ensures k in PlaceIndex(ts, i, xs) <==> k == i || k in xs
    decreases |xs|
  {
    if xs != [] {
      assert xs == [xs[0]] + xs[1..];
      if Later(ts[xs[0]], ts[i]) { PlaceMembers(ts, i, xs[1..], k); }
    }
  }

  lemma {:induction false} PlaceSorts(ts: seq<Tile>, i: nat, xs: seq<nat>)
    requires i < |ts| && Sorted(ts, xs) && forall j :: 0 <= j < |xs| ==> i < xs[j]
    ensures Sorted(ts, PlaceIndex(ts, i, xs))
    decreases |xs|
  {
    if xs != [] {
      if Later(ts[xs[0]], ts[i]) {
        PlaceSorts(ts, i, xs[1..]);
        var rest := PlaceIndex(ts, i, xs[1..]);
        forall j | 0 <= j < |rest| ensures Ordered(ts, xs[0], rest[j]) {
          PlaceMembers(ts, i, xs[1..], rest[j]);
          if rest[j] != i {
            var k :| 0 <= k < |xs[1..]| && xs[1..][k] == rest[j];
            assert Ordered(ts, xs[0], xs[k + 1]);
          }
        }
      } else {
        forall j | 0 <= j < |xs| ensures Ordered(ts, i, xs[j]) {
          assert j == 0 || Ordered(ts, xs[0], xs[j]);
        }
      }
    }
  }

  lemma {:induction false} SortSorts(ts: seq<Tile>, xs: seq<nat>)
    requires forall j :: 0 <= j < |xs| ==> xs[j] < |ts|
    requires forall i, j :: 0 <= i < j < |xs| ==> xs[i] < xs[j]
    ensures Sorted(ts, SortIndices(ts, xs)) && forall k :: k in SortIndices(ts, xs) <==> k in xs
    decreases |xs|
  {
    if xs != [] {
      SortSorts(ts, xs[1..]);
      assert xs == [xs[0]] + xs[1..];
      var rest := SortIndices(ts, xs[1..]);
      forall j | 0 <= j < |rest| ensures xs[0] < rest[j] {
        assert rest[j] in rest;
        var k :| 0 <= k < |xs[1..]| && xs[1..][k] == rest[j];
        assert xs[0] < xs[k + 1];
      }
      PlaceSorts(ts, xs[0], rest);
      forall k: nat ensures k in PlaceIndex(ts, xs[0], rest) <==> k == xs[0] || k in rest {
        PlaceMembers(ts, xs[0], rest, k);
      }
    }
  }

  /** Each tile is on exactly one of the two pages, and the completed page runs from latest to earliest. */
  lemma {:induction false} PagesPartitionTiles(a: App, now: int)
    ensures forall k :: 0 <= k < |a.tasks| ==> (k in ActiveIndices(a, now) <==> k !in CompletedIndices(a, now))
    ensures Sorted(a.tasks, CompletedIndices(a, now))
    ensures forall i, j :: 0 <= i < j < |CompletedIndices(a, now)| ==>
            CompletedIndices(a, now)[i] != CompletedIndices(a, now)[j]
  {
    IndicesMean(a.tasks, |a.tasks|, true, a.completedAfter, now);
    IndicesMean(a.tasks, |a.tasks|, false, a.completedAfter, now);
    SortSorts(a.tasks, Indices(a.tasks, |a.tasks|, true, a.completedAfter, now));
  }

  /** The first position of an id, or the number of tiles. */
  function Position(ts: seq<Tile>, id: Id): (i: nat)
    ensures i <= |ts| && (i < |ts| ==> ts[i].id == id) && forall j :: 0 <= j < i ==> ts[j].id != id
  {
    if ts == [] || ts[0].id == id then 0 else 1 + Position(ts[1..], id)
  }

  function FocusedId(a: App): Option<Id> { if a.focus < |a.tasks| then Some(a.tasks[a.focus].id) else None }

  // ---- Snapshots ----------------------------------------------------------------------------------

  predicate OnGrid(m: Mode) { !m.Detail? && !m.Completed? }

  function ActiveFocus(a: App, now: int): App {
    var active := ActiveIndices(a, now);
    if !OnGrid(a.mode) || active == [] || a.focus in active then a
    else a.(focus := active[0],
            notice := if a.notice.None? && a.focus < |a.tasks|
                      then Some(Notice(a.tasks[a.focus].id, Promoted)) else a.notice)
  }

  /** The tiles replaced; a focused id that is gone is noted, and the focus clamped. */
  function Clamped(a: App, tasks: seq<Tile>, gone: Option<Id>): App {
    a.(tasks := tasks,
       notice := if gone.Some? then Some(Notice(gone.value, Disappeared)) else a.notice,
       focus := if tasks != [] && a.focus >= |tasks| then |tasks| - 1 else a.focus)
  }

  function Snapshot(a: App, tasks: seq<Tile>, now: int): App {
    var id := FocusedId(a);
    if id.Some? && Position(tasks, id.value) < |tasks| then
      ActiveFocus(a.(tasks := tasks, focus := Position(tasks, id.value)), now)
    else
      FellBack(ActiveFocus(Clamped(a, tasks, id), now), now)
  }

  /** The completed page closes when nothing is on it. */
  function FellBack(a: App, now: int): App {
    if a.mode.Completed? && CompletedIndices(a, now) == [] then a.(mode := Normal) else a
  }

  lemma {:induction false} ActiveFocusMoves(a: App, now: int)
    ensures var b, active := ActiveFocus(a, now), ActiveIndices(a, now);
            && b == a.(focus := b.focus, notice := b.notice) && ActiveIndices(b, now) == active
            && (b != a ==> OnGrid(a.mode) && active != [] && b.focus == active[0] && a.focus !in active
                           && (a.notice.Some? ==> b.notice == a.notice)
                           && (a.focus < |a.tasks| && a.notice.None? ==>
                               b.notice == Some(Notice(a.tasks[a.focus].id, Promoted))))
            && (b != a && a.focus < |a.tasks| ==> IsPromoted(a.tasks[a.focus], a.completedAfter, now))
            && (a.focus < |a.tasks| && !(OnGrid(a.mode) && IsPromoted(a.tasks[a.focus], a.completedAfter, now)) ==>
                b == a)
  {
    IndicesMean(a.tasks, |a.tasks|, false, a.completedAfter, now);
  }

  /** The focused tile is there; on the grid it is an active one if there is any. */
  lemma {:induction false} SnapshotFocusInRange(a: App, tasks: seq<Tile>, now: int)
    ensures var b := Snapshot(a, tasks, now);
            && b.tasks == tasks && (tasks != [] ==> b.focus < |tasks|)
            && (OnGrid(a.mode) && ActiveIndices(b, now) != [] ==> b.focus in ActiveIndices(b, now))
  {
    var id := FocusedId(a);
    if id.Some? && Position(tasks, id.value) < |tasks| {
      ActiveFocusMoves(a.(tasks := tasks, focus := Position(tasks, id.value)), now);
    } else {
      ActiveFocusMoves(Clamped(a, tasks, id), now);
    }
  }

  /** What a snapshot may do to a focus on `id`. */
  ghost predicate FocusFollows(a: App, b: App, id: Id, now: int) {
    var pos := Position(b.tasks, id);
    && (FocusedId(b) != Some(id) ==> b.notice.Some?)
    && (pos == |b.tasks| ==> b.notice == Some(Notice(id, Disappeared)))
    && (pos < |b.tasks| && FocusedId(b) != Some(id) ==>
          && OnGrid(a.mode) && IsPromoted(b.tasks[pos], a.completedAfter, now)
          && ActiveIndices(b, now) != [] && b.focus == ActiveIndices(b, now)[0]
          && b.notice == (if a.notice.None? then Some(Notice(id, Promoted)) else a.notice))
    && (pos < |b.tasks| && !(OnGrid(a.mode) && IsPromoted(b.tasks[pos], a.completedAfter, now)) ==>
        b.focus == pos && b.notice == a.notice)
  }

  /**
   The focus stays on its id while that id is there and may keep it; an id that is gone is named
   in the notice; otherwise the focus goes to the first active tile and a notice stands.
   */
  lemma {:induction false} FocusMovesOnlyWithNotice(a: App, tasks: seq<Tile>, now: int)
    requires FocusedId(a).Some?
    ensures Snapshot(a, tasks, now).tasks == tasks
    ensures FocusFollows(a, Snapshot(a, tasks, now), FocusedId(a).value, now)
  {
    if Position(tasks, FocusedId(a).value) < |tasks| { FocusKept(a, tasks, now); } else { FocusGone(a, tasks, now); }
  }

  lemma {:induction false} FocusKept(a: App, tasks: seq<Tile>, now: int)
    requires FocusedId(a).Some? && Position(tasks, FocusedId(a).value) < |tasks|
    ensures Snapshot(a, tasks, now).tasks == tasks
    ensures FocusFollows(a, Snapshot(a, tasks, now), FocusedId(a).value, now)
  {
    var id := FocusedId(a).value;
    var c := a.(tasks := tasks, focus := Position(tasks, id));
    assert c.tasks[c.focus].id == id;
    ActiveFocusMoves(c, now);
    assert Snapshot(a, tasks, now) == ActiveFocus(c, now);
  }

  lemma {:induction false} FocusGone(a: App, tasks: seq<Tile>, now: int)
    requires FocusedId(a).Some? && Position(tasks, FocusedId(a).value) == |tasks|
    ensures Snapshot(a, tasks, now).tasks == tasks
    ensures FocusFollows(a, Snapshot(a, tasks, now), FocusedId(a).value, now)
  {
    var c := Clamped(a, tasks, FocusedId(a));
    ActiveFocusMoves(c, now);
  }

  // ---- Detail --------------------------------------------------------------------------------------

  function EnterDetail(a: App, id: Id): App {
    if a.mode.Detail? then a
    else
      var pos := Position(a.tasks, id);
      a.(focus := if pos < |a.tasks| then pos else a.focus,
         mode := Detail(id, if a.mode.Completed? then a.mode else Normal))
  }

  function ExitDetail(a: App): App { a.(mode := if a.mode.Detail? then a.mode.returnTo else Normal) }

  // ---- The approval queue -----------------------------------------------------------------------------

  function Find(items: seq<Item>, id: Id): (i: nat)
    ensures i <= |items| && (i < |items| ==> items[i].id == id) && forall j :: 0 <= j < i ==> items[j].id != id
  {
    if items == [] || items[0].id == id then 0 else 1 + Find(items[1..], id)
  }

  function ItemOf(r: Request): Item {
    Item(r.id, if r.taskId == "" then "root" else r.taskId, r.summary, r.plan, r.kind)
  }

  function RequestOf(i: Item): Request { Request(i.id, i.path, i.summary, i.plan, i.kind) }

  function Received(a: App, r: Request): App {
    a.(items := if Find(a.items, r.id) < |a.items| then a.items else a.items + [ItemOf(r)],
       mode := Approval(r, Overview))
  }

  function Ended(a: App): App {
    a.(connected := false, mode := if a.mode.Approval? then Normal else a.mode)
  }

  function Removed(a: App, id: Id): App {
    var pos := Find(a.items, id);
    var items := if pos < |a.items| then Without(a.items, pos) else a.items;
    a.(items := items,
       selected := if items == [] then 0 else if a.selected >= |items| then |items| - 1 else a.selected)
  }

  function SendApprove(a: App, id: Id, approved: bool, comment: Option<string>, edited: Option<string>): App {
    if !a.client then a
    else Removed(a.(sent := a.sent + [Answer(id, approved, comment, edited, if approved then None else comment)]), id)
  }

  /** `plain`: pressed without modifiers; `chord`: with control or alt. */
  datatype Key = Char(c: char, plain: bool) | Enter(chord: bool) | F2 | Esc | Backspace | Up | Down | CtrlC | NoKey

  function Dismissed(a: App, id: Id): App {
    var pos := Find(a.items, id);
    a.(mode := Normal, listPane := true, selected := if pos < |a.items| then pos else a.selected)
  }

  function OverviewKey(a: App, r: Request, k: Key): App {
    if k.Char? && k.c == 'y' then SendApprove(a, r.id, true, None, None).(mode := Normal)
    else if k.Char? && k.c == 'n' then a.(mode := Approval(r, Rejecting("")))
    else if k.Char? && k.c == 'e' then a.(mode := Approval(r, Editing(r.summary)))
    else if k.Esc? then Dismissed(a, r.id)
    else a
  }

  function WithDraft(sub: SubMode, draft: string): SubMode { if sub.Editing? then Editing(draft) else Rejecting(draft) }

  function DraftKey(a: App, r: Request, sub: SubMode, k: Key): App
    requires !sub.Overview?
  {
    match k
    case F2 => Submitted(a, r, sub)
    case Enter(chord) =>
      if chord then Submitted(a, r, sub) else a.(mode := Approval(r, WithDraft(sub, sub.draft + ['\n'])))
    case Esc => Dismissed(a, r.id)
    case Char(c, _) => a.(mode := Approval(r, WithDraft(sub, sub.draft + [c])))
    case Backspace =>
      a.(mode := Approval(r, WithDraft(sub, if sub.draft == [] then [] else sub.draft[..|sub.draft| - 1])))
    case _ => a
  }

  function Submitted(a: App, r: Request, sub: SubMode): App
    requires !sub.Overview?
  {
    (if sub.Editing? then SendApprove(a, r.id, true, None, Some(sub.draft))
     else SendApprove(a, r.id, false, Some(sub.draft), None)).(mode := Normal)
  }

  function SelectDown(a: App): App { if a.items == [] then a else a.(selected := (a.selected + 1) % |a.items|) }

  function SelectUp(a: App): App {
    if a.items == [] then a else a.(selected := if a.selected == 0 then |a.items| - 1 else a.selected - 1)
  }

  function OpenSelected(a: App): App {
    if a.selected < |a.items| then a.(mode := Approval(RequestOf(a.items[a.selected]), Overview)) else a
  }

  /** Keys the approval list takes when it has the focus. */
  function ListKey(a: App, k: Key): App {
    match k
    case Down => SelectDown(a)
    case Up => SelectUp(a)
    case Char(c, _) => if c == 'j' then SelectDown(a) else if c == 'k' then SelectUp(a) else a
    case Enter(_) => OpenSelected(a)
    case Esc => a.(listPane := false)
    case _ => a
  }

  function Reset(a: App): App {
    a.(tasks := [], focus := 0, mode := Normal, items := [], selected := 0, listPane := false, connected := false)
  }

  /** Whether or not a control connection to the run could be had. */
  function Linked(a: App, client: bool): App { a.(client := client, connected := client) }

  // ---- Runs --------------------------------------------------------------------------------------------

  /** `Wander` is any other handler: modes other than the approval modal change among themselves. */
  datatype Event =
    | Snap(tasks: seq<Tile>, now: int)
    | Ask(request: Request)
    | Over
    | Press(key: Key)
    | Switch(client: bool)
    | Wander(mode: Mode, focus: nat, listPane: bool)

  /** A mode that neither is nor will return to the approval modal. */
  predicate Clear(m: Mode) { !m.Approval? && (m.Detail? ==> m.returnTo == Normal || m.returnTo.Completed?) }

  /** The keys that end the program from the approval modal: control-C, and a plain `q` in its overview. */
  predicate Quits(a: App, k: Key) { k.CtrlC? || (a.mode.Approval? && a.mode.sub.Overview? && k == Char('q', true)) }

  function KeyPressed(a: App, k: Key): App {
    var b := a.(notice := None);
    if k.CtrlC? then a
    else if a.mode.Approval? && a.mode.sub.Overview? then OverviewKey(b, a.mode.request, k)
    else if a.mode.Approval? then DraftKey(b, a.mode.request, a.mode.sub, k)
    else if a.mode == Normal && a.listPane then ListKey(b, k)
    else b
  }

  function Next(a: App, e: Event): App {
    match e
    case Snap(tasks, now) => Snapshot(a, tasks, now)
    case Ask(r) => Received(a, r)
    case Over => Ended(a)
    case Press(k) => KeyPressed(a, k)
    case Switch(client) => Linked(Reset(a.(notice := None)), client)
    case Wander(m, focus, pane) =>
      if a.mode.Approval? || !Clear(m) then a else a.(mode := m, focus := focus, listPane := pane, notice := None)
  }

  function Start(completedAfter: int, client: bool): App {
    App([], 0, Normal, None, completedAfter, [], 0, false, client, client, [])
  }

  function Exec(completedAfter: int, client: bool, es: seq<Event>): App {
    if es == [] then Start(completedAfter, client)
    else Next(Exec(completedAfter, client, es[..|es| - 1]), es[|es| - 1])
  }

  predicate Queued(a: App, id: Id) { Find(a.items, id) < |a.items| }

  ghost predicate UniqueIds(items: seq<Item>) { forall i, j :: 0 <= i < j < |items| ==> items[i].id != items[j].id }

  ghost predicate QueueInv(a: App) {
    && UniqueIds(a.items)
    && (if a.items == [] then a.selected == 0 else a.selected < |a.items|)
    && (a.mode.Approval? ==> Queued(a, a.mode.request.id))
    && (a.mode.Detail? ==> a.mode.returnTo == Normal || a.mode.returnTo.Completed?)
  }

  /** The items without the one at `pos`. */
  function Without(items: seq<Item>, pos: nat): (r: seq<Item>)
    requires pos < |items|
    ensures |r| == |items| - 1 && forall i :: 0 <= i < |r| ==> r[i] == (if i < pos then items[i] else items[i + 1])
  {
    items[..pos] + items[pos + 1..]
  }

  lemma {:induction false} WithoutKeepsOthers(items: seq<Item>, pos: nat, x: Id)
    requires pos < |items| && UniqueIds(items)
    ensures Find(Without(items, pos), x) < |items| - 1 <==> Find(items, x) < |items| && x != items[pos].id
  {
    var r := Without(items, pos);
    if i :| 0 <= i < |items| && items[i].id == x && i != pos { assert r[if i < pos then i else i - 1].id == x; }
    if i :| 0 <= i < |r| && r[i].id == x { assert items[if i < pos then i else i + 1].id == x; }
  }

  lemma {:induction false} RemovedFits(a: App, id: Id)
    requires UniqueIds(a.items) && (if a.items == [] then a.selected == 0 else a.selected < |a.items|)
    ensures var b := Removed(a, id);
            && UniqueIds(b.items) && (if b.items == [] then b.selected == 0 else b.selected < |b.items|)
            && !Queued(b, id) && forall x :: x != id ==> (Queued(b, x) <==> Queued(a, x))
  {
    var pos := Find(a.items, id);
    if pos < |a.items| {
      forall x ensures Find(Without(a.items, pos), x) < |a.items| - 1 <==> Find(a.items, x) < |a.items| && x != id {
        WithoutKeepsOthers(a.items, pos, x);
      }
    }
  }

  /** Answering keeps the queue in order and takes out the answered request only. */
  lemma {:induction false} SendFits(a: App, id: Id, approved: bool, comment: Option<string>, edited: Option<string>)
    requires QueueInv(a)
    ensures var b := SendApprove(a, id, approved, comment, edited).(mode := Normal);
            && QueueInv(b)
            && (forall x :: Queued(a, x) && !Queued(b, x) ==> x == id && a.client)
            && (b.sent == a.sent
                || (a.client
                    && b.sent == a.sent + [Answer(id, approved, comment, edited, if approved then None else comment)]))
            && (a.client ==> b.sent != a.sent)
  {
    var c := a.(sent := a.sent + [Answer(id, approved, comment, edited, if approved then None else comment)]);
    var b := SendApprove(a, id, approved, comment, edited).(mode := Normal);
    if a.client {
      RemovedFits(c, id);
      assert b.items == Removed(c, id).items;
      assert forall x :: (Queued(c, x) <==> Queued(a, x)) && (Queued(b, x) <==> Queued(Removed(c, id), x));
    } else {
      assert forall x :: Queued(b, x) <==> Queued(a, x);
    }
  }

  /** A key in the modal keeps the queue, but for the modal's own request if it is answered. */
  ghost predicate Answers(a: App, b: App, id: Id) {
    && QueueInv(b)
    && forall x :: Queued(a, x) && !Queued(b, x) ==>
         x == id && a.client && exists y: Answer :: y.id == id && b.sent == a.sent + [y]
  }

  lemma {:induction false} SendAnswers(a: App, id: Id, approved: bool, comment: Option<string>, edited: Option<string>)
    requires QueueInv(a)
    ensures Answers(a, SendApprove(a, id, approved, comment, edited).(mode := Normal), id)
  {
    SendFits(a, id, approved, comment, edited);
    var b := SendApprove(a, id, approved, comment, edited).(mode := Normal);
    if a.client {
      var y := Answer(id, approved, comment, edited, if approved then None else comment);
      assert y.id == id && b.sent == a.sent + [y];
    }
  }

  lemma {:induction false} SubmittedAnswers(a: App, r: Request, sub: SubMode)
    requires QueueInv(a) && !sub.Overview?
    ensures Answers(a, Submitted(a, r, sub), r.id)
  {
    if sub.Editing? {
      SendAnswers(a, r.id, true, None, Some(sub.draft));
    } else {
      SendAnswers(a, r.id, false, Some(sub.draft), None);
    }
  }

  /** Nothing but the mode, the pane and the selection changes. */
  lemma {:induction false} SameQueue(a: App, b: App, id: Id)
    requires b.items == a.items && QueueInv(b)
    ensures Answers(a, b, id)
  {
    assert forall x :: Queued(b, x) <==> Queued(a, x);
  }

  lemma {:induction false} ModalKeyAnswers(a: App, r: Request, sub: SubMode, k: Key)
    requires QueueInv(a) && a.mode == Approval(r, sub)
    ensures Answers(a, if sub.Overview? then OverviewKey(a, r, k) else DraftKey(a, r, sub, k), r.id)
  {
    var b := if sub.Overview? then OverviewKey(a, r, k) else DraftKey(a, r, sub, k);
    if sub.Overview? && k.Char? && k.c == 'y' {
      SendAnswers(a, r.id, true, None, None);
    } else if !sub.Overview? && (k == F2 || k == Enter(true)) {
      SubmittedAnswers(a, r, sub);
    } else {
      assert b.items == a.items && QueueInv(b);
      SameQueue(a, b, r.id);
    }
  }

  lemma {:induction false} OpenedIsQueued(a: App)
    requires QueueInv(a) && a.selected < |a.items|
    ensures Queued(a, a.items[a.selected].id)
  {
    assert Find(a.items, a.items[a.selected].id) <= a.selected;
  }

  lemma {:induction false} ListKeyInv(a: App, k: Key)
    requires QueueInv(a) && a.mode == Normal
    ensures QueueInv(ListKey(a, k)) && ListKey(a, k).items == a.items
  {
    if a.selected < |a.items| { OpenedIsQueued(a); }
  }

  lemma {:induction false} KeyInv(a: App, k: Key)
    requires QueueInv(a)
    ensures QueueInv(Next(a, Press(k)))
  {
    var b := a.(notice := None);
    if k.CtrlC? { return; }
    if a.mode.Approval? { ModalKeyAnswers(b, a.mode.request, a.mode.sub, k); }
    else if a.mode == Normal && a.listPane { ListKeyInv(b, k); }
  }

  lemma {:induction false} ReceivedInv(a: App, r: Request)
    requires QueueInv(a)
    ensures QueueInv(Received(a, r))
  {
    var b := Received(a, r);
    if !Queued(a, r.id) { assert b.items[|a.items|].id == r.id; }
  }

  lemma {:induction false} SnapshotKeepsQueue(a: App, tasks: seq<Tile>, now: int)
    ensures var b := Snapshot(a, tasks, now);
            b.items == a.items && b.selected == a.selected && b.sent == a.sent && b.client == a.client
              && b.connected == a.connected
            && (b.mode == a.mode || (a.mode.Completed? && b.mode == Normal))
  {
    var id := FocusedId(a);
    if id.Some? && Position(tasks, id.value) < |tasks| {
      ActiveFocusMoves(a.(tasks := tasks, focus := Position(tasks, id.value)), now);
    } else {
      ActiveFocusMoves(Clamped(a, tasks, id), now);
    }
  }

  lemma {:induction false} NextInv(a: App, e: Event)
    requires QueueInv(a)
    ensures QueueInv(Next(a, e))
  {
    match e {
      case Press(k) => KeyInv(a, k);
      case Ask(r) => ReceivedInv(a, r);
      case Snap(tasks, now) =>
        SnapshotKeepsQueue(a, tasks, now);
        assert forall x :: Queued(Snapshot(a, tasks, now), x) <==> Queued(a, x);
      case _ =>
    }
  }

  /**
   Over all runs of events: queued ids are unique, the selection is in range, and an open modal
   shows a queued request.
   */
  lemma {:induction false} QueueStaysConsistent(completedAfter: int, client: bool, es: seq<Event>)
    ensures QueueInv(Exec(completedAfter, client, es))
    decreases |es|
  {
    if es != [] {
      QueueStaysConsistent(completedAfter, client, es[..|es| - 1]);
      NextInv(Exec(completedAfter, client, es[..|es| - 1]), es[|es| - 1]);
    }
  }

  /** A queued request leaves only by its own answer, sent while there is a client, or by a run switch. */
  lemma {:induction false} RequestsLeaveOnlyAnswered(completedAfter: int, client: bool, es: seq<Event>, e: Event,
                                                     id: Id)
    requires var a := Exec(completedAfter, client, es); Queued(a, id) && !Queued(Next(a, e), id)
    ensures var a := Exec(completedAfter, client, es);
            var b := Next(a, e);
            || e.Switch?
            || (&& a.client && a.mode.Approval? && a.mode.request.id == id
                && exists x: Answer :: x.id == id && b.sent == a.sent + [x])
  {
    var a := Exec(completedAfter, client, es);
    QueueStaysConsistent(completedAfter, client, es);
    match e {
      case Press(k) => KeyLeaves(a, k, id);
      case Ask(r) => ReceivedKeeps(a, r, id);
      case Snap(tasks, now) => SnapshotKeepsQueue(a, tasks, now);
      case _ =>
    }
  }

  lemma {:induction false} ReceivedKeeps(a: App, r: Request, id: Id)
    requires Queued(a, id)
    ensures Queued(Received(a, r), id)
  {
    var b := Received(a, r);
    assert b.items[Find(a.items, id)].id == id;
  }

  lemma {:induction false} KeyLeaves(a: App, k: Key, id: Id)
    requires QueueInv(a) && Queued(a, id) && !Queued(Next(a, Press(k)), id)
    ensures var b := Next(a, Press(k));
            && a.client && a.mode.Approval? && a.mode.request.id == id
            && exists x: Answer :: x.id == id && b.sent == a.sent + [x]
  {
    var b := a.(notice := None);
    assert Queued(b, id);
    if a.mode.Approval? { ModalKeyAnswers(b, a.mode.request, a.mode.sub, k); }
    else if a.mode == Normal && a.listPane { ListKeyInv(b, k); }
  }

  lemma {:induction false} ExecSnoc(completedAfter: int, client: bool, es: seq<Event>, e: Event)
    ensures Exec(completedAfter, client, es + [e]) == Next(Exec(completedAfter, client, es), e)
  {
    assert (es + [e])[..|es|] == es;
  }

  // ---- Answers without a connection ------------------------------------------------------------------

  /** Whether the last start or run switch obtained a client. */
  function ClientAt(client: bool, es: seq<Event>): bool {
    if es == [] then client
    else match es[|es| - 1]
         case Switch(c) => c
         case _ => ClientAt(client, es[..|es| - 1])
  }

  /** The connection has ended since then: the run is over, or another client took its place. */
  predicate EndedSince(es: seq<Event>) {
    es != [] && match es[|es| - 1]
                case Over => true
                case Switch(_) => false
                case _ => EndedSince(es[..|es| - 1])
  }

  /**
   Over all runs: a client is there exactly if the last start or switch obtained one, and connected exactly
   until the end.
   */
  lemma {:induction false} ConnectedIff(completedAfter: int, client: bool, es: seq<Event>)
    ensures var a := Exec(completedAfter, client, es);
            a.client == ClientAt(client, es) && (a.connected <==> ClientAt(client, es) && !EndedSince(es))
    decreases |es|
  {
    if es != [] {
      var a, e := Exec(completedAfter, client, es[..|es| - 1]), es[|es| - 1];
      ConnectedIff(completedAfter, client, es[..|es| - 1]);
      StepConnection(a, e);
    }
  }

  lemma {:induction false} StepConnection(a: App, e: Event)
    ensures !e.Switch? ==> Next(a, e).client == a.client
    ensures !e.Switch? && !e.Over? ==> Next(a, e).connected == a.connected
  {
    if e.Snap? { SnapshotKeepsQueue(a, e.tasks, e.now); }
  }

  /** The key answers the request of the open modal. */
  predicate Submits(sub: SubMode, k: Key) {
    if sub.Overview? then k.Char? && k.c == 'y' else k == F2 || k == Enter(true)
  }

  lemma {:induction false} SendsIff(a: App, k: Key)
    ensures Next(a, Press(k)).sent != a.sent <==> a.client && a.mode.Approval? && Submits(a.mode.sub, k)
  {
    var b := a.(notice := None);
    assert forall x: Answer :: |a.sent + [x]| == |a.sent| + 1;
    if a.mode.Approval? && Submits(a.mode.sub, k) && a.client { assert |Next(a, Press(k)).sent| == |a.sent| + 1; }
  }

  /**
   After any run, a key sends an answer over a dead connection if and only if a client was obtained,
   the connection has ended since, and a modal is open in which the key answers.
   */
  lemma {:induction false} DeadAnswerIff(completedAfter: int, client: bool, es: seq<Event>, k: Key)
    ensures var a := Exec(completedAfter, client, es);
            Next(a, Press(k)).sent != a.sent && !a.connected <==>
            ClientAt(client, es) && EndedSince(es) && a.mode.Approval? && Submits(a.mode.sub, k)
  {
    ConnectedIff(completedAfter, client, es);
    SendsIff(Exec(completedAfter, client, es), k);
  }

  /** Since the last end or switch a request arrived, or was opened from the list. */
  predicate OpenedSince(completedAfter: int, client: bool, es: seq<Event>) {
    es != [] &&
    match es[|es| - 1]
    case Ask(_) => true
    case Over => false
    case Switch(_) => false
    case Press(k) =>
      var a := Exec(completedAfter, client, es[..|es| - 1]);
      (k.Enter? && a.mode == Normal && a.listPane) || OpenedSince(completedAfter, client, es[..|es| - 1])
    case _ => OpenedSince(completedAfter, client, es[..|es| - 1])
  }

  /** The end of the connection closes the modal: one that is open was opened, or reopened, after it. */
  lemma {:induction false} ModalWasReopened(completedAfter: int, client: bool, es: seq<Event>)
    requires Exec(completedAfter, client, es).mode.Approval?
    ensures OpenedSince(completedAfter, client, es)
    decreases |es|
  {
    assert es != [];
    var a, e := Exec(completedAfter, client, es[..|es| - 1]), es[|es| - 1];
    if e.Snap? { SnapshotKeepsQueue(a, e.tasks, e.now); }
    if a.mode.Approval? { ModalWasReopened(completedAfter, client, es[..|es| - 1]); }
  }

  lemma {:induction false} ReopenedAfterTheEnd(completedAfter: int, r: Request)
    requires r.taskId != ""
    ensures var a := Exec(completedAfter, true, [Ask(r)] + [Over] + [Wander(Normal, 0, true)] + [Press(Enter(false))]);
            && !a.connected && a.client && a.items == [ItemOf(r)] && a.selected == 0 && a.sent == []
            && a.mode == Approval(r, Overview)
  {
    ExecSnoc(completedAfter, true, [], Ask(r));
    assert [] + [Ask(r)] == [Ask(r)];
    ExecSnoc(completedAfter, true, [Ask(r)], Over);
    ExecSnoc(completedAfter, true, [Ask(r)] + [Over], Wander(Normal, 0, true));
    ExecSnoc(completedAfter, true, [Ask(r)] + [Over] + [Wander(Normal, 0, true)], Press(Enter(false)));
    assert RequestOf(ItemOf(r)) == r;
  }

  /**
   Such a run: the request is reopened from the list and answered, and leaves the queue although nobody is
   connected.
   */
  lemma {:induction false} AnswerAfterTheEndIsAccepted(completedAfter: int, r: Request)
    requires r.taskId != ""
    ensures var a := Exec(completedAfter, true,
                          [Ask(r)] + [Over] + [Wander(Normal, 0, true)] + [Press(Enter(false))]
                            + [Press(Char('y', true))]);
            !a.connected && a.items == [] && a.sent == [Answer(r.id, true, None, None, None)]
  {
    ReopenedAfterTheEnd(completedAfter, r);
    ExecSnoc(completedAfter, true, [Ask(r)] + [Over] + [Wander(Normal, 0, true)] + [Press(Enter(false))],
             Press(Char('y', true)));
    assert [ItemOf(r)][0].id == r.id;
  }
}
