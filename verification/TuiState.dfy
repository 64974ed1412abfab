/** The event handlers as they update the state in place. */
module TuiState {
  import opened Options
  import opened Tui

  class AppState {
    var tasks: seq<Tile>
    var focus: nat
    var mode: Mode
    var notice: Option<Notice>
    var completedAfter: int
    var items: seq<Item>
    var selected: nat
    var listPane: bool
    var client: bool
    var connected: bool
    var sent: seq<Answer>

    constructor (completedAfter: int, client: bool)
      ensures View() == Start(completedAfter, client)
    {
      tasks, focus, mode, notice := [], 0, Normal, None;
      this.completedAfter, this.client, connected := completedAfter, client, client;
      items, selected, listPane, sent := [], 0, false, [];
    }

    ghost function View(): App
      reads this
    {
      App(tasks, focus, mode, notice, completedAfter, items, selected, listPane, client, connected, sent)
    }

    // ---- Tiles ---------------------------------------------------------------------------

    method PositionOf(ts: seq<Tile>, id: Id) returns (i: nat)
      ensures i == Position(ts, id)
    {
      i := 0;
      while i < |ts| && ts[i].id != id
        invariant i <= |ts|
        invariant Position(ts, id) == i + Position(ts[i..], id)
      {
        i := i + 1;
      }
    }

    method CollectIndices(promoted: bool, now: int) returns (xs: seq<nat>)
      ensures xs == Indices(tasks, |tasks|, promoted, completedAfter, now)
    {
      xs := [];
      for i := 0 to |tasks|
        invariant xs == Indices(tasks, i, promoted, completedAfter, now)
      {
        if IsPromoted(tasks[i], completedAfter, now) == promoted { xs := xs + [i]; }
      }
    }

    method EnsureActiveFocus(now: int)
      modifies this`focus, this`notice
      ensures View() == ActiveFocus(old(View()), now)
    {
      if mode.Detail? || mode.Completed? { return; }
      var active := CollectIndices(false, now);
      if active == [] { return; }
      if focus !in active {
        if notice.None? && focus < |tasks| { notice := Some(Notice(tasks[focus].id, Promoted)); }
        focus := active[0];
      }
    }

    method ReplaceTiles(snapshot: seq<Tile>, gone: Option<Id>)
      modifies this`tasks, this`notice, this`focus
      ensures View() == Clamped(old(View()), snapshot, gone)
    {
      tasks := snapshot;
      if gone.Some? { notice := Some(Notice(gone.value, Disappeared)); }
      if tasks != [] && focus >= |tasks| { focus := |tasks| - 1; }
    }

    method ApplySnapshot(snapshot: seq<Tile>, now: int)
      modifies this
      ensures View() == Snapshot(old(View()), snapshot, now)
    {
      var id := if focus < |tasks| then Some(tasks[focus].id) else None;
      if id.Some? {
        var pos := PositionOf(snapshot, id.value);
        if pos < |snapshot| {
          tasks := snapshot;
          focus := pos;
          EnsureActiveFocus(now);
          return;
        }
      }
      ReplaceTiles(snapshot, id);
      EnsureActiveFocus(now);
      FallBack(now);
    }

    method FallBack(now: int)
      modifies this`mode
      ensures View() == FellBack(old(View()), now)
    {
      if mode.Completed? {
        var done := CollectIndices(true, now);
        if done == [] { mode := Normal; }
      }
    }

    method EnterDetailFor(id: Id)
      modifies this`mode, this`focus
      ensures View() == EnterDetail(old(View()), id)
    {
      if mode.Detail? { return; }
      var pos := PositionOf(tasks, id);
      if pos < |tasks| { focus := pos; }
      mode := Detail(id, if mode.Completed? then mode else Normal);
    }

    /** Back to the page the view was entered from, never to a modal; tiles, focus and queue stay. */
    method LeaveDetail()
      modifies this`mode
      ensures View() == ExitDetail(old(View()))
      ensures QueueInv(old(View())) ==> QueueInv(View()) && (mode == Normal || mode.Completed?)
    {
      mode := if mode.Detail? then mode.returnTo else Normal;
    }

    // ---- The approval queue ------------------------------------------------------------------

    method FindItem(id: Id) returns (i: nat)
      ensures i == Find(items, id)
    {
      i := 0;
      while i < |items| && items[i].id != id
        invariant i <= |items|
        invariant Find(items, id) == i + Find(items[i..], id)
      {
        i := i + 1;
      }
    }

    method MoveSelectionDown()
      modifies this`selected
      ensures View() == SelectDown(old(View()))
      ensures items != [] ==> selected < |items|
    {
      if items != [] { selected := (selected + 1) % |items|; }
    }

    method MoveSelectionUp()
      modifies this`selected
      ensures View() == SelectUp(old(View()))
      ensures items != [] && old(selected) < |items| ==> selected < |items|
    {
      if items != [] { selected := if selected == 0 then |items| - 1 else selected - 1; }
    }

    method ApplyApprovalRequest(r: Request)
      modifies this`items, this`mode
      ensures View() == Received(old(View()), r)
      ensures QueueInv(old(View())) ==> QueueInv(View())
    {
      ghost var was := View();
      var pos := FindItem(r.id);
      if pos == |items| {
        items := items + [Item(r.id, if r.taskId == "" then "root" else r.taskId, r.summary, r.plan, r.kind)];
      }
      mode := Approval(r, Overview);
      if QueueInv(was) { ReceivedInv(was, r); }
    }

    method ApplyConnectionEnded()
      modifies this`connected, this`mode
      ensures View() == Ended(old(View()))
      ensures !mode.Approval? && !connected && client == old(client)
      ensures QueueInv(old(View())) ==> QueueInv(View())
      ensures forall id :: Queued(View(), id) <==> Queued(old(View()), id)
    {
      connected := false;
      if mode.Approval? { mode := Normal; }
    }

    method ApplyApproveToList(id: Id)
      modifies this`items, this`selected
      ensures View() == Removed(old(View()), id)
    {
      var pos := FindItem(id);
      if pos < |items| { items := items[..pos] + items[pos + 1..]; }
      if items == [] { selected := 0; } else if selected >= |items| { selected := |items| - 1; }
    }

    method SubmitAnswer(id: Id, approved: bool, comment: Option<string>, edited: Option<string>)
      modifies this`items, this`selected, this`sent
      ensures View() == SendApprove(old(View()), id, approved, comment, edited)
      ensures !client ==> items == old(items) && sent == old(sent)
    {
      if !client { return; }
      var reason := if approved then None else comment;
      sent := sent + [Answer(id, approved, comment, edited, reason)];
      ApplyApproveToList(id);
    }

    method Dismiss(id: Id)
      modifies this`mode, this`listPane, this`selected
      ensures View() == Dismissed(old(View()), id)
    {
      mode := Normal;
      listPane := true;
      var pos := FindItem(id);
      if pos < |items| { selected := pos; }
    }

    /** A key in the modal; control-C, and a plain `q` in the overview, ask the caller to end the program. */
    method HandleApprovalKey(k: Key) returns (quit: bool)
      requires mode.Approval?
      modifies this
      ensures View() == Next(old(View()), Press(k))
      ensures quit <==> Quits(old(View()), k)
      ensures quit ==> items == old(items) && sent == old(sent) && mode == old(mode)
      ensures QueueInv(old(View())) ==> QueueInv(View())
    {
      ghost var was := View();
      quit := k == CtrlC || (mode.sub.Overview? && k == Char('q', true));
      if k == CtrlC { return; }
      notice := None;
      if quit { return; }
      var r, sub := mode.request, mode.sub;
      if sub.Overview? {
        HandleOverview(r, k);
      } else {
        HandleDraft(r, sub, k);
      }
      if QueueInv(was) { KeyInv(was, k); }
    }

    method HandleOverview(r: Request, k: Key)
      modifies this
      ensures View() == OverviewKey(old(View()), r, k)
    {
      if k.Char? && k.c == 'y' {
        SubmitAnswer(r.id, true, None, None);
        mode := Normal;
      } else if k.Char? && k.c == 'n' {
        mode := Approval(r, Rejecting(""));
      } else if k.Char? && k.c == 'e' {
        mode := Approval(r, Editing(r.summary));
      } else if k == Esc {
        Dismiss(r.id);
      }
    }

    method HandleDraft(r: Request, sub: SubMode, k: Key)
      requires !sub.Overview?
      modifies this
      ensures View() == DraftKey(old(View()), r, sub, k)
    {
      var draft := sub.draft;
      if k == F2 || k == Enter(true) {
        if sub.Editing? {
          SubmitAnswer(r.id, true, None, Some(draft));
        } else {
          SubmitAnswer(r.id, false, Some(draft), None);
        }
        mode := Normal;
        return;
      }
      match k {
        case Esc => Dismiss(r.id); return;
        case Char(c, _) => draft := draft + [c];
        case Backspace => if draft != [] { draft := draft[..|draft| - 1]; }
        case Enter(_) => draft := draft + ['\n'];
        case _ => return;
      }
      mode := Approval(r, if sub.Editing? then Editing(draft) else Rejecting(draft));
    }

    /**
     With a request in the queue, the modal opens on the selected one, which is queued and keeps its plan and
     kind.
     */
    method OpenCurrent()
      modifies this`mode
      ensures View() == OpenSelected(old(View()))
      ensures QueueInv(old(View())) && items != [] ==>
        && selected < |items| && mode.Approval? && mode.sub == Overview && Queued(View(), mode.request.id)
        && mode.request.id == items[selected].id && mode.request.plan == items[selected].plan
        && mode.request.kind == items[selected].kind
      ensures QueueInv(old(View())) && mode != old(mode) ==> QueueInv(View())
    {
      if QueueInv(View()) && selected < |items| { OpenedIsQueued(View()); }
      if selected < |items| {
        var i := items[selected];
        mode := Approval(Request(i.id, i.path, i.summary, i.plan, i.kind), Overview);
      }
    }

    /** From any state the queue is empty and in order; nothing of the old run's tiles, modal or connection is left. */
    method ResetForSwitch()
      modifies this
      ensures View() == Reset(old(View()))
      ensures QueueInv(View()) && items == [] && tasks == [] && mode == Normal && !connected
      ensures sent == old(sent) && client == old(client)
    {
      tasks, focus, mode := [], 0, Normal;
      items, selected, listPane := [], 0, false;
      connected := false;
    }

    /** The control connection of the new run, if there is one. */
    method ConnectControl(found: bool)
      modifies this`client, this`connected
      ensures View() == Linked(old(View()), found) && (connected <==> found)
      ensures QueueInv(old(View())) ==> QueueInv(View())
    {
      client, connected := found, found;
    }

    /** Selecting another run, from the picker. */
    method SwitchRun(found: bool)
      modifies this
      ensures View() == Next(old(View()), Switch(found)) && QueueInv(View())
    {
      notice := None;
      ResetForSwitch();
      ConnectControl(found);
    }
  }
}
