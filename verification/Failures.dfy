/** Failure groups of one run, and the histogram over runs listed newest first. */
module Failures {
  import opened Options
  import opened Ranking
  import opened Sums
  import opened Rollups

  function KindOf(t: Task): string { if t.reason.Some? then t.reason.value.kind else "unclassified" }

  function ExcerptOf(t: Task): Option<string> { if t.reason.Some? then Some(t.reason.value.text) else t.preview }

  datatype Group = Group(count: nat, ids: seq<string>, excerpt: Option<string>, statuses: seq<Status>)

  /** The failed records of kind `k`, in order. */
  function Members(ts: seq<Task>, k: string): seq<Task> {
    if ts == [] then []
    else
      var t := ts[|ts| - 1];
      Members(ts[..|ts| - 1], k) + (if t.status != Success && KindOf(t) == k then [t] else [])
  }

  function FailedOf(ts: seq<Task>): seq<Task> {
    if ts == [] then []
    else FailedOf(ts[..|ts| - 1]) + (if ts[|ts| - 1].status != Success then [ts[|ts| - 1]] else [])
  }

  /** What a group says of its members: all of them, the first excerpt there is, each status once. */
  ghost predicate Describes(g: Group, ms: seq<Task>) {
    && g.count == |ms| == |g.ids| && (forall i :: 0 <= i < |ms| ==> g.ids[i] == ms[i].id)
    && (match g.excerpt
        case None => forall i :: 0 <= i < |ms| ==> ExcerptOf(ms[i]) == None
        case Some(_) =>
          exists i :: 0 <= i < |ms| && ExcerptOf(ms[i]) == g.excerpt
                      && forall j :: 0 <= j < i ==> ExcerptOf(ms[j]) == None)
    && (forall i, j :: 0 <= i < j < |g.statuses| ==> g.statuses[i] != g.statuses[j])
    && (forall s :: s in g.statuses <==> exists i :: 0 <= i < |ms| && ms[i].status == s)
  }

  const NEW_GROUP := Group(0, [], None, [])

  function Joined(g: Group, t: Task): Group {
    Group(g.count + 1, g.ids + [t.id], if g.excerpt.None? then ExcerptOf(t) else g.excerpt,
          if t.status in g.statuses then g.statuses else g.statuses + [t.status])
  }

  lemma {:induction false} JoinedDescribes(g: Group, ms: seq<Task>, t: Task)
    requires Describes(g, ms)
    ensures Describes(Joined(g, t), ms + [t])
  {
    var g', ns := Joined(g, t), ms + [t];
    assert forall i :: 0 <= i < |ms| ==> ns[i] == ms[i];
    assert ns[|ms|] == t;
    forall s ensures s in g'.statuses <==> exists i :: 0 <= i < |ns| && ns[i].status == s {
      if i :| 0 <= i < |ms| && ms[i].status == s { assert ns[i].status == s; }
      if s == t.status { assert ns[|ms|].status == s; }
    }
    match g'.excerpt {
      case None =>
      case Some(_) =>
        if g.excerpt.Some? {
          var i :| 0 <= i < |ms| && ExcerptOf(ms[i]) == g.excerpt
            && forall j :: 0 <= j < i ==> ExcerptOf(ms[j]) == None;
          assert ExcerptOf(ns[i]) == g'.excerpt;
        } else {
          assert ExcerptOf(ns[|ms|]) == g'.excerpt;
        }
    }
  }

  type Groups = map<string, Group>

  function Entry(b: Groups, k: string): Group { if k in b then b[k] else NEW_GROUP }

  function Sorted(b: Groups, t: Task): Groups {
    if t.status == Success then b else b[KindOf(t) := Joined(Entry(b, KindOf(t)), t)]
  }

  function Grouped(ts: seq<Task>): Groups {
    if ts == [] then map[] else Sorted(Grouped(ts[..|ts| - 1]), ts[|ts| - 1])
  }

  lemma {:induction false} GroupsDescribe(ts: seq<Task>, k: string)
    ensures k in Grouped(ts) <==> Members(ts, k) != []
    ensures Describes(Entry(Grouped(ts), k), Members(ts, k))
    decreases |ts|
  {
    if ts != [] {
      var n := |ts| - 1;
      GroupsDescribe(ts[..n], k);
      if ts[n].status != Success && KindOf(ts[n]) == k {
        JoinedDescribes(Entry(Grouped(ts[..n]), k), Members(ts[..n], k), ts[n]);
      }
    }
  }

  function CountOf(g: Group): real { g.count as real }

  /** Groups by falling count; each kind that occurs has one group, which describes its failures. */
  method BuildFailureGroups(ts: seq<Task>) returns (groups: seq<Ranked<Group>>)
    ensures IsRanking(groups, Grouped(ts), CountOf)
  {
    var buckets: Groups := map[];
    for i := 0 to |ts|
      invariant buckets == Grouped(ts[..i])
    {
      assert ts[..i + 1][..i] == ts[..i];
      buckets := Sorted(buckets, ts[i]);
    }
    assert ts[..|ts|] == ts;
    groups := RankAll(buckets, CountOf);
  }

  // ---- Conservation -----------------------------------------------------------------------

  /** `n` failures of kind `k`, as an item to sum. */
  function Tally(k: string, n: nat): Item { Item(k, Usage(n, 0, 0, 0, 0, 0.0)) }

  function FailureItems(ts: seq<Task>): (xs: seq<Item>)
    ensures |xs| == |ts| && forall i :: 0 <= i < |ts| ==> xs[i] == Tally(KindOf(ts[i]), 1)
  {
    seq(|ts|, i requires 0 <= i < |ts| => Tally(KindOf(ts[i]), 1))
  }

  lemma {:induction false} MembersCounted(ts: seq<Task>, k: string)
    ensures SumFor(FailureItems(FailedOf(ts)), k, Tasks) == |Members(ts, k)| as real
    ensures Sum(FailureItems(FailedOf(ts)), Tasks) == |FailedOf(ts)| as real
    ensures Members(ts, k) != [] ==> Named(FailureItems(FailedOf(ts)), k)
    decreases |ts|
  {
    if ts != [] {
      var n := |ts| - 1;
      MembersCounted(ts[..n], k);
      assert FailedOf(ts[..n]) + [] == FailedOf(ts[..n]) && Members(ts[..n], k) + [] == Members(ts[..n], k);
      if ts[n].status != Success {
        var front, x := FailureItems(FailedOf(ts[..n])), Tally(KindOf(ts[n]), 1);
        assert FailureItems(FailedOf(ts)) == front + [x];
        SumSnoc(front, x, k, Tasks);
        NamedSnoc(front, x, k);
        assert Read(x.usage, Tasks) == 1.0;
        assert |Members(ts, k)| as real == |Members(ts[..n], k)| as real + Share(x, k, Tasks);
      }
    }
  }

  type GroupRow = Ranked<Group>

  function GroupItems(rows: seq<GroupRow>): (xs: seq<Item>)
    ensures |xs| == |rows| && forall i :: 0 <= i < |rows| ==> xs[i] == Tally(rows[i].key, rows[i].value.count)
  {
    seq(|rows|, i requires 0 <= i < |rows| => Tally(rows[i].key, rows[i].value.count))
  }

  /** The count of kind `k` in the rows of a run is the number of its failures of that kind. */
  lemma {:induction false} GroupRowCount(rows: seq<GroupRow>, ts: seq<Task>, k: string)
    requires Tabulates(rows, Grouped(ts))
    ensures SumFor(GroupItems(rows), k, Tasks) == |Members(ts, k)| as real
    ensures Named(GroupItems(rows), k) <==> Members(ts, k) != []
  {
    GroupsDescribe(ts, k);
    var xs := GroupItems(rows);
    if Members(ts, k) != [] {
      var i :| 0 <= i < |rows| && rows[i].key == k;
      OneRowPerKey(xs, i, Tasks);
      assert xs[i].key == k;
    } else {
      assert !Named(xs, k);
      BucketsMean(xs, k, Tasks);
    }
  }

  /** The groups partition the failures: their counts add up to the number of failed records. */
  lemma {:induction false} GroupsPartitionFailures(rows: seq<GroupRow>, ts: seq<Task>)
    requires IsRanking(rows, Grouped(ts), CountOf)
    ensures Sum(GroupItems(rows), Tasks) == |FailedOf(ts)| as real
    ensures forall i :: 0 <= i < |rows| ==> Describes(rows[i].value, Members(ts, rows[i].key))
    ensures forall k :: Members(ts, k) != [] ==> exists i :: 0 <= i < |rows| && rows[i].key == k
    ensures forall i, j :: 0 <= i < j < |rows| ==>
            rows[i].key != rows[j].key && rows[i].value.count >= rows[j].value.count
  {
    RankingTabulates(rows, Grouped(ts), CountOf);
    assert forall i :: 0 <= i < |rows| ==> rows[i] in rows;
    forall i | 0 <= i < |rows| ensures Describes(rows[i].value, Members(ts, rows[i].key)) {
      GroupsDescribe(ts, rows[i].key);
    }
    forall k | Members(ts, k) != [] ensures exists i :: 0 <= i < |rows| && rows[i].key == k { GroupsDescribe(ts, k); }
    forall i, j | 0 <= i < j < |rows| ensures rows[i].value.count >= rows[j].value.count {
      assert Higher(rows[i], rows[j]);
    }
    TableCountsAll(rows, ts);
  }

  lemma {:induction false} TableCountsAll(rows: seq<GroupRow>, ts: seq<Task>)
    requires Tabulates(rows, Grouped(ts))
    ensures Sum(GroupItems(rows), Tasks) == |FailedOf(ts)| as real
  {
    var xs, ys := FailureItems(FailedOf(ts)), GroupItems(rows);
    var ks := seq(|rows|, i requires 0 <= i < |rows| => rows[i].key);
    forall i | 0 <= i < |xs| ensures xs[i].key in ks {
      FailureIsMember(ts, i);
      GroupsDescribe(ts, xs[i].key);
      var j :| 0 <= j < |rows| && rows[j].key == xs[i].key;
      assert ks[j] == xs[i].key;
    }
    forall i | 0 <= i < |ys| ensures ys[i].key in ks { assert ks[i] == ys[i].key; }
    KeysCoverTotal(ks, xs, Tasks);
    KeysCoverTotal(ks, ys, Tasks);
    forall k ensures SumFor(ys, k, Tasks) == SumFor(xs, k, Tasks) {
      GroupRowCount(rows, ts, k);
      MembersCounted(ts, k);
    }
    SameSums(ks, xs, ys, Tasks);
    MembersCounted(ts, "");
  }

  lemma {:induction false} FailureIsMember(ts: seq<Task>, i: nat)
    requires i < |FailedOf(ts)|
    ensures Members(ts, KindOf(FailedOf(ts)[i])) != []
    decreases |ts|
  {
    var n := |ts| - 1;
    if i < |FailedOf(ts[..n])| { FailureIsMember(ts[..n], i); }
  }

  // ---- The histogram over runs ------------------------------------------------------------

  datatype FailedRun = FailedRun(id: string, groups: seq<GroupRow>)

  datatype Bar = Bar(count: nat, runId: string, taskId: string, excerpt: Option<string>)

  datatype Sample = Sample(kind: string, runId: string, group: Group)

  type Bars = map<string, Bar>

  function FirstId(g: Group): string { if g.ids == [] then "" else g.ids[0] }

  function Barred(b: Bars, s: Sample): Bars {
    if s.kind in b then b[s.kind := b[s.kind].(count := b[s.kind].count + s.group.count)]
    else b[s.kind := Bar(s.group.count, s.runId, FirstId(s.group), s.group.excerpt)]
  }

  function BarsOf(ss: seq<Sample>): Bars {
    if ss == [] then map[] else Barred(BarsOf(ss[..|ss| - 1]), ss[|ss| - 1])
  }

  function SamplesOf(run: FailedRun): (ss: seq<Sample>)
    ensures |ss| == |run.groups|
    ensures forall i :: 0 <= i < |ss| ==> ss[i] == Sample(run.groups[i].key, run.id, run.groups[i].value)
  {
    seq(|run.groups|, i requires 0 <= i < |run.groups| => Sample(run.groups[i].key, run.id, run.groups[i].value))
  }

  function AllSamples(runs: seq<FailedRun>): seq<Sample> {
    if runs == [] then [] else AllSamples(runs[..|runs| - 1]) + SamplesOf(runs[|runs| - 1])
  }

  lemma {:induction false} BarStep(ss: seq<Sample>, run: FailedRun, j: nat)
    requires j < |run.groups|
    ensures BarsOf(ss + SamplesOf(run)[..j + 1])
            == Barred(BarsOf(ss + SamplesOf(run)[..j]), Sample(run.groups[j].key, run.id, run.groups[j].value))
  {
    var more := ss + SamplesOf(run)[..j + 1];
    assert more[..|more| - 1] == ss + SamplesOf(run)[..j];
  }

  function BarScore(b: Bar): real { b.count as real }

  method BuildHistogram(runs: seq<FailedRun>) returns (bars: seq<Ranked<Bar>>)
    ensures IsRanking(bars, BarsOf(AllSamples(runs)), BarScore)
  {
    var buckets: Bars := map[];
    for i := 0 to |runs|
      invariant buckets == BarsOf(AllSamples(runs[..i]))
    {
      var run := runs[i];
      ghost var before := AllSamples(runs[..i]);
      assert runs[..i + 1][..i] == runs[..i];
      assert before + SamplesOf(run)[..0] == before;
      for j := 0 to |run.groups|
        invariant buckets == BarsOf(before + SamplesOf(run)[..j])
      {
        BarStep(before, run, j);
        buckets := Barred(buckets, Sample(run.groups[j].key, run.id, run.groups[j].value));
      }
      assert SamplesOf(run)[..|run.groups|] == SamplesOf(run);
    }
    assert runs[..|runs|] == runs;
    bars := RankAll(buckets, BarScore);
  }

  predicate Shows(run: FailedRun, k: string) { exists j :: 0 <= j < |run.groups| && run.groups[j].key == k }

  /** `k` is first met in run `i`, at its group `j`. */
  ghost predicate FirstMet(runs: seq<FailedRun>, k: string, i: nat, j: nat) {
    && i < |runs| && j < |runs[i].groups| && runs[i].groups[j].key == k
    && (forall a :: 0 <= a < i ==> !Shows(runs[a], k))
    && (forall b :: 0 <= b < j ==> runs[i].groups[b].key != k)
  }

  ghost predicate Exemplifies(b: Bar, runs: seq<FailedRun>, i: nat, j: nat)
    requires i < |runs| && j < |runs[i].groups|
  {
    var g := runs[i].groups[j].value;
    b.runId == runs[i].id && b.taskId == FirstId(g) && b.excerpt == g.excerpt
  }

  ghost predicate FromNewest(b: Bars, runs: seq<FailedRun>, k: string) {
    && (k in b <==> exists i :: 0 <= i < |runs| && Shows(runs[i], k))
    && (k in b ==> exists i: nat, j: nat :: FirstMet(runs, k, i, j) && Exemplifies(b[k], runs, i, j))
  }

  /** Each histogram example comes from the first, that is the newest, run with failures of that kind. */
  lemma {:induction false} ExampleIsFromNewestRun(runs: seq<FailedRun>, k: string)
    ensures FromNewest(BarsOf(AllSamples(runs)), runs, k)
    decreases |runs|
  {
    if runs != [] {
      var n := |runs| - 1;
      ExampleIsFromNewestRun(runs[..n], k);
      var ss, run := AllSamples(runs[..n]), runs[n];
      SamplesEntered(ss, run, |run.groups|, k);
      assert SamplesOf(run)[..|run.groups|] == SamplesOf(run);
      assert ss + SamplesOf(run) == AllSamples(runs);
      var b, b' := BarsOf(ss), BarsOf(AllSamples(runs));
      assert forall i :: 0 <= i < n ==> runs[..n][i] == runs[i];
      if k in b {
        var i: nat, j: nat :| FirstMet(runs[..n], k, i, j) && Exemplifies(b[k], runs[..n], i, j);
        assert FirstMet(runs, k, i, j) && Exemplifies(b'[k], runs, i, j);
      } else if k in b' {
        var j: nat :| j < |run.groups| && EnteredAt(b', run, k, j);
        assert FirstMet(runs, k, n, j) && Exemplifies(b'[k], runs, n, j);
      }
    }
  }

  ghost predicate EnteredAt(b: Bars, run: FailedRun, k: string, j: nat) {
    && k in b && j < |run.groups| && run.groups[j].key == k
    && (forall a :: 0 <= a < j ==> run.groups[a].key != k)
    && Exemplifies(b[k], [run], 0, j)
  }

  /**
   Entering the first `m` groups of a run keeps the examples there are, and starts the others at the run's
   first group of the kind.
   */
  ghost predicate Extends(b: Bars, b': Bars, run: FailedRun, m: nat, k: string)
    requires m <= |run.groups|
  {
    && (k in b ==> k in b' && b'[k].(count := 0) == b[k].(count := 0))
    && (k !in b ==> (k in b' <==> exists j :: 0 <= j < m && run.groups[j].key == k))
    && (k !in b && k in b' ==> exists j: nat :: j < m && EnteredAt(b', run, k, j))
  }

  lemma {:induction false} ExtendsStep(b: Bars, b1: Bars, run: FailedRun, m: nat, k: string)
    requires m < |run.groups| && Extends(b, b1, run, m, k)
    ensures Extends(b, Barred(b1, Sample(run.groups[m].key, run.id, run.groups[m].value)), run, m + 1, k)
  {
    var b' := Barred(b1, Sample(run.groups[m].key, run.id, run.groups[m].value));
    if k !in b && k in b1 {
      var j: nat :| j < m && EnteredAt(b1, run, k, j);
      assert EnteredAt(b', run, k, j);
    } else if k !in b && k in b' {
      assert EnteredAt(b', run, k, m);
    }
  }

  lemma {:induction false} SamplesEntered(ss: seq<Sample>, run: FailedRun, m: nat, k: string)
    requires m <= |run.groups|
    ensures Extends(BarsOf(ss), BarsOf(ss + SamplesOf(run)[..m]), run, m, k)
    decreases m
  {
    if m == 0 {
      assert ss + SamplesOf(run)[..0] == ss;
    } else {
      SamplesEntered(ss, run, m - 1, k);
      BarStep(ss, run, m - 1);
      ExtendsStep(BarsOf(ss), BarsOf(ss + SamplesOf(run)[..m - 1]), run, m - 1, k);
    }
  }

  // ---- Counts across runs ---------------------------------------------------------------------

  function SampleItems(ss: seq<Sample>): (xs: seq<Item>)
    ensures |xs| == |ss| && forall i :: 0 <= i < |ss| ==> xs[i] == Tally(ss[i].kind, ss[i].group.count)
  {
    seq(|ss|, i requires 0 <= i < |ss| => Tally(ss[i].kind, ss[i].group.count))
  }

  function BarCount(b: Bars, k: string): nat { if k in b then b[k].count else 0 }

  lemma {:induction false} BarsCount(ss: seq<Sample>, k: string)
    ensures BarCount(BarsOf(ss), k) as real == SumFor(SampleItems(ss), k, Tasks)
    decreases |ss|
  {
    if ss != [] {
      var n := |ss| - 1;
      BarsCount(ss[..n], k);
      assert SampleItems(ss) == SampleItems(ss[..n]) + [Tally(ss[n].kind, ss[n].group.count)];
      SumSnoc(SampleItems(ss[..n]), Tally(ss[n].kind, ss[n].group.count), k, Tasks);
    }
  }

  /** The failures of kind `k` in all runs together. */
  function AllMembers(all: seq<seq<Task>>, k: string): nat {
    if all == [] then 0 else AllMembers(all[..|all| - 1], k) + |Members(all[|all| - 1], k)|
  }

  /** Each run's groups are those of the matching records. */
  ghost predicate GroupsOfRuns(runs: seq<FailedRun>, all: seq<seq<Task>>) {
    |runs| == |all| && forall i :: 0 <= i < |runs| ==> Tabulates(runs[i].groups, Grouped(all[i]))
  }

  /** A bar counts exactly the failures of its kind, over all records of all runs. */
  lemma {:induction false} BarsCountEveryFailure(runs: seq<FailedRun>, all: seq<seq<Task>>, k: string)
    requires GroupsOfRuns(runs, all)
    ensures BarCount(BarsOf(AllSamples(runs)), k) == AllMembers(all, k)
  {
    forall i | 0 <= i < |runs| ensures SumFor(GroupItems(runs[i].groups), k, Tasks) == |Members(all[i], k)| as real {
      GroupRowCount(runs[i].groups, all[i], k);
    }
    BarsCount(AllSamples(runs), k);
    SamplesCount(runs, all, k);
  }

  lemma {:induction false} SamplesSnoc(ss: seq<Sample>, run: FailedRun)
    ensures SampleItems(ss + SamplesOf(run)) == SampleItems(ss) + GroupItems(run.groups)
  {
  }

  lemma {:induction false} SamplesCount(runs: seq<FailedRun>, all: seq<seq<Task>>, k: string)
    requires |runs| == |all|
    requires forall i :: 0 <= i < |runs| ==>
             SumFor(GroupItems(runs[i].groups), k, Tasks) == |Members(all[i], k)| as real
    ensures SumFor(SampleItems(AllSamples(runs)), k, Tasks) == AllMembers(all, k) as real
    decreases |runs|
  {
    if runs != [] {
      var n := |runs| - 1;
      SamplesCount(runs[..n], all[..n], k);
      SamplesSnoc(AllSamples(runs[..n]), runs[n]);
      SumConcat(SampleItems(AllSamples(runs[..n])), GroupItems(runs[n].groups), k, Tasks);
    }
  }
}
