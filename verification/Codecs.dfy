/** Spellings of journal records and run summaries: the properties asked of the JSON formats can all be met. */
module Codecs {
  import opened Options
  import opened Utf8
  import opened Topology
  import Framing
  import Journal
  import RunDirs

  // ---- Words of natural numbers -----------------------------------------------------------

  function Then(ns: seq<nat>, rest: seq<nat>): seq<nat> { [|ns|] + ns + rest }

  lemma {:induction false} ThenParts(a: seq<nat>, b: seq<nat>, r: seq<nat>, s: seq<nat>)
    requires Then(a, r) == Then(b, s)
    ensures a == b && r == s
  {
    assert Then(a, r)[0] == Then(b, s)[0];
    assert a == Then(a, r)[1..|a| + 1] && b == Then(b, s)[1..|b| + 1];
    assert r == Then(a, r)[|a| + 1..] && s == Then(b, s)[|b| + 1..];
  }

  function Chars(s: string): (ns: seq<nat>)
    ensures |ns| == |s| && forall i :: 0 <= i < |s| ==> ns[i] == s[i] as nat
  {
    seq(|s|, i requires 0 <= i < |s| => s[i] as nat)
  }

  function Str(s: string, rest: seq<nat>): seq<nat> { Then(Chars(s), rest) }

  lemma {:induction false} StrParts(a: string, b: string, r: seq<nat>, s: seq<nat>)
    requires Str(a, r) == Str(b, s)
    ensures a == b && r == s
  {
    ThenParts(Chars(a), Chars(b), r, s);
    forall i | 0 <= i < |a| ensures a[i] == b[i] { assert Chars(a)[i] == Chars(b)[i]; }
  }

  function Num(n: int, rest: seq<nat>): seq<nat> { [if n >= 0 then 2 * n else -2 * n - 1] + rest }

  lemma {:induction false} NumParts(a: int, b: int, r: seq<nat>, s: seq<nat>)
    requires Num(a, r) == Num(b, s)
    ensures a == b && r == s
  {
    assert Num(a, r)[0] == Num(b, s)[0] && Num(a, r)[1..] == r && Num(b, s)[1..] == s;
  }

  function Opt(o: Option<string>, rest: seq<nat>): seq<nat> {
    match o case None => [0] + rest case Some(s) => [1] + Str(s, rest)
  }

  lemma {:induction false} OptParts(a: Option<string>, b: Option<string>, r: seq<nat>, s: seq<nat>)
    requires Opt(a, r) == Opt(b, s)
    ensures a == b && r == s
  {
    assert Opt(a, r)[0] == Opt(b, s)[0] && Opt(a, r)[1..] == Opt(b, s)[1..];
    match a {
      case None => assert Opt(a, r)[1..] == r && Opt(b, s)[1..] == s;
      case Some(x) =>
        assert Opt(a, r)[1..] == Str(x, r) && Opt(b, s)[1..] == Str(b.value, s);
        StrParts(x, b.value, r, s);
    }
  }

  function Strs(xs: seq<string>, rest: seq<nat>): seq<nat> {
    if xs == [] then [0] + rest else [1] + Str(xs[0], Strs(xs[1..], rest))
  }

  lemma {:induction false} StrsParts(a: seq<string>, b: seq<string>, r: seq<nat>, s: seq<nat>)
    requires Strs(a, r) == Strs(b, s)
    ensures a == b && r == s
  {
    assert Strs(a, r)[0] == Strs(b, s)[0] && Strs(a, r)[1..] == Strs(b, s)[1..];
    if a == [] {
      assert Strs(a, r)[1..] == r && Strs(b, s)[1..] == s;
    } else {
      assert Strs(a, r)[1..] == Str(a[0], Strs(a[1..], r)) && Strs(b, s)[1..] == Str(b[0], Strs(b[1..], s));
      StrParts(a[0], b[0], Strs(a[1..], r), Strs(b[1..], s));
      StrsParts(a[1..], b[1..], r, s);
      assert a == [a[0]] + a[1..] && b == [b[0]] + b[1..];
    }
  }

  ghost predicate Lists(order: seq<Id>, ids: set<Id>) { forall id :: id in order <==> id in ids }

  lemma {:induction false} Listable(ids: set<Id>) returns (order: seq<Id>)
    ensures Lists(order, ids)
  {
    order := [];
    var left := ids;
    while left != {}
      invariant left <= ids && forall id :: id in order <==> id in ids && id !in left
      decreases left
    {
      var id :| id in left;
      order, left := order + [id], left - {id};
    }
  }

  /** The ids of a set in some order. */
  ghost function Listed(ids: set<Id>): (order: seq<Id>)
    ensures Lists(order, ids)
  {
    assert exists order :: Lists(order, ids) by { var order := Listable(ids); }
    var order :| Lists(order, ids);
    order
  }

  ghost function Ids(ids: set<Id>, rest: seq<nat>): seq<nat> { Strs(Listed(ids), rest) }

  lemma {:induction false} IdsParts(a: set<Id>, b: set<Id>, r: seq<nat>, s: seq<nat>)
    requires Ids(a, r) == Ids(b, s)
    ensures a == b && r == s
  {
    StrsParts(Listed(a), Listed(b), r, s);
    assert Lists(Listed(a), a) && Lists(Listed(a), b);
  }

  // ---- Words in letters ---------------------------------------------------------------------

  /** Each number in unary, closed by a `b`. */
  function Letters(ns: seq<nat>): (s: seq<byte>)
    ensures forall i :: 0 <= i < |s| ==> 0x61 <= s[i] <= 0x7A
    decreases |ns|, if ns == [] then 0 else ns[0]
  {
    if ns == [] then []
    else if ns[0] == 0 then [0x62] + Letters(ns[1..])
    else [0x61] + Letters([ns[0] - 1] + ns[1..])
  }

  lemma {:induction false} LettersOnce(a: seq<nat>, b: seq<nat>)
    requires Letters(a) == Letters(b)
    ensures a == b
    decreases |a|, if a == [] then 0 else a[0]
  {
    if a != [] && b != [] {
      var a' := if a[0] == 0 then a[1..] else [a[0] - 1] + a[1..];
      var b' := if b[0] == 0 then b[1..] else [b[0] - 1] + b[1..];
      assert Letters(a)[0] == Letters(b)[0];
      assert Letters(a') == Letters(a)[1..] && Letters(b') == Letters(b)[1..];
      LettersOnce(a', b');
      assert a == [a[0]] + a[1..] && b == [b[0]] + b[1..];
      if a[0] != 0 { assert a'[0] == a[0] - 1 && b'[0] == b[0] - 1 && a'[1..] == a[1..] && b'[1..] == b[1..]; }
    }
  }

  // ---- Journal records ------------------------------------------------------------------------

  ghost function MessageWords(m: Journal.Message): seq<nat> {
    Str(m.id, Str(m.from, Str(m.to, Str(m.subject, Then(m.body, Strs(m.refs, Num(m.createdAt, Ids(m.ackedBy, []))))))))
  }

  ghost function ArtifactWords(a: Journal.Artifact): seq<nat> {
    Str(a.id, Str(a.owner, Str(a.name, Opt(a.mime, Num(a.size, Num(a.createdAt, Ids(a.grants, [])))))))
  }

  lemma {:induction false} MessageOnce(m: Journal.Message, n: Journal.Message)
    requires MessageWords(m) == MessageWords(n)
    ensures m == n
  {
    var m7, n7 := Ids(m.ackedBy, []), Ids(n.ackedBy, []);
    var m6, n6 := Num(m.createdAt, m7), Num(n.createdAt, n7);
    var m5, n5 := Strs(m.refs, m6), Strs(n.refs, n6);
    var m4, n4 := Then(m.body, m5), Then(n.body, n5);
    var m3, n3 := Str(m.subject, m4), Str(n.subject, n4);
    var m2, n2 := Str(m.to, m3), Str(n.to, n3);
    var m1, n1 := Str(m.from, m2), Str(n.from, n2);
    StrParts(m.id, n.id, m1, n1);
    StrParts(m.from, n.from, m2, n2);
    StrParts(m.to, n.to, m3, n3);
    StrParts(m.subject, n.subject, m4, n4);
    ThenParts(m.body, n.body, m5, n5);
    StrsParts(m.refs, n.refs, m6, n6);
    NumParts(m.createdAt, n.createdAt, m7, n7);
    IdsParts(m.ackedBy, n.ackedBy, [], []);
  }

  lemma {:induction false} ArtifactOnce(a: Journal.Artifact, b: Journal.Artifact)
    requires ArtifactWords(a) == ArtifactWords(b)
    ensures a == b
  {
    var a6, b6 := Ids(a.grants, []), Ids(b.grants, []);
    var a5, b5 := Num(a.createdAt, a6), Num(b.createdAt, b6);
    var a4, b4 := Num(a.size, a5), Num(b.size, b5);
    var a3, b3 := Opt(a.mime, a4), Opt(b.mime, b4);
    var a2, b2 := Str(a.name, a3), Str(b.name, b3);
    var a1, b1 := Str(a.owner, a2), Str(b.owner, b2);
    StrParts(a.id, b.id, a1, b1);
    StrParts(a.owner, b.owner, a2, b2);
    StrParts(a.name, b.name, a3, b3);
    OptParts(a.mime, b.mime, a4, b4);
    NumParts(a.size, b.size, a5, b5);
    NumParts(a.createdAt, b.createdAt, a6, b6);
    IdsParts(a.grants, b.grants, [], []);
  }

  function Tag(r: Journal.Record): nat {
    match r case SendRec(_) => 0 case AckRec(_, _) => 1 case PutRec(_) => 2 case GrantRec(_, _, _) => 3
  }

  ghost function FieldWords(r: Journal.Record): seq<nat> {
    match r
    case SendRec(m) => MessageWords(m)
    case AckRec(id, who) => Str(id, Str(who, []))
    case PutRec(a) => ArtifactWords(a)
    case GrantRec(id, to, who) => Str(id, Str(to, Str(who, [])))
  }

  lemma {:induction false} FieldsOnce(r: Journal.Record, s: Journal.Record)
    requires Tag(r) == Tag(s) && FieldWords(r) == FieldWords(s)
    ensures r == s
  {
    match r {
      case SendRec(m) => MessageOnce(m, s.message);
      case AckRec(id, who) =>
        StrParts(id, s.messageId, Str(who, []), Str(s.who, []));
        StrParts(who, s.who, [], []);
      case PutRec(a) => ArtifactOnce(a, s.artifact);
      case GrantRec(id, to, who) =>
        StrParts(id, s.artifactId, Str(to, Str(who, [])), Str(s.to, Str(s.who, [])));
        StrParts(to, s.to, Str(who, []), Str(s.who, []));
        StrParts(who, s.who, [], []);
    }
  }

  ghost function RecordText(r: Journal.Record): seq<byte> { Letters(Num(Tag(r), FieldWords(r))) }

  /** Some format of the journal's own records has everything the replay theorems ask of one. */
  lemma {:induction false} JournalCodecExists() returns (c: Framing.Codec<Journal.Record>)
    ensures Framing.Lawful(c)
  {
    forall r, s | RecordText(r) == RecordText(s) ensures r == s {
      LettersOnce(Num(Tag(r), FieldWords(r)), Num(Tag(s), FieldWords(s)));
      NumParts(Tag(r), Tag(s), FieldWords(r), FieldWords(s));
      FieldsOnce(r, s);
    }
    c := Framing.LawfulCodecExists(r => RecordText(r));
  }

  // ---- Run summaries ------------------------------------------------------------------------------

  function TaskWords(t: RunDirs.Task, rest: seq<nat>): seq<nat> {
    Num(t.time, Str(t.id, Num(if t.value.success then 1 else 0, Str(t.value.rest, rest))))
  }

  lemma {:induction false} TaskParts(t: RunDirs.Task, u: RunDirs.Task, r: seq<nat>, s: seq<nat>)
    requires TaskWords(t, r) == TaskWords(u, s)
    ensures t == u && r == s
  {
    var t3, u3 := Str(t.value.rest, r), Str(u.value.rest, s);
    var t2, u2 := Num(if t.value.success then 1 else 0, t3), Num(if u.value.success then 1 else 0, u3);
    NumParts(t.time, u.time, Str(t.id, t2), Str(u.id, u2));
    StrParts(t.id, u.id, t2, u2);
    NumParts(if t.value.success then 1 else 0, if u.value.success then 1 else 0, t3, u3);
    StrParts(t.value.rest, u.value.rest, r, s);
  }

  function TasksWords(ts: seq<RunDirs.Task>): seq<nat> {
    if ts == [] then [] else Num(1, TaskWords(ts[0], TasksWords(ts[1..])))
  }

  lemma {:induction false} TasksOnce(a: seq<RunDirs.Task>, b: seq<RunDirs.Task>)
    requires TasksWords(a) == TasksWords(b)
    ensures a == b
  {
    if a != [] && b != [] {
      NumParts(1, 1, TaskWords(a[0], TasksWords(a[1..])), TaskWords(b[0], TasksWords(b[1..])));
      TaskParts(a[0], b[0], TasksWords(a[1..]), TasksWords(b[1..]));
      TasksOnce(a[1..], b[1..]);
      assert a == [a[0]] + a[1..] && b == [b[0]] + b[1..];
    }
  }

  function MetaWords(m: RunDirs.Meta, rest: seq<nat>): seq<nat> { Str(m.runId, Num(m.startedAt, Str(m.rest, rest))) }

  function CountWords(s: RunDirs.RunSummary, rest: seq<nat>): seq<nat> {
    Num(s.endedAt, Num(s.durationMs, Num(s.total, Num(s.failed, Num(if s.interrupted then 1 else 0, rest)))))
  }

  function PeakWords(o: Option<int>, rest: seq<nat>): seq<nat> {
    match o case None => Num(0, rest) case Some(n) => Num(1, Num(n, rest))
  }

  function SummaryWords(s: RunDirs.RunSummary): seq<nat> {
    MetaWords(s.meta, Opt(s.name, CountWords(s, PeakWords(s.peak, TasksWords(s.tasks)))))
  }

  lemma {:induction false} MetaParts(m: RunDirs.Meta, n: RunDirs.Meta, r: seq<nat>, s: seq<nat>)
    requires MetaWords(m, r) == MetaWords(n, s)
    ensures m == n && r == s
  {
    StrParts(m.runId, n.runId, Num(m.startedAt, Str(m.rest, r)), Num(n.startedAt, Str(n.rest, s)));
    NumParts(m.startedAt, n.startedAt, Str(m.rest, r), Str(n.rest, s));
    StrParts(m.rest, n.rest, r, s);
  }

  lemma {:induction false} CountParts(a: RunDirs.RunSummary, b: RunDirs.RunSummary, r: seq<nat>, s: seq<nat>)
    requires CountWords(a, r) == CountWords(b, s)
    ensures r == s && a.endedAt == b.endedAt && a.durationMs == b.durationMs && a.total == b.total
            && a.failed == b.failed
    ensures a.interrupted == b.interrupted
  {
    var a4, b4 := Num(if a.interrupted then 1 else 0, r), Num(if b.interrupted then 1 else 0, s);
    var a3, b3 := Num(a.failed, a4), Num(b.failed, b4);
    var a2, b2 := Num(a.total, a3), Num(b.total, b3);
    NumParts(a.endedAt, b.endedAt, Num(a.durationMs, a2), Num(b.durationMs, b2));
    NumParts(a.durationMs, b.durationMs, a2, b2);
    NumParts(a.total, b.total, a3, b3);
    NumParts(a.failed, b.failed, a4, b4);
    NumParts(if a.interrupted then 1 else 0, if b.interrupted then 1 else 0, r, s);
  }

  lemma {:induction false} PeakParts(a: Option<int>, b: Option<int>, r: seq<nat>, s: seq<nat>)
    requires PeakWords(a, r) == PeakWords(b, s)
    ensures a == b && r == s
  {
    NumParts(if a.None? then 0 else 1, if b.None? then 0 else 1,
             if a.None? then r else Num(a.value, r), if b.None? then s else Num(b.value, s));
    if a.Some? { NumParts(a.value, b.value, r, s); }
  }

  lemma {:induction false} SummaryOnce(a: RunDirs.RunSummary, b: RunDirs.RunSummary)
    requires SummaryWords(a) == SummaryWords(b)
    ensures a == b
  {
    var a3, b3 := PeakWords(a.peak, TasksWords(a.tasks)), PeakWords(b.peak, TasksWords(b.tasks));
    var a2, b2 := CountWords(a, a3), CountWords(b, b3);
    MetaParts(a.meta, b.meta, Opt(a.name, a2), Opt(b.name, b2));
    OptParts(a.name, b.name, a2, b2);
    CountParts(a, b, a3, b3);
    PeakParts(a.peak, b.peak, TasksWords(a.tasks), TasksWords(b.tasks));
    TasksOnce(a.tasks, b.tasks);
  }

  /** Some summary format reads back as written. */
  lemma {:induction false} LawfulFormatsExist() returns (f: RunDirs.Formats)
    ensures RunDirs.Lawful(f)
  {
    f := RunDirs.Formats(s => Letters(SummaryWords(s)),
                         b => if exists s :: Letters(SummaryWords(s)) == b
                              then (var s :| Letters(SummaryWords(s)) == b; Some(s)) else None,
                         b => [], b => None, b => None);
    forall s ensures f.parse(f.encode(s)) == Some(s) {
      LettersOnce(SummaryWords(s), SummaryWords(f.parse(f.encode(s)).value));
      SummaryOnce(s, f.parse(f.encode(s)).value);
    }
  }
}
