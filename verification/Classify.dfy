/** The failure classifier: structured events first, then text markers, over a whole log. */
module Classify {
  import opened Options
  import opened Text
  import opened ResetTime

  // ---- Events ------------------------------------------------------------------------------

  datatype Json = Null | Bool(b: bool) | Number(n: real) | Str(s: string) | Arr(items: seq<Json>)
    | Obj(fields: map<string, Json>)

  function Get(v: Option<Json>, key: string): Option<Json> {
    if v.Some? && v.value.Obj? && key in v.value.fields then Some(v.value.fields[key]) else None
  }

  function AsStr(v: Option<Json>): Option<string> { if v.Some? && v.value.Str? then Some(v.value.s) else None }

  /** A JSON parser, the instant and year of the call, and whether warnings are logged. */
  datatype Env = Env(parse: string -> Option<Json>, now: int, year: int, warns: bool)

  datatype Reason =
    | RateLimit(resetsAt: Option<int>)
    | AuthFailure
    | ContextExceeded
    | InvalidArgument(message: string)
    | NetworkError(message: string)
    | Unknown(message: string)

  datatype Kind = RateLimitKind | AuthKind | ContextKind | ArgumentKind | NetworkKind | UnknownKind

  function KindOf(r: Reason): Kind {
    match r
    case RateLimit(_) => RateLimitKind
    case AuthFailure => AuthKind
    case ContextExceeded => ContextKind
    case InvalidArgument(_) => ArgumentKind
    case NetworkError(_) => NetworkKind
    case Unknown(_) => UnknownKind
  }

  // ---- Excerpts ------------------------------------------------------------------------------

  const EXCERPT_MAX := 240

  function LastChars(s: string, n: nat): (r: string)
    ensures |r| <= n && |r| <= |s| && r == s[|s| - |r|..]
  {
    if |s| <= n then s else s[|s| - n..]
  }

  function CapChars(s: string): string { LastChars(s, EXCERPT_MAX) }

  function LastNonBlank(ls: seq<string>): Option<string> {
    if ls == [] then None
    else if Trim(ls[|ls| - 1]) != [] then Some(ls[|ls| - 1])
    else LastNonBlank(ls[..|ls| - 1])
  }

  predicate Truncated(env: Env, line: string) {
    ByteLen(line) >= 100 && Contains(line, "\":") && env.parse(line).None?
  }

  const MARKER := "[truncated mid-event] \U{2026}"

  function EventMessage(v: Option<Json>): Option<string> {
    var direct := Get(Get(v, "error"), "message");
    AsStr(if direct.Some? then direct else Get(Get(Get(v, "result"), "error"), "message"))
  }

  predicate NonEmpty(s: Option<string>) { s.Some? && s.value != [] }

  function LastLine(blob: string): string {
    var t := Trim(blob);
    var l := LastNonBlank(Lines(t));
    Trim(if l.Some? then l.value else t)
  }

  function Excerpt(env: Env, blob: string): string {
    if Trim(blob) == [] then []
    else
      var line := LastLine(blob);
      var v := if line != [] && line[0] == '{' then env.parse(line) else None;
      var result := AsStr(Get(v, "result"));
      if NonEmpty(EventMessage(v)) then CapChars(EventMessage(v).value)
      else if NonEmpty(result) then CapChars(result.value)
      else if Truncated(env, line) then MARKER + LastChars(line, 80)
      else CapChars(line)
  }

  /** Every excerpt fits, and shows the end of the last line or of a message inside its event. */
  lemma {:induction false} ExcerptFits(env: Env, blob: string)
    ensures |Excerpt(env, blob)| <= EXCERPT_MAX
    ensures ExcerptShows(env, LastLine(blob), Excerpt(env, blob))
  {
    assert |MARKER| == 23;
    if Trim(blob) == [] { assert Excerpt(env, blob) == []; }
  }

  predicate EndOf(e: string, s: string) { |e| <= |s| && e == s[|s| - |e|..] && (|e| == EXCERPT_MAX || e == s) }

  predicate ExcerptShows(env: Env, line: string, e: string) {
    var v := env.parse(line);
    || e == [] || EndOf(e, line) || e == MARKER + LastChars(line, 80)
    || (EventMessage(v).Some? && EndOf(e, EventMessage(v).value))
    || (AsStr(Get(v, "result")).Some? && EndOf(e, AsStr(Get(v, "result")).value))
  }

  // ---- One line --------------------------------------------------------------------------------

  function ErrorOf(v: Option<Json>): Option<Json> {
    var direct := Get(v, "error");
    if direct.Some? then direct else Get(Get(v, "result"), "error")
  }

  /** What an error type and message say; `line` is shown when the message is empty. */
  function ClassifyError(env: Env, kind: string, message: string, line: string): Parsed<Reason> {
    if kind == "rate_limit_exceeded" || kind == "overloaded_error" then Limited(env, message)
    else if kind == "authentication_error" then Found(AuthFailure)
    else if kind != "invalid_request_error" then Absent
    else if Contains(message, "prompt is too long") || Contains(message, "context_length_exceeded")
    then Found(ContextExceeded)
    else Found(InvalidArgument(Excerpt(env, if message == [] then line else message)))
  }

  /** A rate limit with the reset time of `text`; `Splits` when reading it aborts. */
  function Limited(env: Env, text: string): Parsed<Reason> {
    match ParseReset(text, env.now, env.year)
    case Absent => Found(RateLimit(None))
    case Found(at) => Found(RateLimit(Some(at)))
    case Splits => Splits
  }

  /** A recognised error event. */
  function ClassifyLine(env: Env, line: string): Parsed<Reason> {
    var t := Trim(line);
    if t == [] || t[0] != '{' then Absent
    else
      var err := ErrorOf(env.parse(t));
      var kind, message := AsStr(Get(err, "type")), AsStr(Get(err, "message"));
      if kind.None? then Absent
      else ClassifyError(env, kind.value, if message.Some? then message.value else [], line)
  }

  function EventReasons(env: Env, ls: seq<string>): seq<Reason> {
    if ls == [] then []
    else
      var r := ClassifyLine(env, ls[|ls| - 1]);
      EventReasons(env, ls[..|ls| - 1]) + (if r.Found? then [r.value] else [])
  }

  // ---- Markers -----------------------------------------------------------------------------------

  predicate AuthMarked(blob: string) {
    var has401 := Contains(blob, "401") && (Contains(blob, "Unauthorized") || Contains(blob, "Authentication"));
    var badKey := Contains(blob, "invalid_api_key");
    badKey || (Contains(blob, "authentication_error") && (has401 || badKey)) || has401
  }

  predicate Marked(blob: string, markers: seq<string>) { exists i :: 0 <= i < |markers| && Contains(blob, markers[i]) }

  function LimitMarkers(): seq<string> {
    ["You've hit your limit", "rate_limit_exceeded", "rate limit exceeded", "usage limit reached"]
  }

  function ContextMarkers(): seq<string> { ["context_length_exceeded", "prompt is too long"] }

  function ArgumentMarkers(): seq<string> { ["invalid_request_error"] }

  function NetworkCodes(): seq<string> { ["ENOTFOUND", "ETIMEDOUT", "ECONNRESET", "ECONNREFUSED"] }

  function NetworkPhrases(): seq<string> { ["EAI_AGAIN", "getaddrinfo", "socket hang up", "network error"] }

  predicate NetworkMarked(blob: string) { Marked(blob, NetworkCodes()) || Marked(blob, NetworkPhrases()) }

  /** The excerpt logged when no reset time parses: from "resets " on, up to a separator or else 80 bytes. */
  predicate LogSplits(blob: string) {
    match Find(blob, "resets ")
    case None => false
    case Some(i) => Slice(blob[i..], 80).None?
  }

  /** A marked log is a rate limit; `Splits` when reading its reset time, or logging that it has none, aborts. */
  function MatchRateLimit(env: Env, blob: string): Parsed<Reason> {
    if !Marked(blob, LimitMarkers()) then Absent
    else if env.warns && ParseReset(blob, env.now, env.year).Absent? && LogSplits(blob) then Splits
    else Limited(env, blob)
  }

  // ---- The classifier ----------------------------------------------------------------------------

  function FirstOfKind(rs: seq<Reason>, k: Kind): (r: Option<Reason>)
    ensures r.Some? ==> KindOf(r.value) == k && r.value in rs
    ensures r.None? ==> forall x :: x in rs ==> KindOf(x) != k
  {
    if rs == [] then None
    else if KindOf(rs[0]) == k then Some(rs[0])
    else FirstOfKind(rs[1..], k)
  }

  predicate SomeSplits(env: Env, ls: seq<string>) { exists i :: 0 <= i < |ls| && ClassifyLine(env, ls[i]).Splits? }

  /** The choice between what the events and the markers say. */
  function Decide(rs: seq<Reason>, auth: bool, banner: Parsed<Reason>, context: bool, argument: bool, network: bool,
                  excerpt: string): Parsed<Reason> {
    var limit := FirstOfKind(rs, RateLimitKind);
    if FirstOfKind(rs, AuthKind).Some? then Found(AuthFailure)
    else if FirstOfKind(rs, ContextKind).Some? then Found(ContextExceeded)
    else if limit.Some? then
      if auth then Found(AuthFailure)
      else if limit.value.resetsAt.None? && !banner.Absent? then banner
      else Found(limit.value)
    else if rs != [] then Found(if auth then AuthFailure else rs[0])
    else if auth then Found(AuthFailure)
    else if !banner.Absent? then banner
    else if context then Found(ContextExceeded)
    else if argument then Found(InvalidArgument(excerpt))
    else if network then Found(NetworkError(excerpt))
    else Found(Unknown(excerpt))
  }

  /** `Absent` never comes out; `Splits` is the abort inside a reset time. */
  function Classify(env: Env, blob: string): Parsed<Reason> {
    var ls := Lines(blob);
    if SomeSplits(env, ls) then Splits
    else Decide(EventReasons(env, ls), AuthMarked(blob), MatchRateLimit(env, blob), Marked(blob, ContextMarkers()),
                Marked(blob, ArgumentMarkers()), NetworkMarked(blob), Excerpt(env, blob))
  }

  // ---- Evidence by line ------------------------------------------------------------------------------

  predicate IsOfKind(r: Parsed<Reason>, k: Kind) { r.Found? && KindOf(r.value) == k }

  /** Some line is an event of this kind. */
  predicate Event(env: Env, ls: seq<string>, k: Kind) {
    exists i :: 0 <= i < |ls| && IsOfKind(ClassifyLine(env, ls[i]), k)
  }

  lemma {:induction false} ReasonsSnoc(env: Env, ls: seq<string>, l: string)
    ensures forall r ::
              r in EventReasons(env, ls + [l]) <==> r in EventReasons(env, ls) || ClassifyLine(env, l) == Found(r)
  {
    assert (ls + [l])[..|ls|] == ls;
  }

  lemma {:induction false} EventIffReason(env: Env, ls: seq<string>, k: Kind)
    ensures Event(env, ls, k) <==> exists r :: r in EventReasons(env, ls) && KindOf(r) == k
    decreases |ls|
  {
    if ls != [] {
      var n := |ls| - 1;
      EventIffReason(env, ls[..n], k);
      EventSnoc(env, ls[..n], ls[n], k);
      ReasonsSnoc(env, ls[..n], ls[n]);
      assert ls == ls[..n] + [ls[n]];
      var last := ClassifyLine(env, ls[n]);
      if IsOfKind(last, k) { assert last.value in EventReasons(env, ls); }
    }
  }

  lemma {:induction false} EventSnoc(env: Env, ls: seq<string>, l: string, k: Kind)
    ensures Event(env, ls + [l], k) <==> Event(env, ls, k) || IsOfKind(ClassifyLine(env, l), k)
  {
    var all := ls + [l];
    if Event(env, ls, k) { var i :| 0 <= i < |ls| && IsOfKind(ClassifyLine(env, ls[i]), k); assert all[i] == ls[i]; }
    assert all[|ls|] == l;
  }

  /** An event line is auth, rate limit, context or argument. */
  lemma {:induction false} EventKinds(env: Env, ls: seq<string>)
    ensures forall r :: r in EventReasons(env, ls) ==> KindOf(r) in {AuthKind, RateLimitKind, ContextKind, ArgumentKind}
    decreases |ls|
  {
    if ls != [] { EventKinds(env, ls[..|ls| - 1]); }
  }

  predicate AuthInLines(ls: seq<string>) {
    InSome(ls, "invalid_api_key") || (InSome(ls, "401") && (InSome(ls, "Unauthorized") || InSome(ls, "Authentication")))
  }

  predicate MarkedLine(ls: seq<string>, markers: seq<string>) {
    exists i :: 0 <= i < |markers| && InSome(ls, markers[i])
  }

  predicate NetworkInLines(ls: seq<string>) { MarkedLine(ls, NetworkCodes()) || MarkedLine(ls, NetworkPhrases()) }

  lemma {:induction false} AuthByLine(blob: string)
    ensures AuthMarked(blob) <==> AuthInLines(Lines(blob))
  {
    ContainsByLine(blob, "invalid_api_key");
    ContainsByLine(blob, "401");
    ContainsByLine(blob, "Unauthorized");
    ContainsByLine(blob, "Authentication");
  }

  lemma {:induction false} MarkedByLine(blob: string, markers: seq<string>)
    requires forall i :: 0 <= i < |markers| ==> OneLine(markers[i])
    ensures Marked(blob, markers) <==> MarkedLine(Lines(blob), markers)
  {
    forall i | 0 <= i < |markers| ensures Contains(blob, markers[i]) <==> InSome(Lines(blob), markers[i]) {
      ContainsByLine(blob, markers[i]);
    }
  }

  lemma {:induction false} OtherMarkersAreLines()
    ensures forall i :: 0 <= i < |LimitMarkers()| ==> OneLine(LimitMarkers()[i])
    ensures forall i :: 0 <= i < |ContextMarkers()| ==> OneLine(ContextMarkers()[i])
    ensures forall i :: 0 <= i < |ArgumentMarkers()| ==> OneLine(ArgumentMarkers()[i])
  {
  }

  lemma {:induction false} AllByLine(blob: string)
    ensures Marked(blob, LimitMarkers()) <==> MarkedLine(Lines(blob), LimitMarkers())
    ensures Marked(blob, ContextMarkers()) <==> MarkedLine(Lines(blob), ContextMarkers())
    ensures Marked(blob, ArgumentMarkers()) <==> MarkedLine(Lines(blob), ArgumentMarkers())
    ensures NetworkMarked(blob) <==> NetworkInLines(Lines(blob))
  {
    OtherMarkersAreLines();
    MarkedByLine(blob, LimitMarkers());
    MarkedByLine(blob, ContextMarkers());
    MarkedByLine(blob, ArgumentMarkers());
    MarkedByLine(blob, NetworkCodes());
    MarkedByLine(blob, NetworkPhrases());
  }

  /** The verdict as a function of which lines exist, not of where they stand. */
  function Verdict(env: Env, ls: seq<string>): Kind {
    if Event(env, ls, AuthKind) then AuthKind
    else if Event(env, ls, ContextKind) then ContextKind
    else if AuthInLines(ls) then AuthKind
    else if Event(env, ls, RateLimitKind) then RateLimitKind
    else if Event(env, ls, ArgumentKind) then ArgumentKind
    else if MarkedLine(ls, LimitMarkers()) then RateLimitKind
    else if MarkedLine(ls, ContextMarkers()) then ContextKind
    else if MarkedLine(ls, ArgumentMarkers()) then ArgumentKind
    else if NetworkInLines(ls) then NetworkKind
    else UnknownKind
  }

  predicate Has(rs: seq<Reason>, k: Kind) { FirstOfKind(rs, k).Some? }

  function Chosen(rs: seq<Reason>, auth: bool, limit: bool, context: bool, argument: bool, network: bool): Kind {
    if Has(rs, AuthKind) then AuthKind
    else if Has(rs, ContextKind) then ContextKind
    else if auth then AuthKind
    else if Has(rs, RateLimitKind) then RateLimitKind
    else if Has(rs, ArgumentKind) then ArgumentKind
    else if limit then RateLimitKind
    else if context then ContextKind
    else if argument then ArgumentKind
    else if network then NetworkKind
    else UnknownKind
  }

  lemma {:induction false} DecideKind(rs: seq<Reason>, auth: bool, banner: Parsed<Reason>, context: bool,
                                      argument: bool, network: bool, excerpt: string)
    requires forall r :: r in rs ==> KindOf(r) in {AuthKind, RateLimitKind, ContextKind, ArgumentKind}
    requires banner.Found? ==> KindOf(banner.value) == RateLimitKind
    ensures var d := Decide(rs, auth, banner, context, argument, network, excerpt);
            && !d.Absent?
            && (d.Found? ==> KindOf(d.value) == Chosen(rs, auth, !banner.Absent?, context, argument, network))
  {
    if rs != [] { assert rs[0] in rs; }
  }

  lemma {:induction false} EventIffHas(env: Env, ls: seq<string>, k: Kind)
    ensures Event(env, ls, k) <==> Has(EventReasons(env, ls), k)
  {
    EventIffReason(env, ls, k);
  }

  /** What the markers of the whole log say. */
  function MarkersChoose(blob: string, rs: seq<Reason>): Kind {
    Chosen(rs, AuthMarked(blob), Marked(blob, LimitMarkers()), Marked(blob, ContextMarkers()),
           Marked(blob, ArgumentMarkers()), NetworkMarked(blob))
  }

  lemma {:induction false} ChosenIsVerdict(env: Env, blob: string)
    ensures MarkersChoose(blob, EventReasons(env, Lines(blob))) == Verdict(env, Lines(blob))
  {
    var ls := Lines(blob);
    EventIffHas(env, ls, AuthKind);
    EventIffHas(env, ls, ContextKind);
    EventIffHas(env, ls, RateLimitKind);
    EventIffHas(env, ls, ArgumentKind);
    AuthByLine(blob);
    AllByLine(blob);
  }

  /** The kind is the verdict on the lines. */
  lemma {:induction false} ClassifyIsVerdict(env: Env, blob: string)
    ensures !Classify(env, blob).Absent?
    ensures Classify(env, blob).Found? ==> KindOf(Classify(env, blob).value) == Verdict(env, Lines(blob))
  {
    var rs := EventReasons(env, Lines(blob));
    EventKinds(env, Lines(blob));
    DecideKind(rs, AuthMarked(blob), MatchRateLimit(env, blob), Marked(blob, ContextMarkers()),
               Marked(blob, ArgumentMarkers()), NetworkMarked(blob), Excerpt(env, blob));
    ChosenIsVerdict(env, blob);
  }

  // ---- Order of lines ------------------------------------------------------------------------------------

  ghost predicate SameLines(a: seq<string>, b: seq<string>) { forall l :: l in a <==> l in b }

  lemma {:induction false} SameEvents(env: Env, a: seq<string>, b: seq<string>, k: Kind)
    requires SameLines(a, b) && Event(env, a, k)
    ensures Event(env, b, k)
  {
    var i :| 0 <= i < |a| && IsOfKind(ClassifyLine(env, a[i]), k);
    assert a[i] in b;
    var j :| 0 <= j < |b| && b[j] == a[i];
  }

  lemma {:induction false} SameOccurrence(a: seq<string>, b: seq<string>, p: string)
    requires SameLines(a, b) && InSome(a, p)
    ensures InSome(b, p)
  {
    var i :| 0 <= i < |a| && Contains(a[i], p);
    assert a[i] in b;
    var j :| 0 <= j < |b| && b[j] == a[i];
  }

  lemma {:induction false} SameMarkers(a: seq<string>, b: seq<string>, markers: seq<string>)
    requires SameLines(a, b) && MarkedLine(a, markers)
    ensures MarkedLine(b, markers)
  {
    var i :| 0 <= i < |markers| && InSome(a, markers[i]);
    SameOccurrence(a, b, markers[i]);
  }

  lemma {:induction false} SameAuth(a: seq<string>, b: seq<string>)
    requires SameLines(a, b) && AuthInLines(a)
    ensures AuthInLines(b)
  {
    forall p | InSome(a, p) ensures InSome(b, p) { SameOccurrence(a, b, p); }
  }

  lemma {:induction false} SameVerdict(env: Env, a: seq<string>, b: seq<string>)
    requires SameLines(a, b)
    ensures Verdict(env, a) == Verdict(env, b)
  {
    forall k ensures Event(env, a, k) <==> Event(env, b, k) {
      if Event(env, a, k) { SameEvents(env, a, b, k); }
      if Event(env, b, k) { SameEvents(env, b, a, k); }
    }
    forall ms ensures MarkedLine(a, ms) <==> MarkedLine(b, ms) {
      if MarkedLine(a, ms) { SameMarkers(a, b, ms); }
      if MarkedLine(b, ms) { SameMarkers(b, a, ms); }
    }
    if AuthInLines(a) { SameAuth(a, b); }
    if AuthInLines(b) { SameAuth(b, a); }
  }

  function MessageOf(r: Reason): string {
    match r
    case InvalidArgument(m) => m
    case NetworkError(m) => m
    case Unknown(m) => m
    case _ => []
  }

  lemma {:induction false} EventMessagesFit(env: Env, ls: seq<string>)
    ensures forall r :: r in EventReasons(env, ls) ==> |MessageOf(r)| <= EXCERPT_MAX
    decreases |ls|
  {
    if ls != [] {
      var n := |ls| - 1;
      EventMessagesFit(env, ls[..n]);
    }
  }

  // ---- The abort -------------------------------------------------------------------------------------------

  /** A prefix of exactly `n` bytes is found if there is one. */
  lemma {:induction false} CutAtIff(s: string, n: nat)
    ensures match CutAt(s, n)
            case Some(p) => |p| <= |s| && p == s[..|p|] && Bytes(p) == n
            case None => forall k :: 0 <= k <= |s| ==> Bytes(s[..k]) != n
    decreases |s|
  {
    if n > 0 && s != [] && Width(s[0]) <= n {
      CutAtIff(s[1..], n - Width(s[0]));
      match CutAt(s[1..], n - Width(s[0])) {
        case Some(p) =>
          assert ([s[0]] + p)[1..] == p;
        case None =>
          forall k | 0 <= k <= |s| ensures Bytes(s[..k]) != n {
            if k > 0 { assert s[..k][1..] == s[1..][..k - 1]; }
          }
      }
    } else if n > 0 {
      forall k | 0 <= k <= |s| ensures Bytes(s[..k]) != n {
        if k > 0 { assert s[..k][0] == s[0]; }
      }
    }
  }

  /** UTF-8 length, counted from the front. */
  function Bytes(s: string): nat { if s == [] then 0 else Width(s[0]) + Bytes(s[1..]) }

  lemma {:induction false} BytesIsByteLen(s: string)
    ensures Bytes(s) == ByteLen(s)
    decreases |s|
  {
    if s != [] {
      var n := |s| - 1;
      BytesIsByteLen(s[..n]);
      BytesSnoc(s[..n], s[n]);
      assert s == s[..n] + [s[n]];
    }
  }

  lemma {:induction false} BytesSnoc(s: string, c: char)
    ensures Bytes(s + [c]) == Bytes(s) + Width(c)
    decreases |s|
  {
    if s != [] {
      BytesSnoc(s[1..], c);
      assert (s + [c])[1..] == s[1..] + [c];
    } else {
      assert ([c])[1..] == [];
      assert s + [c] == [c];
    }
  }

  /** No separator, longer than `n` bytes, and no code point ends at byte `n`. */
  ghost predicate CutsInside(rest: string, n: nat) {
    StopAt(rest) >= |rest| && ByteLen(rest) > n && forall k :: 0 <= k <= |rest| ==> ByteLen(rest[..k]) != n
  }

  lemma {:induction false} SliceIff(rest: string, n: nat)
    ensures Slice(rest, n).None? <==> CutsInside(rest, n)
  {
    CutAtIff(rest, n);
    forall k | 0 <= k <= |rest| ensures ByteLen(rest[..k]) == Bytes(rest[..k]) { BytesIsByteLen(rest[..k]); }
    match CutAt(rest, n) { case None => case Some(p) => assert ByteLen(rest[..|p|]) == n; }
  }

  /** Byte 40 after the first "resets " falls inside a code point. */
  ghost predicate ResetCut(text: string) {
    match Find(text, "resets ")
    case None => false
    case Some(i) => CutsInside(text[i + 7..], 40)
  }

  /** Byte 80 from the first "resets " on falls inside a code point. */
  ghost predicate LogCut(text: string) {
    match Find(text, "resets ")
    case None => false
    case Some(i) => CutsInside(text[i..], 80)
  }

  /** Reading a reset time aborts exactly on such a text. */
  lemma {:induction false} ResetAbortsIff(text: string, now: int, year: int)
    ensures ParseReset(text, now, year).Splits? <==> ResetCut(text)
    ensures LogSplits(text) <==> LogCut(text)
  {
    match Find(text, "resets ") {
      case None =>
      case Some(i) =>
        SliceIff(text[i + 7..], 40);
        SliceIff(text[i..], 80);
    }
  }

  predicate LimitError(kind: string) { kind == "rate_limit_exceeded" || kind == "overloaded_error" }

  /** A rate-limit event whose message is cut inside a code point. */
  ghost predicate LineCut(env: Env, line: string) {
    var t := Trim(line);
    var err := ErrorOf(env.parse(t));
    var kind, message := AsStr(Get(err, "type")), AsStr(Get(err, "message"));
    && t != [] && t[0] == '{' && kind.Some? && LimitError(kind.value)
    && ResetCut(if message.Some? then message.value else [])
  }

  /** No event or marker decides before the banner is read. */
  predicate BannerRead(env: Env, blob: string) {
    var rs := EventReasons(env, Lines(blob));
    && Marked(blob, LimitMarkers()) && !AuthMarked(blob) && !Has(rs, AuthKind) && !Has(rs, ContextKind)
    && match FirstOfKind(rs, RateLimitKind)
       case Some(r) => r.resetsAt.None?
       case None => rs == []
  }

  /** Reading the banner cuts a code point: the reset time, or, when there is none, the excerpt that is logged. */
  ghost predicate BannerCut(env: Env, blob: string) {
    ResetCut(blob) || (env.warns && ParseReset(blob, env.now, env.year).Absent? && LogCut(blob))
  }

  ghost predicate Aborts(env: Env, blob: string) {
    || (exists i :: 0 <= i < |Lines(blob)| && LineCut(env, Lines(blob)[i]))
    || (BannerRead(env, blob) && BannerCut(env, blob))
  }

  lemma {:induction false} LineAbortsIff(env: Env, line: string)
    ensures ClassifyLine(env, line).Splits? <==> LineCut(env, line)
  {
    var message := AsStr(Get(ErrorOf(env.parse(Trim(line))), "message"));
    ResetAbortsIff(if message.Some? then message.value else [], env.now, env.year);
  }

  lemma {:induction false} DecideAbortsIff(rs: seq<Reason>, auth: bool, banner: Parsed<Reason>, context: bool,
                                           argument: bool, network: bool, excerpt: string)
    ensures Decide(rs, auth, banner, context, argument, network, excerpt).Splits? <==>
            && banner.Splits? && !auth && !Has(rs, AuthKind) && !Has(rs, ContextKind)
            && match FirstOfKind(rs, RateLimitKind)
               case Some(r) => r.resetsAt.None?
               case None => rs == []
  {
  }

  lemma {:induction false} BannerAbortsIff(env: Env, blob: string)
    ensures MatchRateLimit(env, blob).Splits? <==> Marked(blob, LimitMarkers()) && BannerCut(env, blob)
  {
    ResetAbortsIff(blob, env.now, env.year);
  }

  /** Classification aborts on exactly these logs. */
  lemma {:induction false} ClassifyAbortsIff(env: Env, blob: string)
    ensures Classify(env, blob).Splits? <==> Aborts(env, blob)
  {
    var ls := Lines(blob);
    forall i | 0 <= i < |ls| ensures ClassifyLine(env, ls[i]).Splits? <==> LineCut(env, ls[i]) {
      LineAbortsIff(env, ls[i]);
    }
    BannerAbortsIff(env, blob);
    DecideAbortsIff(EventReasons(env, ls), AuthMarked(blob), MatchRateLimit(env, blob), Marked(blob, ContextMarkers()),
                    Marked(blob, ArgumentMarkers()), NetworkMarked(blob), Excerpt(env, blob));
  }

  // ---- What holds of every log that does not abort -----------------------------------------------------------

  /**
   Logs with the same lines, in any order and number, get the same kind, unless one of them cuts a code point
   where it is read.
   */
  lemma {:induction false} KindIgnoresLineOrder(env: Env, a: string, b: string)
    requires multiset(Lines(a)) == multiset(Lines(b)) || SameLines(Lines(a), Lines(b))
    requires !Aborts(env, a) && !Aborts(env, b)
    ensures Classify(env, a).Found? && Classify(env, b).Found?
    ensures KindOf(Classify(env, a).value) == KindOf(Classify(env, b).value)
  {
    ClassifyAbortsIff(env, a);
    ClassifyAbortsIff(env, b);
    ClassifyIsVerdict(env, a);
    ClassifyIsVerdict(env, b);
    if multiset(Lines(a)) == multiset(Lines(b)) { SameMultiset(Lines(a), Lines(b)); }
    SameVerdict(env, Lines(a), Lines(b));
  }

  lemma {:induction false} SameMultiset(a: seq<string>, b: seq<string>)
    requires multiset(a) == multiset(b)
    ensures SameLines(a, b)
  {
    forall l ensures l in a <==> l in b {
      assert l in a <==> l in multiset(a);
      assert l in b <==> l in multiset(b);
    }
  }

  /**
   Auth failure exactly when an event says so, or the markers do and no event reports an
   overlong context; so a rate limit is reported only without any auth evidence.
   */
  lemma {:induction false} AuthWins(env: Env, blob: string)
    requires !Aborts(env, blob)
    ensures Classify(env, blob).Found?
    ensures var k, ls := KindOf(Classify(env, blob).value), Lines(blob);
            && (k == AuthKind <==> Event(env, ls, AuthKind) || (AuthInLines(ls) && !Event(env, ls, ContextKind)))
            && (k == RateLimitKind ==> !Event(env, ls, AuthKind) && !AuthInLines(ls))
            && (k == RateLimitKind <==>
                  && !Event(env, ls, AuthKind) && !Event(env, ls, ContextKind) && !AuthInLines(ls)
                  && (Event(env, ls, RateLimitKind)
                      || (!Event(env, ls, ArgumentKind) && MarkedLine(ls, LimitMarkers()))))
  {
    ClassifyAbortsIff(env, blob);
    ClassifyIsVerdict(env, blob);
  }

  /** Whatever the log, the message of the verdict has at most 240 code points. */
  lemma {:induction false} MessagesFit(env: Env, blob: string)
    requires Classify(env, blob).Found?
    ensures |MessageOf(Classify(env, blob).value)| <= EXCERPT_MAX
  {
    ExcerptFits(env, blob);
    EventMessagesFit(env, Lines(blob));
  }

  // ---- Logs that abort ------------------------------------------------------------------------------------------

  /** One-byte characters, none a separator, and then one of two bytes. */
  predicate PlainThenWide(s: string) {
    && s != [] && s[|s| - 1] == '\U{00E9}'
    && forall i :: 0 <= i < |s| - 1 ==> Width(s[i]) == 1 && s[i] !in {'\n', '\U{00B7}', '|'}
  }

  lemma {:induction false} NoStop(s: string)
    requires forall i :: 0 <= i < |s| ==> s[i] !in {'\n', '\U{00B7}', '|'}
    ensures StopAt(s) == |s|
    decreases |s|
  {
    if s != [] { NoStop(s[1..]); }
  }

  lemma {:induction false} PlainBytes(s: string, k: nat)
    requires PlainThenWide(s) && k <= |s|
    ensures ByteLen(s[..k]) == if k == |s| then k + 1 else k
  {
    if k > 0 {
      PlainBytes(s, k - 1);
      assert s[..k][..k - 1] == s[..k - 1];
    }
  }

  lemma {:induction false} WideByteIsCut(s: string)
    requires PlainThenWide(s)
    ensures CutsInside(s, |s|)
  {
    NoStop(s);
    forall k: nat | k <= |s| ensures ByteLen(s[..k]) == if k == |s| then k + 1 else k { PlainBytes(s, k); }
    assert s[..|s|] == s;
  }

  /** A reset time of 39 one-byte characters and a two-byte one cannot be read. */
  lemma {:induction false} WideFortiethByteAborts(rest: string)
    requires |rest| == 40 && PlainThenWide(rest)
    ensures ResetCut("resets " + rest)
  {
    var blob := "resets " + rest;
    assert At(blob, "resets ", 0);
    assert Find(blob, "resets ") == Some(0) && blob[7..] == rest;
    WideByteIsCut(rest);
  }

  const LIMIT_TEXT := "resets usage limit reached"

  /** A log without a reset time whose logged excerpt ends inside a code point: byte 40 is none, byte 80 is. */
  function WideLog(): string { LIMIT_TEXT + seq(53, _ => 'a') + ['\U{00E9}'] }

  lemma {:induction false} WideLogShape()
    ensures var w := WideLog();
            && |w| == 80 && w[..26] == LIMIT_TEXT && PlainThenWide(w) && '4' !in w && '_' !in w && '\n' !in w
            && w[0] == 'r' && w[7] == 'u'
  {
    var w := WideLog();
    assert forall i :: 0 <= i < 26 ==> w[i] == LIMIT_TEXT[i];
    assert forall i :: 26 <= i < 79 ==> w[i] == 'a';
    assert forall i :: 0 <= i < 26 ==> LIMIT_TEXT[i] == ' ' || 'a' <= LIMIT_TEXT[i] <= 'z';
  }

  lemma {:induction false} NotMarkedWithout(blob: string, p: string, c: char)
    requires c in p && c !in blob
    ensures !Contains(blob, p)
  {
    var k :| 0 <= k < |p| && p[k] == c;
    forall i: nat | i <= |blob| ensures !At(blob, p, i) {
      assert i + |p| <= |blob| ==> blob[i..i + |p|][k] == blob[i + k];
    }
  }

  /** One line of plain text is no event. */
  lemma {:induction false} PlainLineHasNoEvent(env: Env, w: string)
    requires w != [] && '\n' !in w && !IsSpace(w[0]) && !IsSpace(w[|w| - 1]) && w[0] != '{'
    ensures EventReasons(env, Lines(w)) == []
  {
    assert Lines(w) == [w];
    assert Trim(w) == w;
    assert ClassifyLine(env, w) == Absent;
    var lines := [w];
    assert lines[..0] == [];
    assert EventReasons(env, lines[..0]) == [];
  }

  lemma {:induction false} WideLogHasNoAuth()
    ensures !AuthMarked(WideLog())
  {
    WideLogShape();
    NotMarkedWithout(WideLog(), "401", '4');
    NotMarkedWithout(WideLog(), "invalid_api_key", '_');
  }

  lemma {:induction false} WideLogIsMarked()
    ensures Marked(WideLog(), LimitMarkers())
  {
    var w := WideLog();
    WideLogShape();
    assert LIMIT_TEXT[7..26] == "usage limit reached";
    assert w[7..26] == w[..26][7..26];
    assert At(w, "usage limit reached", 7);
    assert Contains(w, LimitMarkers()[3]);
  }

  lemma {:induction false} NoMonth(s: string)
    requires s != [] && s[0] == 'u'
    ensures MonthOf(s) == None
  {
    assert Lower(s)[0] == 'u';
  }

  lemma {:induction false} TrimKeepsFirst(s: string, cs: set<char>)
    requires s != [] && !IsSpace(s[0]) && s[0] !in cs
    ensures TrimEnd(s) != [] && TrimEnd(s)[0] == s[0]
    ensures TrimEndOf(s, cs) != [] && TrimEndOf(s, cs)[0] == s[0]
    decreases |s|
  {
    if |s| > 1 { TrimKeepsFirst(s[..|s| - 1], cs); }
  }

  /** A reset text that starts with `u` is no time. */
  lemma {:induction false} NoTimeInBanner(env: Env, text: string, rest: string)
    requires Candidate(text) == Found(rest) && rest != [] && rest[0] == 'u'
    ensures ParseReset(text, env.now, env.year).Absent?
  {
    TrimKeepsFirst(rest, {'.', ','});
    TrimKeepsFirst(Trim(rest), {'.', ','});
    var t := TrimEndOf(Trim(rest), {'.', ','});
    assert Words(t)[0] == t[..WordEnd(t)];
    NoMonth(Words(t)[0]);
  }

  lemma {:induction false} SlicePlain(w: string)
    requires |w| == 80 && PlainThenWide(w) && w[7] == 'u'
    ensures Slice(w[7..], 40).Some? && Slice(w[7..], 40).value != [] && Slice(w[7..], 40).value[0] == 'u'
  {
    var rest := w[7..];
    assert PlainThenWide(rest);
    PlainBytes(rest, 40);
    SliceIff(rest, 40);
    assert ByteLen(rest[..40]) == 40;
    NoStop(rest);
    CutAtIff(rest, 40);
    PlainBytes(rest, 73);
    assert rest[..73] == rest;
    var c := CutAt(rest, 40).value;
    assert Bytes(c) == 40 && (|c| == 0 ==> Bytes(c) == 0);
  }

  lemma {:induction false} WideLogStartsResets()
    ensures Find(WideLog(), "resets ") == Some(0)
  {
    var w := WideLog();
    WideLogShape();
    assert LIMIT_TEXT[0..7] == "resets ";
    assert w[0..7] == w[..26][0..7];
    assert At(w, "resets ", 0);
  }

  lemma {:induction false} WideLogHasNoTime(env: Env)
    ensures ParseReset(WideLog(), env.now, env.year).Absent? && LogCut(WideLog())
  {
    var w := WideLog();
    WideLogShape();
    WideLogStartsResets();
    assert w[0..] == w;
    WideByteIsCut(w);
    SlicePlain(w);
    NoTimeInBanner(env, w, Slice(w[7..], 40).value);
  }

  /** A marked log without events, auth markers or a reset time aborts when its logged excerpt is cut. */
  lemma {:induction false} BareBannerAborts(env: Env, w: string)
    requires EventReasons(env, Lines(w)) == [] && !AuthMarked(w) && Marked(w, LimitMarkers())
    requires env.warns && ParseReset(w, env.now, env.year).Absent? && LogCut(w)
    ensures Classify(env, w).Splits?
  {
    ClassifyAbortsIff(env, w);
    assert BannerRead(env, w) && BannerCut(env, w);
  }

  /** With warnings on, this log aborts the classifier although its reset text could be read. */
  lemma {:induction false} LoggedExcerptAborts(env: Env)
    requires env.warns
    ensures Classify(env, WideLog()).Splits?
  {
    WideLogShape();
    PlainLineHasNoEvent(env, WideLog());
    WideLogHasNoAuth();
    WideLogIsMarked();
    WideLogHasNoTime(env);
    BareBannerAborts(env, WideLog());
  }
}
