/** `pitboss attach`: following a growing log file line by line, whatever chunks the polls see. */
module Follower {
  import opened Utf8

  const NEWLINE: byte := 0x0A

  // ---- Lines of a byte string --------------------------------------------------------------

  /** The non-empty newline-terminated lines of `cur + s`, where `cur` is the line being read. */
  function LinesOf(cur: seq<byte>, s: seq<byte>): seq<seq<byte>>
    decreases |s|
  {
    if s == [] then []
    else if s[0] == NEWLINE then (if cur == [] then [] else [cur]) + LinesOf([], s[1..])
    else LinesOf(cur + [s[0]], s[1..])
  }

  /** The bytes after the last newline of `cur + s`. */
  function RestOf(cur: seq<byte>, s: seq<byte>): seq<byte>
    decreases |s|
  {
    if s == [] then cur
    else if s[0] == NEWLINE then RestOf([], s[1..])
    else RestOf(cur + [s[0]], s[1..])
  }

  lemma {:induction false} SplitConcat(cur: seq<byte>, a: seq<byte>, b: seq<byte>)
    ensures LinesOf(cur, a + b) == LinesOf(cur, a) + LinesOf(RestOf(cur, a), b)
    ensures RestOf(cur, a + b) == RestOf(RestOf(cur, a), b)
    decreases |a|
  {
    if a == [] {
      assert a + b == b;
    } else {
      assert (a + b)[1..] == a[1..] + b;
      SplitConcat(if a[0] == NEWLINE then [] else cur + [a[0]], a[1..], b);
    }
  }

  /** Bytes without a newline only lengthen the line being read. */
  lemma {:induction false} NoNewline(cur: seq<byte>, a: seq<byte>)
    requires NEWLINE !in a
    ensures LinesOf(cur, a) == [] && RestOf(cur, a) == cur + a
    decreases |a|
  {
    if a == [] {
      assert cur + a == cur;
    } else {
      NoNewline(cur + [a[0]], a[1..]);
      assert cur + [a[0]] + a[1..] == cur + a;
    }
  }

  lemma {:induction false} RestHasNoNewline(cur: seq<byte>, s: seq<byte>)
    requires NEWLINE !in cur
    ensures NEWLINE !in RestOf(cur, s)
    decreases |s|
  {
    if s != [] { RestHasNoNewline(if s[0] == NEWLINE then [] else cur + [s[0]], s[1..]); }
  }

  /** Reading again with the unterminated rest put back in front. */
  lemma {:induction false} Resume(buf: seq<byte>, chunk: seq<byte>)
    requires NEWLINE !in buf
    ensures LinesOf([], buf + chunk) == LinesOf(buf, chunk) && RestOf([], buf + chunk) == RestOf(buf, chunk)
  {
    SplitConcat([], buf, chunk);
    NoNewline([], buf);
    assert [] + buf == buf;
  }

  // ---- One poll ------------------------------------------------------------------------------

  /** The follower between two polls; `out` is every line written so far. */
  datatype State = State(seeded: nat, buf: seq<byte>, out: seq<seq<byte>>, exited: bool)

  function Chunk(seeded: nat, file: seq<byte>): seq<byte> { if seeded <= |file| then file[seeded..] else [] }

  ghost predicate HasResult(isResult: seq<byte> -> bool, lines: seq<seq<byte>>) {
    exists i :: 0 <= i < |lines| && isResult(lines[i])
  }

  /** One poll: `size` is what the size check saw, `file` what the read then saw. */
  ghost function Poll(f: State, raw: bool, isResult: seq<byte> -> bool, size: nat, file: seq<byte>): State {
    var g := if size < f.seeded then State(0, [], f.out, f.exited) else f;
    if f.exited || size <= g.seeded then (if f.exited then f else g)
    else
      var s := g.buf + Chunk(g.seeded, file);
      State(size, RestOf([], s), f.out + LinesOf([], s), !raw && HasResult(isResult, LinesOf([], s)))
  }

  class LogFollower {
    var seeded: nat
    var tailBuf: seq<byte>
    var out: seq<seq<byte>>
    var exited: bool
    const raw: bool

    constructor (seed: nat, raw: bool)
      ensures View() == State(seed, [], [], false) && this.raw == raw
    {
      seeded, tailBuf, out, exited := seed, [], [], false;
      this.raw := raw;
    }

    ghost function View(): State
      reads this
    {
      State(seeded, tailBuf, out, exited)
    }

    /** The follow loop's body: stat, seek, read, split, drain. */
    method PollOnce(isResult: seq<byte> -> bool, size: nat, file: seq<byte>)
      requires !exited
      modifies this
      ensures View() == Poll(old(View()), raw, isResult, size, file)
    {
      if size < seeded { seeded, tailBuf := 0, []; }
      if size > seeded {
        var chunk := if seeded <= |file| then file[seeded..] else [];
        seeded := size;
        tailBuf := tailBuf + chunk;
        exited := SplitBuffer(isResult);
      }
    }

    /** Write every complete line in the buffer and keep the unterminated rest. */
    method SplitBuffer(isResult: seq<byte> -> bool) returns (done: bool)
      modifies this`tailBuf, this`out
      ensures tailBuf == RestOf([], old(tailBuf))
      ensures out == old(out) + LinesOf([], old(tailBuf))
      ensures done == (!raw && HasResult(isResult, LinesOf([], old(tailBuf))))
    {
      var start := 0;
      done := false;
      ghost var lines: seq<seq<byte>> := [];
      var i := 0;
      while i < |tailBuf|
        invariant 0 <= start <= i <= |tailBuf| && tailBuf == old(tailBuf)
        invariant lines == LinesOf([], tailBuf[..i]) && tailBuf[start..i] == RestOf([], tailBuf[..i])
        invariant out == old(out) + lines
        invariant done == (!raw && HasResult(isResult, lines))
      {
        assert tailBuf[..i + 1] == tailBuf[..i] + [tailBuf[i]];
        SplitConcat([], tailBuf[..i], [tailBuf[i]]);
        if tailBuf[i] == NEWLINE {
          var line := tailBuf[start..i];
          start := i + 1;
          if line != [] {
            out := out + [line];
            HasResultSnoc(isResult, lines, line);
            lines := lines + [line];
            if !raw && isResult(line) { done := true; }
          }
        }
        i := i + 1;
      }
      assert tailBuf[..i] == tailBuf;
      tailBuf := tailBuf[start..];
    }
  }

  lemma {:induction false} HasResultSnoc(isResult: seq<byte> -> bool, lines: seq<seq<byte>>, line: seq<byte>)
    ensures HasResult(isResult, lines + [line]) <==> HasResult(isResult, lines) || isResult(line)
  {
    if HasResult(isResult, lines) {
      var i :| 0 <= i < |lines| && isResult(lines[i]);
      assert (lines + [line])[i] == lines[i];
    }
    assert (lines + [line])[|lines|] == line;
  }

  // ---- Whole sessions ---------------------------------------------------------------------------

  /** The follower has read exactly the bytes `from..seeded` of `file`. */
  ghost predicate Follows(f: State, from: nat, file: seq<byte>) {
    && from <= f.seeded <= |file|
    && f.out == LinesOf([], file[from..f.seeded])
    && f.buf == RestOf([], file[from..f.seeded])
  }

  /** Polls of an append-only file, each read seeing just what its size check saw. */
  ghost predicate AppendOnly(files: seq<seq<byte>>) {
    forall i, j :: 0 <= i <= j < |files| ==> files[i] <= files[j]
  }

  ghost function Session(from: nat, raw: bool, isResult: seq<byte> -> bool, files: seq<seq<byte>>): State {
    if files == [] then State(from, [], [], false)
    else Poll(Session(from, raw, isResult, files[..|files| - 1]), raw, isResult, |files[|files| - 1]|,
              files[|files| - 1])
  }

  /** One poll that sees the whole file, from a state that follows a prefix of it. */
  lemma {:induction false} PollFollows(f: State, from: nat, raw: bool, isResult: seq<byte> -> bool, before: seq<byte>,
                                       file: seq<byte>)
    requires Follows(f, from, before) && f.seeded == |before| && before <= file && !f.exited
    ensures var f' := Poll(f, raw, isResult, |file|, file);
            && Follows(f', from, file) && f'.seeded == |file|
            && (f'.exited <==> !raw && HasResult(isResult, LinesOf(f.buf, file[|before|..])))
  {
    var read, chunk := before[from..], file[|before|..];
    assert before[from..|before|] == read && file[from..|file|] == read + chunk;
    SplitConcat([], read, chunk);
    RestHasNoNewline([], read);
    Resume(f.buf, chunk);
    if |file| == |before| { assert chunk == [] && read + chunk == read; }
  }

  /**
   However the growing file is cut into polls: after them all, if no result event was met,
   the lines written are the complete lines after the seed, each once, and the buffer is the rest.
   */
  lemma {:induction false} ChunksDoNotMatter(from: nat, raw: bool, isResult: seq<byte> -> bool, files: seq<seq<byte>>)
    requires files != [] && AppendOnly(files) && from <= |files[0]|
    ensures var f := Session(from, raw, isResult, files);
            var file := files[|files| - 1];
            && (!f.exited ==>
               f.seeded == |file| && f.out == LinesOf([], Chunk(from, file)) && f.buf == RestOf([], Chunk(from, file)))
            && (f.exited <==> !raw && HasResult(isResult, LinesOf([], Chunk(from, file))))
    decreases |files|
  {
    var n := |files| - 1;
    var file, front := files[n], files[..n];
    assert files[0] <= file;
    if n == 0 {
      assert front == [];
      SessionStep(State(from, [], [], false), from, raw, isResult, file[..from], file);
    } else {
      assert forall i :: 0 <= i < n ==> front[i] == files[i];
      ChunksDoNotMatter(from, raw, isResult, front);
      var f, last := Session(from, raw, isResult, front), front[n - 1];
      assert files[0] <= last && last <= file;
      SessionStep(f, from, raw, isResult, last, file);
    }
  }

  lemma {:induction false} SessionStep(f: State, from: nat, raw: bool, isResult: seq<byte> -> bool, last: seq<byte>,
                                       file: seq<byte>)
    requires from <= |last| && last <= file
    requires !f.exited ==>
             f.seeded == |last| && f.out == LinesOf([], Chunk(from, last)) && f.buf == RestOf([], Chunk(from, last))
    requires f.exited <==> !raw && HasResult(isResult, LinesOf([], Chunk(from, last)))
    ensures var f' := Poll(f, raw, isResult, |file|, file);
            && (!f'.exited ==> f'.seeded == |file| && f'.buf == RestOf([], Chunk(from, file)))
            && (!f.exited ==> f'.out == LinesOf([], Chunk(from, file)))
            && (f'.exited <==> !raw && HasResult(isResult, LinesOf([], Chunk(from, file))))
  {
    var chunk := file[|last|..];
    assert Chunk(from, file) == Chunk(from, last) + chunk;
    SplitConcat([], Chunk(from, last), chunk);
    HasResultConcat(isResult, LinesOf([], Chunk(from, last)), LinesOf(RestOf([], Chunk(from, last)), chunk));
    if !f.exited {
      assert last[from..|last|] == Chunk(from, last);
      PollFollows(f, from, raw, isResult, last, file);
      assert file[from..|file|] == Chunk(from, file);
    }
  }

  lemma {:induction false} HasResultConcat(isResult: seq<byte> -> bool, a: seq<seq<byte>>, b: seq<seq<byte>>)
    ensures HasResult(isResult, a + b) <==> HasResult(isResult, a) || HasResult(isResult, b)
  {
    if HasResult(isResult, a) { var i :| 0 <= i < |a| && isResult(a[i]); assert (a + b)[i] == a[i]; }
    if HasResult(isResult, b) { var i :| 0 <= i < |b| && isResult(b[i]); assert (a + b)[|a| + i] == b[i]; }
    if HasResult(isResult, a + b) {
      var i :| 0 <= i < |a + b| && isResult((a + b)[i]);
      if i < |a| { assert isResult(a[i]); } else { assert isResult(b[i - |a|]); }
    }
  }

  /** Formatted mode leaves on the first poll that completes a result event, having written all of that poll's lines. */
  lemma {:induction false} ExitsOnFirstResult(from: nat, isResult: seq<byte> -> bool, files: seq<seq<byte>>, n: nat)
    requires AppendOnly(files) && 0 < n < |files| && from <= |files[0]|
    requires !HasResult(isResult, LinesOf([], Chunk(from, files[n - 1])))
    requires HasResult(isResult, LinesOf([], Chunk(from, files[n])))
    ensures var f := Session(from, false, isResult, files[..n + 1]);
            f.exited && f.out == LinesOf([], Chunk(from, files[n]))
    ensures !Session(from, false, isResult, files[..n]).exited
  {
    assert files[..n + 1][..n] == files[..n];
    ChunksDoNotMatter(from, false, isResult, files[..n]);
    assert files[0] <= files[n - 1] && files[n - 1] <= files[n];
    SessionStep(Session(from, false, isResult, files[..n]), from, false, isResult, files[n - 1], files[n]);
  }

  // ---- When a poll is exact ------------------------------------------------------------------------

  lemma {:induction false} NothingRead(cur: seq<byte>, g: seq<byte>)
    ensures LinesOf(cur, g) == [] && RestOf(cur, g) == cur <==>
            g == [] || (cur == [] && forall i :: 0 <= i < |g| ==> g[i] == NEWLINE)
    decreases |g|
  {
    if g != [] {
      if g[0] == NEWLINE {
        NothingRead([], g[1..]);
        assert forall i :: 0 < i < |g| ==> g[i] == g[1..][i - 1];
        if cur == [] && forall i :: 0 <= i < |g[1..]| ==> g[1..][i] == NEWLINE {
          forall i | 0 <= i < |g| ensures g[i] == NEWLINE { if i > 0 { assert g[i] == g[1..][i - 1]; } }
        }
      } else {
        SilentKeepsAll(cur + [g[0]], g[1..]);
      }
    }
  }

  /** From inside a line, reading without completing a line keeps every byte. */
  lemma {:induction false} SilentKeepsAll(cur: seq<byte>, g: seq<byte>)
    requires cur != []
    ensures LinesOf(cur, g) == [] ==> RestOf(cur, g) == cur + g
    decreases |g|
  {
    if g != [] && g[0] != NEWLINE {
      SilentKeepsAll(cur + [g[0]], g[1..]);
      assert cur + [g[0]] + g[1..] == cur + g;
    } else if g == [] {
      assert cur + g == cur;
    }
  }

  /**
   Growth between the size check and the read: the offset then trails the bytes read. Offset, lines and
   buffer are still in step if and only if nothing grew, or only newlines did at a line boundary.
   */
  lemma {:induction false} PollExactIff(f: State, from: nat, raw: bool, isResult: seq<byte> -> bool, size: nat,
                                        file: seq<byte>)
    requires Follows(f, from, file) && !f.exited && f.seeded < size <= |file|
    ensures Follows(Poll(f, raw, isResult, size, file), from, file) <==>
            || size == |file|
            || (RestOf([], file[from..size]) == [] && forall i :: size <= i < |file| ==> file[i] == NEWLINE)
  {
    var old_, x, g := file[from..f.seeded], file[from..size], file[size..];
    assert file[from..] == old_ + file[f.seeded..] && file[from..] == x + g;
    RestHasNoNewline([], old_);
    Resume(f.buf, file[f.seeded..]);
    SplitConcat([], old_, file[f.seeded..]);
    SplitConcat([], x, g);
    var f' := Poll(f, raw, isResult, size, file);
    assert f'.out == LinesOf([], x) + LinesOf(RestOf([], x), g);
    NothingRead(RestOf([], x), g);
    assert (forall i :: 0 <= i < |g| ==> g[i] == NEWLINE)
           <==> (forall i :: size <= i < |file| ==> file[i] == NEWLINE) by {
      assert forall i :: 0 <= i < |g| ==> g[i] == file[size + i];
      assert forall i :: size <= i < |file| ==> file[i] == g[i - size];
    }
    assert f'.out == LinesOf([], x) <==> LinesOf(RestOf([], x), g) == [];
  }

  // ---- When a session is exact ----------------------------------------------------------------------

  /** What one poll's size check and its read saw. */
  datatype Sight = Sight(size: nat, file: seq<byte>)

  /** An append-only file may grow between the check and the read of a poll, and between polls. */
  ghost predicate Growing(from: nat, ps: seq<Sight>) { forall i :: 0 <= i < |ps| ==> GrowsAt(from, ps, i) }

  ghost predicate GrowsAt(from: nat, ps: seq<Sight>, i: nat)
    requires i < |ps|
  {
    && SizeBefore(from, ps, i) <= ps[i].size <= |ps[i].file|
    && (i > 0 ==> |ps[i - 1].file| <= ps[i].size && ps[i - 1].file <= ps[i].file)
  }

  function SizeBefore(from: nat, ps: seq<Sight>, i: nat): nat
    requires i <= |ps|
  {
    if i == 0 then from else ps[i - 1].size
  }

  ghost function Polls(from: nat, raw: bool, isResult: seq<byte> -> bool, ps: seq<Sight>): State {
    if ps == [] then State(from, [], [], false)
    else
      var n := |ps| - 1;
      Poll(Polls(from, raw, isResult, ps[..n]), raw, isResult, ps[n].size, ps[n].file)
  }

  /** The poll reads at all. */
  predicate ReadsAt(from: nat, ps: seq<Sight>, i: nat)
    requires i < |ps|
  {
    SizeBefore(from, ps, i) < ps[i].size
  }

  /** What arrived between the check and the read of a poll that reads; the next read starts with it again. */
  function Extra(from: nat, ps: seq<Sight>, i: nat): seq<byte>
    requires i < |ps|
  {
    if ReadsAt(from, ps, i) then Chunk(ps[i].size, ps[i].file) else []
  }

  /** Where the bytes read so far end. */
  function ReadTo(from: nat, ps: seq<Sight>): nat {
    if ps == [] then from else ps[|ps| - 1].size + |Extra(from, ps, |ps| - 1)|
  }

  /** The part of the file that has been read. */
  function Seen(from: nat, ps: seq<Sight>): seq<byte> {
    if ps == [] then []
    else
      var file := ps[|ps| - 1].file;
      if from <= ReadTo(from, ps) <= |file| then file[from..ReadTo(from, ps)] else []
  }

  /** What the reads returned, one after the other. */
  function Stream(from: nat, ps: seq<Sight>): seq<byte> {
    if ps == [] then []
    else
      var n := |ps| - 1;
      Stream(from, ps[..n]) + (if ReadsAt(from, ps, n) then Chunk(SizeBefore(from, ps, n), ps[n].file) else [])
  }

  lemma {:induction false} GrowingFront(from: nat, ps: seq<Sight>)
    requires Growing(from, ps) && ps != []
    ensures Growing(from, ps[..|ps| - 1])
  {
    var n := |ps| - 1;
    forall i | 0 <= i < n ensures GrowsAt(from, ps[..n], i) {
      assert GrowsAt(from, ps, i);
      assert ps[..n][i] == ps[i] && SizeBefore(from, ps[..n], i) == SizeBefore(from, ps, i);
    }
  }

  lemma {:induction false} FrontPolls(from: nat, ps: seq<Sight>, n: nat, i: nat)
    requires n <= |ps| && i < n
    ensures ReadsAt(from, ps[..n], i) == ReadsAt(from, ps, i) && Extra(from, ps[..n], i) == Extra(from, ps, i)
  {
    assert ps[..n][i] == ps[i];
  }

  /** While it has not left, the follower's lines and buffer are those of the stream. */
  lemma {:induction false} PollsReadTheStream(from: nat, raw: bool, isResult: seq<byte> -> bool, ps: seq<Sight>)
    requires Growing(from, ps) && !Polls(from, raw, isResult, ps).exited
    ensures var f := Polls(from, raw, isResult, ps);
            && f.seeded == SizeBefore(from, ps, |ps|)
            && f.out == LinesOf([], Stream(from, ps)) && f.buf == RestOf([], Stream(from, ps))
    decreases |ps|
  {
    if ps != [] {
      var n := |ps| - 1;
      var f, read := Polls(from, raw, isResult, ps[..n]), Stream(from, ps[..n]);
      GrowingFront(from, ps);
      StillThere(from, raw, isResult, ps);
      assert GrowsAt(from, ps, n);
      PollsReadTheStream(from, raw, isResult, ps[..n]);
      assert SizeBefore(from, ps[..n], n) == SizeBefore(from, ps, n);
      OnePollReads(f, read, raw, isResult, ps[n].size, ps[n].file);
    }
  }

  lemma {:induction false} OnePollReads(f: State, read: seq<byte>, raw: bool, isResult: seq<byte> -> bool, size: nat,
                                        file: seq<byte>)
    requires f.seeded <= size && !f.exited && f.out == LinesOf([], read) && f.buf == RestOf([], read)
    ensures var f' := Poll(f, raw, isResult, size, file);
            var all := read + (if f.seeded < size then Chunk(f.seeded, file) else []);
            f'.seeded == size && f'.out == LinesOf([], all) && f'.buf == RestOf([], all)
  {
    if f.seeded < size {
      var chunk := Chunk(f.seeded, file);
      SplitConcat([], read, chunk);
      RestHasNoNewline([], read);
      Resume(f.buf, chunk);
    } else {
      assert read + [] == read;
    }
  }

  lemma {:induction false} StillThere(from: nat, raw: bool, isResult: seq<byte> -> bool, ps: seq<Sight>)
    requires ps != [] && !Polls(from, raw, isResult, ps).exited
    ensures !Polls(from, raw, isResult, ps[..|ps| - 1]).exited
  {
  }

  /** Bytes that the last poll reads for the first time. */
  function New(from: nat, ps: seq<Sight>): seq<byte>
    requires ps != []
  {
    var a, b, file := ReadTo(from, ps[..|ps| - 1]), ReadTo(from, ps), ps[|ps| - 1].file;
    if a <= b <= |file| then file[a..b] else []
  }

  lemma {:induction false} LastPoll(from: nat, ps: seq<Sight>)
    requires Growing(from, ps) && ps != []
    ensures var n := |ps| - 1;
            var again := if n == 0 then [] else Extra(from, ps, n - 1);
            && from <= ReadTo(from, ps) <= |ps[n].file|
            && Seen(from, ps) == Seen(from, ps[..n]) + New(from, ps)
            && Stream(from, ps) == Stream(from, ps[..n]) + again + New(from, ps)
    decreases |ps|
  {
    var n := |ps| - 1;
    if n == 0 {
      assert ps[..0] == [];
      FirstPoll(from, ps);
    } else {
      GrowingFront(from, ps);
      LastPoll(from, ps[..n]);
      LaterPoll(from, ps);
    }
  }

  /** Of a file that only grew since, the parts read before are still the same. */
  lemma {:induction false} Overlap(before: seq<byte>, file: seq<byte>, from: nat, size: nat, a: nat, b: nat)
    requires before <= file && from <= size <= a <= |before| && a <= b <= |file|
    ensures before[from..a] == file[from..a] && file[from..a] + file[a..b] == file[from..b]
    ensures before[size..a] == file[size..a] && file[size..a] + file[a..b] == file[size..b]
  {
  }

  /** Where the poll before the last stopped: its read began at `size` and its extra bytes end at `a`. */
  lemma {:induction false} BeforeLast(from: nat, ps: seq<Sight>)
    requires Growing(from, ps) && |ps| > 1
    requires from <= ReadTo(from, ps[..|ps| - 1]) <= |ps[|ps| - 2].file|
    ensures var n := |ps| - 1;
            var before, a := ps[n - 1], ReadTo(from, ps[..n]);
            && a == before.size + |Extra(from, ps, n - 1)| && SizeBefore(from, ps, n) == before.size
            && from <= before.size <= a <= ps[n].size && before.file <= ps[n].file
            && Extra(from, ps, n - 1) == before.file[before.size..a]
            && Seen(from, ps[..n]) == before.file[from..a]
  {
    var n := |ps| - 1;
    FrontPolls(from, ps, n, n - 1);
    assert ps[..n][n - 1] == ps[n - 1];
    assert GrowsAt(from, ps, n - 1) && GrowsAt(from, ps, n);
    SizesRise(from, ps, n - 1);
  }

  lemma {:induction false} SizesRise(from: nat, ps: seq<Sight>, i: nat)
    requires Growing(from, ps) && i < |ps|
    ensures from <= ps[i].size
    decreases i
  {
    assert GrowsAt(from, ps, i);
    if i > 0 { SizesRise(from, ps, i - 1); }
  }

  lemma {:induction false} LaterPoll(from: nat, ps: seq<Sight>)
    requires Growing(from, ps) && |ps| > 1
    requires from <= ReadTo(from, ps[..|ps| - 1]) <= |ps[|ps| - 2].file|
    ensures var n := |ps| - 1;
            && from <= ReadTo(from, ps) <= |ps[n].file|
            && Seen(from, ps) == Seen(from, ps[..n]) + New(from, ps)
            && Stream(from, ps) == Stream(from, ps[..n]) + Extra(from, ps, n - 1) + New(from, ps)
  {
    var n := |ps| - 1;
    BeforeLast(from, ps);
    assert GrowsAt(from, ps, n);
    var size, a, b, file := ps[n - 1].size, ReadTo(from, ps[..n]), ReadTo(from, ps), ps[n].file;
    Overlap(ps[n - 1].file, file, from, size, a, b);
    var read := Stream(from, ps[..n]);
    if ReadsAt(from, ps, n) {
      assert b == |file| && Chunk(size, file) == file[size..b];
      assert read + (file[size..a] + file[a..b]) == read + file[size..a] + file[a..b];
    } else {
      assert a == b && file[size..a] == [] && file[a..b] == [];
      assert read + [] + [] == read;
    }
  }

  lemma {:induction false} FirstPoll(from: nat, ps: seq<Sight>)
    requires Growing(from, ps) && |ps| == 1
    ensures from <= ReadTo(from, ps) <= |ps[0].file|
    ensures Seen(from, ps) == ps[0].file[from..ReadTo(from, ps)] == Stream(from, ps)
    ensures ps[..0] == [] && New(from, ps) == Seen(from, ps)
  {
    assert GrowsAt(from, ps, 0) && SizeBefore(from, ps, 0) == from;
  }

  /** How many bytes are not newlines. */
  function Inked(s: seq<byte>): nat {
    if s == [] then 0 else (if s[0] == NEWLINE then 0 else 1) + Inked(s[1..])
  }

  lemma {:induction false} InkedConcat(a: seq<byte>, b: seq<byte>)
    ensures Inked(a + b) == Inked(a) + Inked(b)
    decreases |a|
  {
    if a == [] {
      assert a + b == b;
    } else {
      assert (a + b)[1..] == a[1..] + b;
      InkedConcat(a[1..], b);
    }
  }

  lemma {:induction false} InkedIsZeroIff(s: seq<byte>)
    ensures Inked(s) == 0 <==> Newlines(s)
    decreases |s|
  {
    if s != [] {
      InkedIsZeroIff(s[1..]);
      assert forall i :: 0 < i < |s| ==> s[i] == s[1..][i - 1];
      if Inked(s) == 0 {
        forall i | 0 <= i < |s| ensures s[i] == NEWLINE { if i > 0 { assert s[i] == s[1..][i - 1]; } }
      }
    }
  }

  function Length(lines: seq<seq<byte>>): nat {
    if lines == [] then 0 else |lines[0]| + Length(lines[1..])
  }

  lemma {:induction false} LengthConcat(a: seq<seq<byte>>, b: seq<seq<byte>>)
    ensures Length(a + b) == Length(a) + Length(b)
    decreases |a|
  {
    if a == [] {
      assert a + b == b;
    } else {
      assert (a + b)[1..] == a[1..] + b;
      LengthConcat(a[1..], b);
    }
  }

  /** Splitting loses no byte but the newlines. */
  lemma {:induction false} InkIsKept(cur: seq<byte>, s: seq<byte>)
    ensures Length(LinesOf(cur, s)) + |RestOf(cur, s)| == |cur| + Inked(s)
    decreases |s|
  {
    if s != [] {
      if s[0] == NEWLINE {
        InkIsKept([], s[1..]);
        LengthConcat(if cur == [] then [] else [cur], LinesOf([], s[1..]));
      } else {
        InkIsKept(cur + [s[0]], s[1..]);
      }
    }
  }

  /** What earlier polls than the last read too early, and the next one again. */
  function Twice(from: nat, ps: seq<Sight>): nat {
    if |ps| <= 1 then 0
    else Twice(from, ps[..|ps| - 1]) + Inked(Extra(from, ps, |ps| - 2))
  }

  lemma {:induction false} StreamInk(from: nat, ps: seq<Sight>)
    requires Growing(from, ps)
    ensures Inked(Stream(from, ps)) == Inked(Seen(from, ps)) + Twice(from, ps)
    decreases |ps|
  {
    if ps != [] {
      var n := |ps| - 1;
      GrowingFront(from, ps);
      StreamInk(from, ps[..n]);
      LastPoll(from, ps);
      var again := if n == 0 then [] else Extra(from, ps, n - 1);
      InkedConcat(Seen(from, ps[..n]), New(from, ps));
      InkedConcat(Stream(from, ps[..n]) + again, New(from, ps));
      InkedConcat(Stream(from, ps[..n]), again);
    }
  }

  ghost predicate Newlines(s: seq<byte>) { forall i :: 0 <= i < |s| ==> s[i] == NEWLINE }

  /** Every byte that arrived inside a poll before the last one is a newline. */
  ghost predicate OnlyNewlinesTwice(from: nat, ps: seq<Sight>) {
    forall i :: 0 <= i < |ps| - 1 ==> Newlines(Extra(from, ps, i))
  }

  lemma {:induction false} OnlyNewlinesSnoc(from: nat, ps: seq<Sight>)
    requires |ps| > 1
    ensures var n := |ps| - 1;
            OnlyNewlinesTwice(from, ps) <==> OnlyNewlinesTwice(from, ps[..n]) && Newlines(Extra(from, ps, n - 1))
  {
    var n := |ps| - 1;
    forall i | 0 <= i < n ensures Extra(from, ps[..n], i) == Extra(from, ps, i) { FrontPolls(from, ps, n, i); }
  }

  lemma {:induction false} TwiceIsZeroIff(from: nat, ps: seq<Sight>)
    ensures Twice(from, ps) == 0 <==> OnlyNewlinesTwice(from, ps)
    decreases |ps|
  {
    if |ps| > 1 {
      var n := |ps| - 1;
      TwiceIsZeroIff(from, ps[..n]);
      InkedIsZeroIff(Extra(from, ps, n - 1));
      OnlyNewlinesSnoc(from, ps);
    }
  }

  /** `a` and `b` read alike: the same lines, the same rest. */
  predicate Alike(a: seq<byte>, b: seq<byte>) { LinesOf([], a) == LinesOf([], b) && RestOf([], a) == RestOf([], b) }

  lemma {:induction false} AlikeConcat(a: seq<byte>, b: seq<byte>, c: seq<byte>)
    requires Alike(a, b)
    ensures Alike(a + c, b + c)
  {
    SplitConcat([], a, c);
    SplitConcat([], b, c);
  }

  /** Newlines read again right after themselves change nothing. */
  lemma {:induction false} NewlinesAgain(a: seq<byte>, g: seq<byte>)
    requires Newlines(g)
    requires EndsWith(a, g)
    ensures Alike(a + g, a)
  {
    SplitConcat([], a, g);
    if g != [] {
      var x := a[..|a| - 1];
      assert a == x + [NEWLINE] by { assert a[|a| - 1] == g[|g| - 1]; }
      SplitConcat([], x, [NEWLINE]);
      NothingRead([], g);
    } else {
      assert a + g == a;
    }
  }

  predicate EndsWith(s: seq<byte>, g: seq<byte>) { |g| <= |s| && s[|s| - |g|..] == g }

  lemma {:induction false} EndsAfter(a: seq<byte>, s: seq<byte>, g: seq<byte>)
    requires EndsWith(s, g)
    ensures EndsWith(a + s, g)
  {
    assert (a + s)[|a| + |s| - |g|..] == s[|s| - |g|..];
  }

  lemma {:induction false} StreamEndsWithExtra(from: nat, ps: seq<Sight>)
    requires Growing(from, ps) && ps != []
    ensures EndsWith(Stream(from, ps), Extra(from, ps, |ps| - 1))
  {
    var n := |ps| - 1;
    assert GrowsAt(from, ps, n);
    if ReadsAt(from, ps, n) {
      var chunk, g := Chunk(SizeBefore(from, ps, n), ps[n].file), Chunk(ps[n].size, ps[n].file);
      assert chunk[|chunk| - |g|..] == g;
      EndsAfter(Stream(from, ps[..n]), chunk, g);
    }
  }

  /** What a poll reads again is what the stream before it ends with. */
  lemma {:induction false} FrontEndsWithExtra(from: nat, ps: seq<Sight>)
    requires Growing(from, ps) && |ps| > 1
    ensures EndsWith(Stream(from, ps[..|ps| - 1]), Extra(from, ps, |ps| - 2))
  {
    var n := |ps| - 1;
    GrowingFront(from, ps);
    StreamEndsWithExtra(from, ps[..n]);
    FrontPolls(from, ps, n, n - 1);
  }

  /** A stream that ends with newlines, reads them again, and goes on. */
  lemma {:induction false} AlikeStep(stream: seq<byte>, seen: seq<byte>, again: seq<byte>, more: seq<byte>)
    requires Alike(stream, seen) && Newlines(again)
    requires EndsWith(stream, again)
    ensures Alike(stream + again + more, seen + more)
  {
    NewlinesAgain(stream, again);
    AlikeConcat(stream + again, seen, more);
  }

  lemma {:induction false} LastAlike(from: nat, ps: seq<Sight>)
    requires Growing(from, ps) && OnlyNewlinesTwice(from, ps) && ps != []
    requires Alike(Stream(from, ps[..|ps| - 1]), Seen(from, ps[..|ps| - 1]))
    ensures Alike(Stream(from, ps), Seen(from, ps))
  {
    var n := |ps| - 1;
    var again := if n == 0 then [] else Extra(from, ps, n - 1);
    LastPoll(from, ps);
    if n > 0 { FrontEndsWithExtra(from, ps); }
    AlikeStep(Stream(from, ps[..n]), Seen(from, ps[..n]), again, New(from, ps));
  }

  lemma {:induction false} StreamIsAlike(from: nat, ps: seq<Sight>)
    requires Growing(from, ps) && OnlyNewlinesTwice(from, ps)
    ensures Alike(Stream(from, ps), Seen(from, ps))
    decreases |ps|
  {
    if ps != [] {
      GrowingFront(from, ps);
      if |ps| > 1 { OnlyNewlinesSnoc(from, ps); }
      StreamIsAlike(from, ps[..|ps| - 1]);
      LastAlike(from, ps);
    }
  }

  /**
   After any session on a growing file that has not left: the lines written and the buffer are those of the bytes
   read, each once, if and only if every byte that arrived inside an earlier poll is a newline.
   */
  lemma {:induction false} SessionExactIff(from: nat, raw: bool, isResult: seq<byte> -> bool, ps: seq<Sight>)
    requires Growing(from, ps) && !Polls(from, raw, isResult, ps).exited
    ensures var f := Polls(from, raw, isResult, ps);
            f.out == LinesOf([], Seen(from, ps)) && f.buf == RestOf([], Seen(from, ps)) <==> OnlyNewlinesTwice(from, ps)
  {
    PollsReadTheStream(from, raw, isResult, ps);
    StreamInk(from, ps);
    TwiceIsZeroIff(from, ps);
    InkIsKept([], Stream(from, ps));
    InkIsKept([], Seen(from, ps));
    if OnlyNewlinesTwice(from, ps) { StreamIsAlike(from, ps); }
  }

  /** Two lines arrive, the second between the size check and the read: it is written twice. */
  lemma {:induction false} GrowthInsidePollDuplicates(isResult: seq<byte> -> bool)
    ensures var file := [0x61, NEWLINE, 0x62, NEWLINE];
            var f := Poll(State(0, [], [], false), true, isResult, 2, file);
            Poll(f, true, isResult, 4, file).out == [[0x61], [0x62], [0x62]]
  {
    var file: seq<byte> := [0x61, NEWLINE, 0x62, NEWLINE];
    var ab, b: seq<byte> := [0x61, NEWLINE], [0x62, NEWLINE];
    assert file == ab + b && file[0..] == file && file[2..] == b;
    TwoBytes(0x61);
    TwoBytes(0x62);
    SplitConcat([], ab, b);
    assert [] + file == file && [] + b == b;
  }

  lemma {:induction false} TwoBytes(x: byte)
    requires x != NEWLINE
    ensures LinesOf([], [x, NEWLINE]) == [[x]] && RestOf([], [x, NEWLINE]) == []
  {
    assert [x, NEWLINE] == [x] + [NEWLINE];
    SplitConcat([], [x], [NEWLINE]);
    assert [] + [x] == [x];
  }

  // ---- The seed ---------------------------------------------------------------------------------------

  /** What the seed renders: every non-empty segment, terminated or not. */
  function Segments(s: seq<byte>): seq<seq<byte>> {
    LinesOf([], s) + (if RestOf([], s) == [] then [] else [RestOf([], s)])
  }

  /**
   Seed and tail together show the file's lines exactly when the seed stops at a line boundary
   or just before a newline; cut anywhere else, one line is shown in two pieces.
   */
  lemma {:induction false} SeamIsSoundIff(left: seq<byte>, right: seq<byte>)
    ensures Segments(left) + LinesOf([], right) == LinesOf([], left + right) <==>
            RestOf([], left) == [] || (right != [] && right[0] == NEWLINE)
  {
    var r := RestOf([], left);
    SplitConcat([], left, right);
    if r != [] {
      TailSeam(r, right);
      assert Segments(left) + LinesOf([], right) == LinesOf([], left) + ([r] + LinesOf([], right));
      SamePrefix(LinesOf([], left), [r] + LinesOf([], right), LinesOf(r, right));
    } else {
      assert Segments(left) == LinesOf([], left);
    }
  }

  lemma {:induction false} SamePrefix(a: seq<seq<byte>>, b: seq<seq<byte>>, c: seq<seq<byte>>)
    ensures a + b == a + c <==> b == c
  {
    assert (a + b)[|a|..] == b && (a + c)[|a|..] == c;
  }

  lemma {:induction false} TailSeam(r: seq<byte>, right: seq<byte>)
    requires r != []
    ensures [r] + LinesOf([], right) == LinesOf(r, right) <==> right != [] && right[0] == NEWLINE
  {
    SplitsOneMore([], r, right);
    assert r + [] == r;
    if right != [] && right[0] == NEWLINE {
      assert LinesOf([], right) == [] + LinesOf([], right[1..]);
    } else {
      assert |[r] + LinesOf([], right)| == 1 + |LinesOf([], right)|;
    }
  }

  /** Starting inside a line or at its beginning completes the same number of lines, if the line is not blank. */
  lemma {:induction false} SplitsOneMore(cur: seq<byte>, r: seq<byte>, s: seq<byte>)
    requires r != []
    ensures cur != [] ==> |LinesOf(cur, s)| == |LinesOf(r + cur, s)|
    ensures cur == [] && !(s != [] && s[0] == NEWLINE) ==> |LinesOf(cur, s)| == |LinesOf(r + cur, s)|
    decreases |s|
  {
    if s != [] && s[0] != NEWLINE {
      SplitsOneMore(cur + [s[0]], r, s[1..]);
      assert r + (cur + [s[0]]) == r + cur + [s[0]];
    }
  }
}
