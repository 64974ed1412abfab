/** Shared option type. */
module Options {
  datatype Option<+T> = None | Some(value: T)
}

/** UTF-8 validity as the byte automaton of section 4 of RFC 3629. */
module Utf8 {
  type byte = b: int | 0 <= b < 256

  /** Where a decoder stands between two bytes. `Start` is a code point boundary. */
  datatype Decoder = Start | Tail1 | Tail2 | Tail3 | AfterE0 | AfterED | AfterF0 | AfterF4 | Bad

  function Feed(q: Decoder, b: byte): Decoder {
    match q
    case Start =>
      if b < 0x80 then Start
      else if 0xC2 <= b <= 0xDF then Tail1
      else if b == 0xE0 then AfterE0
      else if b == 0xED then AfterED
      else if 0xE1 <= b <= 0xEF then Tail2
      else if b == 0xF0 then AfterF0
      else if b == 0xF4 then AfterF4
      else if 0xF1 <= b <= 0xF3 then Tail3
      else Bad
    case Tail1 => if 0x80 <= b <= 0xBF then Start else Bad
    case Tail2 => if 0x80 <= b <= 0xBF then Tail1 else Bad
    case Tail3 => if 0x80 <= b <= 0xBF then Tail2 else Bad
    case AfterE0 => if 0xA0 <= b <= 0xBF then Tail1 else Bad
    case AfterED => if 0x80 <= b <= 0x9F then Tail1 else Bad
    case AfterF0 => if 0x90 <= b <= 0xBF then Tail2 else Bad
    case AfterF4 => if 0x80 <= b <= 0x8F then Tail2 else Bad
    case Bad => Bad
  }

  function FeedAll(q: Decoder, s: seq<byte>): Decoder
    decreases |s|
  {
    if s == [] then q else FeedAll(Feed(q, s[0]), s[1..])
  }

  predicate Valid(s: seq<byte>) { FeedAll(Start, s) == Start }

  lemma {:induction false} FeedAllConcat(q: Decoder, a: seq<byte>, b: seq<byte>)
    ensures FeedAll(q, a + b) == FeedAll(FeedAll(q, a), b)
    decreases |a|
  {
    if a == [] {
      assert a + b == b;
    } else {
      assert (a + b)[1..] == a[1..] + b;
      FeedAllConcat(Feed(q, a[0]), a[1..], b);
    }
  }

  lemma {:induction false} BadStays(s: seq<byte>)
    ensures FeedAll(Bad, s) == Bad
    decreases |s|
  {
    if s != [] { BadStays(s[1..]); }
  }

  /** An ASCII byte in the middle of a code point spoils everything after it. */
  lemma {:induction false} AsciiResync(q: Decoder, s: seq<byte>)
    requires s != [] && s[0] < 0x80 && q != Start
    ensures FeedAll(q, s) == Bad
  {
    BadStays(s[1..]);
  }
}

/**
 The append-only journal: one JSON line per record, written by `journal_append`
 and read back by `replay_journal`. An append may write only a prefix of its line.
 */
module Framing {
  import opened Options
  import opened Utf8

  const NEWLINE: byte := 0x0A
  const BRACE: byte := 0x7B

  /**
   `encode` is the JSON text of a record without its newline; `parse` is what the
   reader does with one non-empty trimmed line.
   */
  datatype Codec<!R> = Codec(encode: R -> seq<byte>, parse: seq<byte> -> Option<R>)

  predicate Starts(s: seq<byte>, whole: seq<byte>) { s <= whole }

  /** A non-empty prefix of the text of some record. */
  ghost predicate Fragment<R(!new)>(c: Codec<R>, s: seq<byte>) {
    s != [] && exists r :: Starts(s, c.encode(r))
  }

  /**
   What the reader relies on of the JSON object encoding: it is read back, it is
   valid UTF-8 on one line, it opens with a brace, no proper prefix of it is an
   object, and two or more fragments run together are not an object.
   */
  ghost predicate Lawful<R(!new)>(c: Codec<R>) {
    && (forall r {:trigger c.encode(r)} ::
          && c.parse(c.encode(r)) == Some(r)
          && c.encode(r) != [] && c.encode(r)[0] == BRACE
          && NEWLINE !in c.encode(r)
          && Valid(c.encode(r)))
    && (forall r, s {:trigger Starts(s, c.encode(r))} ::
          Starts(s, c.encode(r)) && s != [] && s != c.encode(r) ==> c.parse(s) == None)
    && (forall fs: seq<seq<byte>> {:trigger Flatten(fs)} ::
          |fs| >= 2 && (forall f :: f in fs ==> Fragment(c, f)) ==> c.parse(Flatten(fs)) == None)
  }

  function Flatten(fs: seq<seq<byte>>): seq<byte> {
    if fs == [] then [] else Flatten(fs[..|fs| - 1]) + fs[|fs| - 1]
  }

  // ---- One append ---------------------------------------------------------

  /** How much of a record's line an append left in the file. */
  datatype Wrote = Nothing | Part(midChar: bool) | NoNewline | Full

  /** The record of an append and what reached the file. */
  datatype Entry<R> = Entry(rec: R, wrote: Wrote)

  /** An append that wrote the first `bytes` bytes of its line (all of it when larger). */
  datatype Write<R> = Write(rec: R, bytes: nat)

  function Line<R>(c: Codec<R>, r: R): seq<byte> { c.encode(r) + [NEWLINE] }

  function Piece<R>(c: Codec<R>, w: Write<R>): seq<byte> {
    if w.bytes <= |Line(c, w.rec)| then Line(c, w.rec)[..w.bytes] else Line(c, w.rec)
  }

  function Outcome<R>(c: Codec<R>, w: Write<R>): Entry<R> {
    var n := |c.encode(w.rec)|;
    Entry(w.rec,
          if w.bytes == 0 then Nothing
          else if w.bytes < n then Part(!Valid(Piece(c, w)))
          else if w.bytes == n then NoNewline
          else Full)
  }

  function File<R>(c: Codec<R>, ws: seq<Write<R>>): seq<byte> {
    if ws == [] then [] else Piece(c, ws[0]) + File(c, ws[1..])
  }

  function Outcomes<R>(c: Codec<R>, ws: seq<Write<R>>): (es: seq<Entry<R>>)
    ensures |es| == |ws| && forall i :: 0 <= i < |ws| ==> es[i].rec == ws[i].rec
  {
    if ws == [] then [] else [Outcome(c, ws[0])] + Outcomes(c, ws[1..])
  }

  // ---- The reader -----------------------------------------------------------

  /** The lines of `cur + s`, where `cur` is the line being read. */
  function Lines(cur: seq<byte>, s: seq<byte>): seq<seq<byte>>
    decreases |s|
  {
    if s == [] then [cur]
    else if s[0] == NEWLINE then [cur] + Lines([], s[1..])
    else Lines(cur + [s[0]], s[1..])
  }

  function ParseLine<R>(c: Codec<R>, line: seq<byte>): seq<R> {
    if line == [] then []
    else match c.parse(line) case Some(r) => [r] case None => []
  }

  function ParseLines<R>(c: Codec<R>, lines: seq<seq<byte>>): seq<R> {
    if lines == [] then [] else ParseLine(c, lines[0]) + ParseLines(c, lines[1..])
  }

  /** The records the reader sees; a file that is not UTF-8 yields none. */
  function ReadRecords<R>(c: Codec<R>, file: seq<byte>): seq<R> {
    if Valid(file) then ParseLines(c, Lines([], file)) else []
  }

  // ---- What survives, without bytes -----------------------------------------

  /** The unterminated last line: empty, exactly one whole record, or not readable. */
  datatype Tail<R> = Blank | Whole(rec: R) | Spoilt

  function NextTail<R>(t: Tail<R>, e: Entry<R>): Tail<R> {
    match e.wrote
    case Nothing => t
    case Part(_) => Spoilt
    case NoNewline => if t.Blank? then Whole(e.rec) else Spoilt
    case Full => Blank
  }

  function TailAfter<R>(t: Tail<R>, es: seq<Entry<R>>): Tail<R>
    decreases |es|
  {
    if es == [] then t else TailAfter(NextTail(t, es[0]), es[1..])
  }

  /** The record an append makes readable as soon as its newline is written. */
  function Settled<R>(t: Tail<R>, e: Entry<R>): seq<R> {
    if e.wrote.Full? && t.Blank? then [e.rec] else []
  }

  function Terminated<R>(t: Tail<R>, es: seq<Entry<R>>): seq<R>
    decreases |es|
  {
    if es == [] then [] else Settled(t, es[0]) + Terminated(NextTail(t, es[0]), es[1..])
  }

  function TailRecord<R>(t: Tail<R>): seq<R> { if t.Whole? then [t.rec] else [] }

  function Survivors<R>(t: Tail<R>, es: seq<Entry<R>>): seq<R> {
    Terminated(t, es) + TailRecord(TailAfter(t, es))
  }

  predicate Poisoned<R>(es: seq<Entry<R>>) {
    exists i :: 0 <= i < |es| && es[i].wrote == Part(true)
  }

  /** The records a reader recovers from the appends `es`. */
  function Recovered<R>(es: seq<Entry<R>>): seq<R> {
    if Poisoned(es) then [] else Survivors(Blank, es)
  }

  // ---- The bytes refine the entries -----------------------------------------

  lemma {:induction false} LinesTake(cur: seq<byte>, p: seq<byte>, s: seq<byte>)
    requires NEWLINE !in p
    ensures Lines(cur, p + s) == Lines(cur + p, s)
    decreases |p|
  {
    if p == [] {
      assert p + s == s && cur + p == cur;
    } else {
      assert (p + s)[0] == p[0] && (p + s)[1..] == p[1..] + s;
      assert (cur + [p[0]]) + p[1..] == cur + p;
      LinesTake(cur + [p[0]], p[1..], s);
    }
  }

  /** Bytes `cur` of an unterminated line that reads as `t`. */
  ghost predicate Shows<R(!new)>(c: Codec<R>, cur: seq<byte>, t: Tail<R>) {
    exists fs: seq<seq<byte>> :: Splits(c, cur, t, fs)
  }

  ghost predicate Splits<R(!new)>(c: Codec<R>, cur: seq<byte>, t: Tail<R>, fs: seq<seq<byte>>) {
    cur == Flatten(fs) && AllFragments(c, fs) && TailOf(c, t, fs)
  }

  ghost predicate AllFragments<R(!new)>(c: Codec<R>, fs: seq<seq<byte>>) { forall f :: f in fs ==> Fragment(c, f) }

  /** `f` is not the whole text of a record. */
  ghost predicate NoText<R(!new)>(c: Codec<R>, f: seq<byte>) { forall r :: c.encode(r) != f }

  ghost predicate TailOf<R(!new)>(c: Codec<R>, t: Tail<R>, fs: seq<seq<byte>>) {
    match t
    case Blank => fs == []
    case Whole(r) => fs == [c.encode(r)]
    case Spoilt => |fs| >= 2 || (|fs| == 1 && NoText(c, fs[0]))
  }

  lemma {:induction false} FlattenOne(f: seq<byte>)
    ensures Flatten([f]) == f
  {
    assert [f][..0] == [];
    assert Flatten([]) == [];
    assert Flatten([f]) == Flatten([f][..0]) + f;
  }

  lemma {:induction false} FlattenSnoc(fs: seq<seq<byte>>, f: seq<byte>)
    ensures Flatten(fs + [f]) == Flatten(fs) + f
  {
    assert (fs + [f])[..|fs|] == fs;
  }

  lemma {:induction false} ShowsBlank<R(!new)>(c: Codec<R>)
    ensures Shows<R>(c, [], Blank)
  {
    assert Flatten([]) == [];
    assert Splits<R>(c, [], Blank, []);
  }

  /** The line `cur` parses to the record of its tail, and to nothing otherwise. */
  lemma {:induction false} ShowsParses<R(!new)>(c: Codec<R>, cur: seq<byte>, t: Tail<R>)
    requires Lawful(c) && Shows(c, cur, t)
    ensures ParseLine(c, cur) == TailRecord(t)
  {
    var fs: seq<seq<byte>> :| Splits(c, cur, t, fs);
    if |fs| == 1 {
      FlattenOne(fs[0]);
      assert fs == [fs[0]];
      assert Fragment(c, fs[0]);
      var r :| Starts(fs[0], c.encode(r));
    }
  }

  lemma {:induction false} FragmentsSnoc<R(!new)>(c: Codec<R>, fs: seq<seq<byte>>, f: seq<byte>)
    requires AllFragments(c, fs) && Fragment(c, f)
    ensures AllFragments(c, fs + [f])
  {
    forall g | g in fs + [f] ensures Fragment(c, g) { assert g in fs || g == f; }
  }

  /** What one more fragment makes of a tail. */
  ghost predicate Glues<R(!new)>(c: Codec<R>, t: Tail<R>, f: seq<byte>, t': Tail<R>) {
    if t.Blank? then
      match t'
      case Blank => false
      case Whole(r) => f == c.encode(r)
      case Spoilt => NoText(c, f)
    else t' == Spoilt
  }

  lemma {:induction false} TailSnoc<R(!new)>(c: Codec<R>, t: Tail<R>, fs: seq<seq<byte>>, f: seq<byte>, t': Tail<R>)
    requires TailOf(c, t, fs) && Glues(c, t, f, t')
    ensures TailOf(c, t', fs + [f])
  {
    if t.Blank? { assert fs + [f] == [f]; } else { assert |fs + [f]| >= 2; }
  }

  /** Adding one more fragment to an unterminated line. */
  lemma {:induction false} ShowsGlue<R(!new)>(c: Codec<R>, cur: seq<byte>, t: Tail<R>, f: seq<byte>, t': Tail<R>)
    requires Shows(c, cur, t) && Fragment(c, f) && Glues(c, t, f, t')
    ensures Shows(c, cur + f, t')
  {
    var fs: seq<seq<byte>> :| Splits(c, cur, t, fs);
    FlattenSnoc(fs, f);
    FragmentsSnoc(c, fs, f);
    TailSnoc(c, t, fs, f, t');
    assert Splits(c, cur + f, t', fs + [f]);
  }

  /** Encodings do not extend each other, so a proper prefix is nobody's whole text. */
  lemma {:induction false} ProperPrefixIsNoEncoding<R(!new)>(c: Codec<R>, r: R, p: seq<byte>)
    requires Lawful(c) && Starts(p, c.encode(r)) && p != [] && p != c.encode(r)
    ensures forall r' :: c.encode(r') != p
  {
    assert c.parse(p) == None;
    forall r' ensures c.encode(r') != p {
      assert c.parse(c.encode(r')) == Some(r');
    }
  }

  lemma {:induction false} ShowsPiece<R(!new)>(c: Codec<R>, cur: seq<byte>, t: Tail<R>, w: Write<R>)
    requires Lawful(c) && Shows(c, cur, t) && !Outcome(c, w).wrote.Full?
    ensures NEWLINE !in Piece(c, w)
    ensures Shows(c, cur + Piece(c, w), NextTail(t, Outcome(c, w)))
  {
    var p, e := Piece(c, w), c.encode(w.rec);
    assert p == e[..w.bytes];
    if w.bytes == 0 {
      assert p == [] && cur + p == cur;
    } else {
      assert Starts(p, e) && Fragment(c, p);
      if w.bytes < |e| {
        ProperPrefixIsNoEncoding(c, w.rec, p);
      } else {
        assert p == e;
      }
      ShowsGlue(c, cur, t, p, NextTail(t, Outcome(c, w)));
    }
  }

  lemma {:induction false} SurvivorsCons<R>(t: Tail<R>, es: seq<Entry<R>>)
    requires es != []
    ensures Survivors(t, es) == Settled(t, es[0]) + Survivors(NextTail(t, es[0]), es[1..])
  {
  }

  lemma {:induction false} ReadsSurvivors<R(!new)>(c: Codec<R>, cur: seq<byte>, t: Tail<R>, ws: seq<Write<R>>)
    requires Lawful(c) && Shows(c, cur, t)
    ensures ParseLines(c, Lines(cur, File(c, ws))) == Survivors(t, Outcomes(c, ws))
    decreases |ws|, 1
  {
    if ws == [] {
      ShowsParses(c, cur, t);
      assert ParseLines(c, [cur]) == ParseLine(c, cur) + ParseLines(c, []);
    } else {
      assert Outcomes(c, ws)[1..] == Outcomes(c, ws[1..]);
      SurvivorsCons(t, Outcomes(c, ws));
      if Outcome(c, ws[0]).wrote.Full? { FirstLineRead(c, cur, t, ws); } else { FirstPieceRead(c, cur, t, ws); }
    }
  }

  lemma {:induction false} FirstLineRead<R(!new)>(c: Codec<R>, cur: seq<byte>, t: Tail<R>, ws: seq<Write<R>>)
    requires Lawful(c) && Shows(c, cur, t) && ws != [] && Outcome(c, ws[0]).wrote.Full?
    ensures ParseLines(c, Lines(cur, File(c, ws))) == Settled(t, Outcome(c, ws[0]))
            + Survivors(Blank, Outcomes(c, ws[1..]))
    decreases |ws|, 0
  {
    ReadsFullLine(c, cur, t, ws[0], File(c, ws[1..]));
    ShowsBlank<R>(c);
    ReadsSurvivors(c, [], Blank, ws[1..]);
  }

  lemma {:induction false} FirstPieceRead<R(!new)>(c: Codec<R>, cur: seq<byte>, t: Tail<R>, ws: seq<Write<R>>)
    requires Lawful(c) && Shows(c, cur, t) && ws != [] && !Outcome(c, ws[0]).wrote.Full?
    ensures ParseLines(c, Lines(cur, File(c, ws))) == Survivors(NextTail(t, Outcome(c, ws[0])), Outcomes(c, ws[1..]))
    decreases |ws|, 0
  {
    var p := Piece(c, ws[0]);
    ShowsPiece(c, cur, t, ws[0]);
    LinesTake(cur, p, File(c, ws[1..]));
    ReadsSurvivors(c, cur + p, NextTail(t, Outcome(c, ws[0])), ws[1..]);
  }

  /** A line that got its newline: its record is read exactly when nothing preceded it. */
  lemma {:induction false} ReadsFullLine<R(!new)>(c: Codec<R>, cur: seq<byte>, t: Tail<R>, w: Write<R>, rest: seq<byte>)
    requires Lawful(c) && Shows(c, cur, t) && Outcome(c, w).wrote.Full?
    ensures ParseLines(c, Lines(cur, Piece(c, w) + rest))
            == Settled(t, Outcome(c, w)) + ParseLines(c, Lines([], rest))
  {
    var e := c.encode(w.rec);
    assert Piece(c, w) + rest == e + ([NEWLINE] + rest);
    LinesTake(cur, e, [NEWLINE] + rest);
    assert ([NEWLINE] + rest)[1..] == rest;
    var lines := Lines(cur, Piece(c, w) + rest);
    assert lines == [cur + e] + Lines([], rest);
    assert lines[1..] == Lines([], rest);
    var t' := if t.Blank? then Whole(w.rec) else Spoilt;
    assert Starts(e, e) && Fragment(c, e);
    ShowsGlue(c, cur, t, e, t');
    ShowsParses(c, cur + e, t');
  }

  /** A piece of a line starts with a brace, and ends on a code point boundary unless cut inside one. */
  lemma {:induction false} PieceUtf8<R(!new)>(c: Codec<R>, w: Write<R>)
    requires Lawful(c)
    ensures Piece(c, w) != [] ==> Piece(c, w)[0] == BRACE
    ensures Piece(c, w) == [] <==> Outcome(c, w).wrote == Nothing
    ensures Valid(Piece(c, w)) <==> Outcome(c, w).wrote != Part(true)
  {
    var e := c.encode(w.rec);
    assert e[0] == BRACE;
    if w.bytes == |e| {
      assert Piece(c, w) == e;
    } else if w.bytes > |e| {
      FeedAllConcat(Start, e, [NEWLINE]);
      assert [NEWLINE][1..] == [];
      assert FeedAll(Start, [NEWLINE]) == FeedAll(Feed(Start, NEWLINE), []);
      assert Piece(c, w) == e + [NEWLINE];
    }
  }

  /** The file is UTF-8 exactly when no append was cut inside a code point. */
  lemma {:induction false} FileUtf8<R(!new)>(c: Codec<R>, ws: seq<Write<R>>)
    requires Lawful(c)
    ensures Valid(File(c, ws)) <==> !Poisoned(Outcomes(c, ws))
    decreases |ws|
  {
    if ws != [] {
      var p, rest := Piece(c, ws[0]), File(c, ws[1..]);
      var es := Outcomes(c, ws);
      FeedAllConcat(Start, p, rest);
      PieceUtf8(c, ws[0]);
      if Valid(p) {
        FileUtf8(c, ws[1..]);
        assert es[1..] == Outcomes(c, ws[1..]);
        if Poisoned(es) {
          var i :| 0 <= i < |es| && es[i].wrote == Part(true);
          assert es[1..][i - 1].wrote == Part(true);
        }
        if Poisoned(es[1..]) {
          var i :| 0 <= i < |es[1..]| && es[1..][i].wrote == Part(true);
          assert es[i + 1].wrote == Part(true);
        }
      } else {
        assert es[0].wrote == Part(true);
        FileStart(c, ws[1..]);
        if rest != [] { AsciiResync(FeedAll(Start, p), rest); }
      }
    }
  }

  lemma {:induction false} FileStart<R(!new)>(c: Codec<R>, ws: seq<Write<R>>)
    requires Lawful(c)
    ensures File(c, ws) != [] ==> File(c, ws)[0] == BRACE
    decreases |ws|
  {
    if ws != [] {
      PieceUtf8(c, ws[0]);
      FileStart(c, ws[1..]);
    }
  }

  /** What replay reads from the bytes is what the appends say survives. */
  lemma {:induction false} ReadRecoversEntries<R(!new)>(c: Codec<R>, ws: seq<Write<R>>)
    requires Lawful(c)
    ensures ReadRecords(c, File(c, ws)) == Recovered(Outcomes(c, ws))
  {
    FileUtf8(c, ws);
    ShowsBlank<R>(c);
    ReadsSurvivors(c, [], Blank, ws);
  }

  // ---- One more append ------------------------------------------------------

  lemma {:induction false} TerminatedSnoc<R>(t: Tail<R>, es: seq<Entry<R>>, e: Entry<R>)
    ensures TailAfter(t, es + [e]) == NextTail(TailAfter(t, es), e)
    ensures Terminated(t, es + [e]) == Terminated(t, es) + Settled(TailAfter(t, es), e)
    decreases |es|
  {
    if es == [] {
      assert es + [e] == [e] && [e][1..] == [];
    } else {
      assert (es + [e])[1..] == es[1..] + [e];
      TerminatedSnoc(NextTail(t, es[0]), es[1..], e);
    }
  }

  lemma {:induction false} PoisonedSnoc<R>(es: seq<Entry<R>>, e: Entry<R>)
    ensures Poisoned(es + [e]) <==> Poisoned(es) || e.wrote == Part(true)
  {
    if Poisoned(es) {
      var i :| 0 <= i < |es| && es[i].wrote == Part(true);
      assert (es + [e])[i].wrote == Part(true);
    }
    assert (es + [e])[|es|] == e;
  }

  /** What is read after one more append: a prefix of what was read before, and maybe the new record. */
  lemma {:induction false} RecoveredShape<R>(es: seq<Entry<R>>, e: Entry<R>) returns (p: seq<R>)
    ensures p <= Recovered(es)
    ensures Recovered(es + [e]) == p || Recovered(es + [e]) == p + [e.rec]
  {
    TerminatedSnoc(Blank, es, e);
    PoisonedSnoc(es, e);
    p := if Poisoned(es + [e]) then []
         else if TailAfter(Blank, es).Whole? && e.wrote != Nothing then Terminated(Blank, es)
         else Recovered(es);
  }

  /** Nothing unterminated and nothing unreadable in the file. */
  predicate Clean<R>(es: seq<Entry<R>>) { !Poisoned(es) && TailAfter(Blank, es).Blank? }

  /** A whole line appended to a clean file is read back last, and the file stays clean. */
  lemma {:induction false} CleanGrowth<R>(es: seq<Entry<R>>, e: Entry<R>)
    requires Clean(es) && e.wrote.Full?
    ensures Clean(es + [e]) && Recovered(es + [e]) == Recovered(es) + [e.rec]
  {
    TerminatedSnoc(Blank, es, e);
    PoisonedSnoc(es, e);
  }

  /** Whole lines appended to a clean file are all read back, in order. */
  lemma {:induction false} WholeAppends<R>(es: seq<Entry<R>>, more: seq<Entry<R>>)
    requires Clean(es) && forall i :: 0 <= i < |more| ==> more[i].wrote.Full?
    ensures Recovered(es + more) == Recovered(es) + Records(more)
    decreases |more|
  {
    if more == [] {
      assert es + more == es && Records(more) == [];
    } else {
      var e, rest := more[0], more[1..];
      CleanGrowth(es, e);
      WholeAppends(es + [e], rest);
      assert es + [e] + rest == es + more;
      var r, s := Recovered(es), Records(rest);
      assert Records(more) == [e.rec] + s;
      assert r + [e.rec] + s == r + ([e.rec] + s);
    }
  }

  /** A file left without its newline costs the next record too, however well it is written. */
  lemma {:induction false} TornTailLosesNextRecord<R>(es: seq<Entry<R>>, e: Entry<R>)
    requires !Poisoned(es) && !TailAfter(Blank, es).Blank? && e.wrote.Full?
    ensures multiset(Recovered(es + [e])) <= multiset(Recovered(es))
    ensures Clean(es + [e])
  {
    TerminatedSnoc(Blank, es, e);
    PoisonedSnoc(es, e);
  }

  /** One append cut inside a code point makes the whole journal unreadable, for good. */
  lemma {:induction false} PoisonIsForever<R>(es: seq<Entry<R>>, more: seq<Entry<R>>)
    requires Poisoned(es)
    ensures Recovered(es + more) == []
    decreases |more|
  {
    if more == [] {
      assert es + more == es;
    } else {
      PoisonedSnoc(es, more[0]);
      PoisonIsForever(es + [more[0]], more[1..]);
      assert es + [more[0]] + more[1..] == es + more;
    }
  }

  // ---- The price of a tear ----------------------------------------------------

  predicate Subsequence<T(==)>(a: seq<T>, b: seq<T>)
    decreases |b|
  {
    a == [] || (b != [] && ((a[0] == b[0] && Subsequence(a[1..], b[1..])) || Subsequence(a, b[1..])))
  }

  function Records<R>(es: seq<Entry<R>>): seq<R> {
    if es == [] then [] else [es[0].rec] + Records(es[1..])
  }

  /** Records whose text reached the file whole, with or without its newline. */
  function Landed<R>(es: seq<Entry<R>>): seq<R> {
    if es == [] then []
    else (if es[0].wrote.Full? || es[0].wrote.NoNewline? then [es[0].rec] else []) + Landed(es[1..])
  }

  /** Records whose own append and the one just before it were complete. */
  function Kept<R>(prevFull: bool, es: seq<Entry<R>>): seq<R>
    decreases |es|
  {
    if es == [] then []
    else (if prevFull && es[0].wrote.Full? then [es[0].rec] else []) + Kept(es[0].wrote.Full?, es[1..])
  }

  function Torn<R>(es: seq<Entry<R>>): nat {
    if es == [] then 0 else (if es[0].wrote.Full? then 0 else 1) + Torn(es[1..])
  }

  /** Replay keeps journal order, keeps every record in `Kept`, and has none but those that landed. */
  lemma {:induction false} SurvivorsBetween<R>(t: Tail<R>, prevFull: bool, es: seq<Entry<R>>)
    requires prevFull ==> t.Blank?
    ensures Subsequence(Kept(prevFull, es), Survivors(t, es))
    ensures Subsequence(Survivors(t, es), TailRecord(t) + Landed(es))
    ensures |es| + |TailRecord(t)| <= |Survivors(t, es)| + 2 * Torn(es) + (if t.Blank? then 0 else 1 + |TailRecord(t)|)
    decreases |es|
  {
    if es == [] {
      assert Survivors(t, es) == TailRecord(t);
      assert TailRecord(t) + Landed(es) == TailRecord(t);
      EqualIsSubsequence(TailRecord(t));
    } else {
      var t', e := NextTail(t, es[0]), es[0];
      SurvivorsCons(t, es);
      SurvivorsBetween(t', e.wrote.Full?, es[1..]);
      var rest := Survivors(t', es[1..]);
      var all := TailRecord(t) + Landed(es);
      if Settled(t, e) != [] {
        assert ([e.rec] + rest)[1..] == rest;
        assert Survivors(t, es) == [e.rec] + rest;
        assert all == [e.rec] + Landed(es[1..]);
        assert all[1..] == TailRecord(t') + Landed(es[1..]);
        if Kept(prevFull, es) != Kept(true, es[1..]) {
          assert Kept(prevFull, es)[1..] == Kept(true, es[1..]);
        }
      } else {
        assert Survivors(t, es) == rest;
        assert Kept(prevFull, es) == Kept(e.wrote.Full?, es[1..]);
        SubsequenceOfLonger(rest, t, t', es);
      }
    }
  }

  lemma {:induction false} EqualIsSubsequence<R>(a: seq<R>)
    requires |a| <= 1
    ensures Subsequence(a, a)
  {
  }

  lemma {:induction false} SubsequenceCons<R>(a: seq<R>, x: R, b: seq<R>)
    requires Subsequence(a, b)
    ensures Subsequence(a, [x] + b)
  {
    assert ([x] + b)[1..] == b;
  }

  lemma {:induction false} SubsequenceOfLonger<R>(rest: seq<R>, t: Tail<R>, t': Tail<R>, es: seq<Entry<R>>)
    requires es != [] && t' == NextTail(t, es[0]) && Settled(t, es[0]) == []
    requires Subsequence(rest, TailRecord(t') + Landed(es[1..]))
    ensures Subsequence(rest, TailRecord(t) + Landed(es))
  {
    var e, later := es[0], Landed(es[1..]);
    if e.wrote.Nothing? {
      assert Landed(es) == later;
    } else if t'.Whole? {
      assert TailRecord(t') + later == TailRecord(t) + Landed(es);
    } else {
      assert TailRecord(t') + later == later;
      if e.wrote.Part? {
        assert Landed(es) == later;
      } else {
        SubsequenceCons(rest, e.rec, later);
      }
      if t.Whole? { SubsequenceCons(rest, t.rec, Landed(es)); }
      assert TailRecord(t) + Landed(es) == if t.Whole? then [t.rec] + Landed(es) else Landed(es);
    }
  }

  /**
   From an empty file: what is read lies, in order, between the records that were written whole after a
   whole append and those whose text reached the file; one tear costs at most its own record and the next.
   */
  lemma {:induction false} TearCostsAtMostTwo<R>(es: seq<Entry<R>>)
    requires !Poisoned(es)
    ensures Subsequence(Kept(true, es), Recovered(es))
    ensures Subsequence(Recovered(es), Landed(es))
    ensures |es| <= |Recovered(es)| + 2 * Torn(es)
  {
    SurvivorsBetween(Blank, true, es);
    assert TailRecord<R>(Blank) + Landed(es) == Landed(es);
  }

  // ---- The hypotheses can be met ------------------------------------------------

  lemma {:induction false} AsciiValid(s: seq<byte>)
    requires forall i :: 0 <= i < |s| ==> s[i] < 0x80
    ensures Valid(s)
    decreases |s|
  {
    if s != [] { AsciiValid(s[1..]); }
  }

  ghost predicate Spelling<R(!new)>(text: R -> seq<byte>) {
    && (forall r, s :: text(r) == text(s) ==> r == s)
    && (forall r, i :: 0 <= i < |text(r)| ==> 0x61 <= text(r)[i] <= 0x7A)
  }

  function Braced(s: seq<byte>): seq<byte> { [BRACE] + s + [0x7D] }

  /** Any spelling of records in small letters, put in braces, has all the properties asked of the JSON one. */
  lemma {:induction false} LawfulCodecExists<R(!new)>(text: R -> seq<byte>) returns (c: Codec<R>)
    requires Spelling(text)
    ensures Lawful(c)
  {
    c := Codec(r => Braced(text(r)),
               s => if exists r :: Braced(text(r)) == s then (var r :| Braced(text(r)) == s; Some(r)) else None);
    forall r
      ensures c.parse(c.encode(r)) == Some(r) && c.encode(r)[0] == BRACE && NEWLINE !in c.encode(r)
              && Valid(c.encode(r))
    {
      BracedOnce(text, r, c.parse(c.encode(r)).value);
      AsciiValid(Braced(text(r)));
    }
    forall r, s | Starts(s, c.encode(r)) && s != [] && s != c.encode(r) ensures c.parse(s) == None {
      assert s[|s| - 1] != 0x7D;
    }
    forall fs: seq<seq<byte>> | |fs| >= 2 && (forall f :: f in fs ==> Fragment(c, f))
      ensures c.parse(Flatten(fs)) == None
    {
      var last, front := fs[|fs| - 1], fs[..|fs| - 1];
      assert Fragment(c, last) && Fragment(c, front[|front| - 1]);
      var r :| Starts(last, c.encode(r));
      assert Flatten(fs)[|Flatten(front)|] == last[0] == BRACE;
      assert |Flatten(front)| > 0;
    }
  }

  lemma {:induction false} BracedOnce<R(!new)>(text: R -> seq<byte>, r: R, s: R)
    requires Spelling(text) && Braced(text(r)) == Braced(text(s))
    ensures r == s
  {
    assert text(r) == Braced(text(r))[1..|text(r)| + 1];
    assert text(s) == Braced(text(s))[1..|text(s)| + 1];
  }
}
