/** Dates of the proleptic Gregorian calendar as day numbers. */
module Calendar {
  predicate Leap(y: int) { y % 4 == 0 && (y % 100 != 0 || y % 400 == 0) }

  function DaysIn(y: int, m: int): int {
    if m == 2 then (if Leap(y) then 29 else 28)
    else if m == 4 || m == 6 || m == 9 || m == 11 then 30
    else 31
  }

  predicate ValidDate(y: int, m: int, d: int) { 1 <= m <= 12 && 1 <= d <= DaysIn(y, m) }

  /** Days of the year before the first of month `m`. */
  function DaysBefore(y: int, m: int): (n: int)
    requires 1 <= m <= 13
    ensures 28 * (m - 1) <= n
    decreases m
  {
    if m == 1 then 0 else DaysBefore(y, m - 1) + DaysIn(y, m - 1)
  }

  function DaysOfYear(y: int): int { if Leap(y) then 366 else 365 }

  /** The day number of 1 January; year 1 starts at day 0. */
  function YearStart(y: int): int
    decreases if y > 1 then y - 1 else 1 - y
  {
    if y == 1 then 0
    else if y > 1 then YearStart(y - 1) + DaysOfYear(y - 1)
    else YearStart(y + 1) - DaysOfYear(y)
  }

  /** A year lasts 365 days, or 366 if it is a leap year. */
  lemma {:induction false} YearLength(y: int)
    ensures YearStart(y + 1) == YearStart(y) + DaysOfYear(y)
  {
  }

  /**
   In closed form: 365 days a year, one more for every fourth, less every hundredth, and again for every four
   hundredth.
   */
  lemma {:induction false} YearStartFormula(y: int)
    ensures YearStart(y) == 365 * (y - 1) + (y - 1) / 4 - (y - 1) / 100 + (y - 1) / 400
    decreases if y > 1 then y - 1 else 1 - y
  {
    if y > 1 {
      YearStartFormula(y - 1);
      LeapStep(y - 1);
    } else if y < 1 {
      YearStartFormula(y + 1);
      LeapStep(y);
    }
  }

  lemma {:induction false} LeapStep(y: int)
    ensures y / 4 - y / 100 + y / 400 == (y - 1) / 4 - (y - 1) / 100 + (y - 1) / 400 + (if Leap(y) then 1 else 0)
  {
    StepBy4(y);
    StepBy100(y);
    StepBy400(y);
    assert y % 400 == 0 ==> y % 100 == 0;
    assert y % 100 == 0 ==> y % 4 == 0;
  }

  lemma {:induction false} StepBy4(y: int)
    ensures y / 4 == (y - 1) / 4 + (if y % 4 == 0 then 1 else 0)
  {
  }

  lemma {:induction false} StepBy100(y: int)
    ensures y / 100 == (y - 1) / 100 + (if y % 100 == 0 then 1 else 0)
  {
  }

  lemma {:induction false} StepBy400(y: int)
    ensures y / 400 == (y - 1) / 400 + (if y % 400 == 0 then 1 else 0)
  {
  }

  lemma {:induction false} MonthsRise(y: int, m: int, n: int)
    requires 1 <= m <= n <= 13
    ensures DaysBefore(y, m) <= DaysBefore(y, n)
    decreases n
  {
    if m < n { MonthsRise(y, m, n - 1); }
  }

  function DayNumber(y: int, m: int, d: int): int
    requires ValidDate(y, m, d)
  {
    YearStart(y) + DaysBefore(y, m) + d - 1
  }

  /** A date lies inside its year. */
  lemma {:induction false} DateInYear(y: int, m: int, d: int)
    requires ValidDate(y, m, d)
    ensures YearStart(y) <= DayNumber(y, m, d) < YearStart(y + 1)
  {
    MonthsRise(y, m + 1, 13);
    YearLength(y);
  }

  lemma {:induction false} YearsRise(y: int, z: int)
    requires y <= z
    ensures YearStart(y) <= YearStart(z)
    decreases z - y
  {
    if y < z { YearsRise(y, z - 1); YearLength(z - 1); }
  }

  /** The same date falls 365 or 366 days later in the next year. */
  lemma {:induction false} NextYearSameDate(y: int, m: int, d: int)
    requires ValidDate(y, m, d) && ValidDate(y + 1, m, d)
    ensures 365 <= DayNumber(y + 1, m, d) - DayNumber(y, m, d) <= 366
  {
    YearLength(y);
    if m >= 3 {
      MonthsShift(y, y + 1, m);
    } else {
      assert m == 1 || DaysBefore(y, m) == 31 == DaysBefore(y + 1, m);
    }
  }

  /** From March on, two years differ by the length of February. */
  lemma {:induction false} MonthsShift(y: int, z: int, m: int)
    requires 3 <= m <= 13
    ensures DaysBefore(z, m) - DaysBefore(y, m) == DaysIn(z, 2) - DaysIn(y, 2)
    decreases m
  {
    if m > 3 {
      MonthsShift(y, z, m - 1);
    } else {
      assert DaysBefore(y, 2) == 31 && DaysBefore(z, 2) == 31;
    }
  }

  /** The date exists next year too, unless it is 29 February. */
  lemma {:induction false} DateNextYear(y: int, m: int, d: int)
    requires ValidDate(y, m, d)
    ensures ValidDate(y + 1, m, d) <==> !(m == 2 && d == 29)
  {
  }
}

/** The reset time in a rate-limit banner, taken as the next such date from now. */
module ResetTime {
  import opened Options
  import opened Text
  import opened Calendar

  /** Instants are counted in milliseconds. */
  function Days(n: int): int { 86_400_000 * n }

  function Minutes(n: int): int { 60_000 * n }

  /** A month, a day and a time of day. */
  datatype Banner = Banner(month: nat, day: nat, hour: nat, minute: nat)

  /** `Splits`: the 40-byte cut would fall inside a code point, which aborts the caller. */
  datatype Parsed<T> = Absent | Found(value: T) | Splits

  function MonthOf(s: string): (m: Option<nat>)
    ensures m.Some? ==> 1 <= m.value <= 12
  {
    var l := Lower(s);
    if l == "jan" then Some(1) else if l == "feb" then Some(2) else if l == "mar" then Some(3)
    else if l == "apr" then Some(4) else if l == "may" then Some(5) else if l == "jun" then Some(6)
    else if l == "jul" then Some(7) else if l == "aug" then Some(8) else if l == "sep" || l == "sept" then Some(9)
    else if l == "oct" then Some(10) else if l == "nov" then Some(11) else if l == "dec" then Some(12)
    else None
  }

  function EndsWith(s: string, p: string): bool { |s| >= |p| && s[|s| - |p|..] == p }

  /** Hours 1 to 12 with an am or pm suffix and optional minutes. */
  function Parse12h(s: string): (t: Option<(nat, nat)>)
    ensures t.Some? ==> t.value.0 < 24 && t.value.1 < 60
  {
    var l := Lower(s);
    if !EndsWith(l, "pm") && !EndsWith(l, "am") then None
    else
      var body := l[..|l| - 2];
      var colon := IndexOf(body, ':');
      var h := ParseU32(body[..colon]);
      var m := if colon < |body| then ParseU32(body[colon + 1..]) else Some(0);
      if h.None? || m.None? || !(1 <= h.value <= 12) || m.value >= 60 then None
      else Some((Hour24(h.value, EndsWith(l, "pm")), m.value))
  }

  function Hour24(h: nat, pm: bool): nat {
    if h == 12 then (if pm then 12 else 0) else if pm then h + 12 else h
  }

  /** The prefix of exactly `n` bytes, if a code point ends there. */
  function CutAt(s: string, n: nat): Option<string>
    decreases |s|
  {
    if n == 0 then Some([])
    else if s == [] || Width(s[0]) > n then None
    else match CutAt(s[1..], n - Width(s[0]))
         case None => None
         case Some(p) => Some([s[0]] + p)
  }

  function StopAt(s: string): nat { if s == [] || s[0] in {'\n', '\U{00B7}', '|'} then 0 else 1 + StopAt(s[1..]) }

  lemma {:induction false} StopInside(s: string)
    ensures StopAt(s) <= |s|
    decreases |s|
  {
    if s != [] { StopInside(s[1..]); }
  }

  /** Up to a separator or else `n` bytes; `None` when the cut falls inside a code point. */
  function Slice(rest: string, n: nat): Option<string> {
    StopInside(rest);
    if StopAt(rest) < |rest| then Some(rest[..StopAt(rest)])
    else if ByteLen(rest) <= n then Some(rest)
    else CutAt(rest, n)
  }

  /** The text after "resets ", up to a separator or else 40 bytes. */
  function Candidate(blob: string): Parsed<string> {
    match Find(blob, "resets ")
    case None => Absent
    case Some(i) =>
      match Slice(blob[i + 7..], 40)
      case None => Splits
      case Some(c) => Found(c)
  }

  function BannerOf(blob: string): Parsed<Banner> {
    match Candidate(blob)
    case Absent => Absent
    case Splits => Splits
    case Found(c) =>
      var parts := Words(TrimEndOf(Trim(c), {'.', ','}));
      if |parts| < 3 then Absent
      else
        var month, day, time := MonthOf(parts[0]), ParseU32(TrimEndOf(parts[1], {','})), Parse12h(parts[2]);
        if month.None? || day.None? || time.None? then Absent
        else Found(Banner(month.value, day.value, time.value.0, time.value.1))
  }

  /** The instant of a banner in a year. */
  function Stamp(y: int, b: Banner): int
    requires ValidDate(y, b.month, b.day)
  {
    Days(DayNumber(y, b.month, b.day)) + Minutes(b.hour * 60 + b.minute)
  }

  predicate InYear(now: int, y: int) { Days(YearStart(y)) <= now < Days(YearStart(y + 1)) }

  /** This year's instant, or next year's if it has passed and that date exists. */
  function Placed(b: Banner, now: int, y: int): int
    requires ValidDate(y, b.month, b.day)
  {
    if Stamp(y, b) < now && ValidDate(y + 1, b.month, b.day) then Stamp(y + 1, b) else Stamp(y, b)
  }

  /** `parse_reset_timestamp` at the instant `now` of year `y`. */
  function ParseReset(blob: string, now: int, y: int): Parsed<int> {
    match BannerOf(blob)
    case Absent => Absent
    case Splits => Splits
    case Found(b) =>
      if ValidDate(y, b.month, b.day) then Found(Placed(b, now, y)) else Absent
  }

  predicate TimeFits(b: Banner) { b.hour < 24 && b.minute < 60 }

  lemma {:induction false} BannerFits(blob: string)
    ensures BannerOf(blob).Found? ==> TimeFits(BannerOf(blob).value)
  {
  }

  lemma {:induction false} StampInYear(y: int, b: Banner)
    requires ValidDate(y, b.month, b.day) && TimeFits(b)
    ensures InYear(Stamp(y, b), y)
  {
    DateInYear(y, b.month, b.day);
    assert Minutes(b.hour * 60 + b.minute) < Days(1);
  }

  /** Across years, a banner's instants are apart by the years between. */
  lemma {:induction false} StampOrder(y: int, z: int, b: Banner)
    requires ValidDate(y, b.month, b.day) && ValidDate(z, b.month, b.day) && TimeFits(b) && y < z
    ensures Stamp(y, b) < Days(YearStart(z)) <= Stamp(z, b)
  {
    StampInYear(y, b);
    StampInYear(z, b);
    YearsRise(y + 1, z);
  }

  /** An instant has one year. */
  lemma {:induction false} OneYear(now: int, y: int, z: int)
    requires InYear(now, y) && InYear(now, z)
    ensures y == z
  {
    if y < z { YearsRise(y + 1, z); }
    if z < y { YearsRise(z + 1, y); }
  }

  /** Every instant has a year. */
  lemma {:induction false} SomeYear(now: int) returns (y: int)
    ensures InYear(now, y)
  {
    y := 1;
    while !InYear(now, y)
      invariant now >= 0 ==> Days(YearStart(y)) <= now
      invariant now < 0 ==> now < Days(YearStart(y + 1))
      decreases if now >= 0 then now - Days(YearStart(y)) else Days(YearStart(y + 1)) - now
    {
      YearLength(y);
      YearLength(y - 1);
      YearLength(y + 1);
      y := if now >= 0 then y + 1 else y - 1;
    }
  }

  /** The year is no free choice: every instant gives one reset time, whatever year it is said to be in. */
  lemma {:induction false} ResetDependsOnNowAlone(blob: string, now: int)
    ensures exists y :: InYear(now, y)
                        && forall z :: InYear(now, z) ==> ParseReset(blob, now, z) == ParseReset(blob, now, y)
  {
    var y := SomeYear(now);
    forall z | InYear(now, z) ensures ParseReset(blob, now, z) == ParseReset(blob, now, y) { OneYear(now, y, z); }
  }

  /** A date of 29 February that has passed this year. */
  predicate LeapDayPassed(b: Banner, now: int, y: int)
    requires ValidDate(y, b.month, b.day)
  {
    b.month == 2 && b.day == 29 && Stamp(y, b) < now
  }

  /**
   The reset time is at or after now, and less than 366 days ahead, exactly when the banner is
   not a 29 February already past; that one comes back as the past instant.
   */
  lemma {:induction false} ResetWithinAYear(blob: string, now: int, y: int)
    requires InYear(now, y) && ParseReset(blob, now, y).Found?
    ensures var t, b := ParseReset(blob, now, y).value, BannerOf(blob).value;
            && BannerOf(blob).Found? && ValidDate(y, b.month, b.day)
            && (t >= now <==> !LeapDayPassed(b, now, y))
            && (t >= now ==> t - now < Days(366))
            && (LeapDayPassed(b, now, y) ==> t == Stamp(y, b))
  {
    var b := BannerOf(blob).value;
    BannerFits(blob);
    StampInYear(y, b);
    YearLength(y);
    DateNextYear(y, b.month, b.day);
    if ValidDate(y + 1, b.month, b.day) {
      StampInYear(y + 1, b);
      NextYearSameDate(y, b.month, b.day);
    }
  }

  /** It is the next instant with that date and time: no year has one between now and it. */
  lemma {:induction false} ResetIsNextOccurrence(blob: string, now: int, y: int, z: int)
    requires InYear(now, y) && ParseReset(blob, now, y).Found? && BannerOf(blob).Found?
    requires ValidDate(z, BannerOf(blob).value.month, BannerOf(blob).value.day)
    requires now <= Stamp(z, BannerOf(blob).value)
    ensures ParseReset(blob, now, y).value <= Stamp(z, BannerOf(blob).value)
  {
    BannerFits(blob);
    PlacedIsNext(BannerOf(blob).value, now, y, z);
  }

  lemma {:induction false} PlacedIsNext(b: Banner, now: int, y: int, z: int)
    requires InYear(now, y) && TimeFits(b) && ValidDate(y, b.month, b.day) && ValidDate(z, b.month, b.day)
    requires now <= Stamp(z, b)
    ensures Placed(b, now, y) <= Stamp(z, b)
  {
    if z < y {
      StampInYear(z, b);
      YearsRise(z + 1, y);
    } else if z > y {
      StampOrder(y, z, b);
      if z > y + 1 && ValidDate(y + 1, b.month, b.day) { StampOrder(y + 1, z, b); }
    }
  }

  /** The twelve-hour clock and the hours of the day match one to one, pm being the upper half. */
  lemma {:induction false} TwelveHourClockIsOneToOne(h: nat, pm: bool, h': nat, pm': bool, x: nat)
    requires 1 <= h <= 12 && 1 <= h' <= 12
    ensures Hour24(h, pm) < 24 && (Hour24(h, pm) == Hour24(h', pm') ==> h == h' && pm == pm')
    ensures pm <==> Hour24(h, pm) >= 12
    ensures x < 24 ==> exists k: nat, q: bool :: 1 <= k <= 12 && Hour24(k, q) == x
  {
    if x < 24 { assert Hour24(Hour12(x), x >= 12) == x; }
  }

  // ---- Banners read back --------------------------------------------------------------------------

  function Hour12(h: nat): nat { if h % 12 == 0 then 12 else h % 12 }

  function DigitChar(d: nat): char
    requires d < 10
  {
    (d + '0' as int) as char
  }

  /** A number of one or two digits. */
  function Dec(n: nat): string
    requires n < 100
  {
    if n < 10 then [DigitChar(n)] else [DigitChar(n / 10), DigitChar(n % 10)]
  }

  /** A time of day as the banner prints it: `3pm`, `3:45pm`. */
  function Print12h(h: nat, m: nat): string
    requires h < 24 && m < 60
  {
    ClockBody(h, m) + Suffix(h)
  }

  function ClockBody(h: nat, m: nat): string
    requires h < 24 && m < 60
  {
    Dec(Hour12(h)) + (if m == 0 then "" else ":" + Dec(m))
  }

  function MonthName(m: nat): (s: string)
    requires 1 <= m <= 12
    ensures |s| == 3
  {
    match m
    case 1 => "Jan" case 2 => "Feb" case 3 => "Mar" case 4 => "Apr" case 5 => "May" case 6 => "Jun"
    case 7 => "Jul" case 8 => "Aug" case 9 => "Sep" case 10 => "Oct" case 11 => "Nov" case _ => "Dec"
  }

  predicate Printable(b: Banner) { 1 <= b.month <= 12 && b.day < 100 && TimeFits(b) }

  /** The reset text of a banner, as in `Apr 23, 3pm`. */
  function PrintTime(b: Banner): string
    requires Printable(b)
  {
    MonthName(b.month) + [' '] + (Dec(b.day) + [',']) + [' '] + Print12h(b.hour, b.minute)
  }

  lemma {:induction false} DecReads(n: nat)
    requires n < 100
    ensures ParseU32(Dec(n)) == Some(n) && forall i :: 0 <= i < |Dec(n)| ==> IsDigit(Dec(n)[i])
  {
    var d := Dec(n);
    if n < 10 {
      assert d[..0] == [];
      assert Decimal([]) == 0;
      assert Decimal(d) == n;
    } else {
      assert d[..1] == [d[0]] && [d[0]][..0] == [];
      assert Decimal([d[0]]) == n / 10;
      assert Decimal(d) == n / 10 * 10 + n % 10;
    }
  }

  lemma {:induction false} IndexIs(s: string, c: char, i: nat)
    requires i <= |s| && (forall j :: 0 <= j < i ==> s[j] != c) && (i < |s| ==> s[i] == c)
    ensures IndexOf(s, c) == i
  {
    var k := IndexOf(s, c);
    forall j | 0 <= j < k ensures s[j] != c { assert s[j] in s[..k]; }
  }

  function Suffix(h: nat): string { if h >= 12 then "pm" else "am" }

  lemma {:induction false} ClockEnds(h: nat, m: nat)
    requires h < 24 && m < 60
    ensures var s := Print12h(h, m);
            && s == ClockBody(h, m) + Suffix(h) && Lower(s) == s && s[..|s| - 2] == ClockBody(h, m)
            && (EndsWith(s, "pm") <==> h >= 12) && (EndsWith(s, "am") <==> h < 12)
  {
    var s := Print12h(h, m);
    DecReads(Hour12(h));
    DecReads(m);
    assert forall i :: 0 <= i < |s| ==> IsDigit(s[i]) || s[i] == ':' || s[i] == 'a' || s[i] == 'p' || s[i] == 'm';
    assert forall i :: 0 <= i < |s| ==> LowerChar(s[i]) == s[i];
    assert s[|s| - 2..] == Suffix(h);
    assert "pm"[0] == 'p' && "am"[0] == 'a' && Suffix(h)[0] == (if h >= 12 then 'p' else 'a');
  }

  lemma {:induction false} BodySplits(h: nat, m: nat)
    requires h < 24 && m < 60
    ensures var body, k := ClockBody(h, m), |Dec(Hour12(h))|;
            && IndexOf(body, ':') == k <= |body| && body[..k] == Dec(Hour12(h))
            && (k < |body| <==> m > 0) && (m > 0 ==> body[k + 1..] == Dec(m))
  {
    var body, k := ClockBody(h, m), |Dec(Hour12(h))|;
    DecReads(Hour12(h));
    assert forall j :: 0 <= j < k ==> IsDigit(body[j]);
    IndexIs(body, ':', k);
  }

  lemma {:induction false} ClockReads(s: string, k: nat, h: nat, m: nat)
    requires Lower(s) == s && |s| >= 2 && (EndsWith(s, "pm") || EndsWith(s, "am")) && 1 <= h <= 12 && m < 60
    requires IndexOf(s[..|s| - 2], ':') == k <= |s| - 2 && ParseU32(s[..|s| - 2][..k]) == Some(h)
    requires if k < |s| - 2 then ParseU32(s[..|s| - 2][k + 1..]) == Some(m) else m == 0
    ensures Parse12h(s) == Some((Hour24(h, EndsWith(s, "pm")), m))
  {
  }

  /** Every time of day, printed, reads back. */
  lemma {:induction false} ClockReadsBack(h: nat, m: nat)
    requires h < 24 && m < 60
    ensures Parse12h(Print12h(h, m)) == Some((h, m))
  {
    ClockEnds(h, m);
    BodySplits(h, m);
    DecReads(Hour12(h));
    DecReads(m);
    ClockReads(Print12h(h, m), |Dec(Hour12(h))|, Hour12(h), m);
    assert Hour24(Hour12(h), h >= 12) == h;
  }

  lemma {:induction false} MonthReads(m: nat)
    requires 1 <= m <= 12
    ensures MonthOf(MonthName(m)) == Some(m) && forall i :: 0 <= i < 3 ==> 'A' <= MonthName(m)[i] <= 'z'
  {
    var s := MonthName(m);
    assert Lower(s) == [LowerChar(s[0]), LowerChar(s[1]), LowerChar(s[2])];
  }

  predicate Solid(w: string) { w != [] && forall i :: 0 <= i < |w| ==> !IsSpace(w[i]) }

  lemma {:induction false} WordEnds(w: string, rest: string)
    requires (forall i :: 0 <= i < |w| ==> !IsSpace(w[i])) && (rest == [] || IsSpace(rest[0]))
    ensures WordEnd(w + rest) == |w|
    decreases |w|
  {
    if w == [] {
      assert w + rest == rest;
    } else {
      assert (w + rest)[1..] == w[1..] + rest;
      WordEnds(w[1..], rest);
    }
  }

  lemma {:induction false} WordsCons(w: string, rest: string)
    requires Solid(w)
    ensures Words(w + [' '] + rest) == [w] + Words(rest)
  {
    var t := w + [' '] + rest;
    assert t == w + ([' '] + rest);
    WordEnds(w, [' '] + rest);
    assert TrimStart(t) == t && t[..|w|] == w && t[|w|..] == [' '] + rest;
    assert ([' '] + rest)[1..] == rest;
    assert TrimStart([' '] + rest) == TrimStart(rest);
    assert Words([' '] + rest) == Words(rest) by { WordsTrimmed(rest); WordsTrimmed([' '] + rest); }
  }

  /** Leading blanks do not matter. */
  lemma {:induction false} WordsTrimmed(s: string)
    ensures Words(s) == Words(TrimStart(s))
  {
    TrimStartTwice(s);
  }

  lemma {:induction false} TrimStartTwice(s: string)
    ensures TrimStart(TrimStart(s)) == TrimStart(s)
    decreases |s|
  {
    if s != [] && IsSpace(s[0]) { TrimStartTwice(s[1..]); }
  }

  lemma {:induction false} LastWord(w: string)
    requires Solid(w)
    ensures Words(w) == [w]
  {
    WordEnds(w, []);
    assert w + [] == w && w[|w|..] == [];
    assert TrimStart(w) == w && Words([]) == [];
  }

  lemma {:induction false} PlainText(s: string)
    requires forall i :: 0 <= i < |s| ==> Width(s[i]) == 1 && s[i] !in {'\n', '\U{00B7}', '|'}
    ensures StopAt(s) == |s| && ByteLen(s) == |s|
    decreases |s|
  {
    if s != [] {
      PlainText(s[1..]);
      PlainText(s[..|s| - 1]);
    }
  }

  lemma {:induction false} ClockIsPlain(h: nat, m: nat)
    requires h < 24 && m < 60
    ensures var s := Print12h(h, m);
            3 <= |s| <= 7 && s[|s| - 1] == 'm' && forall i :: 0 <= i < |s| ==> '0' <= s[i] <= 'p'
  {
    DecReads(Hour12(h));
    DecReads(m);
  }

  lemma {:induction false} TimeIsPlain(b: Banner)
    requires Printable(b)
    ensures var s := PrintTime(b);
            && |s| <= 20 && |s| > 3 && s[|s| - 1] == 'm' && !IsSpace(s[0])
            && forall i :: 0 <= i < |s| ==> Width(s[i]) == 1 && s[i] !in {'\n', '\U{00B7}', '|'}
  {
    MonthReads(b.month);
    DecReads(b.day);
    ClockIsPlain(b.hour, b.minute);
    var m, d, t := MonthName(b.month), Dec(b.day), Print12h(b.hour, b.minute);
    assert forall i :: 0 <= i < |PrintTime(b)| ==>
           PrintTime(b)[i] in m || PrintTime(b)[i] in d || PrintTime(b)[i] in t || PrintTime(b)[i] in {' ', ','};
  }

  lemma {:induction false} TimeSplits(b: Banner)
    requires Printable(b)
    ensures Words(PrintTime(b)) == [MonthName(b.month), Dec(b.day) + [','], Print12h(b.hour, b.minute)]
  {
    var m, d, t := MonthName(b.month), Dec(b.day) + [','], Print12h(b.hour, b.minute);
    MonthReads(b.month);
    DecReads(b.day);
    ClockIsPlain(b.hour, b.minute);
    assert PrintTime(b) == m + [' '] + (d + [' '] + t);
    WordsCons(m, d + [' '] + t);
    WordsCons(d, t);
    LastWord(t);
  }

  /** Every banner, printed, reads back. */
  lemma {:induction false} BannerReadsBack(b: Banner)
    requires Printable(b)
    ensures BannerOf("resets " + PrintTime(b)) == Found(b)
  {
    var s := PrintTime(b);
    var text := "resets " + s;
    assert At(text, "resets ", 0);
    assert Find(text, "resets ") == Some(0) && text[7..] == s;
    TimeIsPlain(b);
    PlainText(s);
    assert Candidate(text) == Found(s);
    assert Trim(s) == s && TrimEndOf(s, {'.', ','}) == s;
    TimeSplits(b);
    MonthReads(b.month);
    DecReads(b.day);
    DayReads(b.day);
    ClockReadsBack(b.hour, b.minute);
  }

  lemma {:induction false} DayReads(d: nat)
    requires d < 100
    ensures TrimEndOf(Dec(d) + [','], {','}) == Dec(d)
  {
    var s := Dec(d) + [','];
    DecReads(d);
    assert s[..|s| - 1] == Dec(d);
  }

  const LEAP_DAY := Banner(2, 29, 1, 0)

  lemma {:induction false} LeapDayText()
    ensures PrintTime(LEAP_DAY) == "Feb 29, 1am"
  {
    assert Dec(29) == ['2', '9'] && Dec(1) == ['1'];
    assert Print12h(1, 0) == "1am";
  }

  /** A minute after that instant, the instant is what comes back. */
  lemma {:induction false} LeapDayPlaced(y: int)
    requires Leap(y)
    ensures var now := Stamp(y, LEAP_DAY) + Minutes(1);
            InYear(now, y) && Placed(LEAP_DAY, now, y) == now - Minutes(1)
  {
    StampInYear(y, LEAP_DAY.(minute := 1));
    assert Stamp(y, LEAP_DAY.(minute := 1)) == Stamp(y, LEAP_DAY) + Minutes(1);
    DateNextYear(y, 2, 29);
  }

  /** A banner for 1am on 29 February, read a minute later in any leap year, comes back in the past. */
  lemma {:induction false} LeapDayBannerIsPast(y: int)
    requires Leap(y)
    ensures var now := Stamp(y, LEAP_DAY) + Minutes(1);
            InYear(now, y) && ParseReset("resets " + "Feb 29, 1am", now, y) == Found(now - Minutes(1))
  {
    LeapDayText();
    BannerReadsBack(LEAP_DAY);
    LeapDayPlaced(y);
  }
}
