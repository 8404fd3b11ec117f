/**
  `datetime.strptime(text, '%Y:%m:%d %H:%M:%S')` as CPython's `_strptime`
  performs it: the format is turned into a regular expression in which each
  directive accepts a fixed set of spellings and the single space accepts any
  run of whitespace; the match must reach the end of the text; the fields are
  then handed to `datetime`, which rejects year 0, days past the end of the
  month and seconds 60 and 61.

  Each directive's alternatives try two characters before one, and every
  directive is followed by ':', by whitespace or by the end of the match, none
  of which can begin another alternative. So the first alternative that
  matches is the only one that can lead to a successful match, and the
  backtracking matcher is modelled by a deterministic left-to-right reader.
*/
module Strptime {

  import opened Wrappers
  import opened Chars
  import opened DateTimes

  /** A directive's value and the index just after its text. */
  datatype Field = Field(value: int, next: nat)

  function Two(a: char, b: char): (v: int)
    requires IsDigit(a) && IsDigit(b)
    ensures 0 <= v <= 99
  {
    10 * DigitValue(a) + DigitValue(b)
  }

  /** `%Y`: exactly four digits. */
  function Year(s: string, i: nat): (r: Option<Field>)
    requires i <= |s|
    ensures r.Some? ==> r.value.next == i + 4 <= |s| && 0 <= r.value.value <= 9999
  {
    if i + 4 <= |s| && IsDigit(s[i]) && IsDigit(s[i + 1]) && IsDigit(s[i + 2]) && IsDigit(s[i + 3])
    then Some(Field(100 * Two(s[i], s[i + 1]) + Two(s[i + 2], s[i + 3]), i + 4))
    else None
  }

  /** The literal ':' of the format. */
  function Colon(s: string, i: nat): (r: Option<nat>)
    requires i <= |s|
    ensures r.Some? <==> i < |s| && s[i] == ':'
    ensures r.Some? ==> r.value == i + 1
  {
    if i < |s| && s[i] == ':' then Some(i + 1) else None
  }

  /** `%m`: `1[0-2]|0[1-9]|[1-9]`. */
  function Month(s: string, i: nat): (r: Option<Field>)
    requires i <= |s|
    ensures r.Some? ==> i < r.value.next <= i + 2 && r.value.next <= |s| && 1 <= r.value.value <= 12
  {
    if i + 1 < |s| && ((s[i] == '1' && '0' <= s[i + 1] <= '2') || (s[i] == '0' && '1' <= s[i + 1] <= '9'))
    then Some(Field(Two(s[i], s[i + 1]), i + 2))
    else if i < |s| && '1' <= s[i] <= '9' then Some(Field(DigitValue(s[i]), i + 1))
    else None
  }

  /** `%d`: `3[01]|[12]\d|0[1-9]|[1-9]| [1-9]`. */
  function Day(s: string, i: nat): (r: Option<Field>)
    requires i <= |s|
    ensures r.Some? ==> i < r.value.next <= i + 2 && r.value.next <= |s| && 1 <= r.value.value <= 31
  {
    if i + 1 < |s| && ((s[i] == '3' && '0' <= s[i + 1] <= '1') || ('1' <= s[i] <= '2' && IsDigit(s[i + 1]))
                       || (s[i] == '0' && '1' <= s[i + 1] <= '9'))
    then Some(Field(Two(s[i], s[i + 1]), i + 2))
    else if i < |s| && '1' <= s[i] <= '9' then Some(Field(DigitValue(s[i]), i + 1))
    else if i + 1 < |s| && s[i] == ' ' && '1' <= s[i + 1] <= '9' then Some(Field(DigitValue(s[i + 1]), i + 2))
    else None
  }

  /** `%H`: `2[0-3]|[0-1]\d|\d`. */
  function Hour(s: string, i: nat): (r: Option<Field>)
    requires i <= |s|
    ensures r.Some? ==> i < r.value.next <= i + 2 && r.value.next <= |s| && 0 <= r.value.value <= 23
  {
    if i + 1 < |s| && ((s[i] == '2' && '0' <= s[i + 1] <= '3') || ('0' <= s[i] <= '1' && IsDigit(s[i + 1])))
    then Some(Field(Two(s[i], s[i + 1]), i + 2))
    else if i < |s| && IsDigit(s[i]) then Some(Field(DigitValue(s[i]), i + 1))
    else None
  }

  /** `%M`: `[0-5]\d|\d`. */
  function Minute(s: string, i: nat): (r: Option<Field>)
    requires i <= |s|
    ensures r.Some? ==> i < r.value.next <= i + 2 && r.value.next <= |s| && 0 <= r.value.value <= 59
  {
    if i + 1 < |s| && '0' <= s[i] <= '5' && IsDigit(s[i + 1])
    then Some(Field(Two(s[i], s[i + 1]), i + 2))
    else if i < |s| && IsDigit(s[i]) then Some(Field(DigitValue(s[i]), i + 1))
    else None
  }

  /** `%S`: `6[0-1]|[0-5]\d|\d` (the leap-second spellings are left to `datetime` to refuse). */
  function Second(s: string, i: nat): (r: Option<Field>)
    requires i <= |s|
    ensures r.Some? ==> i < r.value.next <= i + 2 && r.value.next <= |s| && 0 <= r.value.value <= 61
  {
    if i + 1 < |s| && ((s[i] == '6' && '0' <= s[i + 1] <= '1') || ('0' <= s[i] <= '5' && IsDigit(s[i + 1])))
    then Some(Field(Two(s[i], s[i + 1]), i + 2))
    else if i < |s| && IsDigit(s[i]) then Some(Field(DigitValue(s[i]), i + 1))
    else None
  }

  /** The index after the longest run of whitespace starting at `i`. */
  function SkipSpaces(s: string, i: nat): (j: nat)
    requires i <= |s|
    ensures i <= j <= |s|
    decreases |s| - i
  {
    if i < |s| && IsSpace(s[i]) then SkipSpaces(s, i + 1) else i
  }

  /** The run skipped is all whitespace, and it stops at the end or at a non-space. */
  lemma {:induction false} SkipSpacesStops(s: string, i: nat)
    requires i <= |s|
    ensures AllSpace(s[i..SkipSpaces(s, i)])
    ensures SkipSpaces(s, i) == |s| || !IsSpace(s[SkipSpaces(s, i)])
    decreases |s| - i
  {
    if i < |s| && IsSpace(s[i]) {
      SkipSpacesStops(s, i + 1);
      var j := SkipSpaces(s, i);
      forall k | 0 <= k < j - i ensures IsSpace(s[i..j][k]) {
        if k > 0 {
          assert s[i..j][k] == s[i + 1..j][k - 1];
        }
      }
    }
  }

  /** A run of `n` whitespace characters followed by a non-space is skipped exactly. */
  lemma {:induction false} SkipSpacesOver(s: string, i: nat, n: nat)
    requires i + n < |s| && (forall k :: i <= k < i + n ==> IsSpace(s[k])) && !IsSpace(s[i + n])
    ensures SkipSpaces(s, i) == i + n
    decreases n
  {
    if n > 0 {
      SkipSpacesOver(s, i + 1, n - 1);
    }
  }

  /** The format's single space, which the pattern turns into `\s+`. */
  function Gap(s: string, i: nat): (r: Option<nat>)
    requires i <= |s|
    ensures r.Some? ==> i < r.value <= |s|
  {
    if i < |s| && IsSpace(s[i]) then Some(SkipSpaces(s, i + 1)) else None
  }

  /** What the space directive consumes is a non-empty whitespace run, and all of it. */
  lemma GapSpaces(s: string, i: nat)
    requires i <= |s| && Gap(s, i).Some?
    ensures AllSpace(s[i..Gap(s, i).value])
    ensures Gap(s, i).value == |s| || !IsSpace(s[Gap(s, i).value])
  {
    var j := Gap(s, i).value;
    SkipSpacesStops(s, i + 1);
    forall k | 0 <= k < j - i ensures IsSpace(s[i..j][k]) {
      if k > 0 {
        assert s[i..j][k] == s[i + 1..j][k - 1];
      }
    }
  }

  /** The values read by `%Y:%m:%d` or by `%H:%M:%S`, and the index after them. */
  datatype Triple = Triple(first: int, second: int, third: int, next: nat)

  /** `%Y:%m:%d` at the start of `s`. */
  function DatePart(s: string): (r: Option<Triple>)
    ensures r.Some? ==> 8 <= r.value.next <= 10 && r.value.next <= |s|
    ensures r.Some? ==> 0 <= r.value.first <= 9999 && 1 <= r.value.second <= 12 && 1 <= r.value.third <= 31
  {
    var y :- Year(s, 0);
    var c1 :- Colon(s, y.next);
    var mo :- Month(s, c1);
    var c2 :- Colon(s, mo.next);
    var d :- Day(s, c2);
    Some(Triple(y.value, mo.value, d.value, d.next))
  }

  /** `%H:%M:%S` at index `i` of `s`. */
  function TimePart(s: string, i: nat): (r: Option<Triple>)
    requires i <= |s|
    ensures r.Some? ==> i + 5 <= r.value.next <= i + 8 && r.value.next <= |s|
    ensures r.Some? ==> 0 <= r.value.first <= 23 && 0 <= r.value.second <= 59 && 0 <= r.value.third <= 61
  {
    var h :- Hour(s, i);
    var c3 :- Colon(s, h.next);
    var mi :- Minute(s, c3);
    var c4 :- Colon(s, mi.next);
    var se :- Second(s, c4);
    Some(Triple(h.value, mi.value, se.value, se.next))
  }

  /** `datetime.strptime(s, '%Y:%m:%d %H:%M:%S')`, with `None` for its `ValueError`. */
  function ParseDateTime(s: string): (r: Option<DateTime>)
    ensures r.Some? ==> Valid(r.value)
  {
    var date :- DatePart(s);
    var g :- Gap(s, date.next);
    var time :- TimePart(s, g);
    var dt := DateTime(date.first, date.second, date.third, time.first, time.second, time.third);
    if time.next == |s| && Valid(dt) then Some(dt) else None
  }

  // ------------------------------------------------------------ spellings

  /** How a two-digit directive is spelled: zero-padded, or one digit for values below 10. */
  datatype Width = Padded | Short

  /** `%d` may also be spelled as a space and one digit. */
  datatype DayStyle = DayPadded | DayShort | DaySpaced

  /** One of the spellings the pattern accepts for a given set of field values. */
  datatype Layout = Layout(month: Width, day: DayStyle, gap: string, hour: Width, minute: Width, second: Width)

  /** The layout the metadata tool is asked for: every field zero-padded, one space. */
  const Canonical := Layout(Padded, DayPadded, " ", Padded, Padded, Padded)

  /** Field values each directive's pattern can spell (whether or not `datetime` accepts them). */
  predicate InPatternRange(dt: DateTime) {
    && 0 <= dt.year <= 9999 && 1 <= dt.month <= 12 && 1 <= dt.day <= 31
    && 0 <= dt.hour <= 23 && 0 <= dt.minute <= 59 && 0 <= dt.second <= 61
  }

  predicate Fits(lay: Layout, dt: DateTime) {
    && (lay.month == Short ==> dt.month < 10)
    && (lay.day != DayPadded ==> dt.day < 10)
    && (lay.hour == Short ==> dt.hour < 10)
    && (lay.minute == Short ==> dt.minute < 10)
    && (lay.second == Short ==> dt.second < 10)
    && |lay.gap| >= 1 && AllSpace(lay.gap)
  }

  function Num(n: int, w: Width): (r: string)
    requires 0 <= n <= 99 && (w == Short ==> n < 10)
    ensures |r| == if w == Short then 1 else 2
    ensures IsDigit(r[0]) && IsDigit(r[|r| - 1])
  {
    if w == Padded then Pad2(n) else [DigitChar(n)]
  }

  function DayText(n: int, st: DayStyle): (r: string)
    requires 0 <= n <= 99 && (st != DayPadded ==> n < 10)
    ensures |r| == if st == DayShort then 1 else 2
    ensures IsDigit(r[|r| - 1])
  {
    match st
    case DayPadded => Pad2(n)
    case DayShort => [DigitChar(n)]
    case DaySpaced => [' ', DigitChar(n)]
  }

  function DateText(dt: DateTime, lay: Layout): (r: string)
    requires InPatternRange(dt) && Fits(lay, dt)
    ensures |r| >= 8 && IsDigit(r[0]) && IsDigit(r[|r| - 1])
  {
    Pad4(dt.year) + ":" + Num(dt.month, lay.month) + ":" + DayText(dt.day, lay.day)
  }

  function TimeText(dt: DateTime, lay: Layout): (r: string)
    requires InPatternRange(dt) && Fits(lay, dt)
    ensures |r| >= 5 && IsDigit(r[0]) && IsDigit(r[|r| - 1])
  {
    Num(dt.hour, lay.hour) + ":" + Num(dt.minute, lay.minute) + ":" + Num(dt.second, lay.second)
  }

  /** The text of `dt` spelled with layout `lay`. */
  function Render(dt: DateTime, lay: Layout): (r: string)
    requires InPatternRange(dt) && Fits(lay, dt)
  {
    DateText(dt, lay) + lay.gap + TimeText(dt, lay)
  }

  /** `%Y:%m:%d %H:%M:%S` with every field zero-padded: what the metadata tool prints. */
  function FormatTimestamp(dt: DateTime): (r: string)
    requires Valid(dt)
    ensures |r| == 19
  {
    Render(dt, Canonical)
  }

  /** A field spelled with `w` at `i`, followed by a non-digit or the end, reads back as its value. */
  predicate SpelledAt(s: string, i: nat, t: string) {
    i + |t| <= |s| && s[i..i + |t|] == t && (i + |t| == |s| || !IsDigit(s[i + |t|]))
  }

  lemma ReadYear(s: string, y: int)
    requires 0 <= y <= 9999 && SpelledAt(s, 0, Pad4(y))
    ensures Year(s, 0) == Some(Field(y, |Pad4(y)|))
  {
    assert s[0] == Pad4(y)[0] && s[1] == Pad4(y)[1] && s[2] == Pad4(y)[2] && s[3] == Pad4(y)[3];
  }

  lemma ReadMonth(s: string, i: nat, n: int, w: Width)
    requires 1 <= n <= 12 && (w == Short ==> n < 10) && SpelledAt(s, i, Num(n, w))
    ensures Month(s, i) == Some(Field(n, i + |Num(n, w)|))
  {
    assert s[i] == Num(n, w)[0];
    if w == Padded { assert s[i + 1] == Num(n, w)[1]; }
  }

  lemma ReadDay(s: string, i: nat, n: int, st: DayStyle)
    requires 1 <= n <= 31 && (st != DayPadded ==> n < 10) && SpelledAt(s, i, DayText(n, st))
    ensures Day(s, i) == Some(Field(n, i + |DayText(n, st)|))
  {
    assert s[i] == DayText(n, st)[0];
    if st != DayShort { assert s[i + 1] == DayText(n, st)[1]; }
  }

  lemma ReadHour(s: string, i: nat, n: int, w: Width)
    requires 0 <= n <= 23 && (w == Short ==> n < 10) && SpelledAt(s, i, Num(n, w))
    ensures Hour(s, i) == Some(Field(n, i + |Num(n, w)|))
  {
    assert s[i] == Num(n, w)[0];
    if w == Padded { assert s[i + 1] == Num(n, w)[1]; }
  }

  lemma ReadMinute(s: string, i: nat, n: int, w: Width)
    requires 0 <= n <= 59 && (w == Short ==> n < 10) && SpelledAt(s, i, Num(n, w))
    ensures Minute(s, i) == Some(Field(n, i + |Num(n, w)|))
  {
    assert s[i] == Num(n, w)[0];
    if w == Padded { assert s[i + 1] == Num(n, w)[1]; }
  }

  lemma ReadSecond(s: string, i: nat, n: int, w: Width)
    requires 0 <= n <= 61 && (w == Short ==> n < 10) && SpelledAt(s, i, Num(n, w))
    ensures Second(s, i) == Some(Field(n, i + |Num(n, w)|))
  {
    assert s[i] == Num(n, w)[0];
    if w == Padded { assert s[i + 1] == Num(n, w)[1]; }
  }

  lemma ReadGap(s: string, i: nat, j: nat)
    requires i < j < |s| && AllSpace(s[i..j]) && !IsSpace(s[j])
    ensures Gap(s, i) == Some(j)
  {
    forall k | i <= k < j ensures IsSpace(s[k]) {
      assert s[k] == s[i..j][k - i];
    }
    SkipSpacesOver(s, i + 1, j - i - 1);
  }

  lemma ReadDatePart(s: string, dt: DateTime, lay: Layout) returns (e: nat)
    requires InPatternRange(dt) && Fits(lay, dt)
    requires SpelledAt(s, 0, DateText(dt, lay))
    ensures DatePart(s) == Some(Triple(dt.year, dt.month, dt.day, e))
    ensures e == |DateText(dt, lay)|
  {
    var P, M, D := Pad4(dt.year), Num(dt.month, lay.month), DayText(dt.day, lay.day);
    var j, k := SpelledPieces(s, 0, P, M, D);
    ReadYear(s, dt.year);
    ReadMonth(s, j, dt.month, lay.month);
    ReadDay(s, k, dt.day, lay.day);
    e := k + |D|;
    DateOfFields(s, j, k, Field(dt.year, |P|), Field(dt.month, j + |M|), Field(dt.day, e));
  }

  /** `%Y:%m:%d` from its three fields, each followed by a colon but the last. */
  lemma DateOfFields(s: string, j: nat, k: nat, y: Field, mo: Field, d: Field)
    requires 0 < j < k <= |s| && y.next == j - 1 && mo.next == k - 1 && s[j - 1] == ':' && s[k - 1] == ':'
    requires Year(s, 0) == Some(y) && Month(s, j) == Some(mo) && Day(s, k) == Some(d)
    ensures DatePart(s) == Some(Triple(y.value, mo.value, d.value, d.next))
  {
  }

  /** A spelled concatenation is spelled piece by piece. */
  lemma SliceConcat(s: string, i: nat, a: string, b: string)
    requires i + |a| + |b| <= |s| && s[i..i + |a| + |b|] == a + b
    ensures s[i..i + |a|] == a && s[i + |a|..i + |a| + |b|] == b
  {
    var w := s[i..i + |a| + |b|];
    assert (a + b)[..|a|] == a && (a + b)[|a|..] == b;
    assert s[i..i + |a|] == w[..|a|];
    assert s[i + |a|..i + |a| + |b|] == w[|a|..];
  }

  /** The three fields of `a:b:c` spelled at `i`, one by one. */
  lemma SpelledPieces(s: string, i: nat, a: string, b: string, c: string) returns (j: nat, k: nat)
    requires SpelledAt(s, i, a + ":" + b + ":" + c)
    ensures j == i + |a| + 1 && k == j + |b| + 1 && k <= |s|
    ensures SpelledAt(s, i, a) && s[j - 1] == ':'
    ensures SpelledAt(s, j, b) && s[k - 1] == ':'
    ensures SpelledAt(s, k, c)
  {
    SliceConcat(s, i, a + ":" + b + ":", c);
    SliceConcat(s, i, a + ":" + b, ":");
    SliceConcat(s, i, a + ":", b);
    SliceConcat(s, i, a, ":");
    assert s[i + |a|..i + |a| + 1] == ":" && s[i + |a| + 1 + |b|..i + |a| + 1 + |b| + 1] == ":";
    j, k := i + |a| + 1, i + |a| + 1 + |b| + 1;
  }

  lemma ReadTimePart(s: string, i: nat, dt: DateTime, lay: Layout) returns (e: nat)
    requires InPatternRange(dt) && Fits(lay, dt)
    requires SpelledAt(s, i, TimeText(dt, lay))
    ensures TimePart(s, i) == Some(Triple(dt.hour, dt.minute, dt.second, e))
    ensures e == i + |TimeText(dt, lay)|
  {
    var H, Mi, S := Num(dt.hour, lay.hour), Num(dt.minute, lay.minute), Num(dt.second, lay.second);
    var j, k := SpelledPieces(s, i, H, Mi, S);
    ReadHour(s, i, dt.hour, lay.hour);
    ReadMinute(s, j, dt.minute, lay.minute);
    ReadSecond(s, k, dt.second, lay.second);
    e := k + |S|;
    TimeOfFields(s, i, j, k, Field(dt.hour, i + |H|), Field(dt.minute, j + |Mi|), Field(dt.second, e));
  }

  /** `%H:%M:%S` from its three fields, each followed by a colon but the last. */
  lemma TimeOfFields(s: string, i: nat, j: nat, k: nat, h: Field, mi: Field, se: Field)
    requires i < j < k <= |s| && h.next == j - 1 && mi.next == k - 1 && s[j - 1] == ':' && s[k - 1] == ':'
    requires Hour(s, i) == Some(h) && Minute(s, j) == Some(mi) && Second(s, k) == Some(se)
    ensures TimePart(s, i) == Some(Triple(h.value, mi.value, se.value, se.next))
  {
  }

  /** The date, gap and time of a spelling, located one by one. */
  lemma RenderPieces(s: string, t: string, g: string, T: string) returns (i: nat, j: nat)
    requires SpelledAt(s, 0, t + g + T)
    requires g != [] && AllSpace(g) && T != [] && IsDigit(T[0])
    ensures i == |t| && j == i + |g|
    ensures SpelledAt(s, 0, t)
    ensures i < j < |s| && AllSpace(s[i..j]) && !IsSpace(s[j])
    ensures SpelledAt(s, j, T)
  {
    SliceConcat(s, 0, t + g, T);
    SliceConcat(s, 0, t, g);
    assert s[|t|] == g[0] && s[|t| + |g|] == T[0];
    i, j := |t|, |t| + |g|;
  }

  /** The parse once its three parts are known to spell `dt` and to end at `e`. */
  lemma ParseOfParts(s: string, dt: DateTime, d: nat, g: nat, e: nat)
    requires DatePart(s) == Some(Triple(dt.year, dt.month, dt.day, d)) && Gap(s, d) == Some(g)
    requires TimePart(s, g) == Some(Triple(dt.hour, dt.minute, dt.second, e))
    ensures ParseDateTime(s) == if |s| == e && Valid(dt) then Some(dt) else None
  {
  }

  /** The three parts of a spelling, read one after the other. */
  lemma ReadParts(s: string, dt: DateTime, lay: Layout) returns (d: nat, g: nat, e: nat)
    requires InPatternRange(dt) && Fits(lay, dt)
    requires SpelledAt(s, 0, Render(dt, lay))
    ensures DatePart(s) == Some(Triple(dt.year, dt.month, dt.day, d)) && Gap(s, d) == Some(g)
    ensures TimePart(s, g) == Some(Triple(dt.hour, dt.minute, dt.second, e))
    ensures e == |Render(dt, lay)|
  {
    var t, w, T := DateText(dt, lay), lay.gap, TimeText(dt, lay);
    d, g := RenderPieces(s, t, w, T);
    var d' := ReadDatePart(s, dt, lay);
    ReadGap(s, d, g);
    e := ReadTimePart(s, g, dt, lay);
  }

  /**
    Every spelling the pattern accepts reads back as the field values it
    spells, and is accepted exactly when those values form a real date-time:
    year 0, 30 February, 29 February outside leap years and seconds 60 and 61
    are refused.
  */
  lemma ParseRender(dt: DateTime, lay: Layout)
    requires InPatternRange(dt) && Fits(lay, dt)
    ensures ParseDateTime(Render(dt, lay)) == if Valid(dt) then Some(dt) else None
  {
    var r := Render(dt, lay);
    assert r[..|r|] == r;
    ExactSpelling(r, dt, lay);
  }

  /** The same, for any text that is exactly a spelling. */
  lemma ExactSpelling(s: string, dt: DateTime, lay: Layout)
    requires InPatternRange(dt) && Fits(lay, dt)
    requires SpelledAt(s, 0, Render(dt, lay)) && |s| == |Render(dt, lay)|
    ensures ParseDateTime(s) == if Valid(dt) then Some(dt) else None
  {
    var d, g, e := ReadParts(s, dt, lay);
    ParseOfParts(s, dt, d, g, e);
  }

  /**
    Text left over after the seconds is refused ("unconverted data
    remains"), whatever the date-time. The leftover starts with a
    non-digit, since a digit after a one-digit seconds field would be read
    as part of that field.
  */
  lemma ParseRenderTrailing(dt: DateTime, lay: Layout, rest: string)
    requires InPatternRange(dt) && Fits(lay, dt)
    requires rest != [] && !IsDigit(rest[0])
    ensures ParseDateTime(Render(dt, lay) + rest) == None
  {
    var r := Render(dt, lay);
    assert (r + rest)[..|r|] == r && (r + rest)[|r|] == rest[0];
    TrailingRefused(r + rest, dt, lay);
  }

  /** The same, for any text that continues a spelling with a non-digit. */
  lemma TrailingRefused(s: string, dt: DateTime, lay: Layout)
    requires InPatternRange(dt) && Fits(lay, dt)
    requires SpelledAt(s, 0, Render(dt, lay)) && |Render(dt, lay)| < |s|
    ensures ParseDateTime(s) == None
  {
    var d, g, e := ReadParts(s, dt, lay);
    ParseOfParts(s, dt, d, g, e);
  }

  /** A year and month alone, `YYYY:MM`, are refused: the day directive finds nothing to read. */
  lemma ParseYearMonth(y: int, m: int, w: Width)
    requires 0 <= y <= 9999 && 1 <= m <= 12 && (w == Short ==> m < 10)
    ensures ParseDateTime(Pad4(y) + ":" + Num(m, w)) == None
  {
    var P, M := Pad4(y), Num(m, w);
    var v := P + ":" + M;
    assert v[..4] == P && v[4] == ':' && v[5..5 + |M|] == M;
    ReadYear(v, y);
    ReadMonth(v, 5, m, w);
  }

  // ---------------------------------------------------------- reading back

  /** Two digits read as a number are its zero-padded spelling. */
  lemma Pad2Of(a: char, b: char)
    requires IsDigit(a) && IsDigit(b)
    ensures Pad2(Two(a, b)) == [a, b]
  {
    var n := Two(a, b);
    assert n / 10 == DigitValue(a) && n % 10 == DigitValue(b);
    DigitRoundTrip(a);
    DigitRoundTrip(b);
  }

  /** Four digits read as a year are its zero-padded spelling. */
  lemma Pad4Of(s: string, i: nat)
    requires i + 4 <= |s| && IsDigit(s[i]) && IsDigit(s[i + 1]) && IsDigit(s[i + 2]) && IsDigit(s[i + 3])
    ensures Pad4(100 * Two(s[i], s[i + 1]) + Two(s[i + 2], s[i + 3])) == s[i..i + 4]
  {
    Pad4Halves(Two(s[i], s[i + 1]), Two(s[i + 2], s[i + 3]));
    Pad2Of(s[i], s[i + 1]);
    Pad2Of(s[i + 2], s[i + 3]);
    assert s[i..i + 4] == [s[i], s[i + 1]] + [s[i + 2], s[i + 3]];
  }

  /** A two-or-one-digit field is the spelling of its value with one of the two widths. */
  lemma SpelledField(s: string, i: nat, f: Field) returns (w: Width)
    requires || (f.next == i + 2 <= |s| && IsDigit(s[i]) && IsDigit(s[i + 1]) && f.value == Two(s[i], s[i + 1]))
             || (f.next == i + 1 <= |s| && IsDigit(s[i]) && f.value == DigitValue(s[i]))
    ensures 0 <= f.value <= 99 && (w == Short ==> f.value < 10)
    ensures f.next <= |s| && s[i..f.next] == Num(f.value, w)
  {
    if f.next == i + 2 {
      w := Padded;
      Pad2Of(s[i], s[i + 1]);
    } else {
      w := Short;
      DigitRoundTrip(s[i]);
    }
  }

  /** A day field is the spelling of its value in one of the three day styles. */
  lemma DaySpelled(s: string, i: nat) returns (st: DayStyle)
    requires i <= |s| && Day(s, i).Some?
    ensures var f := Day(s, i).value; (st != DayPadded ==> f.value < 10) && s[i..f.next] == DayText(f.value, st)
  {
    var f := Day(s, i).value;
    if f.next == i + 2 && s[i] != ' ' {
      st := DayPadded;
      Pad2Of(s[i], s[i + 1]);
    } else if f.next == i + 1 {
      st := DayShort;
      DigitRoundTrip(s[i]);
    } else {
      st := DaySpaced;
      DigitRoundTrip(s[i + 1]);
    }
  }

  /** Three fields and the two colons between them, read back as one text. */
  lemma JoinFields(s: string, i: nat, j: nat, k: nat, e: nat, a: string, b: string, c: string)
    requires i <= j && j + 1 <= k && k + 1 <= e <= |s|
    requires s[i..j] == a && s[j] == ':' && s[j + 1..k] == b && s[k] == ':' && s[k + 1..e] == c
    ensures s[i..e] == a + ":" + b + ":" + c
  {
    assert s[i..e] == s[i..j] + s[j..j + 1] + s[j + 1..k] + s[k..k + 1] + s[k + 1..e];
  }

  /** What `%Y:%m:%d` consumed is the spelling of the values it read. */
  lemma DatePartSpelled(s: string) returns (wm: Width, ds: DayStyle)
    requires DatePart(s).Some?
    ensures var d := DatePart(s).value;
      && (wm == Short ==> d.second < 10) && (ds != DayPadded ==> d.third < 10)
      && s[..d.next] == Pad4(d.first) + ":" + Num(d.second, wm) + ":" + DayText(d.third, ds)
  {
    var mo := Month(s, 5).value;
    var c2 := mo.next + 1;
    var d := Day(s, c2).value;
    Pad4Of(s, 0);
    wm := SpelledField(s, 5, mo);
    ds := DaySpelled(s, c2);
    JoinFields(s, 0, 4, mo.next, d.next, Pad4(Year(s, 0).value.value), Num(mo.value, wm), DayText(d.value, ds));
    assert s[..d.next] == s[0..d.next];
  }

  lemma HourSpelled(s: string, i: nat) returns (w: Width)
    requires i <= |s| && Hour(s, i).Some?
    ensures var f := Hour(s, i).value; (w == Short ==> f.value < 10) && s[i..f.next] == Num(f.value, w)
  {
    w := SpelledField(s, i, Hour(s, i).value);
  }

  lemma MinuteSpelled(s: string, i: nat) returns (w: Width)
    requires i <= |s| && Minute(s, i).Some?
    ensures var f := Minute(s, i).value; (w == Short ==> f.value < 10) && s[i..f.next] == Num(f.value, w)
  {
    w := SpelledField(s, i, Minute(s, i).value);
  }

  lemma SecondSpelled(s: string, i: nat) returns (w: Width)
    requires i <= |s| && Second(s, i).Some?
    ensures var f := Second(s, i).value; (w == Short ==> f.value < 10) && s[i..f.next] == Num(f.value, w)
  {
    w := SpelledField(s, i, Second(s, i).value);
  }

  /** What `%H:%M:%S` consumed is the spelling of the values it read. */
  lemma TimePartSpelled(s: string, i: nat) returns (wh: Width, wm: Width, ws: Width)
    requires i <= |s| && TimePart(s, i).Some?
    ensures var t := TimePart(s, i).value;
      && (wh == Short ==> t.first < 10) && (wm == Short ==> t.second < 10) && (ws == Short ==> t.third < 10)
      && s[i..t.next] == Num(t.first, wh) + ":" + Num(t.second, wm) + ":" + Num(t.third, ws)
  {
    var h := Hour(s, i).value;
    var c3 := h.next + 1;
    var mi := Minute(s, c3).value;
    var c4 := mi.next + 1;
    var se := Second(s, c4).value;
    wh := HourSpelled(s, i);
    wm := MinuteSpelled(s, c3);
    ws := SecondSpelled(s, c4);
    assert TimePart(s, i) == Some(Triple(h.value, mi.value, se.value, se.next));
    JoinFields(s, i, h.next, mi.next, se.next, Num(h.value, wh), Num(mi.value, wm), Num(se.value, ws));
  }

  /** A date text, a gap and a time text laid end to end make a rendering. */
  lemma Assemble(s: string, dt: DateTime, lay: Layout, a: nat, b: nat)
    requires InPatternRange(dt) && Fits(lay, dt)
    requires a <= b <= |s| && s[..a] == DateText(dt, lay) && s[a..b] == lay.gap && s[b..] == TimeText(dt, lay)
    ensures s == Render(dt, lay)
  {
    assert s == s[..a] + s[a..b] + s[b..];
  }

  /**
    Every text the parser accepts is the spelling, in some layout, of the
    date-time it returns.
  */
  lemma ParseSpelling(s: string) returns (lay: Layout)
    requires ParseDateTime(s).Some?
    ensures InPatternRange(ParseDateTime(s).value) && Fits(lay, ParseDateTime(s).value)
    ensures s == Render(ParseDateTime(s).value, lay)
  {
    var date := DatePart(s).value;
    var g := Gap(s, date.next).value;
    GapSpaces(s, date.next);
    var time := TimePart(s, g).value;
    var dt := DateTime(date.first, date.second, date.third, time.first, time.second, time.third);
    assert ParseDateTime(s) == Some(dt) && time.next == |s|;
    var wm, ds := DatePartSpelled(s);
    var wh, wmi, ws := TimePartSpelled(s, g);
    lay := Layout(wm, ds, s[date.next..g], wh, wmi, ws);
    assert s[g..] == s[g..time.next];
    Assemble(s, dt, lay, date.next, g);
  }

  /**
    The parser accepts a text exactly when it spells a real date-time in one
    of the layouts the pattern allows, and then returns that date-time.
  */
  lemma ParseAccepts(s: string, dt: DateTime)
    ensures ParseDateTime(s) == Some(dt) <==> Valid(dt) && exists lay :: Fits(lay, dt) && s == Render(dt, lay)
  {
    if ParseDateTime(s) == Some(dt) {
      var lay := ParseSpelling(s);
    }
    if Valid(dt) && exists lay :: Fits(lay, dt) && s == Render(dt, lay) {
      var lay :| Fits(lay, dt) && s == Render(dt, lay);
      ParseRender(dt, lay);
    }
  }

  // -------------------------------------------------------------- instances

  /** 30 February, 29 February of a common year and second 60 are refused; 29 February 2024 is read back. */
  lemma CalendarInstances()
    ensures ParseDateTime(Render(DateTime(2023, 2, 30, 10, 0, 0), Canonical)) == None
    ensures ParseDateTime(Render(DateTime(2023, 2, 29, 10, 0, 0), Canonical)) == None
    ensures ParseDateTime(Render(DateTime(2023, 5, 14, 10, 0, 60), Canonical)) == None
    ensures ParseDateTime(Render(DateTime(2024, 2, 29, 10, 0, 0), Canonical)) == Some(DateTime(2024, 2, 29, 10, 0, 0))
  {
    ParseRender(DateTime(2023, 2, 30, 10, 0, 0), Canonical);
    ParseRender(DateTime(2023, 2, 29, 10, 0, 0), Canonical);
    ParseRender(DateTime(2023, 5, 14, 10, 0, 60), Canonical);
    ParseRender(DateTime(2024, 2, 29, 10, 0, 0), Canonical);
  }

  /** Hours 24 to 29 are refused: `%H` reads only the `2`, and the digit after it is not the expected colon. */
  lemma HourAbove23(s: string, i: nat)
    requires i + 1 < |s| && s[i] == '2' && '4' <= s[i + 1] <= '9'
    ensures TimePart(s, i) == None
  {
    assert Hour(s, i) == Some(Field(2, i + 1));
  }

  /** So a text whose time starts with `24` to `29` is refused, whatever its date. */
  lemma ParseHourAbove23(s: string, t: Triple, g: nat)
    requires DatePart(s) == Some(t) && Gap(s, t.next) == Some(g)
    requires g + 1 < |s| && s[g] == '2' && '4' <= s[g + 1] <= '9'
    ensures ParseDateTime(s) == None
  {
    HourAbove23(s, g);
  }
}
