/**
  `get_date_taken`: the metadata tool is asked for the original capture time
  in the form `%Y:%m:%d %H:%M:%S`; its output line `label: value` is cut with
  `stdout.split(': ')[1]`, stripped and parsed with `strptime`. Any exception
  on the way becomes `None`.
*/
module MetadataReader {

  import opened Wrappers
  import opened Chars
  import opened DateTimes
  import opened Strptime

  /**
    What running the tool gives back: its exit status and decoded standard
    output, or an exception from `subprocess.run` itself (the executable is
    missing, or its output is not decodable text).
  */
  datatype ToolRun = Exited(returncode: int, stdout: string) | Raised

  // ------------------------------------------------------ split(': ')[1]

  /** The separator `": "` starts at index `k` of `s`. */
  predicate SepAt(s: string, k: int) {
    0 <= k && k + 1 < |s| && s[k] == ':' && s[k + 1] == ' '
  }

  predicate NoSep(s: string) {
    forall k :: 0 <= k < |s| ==> !SepAt(s, k)
  }

  /** The first occurrence of `": "` at or after `from`. */
  function FindSep(s: string, from: nat): (r: Option<nat>)
    ensures r.Some? ==> from <= r.value && SepAt(s, r.value)
    ensures r.Some? ==> forall k :: from <= k < r.value ==> !SepAt(s, k)
    ensures r.None? ==> forall k :: from <= k ==> !SepAt(s, k)
    decreases |s| - from
  {
    if from + 1 >= |s| then None
    else if SepAt(s, from) then Some(from)
    else FindSep(s, from + 1)
  }

  /**
    `s.split(': ')[1]`: the text between the first and the second separator,
    or to the end when there is no second one; `None` for the `IndexError`
    raised when there is no separator at all.
  */
  function SecondPiece(s: string): (r: Option<string>)
    ensures r.None? <==> NoSep(s)
    ensures r.Some? ==> NoSep(r.value) && |r.value| <= |s|
  {
    match FindSep(s, 0)
    case None => None
    case Some(i) =>
      var rest := s[i + 2..];
      match FindSep(rest, 0)
      case None => Some(rest)
      case Some(j) =>
        assert forall k :: !SepAt(rest[..j], k) by {
          forall k ensures !SepAt(rest[..j], k) {
            if SepAt(rest[..j], k) { assert SepAt(rest, k); }
          }
        }
        Some(rest[..j])
  }

  lemma NoSepAppend(a: string, b: string)
    requires NoSep(a) && NoSep(b)
    requires !(|a| > 0 && |b| > 0 && a[|a| - 1] == ':' && b[0] == ' ')
    ensures NoSep(a + b)
  {
    forall k ensures !SepAt(a + b, k) {
      if SepAt(a + b, k) {
        if k + 1 < |a| { assert SepAt(a, k); }
        else if k >= |a| { assert SepAt(b, k - |a|); }
      }
    }
  }

  /** A `label: value` line, with or without further pieces, splits back into its value. */
  lemma {:induction false} SecondPieceOfLine(key: string, v: string, more: string)
    requires NoSep(key) && NoSep(v)
    ensures SecondPiece(key + ": " + v) == Some(v)
    ensures SecondPiece(key + ": " + v + ": " + more) == Some(v)
  {
    var s1, s2 := key + ": " + v, key + ": " + v + ": " + more;
    assert SepAt(s1, |key|) && SepAt(s2, |key|);
    forall k | 0 <= k < |key| ensures !SepAt(s1, k) && !SepAt(s2, k) {
      if k + 1 < |key| { assert !SepAt(key, k); }
    }
    assert FindSep(s1, 0) == Some(|key|);
    assert FindSep(s2, 0) == Some(|key|);
    assert s1[|key| + 2..] == v;
    var rest := s2[|key| + 2..];
    assert rest == v + ": " + more;
    assert SepAt(rest, |v|);
    forall k | 0 <= k < |v| ensures !SepAt(rest, k) {
      if k + 1 < |v| { assert !SepAt(v, k); }
    }
    assert FindSep(rest, 0) == Some(|v|);
    assert rest[..|v|] == v;
  }

  // ---------------------------------------------------------------- strip()

  function TrimStart(s: string): (r: string)
    ensures |r| <= |s| && r == s[|s| - |r|..]
    ensures AllSpace(s[..|s| - |r|])
    ensures r == [] || !IsSpace(r[0])
  {
    if |s| > 0 && IsSpace(s[0]) then
      var r := TrimStart(s[1..]);
      TrimmedAfterSpace(s, r);
      r
    else s
  }

  /** What trimming the rest of `s` leaves is what trimming `s` leaves, when `s` starts with whitespace. */
  lemma TrimmedAfterSpace(s: string, r: string)
    requires |s| > 0 && IsSpace(s[0])
    requires |r| < |s| && r == s[1..][|s| - 1 - |r|..] && AllSpace(s[1..][..|s| - 1 - |r|])
    ensures r == s[|s| - |r|..] && AllSpace(s[..|s| - |r|])
  {
    var p := s[1..];
    assert p[|p| - |r|..] == s[|s| - |r|..];
    assert s[..|s| - |r|] == [s[0]] + p[..|p| - |r|];
    SpaceBefore(s[0], p[..|p| - |r|]);
  }

  /** A whitespace run with one more whitespace character in front. */
  lemma SpaceBefore(c: char, w: string)
    requires IsSpace(c) && AllSpace(w)
    ensures AllSpace([c] + w)
  {
    forall k | 0 < k <= |w| ensures IsSpace(([c] + w)[k]) {
      assert ([c] + w)[k] == w[k - 1];
    }
  }

  /** A whitespace run with one more whitespace character behind. */
  lemma SpaceAfter(w: string, c: char)
    requires AllSpace(w) && IsSpace(c)
    ensures AllSpace(w + [c])
  {
    forall k | 0 <= k < |w| ensures IsSpace((w + [c])[k]) {
      assert (w + [c])[k] == w[k];
    }
  }

  function TrimEnd(s: string): (r: string)
    ensures |r| <= |s| && r == s[..|r|]
    ensures AllSpace(s[|r|..])
    ensures r == [] || !IsSpace(r[|r| - 1])
  {
    if |s| > 0 && IsSpace(s[|s| - 1]) then
      var p := s[..|s| - 1];
      var r := TrimEnd(p);
      assert p[..|r|] == s[..|r|];
      assert s[|r|..] == p[|r|..] + [s[|s| - 1]];
      SpaceAfter(p[|r|..], s[|s| - 1]);
      r
    else s
  }

  /** `str.strip()`: whitespace removed from both ends and nowhere else. */
  function Strip(s: string): (r: string)
    ensures |r| <= |s|
    ensures r == [] || (!IsSpace(r[0]) && !IsSpace(r[|r| - 1]))
  {
    TrimEnd(TrimStart(s))
  }

  lemma {:induction false} TrimStartPadded(w: string, t: string)
    requires AllSpace(w) && (t == [] || !IsSpace(t[0]))
    ensures TrimStart(w + t) == t
    decreases |w|
  {
    if w != [] {
      assert (w + t)[1..] == w[1..] + t;
      TrimStartPadded(w[1..], t);
    } else {
      assert w + t == t;
    }
  }

  lemma {:induction false} TrimEndPadded(t: string, w: string)
    requires AllSpace(w) && (t == [] || !IsSpace(t[|t| - 1]))
    ensures TrimEnd(t + w) == t
    decreases |w|
  {
    if w != [] {
      assert (t + w)[..|t + w| - 1] == t + w[..|w| - 1];
      TrimEndPadded(t, w[..|w| - 1]);
    } else {
      assert t + w == t;
    }
  }

  /** Stripping gives back any text that neither starts nor ends with whitespace, whatever whitespace surrounds it. */
  lemma StripPadded(w1: string, t: string, w2: string)
    requires AllSpace(w1) && AllSpace(w2)
    requires t == [] || (!IsSpace(t[0]) && !IsSpace(t[|t| - 1]))
    ensures Strip(w1 + t + w2) == t
  {
    if t == [] {
      assert w1 + t + w2 == w1 + w2 + [];
      TrimStartPadded(w1 + w2, []);
    } else {
      assert w1 + t + w2 == w1 + (t + w2);
      TrimStartPadded(w1, t + w2);
      TrimEndPadded(t, w2);
    }
  }

  lemma NoSepWithoutColon(s: string)
    requires forall k :: 0 <= k < |s| ==> IsDigit(s[k]) || IsSpace(s[k])
    ensures NoSep(s)
  {
    forall k | 0 <= k < |s| ensures !SepAt(s, k) {
      assert IsDigit(s[k]) || IsSpace(s[k]);
    }
  }

  /** The tool's zero-padded (or short) fields never put a space right after a colon. */
  lemma RenderNoSep(dt: DateTime, lay: Layout, trailer: string)
    requires InPatternRange(dt) && Fits(lay, dt) && lay.day != DaySpaced && AllSpace(trailer)
    ensures NoSep(Render(dt, lay) + trailer)
  {
    var P, M, D := Pad4(dt.year), Num(dt.month, lay.month), DayText(dt.day, lay.day);
    var H, Mi, S := Num(dt.hour, lay.hour), Num(dt.minute, lay.minute), Num(dt.second, lay.second);
    NoSepWithoutColon(P);
    NoSepWithoutColon(M);
    NoSepWithoutColon(D);
    NoSepWithoutColon(H);
    NoSepWithoutColon(Mi);
    NoSepWithoutColon(S);
    NoSepWithoutColon(lay.gap);
    NoSepWithoutColon(trailer);
    assert NoSep(":");
    NoSepAppend(P, ":");
    NoSepAppend(P + ":", M);
    NoSepAppend(P + ":" + M, ":");
    NoSepAppend(P + ":" + M + ":", D);
    NoSepAppend(H, ":");
    NoSepAppend(H + ":", Mi);
    NoSepAppend(H + ":" + Mi, ":");
    NoSepAppend(H + ":" + Mi + ":", S);
    var dtext, ttext := DateText(dt, lay), TimeText(dt, lay);
    NoSepAppend(dtext, lay.gap);
    NoSepAppend(dtext + lay.gap, ttext);
    NoSepAppend(Render(dt, lay), trailer);
  }

  // --------------------------------------------------------- get_date_taken

  /**
    `get_date_taken` once the tool has run: `None` unless the tool exited
    with status 0 and printed something, and `None` when the output has no
    `": "` to split at or when the piece after it does not parse.
  */
  function DateTaken(run: ToolRun): (r: Option<DateTime>)
    ensures run.Raised? ==> r == None
    ensures run.Exited? && run.returncode != 0 ==> r == None
    ensures run.Exited? && run.stdout == [] ==> r == None
    ensures run.Exited? && NoSep(run.stdout) ==> r == None
    ensures r.Some? ==> Valid(r.value)
  {
    match run
    case Raised => None
    case Exited(returncode, stdout) =>
      if returncode == 0 && stdout != [] then
        match SecondPiece(stdout)
        case None => None
        case Some(value) => ParseDateTime(Strip(value))
      else None
  }

  /** With a successful tool run, the result is the parse of the stripped second piece. */
  lemma DateTakenOfPiece(out: string, v: string)
    requires SecondPiece(out) == Some(v)
    ensures DateTaken(Exited(0, out)) == ParseDateTime(Strip(v))
  {
    assert out != [];
  }

  /** A value line that parses, however the tool pads it with whitespace, is the date taken. */
  lemma DateTakenOfLine(key: string, text: string, trailer: string)
    requires NoSep(key) && NoSep(text + trailer) && AllSpace(trailer)
    requires text != [] && !IsSpace(text[0]) && !IsSpace(text[|text| - 1])
    ensures DateTaken(Exited(0, key + ": " + text + trailer)) == ParseDateTime(text)
  {
    var v := text + trailer;
    assert key + ": " + text + trailer == key + ": " + v;
    SecondPieceOfLine(key, v, "");
    StripPadded([], text, trailer);
    assert [] + text + trailer == v;
    DateTakenOfPiece(key + ": " + v, v);
  }

  /**
    The round trip through the tool: a line `label: YYYY:MM:DD HH:MM:SS`
    followed by any whitespace (the tool ends it with a newline) gives back
    the date-time it spells, for any label without a `": "` of its own. The
    same holds for every laxer spelling `strptime` accepts, except a day
    written as a space and one digit, whose colon and space the split takes
    for a second separator (DateTakenSpacedDay).
  */
  lemma DateTakenRoundTrip(key: string, dt: DateTime, lay: Layout, trailer: string)
    requires Valid(dt) && Fits(lay, dt) && lay.day != DaySpaced
    requires NoSep(key) && AllSpace(trailer)
    ensures DateTaken(Exited(0, key + ": " + Render(dt, lay) + trailer)) == Some(dt)
  {
    RenderNoSep(dt, lay, trailer);
    DateTakenOfLine(key, Render(dt, lay), trailer);
    ParseRender(dt, lay);
  }

  /** With the canonical layout: what the tool prints for `-d '%Y:%m:%d %H:%M:%S'`. */
  lemma DateTakenCanonical(key: string, dt: DateTime)
    requires Valid(dt) && NoSep(key)
    ensures DateTaken(Exited(0, key + ": " + FormatTimestamp(dt) + "\n")) == Some(dt)
  {
    DateTakenRoundTrip(key, dt, Canonical, "\n");
  }

  /** A value followed by a second separator: only the value is parsed. */
  lemma DateTakenOfCut(key: string, v: string, more: string)
    requires NoSep(key) && NoSep(v)
    requires v != [] && !IsSpace(v[0]) && !IsSpace(v[|v| - 1])
    ensures DateTaken(Exited(0, key + ": " + v + ": " + more)) == ParseDateTime(v)
  {
    SecondPieceOfLine(key, v, more);
    StripPadded([], v, []);
    assert [] + v + [] == v;
  }

  lemma YearMonthNoSep(P: string, M: string)
    requires AllDigits(P) && AllDigits(M) && P != [] && M != []
    ensures NoSep(P + ":" + M) && P + ":" + M != []
    ensures !IsSpace((P + ":" + M)[0]) && !IsSpace((P + ":" + M)[|P| + |M|])
  {
    NoSepWithoutColon(P);
    NoSepWithoutColon(M);
    assert NoSep(":");
    NoSepAppend(P, ":");
    NoSepAppend(P + ":", M);
    assert (P + ":" + M)[0] == P[0] && (P + ":" + M)[|P| + |M|] == M[|M| - 1];
  }

  /** The line of a space-padded day, cut at the `": "` inside the date. */
  lemma SpacedDayRegrouped(key: string, P: string, M: string, c: char, g: string, T: string, trailer: string)
    ensures key + ": " + (P + ":" + M + ":" + [' ', c] + g + T) + trailer
         == key + ": " + (P + ":" + M) + ": " + ([c] + g + T + trailer)
  {
  }

  /**
    A day written as a space and one digit (which `strptime` itself
    accepts) is lost: the split stops at the `": "` before that day, so only
    `YYYY:MM` reaches `strptime`, which refuses it.
  */
  lemma DateTakenSpacedDay(key: string, dt: DateTime, lay: Layout, trailer: string)
    requires InPatternRange(dt) && Fits(lay, dt) && lay.day == DaySpaced && NoSep(key)
    ensures DateTaken(Exited(0, key + ": " + Render(dt, lay) + trailer)) == None
  {
    var P, M, c := Pad4(dt.year), Num(dt.month, lay.month), DigitChar(dt.day);
    var v := P + ":" + M;
    var more := [c] + lay.gap + TimeText(dt, lay) + trailer;
    assert Render(dt, lay) == P + ":" + M + ":" + [' ', c] + lay.gap + TimeText(dt, lay);
    SpacedDayRegrouped(key, P, M, c, lay.gap, TimeText(dt, lay), trailer);
    YearMonthNoSep(P, M);
    DateTakenOfCut(key, v, more);
    ParseYearMonth(dt.year, dt.month, lay.month);
  }
}
