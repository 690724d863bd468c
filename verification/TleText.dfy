/** The text format of CelesTrak: a name line and two element lines for each record. */
module TleText {
  import opened Wrappers

  datatype TleRecord = TleRecord(name: string, line1: string, line2: string)

  datatype ParseError = TleNotFound | CelestrakError

  const NOT_FOUND: string := "No GP data found"

  // Python's string functions.

  /** Code points that `strip` removes, as closed ranges. */
  const SPACES: seq<(int, int)> := [
    (0x09, 0x0D), (0x1C, 0x20), (0x85, 0x85), (0xA0, 0xA0), (0x1680, 0x1680), (0x2000, 0x200A),
    (0x2028, 0x2029), (0x202F, 0x202F), (0x205F, 0x205F), (0x3000, 0x3000)]

  /** Code points where `splitlines` splits; CR LF together are one break. */
  const BREAKS: seq<(int, int)> := [(0x0A, 0x0D), (0x1C, 0x1E), (0x85, 0x85), (0x2028, 0x2029)]

  predicate InRanges(n: int, ranges: seq<(int, int)>) {
    ranges != [] && (ranges[0].0 <= n <= ranges[0].1 || InRanges(n, ranges[1..]))
  }

  predicate IsSpace(c: char) { InRanges(c as int, SPACES) }

  predicate IsBreak(c: char) { InRanges(c as int, BREAKS) }

  /** All the white space of Python's `str.isspace`, and all the breaks of `str.splitlines`. */
  lemma WhiteSpace(c: char)
    ensures var n := c as int;
            && (IsSpace(c) <==>
                  || 0x09 <= n <= 0x0D || 0x1C <= n <= 0x20 || n == 0x85 || n == 0xA0 || n == 0x1680
                  || 0x2000 <= n <= 0x200A || n == 0x2028 || n == 0x2029 || n == 0x202F || n == 0x205F || n == 0x3000)
            && (IsBreak(c) <==>
                  0x0A <= n <= 0x0D || 0x1C <= n <= 0x1E || n == 0x85 || n == 0x2028 || n == 0x2029)
  {
    var n := c as int;
    if IsSpace(c) { var i := RangeOf(n, SPACES); }
    if IsBreak(c) { var i := RangeOf(n, BREAKS); }
    forall i: nat | i < |SPACES| && SPACES[i].0 <= n <= SPACES[i].1 ensures IsSpace(c) { InRange(n, SPACES, i); }
    forall i: nat | i < |BREAKS| && BREAKS[i].0 <= n <= BREAKS[i].1 ensures IsBreak(c) { InRange(n, BREAKS, i); }
    assert SPACES[0] == (0x09, 0x0D) && SPACES[1] == (0x1C, 0x20) && SPACES[2] == (0x85, 0x85)
        && SPACES[3] == (0xA0, 0xA0) && SPACES[4] == (0x1680, 0x1680) && SPACES[5] == (0x2000, 0x200A);
    assert SPACES[6] == (0x2028, 0x2029) && SPACES[7] == (0x202F, 0x202F) && SPACES[8] == (0x205F, 0x205F)
        && SPACES[9] == (0x3000, 0x3000);
    assert BREAKS[0] == (0x0A, 0x0D) && BREAKS[1] == (0x1C, 0x1E) && BREAKS[2] == (0x85, 0x85)
        && BREAKS[3] == (0x2028, 0x2029);
  }

  lemma {:induction false} InRange(n: int, ranges: seq<(int, int)>, i: nat)
    requires i < |ranges| && ranges[i].0 <= n <= ranges[i].1
    ensures InRanges(n, ranges)
  {
    if i > 0 { InRange(n, ranges[1..], i - 1); }
  }

  lemma {:induction false} RangeOf(n: int, ranges: seq<(int, int)>) returns (i: nat)
    requires InRanges(n, ranges)
    ensures i < |ranges| && ranges[i].0 <= n <= ranges[i].1
  {
    if ranges[0].0 <= n <= ranges[0].1 {
      i := 0;
    } else {
      i := RangeOf(n, ranges[1..]);
      i := i + 1;
    }
  }

  lemma BreaksAreSpaces(c: char)
    ensures IsBreak(c) ==> IsSpace(c)
  {
    if IsBreak(c) {
      var i := RangeOf(c as int, BREAKS);
      InRange(c as int, SPACES, [0, 1, 2, 6][i]);
    }
  }

  lemma KnownCharacters()
    ensures IsSpace(' ') && IsSpace('\r') && IsSpace('\n')
    ensures IsBreak('\r') && IsBreak('\n') && !IsBreak(' ')
  {
    InRange(' ' as int, SPACES, 1);
    InRange('\r' as int, SPACES, 0);
    InRange('\n' as int, SPACES, 0);
    InRange('\r' as int, BREAKS, 0);
    InRange('\n' as int, BREAKS, 0);
    if IsBreak(' ') { var i := RangeOf(' ' as int, BREAKS); }
  }

  lemma NotFoundIsOneLine()
    ensures OneLineOnly(NOT_FOUND)
  {
    forall i | 0 <= i < |NOT_FOUND| ensures !IsBreak(NOT_FOUND[i]) {
      if IsBreak(NOT_FOUND[i]) { var r := RangeOf(NOT_FOUND[i] as int, BREAKS); }
    }
  }

  predicate Blank(s: string) {
    forall i :: 0 <= i < |s| ==> IsSpace(s[i])
  }

  function LStrip(s: string): string {
    if s != "" && IsSpace(s[0]) then LStrip(s[1..]) else s
  }

  function RStrip(s: string): string {
    if s != "" && IsSpace(s[|s| - 1]) then RStrip(s[..|s| - 1]) else s
  }

  function Strip(s: string): string { LStrip(RStrip(s)) }

  /** The position of the first line break, or the length. */
  function LineEnd(s: string): (i: nat)
    ensures i <= |s|
  {
    if s == "" || IsBreak(s[0]) then 0 else 1 + LineEnd(s[1..])
  }

  lemma {:induction false} LineEndIsFirstBreak(s: string)
    ensures LineEnd(s) < |s| ==> IsBreak(s[LineEnd(s)])
    ensures OneLineOnly(s[..LineEnd(s)])
  {
    if s != "" && !IsBreak(s[0]) {
      LineEndIsFirstBreak(s[1..]);
      assert s[..LineEnd(s)] == [s[0]] + s[1..][..LineEnd(s[1..])];
    }
  }

  /** What follows the break at position `i`. */
  function Beyond(s: string, i: nat): string
    requires i < |s|
  {
    if s[i] == '\r' && i + 1 < |s| && s[i + 1] == '\n' then s[i + 2..] else s[i + 1..]
  }

  function AfterLine(s: string): string {
    if LineEnd(s) == |s| then "" else Beyond(s, LineEnd(s))
  }

  function SplitLines(s: string): seq<string>
    decreases |s|
  {
    if s == "" then [] else [s[..LineEnd(s)]] + SplitLines(AfterLine(s))
  }

  /** The lines that are not blank, trimmed on the right. */
  function Kept(lines: seq<string>): seq<string> {
    if lines == [] then [] else Keep(lines[0]) + Kept(lines[1..])
  }

  function Keep(line: string): seq<string> {
    if Blank(line) then [] else [RStrip(line)]
  }

  predicate StartsWith(s: string, prefix: string) {
    prefix <= s
  }

  predicate OneLineOnly(s: string) {
    forall i :: 0 <= i < |s| ==> !IsBreak(s[i])
  }

  // The parser.

  function Lines(text: string): seq<string> { Kept(SplitLines(text)) }

  /** The lines come in threes, and each second and third one has its prefix. */
  predicate Grouped(lines: seq<string>) {
    if |lines| < 3 then lines == []
    else StartsWith(lines[1], "1 ") && StartsWith(lines[2], "2 ") && Grouped(lines[3..])
  }

  function RecordsOf(lines: seq<string>): seq<TleRecord> {
    if |lines| < 3 then []
    else [TleRecord(Strip(lines[0]), lines[1], lines[2])] + RecordsOf(lines[3..])
  }

  function Parse(body: string): Result<seq<TleRecord>, ParseError> {
    var text := Strip(body);
    if text == "" || text == NOT_FOUND then Failure(TleNotFound)
    else if Grouped(Lines(text)) then Success(RecordsOf(Lines(text)))
    else Failure(CelestrakError)
  }

  lemma {:induction false} GroupedInThrees(lines: seq<string>)
    requires Grouped(lines)
    ensures |lines| == 3 * |RecordsOf(lines)|
  {
    if |lines| >= 3 { GroupedInThrees(lines[3..]); }
  }

  method ParseRecords(body: string) returns (r: Result<seq<TleRecord>, ParseError>)
    ensures r == Parse(body)
    ensures r == Failure(TleNotFound) <==> Strip(body) == "" || Strip(body) == "No GP data found"
    ensures r.Failure? && r.error != TleNotFound ==> r.error == CelestrakError
  {
    var text := Strip(body);
    if text == "" || text == NOT_FOUND {
      return Failure(TleNotFound);
    }
    r := ParseGroups(Lines(text));
  }

  /** The second half of `_parse_records`, from the count of the lines on. */
  method ParseGroups(lines: seq<string>) returns (r: Result<seq<TleRecord>, ParseError>)
    ensures r == if Grouped(lines) then Success(RecordsOf(lines)) else Failure(CelestrakError)
  {
    if |lines| % 3 != 0 {
      if Grouped(lines) { GroupedInThrees(lines); }
      return Failure(CelestrakError);
    }
    var records: seq<TleRecord> := [];
    var index := 0;
    while index < |lines|
      invariant 0 <= index <= |lines| && (|lines| - index) % 3 == 0
      invariant Grouped(lines) == Grouped(lines[index..])
      invariant RecordsOf(lines) == records + RecordsOf(lines[index..])
    {
      var name, line1, line2 := lines[index], lines[index + 1], lines[index + 2];
      assert lines[index..][3..] == lines[index + 3..];
      assert lines[index..][1] == line1 && lines[index..][2] == line2;
      if !StartsWith(line1, "1 ") || !StartsWith(line2, "2 ") {
        return Failure(CelestrakError);
      }
      records := records + [TleRecord(Strip(name), line1, line2)];
      index := index + 3;
    }
    assert lines[index..] == [] && records + [] == records;
    r := Success(records);
  }

  // Stripping.

  lemma {:induction false} RStripEnds(s: string)
    ensures RStrip(s) <= s && Blank(s[|RStrip(s)|..])
    ensures RStrip(s) != "" ==> !IsSpace(RStrip(s)[|RStrip(s)| - 1])
    ensures RStrip(s) == "" <==> Blank(s)
  {
    if s != "" && IsSpace(s[|s| - 1]) {
      var front := s[..|s| - 1];
      RStripEnds(front);
      assert s[|RStrip(s)|..] == front[|RStrip(s)|..] + [s[|s| - 1]];
      assert Blank(s) <==> Blank(front) by { assert s == front + [s[|s| - 1]]; }
    } else if s != "" {
      assert !IsSpace(s[|s| - 1]);
    }
  }

  lemma {:induction false} LStripStarts(s: string)
    ensures |LStrip(s)| <= |s| && LStrip(s) == s[|s| - |LStrip(s)|..]
    ensures LStrip(s) != "" ==> !IsSpace(LStrip(s)[0])
    ensures LStrip(s) == "" <==> Blank(s)
  {
    if s != "" && IsSpace(s[0]) {
      LStripStarts(s[1..]);
      assert Blank(s) <==> Blank(s[1..]);
    }
  }

  lemma StripTwice(s: string)
    ensures Strip(Strip(s)) == Strip(s) && RStrip(Strip(s)) == Strip(s)
    ensures Strip(s) == "" <==> Blank(s)
    ensures Strip(s) != "" ==> !IsSpace(Strip(s)[0]) && !IsSpace(Strip(s)[|Strip(s)| - 1])
  {
    RStripEnds(s);
    LStripStarts(RStrip(s));
    assert Blank(s) <==> Blank(RStrip(s));
  }

  /** A leading blank does not change a right-trimmed line except at its front. */
  lemma {:induction false} RStripCons(c: char, s: string)
    requires !Blank(s)
    ensures RStrip([c] + s) == [c] + RStrip(s)
  {
    if IsSpace(s[|s| - 1]) {
      assert ([c] + s)[..|s|] == [c] + s[..|s| - 1];
      RStripCons(c, s[..|s| - 1]);
    }
  }

  lemma KeepTrimmed(line: string, trimmed: string)
    requires RStrip(line) == trimmed && trimmed != ""
    ensures Keep(line) == [trimmed]
  {
    RStripEnds(line);
  }

  // Outer white space only matters at the front of the first line.

  function TrimFirst(lines: seq<string>): seq<string> {
    if lines == [] then [] else [LStrip(lines[0])] + lines[1..]
  }

  lemma LinesUnfold(s: string)
    requires s != ""
    ensures Lines(s) == Keep(s[..LineEnd(s)]) + Lines(AfterLine(s))
  {
    assert SplitLines(s)[1..] == SplitLines(AfterLine(s));
  }

  lemma LinesOfBreakFront(c: char, t: string)
    requires IsBreak(c)
    ensures Lines([c] + t) == Lines(t)
  {
    var s := [c] + t;
    LinesUnfold(s);
    assert s[..LineEnd(s)] == "";
    if c == '\r' && t != "" && t[0] == '\n' {
      assert AfterLine(s) == s[2..] == t[1..];
      LinesUnfold(t);
      assert AfterLine(t) == t[1..] && t[..LineEnd(t)] == "";
    } else {
      assert AfterLine(s) == t;
    }
  }

  lemma KeepBlankFront(c: char, line: string)
    requires IsSpace(c)
    ensures Keep(line) == [] ==> Keep([c] + line) == []
    ensures Keep(line) != [] ==> Keep([c] + line) == [[c] + RStrip(line)]
  {
    if !Blank(line) {
      var k :| 0 <= k < |line| && !IsSpace(line[k]);
      assert ([c] + line)[k + 1] == line[k];
      RStripCons(c, line);
    }
  }

  lemma LinesOfBlankFront(c: char, t: string)
    requires IsSpace(c)
    ensures TrimFirst(Lines([c] + t)) == TrimFirst(Lines(t))
  {
    var s := [c] + t;
    if IsBreak(c) {
      LinesOfBreakFront(c, t);
    } else if t == "" {
      LinesUnfold(s);
      assert s[1..] == "" && LineEnd(s) == 1 && Blank(s[..1]);
    } else {
      var line := t[..LineEnd(t)];
      assert s[1..] == t;
      assert LineEnd(s) == LineEnd(t) + 1 && AfterLine(s) == AfterLine(t);
      assert s[..LineEnd(s)] == [c] + line;
      LinesUnfold(s);
      LinesUnfold(t);
      KeepBlankFront(c, line);
      assert ([c] + RStrip(line))[1..] == RStrip(line);
    }
  }

  lemma LinesOfOneLine(s: string)
    requires s != "" && AfterLine(s) == ""
    ensures Lines(s) == Keep(s[..LineEnd(s)])
  {
    LinesUnfold(s);
  }

  lemma CutOfLastLine(t: string, c: char)
    requires LineEnd(t) == |t|
    ensures AfterLine(t + [c]) == ""
    ensures (t + [c])[..LineEnd(t + [c])] == if IsBreak(c) then t else t + [c]
  {
    LineEndOfLonger(t, c);
  }

  lemma LastLineOfBlankEnd(t: string, c: char)
    requires IsSpace(c) && t != "" && LineEnd(t) == |t|
    ensures Lines(t + [c]) == Lines(t)
  {
    CutOfLastLine(t, c);
    KeepBlankEnd(t, c);
    LinesOfOneLine(t + [c]);
    assert t[..LineEnd(t)] == t;
    LinesOfOneLine(t);
  }

  lemma BeyondOfLonger(t: string, c: char, i: nat)
    requires i < |t|
    ensures Beyond(t + [c], i) == Beyond(t, i) + [c] || Beyond(t + [c], i) == Beyond(t, i) == ""
  {
    var s := t + [c];
    assert s[i + 1..] == t[i + 1..] + [c];
    if i + 1 < |t| {
      assert s[i + 2..] == t[i + 2..] + [c];
    }
  }

  lemma CutOfEarlierLine(t: string, c: char)
    requires LineEnd(t) < |t|
    ensures (t + [c])[..LineEnd(t + [c])] == t[..LineEnd(t)]
    ensures AfterLine(t + [c]) == AfterLine(t) + [c] || AfterLine(t + [c]) == AfterLine(t) == ""
  {
    var s, i := t + [c], LineEnd(t);
    LineEndOfLonger(t, c);
    assert LineEnd(s) == i && s[..i] == t[..i];
    BeyondOfLonger(t, c, i);
    assert AfterLine(s) == Beyond(s, i) && AfterLine(t) == Beyond(t, i);
  }

  lemma {:induction false} LinesOfBlankEnd(t: string, c: char)
    requires IsSpace(c)
    ensures Lines(t + [c]) == Lines(t)
    decreases |t|
  {
    if t == "" {
      CutOfLastLine(t, c);
      LinesOfOneLine(t + [c]);
    } else if LineEnd(t) == |t| {
      LastLineOfBlankEnd(t, c);
    } else {
      CutOfEarlierLine(t, c);
      LinesUnfold(t + [c]);
      LinesUnfold(t);
      if AfterLine(t + [c]) == AfterLine(t) + [c] {
        LinesOfBlankEnd(AfterLine(t), c);
      }
    }
  }

  lemma {:induction false} LineEndOfLonger(t: string, c: char)
    ensures LineEnd(t + [c]) == if LineEnd(t) < |t| || IsBreak(c) then LineEnd(t) else |t| + 1
  {
    if t != "" && !IsBreak(t[0]) {
      assert (t + [c])[1..] == t[1..] + [c];
      LineEndOfLonger(t[1..], c);
    }
  }

  lemma KeepBlankEnd(t: string, c: char)
    requires IsSpace(c)
    ensures Keep(t + [c]) == Keep(t)
  {
    assert (t + [c])[..|t|] == t;
    assert forall k :: 0 <= k < |t| ==> (t + [c])[k] == t[k];
  }

  lemma {:induction false} LinesOfLStrip(s: string)
    ensures TrimFirst(Lines(LStrip(s))) == TrimFirst(Lines(s))
  {
    if s != "" && IsSpace(s[0]) {
      LinesOfLStrip(s[1..]);
      LinesOfBlankFront(s[0], s[1..]);
      assert [s[0]] + s[1..] == s;
    }
  }

  lemma {:induction false} LinesOfRStrip(s: string)
    ensures Lines(RStrip(s)) == Lines(s)
  {
    if s != "" && IsSpace(s[|s| - 1]) {
      LinesOfRStrip(s[..|s| - 1]);
      LinesOfBlankEnd(s[..|s| - 1], s[|s| - 1]);
      assert s[..|s| - 1] + [s[|s| - 1]] == s;
    }
  }

  /** A text that starts with a visible character has its first line as it stands. */
  lemma FirstLineOf(s: string)
    requires s != "" && !IsSpace(s[0])
    ensures Lines(s) != [] && TrimFirst(Lines(s)) == Lines(s)
    ensures Lines(s) == [RStrip(s[..LineEnd(s)])] + Lines(AfterLine(s))
  {
    LinesUnfold(s);
    var line := s[..LineEnd(s)];
    BreaksAreSpaces(s[0]);
    assert line[0] == s[0];
    RStripEnds(line);
    assert RStrip(line)[0] == s[0];
  }

  /** A visible character past the first line is in the rest. */
  lemma VisibleAfterLine(s: string, k: nat)
    requires LineEnd(s) <= k < |s| && !IsSpace(s[k])
    ensures |AfterLine(s)| + k >= |s|
    ensures AfterLine(s)[k - (|s| - |AfterLine(s)|)] == s[k]
  {
    LineEndIsFirstBreak(s);
    BreaksAreSpaces(s[LineEnd(s)]);
    KnownCharacters();
  }

  lemma {:induction false} LinesOfVisible(s: string, k: nat)
    requires k < |s| && !IsSpace(s[k])
    ensures Lines(s) != []
    decreases |s|
  {
    LinesUnfold(s);
    if k < LineEnd(s) {
      assert !IsSpace(s[..LineEnd(s)][k]);
    } else {
      VisibleAfterLine(s, k);
      LinesOfVisible(AfterLine(s), k - (|s| - |AfterLine(s)|));
    }
  }

  lemma SeveralLines(s: string)
    requires s != "" && !IsSpace(s[0]) && !IsSpace(s[|s| - 1]) && LineEnd(s) < |s|
    ensures |Lines(s)| >= 2
  {
    var rest := AfterLine(s);
    VisibleAfterLine(s, |s| - 1);
    assert rest != "" && rest[|rest| - 1] == s[|s| - 1];
    LinesOfVisible(rest, |rest| - 1);
    assert Lines(rest) != [];
    FirstLineOf(s);
  }

  /** Only a one-line text can have a single line that is the whole of it. */
  lemma OneLine(s: string, line: string)
    requires s != "" && !IsSpace(s[0]) && !IsSpace(s[|s| - 1])
    requires OneLineOnly(line)
    ensures s == line <==> Lines(s) == [line]
  {
    LineEndIsFirstBreak(s);
    if LineEnd(s) < |s| {
      SeveralLines(s);
    } else {
      LinesOfOneLine(s);
      assert s[..|s|] == s;
      KeepTrimmed(s, s);
    }
  }

  /** What the lines alone determine. */
  function ParseLines(lines: seq<string>): Result<seq<TleRecord>, ParseError> {
    if lines == [] || TrimFirst(lines) == [NOT_FOUND] then Failure(TleNotFound)
    else if Grouped(lines) then Success(RecordsOf(lines))
    else Failure(CelestrakError)
  }

  lemma TrimmedGroups(lines: seq<string>)
    ensures Grouped(TrimFirst(lines)) == Grouped(lines)
    ensures RecordsOf(TrimFirst(lines)) == RecordsOf(lines)
  {
    if |lines| >= 3 {
      assert TrimFirst(lines)[3..] == lines[3..];
      StripLStrip(lines[0]);
    }
  }

  lemma LinesOfStripped(body: string)
    ensures Strip(body) == "" <==> Lines(body) == []
    ensures Lines(Strip(body)) == TrimFirst(Lines(body))
  {
    var text := Strip(body);
    StripTwice(body);
    LinesOfRStrip(body);
    LinesOfLStrip(RStrip(body));
    if text != "" {
      FirstLineOf(text);
    }
  }

  /** The parser depends only on the right-trimmed non-blank lines of the whole body; it rejects
      them, or takes all of them in threes. */
  lemma ParseReadsLines(body: string)
    ensures Parse(body) == ParseLines(Lines(body))
    ensures Parse(body).Success? ==> |Lines(body)| == 3 * |Parse(body).value|
  {
    var text := Strip(body);
    StripTwice(body);
    LinesOfStripped(body);
    TrimmedGroups(Lines(body));
    NotFoundIsOneLine();
    if text != "" {
      OneLine(text, NOT_FOUND);
    }
    if Grouped(Lines(body)) {
      GroupedInThrees(Lines(body));
    }
  }

  lemma {:induction false} StripLStrip(s: string)
    ensures Strip(LStrip(s)) == Strip(s)
  {
    if s != "" && IsSpace(s[0]) {
      StripLStrip(s[1..]);
      if Blank(s[1..]) {
        StripTwice(s);
        StripTwice(s[1..]);
        assert s == [s[0]] + s[1..];
      } else {
        assert s == [s[0]] + s[1..];
        RStripCons(s[0], s[1..]);
        assert ([s[0]] + RStrip(s[1..]))[1..] == RStrip(s[1..]);
      }
    }
  }

  // The round trip.

  predicate WellFormed(r: TleRecord) {
    && r.name != "" && Strip(r.name) == r.name && OneLineOnly(r.name)
    && StartsWith(r.line1, "1 ") && RStrip(r.line1) == r.line1 && OneLineOnly(r.line1)
    && StartsWith(r.line2, "2 ") && RStrip(r.line2) == r.line2 && OneLineOnly(r.line2)
  }

  predicate AllWellFormed(records: seq<TleRecord>) {
    forall i :: 0 <= i < |records| ==> WellFormed(records[i])
  }

  /** CelesTrak pads the name to 24 characters and ends every line with CR LF. */
  function Pad(name: string, spaces: nat): string {
    if spaces == 0 then name else Pad(name, spaces - 1) + [' ']
  }

  function PadTo24(name: string): string {
    Pad(name, if |name| < 24 then 24 - |name| else 0)
  }

  function Render(records: seq<TleRecord>): string {
    if records == [] then ""
    else
      var r := records[0];
      PadTo24(r.name) + "\r\n" + (r.line1 + "\r\n" + (r.line2 + "\r\n" + Render(records[1..])))
  }

  lemma {:induction false} LineEndOf(line: string, rest: string)
    requires OneLineOnly(line)
    ensures LineEnd(line + "\r\n" + rest) == |line|
  {
    if line == "" {
      assert line + "\r\n" + rest == "\r\n" + rest;
    } else {
      assert (line + "\r\n" + rest)[1..] == line[1..] + "\r\n" + rest;
      LineEndOf(line[1..], rest);
    }
  }

  lemma LinesOfKept(line: string, trimmed: string, rest: string)
    requires OneLineOnly(line) && RStrip(line) == trimmed && trimmed != ""
    ensures Lines(line + "\r\n" + rest) == [trimmed] + Lines(rest)
  {
    var s := line + "\r\n" + rest;
    LineEndOf(line, rest);
    LinesUnfold(s);
    assert s[..|line|] == line && s[|line| + 2..] == rest;
    assert s[|line|] == '\r' && s[|line| + 1] == '\n';
    KeepTrimmed(line, trimmed);
  }

  lemma {:induction false} PadStrips(name: string, spaces: nat)
    requires OneLineOnly(name)
    ensures OneLineOnly(Pad(name, spaces)) && RStrip(Pad(name, spaces)) == RStrip(name)
  {
    if spaces > 0 {
      PadStrips(name, spaces - 1);
      assert Pad(name, spaces)[..|Pad(name, spaces)| - 1] == Pad(name, spaces - 1);
    }
  }

  lemma NameLine(r: TleRecord)
    requires WellFormed(r)
    ensures OneLineOnly(PadTo24(r.name)) && RStrip(PadTo24(r.name)) == r.name
  {
    StripTwice(r.name);
    PadStrips(r.name, if |r.name| < 24 then 24 - |r.name| else 0);
  }

  lemma TwoLines(line1: string, line2: string, rest: string)
    requires OneLineOnly(line1) && RStrip(line1) == line1 && line1 != ""
    requires OneLineOnly(line2) && RStrip(line2) == line2 && line2 != ""
    ensures Lines(line1 + "\r\n" + (line2 + "\r\n" + rest)) == [line1, line2] + Lines(rest)
  {
    LinesOfKept(line2, line2, rest);
    LinesOfKept(line1, line1, line2 + "\r\n" + rest);
  }

  lemma ThreeLines(name: string, trimmed: string, line1: string, line2: string, rest: string)
    requires OneLineOnly(name) && RStrip(name) == trimmed && trimmed != ""
    requires OneLineOnly(line1) && RStrip(line1) == line1 && line1 != ""
    requires OneLineOnly(line2) && RStrip(line2) == line2 && line2 != ""
    ensures Lines(name + "\r\n" + (line1 + "\r\n" + (line2 + "\r\n" + rest))) == [trimmed, line1, line2] + Lines(rest)
  {
    TwoLines(line1, line2, rest);
    LinesOfKept(name, trimmed, line1 + "\r\n" + (line2 + "\r\n" + rest));
  }

  lemma {:induction false} RenderedGroups(records: seq<TleRecord>)
    requires AllWellFormed(records)
    ensures Grouped(Lines(Render(records))) && RecordsOf(Lines(Render(records))) == records
  {
    if records != [] {
      var r, rest := records[0], Render(records[1..]);
      NameLine(r);
      ThreeLines(PadTo24(r.name), r.name, r.line1, r.line2, rest);
      RenderedGroups(records[1..]);
      assert ([r.name, r.line1, r.line2] + Lines(rest))[3..] == Lines(rest);
    }
  }

  /** Parsing a rendered list gives it back. */
  lemma RenderedParses(records: seq<TleRecord>)
    requires records != [] && AllWellFormed(records)
    ensures Parse(Render(records)) == Success(records)
  {
    RenderedGroups(records);
    ParseReadsLines(Render(records));
    GroupedInThrees(Lines(Render(records)));
  }

  lemma {:induction false} RecordAt(lines: seq<string>, k: nat)
    requires Grouped(lines) && k < |RecordsOf(lines)|
    ensures 3 * k + 2 < |lines|
    ensures RecordsOf(lines)[k] == TleRecord(Strip(lines[3 * k]), lines[3 * k + 1], lines[3 * k + 2])
    ensures StartsWith(lines[3 * k + 1], "1 ") && StartsWith(lines[3 * k + 2], "2 ")
  {
    if k > 0 { RecordAt(lines[3..], k - 1); }
  }

  lemma RStripTwice(s: string)
    ensures RStrip(RStrip(s)) == RStrip(s)
    ensures OneLineOnly(s) ==> OneLineOnly(RStrip(s))
    ensures !Blank(s) ==> !Blank(RStrip(s))
  {
    RStripEnds(s);
    RStripEnds(RStrip(s));
  }

  lemma {:induction false} LinesAreTrimmed(s: string, k: nat)
    requires k < |Lines(s)|
    ensures Lines(s)[k] != "" && RStrip(Lines(s)[k]) == Lines(s)[k] && OneLineOnly(Lines(s)[k])
    ensures !Blank(Lines(s)[k])
    decreases |s|
  {
    LinesUnfold(s);
    var line := s[..LineEnd(s)];
    var kept := Keep(line);
    if k < |kept| {
      LineEndIsFirstBreak(s);
      RStripEnds(line);
      RStripTwice(line);
    } else {
      LinesAreTrimmed(AfterLine(s), k - |kept|);
    }
  }

  lemma {:induction false} StripKeepsLine(s: string)
    requires OneLineOnly(s)
    ensures OneLineOnly(Strip(s))
  {
    RStripEnds(s);
    LStripStarts(RStrip(s));
  }

  /** Whatever the parser accepts is a non-empty list of well-formed records. */
  lemma ParsedIsWellFormed(body: string)
    requires Parse(body).Success?
    ensures Parse(body).value != [] && AllWellFormed(Parse(body).value)
  {
    ParseReadsLines(body);
    var lines, records := Lines(body), Parse(body).value;
    forall k | 0 <= k < |records| ensures WellFormed(records[k]) {
      RecordAt(lines, k);
      LinesAreTrimmed(body, 3 * k);
      LinesAreTrimmed(body, 3 * k + 1);
      LinesAreTrimmed(body, 3 * k + 2);
      StripTwice(lines[3 * k]);
      StripKeepsLine(lines[3 * k]);
    }
  }

  /** A list survives rendering and parsing exactly when it is not empty and well formed. */
  lemma RoundTripIff(records: seq<TleRecord>)
    ensures Parse(Render(records)) == Success(records) <==> records != [] && AllWellFormed(records)
  {
    if records != [] && AllWellFormed(records) {
      RenderedParses(records);
    } else if Parse(Render(records)) == Success(records) {
      ParsedIsWellFormed(Render(records));
    }
  }

  /** Parsing loses nothing but layout: rendering what was read and reading it again gives the
      same records. */
  lemma ParseIsStable(body: string)
    requires Parse(body).Success?
    ensures Parse(Render(Parse(body).value)) == Parse(body)
  {
    ParsedIsWellFormed(body);
    RenderedParses(Parse(body).value);
  }
}
