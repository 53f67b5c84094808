/** WebVTT (W3C WebVTT, sections 4.1 and 6.3): the cue printer and the parser that reads its output.
    Seconds are exact numbers; the rounding to milliseconds is modelled. */
module Vtt {
  import opened Wrappers
  import opened Text

  datatype Segment = Segment(start: real, end: real, text: string)

  // ---------------------------------------------------------------- time stamps

  /** Python's `round`: to the nearest integer, ties to the even one. */
  function RoundHalfEven(x: real): int {
    var f := x.Floor;
    var d := x - f as real;
    if d < 0.5 then f else if d > 0.5 then f + 1 else if f % 2 == 0 then f else f + 1
  }

  lemma {:induction false} RoundIsNearest(x: real)
    ensures var r := RoundHalfEven(x) as real; -0.5 <= r - x <= 0.5
    ensures var r := RoundHalfEven(x); r as real - x == 0.5 || x - r as real == 0.5 ==> r % 2 == 0
  {}

  lemma {:induction false} RoundGrows(x: real, y: real)
    requires x <= y
    ensures RoundHalfEven(x) <= RoundHalfEven(y)
  {
    if x.Floor == y.Floor {} else { assert x.Floor + 1 <= y.Floor; }
  }

  function Zeros(n: nat): string { seq(n, _ => '0') }

  /** Python's `f"{n:0{width}d}"`: zeros go between the sign and the digits. */
  function Padded(n: int, width: nat): string {
    var sign := if n < 0 then "-" else "";
    var digits := Decimal(if n < 0 then -n else n);
    sign + Zeros(if |sign| + |digits| < width then width - |sign| - |digits| else 0) + digits
  }

  /** The time stamp of a whole number of milliseconds; `divmod` floors. */
  function Stamp(ms: int): string {
    var (h, restH) := (ms / 3_600_000, ms % 3_600_000);
    var (m, restM) := (restH / 60_000, restH % 60_000);
    Padded(h, 2) + [':'] + Padded(m, 2) + [':'] + Padded(restM / 1000, 2) + ['.'] + Padded(restM % 1000, 3)
  }

  function Millis(seconds: real): int { RoundHalfEven(seconds * 1000.0) }

  /** `_fmt_ts` */
  function FmtTs(seconds: real): string { Stamp(Millis(seconds)) }

  function Value(c: char): (n: nat)
    requires IsDigit(c)
    ensures n < 10
  {
    c as int - '0' as int
  }

  /** The twelve characters `dd:dd:dd.ddd`. */
  predicate IsStamp(s: string) {
    && |s| == 12 && s[2] == ':' && s[5] == ':' && s[8] == '.'
    && IsDigit(s[0]) && IsDigit(s[1]) && IsDigit(s[3]) && IsDigit(s[4]) && IsDigit(s[6]) && IsDigit(s[7])
    && IsDigit(s[9]) && IsDigit(s[10]) && IsDigit(s[11])
  }

  /** `_timestamp_seconds`, in milliseconds. */
  function StampMillis(s: string): nat
    requires IsStamp(s)
  {
    (10 * Value(s[0]) + Value(s[1])) * 3_600_000 + (10 * Value(s[3]) + Value(s[4])) * 60_000 +
    (10 * Value(s[6]) + Value(s[7])) * 1000 + 100 * Value(s[9]) + 10 * Value(s[10]) + Value(s[11])
  }

  /** The stamp that spells these numbers, digit by digit. */
  ghost predicate Spells(s: string, h: nat, m: nat, sec: nat, ms: nat) {
    && h < 100 && m < 100 && sec < 100 && ms < 1000
    && s == [Digit(h / 10), Digit(h % 10), ':', Digit(m / 10), Digit(m % 10), ':', Digit(sec / 10), Digit(sec % 10), '.',
             Digit(ms / 100), Digit(ms / 10 % 10), Digit(ms % 10)]
  }

  lemma {:induction false} TwoRead(a: char, b: char)
    requires IsDigit(a) && IsDigit(b)
    ensures var n := 10 * Value(a) + Value(b); n < 100 && Digit(n / 10) == a && Digit(n % 10) == b
  {}

  lemma {:induction false} ThreeRead(a: char, b: char, c: char)
    requires IsDigit(a) && IsDigit(b) && IsDigit(c)
    ensures var n := 100 * Value(a) + 10 * Value(b) + Value(c);
            n < 1000 && Digit(n / 100) == a && Digit(n / 10 % 10) == b && Digit(n % 10) == c
  {
    var front := 10 * Value(a) + Value(b);
    var n := 10 * front + Value(c);
    assert n / 10 == front && n % 10 == Value(c);
    assert n / 100 == front / 10;
    TwoRead(a, b);
  }

  lemma {:induction false} StampSpells(s: string) returns (h: nat, m: nat, sec: nat, ms: nat)
    requires IsStamp(s)
    ensures Spells(s, h, m, sec, ms) && StampMillis(s) == h * 3_600_000 + m * 60_000 + sec * 1000 + ms
  {
    h, m, sec := 10 * Value(s[0]) + Value(s[1]), 10 * Value(s[3]) + Value(s[4]), 10 * Value(s[6]) + Value(s[7]);
    ms := 100 * Value(s[9]) + 10 * Value(s[10]) + Value(s[11]);
    TwoRead(s[0], s[1]);
    TwoRead(s[3], s[4]);
    TwoRead(s[6], s[7]);
    ThreeRead(s[9], s[10], s[11]);
  }

  /** A stamp spells hours, minutes, seconds and milliseconds, and stands for their sum. */
  lemma {:induction false} StampMeans(s: string, v: nat)
    ensures IsStamp(s) && StampMillis(s) == v <==>
            exists h: nat, m: nat, sec: nat, ms: nat :: Spells(s, h, m, sec, ms) && v == h * 3_600_000 + m * 60_000 + sec * 1000 + ms
  {
    if IsStamp(s) { var h, m, sec, ms := StampSpells(s); }
    if h: nat, m: nat, sec: nat, ms: nat :| Spells(s, h, m, sec, ms) && v == h * 3_600_000 + m * 60_000 + sec * 1000 + ms {
      SpelledBack(s, h, m, sec, ms);
    }
  }

  lemma {:induction false} SpelledBack(s: string, h: nat, m: nat, sec: nat, ms: nat)
    requires Spells(s, h, m, sec, ms)
    ensures IsStamp(s) && StampMillis(s) == h * 3_600_000 + m * 60_000 + sec * 1000 + ms
  {
    DigitsOfTwo(h);
    DigitsOfTwo(m);
    DigitsOfTwo(sec);
    DigitsOfThree(ms);
  }

  lemma {:induction false} PadTwo(n: nat)
    requires n < 100
    ensures Padded(n, 2) == [Digit(n / 10), Digit(n % 10)]
  {
    if n < 10 { assert Zeros(1) == ['0']; assert Padded(n, 2) == "" + Zeros(1) + [Digit(n)]; }
    else { assert Decimal(n) == Decimal(n / 10) + [Digit(n % 10)] == [Digit(n / 10)] + [Digit(n % 10)]; assert Zeros(0) == ""; }
  }

  lemma {:induction false} PadThree(n: nat)
    requires n < 1000
    ensures Padded(n, 3) == [Digit(n / 100), Digit(n / 10 % 10), Digit(n % 10)]
  {
    if n < 10 { assert Zeros(2) == ['0', '0']; }
    else if n < 100 { assert Decimal(n) == [Digit(n / 10)] + [Digit(n % 10)]; assert Zeros(1) == ['0']; }
    else {
      assert Decimal(n / 10) == Decimal(n / 100) + [Digit(n / 10 % 10)];
      assert Decimal(n) == Decimal(n / 10) + [Digit(n % 10)];
      assert Decimal(n / 100) == [Digit(n / 100)];
      assert Zeros(0) == "";
    }
  }

  const LIMIT := 360_000_000

  /** The text of a stamp under 100 hours, digit by digit. */
  lemma {:induction false} StampText(h: nat, m: nat, sec: nat, ms: nat)
    requires h < 100 && m < 60 && sec < 60 && ms < 1000
    ensures Padded(h, 2) + [':'] + Padded(m, 2) + [':'] + Padded(sec, 2) + ['.'] + Padded(ms, 3) ==
            [Digit(h / 10), Digit(h % 10), ':', Digit(m / 10), Digit(m % 10), ':', Digit(sec / 10), Digit(sec % 10), '.',
             Digit(ms / 100), Digit(ms / 10 % 10), Digit(ms % 10)]
  {
    PadTwo(h);
    PadTwo(m);
    PadTwo(sec);
    PadThree(ms);
  }

  lemma {:induction false} DigitBack(n: nat)
    requires n < 10
    ensures IsDigit(Digit(n)) && Value(Digit(n)) == n
  {}

  lemma {:induction false} DigitsOfTwo(n: nat)
    requires n < 100
    ensures n / 10 < 10 && n % 10 < 10 && IsDigit(Digit(n / 10)) && IsDigit(Digit(n % 10))
    ensures 10 * Value(Digit(n / 10)) + Value(Digit(n % 10)) == n
  {
    DigitBack(n / 10);
    DigitBack(n % 10);
  }

  lemma {:induction false} DigitsOfThree(n: nat)
    requires n < 1000
    ensures n / 100 < 10 && IsDigit(Digit(n / 100)) && IsDigit(Digit(n / 10 % 10)) && IsDigit(Digit(n % 10))
    ensures 100 * Value(Digit(n / 100)) + 10 * Value(Digit(n / 10 % 10)) + Value(Digit(n % 10)) == n
  {
    DigitBack(n / 100);
    DigitBack(n / 10 % 10);
    DigitBack(n % 10);
  }

  /** A stamp under 100 hours reads back as its milliseconds: the carry is undone. */
  lemma {:induction false} StampRoundTrip(ms: nat)
    requires ms < LIMIT
    ensures IsStamp(Stamp(ms)) && StampMillis(Stamp(ms)) == ms
  {
    var h, restH := ms / 3_600_000, ms % 3_600_000;
    var m, restM := restH / 60_000, restH % 60_000;
    StampText(h, m, restM / 1000, restM % 1000);
    SpelledBack(Stamp(ms), h, m, restM / 1000, restM % 1000);
  }

  lemma {:induction false} DecimalLength(n: nat)
    ensures n >= 100 ==> |Decimal(n)| >= 3
    ensures n >= 10 ==> |Decimal(n)| >= 2
  {
    if n >= 10 { DecimalLength(n / 10); }
  }

  /** A stamp from 100 hours on, or of a negative time, does not start like a parsable one. */
  lemma {:induction false} StampTooLong(ms: int)
    requires ms < 0 || ms >= LIMIT
    ensures |Stamp(ms)| >= 3 && (ms < 0 ==> Stamp(ms)[0] == '-') && (ms >= LIMIT ==> IsDigit(Stamp(ms)[2]))
  {
    var h := ms / 3_600_000;
    if ms < 0 {
      assert h < 0;
    } else {
      assert h >= 100;
      DecimalLength(h);
      assert Padded(h, 2) == "" + Zeros(0) + Decimal(h);
      assert Zeros(0) == "";
      assert Padded(h, 2) == Decimal(h);
    }
  }

  // ---------------------------------------------------------------- the printer

  /** The lines of one cue; a segment without text has none. */
  function CueLines(seg: Segment): seq<string> {
    var text := Strip(seg.text);
    if text == "" then [] else [TimingLine(seg), text, ""]
  }

  const WEBVTT: string := "WEBVTT"
  const ARROW: string := " --> "

  function TimingLine(seg: Segment): string { FmtTs(seg.start) + ARROW + FmtTs(seg.end) }

  lemma {:induction false} Associative<T>(a: seq<T>, b: seq<T>, c: seq<T>)
    ensures (a + b) + c == a + (b + c)
  {}

  method AppendCue(lines: seq<string>, seg: Segment) returns (r: seq<string>)
    ensures r == lines + CueLines(seg)
  {
    var text := Strip(seg.text);
    if text == "" { return lines; }
    r := lines + [FmtTs(seg.start) + ARROW + FmtTs(seg.end)];
    r := r + [text];
    r := r + [""];
  }

  method AppendCues(first: seq<string>, segs: seq<Segment>) returns (lines: seq<string>)
    ensures lines == first + FlatMap(CueLines, segs)
  {
    lines := first;
    for i := 0 to |segs|
      invariant lines == first + FlatMap(CueLines, segs[..i])
    {
      FlatMapSnoc(CueLines, segs, i);
      Associative(first, FlatMap(CueLines, segs[..i]), CueLines(segs[i]));
      lines := AppendCue(lines, segs[i]);
    }
    assert segs[..|segs|] == segs;
  }

  /** `_to_vtt` */
  method ToVtt(segs: seq<Segment>) returns (r: string)
    ensures r == Printed(segs)
  {
    var lines := AppendCues([WEBVTT, ""], segs);
    r := JoinLines(lines);
  }

  function Printed(segs: seq<Segment>): string { JoinLines([WEBVTT, ""] + FlatMap(CueLines, segs)) }

  lemma {:induction false} CueJoined(head: seq<string>, line: string, text: string)
    requires head != []
    ensures JoinLines(head + [line, text, ""]) == JoinLines(head) + "\n" + line + "\n" + text + "\n"
  {
    assert head + [line, text, ""] == ((head + [line]) + [text]) + [""];
    JoinSnoc(head, line);
    JoinSnoc(head + [line], text);
    JoinSnoc((head + [line]) + [text], "");
  }

  lemma {:induction false} LinesSnoc(segs: seq<Segment>, seg: Segment)
    ensures [WEBVTT, ""] + FlatMap(CueLines, segs + [seg]) == ([WEBVTT, ""] + FlatMap(CueLines, segs)) + CueLines(seg)
  {
    FlatMapConcat(CueLines, segs, [seg]);
    FlatMapHead(CueLines, [seg]);
  }

  lemma {:induction false} HeaderMeans()
    ensures Printed([]) == "WEBVTT\n"
  {
    assert [WEBVTT, ""] + [] == [WEBVTT, ""];
    JoinSnoc([WEBVTT], "");
  }

  /** The file is a header, and a blank line and two lines a segment with text. */
  lemma {:induction false} PrintedMeans(segs: seq<Segment>, seg: Segment)
    ensures Printed([]) == "WEBVTT\n"
    ensures Printed(segs + [seg]) ==
            if Strip(seg.text) == "" then Printed(segs)
            else Printed(segs) + "\n" + (FmtTs(seg.start) + " --> " + FmtTs(seg.end)) + "\n" + Strip(seg.text) + "\n"
  {
    HeaderMeans();
    LinesSnoc(segs, seg);
    var head := [WEBVTT, ""] + FlatMap(CueLines, segs);
    if Strip(seg.text) == "" { assert head + [] == head; } else { CueJoined(head, TimingLine(seg), Strip(seg.text)); }
  }

  // ---------------------------------------------------------------- the parser

  /** Where `str.splitlines` breaks. */
  predicate IsBreak(c: char) {
    c == '\n' || c == '\r' || c == '\U{b}' || c == '\U{c}' || '\U{1c}' <= c <= '\U{1e}' || c == '\U{85}' || c == '\U{2028}' || c == '\U{2029}'
  }

  predicate OneLine(s: string) { forall i :: 0 <= i < |s| ==> !IsBreak(s[i]) }

  /** The pieces between line breaks. (`splitlines` makes no piece at the end and takes a CR LF as one
      break, but empty pieces are dropped anyway.) */
  function Pieces(s: string): (ps: seq<string>)
    ensures |ps| > 0
  {
    if s == "" then [""]
    else
      var rest := Pieces(s[1..]);
      if IsBreak(s[0]) then [""] + rest else [[s[0]] + rest[0]] + rest[1..]
  }

  /** `[line.strip() for line in block.splitlines() if line.strip()]` */
  function Trimmed(pieces: seq<string>): seq<string> {
    if pieces == [] then []
    else (if Strip(pieces[0]) == "" then [] else [Strip(pieces[0])]) + Trimmed(pieces[1..])
  }

  function BlockLines(block: string): seq<string> { Trimmed(Pieces(block)) }

  /** `text.split("\n\n")` */
  function Blocks(s: string): (bs: seq<string>)
    ensures |bs| > 0
    decreases |s|
  {
    if s == "" then [""]
    else if |s| >= 2 && s[0] == s[1] == '\n' then [""] + Blocks(s[2..])
    else
      var rest := Blocks(s[1..]);
      [[s[0]] + rest[0]] + rest[1..]
  }

  predicate ArrowAt(line: string, i: nat) { i + 3 <= |line| && line[i..i + 3] == "-->" }

  predicate HasArrow(line: string) { exists i: nat :: i <= |line| && ArrowAt(line, i) }

  /** `"-->" in line` */
  lemma {:induction false} ArrowMeans(line: string)
    ensures HasArrow(line) <==> exists a: string, b: string :: line == a + "-->" + b
  {
    if i: nat :| i <= |line| && ArrowAt(line, i) {
      assert line == line[..i] + "-->" + line[i + 3..];
    }
    if a: string, b: string :| line == a + "-->" + b {
      assert line[|a|..|a| + 3] == "-->";
      assert ArrowAt(line, |a|);
    }
  }

  /** One or more whitespace characters dropped, or nothing. */
  function Gap(s: string): Option<string> { if s != "" && IsSpace(s[0]) then Some(LStrip(s)) else None }

  function ReadStamp(s: string): Option<(nat, string)> {
    if |s| >= 12 && IsStamp(s[..12]) then Some((StampMillis(s[..12]), s[12..])) else None
  }

  /** `_VTT_TIMING.fullmatch`: the two stamps of a timing line, in milliseconds. */
  function MatchTiming(line: string): Option<(nat, nat)> {
    var first := ReadStamp(line);
    if first.None? then None
    else
      var second := MatchEnd(first.value.1);
      if second.None? then None else Some((first.value.0, second.value))
  }

  /** The rest of the pattern, from the gap before the arrow. */
  function MatchEnd(s: string): Option<nat> {
    var gap := Gap(s);
    if gap.None? || |gap.value| < 3 || gap.value[..3] != "-->" then None
    else
      var gap2 := Gap(gap.value[3..]);
      if gap2.None? then None
      else
        var second := ReadStamp(gap2.value);
        if second.None? || (second.value.1 != "" && !IsSpace(second.value.1[0])) then None else Some(second.value.0)
  }

  /** Index of the first line with an arrow, or the number of lines. */
  function TimingIndex(lines: seq<string>): (i: nat)
    ensures i <= |lines| && (i < |lines| ==> HasArrow(lines[i])) && forall k :: 0 <= k < i ==> !HasArrow(lines[k])
  {
    if lines == [] || HasArrow(lines[0]) then 0 else 1 + TimingIndex(lines[1..])
  }

  function JoinSpaces(lines: seq<string>): string {
    if lines == [] then "" else if |lines| == 1 then lines[0] else lines[0] + " " + JoinSpaces(lines[1..])
  }

  datatype Row = Row(startMs: nat, endMs: nat, text: string)

  /** What one block yields. */
  function RowOf(block: string): Option<Row> {
    var lines := BlockLines(block);
    var i := TimingIndex(lines);
    if i == |lines| then None
    else
      var m := MatchTiming(lines[i]);
      var text := Strip(JoinSpaces(lines[i + 1..]));
      if m.None? || text == "" then None else Some(Row(m.value.0, m.value.1, text))
  }

  function RowList(block: string): seq<Row> { if RowOf(block).Some? then [RowOf(block).value] else [] }

  function FlatMap<A, B>(f: A -> seq<B>, s: seq<A>): seq<B> {
    if s == [] then [] else f(s[0]) + FlatMap(f, s[1..])
  }

  function RowsOf(blocks: seq<string>): seq<Row> { FlatMap(RowList, blocks) }

  function Parsed(data: string): seq<Row> { RowsOf(Blocks(OnlyLf(data))) }

  datatype Unit = Unit(id: string, start: real, end: real, text: string)

  /** `_number_units` */
  function Number(rows: seq<Row>): (us: seq<Unit>)
    ensures |us| == |rows|
    ensures forall k :: 0 <= k < |rows| ==>
              us[k] == Unit(['u'] + Padded(k + 1, 5), rows[k].startMs as real / 1000.0, rows[k].endMs as real / 1000.0, rows[k].text)
  {
    seq(|rows|, k requires 0 <= k < |rows| =>
      Unit(['u'] + Padded(k + 1, 5), rows[k].startMs as real / 1000.0, rows[k].endMs as real / 1000.0, rows[k].text))
  }

  /** `text.replace("\r\n", "\n")` */
  function OnlyLf(s: string): string {
    if s == "" then ""
    else if |s| >= 2 && s[0] == '\r' && s[1] == '\n' then ['\n'] + OnlyLf(s[2..])
    else [s[0]] + OnlyLf(s[1..])
  }

  lemma {:induction false} FlatMapConcat<A, B>(f: A -> seq<B>, a: seq<A>, b: seq<A>)
    ensures FlatMap(f, a + b) == FlatMap(f, a) + FlatMap(f, b)
  {
    if a == [] {
      assert a + b == b;
    } else {
      var x, rest := a[0], a[1..];
      FlatMapConcat(f, rest, b);
      assert (a + b)[0] == x && (a + b)[1..] == rest + b;
      Associative(f(x), FlatMap(f, rest), FlatMap(f, b));
    }
  }

  lemma {:induction false} FlatMapSnoc<A, B>(f: A -> seq<B>, s: seq<A>, i: nat)
    requires i < |s|
    ensures FlatMap(f, s[..i + 1]) == FlatMap(f, s[..i]) + f(s[i])
  {
    assert s[..i + 1] == s[..i] + [s[i]];
    FlatMapConcat(f, s[..i], [s[i]]);
    assert FlatMap(f, [s[i]]) == f(s[i]) + FlatMap(f, []);
  }

  /** The body of the loop: the row a block yields, if any. */
  method ReadBlock(block: string) returns (r: Option<Row>)
    ensures r == RowOf(block)
  {
    var lines := BlockLines(block);
    var timing := TimingIndex(lines);
    if timing == |lines| { return None; }
    var m := MatchTiming(lines[timing]);
    if m.None? { return None; }
    var cueText := Strip(JoinSpaces(lines[timing + 1..]));
    if cueText == "" { return None; }
    return Some(Row(m.value.0, m.value.1, cueText));
  }

  /** `locator_units_from_vtt` */
  method UnitsFromVtt(data: Option<string>) returns (units: seq<Unit>)
    ensures units == if data.None? || data.value == "" then [] else Number(Parsed(data.value))
  {
    if data.None? || data.value == "" { return []; }
    var blocks := Blocks(OnlyLf(data.value));
    var rows: seq<Row> := [];
    for i := 0 to |blocks|
      invariant rows == RowsOf(blocks[..i])
    {
      FlatMapSnoc(RowList, blocks, i);
      var row := ReadBlock(blocks[i]);
      if row.Some? { rows := rows + [row.value]; }
    }
    assert blocks[..|blocks|] == blocks;
    return Number(rows);
  }

  // ---------------------------------------------------------------- trimming

  lemma {:induction false} LStripEnds(s: string)
    ensures LStrip(s) != "" ==> !IsSpace(LStrip(s)[0])
    ensures exists n: nat :: n <= |s| && LStrip(s) == s[n..]
  {
    if s != "" && IsSpace(s[0]) {
      LStripEnds(s[1..]);
      var n: nat :| n <= |s[1..]| && LStrip(s[1..]) == s[1..][n..];
      assert s[n + 1..] == s[1..][n..];
    } else {
      assert s[0..] == s;
    }
  }

  lemma {:induction false} RStripEnds(s: string)
    ensures RStrip(s) != "" ==> !IsSpace(RStrip(s)[|RStrip(s)| - 1])
    ensures |RStrip(s)| <= |s| && RStrip(s) == s[..|RStrip(s)|]
  {
    if s != "" && IsSpace(s[|s| - 1]) { RStripEnds(s[..|s| - 1]); }
  }

  /** No whitespace at the ends: what `strip` leaves, and leaves alone. */
  predicate Tight(s: string) { s != "" && !IsSpace(s[0]) && !IsSpace(s[|s| - 1]) }

  lemma {:induction false} StripTight(s: string)
    ensures Strip(s) != "" ==> Tight(Strip(s))
  {
    LStripEnds(s);
    RStripEnds(LStrip(s));
  }

  lemma {:induction false} TightStrip(s: string)
    requires Tight(s)
    ensures Strip(s) == s
  {}

  // ---------------------------------------------------------------- characters of a stamp

  predicate StampChar(c: char) { IsDigit(c) || c == '-' || c == ':' || c == '.' }

  ghost predicate AllStampChars(s: string) { forall i :: 0 <= i < |s| ==> StampChar(s[i]) }

  lemma {:induction false} PaddedChars(n: int, width: nat)
    ensures AllStampChars(Padded(n, width)) && Padded(n, width) != ""
  {}

  lemma {:induction false} StampChars(ms: int)
    ensures AllStampChars(Stamp(ms)) && Stamp(ms) != ""
  {
    var (h, restH) := (ms / 3_600_000, ms % 3_600_000);
    var (m, restM) := (restH / 60_000, restH % 60_000);
    PaddedChars(h, 2);
    PaddedChars(m, 2);
    PaddedChars(restM / 1000, 2);
    PaddedChars(restM % 1000, 3);
  }

  /** The timing line, from its two stamps. */
  function Timing(a: string, b: string): string { a + ARROW + b }

  lemma {:induction false} TimingShape(a: string, b: string)
    requires AllStampChars(a) && AllStampChars(b) && a != "" && b != ""
    ensures OneLine(Timing(a, b)) && Tight(Timing(a, b)) && HasArrow(Timing(a, b))
  {
    var line := Timing(a, b);
    forall i | 0 <= i < |line| ensures !IsBreak(line[i]) {
      if i < |a| { assert line[i] == a[i]; }
      else if i < |a| + 5 { assert line[i] == ARROW[i - |a|]; }
      else { assert line[i] == b[i - |a| - 5]; }
    }
    assert line[0] == a[0] && line[|line| - 1] == b[|b| - 1];
    assert line[|a| + 1..|a| + 4] == "-->";
    assert ArrowAt(line, |a| + 1);
  }

  // ---------------------------------------------------------------- one timing line

  predicate InRange(ms: int) { 0 <= ms < LIMIT }

  lemma {:induction false} ReadStampBack(ms: int, rest: string)
    requires rest == "" || rest[0] == ' '
    ensures ReadStamp(Stamp(ms) + rest) == if InRange(ms) then Some((ms as nat, rest)) else None
  {
    var s := Stamp(ms) + rest;
    if InRange(ms) {
      StampRoundTrip(ms);
      assert s[..12] == Stamp(ms) && s[12..] == rest;
    } else {
      StampTooLong(ms);
      assert s[0] == Stamp(ms)[0] && s[2] == Stamp(ms)[2];
    }
  }

  lemma {:induction false} GapSpace(c: string)
    requires c != "" && !IsSpace(c[0])
    ensures Gap([' '] + c) == Some(c)
  {
    assert ([' '] + c)[1..] == c;
    assert LStrip([' '] + c) == LStrip(c) == c;
  }

  lemma {:induction false} EndBack(b: int)
    ensures MatchEnd([' '] + ("-->" + ([' '] + Stamp(b)))) == if InRange(b) then Some(b as nat) else None
  {
    var second := [' '] + Stamp(b);
    var arrow := "-->" + second;
    StampChars(b);
    GapSpace(arrow);
    assert arrow[..3] == "-->" && arrow[3..] == second;
    GapSpace(Stamp(b));
    ReadStampBack(b, "");
    assert Stamp(b) + "" == Stamp(b);
  }

  /** A printed timing line is read back when both times are in range, and not at all otherwise. */
  lemma {:induction false} TimingBack(a: int, b: int)
    ensures MatchTiming(Timing(Stamp(a), Stamp(b))) == if InRange(a) && InRange(b) then Some((a as nat, b as nat)) else None
  {
    ReadStampBack(a, [' '] + ("-->" + ([' '] + Stamp(b))));
    EndBack(b);
    TimingParts(Stamp(a), Stamp(b));
  }

  lemma {:induction false} TimingParts(a: string, b: string)
    ensures var rest := [' '] + ("-->" + ([' '] + b));
            ReadStamp(a + rest).None? || ReadStamp(a + rest).value.1 == rest ==>
            MatchTiming(Timing(a, b)) ==
            if ReadStamp(a + rest).None? || MatchEnd(rest).None? then None else Some((ReadStamp(a + rest).value.0, MatchEnd(rest).value))
  {
    assert Timing(a, b) == a + ([' '] + ("-->" + ([' '] + b)));
  }

  /** The line is two stamps with an arrow between them and whitespace around it; whatever follows
      whitespace after the second stamp is settings. */
  ghost predicate IsTiming(line: string, first: string, gap: string, gap2: string, second: string, settings: string) {
    && line == first + (gap + ("-->" + (gap2 + (second + settings))))
    && IsStamp(first) && IsStamp(second) && gap != "" && gap2 != "" && Blank(gap) && Blank(gap2)
    && (settings == "" || IsSpace(settings[0]))
  }

  lemma {:induction false} GapMeans(gap: string, rest: string)
    requires Blank(gap) && gap != "" && rest != "" && !IsSpace(rest[0])
    ensures Gap(gap + rest) == Some(rest)
  {
    LStripMeans(gap, rest);
  }

  lemma {:induction false} TimingIsRead(line: string, first: string, gap: string, gap2: string, second: string, settings: string)
    requires IsTiming(line, first, gap, gap2, second, settings)
    ensures MatchTiming(line) == Some((StampMillis(first), StampMillis(second)))
  {
    var end := second + settings;
    var tail := "-->" + (gap2 + end);
    assert line[..12] == first && line[12..] == gap + tail;
    GapMeans(gap, tail);
    assert tail[..3] == "-->" && tail[3..] == gap2 + end;
    GapMeans(gap2, end);
    assert end[..12] == second && end[12..] == settings;
  }

  /** A line is read as a timing line exactly if it is one, and as its two stamps. */
  lemma {:induction false} TimingMeans(line: string, a: nat, b: nat)
    ensures MatchTiming(line) == Some((a, b)) <==>
            exists first, gap, gap2, second, settings ::
              IsTiming(line, first, gap, gap2, second, settings) && StampMillis(first) == a && StampMillis(second) == b
  {
    if first, gap, gap2, second, settings :|
      IsTiming(line, first, gap, gap2, second, settings) && StampMillis(first) == a && StampMillis(second) == b {
      TimingIsRead(line, first, gap, gap2, second, settings);
    }
    if MatchTiming(line) == Some((a, b)) {
      var first, afterFirst := line[..12], line[12..];
      var gap := LStripPart(afterFirst);
      var arrow := LStrip(afterFirst);
      var gap2 := LStripPart(arrow[3..]);
      var end := LStrip(arrow[3..]);
      var second, settings := end[..12], end[12..];
      assert arrow == "-->" + arrow[3..] && end == second + settings;
      assert line == first + afterFirst && gap != "" && gap2 != "";
      assert IsTiming(line, first, gap, gap2, second, settings);
    }
  }

  // ---------------------------------------------------------------- one cue

  lemma {:induction false} PiecesOne(line: string)
    requires OneLine(line)
    ensures Pieces(line) == [line]
  {
    if line != "" {
      PiecesOne(line[1..]);
      assert line == [line[0]] + line[1..];
    }
  }

  lemma {:induction false} PiecesBreak(line: string, rest: string)
    requires OneLine(line)
    ensures Pieces(line + (['\n'] + rest)) == [line] + Pieces(rest)
  {
    var s := line + (['\n'] + rest);
    if line == "" {
      assert s[1..] == rest;
    } else {
      PiecesBreak(line[1..], rest);
      assert s[1..] == line[1..] + (['\n'] + rest);
      assert line == [line[0]] + line[1..];
    }
  }

  lemma {:induction false} PiecesEnd(s: string)
    ensures Pieces(s + ['\n']) == Pieces(s) + [""]
  {
    if s == "" {
      assert (s + ['\n'])[1..] == "";
    } else {
      PiecesEnd(s[1..]);
      assert (s + ['\n'])[1..] == s[1..] + ['\n'];
    }
  }

  lemma {:induction false} TrimmedEnd(pieces: seq<string>)
    ensures Trimmed(pieces + [""]) == Trimmed(pieces)
  {
    if pieces == [] {
      assert ([] + [""])[1..] == [];
    } else {
      TrimmedEnd(pieces[1..]);
      assert (pieces + [""])[1..] == pieces[1..] + [""];
    }
  }

  /** A line break at its end changes nothing in a block. */
  lemma {:induction false} RowListEnd(block: string)
    ensures RowList(block + ['\n']) == RowList(block)
  {
    PiecesEnd(block);
    TrimmedEnd(Pieces(block));
  }

  function Cue(a: string, b: string, text: string): string { Timing(a, b) + (['\n'] + text) }

  /** The first paragraph of a cue is read as its timing line and the paragraph's lines, joined by spaces. */
  lemma {:induction false} CueBack(a: int, b: int, head: string)
    ensures var text := Strip(JoinSpaces(BlockLines(head)));
            RowList(Cue(Stamp(a), Stamp(b), head)) == if InRange(a) && InRange(b) && text != "" then [Row(a, b, text)] else []
  {
    var line := Timing(Stamp(a), Stamp(b));
    StampChars(a);
    StampChars(b);
    TimingShape(Stamp(a), Stamp(b));
    PiecesBreak(line, head);
    TrimmedFirst(line, Pieces(head));
    TimingBack(a, b);
    assert ([line] + BlockLines(head))[1..] == BlockLines(head);
  }

  lemma {:induction false} TrimmedFirst(line: string, pieces: seq<string>)
    requires Tight(line)
    ensures Trimmed([line] + pieces) == [line] + Trimmed(pieces)
  {
    TightStrip(line);
    assert ([line] + pieces)[1..] == pieces;
  }

  lemma {:induction false} HeaderIsNoCue()
    ensures RowList(WEBVTT) == []
  {
    PiecesOne(WEBVTT);
    TightStrip(WEBVTT);
    forall i: nat ensures !ArrowAt(WEBVTT, i) {
      if i + 3 <= |WEBVTT| { assert WEBVTT[i..i + 3][0] == WEBVTT[i] != '-'; }
    }
    assert [WEBVTT][1..] == [];
    assert BlockLines(WEBVTT) == [WEBVTT];
  }

  // ---------------------------------------------------------------- the whole file

  /** Some text that does not end in a line break. */
  predicate Closed(a: string) { a != "" && a[|a| - 1] != '\n' }

  /** A character put before the first block. */
  function Push(c: char, bs: seq<string>): seq<string>
    requires bs != []
  {
    [[c] + bs[0]] + bs[1..]
  }

  lemma {:induction false} BlocksPush(c: char, s: string)
    requires !(c == '\n' && s != "" && s[0] == '\n')
    ensures Blocks([c] + s) == Push(c, Blocks(s))
  {
    assert ([c] + s)[1..] == s;
  }

  lemma {:induction false} BlocksBreak(s: string)
    ensures Blocks(['\n', '\n'] + s) == [""] + Blocks(s)
  {
    assert (['\n', '\n'] + s)[2..] == s;
  }

  lemma {:induction false} PushConcat(c: char, x: seq<string>, y: seq<string>)
    requires x != []
    ensures Push(c, x + y) == Push(c, x) + y
  {}

  lemma {:induction false} BlocksOneChar(c: char)
    ensures Blocks([c]) == [[c]]
  {
    BlocksPush(c, "");
    assert [c] + "" == [c];
  }

  lemma {:induction false} BlocksGap(a: string, b: string)
    requires Closed(a)
    ensures Blocks(a + (['\n', '\n'] + b)) == Blocks(a) + Blocks(b)
    decreases |a|
  {
    var gap := ['\n', '\n'] + b;
    if |a| > 1 && a[0] == a[1] == '\n' {
      var t := a[2..];
      assert a == ['\n', '\n'] + t && a + gap == ['\n', '\n'] + (t + gap);
      BlocksGap(t, b);
      BlocksBreak(t);
      BlocksBreak(t + gap);
    } else {
      var t := a[1..];
      assert a == [a[0]] + t && a + gap == [a[0]] + (t + gap);
      BlocksPush(a[0], t);
      BlocksPush(a[0], t + gap);
      if t == "" {
        assert t + gap == gap;
        BlocksBreak(b);
        PushConcat(a[0], [""], Blocks(b));
      } else {
        BlocksGap(t, b);
        PushConcat(a[0], Blocks(t), Blocks(b));
      }
    }
  }

  /** A line break put after the last block. */
  function Shut(bs: seq<string>): seq<string>
    requires bs != []
  {
    bs[..|bs| - 1] + [bs[|bs| - 1] + ['\n']]
  }

  lemma {:induction false} ShutPush(c: char, bs: seq<string>)
    requires bs != []
    ensures Shut(Push(c, bs)) == Push(c, Shut(bs))
  {
    if |bs| == 1 { assert ([c] + bs[0]) + ['\n'] == [c] + (bs[0] + ['\n']); }
  }

  lemma {:induction false} ShutFirst(b: string, bs: seq<string>)
    requires bs != []
    ensures Shut([b] + bs) == [b] + Shut(bs)
  {}

  lemma {:induction false} BlocksEnd(a: string)
    requires Closed(a)
    ensures Blocks(a + ['\n']) == Shut(Blocks(a))
    decreases |a|
  {
    if |a| == 1 {
      BlocksPush(a[0], ['\n']);
      BlocksOneChar('\n');
      BlocksOneChar(a[0]);
      assert a == [a[0]];
    } else if a[0] == a[1] == '\n' {
      var t := a[2..];
      assert a == ['\n', '\n'] + t && a + ['\n'] == ['\n', '\n'] + (t + ['\n']);
      BlocksEnd(t);
      BlocksBreak(t);
      BlocksBreak(t + ['\n']);
      ShutFirst("", Blocks(t));
    } else {
      var t := a[1..];
      assert a == [a[0]] + t && a + ['\n'] == [a[0]] + (t + ['\n']);
      BlocksEnd(t);
      BlocksPush(a[0], t);
      BlocksPush(a[0], t + ['\n']);
      ShutPush(a[0], Blocks(t));
    }
  }

  /** A line before some text joins the text's first paragraph. */
  lemma {:induction false} BlocksLine(line: string, text: string)
    requires line != "" && (forall i :: 0 <= i < |line| ==> line[i] != '\n') && text != "" && text[0] != '\n'
    ensures Blocks(line + (['\n'] + text)) == [line + (['\n'] + Blocks(text)[0])] + Blocks(text)[1..]
  {
    var t, rest := line[1..], ['\n'] + text;
    assert line == [line[0]] + t && line + rest == [line[0]] + (t + rest);
    BlocksPush(line[0], t + rest);
    if t == "" {
      assert t + rest == rest;
      BlocksPush('\n', text);
    } else {
      BlocksLine(t, text);
    }
    Associate([line[0]], t, ['\n'] + Blocks(text)[0]);
  }

  /** What follows a block's text in the printed file. */
  function Tail(segs: seq<Segment>): string {
    if segs == [] then ['\n']
    else if Strip(segs[0].text) == "" then Tail(segs[1..])
    else ['\n', '\n'] + (CueOf(segs[0]) + Tail(segs[1..]))
  }

  function CueOf(seg: Segment): string { Cue(FmtTs(seg.start), FmtTs(seg.end), Strip(seg.text)) }

  lemma {:induction false} JoinStep(a: string, lines: seq<string>)
    requires lines != []
    ensures JoinLines([a] + lines) == a + (['\n'] + JoinLines(lines))
  {
    assert ([a] + lines)[1..] == lines;
  }

  lemma {:induction false} FlatMapHead<A, B>(f: A -> seq<B>, s: seq<A>)
    requires s != []
    ensures FlatMap(f, s) == f(s[0]) + FlatMap(f, s[1..])
  {}

  lemma {:induction false} PrintedTail(a: string, segs: seq<Segment>)
    ensures JoinLines([a, ""] + FlatMap(CueLines, segs)) == a + Tail(segs)
    decreases |segs|
  {
    if segs == [] {
      assert [a, ""] + [] == [a] + [""];
      JoinStep(a, [""]);
    } else {
      var rest := FlatMap(CueLines, segs[1..]);
      FlatMapHead(CueLines, segs);
      if Strip(segs[0].text) == "" {
        PrintedTail(a, segs[1..]);
        assert [] + rest == rest;
      } else {
        PrintedTail(Strip(segs[0].text), segs[1..]);
        PrintedCue(a, TimingLine(segs[0]), Strip(segs[0].text), rest, Tail(segs[1..]));
      }
    }
  }

  lemma {:induction false} PrintedCue(a: string, line: string, text: string, rest: seq<string>, tail: string)
    requires JoinLines([text, ""] + rest) == text + tail
    ensures JoinLines([a, ""] + ([line, text, ""] + rest)) == a + (['\n', '\n'] + ((line + (['\n'] + text)) + tail))
  {
    JoinCue(a, line, text, rest);
    Reassociate(a, line, text, tail);
  }

  lemma {:induction false} Reassociate(a: string, line: string, text: string, tail: string)
    ensures a + (['\n'] + ("" + (['\n'] + (line + (['\n'] + (text + tail)))))) == a + (['\n', '\n'] + ((line + (['\n'] + text)) + tail))
  {
    assert line + (['\n'] + (text + tail)) == (line + (['\n'] + text)) + tail;
    assert "" + (['\n'] + ((line + (['\n'] + text)) + tail)) == ['\n'] + ((line + (['\n'] + text)) + tail);
    assert ['\n'] + (['\n'] + ((line + (['\n'] + text)) + tail)) == ['\n', '\n'] + ((line + (['\n'] + text)) + tail);
  }

  lemma {:induction false} JoinCue(a: string, line: string, text: string, rest: seq<string>)
    ensures JoinLines([a, ""] + ([line, text, ""] + rest)) ==
            a + (['\n'] + ("" + (['\n'] + (line + (['\n'] + JoinLines([text, ""] + rest))))))
  {
    var tail := [text, ""] + rest;
    assert [a, ""] + ([line, text, ""] + rest) == [a] + ([""] + ([line] + tail));
    JoinStep(a, [""] + ([line] + tail));
    JoinStep("", [line] + tail);
    JoinStep(line, tail);
  }

  // ---------------------------------------------------------------- what a segment comes back as

  /** The paragraphs of a trimmed text, as the parser splits them. */
  function Paragraphs(text: string): (ps: seq<string>)
    ensures |ps| > 0
  {
    Blocks(OnlyLf(text))
  }

  /** The first paragraph's lines, joined by spaces. */
  function CueText(text: string): string { Strip(JoinSpaces(BlockLines(Paragraphs(text)[0]))) }

  /** A segment comes back when it has text and both its times round into the first 100 hours. */
  predicate ComesBack(seg: Segment) {
    CueText(Strip(seg.text)) != "" && InRange(Millis(seg.start)) && InRange(Millis(seg.end))
  }

  function OwnRow(seg: Segment): seq<Row> {
    if ComesBack(seg) then [Row(Millis(seg.start), Millis(seg.end), CueText(Strip(seg.text)))] else []
  }

  /** What the parser makes of later paragraphs, which may look like cues. */
  function StrayRows(seg: Segment): seq<Row> { RowsOf(Paragraphs(Strip(seg.text))[1..]) }

  function Back(seg: Segment): seq<Row> { OwnRow(seg) + StrayRows(seg) }

  lemma {:induction false} OnlyLfStep(c: char, s: string)
    requires !(c == '\r' && s != "" && s[0] == '\n')
    ensures OnlyLf([c] + s) == [c] + OnlyLf(s)
  {
    assert ([c] + s)[1..] == s;
  }

  lemma {:induction false} OnlyLfBreak(s: string)
    ensures OnlyLf(['\r', '\n'] + s) == ['\n'] + OnlyLf(s)
  {
    assert (['\r', '\n'] + s)[2..] == s;
  }

  lemma {:induction false} Associate<T>(a: seq<T>, b: seq<T>, c: seq<T>)
    ensures (a + b) + c == a + (b + c)
  {}

  lemma {:induction false} OnlyLfConcat(a: string, b: string)
    requires a != "" ==> a[|a| - 1] != '\r'
    ensures OnlyLf(a + b) == OnlyLf(a) + OnlyLf(b)
    decreases |a|
  {
    if a == "" {
      assert a + b == b;
    } else if |a| >= 2 && a[0] == '\r' && a[1] == '\n' {
      var t := a[2..];
      assert a == ['\r', '\n'] + t;
      OnlyLfConcat(t, b);
      OnlyLfBreak(t);
      OnlyLfBreak(t + b);
      Associate(['\r', '\n'], t, b);
      Associate(['\n'], OnlyLf(t), OnlyLf(b));
    } else {
      var t := a[1..];
      assert a == [a[0]] + t;
      OnlyLfConcat(t, b);
      OnlyLfStep(a[0], t);
      OnlyLfStep(a[0], t + b);
      Associate([a[0]], t, b);
      Associate([a[0]], OnlyLf(t), OnlyLf(b));
    }
  }

  lemma {:induction false} OnlyLfSame(s: string)
    requires forall i :: 0 <= i < |s| ==> s[i] != '\r'
    ensures OnlyLf(s) == s
  {
    if s != "" {
      OnlyLfSame(s[1..]);
      assert s == [s[0]] + s[1..];
    }
  }

  lemma {:induction false} OnlyLfEnds(s: string)
    requires s != "" && s[|s| - 1] != '\r'
    ensures OnlyLf(s) != "" && OnlyLf(s)[|OnlyLf(s)| - 1] == s[|s| - 1]
    ensures s[0] != '\r' ==> OnlyLf(s)[0] == s[0]
    decreases |s|
  {
    if |s| > 2 && s[0] == '\r' && s[1] == '\n' { OnlyLfEnds(s[2..]); }
    else if |s| > 1 && !(s[0] == '\r' && s[1] == '\n') { OnlyLfEnds(s[1..]); }
  }

  /** The cue as the parser sees it, with its line breaks unified. */
  function CueLf(seg: Segment): string { Cue(FmtTs(seg.start), FmtTs(seg.end), OnlyLf(Strip(seg.text))) }

  function TailLf(segs: seq<Segment>): string {
    if segs == [] then ['\n']
    else if Strip(segs[0].text) == "" then TailLf(segs[1..])
    else ['\n', '\n'] + (CueLf(segs[0]) + TailLf(segs[1..]))
  }

  lemma {:induction false} LineOfSegment(seg: Segment)
    ensures OneLine(TimingLine(seg)) && Tight(TimingLine(seg)) && TimingLine(seg) == Timing(FmtTs(seg.start), FmtTs(seg.end))
  {
    StampChars(Millis(seg.start));
    StampChars(Millis(seg.end));
    TimingShape(FmtTs(seg.start), FmtTs(seg.end));
  }

  lemma {:induction false} CueUnified(seg: Segment)
    requires Strip(seg.text) != ""
    ensures OnlyLf(CueOf(seg)) == CueLf(seg)
  {
    var line, text := TimingLine(seg), Strip(seg.text);
    LineOfSegment(seg);
    LineUnified(line, text);
  }

  lemma {:induction false} LineUnified(line: string, text: string)
    requires OneLine(line)
    ensures OnlyLf(line + (['\n'] + text)) == line + (['\n'] + OnlyLf(text))
  {
    var head := line + ['\n'];
    OnlyLfSame(head);
    OnlyLfConcat(head, text);
    Associate(line, ['\n'], text);
    Associate(line, ['\n'], OnlyLf(text));
  }

  lemma {:induction false} CueEnds(seg: Segment)
    requires Strip(seg.text) != ""
    ensures Closed(CueOf(seg)) && CueOf(seg)[|CueOf(seg)| - 1] != '\r'
  {
    StripTight(seg.text);
    LastChar(Timing(FmtTs(seg.start), FmtTs(seg.end)) + ['\n'], Strip(seg.text));
    Associate(Timing(FmtTs(seg.start), FmtTs(seg.end)), ['\n'], Strip(seg.text));
  }

  lemma {:induction false} LastChar(a: string, b: string)
    requires b != ""
    ensures (a + b)[|a + b| - 1] == b[|b| - 1]
  {}

  lemma {:induction false} CueClosed(seg: Segment)
    requires Strip(seg.text) != ""
    ensures Closed(CueLf(seg)) && OnlyLf(Strip(seg.text)) != "" && OnlyLf(Strip(seg.text))[0] != '\n'
  {
    var text := Strip(seg.text);
    StripTight(seg.text);
    OnlyLfEnds(text);
    assert CueLf(seg)[|CueLf(seg)| - 1] == OnlyLf(text)[|OnlyLf(text)| - 1];
  }

  lemma {:induction false} GapUnified(seg: Segment, rest: string)
    requires Strip(seg.text) != ""
    ensures OnlyLf(['\n', '\n'] + (CueOf(seg) + rest)) == ['\n', '\n'] + (CueLf(seg) + OnlyLf(rest))
  {
    CueUnified(seg);
    CueEnds(seg);
    OnlyLfConcat(CueOf(seg), rest);
    OnlyLfSame(['\n', '\n']);
    OnlyLfConcat(['\n', '\n'], CueOf(seg) + rest);
  }

  lemma {:induction false} TailUnified(segs: seq<Segment>)
    ensures OnlyLf(Tail(segs)) == TailLf(segs)
  {
    if segs == [] {
      OnlyLfSame(['\n']);
    } else {
      TailUnified(segs[1..]);
      if Strip(segs[0].text) != "" { GapUnified(segs[0], Tail(segs[1..])); }
    }
  }

  /** One cue is read as its segment's rows. */
  lemma {:induction false} CueRows(seg: Segment)
    requires Strip(seg.text) != ""
    ensures RowsOf(Blocks(CueLf(seg))) == Back(seg)
  {
    var ps := Paragraphs(Strip(seg.text));
    var first := Cue(FmtTs(seg.start), FmtTs(seg.end), ps[0]);
    CueClosed(seg);
    LineOfSegment(seg);
    BlocksLine(TimingLine(seg), OnlyLf(Strip(seg.text)));
    assert Blocks(CueLf(seg)) == [first] + ps[1..];
    FlatMapHead(RowList, [first] + ps[1..]);
    assert ([first] + ps[1..])[1..] == ps[1..];
    CueBack(Millis(seg.start), Millis(seg.end), ps[0]);
  }

  lemma {:induction false} NothingBack(seg: Segment)
    requires Strip(seg.text) == ""
    ensures Back(seg) == []
  {
    assert Paragraphs("") == [""] && [""][1..] == [];
    assert BlockLines("") == [] by { assert Pieces("") == [""] && [""][1..] == []; }
  }

  lemma {:induction false} TailEnd(a: string)
    requires Closed(a)
    ensures RowsOf(Blocks(a + ['\n'])) == RowsOf(Blocks(a))
  {
    var bs := Blocks(a);
    BlocksEnd(a);
    RowListEnd(bs[|bs| - 1]);
    Unsnoc(bs);
    LastRow(bs[..|bs| - 1], bs[|bs| - 1], bs[|bs| - 1] + ['\n']);
  }

  lemma {:induction false} Unsnoc<T>(s: seq<T>)
    requires s != []
    ensures s[..|s| - 1] + [s[|s| - 1]] == s
  {}

  lemma {:induction false} LastRow(bs: seq<string>, b: string, b': string)
    requires RowList(b) == RowList(b')
    ensures RowsOf(bs + [b]) == RowsOf(bs + [b'])
  {
    FlatMapConcat(RowList, bs, [b]);
    FlatMapConcat(RowList, bs, [b']);
    RowsOfOne(b);
    RowsOfOne(b');
  }

  lemma {:induction false} TailStep(a: string, rest: string)
    requires Closed(a)
    ensures RowsOf(Blocks(a + (['\n', '\n'] + rest))) == RowsOf(Blocks(a)) + RowsOf(Blocks(rest))
  {
    BlocksGap(a, rest);
    FlatMapConcat(RowList, Blocks(a), Blocks(rest));
  }

  lemma {:induction false} TailBack(a: string, segs: seq<Segment>)
    requires Closed(a)
    ensures RowsOf(Blocks(a + TailLf(segs))) == RowsOf(Blocks(a)) + FlatMap(Back, segs)
    decreases |segs|
  {
    if segs == [] {
      TailEnd(a);
    } else {
      FlatMapHead(Back, segs);
      if Strip(segs[0].text) == "" {
        TailBack(a, segs[1..]);
        NothingBack(segs[0]);
        assert [] + FlatMap(Back, segs[1..]) == FlatMap(Back, segs[1..]);
      } else {
        CueClosed(segs[0]);
        TailBack(CueLf(segs[0]), segs[1..]);
        CueRows(segs[0]);
        TailStep(a, CueLf(segs[0]) + TailLf(segs[1..]));
      }
    }
  }

  lemma {:induction false} HeaderRows()
    ensures RowsOf(Blocks(WEBVTT)) == [] && Closed(WEBVTT)
  {
    forall i | 0 <= i < |WEBVTT| ensures WEBVTT[i] != '\n' {}
    ParagraphIsOne(WEBVTT);
    HeaderIsNoCue();
    RowsOfOne(WEBVTT);
  }

  lemma {:induction false} RowsOfOne(b: string)
    ensures RowsOf([b]) == RowList(b)
  {
    FlatMapHead(RowList, [b]);
  }

  /** Main result: parsing a printed file yields, segment by segment, a row for every segment that has
      text and times in the first 100 hours, with the lines of its first paragraph and the rounded
      times; then whatever its later paragraphs look like; and nothing else. */
  lemma {:induction false} RoundTrip(segs: seq<Segment>)
    ensures Parsed(Printed(segs)) == FlatMap(Back, segs)
  {
    PrintedTail(WEBVTT, segs);
    OnlyLfSame(WEBVTT);
    OnlyLfConcat(WEBVTT, Tail(segs));
    TailUnified(segs);
    HeaderRows();
    TailBack(WEBVTT, segs);
  }

  /** No empty line inside. */
  ghost predicate NoGap(a: string) { forall i, j :: 0 <= i && i + 1 == j < |a| ==> !(a[i] == '\n' && a[j] == '\n') }

  lemma {:induction false} ParagraphIsOne(a: string)
    requires NoGap(a)
    ensures Blocks(a) == [a]
  {
    if a != "" {
      var t := a[1..];
      forall i, j | 0 <= i && i + 1 == j < |t| ensures !(t[i] == '\n' && t[j] == '\n') { assert t[i] == a[i + 1] && t[j] == a[j + 1]; }
      ParagraphIsOne(t);
      assert a == [a[0]] + t;
      assert [a[0]] + t == a;
    }
  }

  /** A text of one paragraph comes back as one row, or not at all. */
  lemma {:induction false} OneParagraph(seg: Segment)
    requires NoGap(OnlyLf(Strip(seg.text)))
    ensures StrayRows(seg) == [] && Back(seg) == OwnRow(seg)
  {
    ParagraphIsOne(OnlyLf(Strip(seg.text)));
    assert [OnlyLf(Strip(seg.text))][1..] == [];
  }

  /** And a text of one line comes back as it is, trimmed. */
  lemma {:induction false} OneLineBack(seg: Segment)
    requires OneLine(Strip(seg.text))
    ensures CueText(Strip(seg.text)) == Strip(seg.text) && StrayRows(seg) == []
  {
    var text := Strip(seg.text);
    OnlyLfSame(text);
    OneParagraph(seg);
    ParagraphIsOne(text);
    PiecesOne(text);
    if text == "" {
      NothingBack(seg);
    } else {
      StripTight(seg.text);
      TightStrip(text);
      assert [text][1..] == [];
      assert Trimmed([text]) == [text] + Trimmed([]);
    }
  }

  /** The text with its line breaks, those of `str.splitlines`, turned into spaces. */
  ghost function Spaced(s: string): string {
    seq(|s|, i requires 0 <= i < |s| =>
      if s[i] in {'\n', '\r', '\U{b}', '\U{c}', '\U{1c}', '\U{1d}', '\U{1e}', '\U{85}', '\U{2028}', '\U{2029}'} then ' ' else s[i])
  }

  lemma {:induction false} PiecesSpaced(s: string)
    ensures JoinSpaces(Pieces(s)) == Spaced(s)
  {
    if s != "" {
      var rest := Pieces(s[1..]);
      PiecesSpaced(s[1..]);
      assert Spaced(s) == [if IsBreak(s[0]) then ' ' else s[0]] + Spaced(s[1..]);
      JoinSpacesHead(s[0], rest);
    }
  }

  lemma {:induction false} JoinSpacesHead(c: char, rest: seq<string>)
    requires rest != []
    ensures JoinSpaces([""] + rest) == [' '] + JoinSpaces(rest)
    ensures JoinSpaces([[c] + rest[0]] + rest[1..]) == [c] + JoinSpaces(rest)
  {
    assert ([""] + rest)[1..] == rest;
    assert ([[c] + rest[0]] + rest[1..])[1..] == rest[1..];
  }

  ghost predicate AllTight(pieces: seq<string>) { forall i :: 0 <= i < |pieces| ==> Tight(pieces[i]) }

  lemma {:induction false} TightTrimmed(pieces: seq<string>)
    requires AllTight(pieces)
    ensures Trimmed(pieces) == pieces
  {
    if pieces != [] {
      TightTrimmed(pieces[1..]);
      TightStrip(pieces[0]);
    }
  }

  /** Between two line breaks side by side there is an empty piece. */
  lemma {:induction false} EmptyPiece(s: string, i: nat)
    requires i + 1 < |s| && IsBreak(s[i]) && IsBreak(s[i + 1])
    ensures exists k :: 1 <= k < |Pieces(s)| && Pieces(s)[k] == ""
  {
    var rest := Pieces(s[1..]);
    if i == 0 {
      assert Pieces(s)[1] == rest[0] == "";
    } else {
      EmptyPiece(s[1..], i - 1);
      var k :| 1 <= k < |rest| && rest[k] == "";
      assert Pieces(s)[if IsBreak(s[0]) then k + 1 else k] == rest[k];
    }
  }

  lemma {:induction false} OnlyLfKeeps(s: string)
    requires forall i, j :: 0 <= i && i + 1 == j < |s| ==> !(s[i] == '\r' && s[j] == '\n')
    ensures OnlyLf(s) == s
  {
    if s != "" {
      var t := s[1..];
      forall i, j | 0 <= i && i + 1 == j < |t| ensures !(t[i] == '\r' && t[j] == '\n') { assert t[i] == s[i + 1] && t[j] == s[j + 1]; }
      OnlyLfKeeps(t);
      assert s == [s[0]] + t;
    }
  }

  lemma {:induction false} OnePlainParagraph(text: string)
    requires AllTight(Pieces(text))
    ensures OnlyLf(text) == text && NoGap(text) && Paragraphs(text) == [text]
  {
    forall i, j | 0 <= i && i + 1 == j < |text| ensures !(IsBreak(text[i]) && IsBreak(text[j])) {
      if IsBreak(text[i]) && IsBreak(text[j]) { EmptyPiece(text, i); }
    }
    OnlyLfKeeps(text);
    ParagraphIsOne(text);
  }

  lemma {:induction false} SpacedTight(text: string)
    requires Tight(text) && !IsBreak(text[0]) && !IsBreak(text[|text| - 1])
    ensures Strip(Spaced(text)) == Spaced(text)
  {
    TightStrip(Spaced(text));
  }

  lemma {:induction false} BreaksInside(s: string)
    requires s != "" && AllTight(Pieces(s))
    ensures !IsBreak(s[0]) && !IsBreak(s[|s| - 1])
  {
    PieceEnds(s);
  }

  lemma {:induction false} PieceEnds(s: string)
    requires s != ""
    ensures IsBreak(s[0]) ==> Pieces(s)[0] == ""
    ensures IsBreak(s[|s| - 1]) ==> |Pieces(s)| > 1 && Pieces(s)[|Pieces(s)| - 1] == ""
  {
    if |s| == 1 { assert Pieces(s[1..]) == [""]; } else { PieceEnds(s[1..]); }
  }

  /** A text of several lines, none of them blank or padded, comes back with its line breaks turned into spaces. */
  lemma {:induction false} LinesBack(seg: Segment)
    requires AllTight(Pieces(Strip(seg.text)))
    ensures CueText(Strip(seg.text)) == Spaced(Strip(seg.text)) && StrayRows(seg) == []
  {
    var text := Strip(seg.text);
    assert text != "" by { assert Pieces("")[0] == ""; }
    StripTight(seg.text);
    OnePlainParagraph(text);
    OneParagraph(seg);
    TightTrimmed(Pieces(text));
    PiecesSpaced(text);
    BreaksInside(text);
    SpacedTight(text);
  }

  /** So no unit is lost exactly when every segment has text and its times are in range. */
  lemma {:induction false} AllComeBack(segs: seq<Segment>)
    ensures |FlatMap(OwnRow, segs)| <= |segs|
    ensures |FlatMap(OwnRow, segs)| == |segs| <==> forall i :: 0 <= i < |segs| ==> ComesBack(segs[i])
    ensures |FlatMap(OwnRow, segs)| == |segs| ==> forall i :: 0 <= i < |segs| ==> [FlatMap(OwnRow, segs)[i]] == OwnRow(segs[i])
  {
    if segs != [] {
      AllComeBack(segs[1..]);
      FlatMapHead(OwnRow, segs);
      if |FlatMap(OwnRow, segs)| == |segs| {
        forall i | 0 <= i < |segs| ensures [FlatMap(OwnRow, segs)[i]] == OwnRow(segs[i]) {
          if i > 0 { assert segs[i] == segs[1..][i - 1]; }
        }
      }
      if forall i :: 0 <= i < |segs| ==> ComesBack(segs[i]) {
        forall i | 0 <= i < |segs[1..]| ensures ComesBack(segs[1..][i]) { assert segs[1..][i] == segs[i + 1]; }
      }
    }
  }

  /** Cues that come back are in the order of their times if the segments were. */
  lemma {:induction false} RoundingKeepsOrder(a: Segment, b: Segment)
    requires a.start <= b.start && a.end <= b.end
    ensures Millis(a.start) <= Millis(b.start) && Millis(a.end) <= Millis(b.end)
  {
    RoundGrows(a.start * 1000.0, b.start * 1000.0);
    RoundGrows(a.end * 1000.0, b.end * 1000.0);
  }
}
