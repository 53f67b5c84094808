/** Whitespace trimming of `str`, for the ASCII whitespace characters, splitting into lines, and decimals. */
module Text {

  predicate IsSpace(c: char) { c == ' ' || '\t' <= c <= '\r' || '\U{1c}' <= c <= '\U{1f}' }

  function LStrip(s: string): string {
    if s != [] && IsSpace(s[0]) then LStrip(s[1..]) else s
  }

  function RStrip(s: string): string {
    if s != [] && IsSpace(s[|s| - 1]) then RStrip(s[..|s| - 1]) else s
  }

  function Strip(s: string): string { RStrip(LStrip(s)) }

  /** The ASCII characters `str.strip` takes away. */
  ghost predicate White(c: char) { c in {' ', '\t', '\n', '\U{b}', '\U{c}', '\r', '\U{1c}', '\U{1d}', '\U{1e}', '\U{1f}'} }

  ghost predicate Blank(s: string) { forall i :: 0 <= i < |s| ==> White(s[i]) }

  ghost predicate Bare(s: string) { s != "" ==> !White(s[0]) && !White(s[|s| - 1]) }

  /** Stripping takes away exactly the whitespace around. */
  lemma {:induction false} StripMeans(before: string, core: string, after: string)
    requires Blank(before) && Blank(after) && Bare(core)
    ensures Strip(before + core + after) == core
  {
    LStripMeans(before, core + after);
    assert before + core + after == before + (core + after);
    if core == "" {
      LStripMeans(after, "");
      assert after + "" == after && core + after == after;
    } else {
      assert (core + after)[0] == core[0];
      RStripMeans(core, after);
    }
  }

  /** What is stripped away, and what is left. */
  lemma {:induction false} StripParts(s: string) returns (before: string, after: string)
    ensures s == before + Strip(s) + after && Blank(before) && Blank(after) && Bare(Strip(s))
  {
    before := LStripPart(s);
    after := RStripPart(LStrip(s));
    assert before + (Strip(s) + after) == before + Strip(s) + after;
    assert Strip(s) != "" ==> LStrip(s)[0] == Strip(s)[0];
  }

  lemma {:induction false} LStripPart(s: string) returns (before: string)
    ensures s == before + LStrip(s) && Blank(before) && (LStrip(s) != "" ==> !IsSpace(LStrip(s)[0]))
  {
    before := "";
    if s != "" && IsSpace(s[0]) {
      before := LStripPart(s[1..]);
      before := [s[0]] + before;
    }
  }

  lemma {:induction false} RStripPart(s: string) returns (after: string)
    ensures s == RStrip(s) + after && Blank(after) && (RStrip(s) != "" ==> !IsSpace(RStrip(s)[|RStrip(s)| - 1]))
  {
    after := "";
    if s != "" && IsSpace(s[|s| - 1]) {
      after := RStripPart(s[..|s| - 1]);
      after := after + [s[|s| - 1]];
    }
  }

  lemma {:induction false} LStripMeans(before: string, rest: string)
    requires Blank(before)
    ensures LStrip(before + rest) == LStrip(rest)
  {
    if before == "" {
      assert before + rest == rest;
    } else {
      assert (before + rest)[1..] == before[1..] + rest;
      LStripMeans(before[1..], rest);
    }
  }

  lemma {:induction false} RStripMeans(rest: string, after: string)
    requires Blank(after)
    ensures RStrip(rest + after) == RStrip(rest)
  {
    if after == "" {
      assert rest + after == rest;
    } else {
      var n := |after| - 1;
      assert (rest + after)[..|rest| + n] == rest + after[..n] && (rest + after)[|rest| + n] == after[n];
      RStripMeans(rest, after[..n]);
    }
  }

  /** Python's `text.split("\n")`. */
  function SplitLines(text: string): (lines: seq<string>)
    ensures |lines| > 0
  {
    if text == "" then [""]
    else
      var rest := SplitLines(text[1..]);
      if text[0] == '\n' then [""] + rest else [[text[0]] + rest[0]] + rest[1..]
  }

  /** `"\n".join(lines)` */
  function JoinLines(lines: seq<string>): string {
    if lines == [] then ""
    else if |lines| == 1 then lines[0]
    else lines[0] + ['\n'] + JoinLines(lines[1..])
  }

  predicate SingleLines(lines: seq<string>) { forall i :: 0 <= i < |lines| ==> '\n' !in lines[i] }

  lemma {:induction false} JoinSplit(text: string)
    ensures JoinLines(SplitLines(text)) == text && SingleLines(SplitLines(text))
  {
    if text != "" {
      JoinSplit(text[1..]);
      var rest := SplitLines(text[1..]);
      if text[0] == '\n' {
        assert SplitLines(text)[1..] == rest;
      } else {
        assert SplitLines(text)[1..] == rest[1..];
        if |rest| > 1 { assert text == [text[0]] + (rest[0] + ['\n'] + JoinLines(rest[1..])); }
      }
    }
  }

  lemma {:induction false} SplitOne(line: string)
    requires '\n' !in line
    ensures SplitLines(line) == [line]
  {
    if line != "" {
      SplitOne(line[1..]);
      assert line[0] != '\n' && line == [line[0]] + line[1..];
    }
  }

  lemma {:induction false} SplitBreak(line: string, text: string)
    requires '\n' !in line
    ensures SplitLines(line + ['\n'] + text) == [line] + SplitLines(text)
  {
    var whole := line + ['\n'] + text;
    if line == "" {
      assert whole[1..] == text;
    } else {
      SplitBreak(line[1..], text);
      assert whole[1..] == line[1..] + ['\n'] + text;
      assert whole[0] == line[0] != '\n' && line == [line[0]] + line[1..];
    }
  }

  lemma {:induction false} SplitJoin(lines: seq<string>)
    requires lines != [] && SingleLines(lines)
    ensures SplitLines(JoinLines(lines)) == lines
  {
    if |lines| == 1 {
      SplitOne(lines[0]);
    } else {
      SplitJoin(lines[1..]);
      SplitBreak(lines[0], JoinLines(lines[1..]));
    }
  }

  lemma {:induction false} JoinEmptyLast(lines: seq<string>)
    requires lines != []
    ensures JoinLines(lines + [""]) == JoinLines(lines) + ['\n']
  {
    if |lines| > 1 {
      JoinEmptyLast(lines[1..]);
      assert (lines + [""])[1..] == lines[1..] + [""];
    } else {
      assert (lines + [""])[1..] == [""];
    }
  }

  lemma {:induction false} JoinSnoc(lines: seq<string>, line: string)
    requires lines != []
    ensures JoinLines(lines + [line]) == JoinLines(lines) + ['\n'] + line
  {
    assert (lines + [line])[1..] == lines[1..] + [line];
    if |lines| > 1 { JoinSnoc(lines[1..], line); }
  }

  predicate IsDigit(c: char) { '0' <= c <= '9' }

  function Digit(n: nat): char
    requires n < 10
  {
    '0' + n as char
  }

  /** `str(n)` */
  function Decimal(n: nat): (s: string)
    ensures s != "" && forall i :: 0 <= i < |s| ==> IsDigit(s[i])
  {
    if n < 10 then [Digit(n)] else Decimal(n / 10) + [Digit(n % 10)]
  }

  lemma {:induction false} DecimalInjective(m: nat, n: nat)
    requires Decimal(m) == Decimal(n)
    ensures m == n
  {
    var x, y := Decimal(m), Decimal(n);
    assert m >= 10 ==> |Decimal(m / 10)| >= 1;
    assert n >= 10 ==> |Decimal(n / 10)| >= 1;
    assert x[|x| - 1] == Digit(m % 10) && y[|y| - 1] == Digit(n % 10);
    assert m % 10 == n % 10;
    if m >= 10 {
      assert x[..|x| - 1] == Decimal(m / 10) && y[..|y| - 1] == Decimal(n / 10);
      DecimalInjective(m / 10, n / 10);
    }
  }
}
