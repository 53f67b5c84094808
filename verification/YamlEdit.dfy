/** The line-level editor of feed YAML files: where it inserts, and what the insertion means to an
    indentation reader. Lines are strings; a document is the forest its indentation spells. */
module YamlEdit {
  import opened Wrappers
  import opened Text
  import opened YamlTree

  // ---------------------------------------------------------------- text and lines

  /** `_split`: the lines, and whether the text ended in a line break. */
  function Split(text: string): (seq<string>, bool) {
    var parts := SplitLines(text);
    if text != "" && text[|text| - 1] == '\n' then (parts[..|parts| - 1], true) else (parts, false)
  }

  /** `_join` */
  function Join(lines: seq<string>, trailing: bool): string {
    JoinLines(lines) + if trailing then ['\n'] else ""
  }

  // ---------------------------------------------------------------- one line

  /** How many whitespace characters a line starts with; `lstrip` drops exactly those. */
  function Lead(line: string): (n: nat)
    ensures n <= |line|
  {
    if line != "" && IsSpace(line[0]) then 1 + Lead(line[1..]) else 0
  }

  function Indent(line: string): string { line[..Lead(line)] }

  predicate Blank(line: string) { Lead(line) == |line| }

  /** Neither blank nor a comment. */
  predicate Content(line: string) { !Blank(line) && line[Lead(line)] != '#' }

  predicate Spaces(s: string) { forall i :: 0 <= i < |s| ==> s[i] == ' ' }

  /** Whitespace of any kind. */
  predicate Pad(s: string) { forall i :: 0 <= i < |s| ==> IsSpace(s[i]) }

  function Stripped(line: string): string { RStrip(line[Lead(line)..]) }

  /** A list item line: a dash alone, or followed by a space. */
  predicate Dash(line: string) {
    !Blank(line) && line[Lead(line)] == '-' && (Lead(line) + 1 < |line| ==> line[Lead(line) + 1] == ' ')
  }

  lemma {:induction false} LeadIs(line: string, n: nat)
    requires n <= |line| && (forall i :: 0 <= i < n ==> IsSpace(line[i])) && (n < |line| ==> !IsSpace(line[n]))
    ensures Lead(line) == n
  {
    if n > 0 { LeadIs(line[1..], n - 1); }
  }

  lemma {:induction false} LeadSpaces(line: string)
    ensures forall i :: 0 <= i < Lead(line) ==> IsSpace(line[i])
    ensures !Blank(line) ==> !IsSpace(line[Lead(line)])
  {
    if line != "" && IsSpace(line[0]) {
      LeadSpaces(line[1..]);
      forall i | 0 <= i < Lead(line) ensures IsSpace(line[i]) {
        if i > 0 { assert line[i] == line[1..][i - 1]; }
      }
    }
  }

  lemma {:induction false} RStripTail(a: string, b: string)
    requires b != "" && !IsSpace(b[0])
    ensures RStrip(a + b) == a + RStrip(b)
    decreases |b|
  {
    var n := |b| - 1;
    if IsSpace(b[n]) {
      RStripTail(a, b[..n]);
      assert (a + b)[..|a + b| - 1] == a + b[..n];
    }
  }

  lemma {:induction false} LeadEnds(line: string)
    requires !Blank(line)
    ensures !IsSpace(line[Lead(line)])
  {
    LeadSpaces(line);
  }

  lemma {:induction false} RStripFrom(line: string, n: nat)
    requires n < |line| && !IsSpace(line[n])
    ensures RStrip(line) == line[..n] + RStrip(line[n..])
    ensures RStrip(line[n..]) != "" && RStrip(line[n..])[0] == line[n]
  {
    RStripTail(line[..n], line[n..]);
    assert line[..n] + line[n..] == line;
    RStripHead(line[n..]);
  }

  lemma {:induction false} LineParts(line: string)
    requires !Blank(line)
    ensures RStrip(line) == Indent(line) + Stripped(line)
    ensures Stripped(line) != "" && Stripped(line)[0] == line[Lead(line)]
  {
    LeadEnds(line);
    RStripFrom(line, Lead(line));
  }

  lemma {:induction false} RStripHead(s: string)
    requires s != "" && !IsSpace(s[0])
    ensures RStrip(s) != "" && RStrip(s)[0] == s[0]
  {
    if IsSpace(s[|s| - 1]) { RStripHead(s[..|s| - 1]); }
  }

  // ---------------------------------------------------------------- what an indentation reader sees

  function EntryOf(line: string): Entry {
    Entry(2 * Lead(line) + (if Dash(line) then 1 else 0), Stripped(line))
  }

  function Seen(line: string): seq<Entry> { if Content(line) then [EntryOf(line)] else [] }

  function Entries(lines: seq<string>): seq<Entry> {
    if lines == [] then [] else Seen(lines[0]) + Entries(lines[1..])
  }

  lemma {:induction false} EntriesConcat(a: seq<string>, b: seq<string>)
    ensures Entries(a + b) == Entries(a) + Entries(b)
  {
    if a == [] {
      assert a + b == b;
    } else {
      EntriesConcat(a[1..], b);
      assert (a + b)[1..] == a[1..] + b && (a + b)[0] == a[0];
    }
  }

  /** Every entry is one of the content lines. */
  lemma {:induction false} EntryIsLine(lines: seq<string>, k: nat)
    requires k < |Entries(lines)|
    ensures exists i :: 0 <= i < |lines| && Content(lines[i]) && EntryOf(lines[i]) == Entries(lines)[k]
  {
    var first := if Content(lines[0]) then 1 else 0;
    if k >= first {
      EntryIsLine(lines[1..], k - first);
      var i :| 0 <= i < |lines[1..]| && Content(lines[1..][i]) && EntryOf(lines[1..][i]) == Entries(lines[1..])[k - first];
      assert lines[i + 1] == lines[1..][i];
    }
  }

  function Document(lines: seq<string>): seq<Node> { Forest(Entries(lines)) }

  predicate Indented(lines: seq<string>) { forall i :: 0 <= i < |lines| && Content(lines[i]) ==> Spaces(Indent(lines[i])) }

  /** The reader accepts the lines: indented by spaces only, from column 0, siblings in one column. */
  ghost predicate Readable(lines: seq<string>) {
    Indented(lines) && Uniform(Document(lines)) && (Document(lines) != [] ==> Document(lines)[0].column == 0)
  }

  // ---------------------------------------------------------------- where a block ends

  function Head(indent: string, key: string): string { indent + key + ":" }

  /** The first line in `[lo, hi)` that reads `text` up to trailing whitespace. */
  ghost predicate FirstLine(lines: seq<string>, lo: nat, hi: nat, text: string, at: nat) {
    lo <= at < hi <= |lines| && RStrip(lines[at]) == text && NoLine(lines, lo, at, text)
  }

  ghost predicate NoLine(lines: seq<string>, lo: nat, hi: nat, text: string)
    requires hi <= |lines|
  {
    forall i :: lo <= i < hi ==> RStrip(lines[i]) != text
  }

  ghost predicate BlankRun(lines: seq<string>, lo: nat, hi: nat)
    requires hi <= |lines|
  {
    forall i :: lo <= i < hi ==> Blank(lines[i])
  }

  /** All filled lines in `[lo, hi)` are indented by more than `bound`. */
  ghost predicate Inside(lines: seq<string>, lo: nat, hi: nat, bound: nat)
    requires hi <= |lines|
  {
    forall i :: lo <= i < hi && !Blank(lines[i]) ==> Lead(lines[i]) > bound
  }

  ghost predicate StopsAt(lines: seq<string>, last: nat, stop: nat, limit: nat, bound: nat)
    requires limit <= |lines|
  {
    last <= stop <= limit && BlankRun(lines, last, stop) && (stop < limit ==> !Blank(lines[stop]) && Lead(lines[stop]) <= bound)
  }

  /** `last` is one past the last filled line of the run that starts at `lo` and is indented by more
      than `bound`: blank lines at its end are left out. */
  ghost predicate RunsTo(lines: seq<string>, lo: nat, limit: nat, bound: nat, last: nat) {
    && lo <= last <= limit <= |lines|
    && Inside(lines, lo, last, bound)
    && (last > lo ==> !Blank(lines[last - 1]))
    && exists stop :: StopsAt(lines, last, stop, limit, bound)
  }

  function FirstFilled(lines: seq<string>, i: nat): (n: nat)
    requires i <= |lines|
    ensures i <= n <= |lines| && (forall k :: i <= k < n ==> Blank(lines[k])) && (n < |lines| ==> !Blank(lines[n]))
    decreases |lines| - i
  {
    if i < |lines| && Blank(lines[i]) then FirstFilled(lines, i + 1) else i
  }

  datatype Outcome<+T> = Ok(value: T) | NoBlock | EmptyBlock | Inline

  datatype Block = Block(header: nat, end: nat, indent: string)

  ghost predicate IsBlock(lines: seq<string>, key: string, b: Block) {
    && FirstLine(lines, 0, |lines|, Head("", key), b.header)
    && RunsTo(lines, b.header + 1, |lines|, 0, b.end)
    && b.header + 1 < b.end
    && b.indent == Indent(lines[FirstFilled(lines, b.header + 1)])
  }

  ghost predicate IsEmptyBlock(lines: seq<string>, key: string, header: nat) {
    FirstLine(lines, 0, |lines|, Head("", key), header) && RunsTo(lines, header + 1, |lines|, 0, header + 1)
  }

  /** `_block_bounds` */
  method BlockBounds(lines: seq<string>, key: string) returns (r: Outcome<Block>)
    ensures !r.Inline?
    ensures r.Ok? ==> IsBlock(lines, key, r.value)
    ensures r.NoBlock? ==> NoLine(lines, 0, |lines|, Head("", key))
    ensures r.EmptyBlock? ==> exists h :: IsEmptyBlock(lines, key, h)
  {
    var header := 0;
    while header < |lines| && RStrip(lines[header]) != Head("", key)
      invariant header <= |lines| && NoLine(lines, 0, header, Head("", key))
    {
      header := header + 1;
    }
    if header == |lines| { return NoBlock; }
    var end, indent := header + 1, "";
    var i := header + 1;
    while i < |lines|
      invariant header + 1 <= end <= i <= |lines|
      invariant Inside(lines, header + 1, end, 0) && (end > header + 1 ==> !Blank(lines[end - 1])) && BlankRun(lines, end, i)
      invariant if indent == "" then end == header + 1
                else end > header + 1 && indent == Indent(lines[FirstFilled(lines, header + 1)])
    {
      if !Blank(lines[i]) {
        if Lead(lines[i]) == 0 { break; }
        if indent == "" { indent := Indent(lines[i]); }
        end := i + 1;
      }
      i := i + 1;
    }
    assert StopsAt(lines, end, i, |lines|, 0);
    if indent == "" {
      assert IsEmptyBlock(lines, key, header);
      return EmptyBlock;
    }
    return Ok(Block(header, end, indent));
  }

  ghost predicate StartsWith(line: string, s: string) { |s| <= |line| && line[..|s|] == s }

  /** The key is there with a value on its own line. */
  ghost predicate WrittenInline(line: string, head: string) { StartsWith(line, head) && RStrip(line) != head }

  ghost predicate NoInline(lines: seq<string>, lo: nat, hi: nat, head: string)
    requires hi <= |lines|
  {
    forall i :: lo <= i < hi ==> !WrittenInline(lines[i], head)
  }

  /** A key's line in the block and the end of its items. */
  datatype Sub = Sub(at: nat, last: nat)

  ghost predicate IsSub(lines: seq<string>, b: Block, key: string, sub: Option<Sub>)
    requires b.end <= |lines|
  {
    && NoInline(lines, b.header + 1, b.end, Head(b.indent, key))
    && if sub.None? then NoLine(lines, b.header + 1, b.end, Head(b.indent, key))
       else FirstLine(lines, b.header + 1, b.end, Head(b.indent, key), sub.value.at) &&
            RunsTo(lines, sub.value.at + 1, b.end, |b.indent|, sub.value.last)
  }

  /** `_subkey_items_end`, which also says where the key is. */
  method SubkeyItemsEnd(lines: seq<string>, b: Block, key: string) returns (r: Outcome<Option<Sub>>)
    requires b.header + 1 <= b.end <= |lines|
    ensures r.Ok? || r.Inline?
    ensures r.Ok? ==> IsSub(lines, b, key, r.value)
    ensures r.Inline? ==> !NoInline(lines, b.header + 1, b.end, Head(b.indent, key))
  {
    var head := Head(b.indent, key);
    for i := b.header + 1 to b.end
      invariant NoInline(lines, b.header + 1, i, head)
    {
      if |head| <= |lines[i]| && lines[i][..|head|] == head && RStrip(lines[i]) != head { return Inline; }
    }
    var at := b.header + 1;
    while at < b.end && RStrip(lines[at]) != head
      invariant b.header + 1 <= at <= b.end && NoLine(lines, b.header + 1, at, head)
    {
      at := at + 1;
    }
    if at == b.end { return Ok(None); }
    var last, i := at + 1, at + 1;
    while i < b.end
      invariant at + 1 <= last <= i <= b.end
      invariant Inside(lines, at + 1, last, |b.indent|) && (last > at + 1 ==> !Blank(lines[last - 1])) && BlankRun(lines, last, i)
    {
      if !Blank(lines[i]) {
        if Lead(lines[i]) <= |b.indent| { break; }
        last := i + 1;
      }
      i := i + 1;
    }
    assert StopsAt(lines, last, i, b.end, |b.indent|);
    return Ok(Some(Sub(at, last)));
  }

  // ---------------------------------------------------------------- the edits

  /** One escaped character of a JSON string. */
  function Escape(c: char): string {
    if c == '\"' then ['\\', '\"']
    else if c == '\\' then ['\\', '\\']
    else if c == '\n' then ['\\', 'n']
    else if c == '\r' then ['\\', 'r']
    else if c == '\t' then ['\\', 't']
    else if c == '\U{c}' then ['\\', 'f']
    else if c == '\U{8}' then ['\\', 'b']
    else if c < ' ' then ['\\', 'u', '0', '0', HexDigit(c as int / 16), HexDigit(c as int % 16)]
    else [c]
  }

  function HexDigit(n: int): char
    requires 0 <= n < 16
  {
    if n < 10 then '0' + n as char else 'a' + (n - 10) as char
  }

  function EscapeAll(value: string): string {
    if value == "" then "" else Escape(value[0]) + EscapeAll(value[1..])
  }

  /** `_yaml_scalar` */
  function Scalar(value: string): string { ['\"'] + EscapeAll(value) + ['\"'] }

  const GUID_FIELD := "- provider_guid: "
  const BODY_FIELD := "body: "

  function AnyItem(indent: string, value: string): seq<string> { [indent + indent + ("- " + Scalar(value))] }

  function IncludeItem(indent: string, guid: string, body: string): seq<string> {
    [indent + indent + (GUID_FIELD + Scalar(guid)), indent + indent + "  " + (BODY_FIELD + Scalar(body))]
  }

  /** The lines after the splice. */
  function Edited(lines: seq<string>, b: Block, key: string, sub: Option<Sub>, item: seq<string>): seq<string>
    requires b.end <= |lines| && (sub.Some? ==> sub.value.last <= |lines|)
  {
    if sub.None? then lines[..b.end] + ([Head(b.indent, key)] + item) + lines[b.end..]
    else lines[..sub.value.last] + item + lines[sub.value.last..]
  }

  const SOURCE := "source"
  const BODY_ANY := "body_any"
  const BODY_INCLUDES := "body_includes"

  /** Why an edit of `key` is refused. */
  ghost predicate Refused(lines: seq<string>, key: string, r: Outcome<string>) {
    match r
    case Ok(_) => true
    case NoBlock => NoLine(lines, 0, |lines|, Head("", "source"))
    case EmptyBlock => exists h :: IsEmptyBlock(lines, "source", h)
    case Inline => exists b :: IsBlock(lines, "source", b) && !NoInline(lines, b.header + 1, b.end, Head(b.indent, key))
  }

  // ---------------------------------------------------------------- scalars read back

  function Prepend(c: char, s: Option<string>): Option<string> { if s.Some? then Some([c] + s.value) else None }

  predicate Hex(c: char) { '0' <= c <= '9' || 'a' <= c <= 'f' }

  function HexValue(c: char): (n: nat)
    requires Hex(c)
    ensures n < 16
  {
    if c <= '9' then c as int - '0' as int else c as int - 'a' as int + 10
  }

  /** A double-quoted scalar after its opening quote, with the escapes a JSON printer uses (RFC 8259,
      section 7, which are escapes of YAML 1.2.2, section 5.7, too). */
  function Unescape(s: string): Option<string>
    decreases |s|
  {
    if s == "" then None
    else if s[0] == '\"' then (if |s| == 1 then Some("") else None)
    else if s[0] != '\\' then Prepend(s[0], Unescape(s[1..]))
    else if |s| < 2 then None
    else match s[1]
      case '\"' => Prepend('\"', Unescape(s[2..]))
      case '\\' => Prepend('\\', Unescape(s[2..]))
      case 'n' => Prepend('\n', Unescape(s[2..]))
      case 'r' => Prepend('\r', Unescape(s[2..]))
      case 't' => Prepend('\t', Unescape(s[2..]))
      case 'f' => Prepend('\U{c}', Unescape(s[2..]))
      case 'b' => Prepend('\U{8}', Unescape(s[2..]))
      case 'u' =>
        if |s| >= 6 && s[2] == '0' && s[3] == '0' && Hex(s[4]) && Hex(s[5])
        then Prepend((16 * HexValue(s[4]) + HexValue(s[5])) as char, Unescape(s[6..]))
        else None
      case _ => None
  }

  lemma {:induction false} HexBack(n: nat)
    requires n < 16
    ensures Hex(HexDigit(n)) && HexValue(HexDigit(n)) == n
  {}

  predicate Control(c: char) { c < ' ' && !('\U{8}' <= c <= '\n') && c != '\U{c}' && c != '\r' }

  lemma {:induction false} UnescapeHex(hi: char, lo: char, rest: string)
    requires Hex(hi) && Hex(lo)
    ensures Unescape(['\\', 'u', '0', '0', hi, lo] + rest) == Prepend((16 * HexValue(hi) + HexValue(lo)) as char, Unescape(rest))
  {
    var s := ['\\', 'u', '0', '0', hi, lo] + rest;
    assert s[6..] == rest;
  }

  lemma {:induction false} UnescapeControl(c: char, rest: string)
    requires Control(c)
    ensures Unescape(Escape(c) + rest) == Prepend(c, Unescape(rest))
  {
    HexBack(c as int / 16);
    HexBack(c as int % 16);
    UnescapeHex(HexDigit(c as int / 16), HexDigit(c as int % 16), rest);
  }

  lemma {:induction false} UnescapeOne(c: char, rest: string)
    ensures Unescape(Escape(c) + rest) == Prepend(c, Unescape(rest))
  {
    if Control(c) {
      UnescapeControl(c, rest);
    } else {
      var s := Escape(c) + rest;
      assert s[|Escape(c)|..] == rest;
    }
  }

  /** No control characters. */
  ghost predicate Clean(s: string) { forall i :: 0 <= i < |s| ==> s[i] >= ' ' }

  lemma {:induction false} EscapeIsClean(c: char)
    ensures Clean(Escape(c))
  {}

  lemma {:induction false} EscapeRoundTrip(value: string)
    ensures Unescape(EscapeAll(value) + ['\"']) == Some(value)
    ensures Clean(EscapeAll(value))
  {
    if value == "" {
      assert EscapeAll(value) + ['\"'] == ['\"'];
    } else {
      EscapeRoundTrip(value[1..]);
      EscapeIsClean(value[0]);
      var rest := EscapeAll(value[1..]) + ['\"'];
      UnescapeOne(value[0], rest);
      assert EscapeAll(value) + ['\"'] == Escape(value[0]) + rest;
      assert value == [value[0]] + value[1..];
    }
  }

  /** A printed scalar has no control characters, so it is one line, and reads back as the value. */
  lemma {:induction false} ScalarRoundTrip(value: string)
    ensures Scalar(value)[0] == '\"' && Unescape(Scalar(value)[1..]) == Some(value)
    ensures Clean(Scalar(value)) && '\n' !in Scalar(value)
  {
    EscapeRoundTrip(value);
    assert Scalar(value)[1..] == EscapeAll(value) + ['\"'];
  }

  ghost predicate NeedsNoEscape(c: char) { c >= ' ' && c != '\"' && c != '\\' }

  lemma {:induction false} PlainChar(c: char)
    requires NeedsNoEscape(c)
    ensures Escape(c) == [c]
  {}

  lemma {:induction false} EscapePlain(value: string)
    requires forall i :: 0 <= i < |value| ==> NeedsNoEscape(value[i])
    ensures EscapeAll(value) == value
  {
    if value != "" {
      EscapePlain(value[1..]);
      PlainChar(value[0]);
      assert value == [value[0]] + value[1..];
    }
  }

  /** A value without quotes, backslashes and control characters is printed as it is. */
  lemma {:induction false} ScalarPlain(value: string)
    requires forall i :: 0 <= i < |value| ==> NeedsNoEscape(value[i])
    ensures Scalar(value) == "\"" + value + "\""
  {
    EscapePlain(value);
  }

  // ---------------------------------------------------------------- lines of a known shape

  predicate PlainKey(key: string) { key != "" && !IsSpace(key[0]) && key[0] != '#' && key[0] != '-' }

  /** A line that is a pad of spaces and a text without whitespace at its ends. */
  lemma {:induction false} PaddedLine(pad: string, text: string)
    requires Spaces(pad) && text != "" && !IsSpace(text[0]) && !IsSpace(text[|text| - 1])
    ensures Lead(pad + text) == |pad| && Indent(pad + text) == pad && Stripped(pad + text) == text
  {
    var line := pad + text;
    forall i | 0 <= i < |pad| ensures IsSpace(line[i]) { assert line[i] == pad[i]; }
    assert line[|pad|] == text[0];
    LeadIs(line, |pad|);
    assert line[|pad|..] == text;
  }

  lemma {:induction false} RStripPrefix(s: string)
    ensures |RStrip(s)| <= |s| && s[..|RStrip(s)|] == RStrip(s)
  {
    if s != "" && IsSpace(s[|s| - 1]) { RStripPrefix(s[..|s| - 1]); }
  }

  /** What a line that reads as a key at some indent is to the reader. */
  lemma {:induction false} HeadLine(line: string, indent: string, key: string)
    requires PlainKey(key) && Pad(indent) && RStrip(line) == Head(indent, key)
    ensures Content(line) && Lead(line) == |indent| && Indent(line) == indent
    ensures EntryOf(line) == Entry(2 * |indent|, key + ":")
  {
    var n := |indent|;
    RStripPrefix(line);
    var head := Head(indent, key);
    forall i | 0 <= i < n ensures IsSpace(line[i]) { assert line[i] == head[i] == indent[i]; }
    assert line[n] == head[n] == key[0];
    LeadIs(line, n);
    LineParts(line);
    assert line[..n] == head[..n] == indent;
    assert Stripped(line) == head[n..] == key + ":";
  }

  /** And the other way round. */
  lemma {:induction false} HeadOnly(line: string, indent: string, key: string)
    requires Content(line) && Spaces(Indent(line)) && Spaces(indent) && PlainKey(key)
    requires EntryOf(line) == Entry(2 * |indent|, key + ":")
    ensures RStrip(line) == Head(indent, key)
  {
    LineParts(line);
    assert Indent(line) == indent;
    assert indent + (key + ":") == Head(indent, key);
  }

  // ---------------------------------------------------------------- entries of parts of a file

  lemma {:induction false} EntriesAround(a: seq<string>, h: string, m: seq<string>, z: seq<string>)
    requires Content(h)
    ensures Entries(a + ([h] + (m + z))) == Entries(a) + ([EntryOf(h)] + (Entries(m) + Entries(z)))
  {
    EntriesConcat(a, [h] + (m + z));
    EntriesConcat([h], m + z);
    EntriesConcat(m, z);
    assert Entries([h]) == [EntryOf(h)];
  }

  /** All entries of lines `lo` to `hi` are deeper than `d`. */
  ghost predicate Below(lines: seq<string>, lo: nat, hi: nat, d: nat)
    requires hi <= |lines|
  {
    forall i :: lo <= i < hi && Content(lines[i]) ==> EntryOf(lines[i]).depth > d
  }

  lemma {:induction false} BelowIsDeeper(lines: seq<string>, lo: nat, hi: nat, d: nat)
    requires lo <= hi <= |lines| && Below(lines, lo, hi, d)
    ensures AllDeeper(Entries(lines[lo..hi]), d)
  {
    var es := Entries(lines[lo..hi]);
    forall k | 0 <= k < |es| ensures es[k].depth > d {
      EntryIsLine(lines[lo..hi], k);
      var i :| 0 <= i < hi - lo && Content(lines[lo..hi][i]) && EntryOf(lines[lo..hi][i]) == es[k];
      assert lines[lo..hi][i] == lines[lo + i];
    }
  }

  /** The first line from `i` on whose entry is not deeper than `d`: where a subtree of depth `d` ends. */
  ghost function TreeEnd(lines: seq<string>, i: nat, d: nat): (n: nat)
    requires i <= |lines|
    ensures i <= n <= |lines| && Below(lines, i, n, d)
    ensures n < |lines| ==> Content(lines[n]) && EntryOf(lines[n]).depth <= d
    decreases |lines| - i
  {
    if i < |lines| && (Content(lines[i]) ==> EntryOf(lines[i]).depth > d) then TreeEnd(lines, i + 1, d) else i
  }

  lemma {:induction false} StartsThere(lines: seq<string>, lo: nat, hi: nat, d: nat)
    requires lo <= hi <= |lines| && (lo < |lines| ==> Content(lines[lo]) && EntryOf(lines[lo]).depth <= d)
    ensures StartsShallow(lines[lo..hi], d)
  {
    if lo < hi { assert lines[lo..hi][0] == lines[lo]; }
  }

  /** No line before reads as the key, so no root in the key's column does. */
  lemma {:induction false} NoEarlierRoot(lines: seq<string>, lo: nat, hi: nat, indent: string, key: string)
    requires lo <= hi <= |lines| && NoLine(lines, lo, hi, Head(indent, key))
    requires Indented(lines) && Spaces(indent) && PlainKey(key)
    ensures forall k :: 0 <= k < |Document(lines[lo..hi])| && Document(lines[lo..hi])[k].column == 2 * |indent| ==>
              Document(lines[lo..hi])[k].text != key + ":"
  {
    var part := lines[lo..hi];
    var f := Document(part);
    forall k | 0 <= k < |f| && f[k].column == 2 * |indent| ensures f[k].text != key + ":" {
      RootIsEntry(Entries(part), k);
      var e :| 0 <= e < |Entries(part)| && Entries(part)[e] == Entry(f[k].column, f[k].text);
      EntryIsLine(part, e);
      var i :| 0 <= i < |part| && Content(part[i]) && EntryOf(part[i]) == Entries(part)[e];
      assert part[i] == lines[lo + i];
      if f[k].text == key + ":" { HeadOnly(part[i], indent, key); }
    }
  }

  // ---------------------------------------------------------------- what the edit means

  /** Lines that read as one list item at twice the block's indent. */
  ghost predicate IsItem(item: seq<string>, indent: string) {
    && Indented(item)
    && IsTwig(Entries(item)) && Entries(item)[0].depth == 4 * |indent| + 1
    && Uniform(Document(item))
  }

  /** The first entry of the lines, if any, is no deeper than `d`. */
  ghost predicate StartsShallow(lines: seq<string>, d: nat) { Entries(lines) != [] ==> Entries(lines)[0].depth <= d }

  /** The first entry of the lines, if any, stands at `d`. */
  ghost predicate StartsAt(lines: seq<string>, d: nat) { Entries(lines) != [] ==> Entries(lines)[0].depth == d }

  /** The places the scans found. */
  ghost predicate IsSite(lines: seq<string>, b: Block, sub: Option<Sub>) {
    b.header < b.end <= |lines| && (sub.Some? ==> b.header < sub.value.at < sub.value.last <= b.end)
  }

  /** Where the block's subtree ends: past `b.end` if a comment at column 0 stopped the scan. */
  ghost function BlockEnd(lines: seq<string>, b: Block): (n: nat)
    requires b.end <= |lines|
    ensures b.end <= n <= |lines|
  {
    TreeEnd(lines, b.end, 0)
  }

  /** Where the list's subtree ends: past `sub.last` if a shallow comment, or an item at the key's own
      indent, stopped the scan. */
  ghost function ListEnd(lines: seq<string>, b: Block, sub: Sub): (n: nat)
    requires sub.last <= |lines|
    ensures sub.last <= n <= |lines|
  {
    TreeEnd(lines, sub.last, 2 * |b.indent|)
  }

  /** Every node of the lines is what the item reads as. */
  ghost predicate OnlyCopies(lines: seq<string>, item: seq<string>) {
    forall k :: 0 <= k < |Document(lines)| ==> [Document(lines)[k]] == Document(item)
  }

  /** A file cut at a block's header, at a key's line in the block, at the end the scan found for the
      key's lines, at the end of its subtree, and at the end of the block's. */
  datatype Parts = Parts(before: seq<string>, header: string, front: seq<string>, keyLine: string,
                         items: seq<string>, tail: seq<string>, back: seq<string>, rest: seq<string>)
  {
    function Inside(): seq<string> { front + ([keyLine] + ((items + tail) + back)) }
    function Lines(): seq<string> { before + ([header] + (Inside() + rest)) }
    function With(item: seq<string>): Parts { this.(items := items + item) }

    /** `top` is the header, `key` the key's line at indent `c`, and the cuts are where subtrees end. */
    ghost predicate Placed(top: string, key: string, c: nat) {
      && Content(header) && EntryOf(header) == Entry(0, top + ":")
      && Content(keyLine) && EntryOf(keyLine) == Entry(2 * c, key + ":") && c > 0
      && AllDeeper(Entries(front), 0)
      && AllDeeper(Entries(items), 2 * c) && AllDeeper(Entries(tail), 2 * c)
      && AllDeeper(Entries(back), 0) && StartsShallow(back, 2 * c)
      && StartsShallow(rest, 0)
    }

    /** The key is a child of the block. */
    ghost predicate IsChild(c: nat) { AllAtLeast(Entries(front), 2 * c) }

    /** Header and key are the first of their names, in a file the reader accepts. */
    ghost predicate Ready(top: string, key: string, c: nat) {
      && Placed(top, key, c) && NoRoot(Document(before), top + ":") && Uniform(Document(Lines()))
      && (IsChild(c) ==> NoRoot(Document(front), key + ":"))
    }

    /** The edit's place fits: the block's keys stand at the indent `c`, so that it is not that of a stray
        comment; the list's items stand at twice the indent; and what the scan missed of them, if
        anything, is copies of the new one. */
    ghost predicate Takes(c: nat, item: seq<string>) {
      && StartsAt(Inside(), 2 * c)
      && StartsAt(items + tail, 4 * c + 1)
      && StartsShallow(tail, 4 * c + 1) && OnlyCopies(tail, item)
    }

    /** The item lands at the end of the key's list. */
    ghost predicate Suits(c: nat, t: seq<Entry>)
      requires IsTwig(t)
    {
      IsChild(c) && Lands(Entries(items), t, Entries(tail))
    }
  }

  /** The file cut at the given places. */
  ghost function Cut(lines: seq<string>, h: nat, at: nat, last: nat, mid: nat, e: nat): Parts
    requires h < at < last <= mid <= e <= |lines|
  {
    Parts(lines[..h], lines[h], lines[h + 1..at], lines[at], lines[at + 1..last], lines[last..mid], lines[mid..e], lines[e..])
  }

  /** The file cut at the places the scans found. */
  ghost function PartsOf(lines: seq<string>, b: Block, sub: Sub): Parts
    requires IsSite(lines, b, Some(sub)) && ListEnd(lines, b, sub) <= BlockEnd(lines, b)
  {
    Cut(lines, b.header, sub.at, sub.last, ListEnd(lines, b, sub), BlockEnd(lines, b))
  }

  /** The block's entries `es`, the last of which, `missed`, the scan did not look through. */
  ghost predicate TakesKeyIn(es: seq<Entry>, missed: seq<Entry>, column: nat, key: string) {
    && (es != [] ==> es[0].depth == column)
    && (missed != [] ==> missed[0].depth <= column)
    && NoRoot(Forest(es), key + ":")
  }

  /** For a missing key: the block's keys stand at its indent, the scan missed no such key, and what it
      missed of the block, if anything, starts with one of its keys. */
  ghost predicate TakesKey(lines: seq<string>, b: Block, key: string)
    requires b.header < b.end <= |lines|
  {
    TakesKeyIn(Entries(lines[b.header + 1..BlockEnd(lines, b)]), Entries(lines[b.end..BlockEnd(lines, b)]), 2 * |b.indent|, key)
  }

  /** The edit's place fits the file. */
  ghost predicate Fits(lines: seq<string>, b: Block, key: string, sub: Option<Sub>, item: seq<string>)
    requires IsSite(lines, b, sub)
  {
    && Spaces(b.indent)
    && match sub
       case Some(s) => ListEnd(lines, b, s) <= BlockEnd(lines, b) && PartsOf(lines, b, s).Takes(|b.indent|, item)
       case None => TakesKey(lines, b, key)
  }

  /** The edited lines read as the old document with the item appended. */
  ghost predicate Appended(lines: seq<string>, after: seq<string>, top: string, key: string, item: seq<string>) {
    && Readable(after) && |Document(item)| == 1
    && OnlyAddition(Document(lines), Document(after), top + ":", key + ":", Document(item)[0])
  }

  /** What the document then is. */
  ghost predicate IsAppendUnder(lines: seq<string>, after: seq<string>, top: string, b: Block, key: string, item: seq<string>) {
    Document(after) == AppendUnder(Document(lines), top + ":", Node(2 * |b.indent|, key + ":", Document(item)))
  }

  lemma {:induction false} UniformColumn(a: seq<Node>, n: Node, b: seq<Node>)
    requires Uniform(a + ([n] + b))
    ensures InColumn(a, n.column) && (a + ([n] + b))[0].column == n.column
  {
    var f := a + ([n] + b);
    assert f[|a|] == n;
    forall k | 0 <= k < |a| ensures a[k].column == n.column { assert f[k] == a[k]; }
  }

  /** A change among the block's children, as a change of the document. */
  lemma {:induction false} ChangedKids(a: seq<Node>, top: string, kids: seq<Node>, kids': seq<Node>, z: seq<Node>, holder: Node, item: Node)
    requires NoRoot(a, top) && Uniform(Doc(a, top, kids, z))
    ensures var before, after := Doc(a, top, kids, z), Doc(a, top, kids', z);
            && Uniform(kids)
            && (Uniform(after) && OnlyAddition(before, after, top, holder.text, item) <==>
                  Uniform(kids') && Grown(kids, kids', holder.text, item))
            && (Uniform(after) ==> after != [] && after[0].column == 0)
            && (kids' == AddUnder(kids, holder) ==> after == AppendUnder(before, top, holder))
  {
    BelowTop(a, top, kids, kids', z, holder, item);
    if Uniform(Doc(a, top, kids', z)) { UniformColumn(a, Node(0, top, kids'), z); }
  }

  /** A line with its subtree, between what comes before it and what comes after. */
  lemma {:induction false} TreeAround(a: seq<string>, h: string, m: seq<string>, z: seq<string>)
    requires Content(h) && AllAtLeast(Entries(a), EntryOf(h).depth) && AllDeeper(Entries(m), EntryOf(h).depth)
    requires StartsShallow(z, EntryOf(h).depth)
    ensures Document(a + ([h] + (m + z))) ==
            Document(a) + ([Node(EntryOf(h).depth, EntryOf(h).text, Document(m))] + Document(z))
  {
    EntriesAround(a, h, m, z);
    ForestAround(Entries(a), EntryOf(h), Entries(m), Entries(z));
  }

  lemma {:induction false} DeeperConcat(a: seq<string>, b: seq<string>, d: nat)
    requires AllDeeper(Entries(a), d) && AllDeeper(Entries(b), d)
    ensures AllDeeper(Entries(a + b), d)
  {
    EntriesConcat(a, b);
  }

  lemma {:induction false} TwigDeeper(t: seq<Entry>, d: nat)
    requires IsTwig(t) && t[0].depth > d
    ensures AllDeeper(t, d)
  {
    forall i | 0 <= i < |t| ensures t[i].depth > d { if i > 0 { assert t[i] == t[1..][i - 1]; } }
  }

  // ---------------------------------------------------------------- a key that is there

  lemma {:induction false} InsideEntries(p: Parts)
    requires Content(p.keyLine)
    ensures Entries(p.Inside()) ==
            Entries(p.front) + ([EntryOf(p.keyLine)] + ((Entries(p.items) + Entries(p.tail)) + Entries(p.back)))
  {
    EntriesAround(p.front, p.keyLine, p.items + p.tail, p.back);
    EntriesConcat(p.items, p.tail);
  }

  /** The file as the reader sees it: the block's children between its siblings. */
  lemma {:induction false} LinesTree(p: Parts, top: string, key: string, c: nat)
    requires p.Placed(top, key, c)
    ensures Document(p.Lines()) == Doc(Document(p.before), top + ":", Document(p.Inside()), Document(p.rest))
  {
    InsideDeeper(p, top, key, c);
    TreeAround(p.before, p.header, p.Inside(), p.rest);
  }

  lemma {:induction false} InsideDeeper(p: Parts, top: string, key: string, c: nat)
    requires p.Placed(top, key, c)
    ensures AllDeeper(Entries(p.Inside()), 0)
  {
    InsideEntries(p);
    AllDeeperAround(Entries(p.front), EntryOf(p.keyLine), Entries(p.items) + Entries(p.tail), Entries(p.back), 2 * c);
  }

  lemma {:induction false} AllDeeperAround(f: seq<Entry>, k: Entry, m: seq<Entry>, z: seq<Entry>, d: nat)
    requires AllDeeper(f, 0) && k.depth > 0 && AllDeeper(m, d) && AllDeeper(z, 0)
    ensures AllDeeper(f + ([k] + (m + z)), 0)
  {}

  /** And the key's items between the block's other children. */
  lemma {:induction false} InsideTree(p: Parts, top: string, key: string, c: nat)
    requires p.Placed(top, key, c) && p.IsChild(c)
    ensures Document(p.Inside()) ==
            Holding(Document(p.front), key + ":", 2 * c, Forest(Entries(p.items) + Entries(p.tail)), Document(p.back))
  {
    DeeperConcat(p.items, p.tail, 2 * c);
    TreeAround(p.front, p.keyLine, p.items + p.tail, p.back);
    EntriesConcat(p.items, p.tail);
  }

  lemma {:induction false} FrontColumn(p: Parts, top: string, key: string, c: nat)
    requires p.Placed(top, key, c) && p.IsChild(c) && Uniform(Document(p.Inside()))
    ensures InColumn(Document(p.front), 2 * c)
  {
    InsideTree(p, top, key, c);
    UniformColumn(Document(p.front), Node(2 * c, key + ":", Forest(Entries(p.items) + Entries(p.tail))), Document(p.back));
  }

  lemma {:induction false} PlacedWith(p: Parts, top: string, key: string, c: nat, item: seq<string>)
    requires p.Placed(top, key, c) && IsTwig(Entries(item)) && Entries(item)[0].depth > 2 * c
    ensures p.With(item).Placed(top, key, c)
  {
    TwigDeeper(Entries(item), 2 * c);
    DeeperConcat(p.items, item, 2 * c);
  }

  lemma {:induction false} WithEntries(p: Parts, item: seq<string>)
    ensures Entries(p.With(item).items) + Entries(p.tail) == Entries(p.items) + (Entries(item) + Entries(p.tail))
  {
    EntriesConcat(p.items, item);
  }

  /** The block's children before and after the edit. */
  lemma {:induction false} KidsMeaning(p: Parts, top: string, key: string, c: nat, item: seq<string>)
    requires p.Ready(top, key, c) && Uniform(Document(p.Inside()))
    requires IsTwig(Entries(item)) && Entries(item)[0].depth > 2 * c && Uniform(Document(item))
    ensures |Document(item)| == 1
    ensures var kids, kids' := Document(p.Inside()), Document(p.With(item).Inside());
            && (Uniform(kids') && Grown(kids, kids', key + ":", Document(item)[0]) <==> p.Suits(c, Entries(item)))
            && (p.Suits(c, Entries(item)) ==> kids' == AddUnder(kids, Node(2 * c, key + ":", Document(item))))
  {
    TwigForest(Entries(item));
    PlacedWith(p, top, key, c, item);
    WithEntries(p, item);
    if p.IsChild(c) {
      InsideTree(p, top, key, c);
      InsideTree(p.With(item), top, key, c);
      AppendEntries(Document(p.front), key + ":", 2 * c, Entries(p.items), Entries(item), Entries(p.tail), Document(p.back));
    } else if Uniform(Document(p.With(item).Inside())) {
      KidsBuried(p, top, key, c, item);
    }
  }

  /** A key that stands deeper than the block's children is not one of them. */
  lemma {:induction false} KidsBuried(p: Parts, top: string, key: string, c: nat, item: seq<string>)
    requires p.Placed(top, key, c) && !p.IsChild(c) && Uniform(Document(p.Inside())) && Uniform(Document(p.With(item).Inside()))
    requires IsTwig(Entries(item)) && Entries(item)[0].depth > 2 * c && |Document(item)| == 1
    ensures !Grown(Document(p.Inside()), Document(p.With(item).Inside()), key + ":", Document(item)[0])
  {
    InsideEntries(p);
    InsideEntries(p.With(item));
    WithEntries(p, item);
    TwigDeeper(Entries(item), 2 * c);
    ChildBuried(Entries(p.front), EntryOf(p.keyLine), Entries(p.items), Entries(item), Entries(p.tail), Entries(p.back),
                key + ":", Document(item)[0]);
  }

  /** The edit on a file cut into its parts. */
  lemma {:induction false} PartsMeaning(p: Parts, top: string, key: string, c: nat, item: seq<string>)
    requires p.Ready(top, key, c)
    requires IsTwig(Entries(item)) && Entries(item)[0].depth > 2 * c && Uniform(Document(item))
    ensures var before, after := Document(p.Lines()), Document(p.With(item).Lines());
            && |Document(item)| == 1
            && (Uniform(after) && OnlyAddition(before, after, top + ":", key + ":", Document(item)[0]) <==> p.Suits(c, Entries(item)))
            && (Uniform(after) ==> after != [] && after[0].column == 0)
            && (p.Suits(c, Entries(item)) ==> after == AppendUnder(before, top + ":", Node(2 * c, key + ":", Document(item))))
  {
    var a, kids, kids', z := Document(p.before), Document(p.Inside()), Document(p.With(item).Inside()), Document(p.rest);
    PlacedWith(p, top, key, c, item);
    LinesTree(p, top, key, c);
    LinesTree(p.With(item), top, key, c);
    TwigForest(Entries(item));
    ChangedKids(a, top + ":", kids, kids', z, Node(2 * c, key + ":", Document(item)), Document(item)[0]);
    KidsMeaning(p, top, key, c, item);
  }

  lemma {:induction false} Whole<T>(s: seq<T>, h: nat, e: nat)
    requires h < e <= |s|
    ensures s == s[..h] + ([s[h]] + (s[h + 1..e] + s[e..]))
  {}

  lemma {:induction false} Between<T>(s: seq<T>, lo: nat, at: nat, hi: nat)
    requires lo <= at <= hi <= |s|
    ensures s[lo..hi] == s[lo..at] + s[at..hi]
  {}

  lemma {:induction false} CutInside(lines: seq<string>, h: nat, at: nat, last: nat, mid: nat, e: nat)
    requires h < at < last <= mid <= e <= |lines|
    ensures Cut(lines, h, at, last, mid, e).Inside() == lines[h + 1..e]
  {
    Between(lines, at + 1, last, mid);
    Between(lines, at + 1, mid, e);
    Between(lines, h + 1, at, e);
    assert lines[at..e] == [lines[at]] + lines[at + 1..e];
  }

  lemma {:induction false} CutLines(lines: seq<string>, h: nat, at: nat, last: nat, mid: nat, e: nat)
    requires h < at < last <= mid <= e <= |lines|
    ensures Cut(lines, h, at, last, mid, e).Lines() == lines
  {
    CutInside(lines, h, at, last, mid, e);
    Whole(lines, h, e);
  }

  lemma {:induction false} Splice<T>(a: seq<T>, h: seq<T>, f: seq<T>, k: seq<T>, i: seq<T>, x: seq<T>, z: seq<T>, r: seq<T>, item: seq<T>, n: nat)
    requires n == |a| + |h| + |f| + |k| + |i|
    ensures var s := a + (h + ((f + (k + ((i + x) + z))) + r));
            s[..n] + item + s[n..] == a + (h + ((f + (k + (((i + item) + x) + z))) + r))
  {
    var s := a + (h + ((f + (k + ((i + x) + z))) + r));
    assert s == (a + h + f + k + i) + (x + z + r);
    assert s[..n] == a + h + f + k + i && s[n..] == x + z + r;
  }

  lemma {:induction false} CutWith(lines: seq<string>, h: nat, at: nat, last: nat, mid: nat, e: nat, item: seq<string>)
    requires h < at < last <= mid <= e <= |lines|
    ensures Cut(lines, h, at, last, mid, e).With(item).Lines() == lines[..last] + item + lines[last..]
  {
    var p := Cut(lines, h, at, last, mid, e);
    CutLines(lines, h, at, last, mid, e);
    Splice(p.before, [p.header], p.front, [p.keyLine], p.items, p.tail, p.back, p.rest, item, last);
  }

  lemma {:induction false} PartsLines(lines: seq<string>, b: Block, key: string, sub: Sub, item: seq<string>)
    requires IsSite(lines, b, Some(sub)) && ListEnd(lines, b, sub) <= BlockEnd(lines, b)
    ensures PartsOf(lines, b, sub).Inside() == lines[b.header + 1..BlockEnd(lines, b)]
    ensures PartsOf(lines, b, sub).Lines() == lines
    ensures PartsOf(lines, b, sub).With(item).Lines() == Edited(lines, b, key, Some(sub), item)
  {
    CutInside(lines, b.header, sub.at, sub.last, ListEnd(lines, b, sub), BlockEnd(lines, b));
    CutLines(lines, b.header, sub.at, sub.last, ListEnd(lines, b, sub), BlockEnd(lines, b));
    CutWith(lines, b.header, sub.at, sub.last, ListEnd(lines, b, sub), BlockEnd(lines, b), item);
  }

  /** The block's indent is whitespace, and the block's lines are below its header. */
  lemma {:induction false} BlockFacts(lines: seq<string>, top: string, b: Block)
    requires PlainKey(top) && IsBlock(lines, top, b)
    ensures Pad(b.indent) && b.indent != ""
    ensures Content(lines[b.header]) && EntryOf(lines[b.header]) == Entry(0, top + ":")
    ensures Below(lines, b.header + 1, BlockEnd(lines, b), 0) && StartsShallow(lines[BlockEnd(lines, b)..], 0)
  {
    var n := FirstFilled(lines, b.header + 1);
    assert !Blank(lines[b.end - 1]);
    assert Lead(lines[n]) > 0;
    LeadSpaces(lines[n]);
    HeadLine(lines[b.header], "", top);
    StartsThere(lines, BlockEnd(lines, b), |lines|, 0);
    assert lines[BlockEnd(lines, b)..|lines|] == lines[BlockEnd(lines, b)..];
  }

  lemma {:induction false} KeyFacts(lines: seq<string>, b: Block, key: string, sub: Sub)
    requires PlainKey(key) && Pad(b.indent) && Indented(lines) && b.header < b.end <= |lines| && IsSub(lines, b, key, Some(sub))
    ensures IsSite(lines, b, Some(sub)) && Spaces(b.indent)
    ensures Content(lines[sub.at]) && EntryOf(lines[sub.at]) == Entry(2 * |b.indent|, key + ":")
    ensures Below(lines, sub.at + 1, ListEnd(lines, b, sub), 2 * |b.indent|)
    ensures ListEnd(lines, b, sub) <= BlockEnd(lines, b)
    ensures StartsShallow(lines[ListEnd(lines, b, sub)..BlockEnd(lines, b)], 2 * |b.indent|)
  {
    HeadLine(lines[sub.at], b.indent, key);
    StartsThere(lines, ListEnd(lines, b, sub), BlockEnd(lines, b), 2 * |b.indent|);
  }

  lemma {:induction false} SiteIsPlaced(lines: seq<string>, top: string, key: string, b: Block, sub: Sub)
    requires PlainKey(top) && PlainKey(key) && Indented(lines) && IsBlock(lines, top, b) && IsSub(lines, b, key, Some(sub))
    ensures IsSite(lines, b, Some(sub)) && ListEnd(lines, b, sub) <= BlockEnd(lines, b) && Spaces(b.indent)
    ensures PartsOf(lines, b, sub).Placed(top, key, |b.indent|)
  {
    BlockFacts(lines, top, b);
    KeyFacts(lines, b, key, sub);
    CutIsPlaced(lines, top, key, |b.indent|, b.header, sub.at, sub.last, ListEnd(lines, b, sub), BlockEnd(lines, b));
  }

  lemma {:induction false} CutIsPlaced(lines: seq<string>, top: string, key: string, c: nat, h: nat, at: nat, last: nat, mid: nat, e: nat)
    requires h < at < last <= mid <= e <= |lines| && c > 0
    requires Content(lines[h]) && EntryOf(lines[h]) == Entry(0, top + ":")
    requires Content(lines[at]) && EntryOf(lines[at]) == Entry(2 * c, key + ":")
    requires Below(lines, h + 1, e, 0) && Below(lines, at + 1, mid, 2 * c)
    requires StartsShallow(lines[mid..e], 2 * c) && StartsShallow(lines[e..], 0)
    ensures Cut(lines, h, at, last, mid, e).Placed(top, key, c)
  {
    CutDepths(lines, c, h, at, last, mid, e);
  }

  lemma {:induction false} CutDepths(lines: seq<string>, c: nat, h: nat, at: nat, last: nat, mid: nat, e: nat)
    requires h < at < last <= mid <= e <= |lines|
    requires Below(lines, h + 1, e, 0) && Below(lines, at + 1, mid, 2 * c)
    ensures AllDeeper(Entries(lines[h + 1..at]), 0) && AllDeeper(Entries(lines[mid..e]), 0)
    ensures AllDeeper(Entries(lines[at + 1..last]), 2 * c) && AllDeeper(Entries(lines[last..mid]), 2 * c)
  {
    BelowIsDeeper(lines, h + 1, at, 0);
    BelowIsDeeper(lines, at + 1, last, 2 * c);
    BelowIsDeeper(lines, last, mid, 2 * c);
    BelowIsDeeper(lines, mid, e, 0);
  }

  /** No earlier line reads as the header. */
  lemma {:induction false} HeaderIsFirst(lines: seq<string>, top: string, b: Block, kids: seq<Node>, z: seq<Node>)
    requires PlainKey(top) && IsBlock(lines, top, b) && Indented(lines)
    requires Uniform(Doc(Document(lines[..b.header]), top + ":", kids, z))
    ensures NoRoot(Document(lines[..b.header]), top + ":")
  {
    UniformColumn(Document(lines[..b.header]), Node(0, top + ":", kids), z);
    assert lines[0..b.header] == lines[..b.header];
    NoEarlierRoot(lines, 0, b.header, "", top);
  }

  /** No earlier child of the block reads as the key. */
  lemma {:induction false} KeyIsFirst(lines: seq<string>, key: string, indent: string, lo: nat, at: nat)
    requires PlainKey(key) && Indented(lines) && Spaces(indent) && lo <= at <= |lines| && NoLine(lines, lo, at, Head(indent, key))
    requires InColumn(Document(lines[lo..at]), 2 * |indent|)
    ensures NoRoot(Document(lines[lo..at]), key + ":")
  {
    NoEarlierRoot(lines, lo, at, indent, key);
  }

  lemma {:induction false} SiteReady(lines: seq<string>, top: string, key: string, b: Block, sub: Sub)
    requires PlainKey(top) && PlainKey(key) && Readable(lines) && IsBlock(lines, top, b) && IsSub(lines, b, key, Some(sub))
    ensures IsSite(lines, b, Some(sub)) && ListEnd(lines, b, sub) <= BlockEnd(lines, b) && Spaces(b.indent)
    ensures PartsOf(lines, b, sub).Ready(top, key, |b.indent|) && Uniform(Document(PartsOf(lines, b, sub).Inside()))
  {
    SiteIsPlaced(lines, top, key, b, sub);
    CutReady(lines, top, key, b, sub, ListEnd(lines, b, sub), BlockEnd(lines, b));
  }

  lemma {:induction false} CutReady(lines: seq<string>, top: string, key: string, b: Block, sub: Sub, mid: nat, e: nat)
    requires PlainKey(top) && PlainKey(key) && Readable(lines) && IsBlock(lines, top, b) && IsSub(lines, b, key, Some(sub))
    requires IsSite(lines, b, Some(sub)) && Spaces(b.indent) && sub.last <= mid <= e <= |lines|
    requires Cut(lines, b.header, sub.at, sub.last, mid, e).Placed(top, key, |b.indent|)
    ensures var p := Cut(lines, b.header, sub.at, sub.last, mid, e); p.Ready(top, key, |b.indent|) && Uniform(Document(p.Inside()))
  {
    CutLines(lines, b.header, sub.at, sub.last, mid, e);
    PartsReady(lines, top, key, b, sub, Cut(lines, b.header, sub.at, sub.last, mid, e));
  }

  lemma {:induction false} PartsReady(lines: seq<string>, top: string, key: string, b: Block, sub: Sub, p: Parts)
    requires PlainKey(top) && PlainKey(key) && Readable(lines) && IsBlock(lines, top, b) && IsSub(lines, b, key, Some(sub))
    requires IsSite(lines, b, Some(sub)) && Spaces(b.indent) && p.Placed(top, key, |b.indent|)
    requires p.Lines() == lines && p.before == lines[..b.header] && p.front == lines[b.header + 1..sub.at]
    ensures p.Ready(top, key, |b.indent|) && Uniform(Document(p.Inside()))
  {
    LinesTree(p, top, key, |b.indent|);
    HeaderIsFirst(lines, top, b, Document(p.Inside()), Document(p.rest));
    UniformAround(Document(p.before), Node(0, top + ":", Document(p.Inside())), Document(p.rest));
    if p.IsChild(|b.indent|) {
      FrontColumn(p, top, key, |b.indent|);
      KeyIsFirst(lines, key, b.indent, b.header + 1, sub.at);
    }
  }

  /** In the lines' own terms. */
  lemma {:induction false} SuitsIsTakes(p: Parts, top: string, key: string, c: nat, item: seq<string>)
    requires p.Placed(top, key, c) && Uniform(Document(p.Inside())) && IsTwig(Entries(item)) && Entries(item)[0].depth == 4 * c + 1
    ensures p.Suits(c, Entries(item)) <==> p.Takes(c, item)
  {
    InsideEntries(p);
    FirstIsShallowest(Entries(p.front), EntryOf(p.keyLine), (Entries(p.items) + Entries(p.tail)) + Entries(p.back));
    EntriesConcat(p.items, p.tail);
    TwigForest(Entries(item));
    CopiesAre(p.tail, item);
  }

  lemma {:induction false} CopiesAre(tail: seq<string>, item: seq<string>)
    requires |Document(item)| == 1
    ensures OnlyCopies(tail, item) <==> Copies(Document(tail), Document(item)[0])
  {
    assert forall n: Node :: [n] == Document(item) <==> n == Document(item)[0];
  }

  lemma {:induction false} IndentedAfter(lines: seq<string>, at: nat, added: seq<string>)
    requires at <= |lines| && Indented(lines) && Indented(added)
    ensures Indented(lines[..at] + added + lines[at..])
  {
    var after := lines[..at] + added + lines[at..];
    forall i | 0 <= i < |after| && Content(after[i]) ensures Spaces(Indent(after[i])) {
      if i < at { assert after[i] == lines[i]; }
      else if i < at + |added| { assert after[i] == added[i - at]; }
      else { assert after[i] == lines[i - |added|]; }
    }
  }

  /** Main result for a key that is there: the edited file reads as the old document with the item
      appended, and nothing else changed, exactly when the place fits. */
  lemma {:induction false} EditListMeaning(lines: seq<string>, top: string, key: string, b: Block, sub: Sub, item: seq<string>)
    requires PlainKey(top) && PlainKey(key) && Readable(lines)
    requires IsBlock(lines, top, b) && IsSub(lines, b, key, Some(sub)) && IsItem(item, b.indent)
    ensures IsSite(lines, b, Some(sub))
    ensures Appended(lines, Edited(lines, b, key, Some(sub), item), top, key, item) <==> Fits(lines, b, key, Some(sub), item)
    ensures Fits(lines, b, key, Some(sub), item) ==> IsAppendUnder(lines, Edited(lines, b, key, Some(sub), item), top, b, key, item)
  {
    SiteReady(lines, top, key, b, sub);
    PartsLines(lines, b, key, sub, item);
    IndentedAfter(lines, sub.last, item);
    PartsMeaning(PartsOf(lines, b, sub), top, key, |b.indent|, item);
    SuitsIsTakes(PartsOf(lines, b, sub), top, key, |b.indent|, item);
  }

  // ---------------------------------------------------------------- a key that is missing

  /** The key's line and the item below it. */
  lemma {:induction false} NewKeyTwig(indent: string, key: string, item: seq<string>)
    requires PlainKey(key) && Spaces(indent) && IsItem(item, indent)
    ensures |Document(item)| == 1
    ensures var t := [Head(indent, key)] + item;
            && Indented(t) && IsTwig(Entries(t)) && Entries(t)[0] == Entry(2 * |indent|, key + ":")
            && Forest(Entries(t)[1..]) == Document(item) && Uniform(Document(t))
  {
    var head, text := Head(indent, key), key + ":";
    assert head == indent + text;
    PaddedLine(indent, text);
    assert Content(head) && EntryOf(head) == Entry(2 * |indent|, text);
    assert Entries([head]) == [EntryOf(head)];
    EntriesConcat([head], item);
    assert Entries([head] + item)[1..] == Entries(item);
    TwigDeeper(Entries(item), 2 * |indent|);
    TwigForest(Entries(item));
    TwigForest(Entries([head] + item));
  }

  ghost predicate Descends(f: seq<Node>) { forall i, j :: 0 <= i < j < |f| ==> f[i].column >= f[j].column }

  lemma {:induction false} StepDescends(e: Entry, f: seq<Node>)
    requires Descends(f)
    ensures Descends(Step(e, f))
  {
    var n, g := Deeper(f, e.depth), Step(e, f);
    forall i, j | 0 <= i < j < |g| ensures g[i].column >= g[j].column {
      assert g[j] == f[n + j - 1];
      if i > 0 { assert g[i] == f[n + i - 1]; }
      else if j > 1 { assert f[n].column >= f[n + j - 1].column; }
    }
  }

  /** Roots come no deeper than the first. */
  lemma {:induction false} RootsDescend(es: seq<Entry>)
    ensures Descends(Forest(es))
  {
    if es != [] {
      RootsDescend(es[1..]);
      StepDescends(es[0], Forest(es[1..]));
    }
  }

  lemma {:induction false} ScannedKeys(lines: seq<string>, b: Block, key: string)
    requires PlainKey(key) && Spaces(b.indent) && Indented(lines) && b.header < b.end <= |lines| && IsSub(lines, b, key, None)
    requires AllAtLeast(Entries(lines[b.header + 1..b.end]), 2 * |b.indent|) && StartsAt(lines[b.header + 1..b.end], 2 * |b.indent|)
    ensures NoRoot(Document(lines[b.header + 1..b.end]), key + ":")
  {
    var es, f := Entries(lines[b.header + 1..b.end]), Document(lines[b.header + 1..b.end]);
    NoEarlierRoot(lines, b.header + 1, b.end, b.indent, key);
    RootsDescend(es);
    forall k | 0 <= k < |f| ensures f[k].text != key + ":" {
      RootIsEntry(es, k);
      FirstRoot(es);
      assert k > 0 ==> f[0].column >= f[k].column;
    }
  }

  /** The block's children where the scan stopped at `b.end`. */
  lemma {:induction false} BlockTree(lines: seq<string>, top: string, b: Block, added: seq<string>)
    requires PlainKey(top) && IsBlock(lines, top, b) && AllDeeper(Entries(added), 0)
    ensures var es, xs := Entries(lines[b.header + 1..b.end]), Entries(lines[b.end..BlockEnd(lines, b)]);
            Document(lines[..b.end] + added + lines[b.end..]) ==
            Doc(Document(lines[..b.header]), top + ":", Forest(es + (Entries(added) + xs)), Document(lines[BlockEnd(lines, b)..]))
  {
    BlockFacts(lines, top, b);
    var e := BlockEnd(lines, b);
    var front, back, z := lines[b.header + 1..b.end], lines[b.end..e], lines[e..];
    BelowIsDeeper(lines, b.header + 1, b.end, 0);
    BelowIsDeeper(lines, b.end, e, 0);
    var inside := front + (added + back);
    DeeperConcat(added, back, 0);
    DeeperConcat(front, added + back, 0);
    EntriesConcat(added, back);
    EntriesConcat(front, added + back);
    Insert(lines, b.header, b.end, e, added);
    TreeAround(lines[..b.header], lines[b.header], inside, z);
  }

  lemma {:induction false} Insert<T>(s: seq<T>, h: nat, at: nat, e: nat, t: seq<T>)
    requires h < at <= e <= |s|
    ensures s[..at] + t + s[at..] == s[..h] + ([s[h]] + ((s[h + 1..at] + (t + s[at..e])) + s[e..]))
  {
    assert s[..at] == s[..h] + ([s[h]] + s[h + 1..at]) && s[at..] == s[at..e] + s[e..];
  }

  lemma {:induction false} EntriesBetween(lines: seq<string>, lo: nat, at: nat, hi: nat)
    requires lo <= at <= hi <= |lines|
    ensures Entries(lines[lo..hi]) == Entries(lines[lo..at]) + Entries(lines[at..hi])
  {
    Between(lines, lo, at, hi);
    EntriesConcat(lines[lo..at], lines[at..hi]);
  }

  /** Children in the new key's column are those the scan looked through. */
  lemma {:induction false} NoneOfThatName(lines: seq<string>, b: Block, key: string, ks: seq<Entry>, xs: seq<Entry>)
    requires PlainKey(key) && Spaces(b.indent) && Indented(lines) && b.header < b.end <= |lines| && IsSub(lines, b, key, None)
    requires ks == Entries(lines[b.header + 1..b.end]) && Uniform(Forest(ks + xs))
    requires ks + xs != [] ==> (ks + xs)[0].depth == 2 * |b.indent|
    ensures NoRoot(Forest(ks), key + ":")
  {
    if ks + xs != [] {
      UniformCount(ks + xs);
      FrontPart(ks, xs, 2 * |b.indent|);
    }
    ScannedKeys(lines, b, key);
  }

  /** The block's children before and after the edit: the new key opens with the item alone exactly when
      `fits`, and then comes last where nothing was missed. */
  ghost predicate OpensWhere(fits: bool, ks: seq<Entry>, t: seq<Entry>, xs: seq<Entry>, item: Node)
    requires IsTwig(t)
  {
    && (Opened(ks, t, xs, item) <==> fits)
    && (fits && xs == [] ==> Forest(ks + (t + xs)) == AddUnder(Forest(ks + xs), Node(t[0].depth, t[0].text, [item])))
  }

  lemma {:induction false} NewKidsMeaning(lines: seq<string>, b: Block, key: string, ks: seq<Entry>, t: seq<Entry>, xs: seq<Entry>, item: Node)
    requires PlainKey(key) && Spaces(b.indent) && Indented(lines) && b.header < b.end <= |lines| && IsSub(lines, b, key, None)
    requires ks == Entries(lines[b.header + 1..b.end]) && Uniform(Forest(ks + xs))
    requires IsTwig(t) && t[0] == Entry(2 * |b.indent|, key + ":") && Uniform(Forest(t)) && Forest(t[1..]) == [item]
    ensures OpensWhere(Opens(ks, t, xs), ks, t, xs, item)
  {
    if ks + xs != [] && (ks + xs)[0].depth == t[0].depth { NoneOfThatName(lines, b, key, ks, xs); }
    OpenEntries(ks, t, xs, item);
  }

  lemma {:induction false} OpensTerms(es: seq<Entry>, ks: seq<Entry>, t: seq<Entry>, xs: seq<Entry>, column: nat, key: string)
    requires es == ks + xs && IsTwig(t) && t[0] == Entry(column, key + ":")
    ensures Opens(ks, t, xs) <==> TakesKeyIn(es, xs, column, key)
  {}

  /** The place as the lines show it. */
  lemma {:induction false} OpensIsTakesKey(lines: seq<string>, b: Block, key: string, t: seq<Entry>)
    requires b.header < b.end <= |lines| && IsTwig(t) && t[0] == Entry(2 * |b.indent|, key + ":")
    ensures Opens(Entries(lines[b.header + 1..b.end]), t, Entries(lines[b.end..BlockEnd(lines, b)])) <==> TakesKey(lines, b, key)
  {
    var es, ks, xs := Entries(lines[b.header + 1..BlockEnd(lines, b)]), Entries(lines[b.header + 1..b.end]), Entries(lines[b.end..BlockEnd(lines, b)]);
    EntriesBetween(lines, b.header + 1, b.end, BlockEnd(lines, b));
    OpensTerms(es, ks, t, xs, 2 * |b.indent|, key);
  }

  /** Main result for a key that is missing: it is created with the item as its only one, and nothing
      else changes, exactly when the place fits; it then comes after the block's other keys, unless a
      comment at column 0 hid some of them. */
  lemma {:induction false} EditNewKeyMeaning(lines: seq<string>, top: string, key: string, b: Block, item: seq<string>)
    requires PlainKey(top) && PlainKey(key) && Readable(lines)
    requires IsBlock(lines, top, b) && IsSub(lines, b, key, None) && Spaces(b.indent) && IsItem(item, b.indent)
    ensures Appended(lines, Edited(lines, b, key, None, item), top, key, item) <==> Fits(lines, b, key, None, item)
    ensures Fits(lines, b, key, None, item) && Entries(lines[b.end..BlockEnd(lines, b)]) == [] ==>
              IsAppendUnder(lines, Edited(lines, b, key, None, item), top, b, key, item)
  {
    var added := [Head(b.indent, key)] + item;
    var t, ks, xs := Entries(added), Entries(lines[b.header + 1..b.end]), Entries(lines[b.end..BlockEnd(lines, b)]);
    NewKeyTwig(b.indent, key, item);
    var node := Document(item)[0];
    assert Document(item) == [node];
    BlockFacts(lines, top, b);
    NewKeyTree(lines, top, b, key, added, node);
    NewKidsMeaning(lines, b, key, ks, t, xs, node);
    OpensIsTakesKey(lines, b, key, t);
    IndentedAfter(lines, b.end, added);
  }

  /** The document before and after, as what happens to the block's children. */
  lemma {:induction false} NewKeyTree(lines: seq<string>, top: string, b: Block, key: string, added: seq<string>, item: Node)
    requires PlainKey(top) && Readable(lines) && IsBlock(lines, top, b) && b.indent != ""
    requires IsTwig(Entries(added)) && Entries(added)[0] == Entry(2 * |b.indent|, key + ":")
    ensures var t, ks, xs := Entries(added), Entries(lines[b.header + 1..b.end]), Entries(lines[b.end..BlockEnd(lines, b)]);
            var before, after := Document(lines), Document(lines[..b.end] + added + lines[b.end..]);
            var holder := Node(2 * |b.indent|, key + ":", [item]);
            && Uniform(Forest(ks + xs))
            && (Uniform(after) && OnlyAddition(before, after, top + ":", key + ":", item) <==> Opened(ks, t, xs, item))
            && (Uniform(after) ==> after != [] && after[0].column == 0)
            && (Forest(ks + (t + xs)) == AddUnder(Forest(ks + xs), holder) ==> after == AppendUnder(before, top + ":", holder))
  {
    var t, ks, xs := Entries(added), Entries(lines[b.header + 1..b.end]), Entries(lines[b.end..BlockEnd(lines, b)]);
    var a, z := Document(lines[..b.header]), Document(lines[BlockEnd(lines, b)..]);
    TwigDeeper(t, 0);
    OldTree(lines, top, b);
    BlockTree(lines, top, b, added);
    HeaderIsFirst(lines, top, b, Forest(ks + xs), z);
    ChangedKids(a, top + ":", Forest(ks + xs), Forest(ks + (t + xs)), z, Node(2 * |b.indent|, key + ":", [item]), item);
  }

  lemma {:induction false} OldTree(lines: seq<string>, top: string, b: Block)
    requires PlainKey(top) && IsBlock(lines, top, b)
    ensures var es, xs := Entries(lines[b.header + 1..b.end]), Entries(lines[b.end..BlockEnd(lines, b)]);
            Document(lines) == Doc(Document(lines[..b.header]), top + ":", Forest(es + xs), Document(lines[BlockEnd(lines, b)..]))
  {
    var none: seq<string> := [];
    BlockTree(lines, top, b, none);
    NothingAdded(lines, b.end, none);
    NothingBefore(Entries(none), Entries(lines[b.end..BlockEnd(lines, b)]));
  }

  lemma {:induction false} NothingAdded<T>(s: seq<T>, n: nat, none: seq<T>)
    requires n <= |s| && none == []
    ensures s[..n] + none + s[n..] == s
  {}

  lemma {:induction false} NothingBefore<T>(none: seq<T>, s: seq<T>)
    requires none == []
    ensures none + s == s
  {}

  // ---------------------------------------------------------------- the edit of the text

  lemma {:induction false} SplitLast(text: string)
    ensures var parts := SplitLines(text); parts[|parts| - 1] == "" <==> text == "" || text[|text| - 1] == '\n'
  {
    if text != "" { SplitLast(text[1..]); }
  }

  lemma {:induction false} JoinLast(lines: seq<string>)
    requires lines != [] && lines[|lines| - 1] != ""
    ensures var s, last := JoinLines(lines), lines[|lines| - 1]; s != "" && s[|s| - 1] == last[|last| - 1]
  {
    if |lines| > 1 { JoinLast(lines[1..]); }
  }

  /** Lines that were split, spliced and joined split into the spliced lines again: no line break is
      gained or lost, at the end of the text or elsewhere. */
  lemma {:induction false} SplitOfJoin(lines: seq<string>, trailing: bool)
    requires lines != [] && SingleLines(lines) && (!trailing ==> lines[|lines| - 1] != "")
    ensures Split(Join(lines, trailing)) == (lines, trailing)
  {
    if trailing {
      JoinEmptyLast(lines);
      SplitJoin(lines + [""]);
      assert (lines + [""])[..|lines|] == lines;
    } else {
      JoinLast(lines);
      SplitJoin(lines);
      assert JoinLines(lines) + "" == JoinLines(lines);
    }
  }

  lemma {:induction false} SplitParts(text: string)
    ensures var (lines, trailing) := Split(text);
            SingleLines(lines) && Join(lines, trailing) == text &&
            (!trailing && |lines| > 1 ==> lines[|lines| - 1] != "")
  {
    JoinSplit(text);
    SplitLast(text);
    var parts := SplitLines(text);
    var (lines, trailing) := Split(text);
    if trailing {
      assert parts == lines + [""];
      if lines != [] { JoinEmptyLast(lines); }
    } else {
      assert JoinLines(lines) + "" == JoinLines(lines);
    }
  }

  ghost predicate Printable(lines: seq<string>) { forall i :: 0 <= i < |lines| ==> lines[i] != "" && '\n' !in lines[i] }

  lemma {:induction false} SpliceSplits(text: string, at: nat, added: seq<string>)
    requires 0 < at <= |Split(text).0| && Printable(added) && added != []
    ensures var (lines, trailing) := Split(text);
            var after := lines[..at] + added + lines[at..];
            Split(Join(after, trailing)) == (after, trailing)
  {
    SplitParts(text);
    var (lines, trailing) := Split(text);
    SpliceSingle(lines, at, added);
    SplitOfJoin(lines[..at] + added + lines[at..], trailing);
  }

  lemma {:induction false} SpliceSingle(lines: seq<string>, at: nat, added: seq<string>)
    requires 0 < at <= |lines| && SingleLines(lines) && Printable(added) && added != []
    ensures var after := lines[..at] + added + lines[at..];
            SingleLines(after) && (after[|after| - 1] != "" || (at < |lines| && lines[|lines| - 1] == ""))
  {
    var after := lines[..at] + added + lines[at..];
    forall i | 0 <= i < |after| ensures '\n' !in after[i] {
      if i < at { assert after[i] == lines[i]; }
      else if i < at + |added| { assert after[i] == added[i - at]; }
      else { assert after[i] == lines[i - |added|]; }
    }
  }

  // ---------------------------------------------------------------- the two edits, from text to meaning

  /** A text without whitespace at its ends, for one line. */
  predicate Trimmed(text: string) {
    text != "" && !IsSpace(text[0]) && !IsSpace(text[|text| - 1]) && '\n' !in text
  }

  lemma {:induction false} ItemLine(indent: string, text: string)
    requires Spaces(indent) && Trimmed(text) && |text| > 1 && text[0] == '-' && text[1] == ' '
    ensures var line := indent + indent + text; Content(line) && Spaces(Indent(line)) && EntryOf(line) == Entry(4 * |indent| + 1, text)
  {
    var pad := indent + indent;
    PaddedLine(pad, text);
    assert (pad + text)[|pad|] == text[0] && (pad + text)[|pad| + 1] == text[1];
  }

  lemma {:induction false} FieldLine(indent: string, text: string)
    requires Spaces(indent) && Trimmed(text) && text[0] != '-' && text[0] != '#'
    ensures var line := indent + indent + "  " + text; Content(line) && Spaces(Indent(line)) && EntryOf(line) == Entry(4 * |indent| + 4, text)
  {
    var pad := indent + indent + "  ";
    PaddedLine(pad, text);
    assert (pad + text)[|pad|] == text[0];
  }

  lemma {:induction false} OneLine(line: string, e: Entry)
    requires Content(line) && EntryOf(line) == e
    ensures Entries([line]) == [e] && IsTwig([e]) && Document([line]) == [Node(e.depth, e.text, [])] && Uniform(Document([line]))
  {
    assert Entries([line]) == [e] && [e][1..] == [];
    TwigForest([e]);
  }

  lemma {:induction false} ScalarEnds(prefix: string, value: string)
    requires prefix != "" && !IsSpace(prefix[0]) && '\n' !in prefix
    ensures Trimmed(prefix + Scalar(value)) && (prefix + Scalar(value))[0] == prefix[0]
    ensures |prefix| > 1 ==> |prefix + Scalar(value)| > 1 && (prefix + Scalar(value))[1] == prefix[1]
  {
    ScalarRoundTrip(value);
    var text := prefix + Scalar(value);
    assert text[|text| - 1] == '\"';
  }

  /** What the reader makes of the line `add_body_any` inserts. */
  lemma {:induction false} AnyIsItem(indent: string, value: string)
    requires Spaces(indent) && indent != ""
    ensures Document(AnyItem(indent, value)) == [Node(4 * |indent| + 1, "- " + Scalar(value), [])]
    ensures IsItem(AnyItem(indent, value), indent)
  {
    var text := "- " + Scalar(value);
    ScalarEnds("- ", value);
    ItemLine(indent, text);
    OneLine(indent + indent + text, Entry(4 * |indent| + 1, text));
  }

  lemma {:induction false} TwoEntries(e1: Entry, e2: Entry)
    requires e2.depth > e1.depth
    ensures IsTwig([e1, e2]) && Forest([e1, e2]) == [Node(e1.depth, e1.text, [Node(e2.depth, e2.text, [])])]
    ensures Uniform(Forest([e1, e2]))
  {
    assert [e1, e2][1..] == [e2] && [e2][1..] == [];
    TwigForest([e2]);
    TwigForest([e1, e2]);
  }

  lemma {:induction false} TwoLines(line1: string, line2: string, e1: Entry, e2: Entry)
    requires Content(line1) && Content(line2) && EntryOf(line1) == e1 && EntryOf(line2) == e2
    ensures Entries([line1, line2]) == [e1, e2]
  {
    assert [line1, line2] == [line1] + [line2];
    EntriesConcat([line1], [line2]);
    OneLine(line1, e1);
    OneLine(line2, e2);
  }

  lemma {:induction false} PairIsItem(indent: string, first: string, second: string)
    requires Spaces(indent) && indent != "" && Trimmed(first) && |first| > 1 && first[0] == '-' && first[1] == ' '
    requires Trimmed(second) && second[0] != '-' && second[0] != '#'
    ensures var item := [indent + indent + first, indent + indent + "  " + second];
            && IsItem(item, indent)
            && Document(item) == [Node(4 * |indent| + 1, first, [Node(4 * |indent| + 4, second, [])])]
  {
    ItemLine(indent, first);
    FieldLine(indent, second);
    TwoLines(indent + indent + first, indent + indent + "  " + second,
             Entry(4 * |indent| + 1, first), Entry(4 * |indent| + 4, second));
    TwoEntries(Entry(4 * |indent| + 1, first), Entry(4 * |indent| + 4, second));
  }

  /** What the reader makes of the lines `add_body_include` inserts. */
  lemma {:induction false} IncludeIsItem(indent: string, guid: string, body: string)
    requires Spaces(indent) && indent != ""
    ensures IsItem(IncludeItem(indent, guid, body), indent)
    ensures Document(IncludeItem(indent, guid, body)) ==
            [Node(4 * |indent| + 1, "- provider_guid: " + Scalar(guid), [Node(4 * |indent| + 4, "body: " + Scalar(body), [])])]
  {
    ScalarEnds(GUID_FIELD, guid);
    ScalarEnds(BODY_FIELD, body);
    PairIsItem(indent, GUID_FIELD + Scalar(guid), BODY_FIELD + Scalar(body));
  }

  lemma {:induction false} KeysArePlain()
    ensures PlainKey(SOURCE) && PlainKey(BODY_ANY) && PlainKey(BODY_INCLUDES) && SingleKey(BODY_ANY) && SingleKey(BODY_INCLUDES)
  {}

  predicate SingleKey(key: string) { '\n' !in key }

  lemma {:induction false} AnyPrintable(indent: string, value: string)
    requires '\n' !in indent
    ensures Printable(AnyItem(indent, value)) && AnyItem(indent, value) != []
  {
    ScalarRoundTrip(value);
  }

  lemma {:induction false} IncludePrintable(indent: string, guid: string, body: string)
    requires '\n' !in indent
    ensures Printable(IncludeItem(indent, guid, body)) && IncludeItem(indent, guid, body) != []
  {
    ScalarRoundTrip(guid);
    ScalarRoundTrip(body);
  }

  lemma {:induction false} IndentIsOneLine(text: string, top: string, b: Block)
    requires IsBlock(Split(text).0, top, b)
    ensures '\n' !in b.indent
  {
    SplitParts(text);
    var line := Split(text).0[FirstFilled(Split(text).0, b.header + 1)];
    assert '\n' !in line;
  }

  /** The output's lines are the spliced ones, so that an edit is never a no-op. */
  lemma {:induction false} EditSplits(text: string, top: string, key: string, b: Block, sub: Option<Sub>, item: seq<string>)
    requires IsBlock(Split(text).0, top, b) && IsSub(Split(text).0, b, key, sub)
    requires Printable(item) && item != [] && SingleKey(key)
    ensures var (lines, trailing) := Split(text);
            Split(Join(Edited(lines, b, key, sub, item), trailing)) == (Edited(lines, b, key, sub, item), trailing)
    ensures Join(Edited(Split(text).0, b, key, sub, item), Split(text).1) != text
  {
    IndentIsOneLine(text, top, b);
    match sub
    case Some(s) => SpliceSplits(text, s.last, item);
    case None => SpliceSplits(text, b.end, [Head(b.indent, key)] + item);
  }

  /** An indent that is not all spaces is that of a comment, and the key created at it is not read. */
  lemma {:induction false} TabsUnread(lines: seq<string>, top: string, b: Block, key: string, sub: Option<Sub>, item: seq<string>)
    requires PlainKey(top) && PlainKey(key) && Indented(lines) && IsBlock(lines, top, b) && IsSub(lines, b, key, sub) && !Spaces(b.indent)
    ensures sub.None? && !Readable(Edited(lines, b, key, sub, item))
  {
    BlockFacts(lines, top, b);
    if sub.Some? {
      KeyFacts(lines, b, key, sub.value);
    } else {
      var after, head := Edited(lines, b, key, sub, item), Head(b.indent, key);
      assert after[b.end] == head;
      RStripKeeps(head);
      HeadLine(head, b.indent, key);
    }
  }

  lemma {:induction false} RStripKeeps(s: string)
    requires s != "" && !IsSpace(s[|s| - 1])
    ensures RStrip(s) == s
  {}

  /** What an edit means: the text splits into the spliced lines; the document gains the item at the end
      of the list, or in a new list, and changes nowhere else, and the guard accepts the output, exactly
      when the place fits; a new list then is the block's last key, unless a comment at column 0 hid some. */
  ghost predicate EditMeans(text: string, top: string, key: string, b: Block, sub: Option<Sub>, item: seq<string>)
    requires IsBlock(Split(text).0, top, b) && IsSub(Split(text).0, b, key, sub) && IsSite(Split(text).0, b, sub)
  {
    var (lines, trailing) := Split(text);
    var after := Edited(lines, b, key, sub, item);
    && Split(Join(after, trailing)) == (after, trailing)
    && (Appended(lines, after, top, key, item) <==> Fits(lines, b, key, sub, item))
    && (Fits(lines, b, key, sub, item) && (sub.Some? || Entries(lines[b.end..BlockEnd(lines, b)]) == []) ==>
          IsAppendUnder(lines, after, top, b, key, item))
  }

  lemma {:induction false} EditMeaning(text: string, top: string, key: string, b: Block, sub: Option<Sub>, item: seq<string>)
    requires PlainKey(top) && PlainKey(key) && SingleKey(key) && Readable(Split(text).0)
    requires IsBlock(Split(text).0, top, b) && IsSub(Split(text).0, b, key, sub) && IsSite(Split(text).0, b, sub)
    requires Printable(item) && item != [] && (Spaces(b.indent) ==> IsItem(item, b.indent))
    ensures EditMeans(text, top, key, b, sub, item)
  {
    var lines := Split(text).0;
    EditSplits(text, top, key, b, sub, item);
    if !Spaces(b.indent) {
      TabsUnread(lines, top, b, key, sub, item);
    } else {
      match sub
      case Some(s) => EditListMeaning(lines, top, key, b, s, item);
      case None => EditNewKeyMeaning(lines, top, key, b, item);
    }
  }

  /** `add_body_any` on a file the reader accepts, `top` and `key` being its two keys: it appends its item
      and does nothing else, exactly when the place fits. */
  lemma {:induction false} AddBodyAnyMeaning(text: string, top: string, key: string, value: string, b: Block, sub: Option<Sub>)
    requires PlainKey(top) && PlainKey(key) && SingleKey(key) && Readable(Split(text).0)
    requires IsBlock(Split(text).0, top, b) && IsSub(Split(text).0, b, key, sub)
    ensures IsSite(Split(text).0, b, sub) && EditMeans(text, top, key, b, sub, AnyItem(b.indent, value))
  {
    BlockFacts(Split(text).0, top, b);
    IndentIsOneLine(text, top, b);
    AnyPrintable(b.indent, value);
    if Spaces(b.indent) { AnyIsItem(b.indent, value); }
    EditMeaning(text, top, key, b, sub, AnyItem(b.indent, value));
  }

  /** And so does `add_body_include` with its mapping of guid and body. */
  lemma {:induction false} AddBodyIncludeMeaning(text: string, top: string, key: string, guid: string, body: string, b: Block, sub: Option<Sub>)
    requires PlainKey(top) && PlainKey(key) && SingleKey(key) && Readable(Split(text).0)
    requires IsBlock(Split(text).0, top, b) && IsSub(Split(text).0, b, key, sub)
    ensures IsSite(Split(text).0, b, sub) && EditMeans(text, top, key, b, sub, IncludeItem(b.indent, guid, body))
  {
    BlockFacts(Split(text).0, top, b);
    IndentIsOneLine(text, top, b);
    IncludePrintable(b.indent, guid, body);
    if Spaces(b.indent) { IncludeIsItem(b.indent, guid, body); }
    EditMeaning(text, top, key, b, sub, IncludeItem(b.indent, guid, body));
  }

  /** Nor is a second edit one: it appends the item again. */
  lemma {:induction false} SecondEditAppendsAgain(lines: seq<string>, once: seq<string>, twice: seq<string>, top: string, key: string, item: seq<string>)
    requires Appended(lines, once, top, key, item) && Appended(once, twice, top, key, item)
    ensures Items(Document(twice), top + ":", key + ":") == Items(Document(lines), top + ":", key + ":") + Document(item) + Document(item)
  {
    assert Document(item) == [Document(item)[0]];
  }

  lemma {:induction false} AnyEffect(text: string, value: string, b: Block, sub: Option<Sub>)
    requires IsBlock(Split(text).0, SOURCE, b) && IsSub(Split(text).0, b, BODY_ANY, sub)
    ensures Join(Edited(Split(text).0, b, BODY_ANY, sub, AnyItem(b.indent, value)), Split(text).1) != text
    ensures Readable(Split(text).0) ==> IsSite(Split(text).0, b, sub) && EditMeans(text, SOURCE, BODY_ANY, b, sub, AnyItem(b.indent, value))
  {
    KeysArePlain();
    IndentIsOneLine(text, SOURCE, b);
    AnyPrintable(b.indent, value);
    EditSplits(text, SOURCE, BODY_ANY, b, sub, AnyItem(b.indent, value));
    if Readable(Split(text).0) { AddBodyAnyMeaning(text, SOURCE, BODY_ANY, value, b, sub); }
  }

  lemma {:induction false} IncludeEffect(text: string, guid: string, body: string, b: Block, sub: Option<Sub>)
    requires IsBlock(Split(text).0, SOURCE, b) && IsSub(Split(text).0, b, BODY_INCLUDES, sub)
    ensures Join(Edited(Split(text).0, b, BODY_INCLUDES, sub, IncludeItem(b.indent, guid, body)), Split(text).1) != text
    ensures Readable(Split(text).0) ==>
              IsSite(Split(text).0, b, sub) && EditMeans(text, SOURCE, BODY_INCLUDES, b, sub, IncludeItem(b.indent, guid, body))
  {
    KeysArePlain();
    IndentIsOneLine(text, SOURCE, b);
    IncludePrintable(b.indent, guid, body);
    EditSplits(text, SOURCE, BODY_INCLUDES, b, sub, IncludeItem(b.indent, guid, body));
    if Readable(Split(text).0) { AddBodyIncludeMeaning(text, SOURCE, BODY_INCLUDES, guid, body, b, sub); }
  }

  /** `add_body_any` */
  method AddBodyAny(text: string, value: string) returns (r: Outcome<string>, ghost b: Block, ghost sub: Option<Sub>)
    ensures Refused(Split(text).0, "body_any", r)
    ensures r.Ok? ==> IsBlock(Split(text).0, "source", b) && IsSub(Split(text).0, b, "body_any", sub)
    ensures r.Ok? ==> r.value == Join(Edited(Split(text).0, b, "body_any", sub, AnyItem(b.indent, value)), Split(text).1) && r.value != text
    ensures r.Ok? && Readable(Split(text).0) ==>
              IsSite(Split(text).0, b, sub) && EditMeans(text, "source", "body_any", b, sub, AnyItem(b.indent, value))
  {
    b, sub := Block(0, 0, ""), None;
    var (lines, trailing) := Split(text);
    var block := BlockBounds(lines, SOURCE);
    if !block.Ok? { return (if block.NoBlock? then NoBlock else EmptyBlock), b, sub; }
    b := block.value;
    var found := SubkeyItemsEnd(lines, block.value, BODY_ANY);
    if !found.Ok? { return Inline, b, sub; }
    sub := found.value;
    AnyEffect(text, value, b, sub);
    var indent, end := block.value.indent, block.value.end;
    if found.value.None? {
      lines := lines[..end] + ([Head(indent, BODY_ANY)] + [indent + indent + ("- " + Scalar(value))]) + lines[end..];
    } else {
      var itemsEnd := found.value.value.last;
      lines := lines[..itemsEnd] + [indent + indent + ("- " + Scalar(value))] + lines[itemsEnd..];
    }
    return Ok(Join(lines, trailing)), b, sub;
  }

  /** `add_body_include` */
  method AddBodyInclude(text: string, guid: string, body: string) returns (r: Outcome<string>, ghost b: Block, ghost sub: Option<Sub>)
    ensures Refused(Split(text).0, "body_includes", r)
    ensures r.Ok? ==> IsBlock(Split(text).0, "source", b) && IsSub(Split(text).0, b, "body_includes", sub)
    ensures r.Ok? ==> r.value == Join(Edited(Split(text).0, b, "body_includes", sub, IncludeItem(b.indent, guid, body)), Split(text).1) && r.value != text
    ensures r.Ok? && Readable(Split(text).0) ==>
              IsSite(Split(text).0, b, sub) && EditMeans(text, "source", "body_includes", b, sub, IncludeItem(b.indent, guid, body))
  {
    b, sub := Block(0, 0, ""), None;
    var (lines, trailing) := Split(text);
    var block := BlockBounds(lines, SOURCE);
    if !block.Ok? { return (if block.NoBlock? then NoBlock else EmptyBlock), b, sub; }
    b := block.value;
    var entry := IncludeItem(block.value.indent, guid, body);
    var found := SubkeyItemsEnd(lines, block.value, BODY_INCLUDES);
    if !found.Ok? { return Inline, b, sub; }
    sub := found.value;
    IncludeEffect(text, guid, body, b, sub);
    var indent, end := block.value.indent, block.value.end;
    if found.value.None? {
      lines := lines[..end] + ([Head(indent, BODY_INCLUDES)] + entry) + lines[end..];
    } else {
      var itemsEnd := found.value.value.last;
      lines := lines[..itemsEnd] + entry + lines[itemsEnd..];
    }
    return Ok(Join(lines, trailing)), b, sub;
  }

  // ---------------------------------------------------------------- files the edit does not fit

  /** A block that opens with a comment one column right of its keys. */
  function Commented(top: string, indent: string, child: string): seq<string> {
    [Head("", top), indent + " #", indent + child]
  }

  predicate ChildText(text: string) { Trimmed(text) && text[0] != '#' && text[0] != '-' }

  /** The scans take the comment's indent for the block's. */
  lemma {:induction false} CommentedSite(top: string, indent: string, key: string, child: string)
    requires Spaces(indent) && indent != "" && PlainKey(top) && PlainKey(key) && ChildText(child) && RStrip(Head("", top)) == Head("", top)
    ensures IsBlock(Commented(top, indent, child), top, Block(0, 3, indent + " "))
    ensures IsSub(Commented(top, indent, child), Block(0, 3, indent + " "), key, None)
  {
    var lines, pad, n := Commented(top, indent, child), indent + " ", |indent|;
    assert lines[1] == pad + "#";
    PaddedLine(pad, "#");
    PaddedLine(indent, child);
    assert StopsAt(lines, 3, 3, 3, 0);
    RStripKeeps(lines[1]);
    RStripKeeps(lines[2]);
    assert Head(pad, key)[n] == ' ' && Head(pad, key)[n + 1] == key[0];
    assert lines[1][n + 1] == '#' && lines[2][n] == child[0];
  }

  /** And the new key, put in the comment's column, is not a key of the block. */
  lemma {:induction false} CommentMisleads(top: string, indent: string, key: string, child: string, item: seq<string>)
    requires Spaces(indent) && indent != "" && PlainKey(top) && PlainKey(key) && ChildText(child) && RStrip(Head("", top)) == Head("", top)
    requires IsItem(item, indent + " ")
    ensures var lines := Commented(top, indent, child);
            Readable(lines) && !Appended(lines, Edited(lines, Block(0, 3, indent + " "), key, None, item), top, key, item)
  {
    var lines, b := Commented(top, indent, child), Block(0, 3, indent + " ");
    CommentedSite(top, indent, key, child);
    CommentedReads(top, indent, child);
    EditNewKeyMeaning(lines, top, key, b, item);
  }

  lemma {:induction false} CommentedReads(top: string, indent: string, child: string)
    requires Spaces(indent) && indent != "" && PlainKey(top) && ChildText(child) && RStrip(Head("", top)) == Head("", top)
    ensures var lines := Commented(top, indent, child); Readable(lines) && !StartsAt(lines[1..3], 2 * |indent + " "|)
  {
    var lines := Commented(top, indent, child);
    var e0, e2 := Entry(0, top + ":"), Entry(2 * |indent|, child);
    HeadLine(lines[0], "", top);
    PaddedLine(indent, child);
    PaddedLine(indent + " ", "#");
    assert lines[1] == (indent + " ") + "#";
    assert Content(lines[2]) && EntryOf(lines[2]) == e2;
    assert lines[1..3] == [lines[1], lines[2]];
    SkipComment(lines[1], lines[2], e2);
    OneLine(lines[0], e0);
    EntriesConcat([lines[0]], [lines[1], lines[2]]);
    assert lines == [lines[0]] + [lines[1], lines[2]] && [e0] + [e2] == [e0, e2];
    TwoEntries(e0, e2);
  }

  lemma {:induction false} SkipComment(comment: string, line: string, e: Entry)
    requires !Content(comment) && Content(line) && EntryOf(line) == e
    ensures Entries([comment, line]) == [e]
  {
    OneLine(line, e);
    assert [comment, line][1..] == [line];
  }

  /** A file whose list is written at its key's own indent, as block YAML allows. */
  function Compact(top: string, indent: string, key: string, item: string): seq<string> {
    [Head("", top), Head(indent, key), indent + item]
  }

  predicate ItemText(text: string) { Trimmed(text) && |text| > 1 && text[0] == '-' && text[1] == ' ' }

  /** The scans accept such a file, and put a new item before the old ones. */
  lemma {:induction false} CompactSite(top: string, indent: string, key: string, item: string)
    requires Spaces(indent) && indent != "" && PlainKey(top) && PlainKey(key) && ItemText(item)
    requires RStrip(Head("", top)) == Head("", top) && RStrip(Head(indent, key)) == Head(indent, key)
    ensures IsBlock(Compact(top, indent, key, item), top, Block(0, 3, indent))
    ensures IsSub(Compact(top, indent, key, item), Block(0, 3, indent), key, Some(Sub(1, 2)))
  {
    var lines := Compact(top, indent, key, item);
    HeadLine(lines[1], indent, key);
    LineParts(lines[1]);
    CompactLine(indent, item);
    assert Indent(lines[1]) == indent;
    assert StopsAt(lines, 3, 3, 3, 0) && StopsAt(lines, 2, 2, 3, |indent|);
    assert lines[2][|indent|] == '-' && Head(indent, key)[|indent|] == key[0];
    assert !StartsWith(lines[2], Head(indent, key));
  }

  lemma {:induction false} CompactReadable(top: string, indent: string, key: string, item: string)
    requires Spaces(indent) && indent != "" && PlainKey(top) && PlainKey(key) && ItemText(item)
    requires RStrip(Head("", top)) == Head("", top) && RStrip(Head(indent, key)) == Head(indent, key)
    ensures Readable(Compact(top, indent, key, item))
  {
    var c := |indent|;
    var l0, l1, l2 := Head("", top), Head(indent, key), indent + item;
    var e0, e1, e2 := Entry(0, top + ":"), Entry(2 * c, key + ":"), Entry(2 * c + 1, item);
    HeadLine(l0, "", top);
    HeadLine(l1, indent, key);
    CompactLine(indent, item);
    ThreeLines(l0, l1, l2, e0, e1, e2);
    ThreeEntries(e0, e1, e2);
  }

  /** The new item then stands alone below the key, deeper than the old one: the file, readable before,
      is not any more. */
  lemma {:induction false} CompactListBreaks(top: string, indent: string, key: string, item: string, added: string)
    requires Spaces(indent) && indent != "" && PlainKey(top) && PlainKey(key) && ItemText(item) && ItemText(added)
    requires RStrip(Head("", top)) == Head("", top) && RStrip(Head(indent, key)) == Head(indent, key)
    ensures var lines := Compact(top, indent, key, item);
            && Readable(lines)
            && !Readable(Edited(lines, Block(0, 3, indent), key, Some(Sub(1, 2)), [indent + indent + added]))
  {
    var c := |indent|;
    var l0, l1, l2, l3 := Head("", top), Head(indent, key), indent + item, indent + indent + added;
    CompactReadable(top, indent, key, item);
    HeadLine(l0, "", top);
    HeadLine(l1, indent, key);
    CompactLine(indent, item);
    ItemLine(indent, added);
    assert Edited([l0, l1, l2], Block(0, 3, indent), key, Some(Sub(1, 2)), [l3]) == [l0, l1, l3, l2];
    FourLines(l0, l1, l3, l2, Entry(0, top + ":"), Entry(2 * c, key + ":"), Entry(4 * c + 1, added), Entry(2 * c + 1, item));
  }

  lemma {:induction false} CompactLine(indent: string, text: string)
    requires Spaces(indent) && Trimmed(text) && |text| > 1 && text[0] == '-' && text[1] == ' '
    ensures Content(indent + text) && Indent(indent + text) == indent && EntryOf(indent + text) == Entry(2 * |indent| + 1, text)
  {
    PaddedLine(indent, text);
    assert (indent + text)[|indent|] == text[0] && (indent + text)[|indent| + 1] == text[1];
  }

  lemma {:induction false} ThreeLines(l0: string, l1: string, l2: string, e0: Entry, e1: Entry, e2: Entry)
    requires Content(l0) && Content(l1) && Content(l2) && EntryOf(l0) == e0 && EntryOf(l1) == e1 && EntryOf(l2) == e2
    ensures Entries([l0, l1, l2]) == [e0, e1, e2]
  {
    TwoLines(l1, l2, e1, e2);
    OneLine(l0, e0);
    EntriesConcat([l0], [l1, l2]);
    assert [l0] + [l1, l2] == [l0, l1, l2] && [e0] + [e1, e2] == [e0, e1, e2];
  }

  lemma {:induction false} ThreeEntries(e0: Entry, e1: Entry, e2: Entry)
    requires 0 == e0.depth < e1.depth < e2.depth
    ensures Uniform(Forest([e0, e1, e2])) && Forest([e0, e1, e2])[0].column == 0
  {
    assert [e0, e1, e2][1..] == [e1, e2];
    TwoEntries(e1, e2);
    TwigForest([e0, e1, e2]);
  }

  lemma {:induction false} FourLines(l0: string, l1: string, l2: string, l3: string, e0: Entry, e1: Entry, e2: Entry, e3: Entry)
    requires Content(l0) && Content(l1) && Content(l2) && Content(l3)
    requires EntryOf(l0) == e0 && EntryOf(l1) == e1 && EntryOf(l2) == e2 && EntryOf(l3) == e3
    requires e0.depth < e1.depth < e3.depth < e2.depth
    ensures !Uniform(Document([l0, l1, l2, l3]))
  {
    TwoLines(l0, l1, e0, e1);
    TwoLines(l2, l3, e2, e3);
    EntriesConcat([l0, l1], [l2, l3]);
    assert [l0, l1] + [l2, l3] == [l0, l1, l2, l3] && [e0, e1] + [e2, e3] == [e0, e1, e2, e3];
    FourEntries(e0, e1, e2, e3);
  }

  lemma {:induction false} FourEntries(e0: Entry, e1: Entry, e2: Entry, e3: Entry)
    requires e0.depth < e1.depth < e3.depth < e2.depth
    ensures !Uniform(Forest([e0, e1, e2, e3]))
  {
    TwoUneven(e2, e3);
    assert [e0, e1, e2, e3][1..] == [e1, e2, e3] && [e1, e2, e3][1..] == [e2, e3];
    TwigForest([e1, e2, e3]);
    assert Forest([e1, e2, e3])[0].children == Forest([e2, e3]);
    TwigForest([e0, e1, e2, e3]);
    assert Forest([e0, e1, e2, e3])[0].children == Forest([e1, e2, e3]);
  }

  lemma {:induction false} TwoUneven(e: Entry, e': Entry)
    requires e'.depth < e.depth
    ensures !Uniform(Forest([e, e']))
  {
    TwoForest(e, e');
    Uneven(Node(e.depth, e.text, []), Node(e'.depth, e'.text, []));
  }

  lemma {:induction false} TwoForest(e: Entry, e': Entry)
    requires e'.depth < e.depth
    ensures Forest([e, e']) == [Node(e.depth, e.text, [])] + [Node(e'.depth, e'.text, [])]
  {
    assert [e, e'] == [e] + [e'];
    ForestConcat([e], [e']);
    OneEntry(e);
    OneEntry(e');
  }

  lemma {:induction false} Uneven(n: Node, n': Node)
    requires n.column != n'.column
    ensures !Uniform([n] + [n'])
  {
    var f := [n] + [n'];
    assert f[0] == n && f[1] == n';
  }

  lemma {:induction false} OneEntry(e: Entry)
    ensures Forest([e]) == [Node(e.depth, e.text, [])]
  {
    assert [e][1..] == [];
    TwigForest([e]);
  }
}