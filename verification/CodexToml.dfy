/**
 The table editor for the Codex configuration: installing appends a block, uninstalling drops
 every elisym table. Lines end at a line feed, and no other line terminator occurs.
 */
module CodexToml {
  import opened Prelude

  datatype Range = Range(start: nat, end: nat, path: string)

  predicate LfOnly(raw: string) {
    forall i :: 0 <= i < |raw| ==> raw[i] != '\r' && raw[i] != '\U{2028}' && raw[i] != '\U{2029}'
  }

  // ---- Lines ----

  /** Every line with its line feed, and the (possibly empty) rest after the last one. */
  function Lines(raw: string): (lines: seq<string>)
    ensures lines != []
  {
    if raw == "" then [""] else Push(raw[0], Lines(raw[1..]))
  }

  /** One character in front: a line feed is a line of its own, anything else starts the first line. */
  function Push(c: char, lines: seq<string>): (more: seq<string>)
    requires lines != []
    ensures more != []
  {
    if c == '\n' then ["\n"] + lines else [[c] + lines[0]] + lines[1..]
  }

  // ---- Headers ----

  function TrimStart(s: string): string {
    if s != "" && IsSpace(s[0]) then TrimStart(s[1..]) else s
  }

  function TrimEnd(s: string): string {
    if s != "" && IsSpace(s[|s| - 1]) then TrimEnd(s[..|s| - 1]) else s
  }

  /** Up to the first closing bracket, if there is one. */
  function UpToClose(s: string): Option<string> {
    if s == "" then None
    else if s[0] == ']' then Some("")
    else
      match UpToClose(s[1..])
      case None => None
      case Some(rest) => Some([s[0]] + rest)
  }

  lemma {:induction false} UpToCloseFits(s: string)
    ensures UpToClose(s).Some? ==> |UpToClose(s).value| < |s|
  {
    if s != "" && s[0] != ']' {
      UpToCloseFits(s[1..]);
    }
  }

  /** The path of a table header: a bracketed name, then nothing but white space or a comment. */
  function ParseTomlTableHeader(line: string): Option<string> {
    var body := TrimStart(TrimEnd(line));
    if body == "" || body[0] != '[' then None
    else
      UpToCloseFits(body[1..]);
      match UpToClose(body[1..])
      case None => None
      case Some(path) =>
        var rest := TrimStart(body[|path| + 2..]);
        if path != "" && (rest == "" || rest[0] == '#') then Some(path) else None
  }

  predicate IsCodexElisymPath(path: string) {
    path == "mcp_servers.elisym" || "mcp_servers.elisym." <= path
  }

  // ---- Ranges ----

  /** A line and the table it opens, if it is a header. */
  datatype Row = Row(text: string, path: Option<string>)

  function Rows(lines: seq<string>): (rows: seq<Row>)
    ensures |rows| == |lines|
    ensures forall i :: 0 <= i < |rows| ==> rows[i] == Row(lines[i], ParseTomlTableHeader(lines[i]))
  {
    seq(|lines|, i requires 0 <= i < |lines| => Row(lines[i], ParseTomlTableHeader(lines[i])))
  }

  function Text(rows: seq<Row>): string {
    if rows == [] then "" else rows[0].text + Text(rows[1..])
  }

  /** The characters before the next header. */
  function BodyLength(rows: seq<Row>): nat {
    if rows == [] || rows[0].path.Some? then 0 else |rows[0].text| + BodyLength(rows[1..])
  }

  /** The tables of a text that starts at offset `at`: each from its header to the next one or the end. */
  function Ranges(rows: seq<Row>, at: nat): seq<Range> {
    if rows == [] then []
    else if rows[0].path.None? then Ranges(rows[1..], at + |rows[0].text|)
    else [FirstOf(rows, at)] + Ranges(rows[1..], at + |rows[0].text|)
  }

  function FirstOf(rows: seq<Row>, at: nat): Range
    requires rows != [] && rows[0].path.Some?
  {
    Range(at, at + |rows[0].text| + BodyLength(rows[1..]), rows[0].path.value)
  }

  function Offset(rows: seq<Row>, i: nat): nat
    requires i <= |rows|
  {
    if i == 0 then 0 else Offset(rows, i - 1) + |rows[i - 1].text|
  }

  lemma {:induction false} OffsetOfTail(rows: seq<Row>, i: nat)
    requires 0 < i <= |rows|
    ensures Offset(rows, i) == |rows[0].text| + Offset(rows[1..], i - 1)
  {
    if i > 1 {
      OffsetOfTail(rows, i - 1);
    }
  }

  lemma {:induction false} TextLength(rows: seq<Row>)
    ensures |Text(rows)| == Offset(rows, |rows|)
  {
    if rows != [] {
      TextLength(rows[1..]);
      OffsetOfTail(rows, |rows|);
    }
  }

  function Concat(lines: seq<string>): string {
    if lines == [] then "" else lines[0] + Concat(lines[1..])
  }

  lemma ConcatPush(c: char, lines: seq<string>)
    requires lines != []
    ensures Concat(Push(c, lines)) == [c] + Concat(lines)
  {
    if c == '\n' {
      assert (["\n"] + lines)[1..] == lines;
    } else {
      assert ([[c] + lines[0]] + lines[1..])[1..] == lines[1..];
    }
  }

  lemma {:induction false} LinesConcat(raw: string)
    ensures Concat(Lines(raw)) == raw
  {
    if raw == "" {
      assert Concat([""][1..]) == "";
    } else {
      LinesConcat(raw[1..]);
      ConcatPush(raw[0], Lines(raw[1..]));
      assert [raw[0]] + raw[1..] == raw;
    }
  }

  lemma RowsTail(lines: seq<string>)
    requires lines != []
    ensures Rows(lines)[1..] == Rows(lines[1..]) && Rows(lines)[0].text == lines[0]
  {
  }

  lemma {:induction false} RowsText(lines: seq<string>)
    ensures Text(Rows(lines)) == Concat(lines)
  {
    if lines != [] {
      RowsTail(lines);
      RowsText(lines[1..]);
    }
  }

  lemma LinesText(raw: string)
    ensures Text(Rows(Lines(raw))) == raw
  {
    RowsText(Lines(raw));
    LinesConcat(raw);
  }

  lemma {:induction false} BodyEnds(rows: seq<Row>, i: nat, k: nat)
    requires i <= k <= |rows| && forall j :: i <= j < k ==> rows[j].path.None?
    requires k < |rows| ==> rows[k].path.Some?
    ensures BodyLength(rows[i..]) == Offset(rows, k) - Offset(rows, i)
    decreases k - i
  {
    if i < k {
      BodyEnds(rows, i + 1, k);
      assert rows[i..][1..] == rows[i + 1..];
    }
  }

  ghost function RangesFrom(rows: seq<Row>, i: nat): seq<Range>
    requires i <= |rows|
  {
    Ranges(rows[i..], Offset(rows, i))
  }

  method LineOffsets(rows: seq<Row>) returns (offsets: seq<int>)
    ensures |offsets| == |rows| && forall k :: 0 <= k < |rows| ==> offsets[k] == Offset(rows, k)
  {
    offsets := [];
    var offset := 0;
    var i := 0;
    while i < |rows|
      invariant 0 <= i <= |rows| && |offsets| == i && offset == Offset(rows, i)
      invariant forall k :: 0 <= k < i ==> offsets[k] == Offset(rows, k)
    {
      offsets := offsets + [offset];
      offset := offset + |rows[i].text|;
      i := i + 1;
    }
  }

  method NextHeader(rows: seq<Row>, offsets: seq<int>, lineIndex: nat, length: nat) returns (end: int)
    requires |offsets| == |rows| && lineIndex < |rows|
    requires length == Offset(rows, |rows|) && forall k :: 0 <= k < |rows| ==> offsets[k] == Offset(rows, k)
    ensures end == Offset(rows, lineIndex + 1) + BodyLength(rows[lineIndex + 1..])
  {
    end := length;
    var next := lineIndex + 1;
    while next < |rows|
      invariant lineIndex < next <= |rows| && end == length
      invariant forall j :: lineIndex < j < next ==> rows[j].path.None?
    {
      if rows[next].path.Some? {
        end := offsets[next];
        break;
      }
      next := next + 1;
    }
    BodyEnds(rows, lineIndex + 1, next);
  }

  /** The range that line `i` opens, if it is a header. */
  ghost function Here(rows: seq<Row>, i: nat): seq<Range>
    requires i < |rows|
  {
    if rows[i].path.None? then []
    else [Range(Offset(rows, i), Offset(rows, i + 1) + BodyLength(rows[i + 1..]), rows[i].path.value)]
  }

  method RangeAt(rows: seq<Row>, offsets: seq<int>, i: nat, length: nat) returns (here: seq<Range>)
    requires |offsets| == |rows| && i < |rows|
    requires length == Offset(rows, |rows|) && forall k :: 0 <= k < |rows| ==> offsets[k] == Offset(rows, k)
    ensures here == Here(rows, i)
  {
    here := [];
    if rows[i].path.Some? {
      var end := NextHeader(rows, offsets, i, length);
      here := [Range(offsets[i], end, rows[i].path.value)];
    }
  }

  lemma RangeStep(rows: seq<Row>, i: nat)
    requires i < |rows|
    ensures RangesFrom(rows, i) == Here(rows, i) + RangesFrom(rows, i + 1)
  {
    assert rows[i..][1..] == rows[i + 1..];
    if rows[i].path.None? {
      assert [] + RangesFrom(rows, i + 1) == RangesFrom(rows, i + 1);
    }
  }

  lemma Reassociate(a: seq<Range>, b: seq<Range>, c: seq<Range>)
    ensures (a + b) + c == a + (b + c)
  {
  }

  /** The ranges so far and those to come, once one more line is looked at. */
  lemma RangesAdvance(rows: seq<Row>, i: nat, done: seq<Range>)
    requires i < |rows|
    ensures (done + Here(rows, i)) + RangesFrom(rows, i + 1) == done + RangesFrom(rows, i)
  {
    RangeStep(rows, i);
    Reassociate(done, Here(rows, i), RangesFrom(rows, i + 1));
  }

  lemma RangesEnd(rows: seq<Row>)
    ensures RangesFrom(rows, |rows|) == [] && RangesFrom(rows, 0) == Ranges(rows, 0)
  {
    assert rows[0..] == rows;
  }

  method TableRanges(rows: seq<Row>, length: nat) returns (ranges: seq<Range>)
    requires length == |Text(rows)|
    ensures ranges == Ranges(rows, 0)
  {
    var offsets := LineOffsets(rows);
    TextLength(rows);
    RangesEnd(rows);
    ranges := [];
    var lineIndex := 0;
    while lineIndex < |rows|
      invariant 0 <= lineIndex <= |rows|
      invariant ranges + RangesFrom(rows, lineIndex) == Ranges(rows, 0)
    {
      RangesAdvance(rows, lineIndex, ranges);
      var here := RangeAt(rows, offsets, lineIndex, length);
      ranges := ranges + here;
      lineIndex := lineIndex + 1;
    }
  }

  method FindTomlTableRanges(raw: string) returns (ranges: seq<Range>)
    requires LfOnly(raw)
    ensures ranges == Ranges(Rows(Lines(raw)), 0)
  {
    LinesText(raw);
    ranges := TableRanges(Rows(Lines(raw)), |raw|);
  }

  /** Consecutive ranges meet: nothing lies between them and nothing in both. */
  ghost predicate Meet(ranges: seq<Range>) {
    && (forall i :: 0 <= i < |ranges| ==> ranges[i].start <= ranges[i].end)
    && (forall i, j :: 0 <= i < j < |ranges| && j == i + 1 ==> ranges[i].end == ranges[j].start)
  }

  lemma {:induction false} FirstRange(rows: seq<Row>, at: nat)
    ensures var ranges := Ranges(rows, at);
            if ranges == [] then BodyLength(rows) == |Text(rows)| else ranges[0].start == at + BodyLength(rows)
  {
    if rows != [] {
      FirstRange(rows[1..], at + |rows[0].text|);
    }
  }

  lemma {:induction false} LastRange(rows: seq<Row>, at: nat)
    ensures var ranges := Ranges(rows, at); ranges != [] ==> ranges[|ranges| - 1].end == at + |Text(rows)|
  {
    if rows != [] {
      LastRange(rows[1..], at + |rows[0].text|);
      if Ranges(rows[1..], at + |rows[0].text|) == [] {
        FirstRange(rows[1..], at + |rows[0].text|);
      }
    }
  }

  lemma MeetOneMore(first: Range, rest: seq<Range>)
    requires first.start <= first.end && Meet(rest) && (rest != [] ==> rest[0].start == first.end)
    ensures Meet([first] + rest)
  {
  }

  lemma {:induction false} RangesMeet(rows: seq<Row>, at: nat)
    ensures Meet(Ranges(rows, at))
  {
    if rows != [] {
      var next := at + |rows[0].text|;
      RangesMeet(rows[1..], next);
      if rows[0].path.Some? {
        FirstRange(rows[1..], next);
        MeetOneMore(FirstOf(rows, at), Ranges(rows[1..], next));
      }
    }
  }

  /** The tables follow one another without gap or overlap, from the first header to the end of the text. */
  lemma RangesCover(raw: string)
    ensures var ranges := Ranges(Rows(Lines(raw)), 0);
            && Meet(ranges)
            && (ranges != [] ==> ranges[0].start == BodyLength(Rows(Lines(raw))) && ranges[|ranges| - 1].end == |raw|)
  {
    LinesText(raw);
    RangesMeet(Rows(Lines(raw)), 0);
    FirstRange(Rows(Lines(raw)), 0);
    LastRange(Rows(Lines(raw)), 0);
  }

  // ---- Removal ----

  /** What stays: every line that is in no elisym table. */
  function Kept(rows: seq<Row>, inElisym: bool): seq<Row> {
    if rows == [] then []
    else
      var now := if rows[0].path.Some? then IsCodexElisymPath(rows[0].path.value) else inElisym;
      if now then Kept(rows[1..], now) else [rows[0]] + Kept(rows[1..], now)
  }

  function ElisymRanges(ranges: seq<Range>): seq<Range> {
    if ranges == [] then []
    else if IsCodexElisymPath(ranges[0].path) then [ranges[0]] + ElisymRanges(ranges[1..])
    else ElisymRanges(ranges[1..])
  }

  function CutOne(text: string, range: Range): string {
    text[..if range.start < |text| then range.start else |text|] + (if range.end < |text| then text[range.end..] else "")
  }

  /** Cuts the ranges out, the last one first. */
  function Cut(text: string, ranges: seq<Range>): string {
    if ranges == [] then text else CutOne(Cut(text, ranges[1..]), ranges[0])
  }

  lemma {:induction false} BodyIsKept(rows: seq<Row>)
    ensures |Text(Kept(rows, false))| >= BodyLength(rows)
    ensures Text(Kept(rows, false))[BodyLength(rows)..] == Text(Kept(rows, true))
  {
    if rows != [] && rows[0].path.None? {
      BodyIsKept(rows[1..]);
      assert Kept(rows, false)[1..] == Kept(rows[1..], false);
      assert Kept(rows, true) == Kept(rows[1..], true);
    }
  }

  /** A text that starts at an elisym header is kept as from inside that table. */
  lemma KeptStarts(rows: seq<Row>)
    requires rows != [] && rows[0].path.Some? && IsCodexElisymPath(rows[0].path.value)
    ensures Kept(rows, false) == Kept(rows[1..], true)
  {
  }

  lemma OwnRangeFirst(first: Range, tail: seq<Range>)
    requires IsCodexElisymPath(first.path)
    ensures ElisymRanges([first] + tail) == [first] + ElisymRanges(tail)
  {
    assert ([first] + tail)[1..] == tail;
  }

  lemma CutFirst(text: string, first: Range, tail: seq<Range>)
    ensures Cut(text, [first] + tail) == CutOne(Cut(text, tail), first)
  {
    assert ([first] + tail)[1..] == tail;
  }

  lemma CutsOwnTable(prefix: string, rows: seq<Row>)
    requires rows != [] && rows[0].path.Some? && IsCodexElisymPath(rows[0].path.value)
    requires Cut(prefix + Text(rows), ElisymRanges(Ranges(rows[1..], |prefix| + |rows[0].text|)))
             == prefix + rows[0].text + Text(Kept(rows[1..], false))
    ensures Cut(prefix + Text(rows), ElisymRanges(Ranges(rows, |prefix|))) == prefix + Text(Kept(rows, false))
  {
    var first := FirstOf(rows, |prefix|);
    var tail := Ranges(rows[1..], |prefix| + |rows[0].text|);
    OwnRangeFirst(first, tail);
    CutFirst(prefix + Text(rows), first, ElisymRanges(tail));
    BodyIsKept(rows[1..]);
    CutsBody(prefix, rows[0].text, Text(Kept(rows[1..], false)), BodyLength(rows[1..]), first);
    KeptStarts(rows);
  }

  lemma SkipsOtherTable(rows: seq<Row>, at: nat)
    requires rows != [] && (rows[0].path.None? || !IsCodexElisymPath(rows[0].path.value))
    ensures ElisymRanges(Ranges(rows, at)) == ElisymRanges(Ranges(rows[1..], at + |rows[0].text|))
  {
    if rows[0].path.Some? {
      var tail := Ranges(rows[1..], at + |rows[0].text|);
      assert ([FirstOf(rows, at)] + tail)[1..] == tail;
    }
  }

  /** Cutting the elisym ranges out of a text leaves exactly the lines of no elisym table. */
  lemma {:induction false} CutKeeps(prefix: string, rows: seq<Row>)
    ensures Cut(prefix + Text(rows), ElisymRanges(Ranges(rows, |prefix|))) == prefix + Text(Kept(rows, false))
    decreases |rows|
  {
    if rows != [] {
      CutKeeps(prefix + rows[0].text, rows[1..]);
      assert prefix + rows[0].text + Text(rows[1..]) == prefix + Text(rows);
      if rows[0].path.Some? && IsCodexElisymPath(rows[0].path.value) {
        CutsOwnTable(prefix, rows);
      } else {
        SkipsOtherTable(rows, |prefix|);
        KeptLine(prefix, rows);
      }
    }
  }

  lemma KeptLine(prefix: string, rows: seq<Row>)
    requires rows != [] && (rows[0].path.None? || !IsCodexElisymPath(rows[0].path.value))
    ensures prefix + Text(Kept(rows, false)) == prefix + rows[0].text + Text(Kept(rows[1..], false))
  {
    assert Kept(rows, false)[1..] == Kept(rows[1..], false);
  }

  lemma CutsBody(prefix: string, head: string, text: string, body: nat, range: Range)
    requires body <= |text| && range.start == |prefix| && range.end == |prefix| + |head| + body
    ensures CutOne(prefix + head + text, range) == prefix + text[body..]
  {
    assert (prefix + head + text)[..|prefix|] == prefix;
  }

  /** The text without its elisym tables. */
  function Removed(raw: string): string {
    Text(Kept(Rows(Lines(raw)), false))
  }

  method RemoveCodexElisymTables(raw: string) returns (nextRaw: string)
    requires LfOnly(raw)
    ensures nextRaw == Removed(raw)
  {
    var all := FindTomlTableRanges(raw);
    var ranges := ElisymRanges(all);
    nextRaw := raw;
    var i := |ranges|;
    while i > 0
      invariant 0 <= i <= |ranges|
      invariant nextRaw == Cut(raw, ranges[i..])
    {
      i := i - 1;
      assert ranges[i..][1..] == ranges[i + 1..];
      nextRaw := CutOne(nextRaw, ranges[i]);
    }
    LinesText(raw);
    CutKeeps("", Rows(Lines(raw)));
    assert "" + Text(Rows(Lines(raw))) == raw;
    assert ranges[0..] == ranges;
  }
}
