/** Installing and uninstalling the Codex block: removal is clean, idempotent, and undoes an install. */
module CodexRoundTrip {
  import opened Prelude
  import opened CodexToml

  // ---- Removal leaves no elisym table and is idempotent ----

  ghost predicate NoElisym(rows: seq<Row>) {
    forall i :: 0 <= i < |rows| ==> !OpensElisym(rows[i])
  }

  predicate OpensElisym(row: Row) {
    row.path.Some? && IsCodexElisymPath(row.path.value)
  }

  predicate OpensOther(row: Row) {
    row.path.Some? && !IsCodexElisymPath(row.path.value)
  }

  /** Every row but the last ends at its line feed, and no row holds another one. */
  ghost predicate Broken(rows: seq<Row>) {
    && (forall i :: 0 <= i < |rows| ==> OneBreak(rows[i].text))
    && (forall i :: 0 <= i < |rows| - 1 ==> Ended(rows[i].text))
  }

  ghost predicate OneBreak(text: string) {
    text == "" || '\n' !in text[..|text| - 1]
  }

  predicate Ended(text: string) {
    text != "" && text[|text| - 1] == '\n'
  }

  lemma {:induction false} KeptIsClean(rows: seq<Row>, inElisym: bool)
    ensures NoElisym(Kept(rows, inElisym))
  {
    if rows != [] {
      KeptIsClean(rows[1..], if rows[0].path.Some? then IsCodexElisymPath(rows[0].path.value) else inElisym);
    }
  }

  lemma {:induction false} CleanIsKept(rows: seq<Row>)
    requires NoElisym(rows)
    ensures Kept(rows, false) == rows
  {
    if rows != [] {
      assert !OpensElisym(rows[0]);
      CleanIsKept(rows[1..]);
      assert [rows[0]] + rows[1..] == rows;
    }
  }

  lemma BrokenTail(rows: seq<Row>)
    requires rows != [] && Broken(rows)
    ensures Broken(rows[1..])
  {
  }

  lemma BrokenAgain(first: Row, rows: seq<Row>)
    requires OneBreak(first.text) && Broken(rows) && (rows != [] ==> Ended(first.text))
    ensures Broken([first] + rows)
  {
  }

  lemma {:induction false} KeptIsBroken(rows: seq<Row>, inElisym: bool)
    requires Broken(rows)
    ensures Broken(Kept(rows, inElisym)) && |Kept(rows, inElisym)| <= |rows|
  {
    if rows != [] {
      var now := if rows[0].path.Some? then IsCodexElisymPath(rows[0].path.value) else inElisym;
      BrokenTail(rows);
      KeptIsBroken(rows[1..], now);
      BrokenAgain(rows[0], if now then [] else Kept(rows[1..], now));
    }
  }

  lemma {:induction false} KeptIsParsed(rows: seq<Row>, inElisym: bool)
    requires forall i :: 0 <= i < |rows| ==> rows[i].path == ParseTomlTableHeader(rows[i].text)
    ensures forall i :: 0 <= i < |Kept(rows, inElisym)| ==>
              Kept(rows, inElisym)[i].path == ParseTomlTableHeader(Kept(rows, inElisym)[i].text)
  {
    if rows != [] {
      KeptIsParsed(rows[1..], if rows[0].path.Some? then IsCodexElisymPath(rows[0].path.value) else inElisym);
    }
  }

  lemma PushBroken(c: char, lines: seq<string>)
    requires lines != [] && forall i :: 0 <= i < |lines| ==> OneBreak(lines[i])
    requires forall i :: 0 <= i < |lines| - 1 ==> Ended(lines[i])
    ensures forall i :: 0 <= i < |Push(c, lines)| ==> OneBreak(Push(c, lines)[i])
    ensures forall i :: 0 <= i < |Push(c, lines)| - 1 ==> Ended(Push(c, lines)[i])
  {
    if c != '\n' {
      var first := [c] + lines[0];
      assert lines[0] != "" ==> first[..|first| - 1] == [c] + lines[0][..|lines[0]| - 1];
    }
  }

  lemma PushLast(c: char, lines: seq<string>)
    requires lines != []
    ensures var more := Push(c, lines);
            more[|more| - 1] == if |lines| == 1 && c != '\n' then [c] + lines[0] else lines[|lines| - 1]
  {
  }

  lemma {:induction false} LinesAreBroken(raw: string)
    ensures forall i :: 0 <= i < |Lines(raw)| ==> OneBreak(Lines(raw)[i])
    ensures forall i :: 0 <= i < |Lines(raw)| - 1 ==> Ended(Lines(raw)[i])
    ensures var last := Lines(raw)[|Lines(raw)| - 1]; last == "" || !Ended(last)
    ensures Lines(raw)[|Lines(raw)| - 1] == "" <==> raw == "" || Ended(raw)
  {
    if raw != "" {
      LinesAreBroken(raw[1..]);
      PushBroken(raw[0], Lines(raw[1..]));
      PushLast(raw[0], Lines(raw[1..]));
    }
  }

  function Glue(x: seq<string>, y: seq<string>): seq<string>
    requires x != [] && y != []
  {
    x[..|x| - 1] + [x[|x| - 1] + y[0]] + y[1..]
  }

  lemma BreakGlued(x: seq<string>, y: seq<string>)
    requires x != [] && y != []
    ensures ["\n"] + Glue(x, y) == Glue(["\n"] + x, y)
  {
    assert (["\n"] + x)[..|x|] == ["\n"] + x[..|x| - 1];
  }

  lemma CharGluedToOne(c: char, line: string, y: seq<string>)
    requires y != []
    ensures [[c] + Glue([line], y)[0]] + Glue([line], y)[1..] == Glue([[c] + line], y)
  {
    assert [c] + (line + y[0]) == [c] + line + y[0];
  }

  lemma PushGlued(c: char, x: seq<string>, y: seq<string>)
    requires x != [] && y != []
    ensures Push(c, Glue(x, y)) == Glue(Push(c, x), y)
  {
    if c == '\n' {
      BreakGlued(x, y);
    } else if |x| == 1 {
      assert x == [x[0]];
      CharGluedToOne(c, x[0], y);
      assert Push(c, x) == [[c] + x[0]];
    } else {
      PushGluedLong(c, x, y);
    }
  }

  lemma PushGluedLong(c: char, x: seq<string>, y: seq<string>)
    requires |x| > 1 && y != [] && c != '\n'
    ensures Push(c, Glue(x, y)) == Glue(Push(c, x), y)
  {
    var first := [c] + x[0];
    var middle := x[1..|x| - 1] + [x[|x| - 1] + y[0]] + y[1..];
    assert Glue(x, y) == [x[0]] + middle;
    assert Push(c, x)[..|x| - 1] == [first] + x[1..|x| - 1];
    assert Glue(Push(c, x), y) == [first] + middle;
  }

  /** The last line of the first text runs on into the first line of the second. */
  lemma {:induction false} TwoTexts(a: string, b: string)
    ensures Lines(a + b) == Glue(Lines(a), Lines(b))
  {
    if a == "" {
      assert a + b == b;
      assert "" + Lines(b)[0] == Lines(b)[0];
      assert Glue([""], Lines(b)) == Lines(b);
    } else {
      TwoTexts(a[1..], b);
      assert (a + b)[1..] == a[1..] + b;
      PushGlued(a[0], Lines(a[1..]), Lines(b));
    }
  }

  lemma {:induction false} NoBreak(text: string)
    requires '\n' !in text
    ensures Lines(text) == [text]
  {
    if text != "" {
      NoBreak(text[1..]);
      assert [text[0]] + text[1..] == text;
    }
  }

  /** A line, then more text. */
  lemma LineThen(text: string, more: string)
    requires '\n' !in text
    ensures Lines(text + "\n" + more) == [text + "\n"] + Lines(more)
  {
    NoBreak(text);
    assert Lines("\n" + more) == ["\n"] + Lines(more) by {
      assert ("\n" + more)[1..] == more;
    }
    TwoTexts(text, "\n" + more);
    assert text + "\n" + more == text + ("\n" + more);
  }

  function Texts(rows: seq<Row>): (texts: seq<string>)
    ensures |texts| == |rows| && forall i :: 0 <= i < |rows| ==> texts[i] == rows[i].text
  {
    seq(|rows|, i requires 0 <= i < |rows| => rows[i].text)
  }

  /** Broken rows are the lines of their text, up to an empty rest. */
  lemma {:induction false} TextLines(rows: seq<Row>)
    requires Broken(rows)
    ensures Lines(Text(rows)) == Texts(rows) || Lines(Text(rows)) == Texts(rows) + [""]
  {
    if rows == [] {
      assert Texts(rows) + [""] == [""];
    } else {
      BrokenTail(rows);
      TextLines(rows[1..]);
      var text := rows[0].text;
      assert [text] + Texts(rows[1..]) == Texts(rows);
      if Ended(text) {
        assert text == text[..|text| - 1] + "\n";
        LineThen(text[..|text| - 1], Text(rows[1..]));
        assert [text] + (Texts(rows[1..]) + [""]) == Texts(rows) + [""];
      } else {
        assert |rows| == 1 && Text(rows) == text;
        NoBreakAtAll(text);
        NoBreak(text);
      }
    }
  }

  lemma NoBreakAtAll(text: string)
    requires OneBreak(text) && !Ended(text)
    ensures '\n' !in text
  {
    if text != "" {
      assert text == text[..|text| - 1] + [text[|text| - 1]];
    }
  }

  lemma {:induction false} TextAppend(a: seq<Row>, b: seq<Row>)
    ensures Text(a + b) == Text(a) + Text(b)
  {
    if a == [] {
      assert a + b == b;
    } else {
      assert (a + b)[1..] == a[1..] + b;
      TextAppend(a[1..], b);
    }
  }

  lemma RowsAreBroken(raw: string)
    ensures Broken(Rows(Lines(raw)))
  {
    LinesAreBroken(raw);
    var rows := Rows(Lines(raw));
    assert forall i :: 0 <= i < |rows| ==> rows[i].text == Lines(raw)[i];
  }

  /** The rows of what removal leaves are the rows that stay. */
  lemma RemovedRows(raw: string)
    ensures var kept := Kept(Rows(Lines(raw)), false);
            Rows(Lines(Removed(raw))) == kept || Rows(Lines(Removed(raw))) == kept + [Row("", None)]
  {
    var kept := Kept(Rows(Lines(raw)), false);
    RowsAreBroken(raw);
    KeptIsBroken(Rows(Lines(raw)), false);
    KeptIsParsed(Rows(Lines(raw)), false);
    TextLines(kept);
    RowsOfTexts(kept, Lines(Text(kept)));
  }

  lemma RowsOfTexts(rows: seq<Row>, lines: seq<string>)
    requires forall i :: 0 <= i < |rows| ==> rows[i].path == ParseTomlTableHeader(rows[i].text)
    requires lines == Texts(rows) || lines == Texts(rows) + [""]
    ensures Rows(lines) == rows || Rows(lines) == rows + [Row("", None)]
  {
    if lines == Texts(rows) {
      assert Rows(lines) == rows;
    } else {
      assert forall i :: 0 <= i < |rows| ==> lines[i] == rows[i].text;
      assert Rows(lines)[|rows|] == Row("", None);
      assert Rows(lines) == rows + [Row("", None)];
    }
  }

  /** After removal no elisym table is left, and removing again changes nothing. */
  lemma RemovalIsCleanAndIdempotent(raw: string)
    ensures NoElisym(Rows(Lines(Removed(raw))))
    ensures Removed(Removed(raw)) == Removed(raw)
  {
    var kept := Kept(Rows(Lines(raw)), false);
    KeptIsClean(Rows(Lines(raw)), false);
    RemovedRows(raw);
    CleanIsKept(Rows(Lines(Removed(raw))));
    TextAppend(kept, [Row("", None)]);
    assert Text([Row("", None)]) == "" by { assert [Row("", None)][1..] == []; }
  }

  // ---- Rendering ----

  datatype EnvEntry = EnvEntry(key: string, value: string)

  datatype ServerEntry = ServerEntry(command: string, args: seq<string>, env: seq<EnvEntry>)

  function JoinWith(parts: seq<string>, separator: string): string {
    if parts == [] then "" else if |parts| == 1 then parts[0] else parts[0] + separator + JoinWith(parts[1..], separator)
  }

  const ELISYM := "mcp_servers.elisym"
  const ELISYM_ENV := "mcp_servers.elisym.env"

  function Header(path: string): string {
    "[" + path + "]"
  }

  function EnvLine(quote: string -> string, e: EnvEntry): string {
    e.key + " = " + quote(e.value)
  }

  function BlockLines(quote: string -> string, entry: ServerEntry): seq<string> {
    var quoted := seq(|entry.args|, i requires 0 <= i < |entry.args| => quote(entry.args[i]));
    [Header(ELISYM), "command = " + quote(entry.command), "args = [" + JoinWith(quoted, ", ") + "]"] +
    if entry.env == [] then []
    else ["", Header(ELISYM_ENV)] + seq(|entry.env|, i requires 0 <= i < |entry.env| => EnvLine(quote, entry.env[i]))
  }

  /** Each line and its line feed. */
  function Unlines(lines: seq<string>): string {
    if lines == [] then "" else lines[0] + "\n" + Unlines(lines[1..])
  }

  function RenderCodexTomlBlock(quote: string -> string, entry: ServerEntry): string {
    Unlines(BlockLines(quote, entry))
  }

  /** What appending puts between the text and the block. */
  function Separator(raw: string): string {
    if raw == "" || (|raw| >= 2 && raw[|raw| - 2..] == "\n\n") then "" else if raw[|raw| - 1] == '\n' then "\n" else "\n\n"
  }

  function ReplaceCodexBlock(raw: string, block: Option<Range>, replacement: string): string
    requires block.Some? ==> block.value.start <= block.value.end <= |raw|
  {
    match block
    case None => raw + Separator(raw) + replacement
    case Some(range) => raw[..range.start] + replacement + raw[range.end..]
  }

  /** Quoting is JSON quoting: it writes no line feed. Keys hold none either. */
  ghost predicate OneLineEach(quote: string -> string, entry: ServerEntry) {
    && (forall s: string :: '\n' !in quote(s))
    && (forall i :: 0 <= i < |entry.env| ==> '\n' !in entry.env[i].key)
  }

  // ---- Headers read and not read ----

  lemma {:induction false} NameReads(name: string)
    requires ']' !in name
    ensures UpToClose(name + "]") == Some(name)
  {
    if name != "" {
      assert (name + "]")[1..] == name[1..] + "]";
      NameReads(name[1..]);
      assert [name[0]] + name[1..] == name;
    }
  }

  lemma HeaderReads(name: string)
    requires name != "" && ']' !in name
    ensures ParseTomlTableHeader("[" + name + "]") == Some(name)
  {
    var line := "[" + name + "]";
    assert TrimEnd(line) == line;
    assert TrimStart(line) == line;
    NameReads(name);
    assert line[1..] == name + "]";
  }

  lemma {:induction false} TrimEndKeepsFirst(line: string)
    requires line != "" && !IsSpace(line[0])
    ensures TrimEnd(line) != "" && TrimEnd(line)[0] == line[0]
  {
    if IsSpace(line[|line| - 1]) {
      TrimEndKeepsFirst(line[..|line| - 1]);
    }
  }

  lemma NotHeader(line: string)
    requires line != "" && !IsSpace(line[0]) && line[0] != '['
    ensures ParseTomlTableHeader(line).None?
  {
    TrimEndKeepsFirst(line);
  }

  /** A line feed at the end changes nothing. */
  lemma HeaderEnded(line: string)
    ensures ParseTomlTableHeader(line + "\n") == ParseTomlTableHeader(line)
  {
    assert (line + "\n")[..|line + "\n"| - 1] == line;
    assert TrimEnd(line + "\n") == TrimEnd(line);
  }

  // ---- Kept, piece by piece ----

  /** Whether the text after these rows is still in an elisym table. */
  function Inside(rows: seq<Row>, inElisym: bool): bool {
    if rows == [] then inElisym
    else Inside(rows[1..], if rows[0].path.Some? then IsCodexElisymPath(rows[0].path.value) else inElisym)
  }

  lemma {:induction false} KeptAppend(a: seq<Row>, b: seq<Row>, inElisym: bool)
    ensures Kept(a + b, inElisym) == Kept(a, inElisym) + Kept(b, Inside(a, inElisym))
  {
    if a == [] {
      assert a + b == b;
    } else {
      var now := if a[0].path.Some? then IsCodexElisymPath(a[0].path.value) else inElisym;
      assert (a + b)[1..] == a[1..] + b;
      KeptAppend(a[1..], b, now);
    }
  }

  lemma {:induction false} CleanStaysOutside(rows: seq<Row>)
    requires NoElisym(rows)
    ensures !Inside(rows, false)
  {
    if rows != [] {
      assert !OpensElisym(rows[0]);
      CleanStaysOutside(rows[1..]);
    }
  }

  /** Inside an elisym table everything goes exactly when no other table opens; otherwise that header at least stays. */
  lemma {:induction false} AllGoesIff(rows: seq<Row>)
    requires forall i :: 0 <= i < |rows| && OpensOther(rows[i]) ==> rows[i].text != ""
    ensures Text(Kept(rows, true)) == "" <==> forall i :: 0 <= i < |rows| ==> !OpensOther(rows[i])
  {
    if rows != [] {
      if OpensOther(rows[0]) {
        assert |Text(Kept(rows, true))| >= |rows[0].text|;
      } else {
        AllGoesIff(rows[1..]);
        assert Kept(rows, true) == Kept(rows[1..], true);
        assert forall i :: 0 < i < |rows| ==> rows[i] == rows[1..][i - 1];
      }
    }
  }

  // ---- Uninstall undoes install ----

  function Parsed(line: string): Row {
    Row(line, ParseTomlTableHeader(line))
  }

  function EndEach(lines: seq<string>): (ended: seq<string>)
    ensures |ended| == |lines| && forall i :: 0 <= i < |lines| ==> ended[i] == lines[i] + "\n"
  {
    seq(|lines|, i requires 0 <= i < |lines| => lines[i] + "\n")
  }

  lemma {:induction false} UnlinesLines(lines: seq<string>)
    requires forall i :: 0 <= i < |lines| ==> '\n' !in lines[i]
    ensures Lines(Unlines(lines)) == EndEach(lines) + [""]
  {
    if lines == [] {
      assert EndEach(lines) + [""] == [""];
    } else {
      UnlinesLines(lines[1..]);
      LineThen(lines[0], Unlines(lines[1..]));
      assert lines[0] + "\n" + Unlines(lines[1..]) == Unlines(lines);
      assert EndEach(lines) == [lines[0] + "\n"] + EndEach(lines[1..]);
    }
  }

  lemma {:induction false} JoinedHasNoBreak(parts: seq<string>)
    requires forall i :: 0 <= i < |parts| ==> '\n' !in parts[i]
    ensures '\n' !in JoinWith(parts, ", ")
  {
    if |parts| > 1 {
      JoinedHasNoBreak(parts[1..]);
    }
  }

  lemma BlockHasNoBreak(quote: string -> string, entry: ServerEntry)
    requires OneLineEach(quote, entry)
    ensures forall i :: 0 <= i < |BlockLines(quote, entry)| ==> '\n' !in BlockLines(quote, entry)[i]
  {
    var quoted := seq(|entry.args|, i requires 0 <= i < |entry.args| => quote(entry.args[i]));
    JoinedHasNoBreak(quoted);
  }

  lemma BlockShape(quote: string -> string, entry: ServerEntry)
    ensures var lines := BlockLines(quote, entry);
            && lines[0] == Header(ELISYM)
            && (entry.env == [] ==> |lines| == 3)
            && (entry.env != [] ==>
                  && |lines| == 5 + |entry.env| && lines[3] == "" && lines[4] == Header(ELISYM_ENV)
                  && forall i :: 0 <= i < |entry.env| ==> lines[5 + i] == EnvLine(quote, entry.env[i]))
  {
  }

  /** In a block only an env line can have a property that its fixed lines have not. */
  lemma OnlyEnvLines(p: string -> bool, quote: string -> string, entry: ServerEntry)
    requires !p(Header(ELISYM)) && !p(Header(ELISYM_ENV)) && !p("")
    requires forall i :: 1 <= i < 3 ==> !p(BlockLines(quote, entry)[i])
    ensures (forall i :: 0 <= i < |BlockLines(quote, entry)| ==> !p(BlockLines(quote, entry)[i]))
            <==> forall i :: 0 <= i < |entry.env| ==> !p(EnvLine(quote, entry.env[i]))
  {
    var lines := BlockLines(quote, entry);
    BlockShape(quote, entry);
    EnvAfterFixed(p, lines, seq(|entry.env|, i requires 0 <= i < |entry.env| => EnvLine(quote, entry.env[i])));
  }

  lemma EnvAfterFixed(p: string -> bool, lines: seq<string>, env: seq<string>)
    requires |lines| >= 3 && forall i :: 0 <= i < 3 ==> !p(lines[i])
    requires env == [] ==> |lines| == 3
    requires env != [] ==> |lines| == 5 + |env| && !p(lines[3]) && !p(lines[4]) && forall i :: 0 <= i < |env| ==> lines[5 + i] == env[i]
    ensures (forall i :: 0 <= i < |lines| ==> !p(lines[i])) <==> forall i :: 0 <= i < |env| ==> !p(env[i])
  {
    assert forall i :: 5 <= i < |lines| ==> lines[i] == env[i - 5];
  }

  lemma OwnHeader(path: string)
    requires IsCodexElisymPath(path) && ']' !in path
    ensures OpensElisym(Parsed(Header(path))) && !LineOpensOther(Header(path))
  {
    HeaderReads(path);
  }

  lemma PlainLines(quote: string -> string, entry: ServerEntry)
    ensures forall i :: 1 <= i < 3 ==> Parsed(BlockLines(quote, entry)[i]).path.None?
  {
    var lines := BlockLines(quote, entry);
    assert lines[1][0] == 'c' && lines[2][0] == 'a';
    NotHeader(lines[1]);
    NotHeader(lines[2]);
  }

  lemma RowsAppend(a: seq<string>, b: seq<string>)
    ensures Rows(a + b) == Rows(a) + Rows(b)
  {
  }

  lemma EndedRows(lines: seq<string>)
    ensures var rows := Rows(EndEach(lines) + [""]);
            && |rows| == |lines| + 1 && rows[|lines|].path.None?
            && forall i :: 0 <= i < |lines| ==> rows[i].text != "" && rows[i].path == Parsed(lines[i]).path
  {
    EmptyOpensNothing();
    forall i | 0 <= i < |lines| ensures Rows(EndEach(lines) + [""])[i].path == Parsed(lines[i]).path {
      HeaderEnded(lines[i]);
    }
  }

  lemma OwnIsNotOther(row: Row)
    requires OpensElisym(row)
    ensures !OpensOther(row)
  {
  }

  lemma StartedRowsGo(rows: seq<Row>)
    requires rows != [] && OpensElisym(rows[0])
    requires forall i :: 0 <= i < |rows| && rows[i].path.Some? ==> rows[i].text != ""
    ensures Text(Kept(rows, false)) == "" <==> forall i :: 0 <= i < |rows| ==> !OpensOther(rows[i])
  {
    AllGoesIff(rows[1..]);
    KeptStarts(rows);
    OwnIsNotOther(rows[0]);
    assert forall i :: 0 < i < |rows| ==> rows[i] == rows[1..][i - 1];
  }

  /** Rows that open the same tables as these lines, and an empty rest. */
  lemma SameOpenings(rows: seq<Row>, lines: seq<string>)
    requires |rows| == |lines| + 1 && rows[|lines|].path.None?
    requires forall i :: 0 <= i < |lines| ==> rows[i].path == Parsed(lines[i]).path
    ensures (forall i :: 0 <= i < |rows| ==> !OpensOther(rows[i])) <==> forall i :: 0 <= i < |lines| ==> !LineOpensOther(lines[i])
  {
  }

  predicate LineOpensOther(line: string) {
    OpensOther(Parsed(line))
  }

  lemma BlockRows(quote: string -> string, entry: ServerEntry)
    requires OneLineEach(quote, entry)
    ensures Rows(Lines(RenderCodexTomlBlock(quote, entry))) == Rows(EndEach(BlockLines(quote, entry)) + [""])
  {
    BlockHasNoBreak(quote, entry);
    UnlinesLines(BlockLines(quote, entry));
  }

  /** A block's lines open a foreign table just when an env line does. */
  lemma BlockOpensIff(quote: string -> string, entry: ServerEntry)
    ensures (forall i :: 0 <= i < |BlockLines(quote, entry)| ==> !LineOpensOther(BlockLines(quote, entry)[i]))
            <==> forall i :: 0 <= i < |entry.env| ==> !LineOpensOther(EnvLine(quote, entry.env[i]))
  {
    OwnHeader(ELISYM);
    OwnHeader(ELISYM_ENV);
    PlainLines(quote, entry);
    EmptyOpensNothing();
    OnlyEnvLines(line => LineOpensOther(line), quote, entry);
  }

  lemma FirstRowIsOwn(quote: string -> string, entry: ServerEntry)
    ensures OpensElisym(Rows(EndEach(BlockLines(quote, entry)) + [""])[0])
  {
    BlockShape(quote, entry);
    EndedRows(BlockLines(quote, entry));
    OwnHeader(ELISYM);
  }

  /** The rendered block alone: it all goes exactly when no env line opens a table that is not elisym's. */
  lemma BlockGoesIff(quote: string -> string, entry: ServerEntry)
    requires OneLineEach(quote, entry)
    ensures Text(Kept(Rows(Lines(RenderCodexTomlBlock(quote, entry))), false)) == ""
            <==> forall i :: 0 <= i < |entry.env| ==> !LineOpensOther(EnvLine(quote, entry.env[i]))
  {
    var rows := Rows(EndEach(BlockLines(quote, entry)) + [""]);
    BlockRows(quote, entry);
    EndedRows(BlockLines(quote, entry));
    FirstRowIsOwn(quote, entry);
    StartedRowsGo(rows);
    SameOpenings(rows, BlockLines(quote, entry));
    BlockOpensIff(quote, entry);
  }

  lemma EmptyOpensNothing()
    ensures ParseTomlTableHeader("").None? && ParseTomlTableHeader("\n").None?
  {
    HeaderEnded("");
    assert "" + "\n" == "\n";
  }

  lemma SeparatorEnds(raw: string)
    ensures raw + Separator(raw) == "" || Ended(raw + Separator(raw))
  {
  }

  /** What no line has, no glued line has, if the joint has not. */
  lemma GluedHasNot(p: string -> bool, x: seq<string>, y: seq<string>)
    requires x != [] && y != [] && !p(x[|x| - 1] + y[0])
    requires (forall i :: 0 <= i < |x| ==> !p(x[i])) && forall i :: 0 <= i < |y| ==> !p(y[i])
    ensures forall i :: 0 <= i < |Glue(x, y)| ==> !p(Glue(x, y)[i])
  {
  }

  predicate LineOpensElisym(line: string) {
    OpensElisym(Parsed(line))
  }

  lemma PlainLinesOpenNothing(x: seq<string>)
    requires forall i :: 0 <= i < |x| ==> x[i] in ["", "\n"]
    ensures forall i :: 0 <= i < |x| ==> !LineOpensElisym(x[i])
  {
    EmptyOpensNothing();
  }

  lemma CleanLines(x: seq<string>)
    ensures NoElisym(Rows(x)) <==> forall i :: 0 <= i < |x| ==> !LineOpensElisym(x[i])
  {
    assert forall i :: 0 <= i < |x| ==> Rows(x)[i] == Parsed(x[i]);
  }

  lemma JointIsClean(line: string, more: string)
    requires !LineOpensElisym(line) && more in ["", "\n"]
    ensures !LineOpensElisym(line + more)
  {
    HeaderEnded(line);
    assert line + "" == line;
  }

  /** Gluing plain line feeds on opens nothing new. */
  lemma GluedIsClean(x: seq<string>, y: seq<string>)
    requires x != [] && y != [] && forall i :: 0 <= i < |y| ==> y[i] in ["", "\n"]
    requires NoElisym(Rows(x))
    ensures NoElisym(Rows(Glue(x, y)))
  {
    CleanLines(x);
    CleanLines(Glue(x, y));
    PlainLinesOpenNothing(y);
    JointIsClean(x[|x| - 1], y[0]);
    GluedHasNot(line => LineOpensElisym(line), x, y);
  }

  /** The text and its separator end at a line, and open no elisym table when the text opens none. */
  lemma ReadyForBlock(raw: string)
    requires NoElisym(Rows(Lines(raw)))
    ensures var lines := Lines(raw + Separator(raw));
            lines[|lines| - 1] == "" && NoElisym(Rows(lines))
  {
    SeparatorEnds(raw);
    LinesAreBroken(raw + Separator(raw));
    TwoTexts(raw, Separator(raw));
    SeparatorLines(raw);
    GluedIsClean(Lines(raw), Lines(Separator(raw)));
  }

  lemma SeparatorLines(raw: string)
    ensures forall i :: 0 <= i < |Lines(Separator(raw))| ==> Lines(Separator(raw))[i] in ["", "\n"]
  {
    assert "\n"[1..] == "" && "\n\n"[1..] == "\n";
    assert Lines("\n") == ["\n", ""];
    assert Lines("\n\n") == ["\n", "\n", ""];
  }

  lemma FrontRows(front: string)
    requires Lines(front)[|Lines(front)| - 1] == ""
    ensures var head := Lines(front)[..|Lines(front)| - 1]; Text(Rows(head)) == front
  {
    var lines := Lines(front);
    var head := lines[..|lines| - 1];
    assert lines == head + [""];
    RowsAppend(head, [""]);
    TextAppend(Rows(head), Rows([""]));
    assert Text(Rows([""])) == "" by {
      assert Rows([""])[1..] == [];
    }
    LinesText(front);
  }

  lemma KeptAfterClean(a: seq<Row>, b: seq<Row>)
    requires NoElisym(a)
    ensures Text(Kept(a + b, false)) == Text(a) + Text(Kept(b, false))
  {
    CleanIsKept(a);
    CleanStaysOutside(a);
    KeptAppend(a, b, false);
    TextAppend(a, Kept(b, false));
  }

  lemma AppendedRows(front: string, block: string)
    requires Lines(front)[|Lines(front)| - 1] == ""
    ensures Rows(Lines(front + block)) == Rows(Lines(front)[..|Lines(front)| - 1]) + Rows(Lines(block))
  {
    TwoTexts(front, block);
    var head := Lines(front)[..|Lines(front)| - 1];
    assert "" + Lines(block)[0] == Lines(block)[0];
    assert Lines(front + block) == head + Lines(block);
    RowsAppend(head, Lines(block));
  }

  lemma CleanHead(lines: seq<string>)
    requires lines != [] && NoElisym(Rows(lines))
    ensures NoElisym(Rows(lines[..|lines| - 1]))
  {
    RowsAppend(lines[..|lines| - 1], lines[|lines| - 1..]);
    assert lines == lines[..|lines| - 1] + lines[|lines| - 1..];
    assert forall i :: 0 <= i < |lines| - 1 ==> Rows(lines[..|lines| - 1])[i] == Rows(lines)[i];
  }

  /**
   For a text with no elisym table, removing after an install gives back the text and at most
   the added line feeds, exactly when no rendered env line opens a table that is not elisym's.
   */
  lemma UninstallUndoesInstallIff(raw: string, quote: string -> string, entry: ServerEntry)
    requires NoElisym(Rows(Lines(raw))) && OneLineEach(quote, entry)
    ensures Removed(ReplaceCodexBlock(raw, None, RenderCodexTomlBlock(quote, entry))) == raw + Separator(raw)
            <==> forall i :: 0 <= i < |entry.env| ==> !LineOpensOther(EnvLine(quote, entry.env[i]))
  {
    var front := raw + Separator(raw);
    var block := RenderCodexTomlBlock(quote, entry);
    ReadyForBlock(raw);
    FrontRows(front);
    CleanHead(Lines(front));
    AppendedRows(front, block);
    KeptAfterClean(Rows(Lines(front)[..|Lines(front)| - 1]), Rows(Lines(block)));
    BlockGoesIff(quote, entry);
    AddsNothing(front, Text(Kept(Rows(Lines(block)), false)));
  }

  /** Keys that start with neither white space nor a bracket, as `ELISYM_AGENT` does: uninstalling always undoes installing. */
  lemma PlainKeysUninstall(raw: string, quote: string -> string, entry: ServerEntry)
    requires NoElisym(Rows(Lines(raw))) && OneLineEach(quote, entry)
    requires forall e :: e in entry.env ==> e.key != "" && !IsSpace(e.key[0]) && e.key[0] != '['
    ensures Removed(ReplaceCodexBlock(raw, None, RenderCodexTomlBlock(quote, entry))) == raw + Separator(raw)
  {
    forall i | 0 <= i < |entry.env| ensures !LineOpensOther(EnvLine(quote, entry.env[i])) {
      assert entry.env[i] in entry.env;
      NotHeader(EnvLine(quote, entry.env[i]));
    }
    UninstallUndoesInstallIff(raw, quote, entry);
  }

  lemma AddsNothing(front: string, rest: string)
    ensures front + rest == front <==> rest == ""
  {
    assert |front + rest| == |front| + |rest|;
  }

  lemma {:induction false} TrimEndKeeps(front: string, rest: string)
    requires front != "" && !IsSpace(front[|front| - 1])
    ensures front <= TrimEnd(front + rest)
    decreases |rest|
  {
    if rest != "" && IsSpace(rest[|rest| - 1]) {
      assert (front + rest)[..|front + rest| - 1] == front + rest[..|rest| - 1];
      TrimEndKeeps(front, rest[..|rest| - 1]);
    } else {
      assert rest == "" ==> front + rest == front;
    }
  }

  /** Such an env line exists: a bracketed key with a hash sign reads as another table's header. */
  lemma BracketedKeyOpensOther(quote: string -> string, value: string)
    ensures LineOpensOther(EnvLine(quote, EnvEntry("[x]#", value)))
  {
    var line := EnvLine(quote, EnvEntry("[x]#", value));
    assert line == "[x]#" + (" = " + quote(value));
    TrimEndKeeps("[x]#", " = " + quote(value));
    var body := TrimEnd(line);
    assert body[0] == '[' && body[1] == 'x' && body[2] == ']' && body[3] == '#';
    assert TrimStart(body) == body;
    assert body[1..][0] == 'x' && body[1..][1..][0] == ']';
    assert UpToClose(body[1..][1..]) == Some("");
    assert UpToClose(body[1..]) == Some(['x'] + "");
    assert body[3..][0] == '#';
    assert TrimStart(body[3..]) == body[3..];
  }
}
