/**
 What the table editor reads and leaves: which lines are headers, which lines stay, what an
 install writes.
 */
module TomlLaws {
  import opened Prelude
  import opened CodexToml
  import opened CodexRoundTrip

  // ---- Headers ----

  lemma {:induction false} TrimStartCuts(s: string) returns (k: nat)
    ensures k <= |s| && TrimStart(s) == s[k..] && IsBlank(s[..k]) && (k < |s| ==> !IsSpace(s[k]))
  {
    if s != "" && IsSpace(s[0]) {
      k := TrimStartCuts(s[1..]);
      assert s[..k + 1] == [s[0]] + s[1..][..k];
      k := k + 1;
    } else {
      k := 0;
    }
  }

  lemma {:induction false} TrimEndCuts(s: string) returns (k: nat)
    ensures k <= |s| && TrimEnd(s) == s[..k] && IsBlank(s[k..]) && (k > 0 ==> !IsSpace(s[k - 1]))
  {
    k := |s|;
    if s != "" && IsSpace(s[|s| - 1]) {
      var init := s[..|s| - 1];
      k := TrimEndCuts(init);
      assert s[k..] == init[k..] + [s[|s| - 1]] && init[..k] == s[..k];
    }
  }

  lemma {:induction false} UpToCloseIff(s: string, path: string)
    ensures UpToClose(s) == Some(path) <==> path + "]" <= s && ']' !in path
  {
    if s != "" && s[0] != ']' {
      if path != "" {
        UpToCloseIff(s[1..], path[1..]);
        assert path == [path[0]] + path[1..];
        if path + "]" <= s {
          assert (path + "]")[0] == s[0] && path[1..] + "]" == (path + "]")[1..];
          assert path[1..] + "]" <= s[1..];
        }
        if path[1..] + "]" <= s[1..] && path[0] == s[0] {
          assert s == [s[0]] + s[1..] && path + "]" == [path[0]] + (path[1..] + "]");
        }
      }
    } else if s != "" && path != "" {
      assert path + "]" <= s ==> path[0] == s[0];
    }
  }

  lemma BlankInFront(s: string, k: nat)
    requires k <= |s| && IsBlank(s[..k])
    ensures forall i :: 0 <= i < k ==> IsSpace(s[i])
  {
    assert forall i :: 0 <= i < k ==> s[..k][i] in s[..k];
  }

  lemma BlankBehind(s: string, k: nat)
    requires k <= |s| && IsBlank(s[k..])
    ensures forall i :: k <= i < |s| ==> IsSpace(s[i])
  {
    assert forall i :: k <= i < |s| ==> s[k..][i - k] == s[i] && s[k..][i - k] in s[k..];
  }

  /** Nothing but white space, or a comment after white space. */
  ghost predicate IsTrailer(s: string) {
    IsBlank(s) || exists i: nat :: i < |s| && IsBlank(s[..i]) && s[i] == '#'
  }

  lemma TrailerIff(s: string)
    ensures IsTrailer(s) <==> TrimStart(s) == "" || TrimStart(s)[0] == '#'
  {
    var k := TrimStartCuts(s);
    if k == |s| {
      assert s[..k] == s;
    } else {
      assert s[k] in s && !IsSpace(s[k]);
      if IsTrailer(s) {
        var i: nat :| i < |s| && IsBlank(s[..i]) && s[i] == '#';
        BlankInFront(s, i);
        BlankInFront(s, k);
      }
    }
  }

  /** A header line: white space, a bracketed name, and a trailer. */
  ghost predicate IsHeader(line: string, path: string) {
    path != "" && ']' !in path
    && exists front, back :: line == front + "[" + path + "]" + back && IsBlank(front) && IsTrailer(back)
  }

  lemma BlankAppend(a: string, b: string)
    requires IsBlank(a) && IsBlank(b)
    ensures IsBlank(a + b)
  {
  }

  lemma TrailerAppend(tail: string, blank: string)
    requires IsTrailer(tail) && IsBlank(blank)
    ensures IsTrailer(tail + blank)
  {
    if IsBlank(tail) {
      BlankAppend(tail, blank);
    } else {
      var i: nat :| i < |tail| && IsBlank(tail[..i]) && tail[i] == '#';
      assert (tail + blank)[..i] == tail[..i] && (tail + blank)[i] == '#';
    }
  }

  lemma Bracketed(front: string, path: string, tail: string, end: string)
    ensures front + ("[" + path + "]" + tail) + end == front + "[" + path + "]" + (tail + end)
  {
  }

  lemma ParsedBody(body: string, path: string)
    requires body != "" && body[0] == '[' && UpToClose(body[1..]) == Some(path)
    ensures |path| + 2 <= |body| && ']' !in path && body == "[" + path + "]" + body[|path| + 2..]
  {
    UpToCloseIff(body[1..], path);
    assert body[1..][..|path| + 1] == path + "]";
    assert body == [body[0]] + body[1..];
  }

  lemma ParsedParts(line: string, path: string) returns (tail: string)
    requires ParseTomlTableHeader(line) == Some(path)
    ensures TrimStart(TrimEnd(line)) == "[" + path + "]" + tail && path != "" && ']' !in path && IsTrailer(tail)
  {
    var body := TrimStart(TrimEnd(line));
    ParsedBody(body, path);
    tail := body[|path| + 2..];
    TrailerIff(tail);
  }

  lemma Pieces(line: string, a: nat, b: nat)
    requires a <= b <= |line|
    ensures line == line[..b][..a] + line[..b][a..] + line[b..]
  {
  }

  lemma AssembledIsHeader(line: string, front: string, path: string, back: string)
    requires line == front + "[" + path + "]" + back && IsBlank(front) && IsTrailer(back) && path != "" && ']' !in path
    ensures IsHeader(line, path)
  {
  }

  lemma ReadIsHeader(line: string, path: string)
    requires ParseTomlTableHeader(line) == Some(path)
    ensures IsHeader(line, path)
  {
    var tail := ParsedParts(line, path);
    var b := TrimEndCuts(line);
    var a := TrimStartCuts(line[..b]);
    Pieces(line, a, b);
    Bracketed(line[..b][..a], path, tail, line[b..]);
    TrailerAppend(tail, line[b..]);
    AssembledIsHeader(line, line[..b][..a], path, tail + line[b..]);
  }

  lemma EndOfTrailer(front: string, back: string) returns (m: nat)
    requires front != "" && !IsSpace(front[|front| - 1]) && IsTrailer(back)
    ensures m <= |back| && TrimEnd(front + back) == front + back[..m] && IsTrailer(back[..m])
  {
    var line := front + back;
    var b := TrimEndCuts(line);
    BlankBehind(line, b);
    assert line[|front| - 1] == front[|front| - 1];
    m := b - |front|;
    assert line[..b] == front + back[..m];
    if exists i: nat :: i < |back| && IsBlank(back[..i]) && back[i] == '#' {
      var i: nat :| i < |back| && IsBlank(back[..i]) && back[i] == '#';
      assert line[|front| + i] == '#';
      assert back[..m][..i] == back[..i] && back[..m][i] == '#';
    } else {
      assert forall c :: c in back[..m] ==> c in back;
    }
  }

  lemma BodyIsParsed(line: string, path: string, trailer: string)
    requires TrimStart(TrimEnd(line)) == "[" + path + "]" + trailer
    requires path != "" && ']' !in path && IsTrailer(trailer)
    ensures ParseTomlTableHeader(line) == Some(path)
  {
    var body := "[" + path + "]" + trailer;
    assert body[1..] == path + "]" + trailer;
    UpToCloseIff(body[1..], path);
    assert body[|path| + 2..] == trailer;
    TrailerIff(trailer);
  }

  lemma HeaderIsRead(line: string, path: string)
    requires IsHeader(line, path)
    ensures ParseTomlTableHeader(line) == Some(path)
  {
    var front, back :| line == front + "[" + path + "]" + back && IsBlank(front) && IsTrailer(back);
    var named := front + "[" + path + "]";
    assert named[|named| - 1] == ']';
    var m := EndOfTrailer(named, back);
    Bracketed(front, path, back[..m], "");
    var body := "[" + path + "]" + back[..m];
    assert named + back[..m] == front + body;
    TrimBlankFront(front, body);
    BodyIsParsed(line, path, back[..m]);
  }

  lemma {:induction false} TrimBlankFront(front: string, body: string)
    requires IsBlank(front) && body != "" && !IsSpace(body[0])
    ensures TrimStart(front + body) == body
  {
    if front == "" {
      assert front + body == body;
    } else {
      assert front[0] in front;
      assert (front + body)[1..] == front[1..] + body;
      TrimBlankFront(front[1..], body);
    }
  }

  /** A line is read as the header of a table exactly when it is one. */
  lemma HeaderIff(line: string, path: string)
    ensures ParseTomlTableHeader(line) == Some(path) <==> IsHeader(line, path)
  {
    if ParseTomlTableHeader(line) == Some(path) {
      ReadIsHeader(line, path);
    }
    if IsHeader(line, path) {
      HeaderIsRead(line, path);
    }
  }

  /** The tables that are elisym's: its own and those below it, and no other whose name merely starts the same. */
  lemma OwnTables(rest: string)
    ensures IsCodexElisymPath("mcp_servers.elisym" + rest) <==> rest == "" || rest[0] == '.'
  {
    var path := "mcp_servers.elisym" + rest;
    assert rest == "" ==> path == "mcp_servers.elisym";
    assert rest != "" ==> path[|"mcp_servers.elisym"|] == rest[0];
    if rest != "" && rest[0] == '.' {
      assert path == "mcp_servers.elisym." + rest[1..];
    }
  }

  // ---- What stays ----

  /** The last header up to this line opened an elisym table. */
  ghost predicate InElisymTable(rows: seq<Row>, n: nat)
    requires n < |rows|
  {
    exists h: nat :: h <= n && OpensElisym(rows[h]) && forall j :: h < j <= n ==> rows[j].path.None?
  }

  lemma {:induction false} InsideIff(rows: seq<Row>, n: nat)
    requires n < |rows|
    ensures Inside(rows[..n + 1], false) <==> InElisymTable(rows, n)
  {
    InsideSnoc(rows[..n], rows[n], false);
    assert rows[..n + 1] == rows[..n] + [rows[n]];
    if n > 0 {
      InsideIff(rows, n - 1);
      if rows[n].path.None? {
        if h: nat :| h <= n && OpensElisym(rows[h]) && forall j :: h < j <= n ==> rows[j].path.None? {
          assert InElisymTable(rows, n - 1);
        }
      }
    } else {
      assert rows[..0] == [];
    }
  }

  lemma {:induction false} InsideSnoc(rows: seq<Row>, row: Row, inElisym: bool)
    ensures Inside(rows + [row], inElisym)
            == if row.path.Some? then IsCodexElisymPath(row.path.value) else Inside(rows, inElisym)
  {
    if rows == [] {
      assert rows + [row] == [row] && [row][1..] == [];
    } else {
      assert (rows + [row])[1..] == rows[1..] + [row];
      InsideSnoc(rows[1..], row, if rows[0].path.Some? then IsCodexElisymPath(rows[0].path.value) else inElisym);
    }
  }

  /** Line by line, a line stays exactly when it is in no elisym table. */
  lemma LineStaysIff(rows: seq<Row>, n: nat)
    requires n < |rows|
    ensures Kept(rows[..n + 1], false) == Kept(rows[..n], false) + (if InElisymTable(rows, n) then [] else [rows[n]])
  {
    assert rows[..n + 1] == rows[..n] + [rows[n]];
    KeptAppend(rows[..n], [rows[n]], false);
    InsideIff(rows, n);
    InsideSnoc(rows[..n], rows[n], false);
    OneRowKept(rows[n], Inside(rows[..n], false));
  }

  lemma OneRowKept(row: Row, inElisym: bool)
    ensures Kept([row], inElisym)
            == if (if row.path.Some? then IsCodexElisymPath(row.path.value) else inElisym) then [] else [row]
  {
    assert [row][1..] == [];
  }

  // ---- What an install writes ----

  predicate EndsBlank(s: string) {
    |s| >= 2 && s[|s| - 2] == '\n' && s[|s| - 1] == '\n'
  }

  /** Between text and block goes what it takes to end the text with a blank line, and no more. */
  lemma SeparatorIsLeast(raw: string)
    ensures raw == "" ==> Separator(raw) == ""
    ensures raw != "" ==> EndsBlank(raw + Separator(raw)) && forall c :: c in Separator(raw) ==> c == '\n'
    ensures forall n: nat :: n < |Separator(raw)| ==> !EndsBlank(raw + Separator(raw)[..n])
  {
    assert |raw| >= 2 ==> (raw[|raw| - 2..] == "\n\n" <==> raw[|raw| - 2] == '\n' && raw[|raw| - 1] == '\n');
    var separator := Separator(raw);
    assert separator != "" ==> raw + separator[..0] == raw;
    if separator == "\n\n" {
      assert separator[..1] == "\n";
      assert (raw + "\n")[|raw| - 1] == raw[|raw| - 1];
    }
  }

  /** The block: elisym's table with its command and arguments, then, if there is any, its table of variables. */
  lemma BlockSays(quote: string -> string, entry: ServerEntry)
    ensures var lines := BlockLines(quote, entry);
            && lines[0] == "[mcp_servers.elisym]" && lines[1] == "command = " + quote(entry.command)
            && lines[2] == "args = [" + JoinWith(seq(|entry.args|, i requires 0 <= i < |entry.args| => quote(entry.args[i])), ", ") + "]"
            && |lines| == (if entry.env == [] then 3 else 5 + |entry.env|)
            && (entry.env != [] ==> lines[3] == "" && lines[4] == "[mcp_servers.elisym.env]")
            && forall i :: 0 <= i < |entry.env| ==> lines[5 + i] == entry.env[i].key + " = " + quote(entry.env[i].value)
  {
    BlockShape(quote, entry);
    assert Header(ELISYM) == "[mcp_servers.elisym]" && Header(ELISYM_ENV) == "[mcp_servers.elisym.env]";
  }
}
