/**
 A session transcript as bytes: one rendered line after another, each ended by a newline.
 The line codec is a parameter; what it must satisfy is `Faithful`.
 */
module Transcripts {
  import opened Prelude

  type Byte = b: int | 0 <= b < 256

  const NEWLINE: Byte := 10

  datatype Role = User | Assistant

  datatype Line =
    | Turn(role: Role, content: string, jobId: string, ts: int)
    | Summary(content: string, ts: int)

  datatype Decoded = Blank | Parsed(line: Line) | Malformed

  datatype Codec = Codec(render: Line -> seq<Byte>, decode: seq<Byte> -> Decoded)

  /** A line reads back as itself, holds no newline, and no strict prefix of it parses. */
  ghost predicate Faithful(codec: Codec) {
    && codec.decode([]) == Blank
    && forall l: Line ::
         && codec.render(l) != []
         && codec.decode(codec.render(l)) == Parsed(l)
         && NEWLINE !in codec.render(l)
         && forall k :: 0 < k < |codec.render(l)| ==> codec.decode(codec.render(l)[..k]) == Malformed
  }

  /** What an append writes: every line followed by a newline. */
  function Payload(codec: Codec, lines: seq<Line>): seq<Byte> {
    if lines == [] then [] else codec.render(lines[0]) + [NEWLINE] + Payload(codec, lines[1..])
  }

  function Split(bytes: seq<Byte>): (pieces: seq<seq<Byte>>)
    ensures pieces != []
  {
    if bytes == [] then [[]]
    else
      var rest := Split(bytes[1..]);
      if bytes[0] == NEWLINE then [[]] + rest else [[bytes[0]] + rest[0]] + rest[1..]
  }

  datatype Reading = Lines(lines: seq<Line>, torn: bool) | Corrupt

  predicate AllBlank(codec: Codec, pieces: seq<seq<Byte>>) {
    forall i :: 0 <= i < |pieces| ==> codec.decode(pieces[i]) == Blank
  }

  /** A malformed piece with nothing after it is a torn append; anywhere else it is corruption. */
  function ReadPieces(codec: Codec, pieces: seq<seq<Byte>>): Reading {
    if pieces == [] then Lines([], false)
    else
      match codec.decode(pieces[0])
      case Blank => ReadPieces(codec, pieces[1..])
      case Malformed => if AllBlank(codec, pieces[1..]) then Lines([], true) else Corrupt
      case Parsed(line) => Prepend([line], ReadPieces(codec, pieces[1..]))
  }

  function Prepend(lines: seq<Line>, reading: Reading): Reading {
    if reading.Lines? then Lines(lines + reading.lines, reading.torn) else reading
  }

  function Read(codec: Codec, bytes: seq<Byte>): Reading {
    ReadPieces(codec, Split(bytes))
  }

  /** The file after a read: a torn transcript is rewritten without its fragment. */
  function Repaired(codec: Codec, bytes: seq<Byte>): seq<Byte> {
    var reading := Read(codec, bytes);
    if reading.Lines? && reading.torn then Payload(codec, reading.lines) else bytes
  }

  method ReadTranscript(codec: Codec, bytes: seq<Byte>) returns (reading: Reading)
    ensures reading == Read(codec, bytes)
  {
    var pieces := Split(bytes);
    var lines: seq<Line> := [];
    var index := 0;
    while index < |pieces|
      invariant 0 <= index <= |pieces|
      invariant Read(codec, bytes) == Prepend(lines, ReadPieces(codec, pieces[index..]))
    {
      var decoded := codec.decode(pieces[index]);
      assert pieces[index..][1..] == pieces[index + 1..];
      if decoded.Malformed? {
        var rest := index + 1;
        while rest < |pieces| && codec.decode(pieces[rest]).Blank?
          invariant index < rest <= |pieces|
          invariant forall k :: index < k < rest ==> codec.decode(pieces[k]) == Blank
        {
          rest := rest + 1;
        }
        if rest == |pieces| {
          assert AllBlank(codec, pieces[index + 1..]);
          assert lines + [] == lines;
          return Lines(lines, true);
        }
        assert codec.decode(pieces[index + 1..][rest - index - 1]) != Blank;
        return Corrupt;
      }
      if decoded.Parsed? {
        var tail := ReadPieces(codec, pieces[index + 1..]);
        assert tail.Lines? ==> lines + ([decoded.line] + tail.lines) == (lines + [decoded.line]) + tail.lines;
        lines := lines + [decoded.line];
      }
      index := index + 1;
    }
    assert lines + [] == lines;
    return Lines(lines, false);
  }

  // ---- A torn append ----

  lemma {:induction false} SplitText(text: seq<Byte>)
    requires NEWLINE !in text
    ensures Split(text) == [text]
  {
    if text != [] {
      SplitText(text[1..]);
      assert [text[0]] + text[1..] == text;
    }
  }

  lemma {:induction false} SplitLine(text: seq<Byte>, rest: seq<Byte>)
    requires NEWLINE !in text
    ensures Split(text + [NEWLINE] + rest) == [text] + Split(rest)
  {
    var bytes := text + [NEWLINE] + rest;
    if text == [] {
      assert bytes[1..] == rest;
    } else {
      assert bytes[1..] == text[1..] + [NEWLINE] + rest;
      SplitLine(text[1..], rest);
      assert [text[0]] + text[1..] == text;
      assert ([text[1..]] + Split(rest))[1..] == Split(rest);
    }
  }

  /** Complete lines in front of anything are read first. */
  lemma {:induction false} ReadAfterLines(codec: Codec, lines: seq<Line>, rest: seq<Byte>)
    requires Faithful(codec)
    ensures Read(codec, Payload(codec, lines) + rest) == Prepend(lines, Read(codec, rest))
  {
    if lines == [] {
      assert Payload(codec, lines) + rest == rest;
      var reading := Read(codec, rest);
      assert reading.Lines? ==> [] + reading.lines == reading.lines;
    } else {
      var text := codec.render(lines[0]);
      var tail := Payload(codec, lines[1..]) + rest;
      assert Payload(codec, lines) + rest == text + [NEWLINE] + tail;
      SplitLine(text, tail);
      ReadAfterLines(codec, lines[1..], rest);
      assert ([text] + Split(tail))[1..] == Split(tail);
      var reading := Read(codec, rest);
      assert reading.Lines? ==> [lines[0]] + (lines[1..] + reading.lines) == lines + reading.lines;
    }
  }

  /** How many of the appended lines are on disk in full when the append is cut after `cut` bytes. */
  function Written(codec: Codec, lines: seq<Line>, cut: nat): (n: nat)
    ensures n <= |lines|
  {
    if lines == [] || cut < |codec.render(lines[0])| then 0
    else if cut == |codec.render(lines[0])| then 1
    else 1 + Written(codec, lines[1..], cut - |codec.render(lines[0])| - 1)
  }

  /** The cut fell inside the text of a line. */
  predicate InsideLine(codec: Codec, lines: seq<Line>, cut: nat) {
    lines != [] &&
    if cut <= |codec.render(lines[0])| then 0 < cut < |codec.render(lines[0])|
    else InsideLine(codec, lines[1..], cut - |codec.render(lines[0])| - 1)
  }

  /** The cut fell between the end of a line's text and its newline. */
  predicate BeforeNewline(codec: Codec, lines: seq<Line>, cut: nat) {
    lines != [] &&
    if cut <= |codec.render(lines[0])| then cut == |codec.render(lines[0])|
    else BeforeNewline(codec, lines[1..], cut - |codec.render(lines[0])| - 1)
  }

  lemma CutInFirst(codec: Codec, lines: seq<Line>, cut: nat)
    requires Faithful(codec) && lines != [] && cut <= |codec.render(lines[0])|
    ensures Payload(codec, lines)[..cut] == codec.render(lines[0])[..cut]
    ensures Read(codec, Payload(codec, lines)[..cut]) == Lines(lines[..Written(codec, lines, cut)], InsideLine(codec, lines, cut))
  {
    var text := codec.render(lines[0]);
    assert Payload(codec, lines)[..cut] == text[..cut];
    SplitText(text[..cut]);
    assert ReadPieces(codec, [text[..cut]][1..]) == Lines([], false);
    if cut == |text| {
      assert text[..cut] == text;
      assert lines[..1] == [lines[0]] + [];
    } else if cut == 0 {
      assert text[..cut] == [];
    }
  }

  lemma {:induction false} CutRead(codec: Codec, lines: seq<Line>, cut: nat)
    requires Faithful(codec) && cut <= |Payload(codec, lines)|
    ensures Read(codec, Payload(codec, lines)[..cut]) == Lines(lines[..Written(codec, lines, cut)], InsideLine(codec, lines, cut))
  {
    if lines == [] {
      SplitText([]);
      assert ReadPieces(codec, [[]][1..]) == Lines([], false);
      assert Payload(codec, lines)[..cut] == [];
    } else {
      var text := codec.render(lines[0]);
      if cut <= |text| {
        CutInFirst(codec, lines, cut);
      } else {
        var rest := cut - |text| - 1;
        assert Payload(codec, lines)[..cut] == Payload(codec, [lines[0]]) + Payload(codec, lines[1..])[..rest] by {
          assert Payload(codec, [lines[0]]) == text + [NEWLINE] + [];
        }
        CutRead(codec, lines[1..], rest);
        ReadAfterLines(codec, [lines[0]], Payload(codec, lines[1..])[..rest]);
        var n := Written(codec, lines[1..], rest);
        assert [lines[0]] + lines[1..][..n] == lines[..n + 1];
      }
    }
  }

  /**
   Cut an append at any byte: the next read gives the earlier lines and then exactly the
   appended lines whose text was written in full. It is never corrupt, and torn just when the
   cut fell inside a line.
   */
  lemma TornAppendReadsBack(codec: Codec, earlier: seq<Line>, appended: seq<Line>, cut: nat)
    requires Faithful(codec) && cut <= |Payload(codec, appended)|
    ensures Read(codec, Payload(codec, earlier) + Payload(codec, appended)[..cut])
            == Lines(earlier + appended[..Written(codec, appended, cut)], InsideLine(codec, appended, cut))
  {
    ReadAfterLines(codec, earlier, Payload(codec, appended)[..cut]);
    CutRead(codec, appended, cut);
  }

  lemma {:induction false} PayloadAppend(codec: Codec, earlier: seq<Line>, more: seq<Line>)
    ensures Payload(codec, earlier + more) == Payload(codec, earlier) + Payload(codec, more)
  {
    if earlier == [] {
      assert earlier + more == more;
    } else {
      assert (earlier + more)[1..] == earlier[1..] + more;
      PayloadAppend(codec, earlier[1..], more);
    }
  }

  /** A file of complete lines reads back as them and needs no repair. */
  lemma CompleteFileReads(codec: Codec, lines: seq<Line>)
    requires Faithful(codec)
    ensures Read(codec, Payload(codec, lines)) == Lines(lines, false)
    ensures Repaired(codec, Payload(codec, lines)) == Payload(codec, lines)
  {
    ReadAfterLines(codec, lines, []);
    assert Payload(codec, lines) + [] == Payload(codec, lines);
    SplitText([]);
    assert ReadPieces(codec, [[]][1..]) == Lines([], false);
    assert lines + [] == lines;
  }

  lemma {:induction false} CutPayload(codec: Codec, lines: seq<Line>, cut: nat)
    requires cut <= |Payload(codec, lines)| && !InsideLine(codec, lines, cut)
    ensures Payload(codec, lines[..Written(codec, lines, cut)])
            == Payload(codec, lines)[..cut] + (if BeforeNewline(codec, lines, cut) then [NEWLINE] else [])
  {
    if lines != [] {
      var text := codec.render(lines[0]);
      var n := Written(codec, lines, cut);
      if cut == |text| {
        assert lines[..1] == [lines[0]] && lines[..1][1..] == [];
      } else if cut > |text| {
        var rest := cut - |text| - 1;
        CutPayload(codec, lines[1..], rest);
        assert lines[..n][1..] == lines[1..][..n - 1];
        assert Payload(codec, lines)[..cut] == text + [NEWLINE] + Payload(codec, lines[1..])[..rest];
      }
    }
  }

  /**
   After that read the file is exactly its complete lines, ready for the next append, unless
   the cut fell between a line and its newline: that file is read right but not repaired.
   */
  lemma TornAppendRepairedIff(codec: Codec, earlier: seq<Line>, appended: seq<Line>, cut: nat)
    requires Faithful(codec) && cut <= |Payload(codec, appended)|
    ensures Repaired(codec, Payload(codec, earlier) + Payload(codec, appended)[..cut])
            == Payload(codec, earlier + appended[..Written(codec, appended, cut)])
            <==> !BeforeNewline(codec, appended, cut)
  {
    TornAppendReadsBack(codec, earlier, appended, cut);
    var kept := appended[..Written(codec, appended, cut)];
    PayloadAppend(codec, earlier, kept);
    if !InsideLine(codec, appended, cut) {
      CutPayload(codec, appended, cut);
      var file := Payload(codec, earlier) + Payload(codec, appended)[..cut];
      assert |Payload(codec, earlier + kept)| == |file| + (if BeforeNewline(codec, appended, cut) then 1 else 0);
      assert !BeforeNewline(codec, appended, cut) ==> Payload(codec, kept) == Payload(codec, appended)[..cut];
    } else {
      InsideIsNotBefore(codec, appended, cut);
    }
  }

  lemma {:induction false} InsideIsNotBefore(codec: Codec, lines: seq<Line>, cut: nat)
    requires InsideLine(codec, lines, cut)
    ensures !BeforeNewline(codec, lines, cut)
  {
    if cut > |codec.render(lines[0])| {
      InsideIsNotBefore(codec, lines[1..], cut - |codec.render(lines[0])| - 1);
    }
  }
}
