/** Compaction of a transcript: where the kept tail starts, what is summarised, what is written. */
module Compaction {
  import opened Prelude
  import opened Transcripts
  import opened ReplayHistory

  const MARKER := "\n[truncated]"
  const UNAVAILABLE := "[earlier context unavailable]"

  function Chars(lines: seq<Line>): nat {
    if lines == [] then 0 else |lines[0].content| + Chars(lines[1..])
  }

  /** The characters of the lines from `start` on. */
  function CharsFrom(lines: seq<Line>, start: nat): nat
    requires start <= |lines|
    decreases |lines| - start
  {
    if start == |lines| then 0 else |lines[start].content| + CharsFrom(lines, start + 1)
  }

  ghost predicate TurnsFrom(lines: seq<Line>, start: nat) {
    forall i :: start <= i < |lines| ==> lines[i].Turn?
  }

  ghost predicate TakesOneMore(lines: seq<Line>, keep: int, start: nat)
    requires start < |lines|
  {
    start > 0 && lines[start - 1].Turn? && CharsFrom(lines, start) < keep && CharsFrom(lines, start - 1) <= keep
  }

  /**
   The tail from `start` is turns only, holds the last one, and fits the budget unless it is
   that one alone; it grew while budget was left, and cannot be extended: what comes before
   it is no turn, or no budget is left, or the turn before it does not fit.
   */
  ghost predicate KeptFrom(lines: seq<Line>, keep: int, start: nat)
    requires start < |lines|
  {
    && TurnsFrom(lines, start)
    && (start == |lines| - 1 || CharsFrom(lines, start) <= keep)
    && (forall i :: start < i < |lines| ==> CharsFrom(lines, i) < keep)
    && !TakesOneMore(lines, keep, start)
  }

  /** A transcript that does not end in a turn keeps none: the text to summarise stops one line short. */
  ghost predicate SplitAt(lines: seq<Line>, keep: int, start: nat) {
    if lines == [] then start == 0
    else if lines[|lines| - 1].Turn? then start < |lines| && KeptFrom(lines, keep, start)
    else start == |lines| - 1
  }

  method KeptTailStart(lines: seq<Line>, keep: int) returns (start: nat)
    ensures SplitAt(lines, keep, start)
  {
    var budget := keep;
    start := |lines|;
    var index := |lines| - 1;
    while index >= 0
      invariant -1 <= index < |lines| && start == index + 1
      invariant budget == keep - CharsFrom(lines, start)
      invariant TurnsFrom(lines, start)
      invariant start < |lines| - 1 ==> budget >= 0
      invariant forall i :: start <= i < |lines| ==> CharsFrom(lines, i) < keep
    {
      if !lines[index].Turn? {
        break;
      }
      var cost := |lines[index].content|;
      if cost > budget && start < |lines| {
        break;
      }
      budget := budget - cost;
      start := index;
      if budget <= 0 {
        break;
      }
      index := index - 1;
    }
    if start == |lines| && |lines| > 0 {
      start := |lines| - 1;
    }
  }

  lemma {:induction false} CharsShrink(lines: seq<Line>, i: nat, j: nat)
    requires i <= j <= |lines|
    ensures CharsFrom(lines, i) >= CharsFrom(lines, j)
    decreases j - i
  {
    if i < j {
      CharsShrink(lines, i + 1, j);
    }
  }

  lemma EarlierSplitLeavesRoom(lines: seq<Line>, keep: int, a: nat, b: nat)
    requires a < b < |lines| && KeptFrom(lines, keep, a)
    ensures TakesOneMore(lines, keep, b)
  {
    CharsShrink(lines, a, b - 1);
  }

  /** A transcript has one such split, so the summarised prefix and the kept tail always meet. */
  lemma SplitIsUnique(lines: seq<Line>, keep: int, a: nat, b: nat)
    requires SplitAt(lines, keep, a) && SplitAt(lines, keep, b)
    ensures a == b
  {
    if a < b < |lines| && KeptFrom(lines, keep, a) {
      EarlierSplitLeavesRoom(lines, keep, a, b);
    } else if b < a < |lines| && KeptFrom(lines, keep, b) {
      EarlierSplitLeavesRoom(lines, keep, b, a);
    }
  }

  lemma {:induction false} TailChars(lines: seq<Line>, start: nat)
    requires start <= |lines|
    ensures Chars(lines[start..]) == CharsFrom(lines, start)
    decreases |lines| - start
  {
    if start < |lines| {
      TailChars(lines, start + 1);
      assert lines[start..][1..] == lines[start + 1..];
    }
  }

  function PartOf(line: Line): string {
    match line
    case Summary(content, _) => "Summary of earlier conversation:\n" + content
    case Turn(role, content, _, _) => (if role == User then "User" else "Assistant") + ": " + content
  }

  /** The text to summarise: one part a line, set apart by blank lines. */
  function SummarizeText(lines: seq<Line>): string {
    if lines == [] then "" else Join(seq(|lines|, i requires 0 <= i < |lines| => PartOf(lines[i])))
  }

  method BuildSummarizeText(lines: seq<Line>, tailStart: nat) returns (text: string)
    requires tailStart <= |lines|
    ensures text == SummarizeText(lines[..tailStart])
  {
    var parts: seq<string> := [];
    var i := 0;
    while i < tailStart
      invariant 0 <= i <= tailStart && |parts| == i
      invariant forall k :: 0 <= k < i ==> parts[k] == PartOf(lines[k])
    {
      parts := parts + [PartOf(lines[i])];
      i := i + 1;
    }
    assert parts == seq(tailStart, i requires 0 <= i < tailStart => PartOf(lines[..tailStart][i]));
    text := if parts == [] then "" else Join(parts);
  }

  // ---- The rewrite ----

  function CutTurn(line: Line, keep: nat): Line
    requires line.Turn?
  {
    if |line.content| > keep then line.(content := line.content[..keep] + MARKER) else line
  }

  function CutTurns(lines: seq<Line>, keep: nat): seq<Line> {
    if lines == [] then []
    else (if lines[0].Turn? then [CutTurn(lines[0], keep)] else []) + CutTurns(lines[1..], keep)
  }

  /** The compacted transcript: the summary line, then the kept turns. */
  function Compacted(lines: seq<Line>, start: nat, keep: nat, summary: string, ts: int): seq<Line>
    requires start <= |lines|
  {
    [Summary(summary, ts)] + CutTurns(lines[start..], keep)
  }

  lemma {:induction false} FittingTurnsKept(lines: seq<Line>, keep: nat)
    requires TurnsFrom(lines, 0) && Chars(lines) <= keep
    ensures CutTurns(lines, keep) == lines
  {
    if lines != [] {
      FittingTurnsKept(lines[1..], keep);
      assert lines == [lines[0]] + lines[1..];
    }
  }

  lemma FittingTailWritten(lines: seq<Line>, keep: nat, start: nat, summary: string, ts: int)
    requires start < |lines| && TurnsFrom(lines, start) && CharsFrom(lines, start) <= keep
    ensures Compacted(lines, start, keep, summary, ts) == [Summary(summary, ts)] + lines[start..]
    ensures Chars(Compacted(lines, start, keep, summary, ts)) == |summary| + CharsFrom(lines, start)
  {
    TailChars(lines, start);
    FittingTurnsKept(lines[start..], keep);
    assert Compacted(lines, start, keep, summary, ts)[1..] == lines[start..];
  }

  lemma OneTurnCut(turn: Line, keep: nat)
    requires turn.Turn?
    ensures CutTurns([turn], keep) == [CutTurn(turn, keep)]
  {
    assert [turn][1..] == [];
  }

  lemma CutTurnWritten(lines: seq<Line>, keep: nat, start: nat, summary: string, ts: int)
    requires start == |lines| - 1 && lines[start].Turn?
    ensures Compacted(lines, start, keep, summary, ts) == [Summary(summary, ts), CutTurn(lines[start], keep)]
    ensures Chars(Compacted(lines, start, keep, summary, ts)) == |summary| + |CutTurn(lines[start], keep).content|
  {
    var cut := CutTurn(lines[start], keep);
    assert lines[start..] == [lines[start]];
    OneTurnCut(lines[start], keep);
    assert [Summary(summary, ts)] + [cut] == [Summary(summary, ts), cut];
    assert [Summary(summary, ts), cut][1..] == [cut] && [cut][1..] == [];
    assert Chars([cut]) == |cut.content|;
  }

  lemma TailWritten(lines: seq<Line>, keep: nat, start: nat, summary: string, ts: int)
    requires start < |lines| && TurnsFrom(lines, start) && (start == |lines| - 1 || CharsFrom(lines, start) <= keep)
    ensures WrittenWhole(lines, keep, start, summary, ts) || WrittenCut(lines, keep, start, summary, ts)
    ensures Chars(Compacted(lines, start, keep, summary, ts)) <= |summary| + keep + |MARKER|
  {
    if CharsFrom(lines, start) <= keep {
      FittingTailWritten(lines, keep, start, summary, ts);
    } else {
      assert CharsFrom(lines, start) == |lines[start].content| + CharsFrom(lines, start + 1);
      CutTurnWritten(lines, keep, start, summary, ts);
    }
  }

  /** The kept turns are written as they are, and fit the budget. */
  ghost predicate WrittenWhole(lines: seq<Line>, keep: nat, start: nat, summary: string, ts: int)
    requires start < |lines|
  {
    CharsFrom(lines, start) <= keep && Compacted(lines, start, keep, summary, ts) == [Summary(summary, ts)] + lines[start..]
  }

  /** One turn over the budget is written, cut to it. */
  ghost predicate WrittenCut(lines: seq<Line>, keep: nat, start: nat, summary: string, ts: int)
    requires start < |lines|
  {
    && start == |lines| - 1 && |lines[start].content| > keep
    && Compacted(lines, start, keep, summary, ts)
       == [Summary(summary, ts), lines[start].(content := lines[start].content[..keep] + MARKER)]
  }

  /**
   For a transcript that ends in a turn, the summarised prefix and the kept tail are the whole
   transcript; the kept turns are written whole and within the budget, or are one turn cut to it.
   */
  lemma CompactionSplits(lines: seq<Line>, keep: nat, start: nat, summary: string, ts: int)
    requires start < |lines| && KeptFrom(lines, keep, start)
    ensures lines[..start] + lines[start..] == lines
    ensures WrittenWhole(lines, keep, start, summary, ts) || WrittenCut(lines, keep, start, summary, ts)
    ensures Chars(Compacted(lines, start, keep, summary, ts)) <= |summary| + keep + |MARKER|
  {
    TailWritten(lines, keep, start, summary, ts);
  }

  lemma NoTurnKept(lines: seq<Line>, keep: nat, start: nat)
    requires SplitAt(lines, keep, start) && (lines == [] || !lines[|lines| - 1].Turn?)
    ensures CutTurns(lines[start..], keep) == []
  {
    if lines != [] {
      assert lines[start..] == [lines[start]];
      assert [lines[start]][1..] == [];
    }
  }

  // ---- What the rewrite replays as ----

  function Weight(messages: seq<Message>): nat {
    if messages == [] then 0 else Weight(messages[..|messages| - 1]) + |messages[|messages| - 1].content|
  }

  lemma {:induction false} NonBlankWeight(messages: seq<Message>)
    ensures Weight(NonBlank(messages)) <= Weight(messages) && |NonBlank(messages)| <= |messages|
  {
    if messages != [] {
      var init := NonBlank(messages[..|messages| - 1]);
      NonBlankWeight(messages[..|messages| - 1]);
      assert (init + [messages[|messages| - 1]])[..|init|] == init;
      assert init + [] == init;
    }
  }

  lemma {:induction false} WeightTail(messages: seq<Message>)
    requires messages != []
    ensures Weight(messages) == |messages[0].content| + Weight(messages[1..])
  {
    if |messages| > 1 {
      var init := messages[..|messages| - 1];
      WeightTail(init);
      assert init[1..] == messages[1..][..|messages| - 2];
    }
  }

  lemma {:induction false} LeadingWeight(messages: seq<Message>)
    ensures Weight(DropLeading(messages)) <= Weight(messages) && |DropLeading(messages)| <= |messages|
  {
    if messages != [] && messages[0].role == Assistant {
      WeightTail(messages);
      LeadingWeight(messages[1..]);
    }
  }

  lemma {:induction false} TrailingWeight(messages: seq<Message>)
    ensures Weight(DropTrailing(messages)) <= Weight(messages) && |DropTrailing(messages)| <= |messages|
  {
    if messages != [] && messages[|messages| - 1].role == User {
      TrailingWeight(messages[..|messages| - 1]);
    }
  }

  /** Each join adds a blank line. */
  lemma {:induction false} MergedWeight(messages: seq<Message>)
    ensures Weight(Merged(messages)) <= Weight(messages) + 2 * |messages|
  {
    if messages != [] {
      var init := messages[..|messages| - 1];
      var last := messages[|messages| - 1];
      var merged := Merged(init);
      MergedWeight(init);
      if merged != [] && merged[|merged| - 1].role == last.role {
        var next := Joined(merged, last);
        assert next[..|next| - 1] == merged[..|merged| - 1];
      } else {
        assert (merged + [last])[..|merged|] == merged;
      }
    }
  }

  lemma WeightSnoc(messages: seq<Message>, message: Message)
    ensures Weight(messages + [message]) == Weight(messages) + |message.content|
  {
    assert (messages + [message])[..|messages|] == messages;
  }

  function Framing(line: Line): nat {
    if line.Summary? then |SUMMARY_PREFIX| + 1 else 0
  }

  lemma MessageWeight(line: Line)
    ensures |MessageOf(line, None)| == 1 && |MessageOf(line, None)[0].content| == Framing(line) + |line.content|
  {
  }

  lemma MessagesSnoc(lines: seq<Line>, last: Line)
    ensures |Messages(lines + [last], None)| == |Messages(lines, None)| + 1
    ensures Weight(Messages(lines + [last], None)) == Weight(Messages(lines, None)) + Framing(last) + |last.content|
  {
    var message := MessageOf(last, None);
    assert (lines + [last])[..|lines|] == lines;
    MessageWeight(last);
    assert message == [message[0]];
    WeightSnoc(Messages(lines, None), message[0]);
  }

  lemma {:induction false} MessagesWeight(lines: seq<Line>)
    requires lines != [] && lines[0].Summary? && TurnsFrom(lines, 1)
    ensures Weight(Messages(lines, None)) == |SUMMARY_PREFIX| + 1 + Chars(lines) && |Messages(lines, None)| == |lines|
  {
    var init := lines[..|lines| - 1];
    var last := lines[|lines| - 1];
    assert init + [last] == lines;
    MessagesSnoc(init, last);
    CharsSnoc(init, last);
    if init != [] {
      MessagesWeight(init);
    }
  }

  lemma {:induction false} CharsSnoc(lines: seq<Line>, last: Line)
    ensures Chars(lines + [last]) == Chars(lines) + |last.content|
  {
    if lines == [] {
      assert ([] + [last])[1..] == [];
    } else {
      assert (lines + [last])[1..] == lines[1..] + [last];
      CharsSnoc(lines[1..], last);
    }
  }

  /** A compacted transcript replays within the summary, the keep budget and two characters a join. */
  lemma CompactedReplayBound(lines: seq<Line>, keep: nat, start: nat, summary: string, ts: int)
    requires SplitAt(lines, keep, start)
    ensures Weight(Replay(Compacted(lines, start, keep, summary, ts), None))
            <= |SUMMARY_PREFIX| + 1 + |summary| + keep + |MARKER| + 2 * (1 + |lines| - start)
  {
    var written := Compacted(lines, start, keep, summary, ts);
    if lines != [] && lines[|lines| - 1].Turn? {
      CompactionSplits(lines, keep, start, summary, ts);
    } else {
      NoTurnKept(lines, keep, start);
      assert Chars(written) == |summary| + Chars(written[1..]);
    }
    assert TurnsFrom(written, 1);
    MessagesWeight(written);
    var messages := Messages(written, None);
    NonBlankWeight(messages);
    var nonBlank := NonBlank(messages);
    LeadingWeight(nonBlank);
    TrailingWeight(DropLeading(nonBlank));
    MergedWeight(Bounded(nonBlank));
  }
}
