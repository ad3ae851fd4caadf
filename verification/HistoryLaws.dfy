/**
 What the replay of a transcript means: which lines are in it, where its ends are cut, what an
 exchange adds to it, and what a compaction starts it with.
 */
module HistoryLaws {
  import opened Prelude
  import opened Transcripts
  import opened ReplayHistory
  import opened Compaction
  import opened TurnText

  // ---- The recovering job's own turns ----

  /** The lines without the turns of a job. */
  function WithoutJob(lines: seq<Line>, jobId: string): seq<Line> {
    if lines == [] then []
    else
      var last := lines[|lines| - 1];
      WithoutJob(lines[..|lines| - 1], jobId) + (if last.Turn? && last.jobId == jobId then [] else [last])
  }

  lemma MessagesSnocOne(lines: seq<Line>, last: Line, exclude: Option<string>)
    ensures Messages(lines + [last], exclude) == Messages(lines, exclude) + MessageOf(last, exclude)
  {
    assert (lines + [last])[..|lines|] == lines;
  }

  lemma {:induction false} ExcludedMessages(lines: seq<Line>, jobId: string)
    ensures Messages(lines, Some(jobId)) == Messages(WithoutJob(lines, jobId), None)
  {
    if lines != [] {
      var init, last := lines[..|lines| - 1], lines[|lines| - 1];
      ExcludedMessages(init, jobId);
      if last.Turn? && last.jobId == jobId {
        assert WithoutJob(lines, jobId) == WithoutJob(init, jobId);
        assert Messages(init, Some(jobId)) + [] == Messages(init, Some(jobId));
      } else {
        MessagesSnocOne(WithoutJob(init, jobId), last, None);
      }
    }
  }

  /** A job that runs again is shown the history as if it had recorded nothing. */
  lemma OwnTurnsAreLeftOut(lines: seq<Line>, jobId: string)
    ensures Replay(lines, Some(jobId)) == Replay(WithoutJob(lines, jobId), None)
  {
    ExcludedMessages(lines, jobId);
  }

  // ---- The ends ----

  predicate AllOf(messages: seq<Message>, role: Role) {
    forall i :: 0 <= i < |messages| ==> messages[i].role == role
  }

  lemma {:induction false} LeadingIsAssistant(messages: seq<Message>) returns (k: nat)
    ensures k <= |messages| && DropLeading(messages) == messages[k..] && AllOf(messages[..k], Assistant)
  {
    if messages != [] && messages[0].role == Assistant {
      k := LeadingIsAssistant(messages[1..]);
      assert messages[1..][..k] == messages[1..k + 1];
      assert messages[..k + 1] == [messages[0]] + messages[1..k + 1];
      k := k + 1;
    } else {
      k := 0;
    }
  }

  lemma {:induction false} TrailingIsUser(messages: seq<Message>) returns (k: nat)
    ensures k <= |messages| && DropTrailing(messages) == messages[..k] && AllOf(messages[k..], User)
  {
    k := |messages|;
    if messages != [] && messages[|messages| - 1].role == User {
      var init := messages[..|messages| - 1];
      k := TrailingIsUser(init);
      assert messages[k..] == init[k..] + [messages[|messages| - 1]];
      assert init[..k] == messages[..k];
    }
  }

  /** Only assistant messages are cut in front and only user messages behind; what stays has neither at its ends. */
  lemma BoundedCutsEnds(messages: seq<Message>) returns (front: nat, back: nat)
    ensures front <= back <= |messages| && Bounded(messages) == messages[front..back]
    ensures AllOf(messages[..front], Assistant) && AllOf(messages[back..], User) && Framed(Bounded(messages))
  {
    front := LeadingIsAssistant(messages);
    var rest := messages[front..];
    var k := TrailingIsUser(rest);
    back := front + k;
    assert rest[..k] == messages[front..back] && rest[k..] == messages[back..];
    BoundedFramed(messages);
  }

  // ---- What an exchange adds ----

  lemma TwoMore<T>(s: seq<T>, a: T, b: T)
    ensures s + [a] + [b] == s + [a, b]
  {
  }

  lemma LastApart<T>(s: seq<T>, more: seq<T>)
    requires more != []
    ensures s + more == (s + more[..|more| - 1]) + [more[|more| - 1]]
  {
  }

  lemma {:induction false} NonBlankSnoc(messages: seq<Message>, m: Message)
    ensures NonBlank(messages + [m]) == NonBlank(messages) + (if IsBlank(m.content) then [] else [m])
  {
    assert (messages + [m])[..|messages|] == messages;
  }

  lemma {:induction false} LeadingAppend(messages: seq<Message>, u: Message, a: Message)
    requires u.role == User
    ensures DropLeading(messages + [u, a]) == DropLeading(messages) + [u, a]
  {
    if messages == [] {
      assert messages + [u, a] == [u, a];
    } else if messages[0].role == Assistant {
      assert (messages + [u, a])[1..] == messages[1..] + [u, a];
      LeadingAppend(messages[1..], u, a);
    }
  }

  /** A history whose last message, if any, is the assistant's takes the two messages whole. */
  lemma BoundedAppend(messages: seq<Message>, u: Message, a: Message)
    requires u.role == User && a.role == Assistant && (messages != [] ==> messages[|messages| - 1].role == Assistant)
    ensures Bounded(messages + [u, a]) == Bounded(messages) + [u, a]
  {
    LeadingAppend(messages, u, a);
    var k := LeadingIsAssistant(messages);
    var led := DropLeading(messages);
    assert led != [] ==> led[|led| - 1] == messages[|messages| - 1];
    assert DropTrailing(led) == led;
    var more := led + [u, a];
    assert more[|more| - 1] == a;
  }

  lemma MergedSnoc(messages: seq<Message>, m: Message)
    ensures Merged(messages + [m]) == Joined(Merged(messages), m)
  {
    assert (messages + [m])[..|messages|] == messages;
  }

  lemma JoinedRole(merged: seq<Message>, m: Message)
    ensures var next := Joined(merged, m); next != [] && next[|next| - 1].role == m.role
    ensures merged == [] || merged[|merged| - 1].role != m.role ==> Joined(merged, m) == merged + [m]
  {
  }

  lemma MergedRole(messages: seq<Message>)
    requires messages != []
    ensures Merged(messages) != [] && Merged(messages)[|Merged(messages)| - 1].role == messages[|messages| - 1].role
  {
    JoinedRole(Merged(messages[..|messages| - 1]), messages[|messages| - 1]);
  }

  /** A message of the other role is not joined to what is there. */
  lemma OtherRoleStaysApart(messages: seq<Message>, m: Message)
    requires messages != [] ==> messages[|messages| - 1].role != m.role
    ensures Merged(messages + [m]) == Merged(messages) + [m]
  {
    MergedSnoc(messages, m);
    if messages != [] {
      MergedRole(messages);
    }
    JoinedRole(Merged(messages), m);
  }

  lemma MergedPair(messages: seq<Message>, u: Message, a: Message)
    requires u.role == User && a.role == Assistant
    requires messages != [] ==> messages[|messages| - 1].role == Assistant
    ensures Merged(messages + [u, a]) == Merged(messages) + [u, a]
  {
    OtherRoleStaysApart(messages, u);
    OtherRoleStaysApart(messages + [u], a);
    assert (messages + [u])[|messages|] == u;
    TwoMore(messages, u, a);
    TwoMore(Merged(messages), u, a);
  }

  lemma TurnIsSpoken(lines: seq<Line>, role: Role, content: string, jobId: string, ts: int)
    requires !IsBlank(content)
    ensures NonBlank(Messages(lines + [Turn(role, content, jobId, ts)], None)) == NonBlank(Messages(lines, None)) + [Message(role, content)]
  {
    MessagesSnocOne(lines, Turn(role, content, jobId, ts), None);
    NonBlankSnoc(Messages(lines, None), Message(role, content));
  }

  /** What is said once an exchange was recorded. */
  lemma ExchangeIsSpoken(lines: seq<Line>, user: string, assistant: string, jobId: string, ts: int)
    requires !IsBlank(user) && !IsBlank(assistant)
    ensures NonBlank(Messages(lines + [Turn(User, user, jobId, ts), Turn(Assistant, assistant, jobId, ts)], None))
            == NonBlank(Messages(lines, None)) + [Message(User, user), Message(Assistant, assistant)]
  {
    TurnIsSpoken(lines, User, user, jobId, ts);
    TurnIsSpoken(lines + [Turn(User, user, jobId, ts)], Assistant, assistant, jobId, ts);
    TwoMore(lines, Turn(User, user, jobId, ts), Turn(Assistant, assistant, jobId, ts));
    TwoMore(NonBlank(Messages(lines, None)), Message(User, user), Message(Assistant, assistant));
  }

  lemma PairIsReplayed(spoken: seq<Message>, u: Message, a: Message)
    requires u.role == User && a.role == Assistant
    requires spoken != [] ==> spoken[|spoken| - 1].role == Assistant
    ensures Merged(Bounded(spoken + [u, a])) == Merged(Bounded(spoken)) + [u, a]
  {
    BoundedAppend(spoken, u, a);
    BoundedFramed(spoken);
    MergedPair(Bounded(spoken), u, a);
  }

  /** A history that ends with an answer grows by exactly the next exchange, question first. */
  lemma ExchangeIsReplayed(lines: seq<Line>, exchange: Exchange, maxTurnBytes: nat, ts: int)
    requires maxTurnBytes >= |MARKER| && exchange.skipRoles == {}
    requires Utf8Length(exchange.userContent) <= maxTurnBytes && !IsBlank(exchange.userContent)
    requires Utf8Length(exchange.assistantContent) <= maxTurnBytes && !IsBlank(exchange.assistantContent)
    requires var spoken := NonBlank(Messages(lines, None)); spoken != [] ==> spoken[|spoken| - 1].role == Assistant
    ensures Replay(lines + ExchangeLines(exchange, maxTurnBytes, ts), None)
            == Replay(lines, None) + [Message(User, exchange.userContent), Message(Assistant, exchange.assistantContent)]
  {
    var turns := [Turn(User, exchange.userContent, exchange.jobId, ts), Turn(Assistant, exchange.assistantContent, exchange.jobId, ts)];
    assert ExchangeLines(exchange, maxTurnBytes, ts) == turns;
    ExchangeIsSpoken(lines, exchange.userContent, exchange.assistantContent, exchange.jobId, ts);
    PairIsReplayed(NonBlank(Messages(lines, None)), Message(User, exchange.userContent), Message(Assistant, exchange.assistantContent));
  }

  // ---- What a compaction starts with ----

  lemma SummaryMessage(summary: string, ts: int)
    ensures MessageOf(Summary(summary, ts), None) == [Message(User, SUMMARY_PREFIX + "\n" + summary)]
    ensures !IsBlank(SUMMARY_PREFIX + "\n" + summary)
  {
    assert (SUMMARY_PREFIX + "\n" + summary)[0] == '[';
    assert '[' in SUMMARY_PREFIX + "\n" + summary && !IsSpace('[');
  }

  lemma SaidGrows(lines: seq<Line>, line: Line)
    ensures NonBlank(Messages(lines, None)) <= NonBlank(Messages(lines + [line], None))
  {
    MessagesSnocOne(lines, line, None);
    OneMessageALine(line, None);
    SaidStays(Messages(lines, None), MessageOf(line, None));
  }

  lemma SaidStays(messages: seq<Message>, more: seq<Message>)
    requires |more| <= 1
    ensures NonBlank(messages) <= NonBlank(messages + more)
  {
    NonBlankAppend(messages, more);
  }

  lemma OneMessageALine(line: Line, exclude: Option<string>)
    ensures |MessageOf(line, exclude)| <= 1
  {
  }

  lemma {:induction false} FirstMessageStays(first: Message, lines: seq<Line>, more: seq<Line>)
    requires NonBlank(Messages(lines, None)) == [first]
    ensures [first] <= NonBlank(Messages(lines + more, None))
  {
    if more == [] {
      assert lines + more == lines;
    } else {
      var init, last := more[..|more| - 1], more[|more| - 1];
      FirstMessageStays(first, lines, init);
      SaidGrows(lines + init, last);
      LastApart(lines, more);
    }
  }

  lemma UserFirstStays(messages: seq<Message>)
    requires messages != [] && messages[0].role == User
    ensures Bounded(messages) <= messages
  {
    TrailingDropped(messages);
  }

  lemma {:induction false} MergedStart(messages: seq<Message>)
    requires messages != []
    ensures Merged(messages) != [] && messages[0].content <= Merged(messages)[0].content
  {
    if |messages| > 1 {
      var init := messages[..|messages| - 1];
      MergedStart(init);
      assert init[0] == messages[0];
    } else {
      assert messages[..0] == [];
      assert Merged([]) == [];
    }
  }

  /** Whatever is kept, a compacted transcript that replays at all replays the summary first, in the user's voice. */
  lemma SummaryIsReplayedFirst(lines: seq<Line>, start: nat, keep: nat, summary: string, ts: int)
    requires start <= |lines|
    ensures var history := Replay(Compacted(lines, start, keep, summary, ts), None);
            history != [] ==> history[0].role == User && SUMMARY_PREFIX + "\n" + summary <= history[0].content
  {
    var written := Compacted(lines, start, keep, summary, ts);
    var first := Message(User, SUMMARY_PREFIX + "\n" + summary);
    SummaryMessage(summary, ts);
    assert [Summary(summary, ts)][..0] == [];
    assert Messages([Summary(summary, ts)], None) == [] + [first];
    NonBlankSnoc([], first);
    assert [] + [first] == [first];
    FirstMessageStays(first, [Summary(summary, ts)], CutTurns(lines[start..], keep));
    var spoken := NonBlank(Messages(written, None));
    UserFirstStays(spoken);
    ReplayIsNormal(written, None);
    if Bounded(spoken) != [] {
      assert Bounded(spoken)[0] == first;
      MergedStart(Bounded(spoken));
    }
  }

  // ---- What is summarised ----

  /** Each line that is summarised has its part, under the name of who spoke. */
  lemma PartsNameTheSpeaker(lines: seq<Line>, k: nat)
    requires k < |lines|
    ensures var parts := seq(|lines|, i requires 0 <= i < |lines| => PartOf(lines[i]));
            && SummarizeText(lines) == Join(parts)
            && parts[k] == match lines[k]
                           case Summary(content, _) => "Summary of earlier conversation:\n" + content
                           case Turn(User, content, _, _) => "User: " + content
                           case Turn(Assistant, content, _, _) => "Assistant: " + content
  {
  }

  // ---- Stored text is cut no shorter than it must ----

  /** A cut the shrinking tried before, which did not fit yet. */
  predicate DidNotFit(content: string, room: nat, m: nat) {
    m <= |content| && Utf8Length(content[..m]) > room
  }

  lemma {:induction false} ShrunkIsLongEnough(s: string, room: nat) returns (m: nat)
    ensures Shrunk(s, room) == s || (DidNotFit(s, room, m) && Shrunk(s, room) == s[..m * 9 / 10])
    decreases |s|
  {
    m := |s|;
    assert s[..m] == s;
    if Utf8Length(s) > room {
      var shorter := s[..|s| * 9 / 10];
      var k := ShrunkIsLongEnough(shorter, room);
      if Shrunk(shorter, room) != shorter {
        m := k;
        assert shorter[..k] == s[..k] && shorter[..k * 9 / 10] == s[..k * 9 / 10];
      }
    }
  }

  /** Stored text gives up a tenth at a time, and stops at the first length that fits. */
  lemma TruncatedKeepsWhatFits(content: string, maxBytes: nat) returns (kept: nat, tried: nat)
    requires |MARKER| <= maxBytes < Utf8Length(content)
    ensures kept <= |content| && Truncated(content, maxBytes) == content[..kept] + MARKER
    ensures var room := maxBytes - |MARKER|;
            || kept == |content| || kept == room
            || (kept == tried * 9 / 10 && DidNotFit(content, room, tried))
  {
    var room := maxBytes - |MARKER|;
    var sliced := if |content| > room then content[..room] else content;
    var n := |sliced|;
    assert sliced == content[..n];
    tried := ShrunkIsLongEnough(sliced, room);
    ShrunkIsPrefix(sliced, room);
    kept := |Shrunk(sliced, room)|;
    if Shrunk(sliced, room) != sliced {
      assert sliced[..tried] == content[..tried];
    }
    assert Shrunk(sliced, room) == content[..kept];
  }

  // ---- What is corrupt ----

  /** A malformed piece with more than blanks after it is corruption, and nothing else is. */
  lemma {:induction false} CorruptIff(codec: Codec, pieces: seq<seq<Byte>>)
    ensures ReadPieces(codec, pieces).Corrupt?
            <==> exists i, j :: 0 <= i < j < |pieces| && codec.decode(pieces[i]) == Malformed && codec.decode(pieces[j]) != Blank
  {
    if pieces != [] {
      CorruptIff(codec, pieces[1..]);
      if i, j :| 0 <= i < j < |pieces| && codec.decode(pieces[i]) == Malformed && codec.decode(pieces[j]) != Blank {
        assert pieces[1..][j - 1] == pieces[j];
        assert i > 0 ==> pieces[1..][i - 1] == pieces[i];
      }
      if i, j :| 0 <= i < j < |pieces| - 1 && codec.decode(pieces[1..][i]) == Malformed && codec.decode(pieces[1..][j]) != Blank {
        assert pieces[1..][i] == pieces[i + 1] && pieces[1..][j] == pieces[j + 1];
      }
      if codec.decode(pieces[0]) == Malformed && !AllBlank(codec, pieces[1..]) {
        var j :| 0 <= j < |pieces| - 1 && codec.decode(pieces[1..][j]) != Blank;
        assert pieces[j + 1] == pieces[1..][j];
      }
    }
  }
}
