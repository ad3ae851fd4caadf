/**
 The replay assembler: a transcript becomes the message history of a prompt, which is empty
 or starts with the user, ends with the assistant and strictly alternates.
 */
module ReplayHistory {
  import opened Prelude
  import opened Transcripts

  const SUMMARY_PREFIX := "[Conversation summary]"

  datatype Message = Message(role: Role, content: string)

  /** The message of a line; the turns of the job being recovered have none. */
  function MessageOf(line: Line, exclude: Option<string>): seq<Message> {
    match line
    case Summary(content, _) => [Message(User, SUMMARY_PREFIX + "\n" + content)]
    case Turn(role, content, jobId, _) => if Some(jobId) == exclude then [] else [Message(role, content)]
  }

  function Messages(lines: seq<Line>, exclude: Option<string>): seq<Message> {
    if lines == [] then []
    else Messages(lines[..|lines| - 1], exclude) + MessageOf(lines[|lines| - 1], exclude)
  }

  function NonBlank(messages: seq<Message>): seq<Message> {
    if messages == [] then []
    else
      var last := messages[|messages| - 1];
      NonBlank(messages[..|messages| - 1]) + (if IsBlank(last.content) then [] else [last])
  }

  /** Without leading assistant and trailing user messages. */
  function Bounded(messages: seq<Message>): seq<Message> {
    DropTrailing(DropLeading(messages))
  }

  function DropLeading(messages: seq<Message>): seq<Message> {
    if messages != [] && messages[0].role == Assistant then DropLeading(messages[1..]) else messages
  }

  function DropTrailing(messages: seq<Message>): seq<Message> {
    if messages != [] && messages[|messages| - 1].role == User then DropTrailing(messages[..|messages| - 1]) else messages
  }

  /** Neighbours of one role joined by a blank line. */
  function Merged(messages: seq<Message>): seq<Message> {
    if messages == [] then []
    else Joined(Merged(messages[..|messages| - 1]), messages[|messages| - 1])
  }

  function Joined(merged: seq<Message>, m: Message): seq<Message> {
    if merged != [] && merged[|merged| - 1].role == m.role
    then merged[|merged| - 1 := Message(m.role, merged[|merged| - 1].content + "\n\n" + m.content)]
    else merged + [m]
  }

  function Replay(lines: seq<Line>, exclude: Option<string>): seq<Message> {
    Merged(Bounded(NonBlank(Messages(lines, exclude))))
  }

  lemma {:induction false} DropLeadingSlice(messages: seq<Message>, k: nat)
    requires k <= |messages| && forall i :: 0 <= i < k ==> messages[i].role == Assistant
    requires k < |messages| ==> messages[k].role == User
    ensures DropLeading(messages) == messages[k..]
  {
    if k > 0 {
      DropLeadingSlice(messages[1..], k - 1);
      assert messages[1..][k - 1..] == messages[k..];
    }
  }

  lemma {:induction false} DropTrailingSlice(messages: seq<Message>, k: nat)
    requires k <= |messages| && forall i :: k <= i < |messages| ==> messages[i].role == User
    requires k > 0 ==> messages[k - 1].role == Assistant
    ensures DropTrailing(messages) == messages[..k]
  {
    if k < |messages| {
      DropTrailingSlice(messages[..|messages| - 1], k);
      assert messages[..|messages| - 1][..k] == messages[..k];
    }
  }

  lemma NonBlankAppend(messages: seq<Message>, more: seq<Message>)
    requires |more| <= 1
    ensures NonBlank(messages + more) == NonBlank(messages) + (if more == [] || IsBlank(more[0].content) then [] else more)
  {
    if more == [] {
      assert messages + more == messages;
    } else {
      assert (messages + more)[..|messages|] == messages;
    }
  }

  lemma CollectStep(lines: seq<Line>, i: nat, exclude: Option<string>)
    requires i < |lines|
    ensures var message := MessageOf(lines[i], exclude);
            NonBlank(Messages(lines[..i + 1], exclude))
            == NonBlank(Messages(lines[..i], exclude)) + (if message == [] || IsBlank(message[0].content) then [] else message)
  {
    assert lines[..i + 1][..i] == lines[..i];
    NonBlankAppend(Messages(lines[..i], exclude), MessageOf(lines[i], exclude));
  }

  method CollectNonBlank(lines: seq<Line>, exclude: Option<string>) returns (nonEmpty: seq<Message>)
    ensures nonEmpty == NonBlank(Messages(lines, exclude))
  {
    nonEmpty := [];
    var i := 0;
    while i < |lines|
      invariant 0 <= i <= |lines|
      invariant nonEmpty == NonBlank(Messages(lines[..i], exclude))
    {
      var message := MessageOf(lines[i], exclude);
      CollectStep(lines, i, exclude);
      if message != [] && !IsBlank(message[0].content) {
        nonEmpty := nonEmpty + message;
      }
      i := i + 1;
    }
    assert lines[..i] == lines;
  }

  method DropEnds(messages: seq<Message>) returns (bounded: seq<Message>)
    ensures bounded == Bounded(messages)
  {
    var start := 0;
    while start < |messages| && messages[start].role == Assistant
      invariant 0 <= start <= |messages|
      invariant forall k :: 0 <= k < start ==> messages[k].role == Assistant
    {
      start := start + 1;
    }
    var end := |messages|;
    while end > start && messages[end - 1].role == User
      invariant start <= end <= |messages|
      invariant forall k :: end <= k < |messages| ==> messages[k].role == User
    {
      end := end - 1;
    }
    DropLeadingSlice(messages, start);
    DropTrailingSlice(messages[start..], end - start);
    bounded := messages[start..end];
    assert bounded == messages[start..][..end - start];
  }

  lemma MergedStep(messages: seq<Message>, j: nat)
    requires j < |messages|
    ensures Merged(messages[..j + 1]) == Joined(Merged(messages[..j]), messages[j])
  {
    assert messages[..j + 1][..j] == messages[..j];
  }

  method AssembleReplay(lines: seq<Line>, exclude: Option<string>) returns (merged: seq<Message>)
    ensures merged == Replay(lines, exclude)
  {
    var nonEmpty := CollectNonBlank(lines, exclude);
    var bounded := DropEnds(nonEmpty);
    merged := [];
    var j := 0;
    while j < |bounded|
      invariant 0 <= j <= |bounded| && merged == Merged(bounded[..j])
    {
      MergedStep(bounded, j);
      var message := bounded[j];
      if |merged| > 0 && merged[|merged| - 1].role == message.role {
        merged := merged[|merged| - 1 := Message(message.role, merged[|merged| - 1].content + "\n\n" + message.content)];
      } else {
        merged := merged + [message];
      }
      j := j + 1;
    }
    assert bounded[..j] == bounded;
  }

  // ---- The normal form ----

  ghost predicate Alternates(messages: seq<Message>) {
    forall i, j :: 0 <= i < j < |messages| && j == i + 1 ==> messages[i].role != messages[j].role
  }

  predicate NoBlanks(messages: seq<Message>) {
    forall m :: m in messages ==> !IsBlank(m.content)
  }

  /** Empty, or from the user to the assistant. */
  predicate Framed(messages: seq<Message>) {
    messages != [] ==> messages[0].role == User && messages[|messages| - 1].role == Assistant
  }

  ghost predicate NormalForm(messages: seq<Message>) {
    Framed(messages) && Alternates(messages) && NoBlanks(messages)
  }

  lemma {:induction false} NonBlankKeeps(messages: seq<Message>)
    ensures NoBlanks(NonBlank(messages)) && forall m :: m in NonBlank(messages) <==> m in messages && !IsBlank(m.content)
    ensures NoBlanks(messages) ==> NonBlank(messages) == messages
  {
    if messages != [] {
      NonBlankKeeps(messages[..|messages| - 1]);
      assert messages == messages[..|messages| - 1] + [messages[|messages| - 1]];
    }
  }

  lemma {:induction false} LeadingDropped(messages: seq<Message>)
    ensures DropLeading(messages) != [] ==> DropLeading(messages)[0].role == User
    ensures forall m :: m in DropLeading(messages) ==> m in messages
  {
    if messages != [] && messages[0].role == Assistant { LeadingDropped(messages[1..]); }
  }

  lemma {:induction false} TrailingDropped(messages: seq<Message>)
    ensures DropTrailing(messages) <= messages
    ensures DropTrailing(messages) != [] ==> DropTrailing(messages)[|DropTrailing(messages)| - 1].role == Assistant
  {
    if messages != [] && messages[|messages| - 1].role == User { TrailingDropped(messages[..|messages| - 1]); }
  }

  lemma BoundedFramed(messages: seq<Message>)
    ensures Framed(Bounded(messages)) && forall m :: m in Bounded(messages) ==> m in messages
    ensures Framed(messages) ==> Bounded(messages) == messages
  {
    LeadingDropped(messages);
    TrailingDropped(DropLeading(messages));
  }

  lemma JoinNotBlank(a: string, b: string)
    requires !IsBlank(a)
    ensures !IsBlank(a + "\n\n" + b)
  {
    var c :| c in a && !IsSpace(c);
    assert c in a + "\n\n" + b;
  }

  lemma JoinedShape(merged: seq<Message>, last: Message)
    requires Alternates(merged) && NoBlanks(merged) && !IsBlank(last.content)
    ensures var next := Joined(merged, last);
            && Alternates(next) && NoBlanks(next) && next != []
            && next[|next| - 1].role == last.role && (merged != [] ==> next[0].role == merged[0].role)
  {
    if merged != [] && merged[|merged| - 1].role == last.role {
      JoinNotBlank(merged[|merged| - 1].content, last.content);
    }
  }

  /** Merging keeps both ends and the blanks away, and leaves no equal neighbours. */
  lemma {:induction false} MergedShape(messages: seq<Message>)
    requires NoBlanks(messages)
    ensures Alternates(Merged(messages)) && NoBlanks(Merged(messages))
    ensures messages == [] <==> Merged(messages) == []
    ensures messages != [] ==> Merged(messages)[0].role == messages[0].role
                               && Merged(messages)[|Merged(messages)| - 1].role == messages[|messages| - 1].role
  {
    if messages != [] {
      var init := messages[..|messages| - 1];
      var last := messages[|messages| - 1];
      MergedShape(init);
      JoinedShape(Merged(init), last);
    }
  }

  lemma {:induction false} MergedFixed(messages: seq<Message>)
    requires Alternates(messages)
    ensures Merged(messages) == messages
  {
    if messages != [] {
      var init := messages[..|messages| - 1];
      var last := messages[|messages| - 1];
      MergedFixed(init);
      assert init != [] ==> init[|init| - 1] == messages[|messages| - 2];
      assert Joined(init, last) == init + [last];
      assert init + [last] == messages;
    }
  }

  /** What an assembled history always looks like. */
  lemma ReplayIsNormal(lines: seq<Line>, exclude: Option<string>)
    ensures NormalForm(Replay(lines, exclude))
  {
    var nonBlank := NonBlank(Messages(lines, exclude));
    NonBlankKeeps(Messages(lines, exclude));
    BoundedFramed(nonBlank);
    MergedShape(Bounded(nonBlank));
  }

  // ---- Un-merging ----

  function Join(parts: seq<string>): string
    requires parts != []
  {
    if |parts| == 1 then parts[0] else Join(parts[..|parts| - 1]) + "\n\n" + parts[|parts| - 1]
  }

  /** The runs of neighbours with one role, in order. */
  function Runs(messages: seq<Message>): seq<(Role, seq<string>)> {
    if messages == [] then [] else RunOn(Runs(messages[..|messages| - 1]), messages[|messages| - 1])
  }

  function RunOn(runs: seq<(Role, seq<string>)>, last: Message): seq<(Role, seq<string>)> {
    if runs != [] && runs[|runs| - 1].0 == last.role
    then runs[|runs| - 1 := (last.role, runs[|runs| - 1].1 + [last.content])]
    else runs + [(last.role, [last.content])]
  }

  function AsMessages(run: (Role, seq<string>)): seq<Message> {
    seq(|run.1|, i requires 0 <= i < |run.1| => Message(run.0, run.1[i]))
  }

  function Unmerged(runs: seq<(Role, seq<string>)>): seq<Message> {
    if runs == [] then [] else Unmerged(runs[..|runs| - 1]) + AsMessages(runs[|runs| - 1])
  }

  lemma RunExtended(role: Role, parts: seq<string>, content: string)
    ensures AsMessages((role, parts + [content])) == AsMessages((role, parts)) + [Message(role, content)]
  {
  }

  lemma RunOnUnmerges(runs: seq<(Role, seq<string>)>, last: Message)
    ensures Unmerged(RunOn(runs, last)) == Unmerged(runs) + [last]
  {
    var next := RunOn(runs, last);
    if runs != [] && runs[|runs| - 1].0 == last.role {
      RunExtended(last.role, runs[|runs| - 1].1, last.content);
      assert next[..|next| - 1] == runs[..|runs| - 1];
    } else {
      assert next[..|next| - 1] == runs;
      assert AsMessages((last.role, [last.content])) == [last];
    }
  }

  lemma {:induction false} RunsUnmerge(messages: seq<Message>)
    ensures Unmerged(Runs(messages)) == messages
  {
    if messages != [] {
      var init := messages[..|messages| - 1];
      RunsUnmerge(init);
      RunOnUnmerges(Runs(init), messages[|messages| - 1]);
      assert init + [messages[|messages| - 1]] == messages;
    }
  }

  /** Message by message, the merged history is the contents of the runs joined. */
  ghost predicate Merges(runs: seq<(Role, seq<string>)>, merged: seq<Message>) {
    && |merged| == |runs|
    && forall i :: 0 <= i < |runs| ==> runs[i].1 != [] && merged[i] == Message(runs[i].0, Join(runs[i].1))
  }

  lemma JoinSnoc(parts: seq<string>, content: string)
    requires parts != []
    ensures Join(parts + [content]) == Join(parts) + "\n\n" + content
  {
    assert (parts + [content])[..|parts|] == parts;
  }

  lemma RunOnMerges(runs: seq<(Role, seq<string>)>, merged: seq<Message>, last: Message)
    requires Merges(runs, merged)
    ensures Merges(RunOn(runs, last), Joined(merged, last))
  {
    if runs != [] && runs[|runs| - 1].0 == last.role {
      JoinSnoc(runs[|runs| - 1].1, last.content);
    }
  }

  lemma {:induction false} RunsMerge(messages: seq<Message>)
    ensures Merges(Runs(messages), Merged(messages))
  {
    if messages != [] {
      var init := messages[..|messages| - 1];
      RunsMerge(init);
      RunOnMerges(Runs(init), Merged(init), messages[|messages| - 1]);
    }
  }

  /**
   Every message of the history joins one run of the bounded, non-blank lines, and the runs
   put back together are those lines in order: merging drops, repeats and reorders nothing.
   */
  lemma ReplayUnmerges(lines: seq<Line>, exclude: Option<string>)
    ensures var bounded := Bounded(NonBlank(Messages(lines, exclude)));
            var runs := Runs(bounded);
            && Unmerged(runs) == bounded
            && |Replay(lines, exclude)| == |runs|
            && forall i :: 0 <= i < |runs| ==>
                 runs[i].1 != [] && Replay(lines, exclude)[i] == Message(runs[i].0, Join(runs[i].1))
  {
    RunsUnmerge(Bounded(NonBlank(Messages(lines, exclude))));
    RunsMerge(Bounded(NonBlank(Messages(lines, exclude))));
  }

  // ---- Assembling again ----

  function AsTurns(messages: seq<Message>, jobId: string, ts: int): seq<Line> {
    seq(|messages|, i requires 0 <= i < |messages| => Turn(messages[i].role, messages[i].content, jobId, ts))
  }

  lemma {:induction false} TurnsReadBack(messages: seq<Message>, jobId: string, ts: int, exclude: Option<string>)
    requires Some(jobId) != exclude
    ensures Messages(AsTurns(messages, jobId, ts), exclude) == messages
  {
    if messages != [] {
      TurnsReadBack(messages[..|messages| - 1], jobId, ts, exclude);
      var lines := AsTurns(messages, jobId, ts);
      assert lines[..|lines| - 1] == AsTurns(messages[..|messages| - 1], jobId, ts);
    }
  }

  /** A history recorded as turns is assembled to itself. */
  lemma ReplayIsIdempotent(lines: seq<Line>, exclude: Option<string>, jobId: string, ts: int, again: Option<string>)
    requires Some(jobId) != again
    ensures Replay(AsTurns(Replay(lines, exclude), jobId, ts), again) == Replay(lines, exclude)
  {
    var history := Replay(lines, exclude);
    ReplayIsNormal(lines, exclude);
    TurnsReadBack(history, jobId, ts, again);
    NonBlankKeeps(history);
    BoundedFramed(history);
    MergedFixed(history);
  }
}
