/** The turns of an exchange: stored text is cut to a byte budget, and a recorded role is not recorded again. */
module TurnText {
  import opened Prelude
  import opened Transcripts
  import opened Compaction

  datatype Exchange = Exchange(jobId: string, userContent: string, assistantContent: string, skipRoles: set<Role>)

  /** Bytes of the UTF-8 encoding. */
  function Utf8Length(s: string): nat {
    if s == [] then 0 else Utf8Length(s[..|s| - 1]) + Utf8Width(s[|s| - 1])
  }

  function Utf8Width(c: char): nat {
    if c < '\U{80}' then 1 else if c < '\U{800}' then 2 else if c < '\U{10000}' then 3 else 4
  }

  /** A tenth shorter until it fits. */
  function Shrunk(s: string, maxBytes: nat): string {
    if Utf8Length(s) <= maxBytes then s else Shrunk(s[..|s| * 9 / 10], maxBytes)
  }

  function Truncated(content: string, maxBytes: nat): string
    requires maxBytes >= |MARKER|
  {
    if Utf8Length(content) <= maxBytes then content
    else
      var room := maxBytes - |MARKER|;
      Shrunk(if |content| > room then content[..room] else content, room) + MARKER
  }

  method TruncateTurn(content: string, maxBytes: nat) returns (stored: string)
    requires maxBytes >= |MARKER|
    ensures stored == Truncated(content, maxBytes)
  {
    if Utf8Length(content) <= maxBytes {
      return content;
    }
    var room := maxBytes - |MARKER|;
    var sliced := if |content| > room then content[..room] else content;
    while Utf8Length(sliced) > room
      invariant Shrunk(sliced, room) + MARKER == Truncated(content, maxBytes)
      decreases |sliced|
    {
      sliced := sliced[..|sliced| * 9 / 10];
    }
    stored := sliced + MARKER;
  }

  lemma {:induction false} ShrunkIsPrefix(s: string, maxBytes: nat)
    ensures Utf8Length(Shrunk(s, maxBytes)) <= maxBytes
    ensures Shrunk(s, maxBytes) <= s
    decreases |s|
  {
    if Utf8Length(s) > maxBytes {
      ShrunkIsPrefix(s[..|s| * 9 / 10], maxBytes);
    }
  }

  lemma {:induction false} Utf8Append(a: string, b: string)
    ensures Utf8Length(a + b) == Utf8Length(a) + Utf8Length(b)
  {
    if b == [] {
      assert a + b == a;
    } else {
      assert (a + b)[..|a + b| - 1] == a + b[..|b| - 1];
      Utf8Append(a, b[..|b| - 1]);
    }
  }

  lemma MarkerBytes()
    ensures Utf8Length(MARKER) == |MARKER|
  {
    AsciiBytes(MARKER);
  }

  lemma {:induction false} AsciiBytes(s: string)
    requires forall i :: 0 <= i < |s| ==> Utf8Width(s[i]) == 1
    ensures Utf8Length(s) == |s|
  {
    if s != [] {
      AsciiBytes(s[..|s| - 1]);
    }
  }

  lemma CutTextFits(content: string, maxBytes: nat) returns (kept: string)
    requires |MARKER| <= maxBytes < Utf8Length(content)
    ensures kept <= content && Truncated(content, maxBytes) == kept + MARKER && Utf8Length(kept) + |MARKER| <= maxBytes
  {
    var room := maxBytes - |MARKER|;
    var sliced := if |content| > room then content[..room] else content;
    ShrunkIsPrefix(sliced, room);
    kept := Shrunk(sliced, room);
  }

  /** Stored text fits the budget and is the text, or a beginning of it and the marker. */
  lemma TruncatedFits(content: string, maxBytes: nat)
    requires maxBytes >= |MARKER|
    ensures Utf8Length(Truncated(content, maxBytes)) <= maxBytes
    ensures Utf8Length(content) <= maxBytes ==> Truncated(content, maxBytes) == content
    ensures Utf8Length(content) > maxBytes ==> exists kept :: kept <= content && Truncated(content, maxBytes) == kept + MARKER
  {
    if Utf8Length(content) > maxBytes {
      var kept := CutTextFits(content, maxBytes);
      MarkerBytes();
      Utf8Append(kept, MARKER);
    }
  }

  /** The lines an exchange adds: the user's turn, then the assistant's, without the roles to skip. */
  function ExchangeLines(exchange: Exchange, maxTurnBytes: nat, ts: int): seq<Line>
    requires maxTurnBytes >= |MARKER|
  {
    (if User in exchange.skipRoles then [] else [Turn(User, Truncated(exchange.userContent, maxTurnBytes), exchange.jobId, ts)]) +
    (if Assistant in exchange.skipRoles then [] else [Turn(Assistant, Truncated(exchange.assistantContent, maxTurnBytes), exchange.jobId, ts)])
  }

  // ---- One turn a role, through any crash ----

  predicate IsTurnOf(line: Line, jobId: string, role: Role) {
    line.Turn? && line.jobId == jobId && line.role == role
  }

  /** The roles a transcript already holds for a job. */
  function Recorded(lines: seq<Line>, jobId: string): set<Role> {
    if lines == [] then {}
    else
      var last := lines[|lines| - 1];
      Recorded(lines[..|lines| - 1], jobId) + (if last.Turn? && last.jobId == jobId then {last.role} else {})
  }

  function Count(lines: seq<Line>, jobId: string, role: Role): nat {
    if lines == [] then 0
    else Count(lines[..|lines| - 1], jobId, role) + (if IsTurnOf(lines[|lines| - 1], jobId, role) then 1 else 0)
  }

  lemma {:induction false} CountAppend(a: seq<Line>, b: seq<Line>, jobId: string, role: Role)
    ensures Count(a + b, jobId, role) == Count(a, jobId, role) + Count(b, jobId, role)
  {
    if b == [] {
      assert a + b == a;
    } else {
      assert (a + b)[..|a + b| - 1] == a + b[..|b| - 1];
      CountAppend(a, b[..|b| - 1], jobId, role);
    }
  }

  lemma {:induction false} RecordedIffCounted(lines: seq<Line>, jobId: string, role: Role)
    ensures role in Recorded(lines, jobId) <==> Count(lines, jobId, role) > 0
  {
    if lines != [] {
      RecordedIffCounted(lines[..|lines| - 1], jobId, role);
    }
  }

  lemma CountOfExchange(exchange: Exchange, maxTurnBytes: nat, ts: int, role: Role)
    requires maxTurnBytes >= |MARKER|
    ensures Count(ExchangeLines(exchange, maxTurnBytes, ts), exchange.jobId, role) == if role in exchange.skipRoles then 0 else 1
  {
    var user := Turn(User, Truncated(exchange.userContent, maxTurnBytes), exchange.jobId, ts);
    var assistant := Turn(Assistant, Truncated(exchange.assistantContent, maxTurnBytes), exchange.jobId, ts);
    CountOne(user, exchange.jobId, role);
    CountOne(assistant, exchange.jobId, role);
    CountAppend(if User in exchange.skipRoles then [] else [user], if Assistant in exchange.skipRoles then [] else [assistant],
                exchange.jobId, role);
  }

  lemma CountOne(line: Line, jobId: string, role: Role)
    ensures Count([line], jobId, role) == if IsTurnOf(line, jobId, role) then 1 else 0
  {
    assert [line][..0] == [];
  }

  /**
   A job's append is cut anywhere by a crash, the transcript is read back, and the job runs again:
   skipping the roles found recorded leaves exactly one turn of each role.
   */
  lemma RerunRecordsOnce(codec: Codec, earlier: seq<Line>, exchange: Exchange, rerun: Exchange, maxTurnBytes: nat, ts: int, later: int,
                         cut: nat, role: Role)
    requires Faithful(codec) && maxTurnBytes >= |MARKER|
    requires Recorded(earlier, exchange.jobId) == {} && exchange.skipRoles == {} && rerun.jobId == exchange.jobId
    requires cut <= |Payload(codec, ExchangeLines(exchange, maxTurnBytes, ts))|
    requires var reading := Read(codec, Payload(codec, earlier) + Payload(codec, ExchangeLines(exchange, maxTurnBytes, ts))[..cut]);
             reading.Lines? ==> rerun.skipRoles == Recorded(reading.lines, rerun.jobId)
    ensures var reading := Read(codec, Payload(codec, earlier) + Payload(codec, ExchangeLines(exchange, maxTurnBytes, ts))[..cut]);
            reading.Lines? && Count(reading.lines + ExchangeLines(rerun, maxTurnBytes, later), rerun.jobId, role) == 1
  {
    var lines := ExchangeLines(exchange, maxTurnBytes, ts);
    TornAppendReadsBack(codec, earlier, lines, cut);
    var n := Written(codec, lines, cut);
    var read := earlier + lines[..n];
    RecordedIffCounted(earlier, exchange.jobId, role);
    RecordedIffCounted(read, exchange.jobId, role);
    CountOfExchange(exchange, maxTurnBytes, ts, role);
    CountAppend(lines[..n], lines[n..], exchange.jobId, role);
    assert lines[..n] + lines[n..] == lines;
    CountAppend(earlier, lines[..n], exchange.jobId, role);
    CountOfExchange(rerun, maxTurnBytes, later, role);
    CountAppend(read, ExchangeLines(rerun, maxTurnBytes, later), exchange.jobId, role);
  }
}
