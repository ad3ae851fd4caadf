/** The session files as the store sees them: sizes, ages and what one read does to a file. */
module SessionFiles {
  import opened Prelude
  import opened Transcripts

  datatype Key = Key(customerId: string, sessionId: string)

  datatype File = File(bytes: seq<Byte>, mtimeMs: int)

  type Files = map<Key, File>

  ghost function Total(files: Files): nat {
    if files == map[] then 0
    else
      var key :| key in files;
      |files[key].bytes| + Total(files - {key})
  }

  lemma {:induction false} TotalWithout(files: Files, key: Key)
    requires key in files
    ensures Total(files) == |files[key].bytes| + Total(files - {key})
    decreases |files|
  {
    var first :| first in files && Total(files) == |files[first].bytes| + Total(files - {first});
    if first != key {
      assert (files - {first}).Keys == files.Keys - {first};
      TotalWithout(files - {first}, key);
      assert (files - {key}).Keys == files.Keys - {key};
      TotalWithout(files - {key}, first);
      assert files - {first} - {key} == files - {key} - {first};
    }
  }

  function Size(files: Files, key: Key): nat {
    if key in files then |files[key].bytes| else 0
  }

  /** Writing a file changes the total by the change of its size. */
  lemma TotalWritten(files: Files, key: Key, file: File)
    ensures Total(files[key := file]) == Total(files) - Size(files, key) + |file.bytes|
  {
    TotalWithout(files[key := file], key);
    assert files[key := file] - {key} == files - {key};
    if key in files {
      TotalWithout(files, key);
    } else {
      assert files - {key} == files;
    }
  }

  lemma TotalBounds(files: Files, key: Key)
    ensures Size(files, key) <= Total(files)
  {
    if key in files {
      TotalWithout(files, key);
    }
  }

  /** Fewer files, fewer bytes. */
  lemma {:induction false} BytesShrink(fewer: Files, files: Files)
    requires fewer.Keys <= files.Keys && forall key :: key in fewer ==> fewer[key] == files[key]
    ensures Total(fewer) <= Total(files)
    decreases |files|
  {
    if fewer != files {
      var key :| key in files && key !in fewer;
      TotalWithout(files, key);
      assert (files - {key}).Keys == files.Keys - {key};
      BytesShrink(fewer, files - {key});
    }
  }

  method SumSizes(files: Files) returns (sum: nat)
    ensures sum == Total(files)
  {
    sum := 0;
    var rest := files;
    while rest != map[]
      invariant sum + Total(rest) == Total(files)
      decreases |rest|
    {
      var key :| key in rest;
      TotalWithout(rest, key);
      assert (rest - {key}).Keys == rest.Keys - {key};
      sum := sum + |rest[key].bytes|;
      rest := rest - {key};
    }
  }

  // ---- Age order ----

  ghost predicate OldestFirst(files: Files, keys: set<Key>, order: seq<Key>)
    requires keys <= files.Keys
  {
    && (forall key :: key in order <==> key in keys)
    && (forall i, j :: 0 <= i < j < |order| ==> order[i] != order[j])
    && (forall i, j :: 0 <= i < j < |order| && order[i] in files && order[j] in files ==>
          files[order[i]].mtimeMs <= files[order[j]].mtimeMs)
  }

  lemma {:induction false} OldestExists(files: Files, keys: set<Key>) returns (oldest: Key)
    requires keys <= files.Keys && keys != {}
    ensures oldest in keys && forall key :: key in keys ==> files[oldest].mtimeMs <= files[key].mtimeMs
    decreases |keys|
  {
    oldest :| oldest in keys;
    if keys != {oldest} {
      var other := OldestExists(files, keys - {oldest});
      if files[other].mtimeMs < files[oldest].mtimeMs {
        oldest := other;
      }
    } else {
      assert forall key :: key in keys ==> key == oldest;
    }
  }

  method SortByAge(files: Files, keys: set<Key>) returns (order: seq<Key>)
    requires keys <= files.Keys
    ensures OldestFirst(files, keys, order)
  {
    order := [];
    var rest := keys;
    while rest != {}
      invariant rest <= keys
      invariant forall key :: key in order <==> key in keys - rest
      invariant forall i, j :: 0 <= i < j < |order| ==> order[i] != order[j]
      invariant forall i, j :: 0 <= i < j < |order| && order[i] in files && order[j] in files ==>
                  files[order[i]].mtimeMs <= files[order[j]].mtimeMs
      invariant forall key, i :: 0 <= i < |order| && key in rest && order[i] in files ==>
                  files[order[i]].mtimeMs <= files[key].mtimeMs
      decreases |rest|
    {
      ghost var oldest := OldestExists(files, rest);
      var next :| next in rest && forall key :: key in rest ==> files[next].mtimeMs <= files[key].mtimeMs;
      assert next !in order;
      order := order + [next];
      rest := rest - {next};
    }
  }

  lemma FrontIsOlder(files: Files, keys: set<Key>, order: seq<Key>, i: nat, front: Key, back: Key)
    requires keys <= files.Keys && OldestFirst(files, keys, order) && i <= |order|
    requires front in order[..i] && back in keys && back !in order[..i]
    ensures files[front].mtimeMs <= files[back].mtimeMs
  {
    var a :| 0 <= a < i && order[..i][a] == front;
    assert back in order;
    var b :| 0 <= b < |order| && order[b] == back;
    forall k | 0 <= k < i ensures order[k] in order[..i] {
      assert order[..i][k] == order[k];
    }
  }

  // ---- One read ----

  datatype ReadIo = ReadIo(readable: bool, renamed: bool, rewritten: bool)

  datatype Outcome = Transcript(lines: seq<Line>) | Nothing | Threw

  /** An oversized or corrupt file is set aside, a torn one is rewritten without its fragment. */
  function FilesAfterRead(codec: Codec, maxBytes: nat, files: Files, key: Key, io: ReadIo, now: int): Files {
    if key !in files || !io.readable then files
    else if |files[key].bytes| > maxBytes || Read(codec, files[key].bytes).Corrupt? then
      if io.renamed then files - {key} else files
    else if Read(codec, files[key].bytes).torn && io.rewritten then
      files[key := File(Repaired(codec, files[key].bytes), now)]
    else files
  }

  function OutcomeOfRead(codec: Codec, maxBytes: nat, files: Files, key: Key, io: ReadIo): Outcome {
    if key !in files || !io.readable || |files[key].bytes| > maxBytes then Nothing
    else
      match Read(codec, files[key].bytes)
      case Corrupt => Nothing
      case Lines(lines, torn) => if torn && !io.rewritten then Threw else Transcript(lines)
  }

  /** A read sets a file aside exactly when it can, for a file over the size limit or a corrupt one; no other file is touched. */
  lemma SetAsideIff(codec: Codec, maxBytes: nat, files: Files, key: Key, io: ReadIo, now: int)
    requires key in files
    ensures var after := FilesAfterRead(codec, maxBytes, files, key, io, now);
            && (key !in after <==> io.readable && io.renamed && (|files[key].bytes| > maxBytes || Read(codec, files[key].bytes).Corrupt?))
            && after.Keys + {key} == files.Keys && forall other :: other in files && other != key ==> after[other] == files[other]
    ensures key !in FilesAfterRead(codec, maxBytes, files, key, io, now) ==> OutcomeOfRead(codec, maxBytes, files, key, io) == Nothing
  {
  }

  /**
   The append torn by a crash, then the read of the next job: it sees the earlier lines and
   those of the append that were written in full, and the session is never set aside.
   */
  lemma TornSessionIsRead(codec: Codec, maxBytes: nat, files: Files, key: Key, earlier: seq<Line>, appended: seq<Line>,
                          cut: nat, io: ReadIo, now: int)
    requires Faithful(codec) && cut <= |Payload(codec, appended)|
    requires key in files && files[key].bytes == Payload(codec, earlier) + Payload(codec, appended)[..cut]
    requires |files[key].bytes| <= maxBytes && io.readable && io.rewritten
    ensures OutcomeOfRead(codec, maxBytes, files, key, io) == Transcript(earlier + appended[..Written(codec, appended, cut)])
    ensures FilesAfterRead(codec, maxBytes, files, key, io, now).Keys == files.Keys
    ensures !BeforeNewline(codec, appended, cut) ==>
              FilesAfterRead(codec, maxBytes, files, key, io, now)[key].bytes
              == Payload(codec, earlier + appended[..Written(codec, appended, cut)])
  {
    TornAppendReadsBack(codec, earlier, appended, cut);
    TornAppendRepairedIff(codec, earlier, appended, cut);
  }

  // ---- An expired session ----

  predicate PastTtl(files: Files, key: Key, ttlMs: int, now: int) {
    key in files && now - files[key].mtimeMs > ttlMs
  }

  /** An expired file goes, when it can. */
  function FilesAfterExpiry(files: Files, key: Key, ttlMs: int, now: int, removable: bool): Files {
    if PastTtl(files, key, ttlMs, now) && removable then files - {key} else files
  }

  function FilesAfterAppend(codec: Codec, files: Files, key: Key, lines: seq<Line>, now: int): Files {
    files[key := File((if key in files then files[key].bytes else []) + Payload(codec, lines), now)]
  }

  /**
   Opened past its time, appended to, and opened again in time: the second opening reads the new
   lines only exactly when the expired file could be unlinked; otherwise the old ones come back.
   */
  lemma ExpiredStaysGoneIff(codec: Codec, maxBytes: nat, files: Files, key: Key, earlier: seq<Line>, appended: seq<Line>,
                            ttlMs: int, now: int, removable: bool, later: int, io: ReadIo)
    requires Faithful(codec) && earlier != [] && appended != []
    requires PastTtl(files, key, ttlMs, now) && files[key].bytes == Payload(codec, earlier)
    requires |Payload(codec, earlier)| + |Payload(codec, appended)| <= maxBytes && io.readable
    requires now <= later <= now + ttlMs
    ensures var next := FilesAfterAppend(codec, FilesAfterExpiry(files, key, ttlMs, now, removable), key, appended, now);
            && !PastTtl(next, key, ttlMs, later)
            && OutcomeOfRead(codec, maxBytes, next, key, io) == Transcript(if removable then appended else earlier + appended)
            && (OutcomeOfRead(codec, maxBytes, next, key, io) == Transcript(appended) <==> removable)
  {
    CompleteFileReads(codec, appended);
    CompleteFileReads(codec, earlier + appended);
    PayloadAppend(codec, earlier, appended);
    assert [] + Payload(codec, appended) == Payload(codec, appended);
    assert |earlier + appended| > |appended|;
  }
}
