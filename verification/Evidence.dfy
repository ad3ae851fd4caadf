/**
 Signed events as relays hand them over: which ones are evidence, and which one is the last
 word. Kinds and tie-break follow NIP-01, deletions NIP-09, expirations NIP-40.
 */
module Evidence {
  import opened Prelude

  const MAX_FUTURE_SKEW_SECS := 900

  type Tag = seq<string>

  /** What an event says; its id names this content. */
  datatype Note = Note(id: string, pubkey: string, createdAt: int, kind: int, tags: seq<Tag>, content: string)

  /** What a relay hands over: something not even shaped like an event, or a note and a signature. */
  datatype Item = Malformed | Signed(note: Note, sig: string)

  type Check = (Note, string) -> bool

  predicate IsGenuine(check: Check, item: Item) {
    item.Signed? && check(item.note, item.sig)
  }

  /** Ids are hashes of the content: two genuine notes with one id are one note. */
  ghost predicate IdsNameContent(check: Check) {
    forall a: Note, b: Note, s: string, t: string :: check(a, s) && check(b, t) && a.id == b.id ==> a == b
  }

  /** The evidence in a bag: what is genuinely signed, whatever else is there. */
  function GenuineNotes(check: Check, events: seq<Item>): set<Note> {
    set item | item in events && IsGenuine(check, item) :: item.note
  }

  ghost predicate UniqueIds(notes: set<Note>) {
    forall a, b :: a in notes && b in notes && a.id == b.id ==> a == b
  }

  lemma GenuineIdsUnique(check: Check, events: seq<Item>)
    requires IdsNameContent(check)
    ensures UniqueIds(GenuineNotes(check, events))
  {
    forall a, b | a in GenuineNotes(check, events) && b in GenuineNotes(check, events) && a.id == b.id
      ensures a == b
    {
      var x :| x in events && IsGenuine(check, x) && x.note == a;
      var y :| y in events && IsGenuine(check, y) && y.note == b;
      assert check(a, x.sig) && check(b, y.sig);
    }
  }

  // ---- Tags ----

  function TagsNamed(tags: seq<Tag>, name: string): seq<Tag> {
    if tags == [] then []
    else (if tags[0] != [] && tags[0][0] == name then [tags[0]] else []) + TagsNamed(tags[1..], name)
  }

  lemma {:induction false} NamedTags(tags: seq<Tag>, name: string)
    ensures forall tag :: tag in TagsNamed(tags, name) <==> tag in tags && tag != [] && tag[0] == name
  {
    if tags != [] {
      NamedTags(tags[1..], name);
      assert forall tag :: tag in tags <==> tag == tags[0] || tag in tags[1..];
    }
  }

  /** The value of the first tag with this name. */
  function TagValue(tags: seq<Tag>, name: string): Option<string> {
    var named := TagsNamed(tags, name);
    if named != [] && |named[0]| > 1 then Some(named[0][1]) else None
  }

  predicate Names(note: Note, address: string) {
    exists tag :: tag in TagsNamed(note.tags, "a") && |tag| > 1 && tag[1] == address
  }

  // ---- The last word ----

  /** Which notes a search takes; without a clock nothing is too far ahead. */
  datatype Wanted = Wanted(kind: int, author: string, now: Option<int>, d: Option<string>)

  predicate Matches(note: Note, w: Wanted) {
    && note.kind == w.kind && note.pubkey == w.author
    && (w.now.Some? ==> note.createdAt <= w.now.value + MAX_FUTURE_SKEW_SECS)
    && (w.d.Some? ==> TagValue(note.tags, "d") == w.d)
  }

  predicate Less(a: string, b: string) {
    b != [] && (a == [] || a[0] < b[0] || (a[0] == b[0] && Less(a[1..], b[1..])))
  }

  /** Later wins, and of one date the lowest id. */
  predicate Beats(a: Note, b: Note) {
    a.createdAt > b.createdAt || (a.createdAt == b.createdAt && Less(a.id, b.id))
  }

  ghost predicate IsNewest(newest: Option<Note>, notes: set<Note>, w: Wanted) {
    match newest
    case None => forall n :: n in notes ==> !Matches(n, w)
    case Some(best) => best in notes && Matches(best, w) && forall n :: n in notes && Matches(n, w) ==> !Beats(n, best)
  }

  lemma {:induction false} LessIsTotal(a: string, b: string)
    ensures Less(a, b) || Less(b, a) || a == b
    ensures !(Less(a, b) && Less(b, a))
  {
    if a != [] && b != [] && a[0] == b[0] {
      LessIsTotal(a[1..], b[1..]);
      if a[1..] == b[1..] {
        assert a == [a[0]] + a[1..] && b == [b[0]] + b[1..];
      }
    }
  }

  lemma {:induction false} LessIsTransitive(a: string, b: string, c: string)
    requires Less(a, b) && Less(b, c)
    ensures Less(a, c)
  {
    if a != [] && a[0] == b[0] == c[0] {
      LessIsTransitive(a[1..], b[1..], c[1..]);
    }
  }

  /** The order of ids: the first character that differs decides, and a beginning comes before what it begins. */
  ghost predicate Lower(a: string, b: string) {
    exists k: nat :: k <= |a| && k < |b| && a[..k] == b[..k] && (k == |a| || a[k] < b[k])
  }

  lemma {:induction false} LessIsLower(a: string, b: string)
    ensures Less(a, b) <==> Lower(a, b)
  {
    if Less(a, b) && a != [] && a[0] == b[0] {
      LessIsLower(a[1..], b[1..]);
      var k: nat :| k <= |a[1..]| && k < |b[1..]| && a[1..][..k] == b[1..][..k] && (k == |a[1..]| || a[1..][k] < b[1..][k]);
      assert a[..k + 1] == [a[0]] + a[1..][..k] && b[..k + 1] == [b[0]] + b[1..][..k];
    } else if Less(a, b) {
      assert a[..0] == b[..0];
    }
    if Lower(a, b) {
      var k: nat :| k <= |a| && k < |b| && a[..k] == b[..k] && (k == |a| || a[k] < b[k]);
      if k > 0 {
        assert a[0] == a[..k][0] == b[..k][0] == b[0];
        assert a[1..][..k - 1] == a[..k][1..] && b[1..][..k - 1] == b[..k][1..];
        assert Lower(a[1..], b[1..]);
        LessIsLower(a[1..], b[1..]);
      }
    }
  }

  lemma BeatsIsTransitive(a: Note, b: Note, c: Note)
    requires Beats(a, b) && Beats(b, c)
    ensures Beats(a, c)
  {
    if a.createdAt == b.createdAt == c.createdAt {
      LessIsTransitive(a.id, b.id, c.id);
    }
  }

  /** There is one last word. */
  lemma NewestIsUnique(a: Option<Note>, b: Option<Note>, notes: set<Note>, w: Wanted)
    requires UniqueIds(notes) && IsNewest(a, notes, w) && IsNewest(b, notes, w)
    ensures a == b
  {
    if a.Some? && b.Some? {
      LessIsTotal(a.value.id, b.value.id);
    }
  }

  lemma NewestWithOneMore(newest: Option<Note>, notes: set<Note>, w: Wanted, note: Note)
    requires IsNewest(newest, notes, w)
    ensures IsNewest(if Matches(note, w) && (newest.None? || Beats(note, newest.value)) then Some(note) else newest, notes + {note}, w)
  {
    LessIsTotal(note.id, note.id);
    if Matches(note, w) && newest.Some? && Beats(note, newest.value) {
      forall n | n in notes && Matches(n, w) ensures !Beats(n, note) {
        if Beats(n, note) {
          BeatsIsTransitive(n, note, newest.value);
        }
      }
    }
  }

  /** The scan of a bag: only genuine notes count, and checking the signature last changes nothing. */
  method NewestSigned(check: Check, events: seq<Item>, w: Wanted) returns (newest: Option<Note>)
    ensures IsNewest(newest, GenuineNotes(check, events), w)
  {
    newest := None;
    var i := 0;
    while i < |events|
      invariant 0 <= i <= |events|
      invariant IsNewest(newest, GenuineNotes(check, events[..i]), w)
    {
      var item := events[i];
      OneMoreItem(check, events, i);
      i := i + 1;
      if item.Malformed? || !Matches(item.note, w) {
        if IsGenuine(check, item) {
          NewestWithOneMore(newest, GenuineNotes(check, events[..i - 1]), w, item.note);
        }
        continue;
      }
      NewestWithOneMore(newest, GenuineNotes(check, events[..i - 1]), w, item.note);
      if newest.Some? && !Beats(item.note, newest.value) {
        continue;
      }
      if check(item.note, item.sig) {
        newest := Some(item.note);
      }
    }
    assert events[..i] == events;
  }

  lemma OneMoreItem(check: Check, events: seq<Item>, i: nat)
    requires i < |events|
    ensures GenuineNotes(check, events[..i + 1])
            == GenuineNotes(check, events[..i]) + (if IsGenuine(check, events[i]) then {events[i].note} else {})
  {
    assert events[..i + 1] == events[..i] + [events[i]];
  }

  lemma {:induction false} NewestExists(notes: set<Note>, w: Wanted) returns (newest: Option<Note>)
    ensures IsNewest(newest, notes, w)
    decreases |notes|
  {
    if notes == {} {
      newest := None;
    } else {
      var note :| note in notes;
      newest := NewestExists(notes - {note}, w);
      NewestWithOneMore(newest, notes - {note}, w, note);
      assert notes - {note} + {note} == notes;
      if Matches(note, w) && (newest.None? || Beats(note, newest.value)) {
        newest := Some(note);
      }
    }
  }

  ghost function Newest(notes: set<Note>, w: Wanted): (newest: Option<Note>)
    ensures IsNewest(newest, notes, w)
  {
    assert exists newest :: IsNewest(newest, notes, w) by {
      var found := NewestExists(notes, w);
    }
    var newest :| IsNewest(newest, notes, w);
    newest
  }

  /** The last word depends on the evidence only: order, repetition and junk do not matter. */
  lemma SameEvidence(check: Check, events: seq<Item>, others: seq<Item>)
    requires forall item :: IsGenuine(check, item) ==> (item in events <==> item in others)
    ensures GenuineNotes(check, events) == GenuineNotes(check, others)
  {
    forall n ensures n in GenuineNotes(check, events) <==> n in GenuineNotes(check, others) {
      if n in GenuineNotes(check, events) {
        var x :| x in events && IsGenuine(check, x) && x.note == n;
        assert x in others;
      }
      if n in GenuineNotes(check, others) {
        var x :| x in others && IsGenuine(check, x) && x.note == n;
        assert x in events;
      }
    }
  }

  // ---- Filters ----

  function Filter(events: seq<Item>, keep: Note -> bool): seq<Item> {
    if events == [] then []
    else (if events[0].Signed? && keep(events[0].note) then [events[0]] else []) + Filter(events[1..], keep)
  }

  lemma {:induction false} FilterMembers(events: seq<Item>, keep: Note -> bool)
    ensures forall item :: item in Filter(events, keep) <==> item in events && item.Signed? && keep(item.note)
  {
    if events != [] {
      FilterMembers(events[1..], keep);
      assert forall item :: item in events <==> item == events[0] || item in events[1..];
    }
  }

  lemma FilteredEvidence(check: Check, events: seq<Item>, keep: Note -> bool)
    ensures GenuineNotes(check, Filter(events, keep)) == set n | n in GenuineNotes(check, events) && keep(n)
  {
    FilterMembers(events, keep);
    forall n ensures n in GenuineNotes(check, Filter(events, keep)) <==> n in GenuineNotes(check, events) && keep(n) {
      if n in GenuineNotes(check, events) && keep(n) {
        var x :| x in events && IsGenuine(check, x) && x.note == n;
        assert x in Filter(events, keep);
      }
    }
  }

  // ---- Expiration ----

  datatype Expiration = NoExpiration | Active | Expired | Unreadable

  predicate IsDigits(s: string) {
    forall i :: 0 <= i < |s| ==> '0' <= s[i] <= '9'
  }

  function Decimal(s: string): nat
    requires IsDigits(s)
  {
    if s == [] then 0
    else 10 * Decimal(s[..|s| - 1]) + (s[|s| - 1] as int - '0' as int)
  }

  /** Two tags, no value or anything but one to twelve digits cannot be read, and never means "no expiration". */
  function ExpirationState(tags: seq<Tag>, now: int): Expiration {
    var named := TagsNamed(tags, "expiration");
    if named == [] then NoExpiration
    else
      var value := if |named[0]| > 1 then named[0][1] else "";
      if |named| > 1 || !(1 <= |value| <= 12 && IsDigits(value)) then Unreadable
      else if Decimal(value) <= now then Expired
      else Active
  }

  predicate IsLapsed(note: Note, now: int) {
    ExpirationState(note.tags, now) in {Expired, Unreadable}
  }
}
