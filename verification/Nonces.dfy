/** The durable single-use nonce set: marks in the order they were made, oldest first. */
module Nonces {
  datatype Mark = Mark(key: string, until: int)

  predicate Has(marks: seq<Mark>, key: string) {
    exists i :: 0 <= i < |marks| && marks[i].key == key
  }

  ghost predicate Distinct(marks: seq<Mark>) {
    forall i, j :: 0 <= i < j < |marks| ==> marks[i].key != marks[j].key
  }

  /** The marks as a table, which is all that `has` can see. */
  ghost function Table(marks: seq<Mark>): map<string, int> {
    if marks == [] then map[] else Table(marks[..|marks| - 1])[marks[|marks| - 1].key := marks[|marks| - 1].until]
  }

  function Live(marks: seq<Mark>, now: int): seq<Mark> {
    if marks == [] then []
    else Live(marks[..|marks| - 1], now) + (if marks[|marks| - 1].until <= now then [] else [marks[|marks| - 1]])
  }

  ghost function LiveTable(table: map<string, int>, now: int): map<string, int> {
    map k | k in table && table[k] > now :: table[k]
  }

  lemma {:induction false} TableKeys(marks: seq<Mark>)
    ensures forall k :: k in Table(marks) <==> Has(marks, k)
  {
    if marks != [] {
      var init := marks[..|marks| - 1];
      TableKeys(init);
      forall k ensures k in Table(marks) <==> Has(marks, k) {
        if Has(marks, k) && marks[|marks| - 1].key != k {
          var i :| 0 <= i < |marks| && marks[i].key == k;
          assert init[i].key == k;
        }
        if k in Table(init) {
          var i :| 0 <= i < |init| && init[i].key == k;
          assert marks[i].key == k;
        }
      }
    }
  }

  lemma {:induction false} LiveKeepsMarks(marks: seq<Mark>, now: int)
    ensures forall m :: m in Live(marks, now) ==> m in marks
  {
    if marks != [] {
      LiveKeepsMarks(marks[..|marks| - 1], now);
    }
  }

  lemma LastIsNew(marks: seq<Mark>, m: Mark)
    requires marks != [] && Distinct(marks) && m in marks[..|marks| - 1]
    ensures m.key != marks[|marks| - 1].key
  {
  }

  lemma {:induction false} LiveIsDistinct(marks: seq<Mark>, now: int)
    requires Distinct(marks)
    ensures Distinct(Live(marks, now))
  {
    if marks != [] {
      var init := marks[..|marks| - 1];
      var live := Live(init, now);
      LiveIsDistinct(init, now);
      LiveKeepsMarks(init, now);
      forall i | 0 <= i < |live| ensures live[i].key != marks[|marks| - 1].key {
        LastIsNew(marks, live[i]);
      }
    }
  }

  /** Dropping lapsed marks drops exactly the lapsed keys. */
  lemma {:induction false} LiveIsLive(marks: seq<Mark>, now: int)
    requires Distinct(marks)
    ensures Table(Live(marks, now)) == LiveTable(Table(marks), now)
  {
    if marks != [] {
      var init := marks[..|marks| - 1];
      var last := marks[|marks| - 1];
      LiveIsLive(init, now);
      TableKeys(init);
      assert !Has(init, last.key) by {
        if Has(init, last.key) {
          var i :| 0 <= i < |init| && init[i].key == last.key;
          LastIsNew(marks, init[i]);
        }
      }
      var live := Live(init, now);
      assert (live + [last])[..|live|] == live && live + [] == live;
      assert Table(live + [last]) == Table(live)[last.key := last.until];
      LiveTableExtended(Table(init), last, now);
    }
  }

  lemma LiveTableExtended(table: map<string, int>, m: Mark, now: int)
    requires m.key !in table
    ensures LiveTable(table[m.key := m.until], now)
            == if m.until > now then LiveTable(table, now)[m.key := m.until] else LiveTable(table, now)
  {
  }

  /** How many of the oldest marks a store of this size gives up to take one more. */
  function Evicted(size: nat, maxEntries: nat): (n: nat)
    ensures n == size || (n < size && size - n < maxEntries)
    ensures n > 0 ==> size - n + 1 >= maxEntries
  {
    if size < maxEntries then 0 else if maxEntries == 0 then size else size - maxEntries + 1
  }

  class UsedNonceStore {
    const maxEntries: nat
    var marks: seq<Mark>
    /** What the last published flush wrote. */
    var file: seq<Mark>
    /** Every flush that was tried, and whether it was published. */
    ghost var writes: seq<bool>

    ghost predicate Valid()
      reads this
    {
      Distinct(marks) && Distinct(file)
    }

    constructor (file: seq<Mark>, maxEntries: nat)
      requires Distinct(file)
      ensures Valid() && marks == file && this.file == file && this.maxEntries == maxEntries
    {
      this.file := file;
      this.marks := file;
      this.maxEntries := maxEntries;
      writes := [];
    }

    predicate HasKey(key: string)
      reads this
    {
      Has(marks, key)
    }

    /** Publishing may fail; the marks in memory stand either way. */
    method FlushFile() returns (published: bool)
      modifies this`file, this`writes
      ensures file == (if published then marks else old(file)) && writes == old(writes) + [published]
    {
      published := *;
      writes := writes + [published];
      if published {
        file := marks;
      }
    }

    /** Burn a nonce, evicting the oldest marks while the store is full. */
    method MarkUsed(key: string, until: int, persist: bool) returns (published: bool)
      requires Valid()
      modifies this`marks, this`file, this`writes
      ensures Valid() && Has(marks, key)
      ensures Table(marks) == Table(old(marks)[Evicted(|old(marks)|, maxEntries)..])[key := until]
      ensures old(|marks|) < maxEntries ==> Table(marks) == Table(old(marks))[key := until]
      ensures |marks| <= |old(marks)| + 1 && |marks| <= if maxEntries == 0 then 1 else maxEntries
      ensures forall k :: k != key ==> (Has(marks, k) <==> Has(old(marks)[Evicted(|old(marks)|, maxEntries)..], k))
      ensures file == if published then marks else old(file)
      ensures if persist then writes == old(writes) + [published] else !published && writes == old(writes)
    {
      EvictOldest();
      assert old(|marks|) < maxEntries ==> marks == old(marks);
      Set(key, until);
      published := false;
      if persist {
        published := FlushFile();
      }
    }

    method EvictOldest()
      requires Valid()
      modifies this`marks
      ensures Valid() && marks == old(marks)[Evicted(|old(marks)|, maxEntries)..]
    {
      while |marks| >= maxEntries && marks != []
        invariant Distinct(marks)
        invariant |marks| >= |old(marks)| - Evicted(|old(marks)|, maxEntries)
        invariant |marks| <= |old(marks)| && marks == old(marks)[|old(marks)| - |marks|..]
        decreases |marks|
      {
        marks := marks[1..];
      }
    }

    /** An existing mark is updated where it stands; a new one goes last. */
    method Set(key: string, until: int)
      requires Valid()
      modifies this`marks
      ensures Valid() && Table(marks) == Table(old(marks))[key := until] && |marks| <= |old(marks)| + 1
      ensures forall k :: Has(marks, k) <==> k == key || Has(old(marks), k)
    {
      ghost var before := marks;
      var i := 0;
      while i < |marks| && marks[i].key != key
        invariant 0 <= i <= |marks| && marks == before
        invariant forall j :: 0 <= j < i ==> marks[j].key != key
      {
        i := i + 1;
      }
      if i < |marks| {
        marks := marks[i := Mark(key, until)];
        TableUpdated(before, i, until);
      } else {
        marks := marks + [Mark(key, until)];
        assert marks[..|marks| - 1] == before;
      }
      TableKeys(before);
      TableKeys(marks);
    }

    /** Drop the marks whose retention has ended. */
    method Prune(now: int) returns (pruned: nat, published: bool)
      requires Valid()
      modifies this`marks, this`file, this`writes
      ensures Valid()
      ensures marks == Live(old(marks), now) && Table(marks) == LiveTable(Table(old(marks)), now)
      ensures pruned == old(|marks|) - |marks|
      ensures file == if published then marks else old(file)
      ensures if pruned > 0 then writes == old(writes) + [published] else !published && writes == old(writes)
    {
      ghost var before := marks;
      var seen, kept: seq<Mark> := 0, [];
      pruned := 0;
      while seen < |marks|
        invariant 0 <= seen <= |marks| && marks == before && file == old(file) && writes == old(writes)
        invariant kept == Live(marks[..seen], now) && pruned == seen - |kept|
      {
        assert marks[..seen + 1][..seen] == marks[..seen];
        if marks[seen].until <= now {
          pruned := pruned + 1;
        } else {
          kept := kept + [marks[seen]];
        }
        seen := seen + 1;
      }
      assert marks[..seen] == marks;
      LiveIsLive(before, now);
      LiveIsDistinct(before, now);
      marks := kept;
      published := false;
      if pruned > 0 {
        published := FlushFile();
      }
    }
  }

  lemma {:induction false} TableUpdated(marks: seq<Mark>, i: nat, until: int)
    requires i < |marks| && Distinct(marks)
    ensures Table(marks[i := Mark(marks[i].key, until)]) == Table(marks)[marks[i].key := until]
    ensures Distinct(marks[i := Mark(marks[i].key, until)])
  {
    var next := marks[i := Mark(marks[i].key, until)];
    var init := marks[..|marks| - 1];
    if i == |marks| - 1 {
      assert next[..|marks| - 1] == init;
    } else {
      assert next[..|marks| - 1] == init[i := Mark(init[i].key, until)];
      TableUpdated(init, i, until);
      assert marks[|marks| - 1].key != marks[i].key;
    }
  }
}
