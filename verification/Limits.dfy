/** The sliding-window call limiter and the single-use preview nonces. */
module Limits {
  import opened Prelude

  // ---- Sliding window ----

  ghost predicate Ascending(times: seq<int>) {
    forall i, j :: 0 <= i <= j < |times| ==> times[i] <= times[j]
  }

  /** How many of these times lie at or after `from`. */
  function CountSince(times: seq<int>, from: int): nat {
    if times == [] then 0
    else CountSince(times[..|times| - 1], from) + (if times[|times| - 1] >= from then 1 else 0)
  }

  /** No closed window of this length holds more than `maxCalls` of the times. */
  ghost predicate WindowsHold(times: seq<int>, maxCalls: nat, window: int) {
    forall i, j :: 0 <= i <= j < |times| && times[j] - times[i] <= window ==> j - i + 1 <= maxCalls
  }

  lemma {:induction false} CountOfSuffix(times: seq<int>, start: nat, from: int)
    requires start <= |times|
    requires forall i :: 0 <= i < start ==> times[i] < from
    requires forall i :: start <= i < |times| ==> times[i] >= from
    ensures CountSince(times, from) == |times| - start
  {
    if times != [] {
      var init := times[..|times| - 1];
      CountOfSuffix(init, if start == |times| then start - 1 else start, from);
    }
  }

  lemma OneMoreCall(times: seq<int>, now: int, maxCalls: nat, window: int)
    requires Ascending(times) && WindowsHold(times, maxCalls, window) && window >= 0
    requires times != [] ==> times[|times| - 1] <= now
    requires CountSince(times, now - window) < maxCalls
    ensures Ascending(times + [now]) && WindowsHold(times + [now], maxCalls, window)
  {
    var start := FirstAt(times, now - window);
    CountOfSuffix(times, start, now - window);
    var more := times + [now];
    forall i, j | 0 <= i <= j < |more| && more[j] - more[i] <= window ensures j - i + 1 <= maxCalls {
      if j == |times| {
        assert i < |times| ==> times[i] >= now - window;
        assert i >= start;
      }
    }
  }

  lemma {:induction false} FirstAt(times: seq<int>, from: int) returns (start: nat)
    requires Ascending(times)
    ensures start <= |times|
    ensures forall i :: 0 <= i < start ==> times[i] < from
    ensures forall i :: start <= i < |times| ==> times[i] >= from
  {
    start := 0;
    while start < |times| && times[start] < from
      invariant start <= |times|
      invariant forall i :: 0 <= i < start ==> times[i] < from
    {
      start := start + 1;
    }
  }

  /** The kept times are the last of all, and what was dropped is older than `from`. */
  ghost predicate KeptSince(times: seq<int>, kept: seq<int>, from: int) {
    && |kept| <= |times| && kept == times[|times| - |kept|..]
    && forall i :: 0 <= i < |times| - |kept| ==> times[i] < from
  }

  lemma DropsFirst(times: seq<int>, kept: seq<int>, from: int)
    requires KeptSince(times, kept, from) && kept != [] && kept[0] < from
    ensures KeptSince(times, kept[1..], from)
  {
  }

  lemma AddsLast(times: seq<int>, kept: seq<int>, from: int, time: int)
    requires KeptSince(times, kept, from)
    ensures KeptSince(times + [time], kept + [time], from)
  {
  }

  lemma KeptAreCounted(times: seq<int>, kept: seq<int>, from: int)
    requires Ascending(times) && KeptSince(times, kept, from) && (kept == [] || kept[0] >= from)
    ensures CountSince(times, from) == |kept|
  {
    var dropped := |times| - |kept|;
    assert kept != [] ==> kept[0] == times[dropped];
    CountOfSuffix(times, dropped, from);
  }

  /** What a limiter keeps of all the calls it admitted, as of a time. */
  ghost predicate Sound(times: seq<int>, kept: seq<int>, now: int, maxCalls: nat, window: nat) {
    && Ascending(times) && (times != [] ==> times[|times| - 1] <= now)
    && KeptSince(times, kept, now - window)
    && WindowsHold(times, maxCalls, window)
  }

  /** Once the old times are dropped the rest are those in the closed window, and one more fits below the maximum. */
  lemma StillSound(times: seq<int>, kept: seq<int>, before: int, rest: seq<int>, now: int, maxCalls: nat, window: nat)
    requires Sound(times, kept, before, maxCalls, window) && before <= now
    requires KeptSince(times, rest, now - window) && |rest| == CountSince(times, now - window)
    ensures Sound(times, rest, now, maxCalls, window)
    ensures |rest| < maxCalls ==> Sound(times + [now], rest + [now], now, maxCalls, window)
  {
    if |rest| < maxCalls {
      OneMoreCall(times, now, maxCalls, window);
      AddsLast(times, rest, now - window, now);
    }
  }

  /** Drops from the front what is older than the window. */
  method DropOlder(ghost times: seq<int>, kept: seq<int>, ghost before: int, now: int, ghost maxCalls: nat, window: nat)
    returns (rest: seq<int>)
    requires Sound(times, kept, before, maxCalls, window) && before <= now
    ensures |rest| == CountSince(times, now - window) && Sound(times, rest, now, maxCalls, window)
    ensures |rest| < maxCalls ==> Sound(times + [now], rest + [now], now, maxCalls, window)
  {
    rest := kept;
    while |rest| > 0 && rest[0] < now - window
      invariant KeptSince(times, rest, now - window)
      decreases |rest|
    {
      DropsFirst(times, rest, now - window);
      rest := rest[1..];
    }
    KeptAreCounted(times, rest, now - window);
    StillSound(times, kept, before, rest, now, maxCalls, window);
  }

  class RateLimiter {
    const maxCalls: nat
    const windowMs: nat
    var timestamps: seq<int>
    /** Every call ever admitted, in order. */
    ghost var admitted: seq<int>

    ghost predicate Valid(now: int)
      reads this
    {
      Sound(admitted, timestamps, now, maxCalls, windowMs)
    }

    constructor (maxCalls: nat, windowSecs: nat)
      ensures forall now :: Valid(now)
      ensures admitted == [] && this.maxCalls == maxCalls && windowMs == windowSecs * 1000
    {
      this.maxCalls := maxCalls;
      this.windowMs := windowSecs * 1000;
      timestamps := [];
      admitted := [];
    }

    /** Admits a call exactly when fewer than `maxCalls` were admitted in the closed window that ends now. */
    method Check(ghost before: int, now: int) returns (ok: bool)
      requires Valid(before) && before <= now
      modifies this
      ensures Valid(now)
      ensures ok <==> CountSince(old(admitted), now - windowMs) < maxCalls
      ensures admitted == if ok then old(admitted) + [now] else old(admitted)
    {
      timestamps := DropOlder(admitted, timestamps, before, now, maxCalls, windowMs);
      if |timestamps| >= maxCalls {
        return false;
      }
      timestamps := timestamps + [now];
      admitted := admitted + [now];
      return true;
    }
  }

  // ---- Preview nonces ----

  const NONCE_TTL_MS := 60000
  const MAX_PENDING_NONCES := 10

  datatype CallNonce = CallNonce(id: string, agentName: string, jobId: Option<string>, createdAt: int)

  predicate SameJob(a: CallNonce, b: CallNonce) {
    a.jobId.Some? && a.agentName == b.agentName && a.jobId == b.jobId
  }

  predicate Stale(nonce: CallNonce, now: int) {
    now - nonce.createdAt > NONCE_TTL_MS
  }

  function Without(pending: map<string, CallNonce>, drop: CallNonce -> bool): map<string, CallNonce> {
    map id | id in pending && !drop(pending[id]) :: pending[id]
  }

  /** A job of an agent has at most one live preview, and there are never more than the maximum. */
  class CallNonces {
    var pending: map<string, CallNonce>

    ghost predicate Valid()
      reads this
    {
      && (forall id :: id in pending ==> pending[id].id == id)
      && (forall a, b :: a in pending && b in pending && SameJob(pending[a], pending[b]) ==> a == b)
      && |pending| <= MAX_PENDING_NONCES
    }

    constructor ()
      ensures Valid() && pending == map[]
    {
      pending := map[];
    }

    method Drop(drop: CallNonce -> bool)
      modifies this
      ensures pending == Without(old(pending), drop) && |pending| <= |old(pending)|
    {
      var rest := pending.Keys;
      while rest != {}
        invariant rest <= pending.Keys <= old(pending).Keys && |pending| <= |old(pending)|
        invariant forall id :: id in pending ==> pending[id] == old(pending)[id] && (id in rest || !drop(pending[id]))
        invariant forall id :: id in old(pending) && (id in rest || !drop(old(pending)[id])) ==> id in pending
        decreases |rest|
      {
        var id :| id in rest;
        rest := rest - {id};
        if drop(pending[id]) {
          ghost var was := pending;
          pending := pending - {id};
          assert pending.Keys == was.Keys - {id};
        }
      }
    }

    /** An earlier preview of the same job goes first; without room, after the stale ones went, the new one is refused. */
    method Issue(nonce: CallNonce, now: int) returns (issued: bool)
      requires Valid()
      modifies this
      ensures Valid()
      ensures var others := Without(old(pending), p => nonce.jobId.Some? && SameJob(p, nonce));
              var young := Without(others, p => Stale(p, now));
              if |others| < MAX_PENDING_NONCES then issued && pending == others[nonce.id := nonce]
              else if |young| < MAX_PENDING_NONCES then issued && pending == young[nonce.id := nonce]
              else !issued && pending == young
    {
      if nonce.jobId.Some? {
        Drop(p => nonce.jobId.Some? && SameJob(p, nonce));
      } else {
        assert pending == Without(pending, p => nonce.jobId.Some? && SameJob(p, nonce));
      }
      if |pending| >= MAX_PENDING_NONCES {
        Drop(p => Stale(p, now));
        if |pending| >= MAX_PENDING_NONCES {
          return false;
        }
      }
      AddsOne(pending, nonce);
      pending := pending[nonce.id := nonce];
      return true;
    }

    /** Single use: whatever is returned is no longer there to be returned again. */
    method Consume(id: string, now: int) returns (nonce: Option<CallNonce>)
      requires Valid()
      modifies this
      ensures Valid() && pending == old(pending) - {id}
      ensures nonce == if id in old(pending) && !Stale(old(pending)[id], now) then Some(old(pending)[id]) else None
    {
      if id !in pending {
        assert pending - {id} == pending;
        return None;
      }
      var found := pending[id];
      ghost var was := pending;
      pending := pending - {id};
      assert pending.Keys == was.Keys - {id};
      nonce := if now - found.createdAt > NONCE_TTL_MS then None else Some(found);
    }
  }

  lemma AddsOne(pending: map<string, CallNonce>, nonce: CallNonce)
    ensures |pending[nonce.id := nonce]| <= |pending| + 1
  {
    assert pending[nonce.id := nonce].Keys == pending.Keys + {nonce.id};
  }
}
