/** Money reserved and not yet released: the session spend cap, and the delegated ceilings in flight. */
module Reservations {
  const MAX_SAFE_INTEGER := 9007199254740991

  /** An amount held for a key: an asset, or an owner. */
  datatype Reservation = Reservation(key: string, amount: nat)

  /** The reservations not yet released, each under a name of its own. */
  type Book = map<string, Reservation>

  function Part(r: Reservation, key: string): nat {
    if r.key == key then r.amount else 0
  }

  ghost function Sum(book: Book, key: string): nat {
    if book == map[] then 0
    else
      var id :| id in book;
      Part(book[id], key) + Sum(book - {id}, key)
  }

  lemma {:induction false} SumWithout(book: Book, id: string, key: string)
    requires id in book
    ensures Sum(book, key) == Part(book[id], key) + Sum(book - {id}, key)
    decreases |book|
  {
    var first :| first in book && Sum(book, key) == Part(book[first], key) + Sum(book - {first}, key);
    if first != id {
      assert (book - {first}).Keys == book.Keys - {first} && (book - {id}).Keys == book.Keys - {id};
      SumWithout(book - {first}, id, key);
      SumWithout(book - {id}, first, key);
      assert book - {first} - {id} == book - {id} - {first};
    }
  }

  lemma SumWith(book: Book, id: string, r: Reservation, key: string)
    requires id !in book
    ensures Sum(book[id := r], key) == Sum(book, key) + Part(r, key)
  {
    SumWithout(book[id := r], id, key);
    assert book[id := r] - {id} == book;
  }

  function Counted(counter: map<string, nat>, key: string): nat {
    if key in counter then counter[key] else 0
  }

  /** The counter is, for every key, the sum of what is reserved. */
  ghost predicate Balanced(counter: map<string, nat>, book: Book) {
    forall key :: Counted(counter, key) == Sum(book, key)
  }

  lemma BalancedWith(counter: map<string, nat>, book: Book, id: string, r: Reservation)
    requires Balanced(counter, book) && id !in book
    ensures Balanced(counter[r.key := Counted(counter, r.key) + r.amount], book[id := r])
  {
    var more := counter[r.key := Counted(counter, r.key) + r.amount];
    forall key ensures Counted(more, key) == Sum(book[id := r], key) {
      SumWith(book, id, r, key);
    }
  }

  /** Giving back what is reserved never meets the floor at zero. */
  lemma BalancedWithout(counter: map<string, nat>, book: Book, id: string)
    requires Balanced(counter, book) && id in book
    ensures book[id].amount <= Counted(counter, book[id].key)
    ensures Balanced(counter[book[id].key := Counted(counter, book[id].key) - book[id].amount], book - {id})
    ensures book[id].amount == Counted(counter, book[id].key) ==> Balanced(counter - {book[id].key}, book - {id})
  {
    var r := book[id];
    SumWithout(book, id, r.key);
    var less := counter[r.key := Counted(counter, r.key) - r.amount];
    forall key ensures Counted(less, key) == Sum(book - {id}, key) {
      SumWithout(book, id, key);
    }
    forall key ensures Counted(counter - {r.key}, key) == if key == r.key then 0 else Counted(less, key) {
    }
  }

  // ---- The session spend cap ----

  class SpendCounter {
    const limits: map<string, nat>
    var spent: map<string, nat>
    /** What was reserved and not given back, committed payments included. */
    ghost var book: Book

    ghost predicate Valid()
      reads this
    {
      Balanced(spent, book) && forall asset :: asset in limits ==> Counted(spent, asset) <= limits[asset]
    }

    constructor (limits: map<string, nat>)
      ensures Valid() && this.limits == limits && book == map[]
    {
      this.limits := limits;
      spent := map[];
      book := map[];
    }

    /** Takes the amount exactly when it fits under the cap; otherwise nothing changes. */
    method Reserve(asset: string, amount: nat, ghost id: string) returns (ok: bool)
      requires Valid() && id !in book
      modifies this
      ensures Valid()
      ensures ok <==> asset !in limits || Sum(old(book), asset) + amount <= limits[asset]
      ensures if ok then book == old(book)[id := Reservation(asset, amount)] else book == old(book) && spent == old(spent)
    {
      if asset in limits && Counted(spent, asset) + amount > limits[asset] {
        return false;
      }
      BalancedWith(spent, book, id, Reservation(asset, amount));
      book := book[id := Reservation(asset, amount)];
      spent := spent[asset := Counted(spent, asset) + amount];
      return true;
    }

    /** Giving back what was reserved: the floor at zero is never reached. */
    method Release(asset: string, amount: nat, ghost id: string)
      requires Valid() && id in book && book[id] == Reservation(asset, amount)
      modifies this
      ensures Valid() && book == old(book) - {id}
      ensures Counted(spent, asset) == Counted(old(spent), asset) - amount
    {
      BalancedWithout(spent, book, id);
      book := book - {id};
      var prior := Counted(spent, asset);
      spent := spent[asset := if prior > amount then prior - amount else 0];
    }
  }

  // ---- Delegated ceilings in flight ----

  datatype Admission = Rejected | Threw | Working

  /** What leaked is exactly the prices that passed the pre-check and the ledger cannot hold. */
  ghost predicate LeaksAre(book: Book, leaked: set<string>, passed: set<Reservation>) {
    && (forall job :: job in leaked ==> job in book && book[job] in passed && book[job].amount > MAX_SAFE_INTEGER)
    && (forall r :: r in passed && r.amount > MAX_SAFE_INTEGER ==> exists job :: job in leaked && book[job] == r)
  }

  class DelegationReservations {
    var inFlight: map<string, nat>
    /** The ceiling of every delegated job that reserved and did not release, by job. */
    ghost var book: Book
    /** The jobs among them that nobody is left to release. */
    ghost var leaked: set<string>
    /** The owner and price of every job that ever passed the pre-check. */
    ghost var passed: set<Reservation>

    ghost predicate Valid()
      reads this
    {
      Balanced(inFlight, book) && leaked <= book.Keys && LeaksAre(book, leaked, passed)
    }

    constructor ()
      ensures Valid() && book == map[] && leaked == {} && passed == {}
    {
      inFlight, book, leaked, passed := map[], map[], {}, {};
    }

    /**
     The end of the pre-check and the conversion after it. A price the ledger cannot hold throws
     after the reservation was made and before the block that releases it is entered.
     */
    method Begin(owner: string, price: nat, remainingCap: nat, balance: nat, ghost job: string) returns (admission: Admission)
      requires Valid() && job !in book
      modifies this
      ensures Valid()
      ensures admission.Rejected? <==> remainingCap - Sum(old(book), owner) < price || balance < price
      ensures admission.Rejected? ==> inFlight == old(inFlight) && book == old(book) && leaked == old(leaked)
      ensures passed == if admission.Rejected? then old(passed) else old(passed) + {Reservation(owner, price)}
      ensures !admission.Rejected? ==> book == old(book)[job := Reservation(owner, price)] && Sum(book, owner) <= remainingCap
      ensures admission.Working? ==> price <= MAX_SAFE_INTEGER && leaked == old(leaked)
      ensures admission.Threw? ==> price > MAX_SAFE_INTEGER && leaked == old(leaked) + {job}
    {
      if remainingCap - Counted(inFlight, owner) < price || balance < price {
        return Rejected;
      }
      BalancedWith(inFlight, book, job, Reservation(owner, price));
      SumWith(book, job, Reservation(owner, price), owner);
      book := book[job := Reservation(owner, price)];
      passed := passed + {Reservation(owner, price)};
      inFlight := inFlight[owner := Counted(inFlight, owner) + price];
      if price > MAX_SAFE_INTEGER {
        leaked := leaked + {job};
        assert book[job] == Reservation(owner, price);
        return Threw;
      }
      return Working;
    }

    /** Every way out of work and pull releases; the floor at zero is never reached. */
    method End(owner: string, price: nat, ghost job: string)
      requires Valid() && job in book && job !in leaked && book[job] == Reservation(owner, price)
      modifies this
      ensures Valid() && book == old(book) - {job} && leaked == old(leaked) && passed == old(passed)
      ensures Counted(inFlight, owner) == Counted(old(inFlight), owner) - price
    {
      BalancedWithout(inFlight, book, job);
      book := book - {job};
      var current := Counted(inFlight, owner);
      var next := if current > price then current - price else 0;
      if next == 0 {
        inFlight := inFlight - {owner};
      } else {
        inFlight := inFlight[owner := next];
      }
    }
  }

  function Only(book: Book, ids: set<string>): Book {
    map id | id in book && id in ids :: book[id]
  }

  lemma {:induction false} SumApart(book: Book, ids: set<string>, key: string)
    requires ids <= book.Keys
    ensures Sum(book, key) == Sum(Only(book, ids), key) + Sum(book - ids, key)
    decreases |ids|
  {
    if ids == {} {
      assert Only(book, ids) == map[] && book - ids == book;
    } else {
      var id :| id in ids;
      SumWithout(book, id, key);
      SumWithout(Only(book, ids), id, key);
      SumApart(book - {id}, ids - {id}, key);
      assert Only(book, ids) - {id} == Only(book - {id}, ids - {id});
      assert book - {id} - (ids - {id}) == book - ids;
    }
  }

  /**
   The figure kept for an owner is the sum of the ceilings of its jobs at work exactly when every
   price of that owner that ever passed the pre-check is one the ledger can hold.
   */
  lemma InFlightIsAtWorkIff(counter: map<string, nat>, book: Book, leaked: set<string>, passed: set<Reservation>, owner: string)
    requires Balanced(counter, book) && leaked <= book.Keys && LeaksAre(book, leaked, passed)
    ensures Counted(counter, owner) == Sum(book - leaked, owner)
            <==> forall r :: r in passed && r.key == owner ==> r.amount <= MAX_SAFE_INTEGER
  {
    SumApart(book, leaked, owner);
    NothingLeakedIff(Only(book, leaked), owner);
    assert forall job :: job in leaked ==> Only(book, leaked)[job] == book[job];
  }

  lemma {:induction false} NothingLeakedIff(book: Book, owner: string)
    requires forall job :: job in book ==> book[job].amount > 0
    ensures Sum(book, owner) == 0 <==> forall job :: job in book ==> book[job].key != owner
    decreases |book|
  {
    if book != map[] {
      var id :| id in book;
      SumWithout(book, id, owner);
      assert (book - {id}).Keys == book.Keys - {id};
      NothingLeakedIff(book - {id}, owner);
      assert forall job :: job in book ==> job == id || (job in book - {id} && (book - {id})[job] == book[job]);
    }
  }
}
