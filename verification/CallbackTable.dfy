/**
 The owner's bounded, single-use transaction table as an object, and its agreement with the table
 slots of the admission protocol.
 */
module CallbackTable {
  import opened Common
  import opened EnterpriseSession
  import opened AdmissionModel

  datatype InsertResult = Inserted | DuplicateState | CapacityExhausted

  /** The transactions whose copied deadline is still ahead. */
  function Unexpired(t: map<OAuthState, Entry>, now: Time): map<OAuthState, Entry> {
    map state | state in t && t[state].deadline > now :: t[state]
  }

  class CallbackRegistry {
    const capacity: nat
    var transactions: map<OAuthState, Entry>

    ghost predicate Valid()
      reads this
    {
      |transactions| <= capacity
    }

    constructor (capacity: nat)
      ensures Valid() && this.capacity == capacity && transactions == map[]
    {
      this.capacity, transactions := capacity, map[];
    }

    method Sweep(now: Time)
      requires Valid()
      modifies this`transactions
      ensures Valid() && transactions == Unexpired(old(transactions), now)
    {
      UnexpiredIsSmaller(transactions, now);
      transactions := map state | state in transactions && transactions[state].deadline > now :: transactions[state];
    }

    method Insert(state: OAuthState, entry: Entry, now: Time) returns (r: InsertResult)
      requires Valid()
      modifies this`transactions
      ensures Valid()
      ensures var live := Unexpired(old(transactions), now);
              && (r == DuplicateState <==> state in live)
              && (r == CapacityExhausted <==> state !in live && |live| >= capacity)
              && transactions == if r == Inserted then live[state := entry] else live
    {
      Sweep(now);
      if state in transactions {
        return DuplicateState;
      }
      if |transactions| >= capacity {
        return CapacityExhausted;
      }
      transactions := transactions[state := entry];
      return Inserted;
    }

    method Take(state: OAuthState, now: Time) returns (entry: Option<Entry>)
      requires Valid()
      modifies this`transactions
      ensures Valid()
      ensures var live := Unexpired(old(transactions), now);
              entry == (if state in live then Some(live[state]) else None) && transactions == live - {state}
    {
      Sweep(now);
      entry := Remove(state);
    }

    method Remove(state: OAuthState) returns (entry: Option<Entry>)
      requires Valid()
      modifies this`transactions
      ensures Valid()
      ensures entry == if state in old(transactions) then Some(old(transactions)[state]) else None
      ensures transactions == old(transactions) - {state}
    {
      entry := if state in transactions then Some(transactions[state]) else None;
      WithoutIsSmaller(transactions, state);
      transactions := transactions - {state};
    }
  }

  lemma SubmapIsSmaller(a: map<OAuthState, Entry>, b: map<OAuthState, Entry>)
    requires a.Keys <= b.Keys
    ensures |a| <= |b|
  {
    assert b.Keys == a.Keys + (b.Keys - a.Keys);
  }

  lemma UnexpiredIsSmaller(t: map<OAuthState, Entry>, now: Time)
    ensures |Unexpired(t, now)| <= |t|
  {
    SubmapIsSmaller(Unexpired(t, now), t);
  }

  lemma WithoutIsSmaller(t: map<OAuthState, Entry>, state: OAuthState)
    ensures |t - {state}| <= |t|
  {
    SubmapIsSmaller(t - {state}, t);
  }

  // ---- the table inside the protocol ----

  /** The protocol's table slots, read as the owner's map. */
  ghost function TableOf(places: map<Place, Entry>): map<OAuthState, Entry> {
    map p | p in places && p.InTable? :: p.state := places[p]
  }

  lemma SweepAgrees(places: map<Place, Entry>, now: Time)
    ensures TableOf(Swept(places, now)) == Unexpired(TableOf(places), now)
  {
    var a, b := TableOf(Swept(places, now)), Unexpired(TableOf(places), now);
    forall state | state in a ensures state in b && a[state] == b[state] {
      assert InTable(state) in places;
    }
    forall state | state in b ensures state in a {
      assert InTable(state) in Swept(places, now);
    }
  }

  /** Replays of a state find the table as `Take` leaves it: without the slot. */
  lemma TakeAgrees(s: State, c: CallbackId)
    requires Enabled(s, OwnerTake(c))
    ensures var live := Unexpired(TableOf(s.places), s.callbacks[c].sentAt);
            TableOf(Take(s, c).places) == live - {s.callbacks[c].state}
  {
    var x := s.callbacks[c];
    var swept, after := Swept(s.places, x.sentAt), Take(s, c).places;
    SweepAgrees(s.places, x.sentAt);
    assert forall state :: InTable(state) in after <==> InTable(state) in swept && state != x.state;
    assert forall state :: InTable(state) in after ==> after[InTable(state)] == swept[InTable(state)];
    SameSlots(after, swept, x.state);
  }

  lemma SameSlots(after: map<Place, Entry>, before: map<Place, Entry>, gone: OAuthState)
    requires forall state :: InTable(state) in after <==> InTable(state) in before && state != gone
    requires forall state :: InTable(state) in after ==> after[InTable(state)] == before[InTable(state)]
    ensures TableOf(after) == TableOf(before) - {gone}
  {
    var a, b := TableOf(after), TableOf(before) - {gone};
    forall state | state in a ensures state in b && a[state] == b[state] {
      assert InTable(state) in after;
    }
    forall state | state in b ensures state in a {
      assert InTable(state) in before;
    }
  }

  lemma {:induction false} SlotStates(slots: set<Place>, states: set<OAuthState>)
    requires forall p :: p in slots ==> p.InTable? && p.state in states
    requires forall state :: state in states ==> InTable(state) in slots
    ensures |slots| == |states|
  {
    if slots == {} {
      assert states == {};
    } else {
      var p :| p in slots;
      SlotStates(slots - {p}, states - {p.state});
    }
  }

  lemma SlotCount(places: map<Place, Entry>)
    ensures |TableSlots(places)| == |TableOf(places)|
  {
    SlotStates(TableSlots(places), TableOf(places).Keys);
  }

  /** The owner's Register step is `Insert` on the protocol's table. */
  lemma RegisterAgrees(s: State, e: ExchangeId)
    requires Enabled(s, OwnerRegister(e))
    ensures var x := s.exchanges[e];
            var live, state := Unexpired(TableOf(s.places), x.sentAt), x.state.value;
            var refused := state in live || |live| >= s.capacity;
            && (Register(s, e).exchanges[e].pc == if refused then Returned(WroteFailed) else Announcing)
            && TableOf(Register(s, e).places) == if refused then live else live[state := s.places[InRegister(e)]]
  {
    var x := s.exchanges[e];
    var swept, after := Swept(s.places, x.sentAt), Register(s, e).places;
    SweepAgrees(s.places, x.sentAt);
    SlotCount(swept);
    assert x.state.value in TableOf(swept) <==> InTable(x.state.value) in swept;
    var live := TableOf(swept);
    var expected := if x.state.value in live || |live| >= s.capacity then live
                    else live[x.state.value := s.places[InRegister(e)]];
    SlotsAreTable(after, expected);
  }

  lemma SlotsAreTable(places: map<Place, Entry>, t: map<OAuthState, Entry>)
    requires forall state: OAuthState :: InTable(state) in places <==> state in t
    requires forall state: OAuthState :: state in t ==> places[InTable(state)] == t[state]
    ensures TableOf(places) == t
  {
    var a := TableOf(places);
    forall state | state in t ensures state in a {
      assert InTable(state) in places;
    }
  }

  /** The owner's Remove step is `Remove` on the protocol's table. */
  lemma RemoveAgrees(s: State, e: ExchangeId)
    requires Enabled(s, OwnerRemove(e))
    ensures TableOf(Remove(s, e).places) == TableOf(s.places) - {s.exchanges[e].state.value}
  {
    SameSlots(Remove(s, e).places, s.places, s.exchanges[e].state.value);
  }
}
