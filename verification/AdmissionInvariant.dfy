/** What every reachable state of the admission protocol satisfies. */
module AdmissionInvariant {
  import opened Common
  import opened EnterpriseSession
  import opened AdmissionModel

  /** The session waits for its callback and holds the single-use state of its exchange. */
  predicate Pending(entry: Entry, x: Exchange) {
    && entry.session.phase.Authenticating?
    && x.state.Some? && entry.session.oauthState == x.state
    && x.provider.Some? && entry.session.provider == x.provider
    && entry.result.None?
  }

  /** A decided transaction: Admitted exactly when Authenticated, and otherwise terminal. */
  predicate Settled(entry: Entry) {
    && entry.result.Some?
    && (entry.result == Some(ShowAdmitted) <==> entry.session.phase.Authenticated?)
    && (entry.result != Some(ShowAdmitted) ==> IsTerminal(entry.session.phase))
  }

  predicate Belongs(s: State, entry: Entry) {
    && entry.owner in s.exchanges
    && SessionInv(entry.session)
    && entry.session.locator == s.exchanges[entry.owner].locator
    && entry.session.deadline == entry.deadline == s.exchanges[entry.owner].deadline
    && (entry.session.provider.Some? ==> entry.session.provider == s.exchanges[entry.owner].provider)
  }

  /** The entry in the hands of callback `k`. */
  predicate HeldOk(k: CallbackTask, entry: Entry, x: Exchange) {
    match k.pc
    case Holding => Pending(entry, x) && x.state == Some(k.state)
    case Verifying => Pending(entry, x) && x.state == Some(k.state) && x.provider == Some(k.route)
    case Finishing(_) => Settled(entry)
    case _ => false
  }

  predicate PlaceOk(s: State, p: Place)
    requires p in s.places
  {
    var entry := s.places[p];
    && Belongs(s, entry)
    && var x := s.exchanges[entry.owner];
       match p
       case AtExchange(e) =>
         && entry.owner == e
         && (x.pc.Selecting? || x.pc.AwaitingTarget? || x.pc.GotTarget?)
         && (x.pc.Selecting? ==> entry.session.phase.ProviderSelection? && entry.result.None? && x.state.None?)
         && (!x.pc.Selecting? ==> entry.session.phase.Resolving?)
       case InRegister(e) => entry.owner == e && x.pc.Registering? && Pending(entry, x)
       case InTable(state) =>
         x.state == Some(state) && Pending(entry, x) && (x.pc.Announcing? || x.pc.Waiting? || x.pc.Removing?)
       case AtCallback(c) =>
         c in s.callbacks && HeldOk(s.callbacks[c], entry, x)
       case InComplete(c) =>
         && c in s.callbacks && Settled(entry)
         && (s.callbacks[c].pc.Completing? || s.callbacks[c].pc.Shown?)
       case InOutcome(e) => entry.owner == e && Settled(entry) && Listening(s, e)
       case InRemoveReply(e) => entry.owner == e && Pending(entry, x) && x.pc.Removed?
  }

  predicate ExchangeOk(s: State, e: ExchangeId)
    requires e in s.exchanges
  {
    var x := s.exchanges[e];
    && (x.state.Some? ==> x.state.value in s.used)
    && (x.state.Some? <==> x.provider.Some?)
    && (x.pc.Removing? || x.pc.Removed? ==> x.pc.after == NothingWritten || x.pc.after == WroteExpired)
    && (x.pc.Selecting? <==> x.state.None? && !x.pc.Returned?)
    && (x.pc.Selecting? || x.pc.Registering? || x.pc.Announcing? || x.pc.Waiting? ==> !x.signalled)
    && (x.pc.Selecting? || x.pc.AwaitingTarget? || x.pc.GotTarget? ==> AtExchange(e) in s.places)
    && (x.pc.Registering? ==> InRegister(e) in s.places)
  }

  predicate CallbackOk(k: CallbackTask) {
    k.takeQueued ==> k.pc.Taking? || k.pc.Shown?
  }

  /** No session is in two places. */
  ghost predicate Linear(places: map<Place, Entry>) {
    forall p, q :: p in places && q in places && places[p].owner == places[q].owner ==> p == q
  }

  ghost predicate DistinctStates(exchanges: map<ExchangeId, Exchange>) {
    forall e, f | e in exchanges && f in exchanges ::
      exchanges[e].state.Some? && exchanges[e].state == exchanges[f].state ==> e == f
  }

  /** The places whose entry contradicts the program counters; always empty. */
  ghost function Broken(s: State): set<Place> {
    set p | p in s.places && !PlaceOk(s, p)
  }

  ghost predicate ExchangesOk(s: State) {
    forall e :: e in s.exchanges ==> ExchangeOk(s, e)
  }

  ghost predicate Inv(s: State) {
    && Broken(s) == {}
    && Linear(s.places)
    && ExchangesOk(s)
    && DistinctStates(s.exchanges)
    && (forall c :: c in s.callbacks ==> CallbackOk(s.callbacks[c]))
    && |TableSlots(s.places)| <= s.capacity
  }

  predicate Touches(p: Place, c: CallbackId) {
    (p.AtCallback? || p.InComplete?) && p.c == c
  }

  /** `t` differs from `s` only in one exchange, one callback and one place; everything else may only disappear. */
  ghost predicate LocalChange(s: State, t: State, e: ExchangeId, c: CallbackId, to: Option<Place>) {
    && t.capacity == s.capacity && s.used <= t.used
    && (t.exchanges == s.exchanges || (e in t.exchanges && t.exchanges == s.exchanges[e := t.exchanges[e]]))
    && (t.callbacks == s.callbacks || (c in t.callbacks && t.callbacks == s.callbacks[c := t.callbacks[c]]))
    && (forall p :: p in t.places && Some(p) != to ==> p in s.places && t.places[p] == s.places[p])
    && (forall f :: f != e && AtExchange(f) in s.places ==> AtExchange(f) in t.places)
    && (forall f :: f != e && InRegister(f) in s.places ==> InRegister(f) in t.places)
  }

  /** What remains to be shown about the places a step touched. */
  ghost predicate TouchedOk(s: State, t: State, e: ExchangeId, c: CallbackId, to: Option<Place>) {
    && (forall p :: p in Broken(t) ==>
          && Some(p) != to
          && (t.exchanges == s.exchanges || t.places[p].owner != e)
          && (t.callbacks == s.callbacks || !Touches(p, c)))
    && (to.Some? && to.value in t.places ==>
          forall p :: p in t.places && p != to.value ==> t.places[p].owner != t.places[to.value].owner)
  }

  lemma PlaceFrame(s: State, t: State, p: Place)
    requires p in s.places && p in t.places && t.places[p] == s.places[p] && PlaceOk(s, p)
    requires t.places[p].owner in t.exchanges && t.exchanges[t.places[p].owner] == s.exchanges[t.places[p].owner]
    requires p.AtCallback? || p.InComplete? ==> p.c in t.callbacks && t.callbacks[p.c] == s.callbacks[p.c]
    ensures PlaceOk(t, p)
  {
  }

  lemma PlacesStayOk(s: State, t: State, e: ExchangeId, c: CallbackId, to: Option<Place>)
    requires Broken(s) == {} && LocalChange(s, t, e, c, to) && TouchedOk(s, t, e, c, to)
    ensures Broken(t) == {}
  {
    forall p | p in t.places ensures PlaceOk(t, p) {
      if p in Broken(t) {
        assert p !in Broken(s);
        PlaceFrame(s, t, p);
      }
    }
  }

  lemma PlacesStayLinear(s: State, t: State, e: ExchangeId, c: CallbackId, to: Option<Place>)
    requires Linear(s.places) && LocalChange(s, t, e, c, to) && TouchedOk(s, t, e, c, to)
    ensures Linear(t.places)
  {
  }

  lemma StatesStayDistinct(s: State, t: State, e: ExchangeId)
    requires DistinctStates(s.exchanges) && ExchangesOk(s)
    requires t.exchanges == s.exchanges || (e in t.exchanges && t.exchanges == s.exchanges[e := t.exchanges[e]])
    requires TouchedExchangeOk(s, t, e)
    ensures DistinctStates(t.exchanges)
  {
    forall f | f in s.exchanges && s.exchanges[f].state.Some? ensures s.exchanges[f].state.value in s.used {
      assert ExchangeOk(s, f);
    }
  }

  lemma ExchangesStayOk(s: State, t: State, e: ExchangeId, c: CallbackId, to: Option<Place>)
    requires ExchangesOk(s) && LocalChange(s, t, e, c, to) && TouchedExchangeOk(s, t, e)
    ensures ExchangesOk(t)
  {
    forall f | f in t.exchanges ensures ExchangeOk(t, f) {
      if f != e {
        assert ExchangeOk(s, f);
      }
    }
  }

  /** The exchange a step touched is consistent and drew its state from the fresh supply. */
  ghost predicate TouchedExchangeOk(s: State, t: State, e: ExchangeId) {
    e in t.exchanges ==>
      && ExchangeOk(t, e)
      && (e in s.exchanges && s.exchanges[e].state.Some? ==> t.exchanges[e].state == s.exchanges[e].state)
      && (t.exchanges[e].state.Some? ==>
            t.exchanges[e].state.value !in s.used || (e in s.exchanges && t.exchanges[e].state == s.exchanges[e].state))
  }

  lemma TableStaysBounded(before: map<Place, Entry>, after: map<Place, Entry>)
    ensures TableSlots(after) <= TableSlots(before) ==> |TableSlots(after)| <= |TableSlots(before)|
  {
    if TableSlots(after) <= TableSlots(before) {
      assert TableSlots(before) == TableSlots(after) + (TableSlots(before) - TableSlots(after));
    }
  }

  lemma LocalChangeKeepsInv(s: State, t: State, e: ExchangeId, c: CallbackId, to: Option<Place>)
    requires Inv(s) && LocalChange(s, t, e, c, to) && TouchedOk(s, t, e, c, to) && TouchedExchangeOk(s, t, e)
    requires c in t.callbacks ==> CallbackOk(t.callbacks[c])
    requires TableSlots(t.places) <= TableSlots(s.places) || |TableSlots(t.places)| <= t.capacity
    ensures Inv(t)
  {
    PlacesStayOk(s, t, e, c, to);
    PlacesStayLinear(s, t, e, c, to);
    ExchangesStayOk(s, t, e, c, to);
    StatesStayDistinct(s, t, e);
    TableStaysBounded(s.places, t.places);
  }

  // ---- the shapes of steps ----

  /** `a` is `b` with some table slots swept away. */
  ghost predicate SweptFrom(a: map<Place, Entry>, b: map<Place, Entry>) {
    && (forall p :: p in a ==> p in b && a[p] == b[p])
    && (forall p :: p in b && !p.InTable? ==> p in a)
  }

  /** The session in `from` is handed to `to`, which is free, or dropped. */
  ghost predicate HandedOver(base: map<Place, Entry>, from: Place, to: Option<Place>, after: map<Place, Entry>) {
    if to.None? then after == base - {from}
    else
      && to.value in after && to.value !in base - {from}
      && after == (base - {from})[to.value := after[to.value]]
  }

  ghost predicate SlotsOk(s: State, t: State) {
    TableSlots(t.places) <= TableSlots(s.places) || |TableSlots(t.places)| <= t.capacity
  }

  lemma HandedOverIsLocal(s: State, t: State, base: map<Place, Entry>, from: Place, to: Option<Place>)
    requires Linear(s.places) && SweptFrom(base, s.places) && from in s.places && HandedOver(base, from, to, t.places)
    requires to.Some? ==> t.places[to.value].owner == s.places[from].owner
    ensures forall p :: p in t.places && Some(p) != to ==> p in s.places && t.places[p] == s.places[p]
    ensures forall p :: p in t.places && Some(p) != to ==> t.places[p].owner != s.places[from].owner
    ensures forall p :: p in s.places && !p.InTable? && p != from ==> p in t.places
  {
  }

  /** A step that changes exchange `e` and hands over or drops its session. */
  lemma ExchangeHandover(s: State, t: State, e: ExchangeId, base: map<Place, Entry>, from: Place, to: Option<Place>)
    requires Inv(s) && SweptFrom(base, s.places) && HandedOver(base, from, to, t.places)
    requires from in s.places && s.places[from].owner == e && (from.AtExchange? || from.InRegister? ==> from.e == e)
    requires to.Some? ==> t.places[to.value].owner == e && to.value !in Broken(t)
    requires e in t.exchanges && t.exchanges == s.exchanges[e := t.exchanges[e]] && t.callbacks == s.callbacks
    requires t.capacity == s.capacity && s.used <= t.used
    requires TouchedExchangeOk(s, t, e) && SlotsOk(s, t)
    ensures Inv(t)
  {
    HandedOverIsLocal(s, t, base, from, to);
    LocalChangeKeepsInv(s, t, e, 0, to);
  }

  /** A step that changes exchange `e` and at most takes its session away. */
  lemma ExchangeChange(s: State, t: State, e: ExchangeId)
    requires Inv(s)
    requires forall p :: p in t.places ==> p in s.places && t.places[p] == s.places[p]
    requires forall p :: p in s.places && s.places[p].owner != e ==> p in t.places
    requires forall p :: p in Broken(t) ==> t.places[p].owner != e
    requires e in t.exchanges && t.exchanges == s.exchanges[e := t.exchanges[e]] && t.callbacks == s.callbacks
    requires t.capacity == s.capacity && s.used == t.used
    requires TouchedExchangeOk(s, t, e)
    ensures Inv(t)
  {
    forall f | f != e && AtExchange(f) in s.places ensures AtExchange(f) in t.places {
      assert AtExchange(f) !in Broken(s);
    }
    forall f | f != e && InRegister(f) in s.places ensures InRegister(f) in t.places {
      assert InRegister(f) !in Broken(s);
    }
    LocalChangeKeepsInv(s, t, e, 0, None);
  }

  /** A step that changes callback `c` and hands over or drops one session. */
  lemma CallbackHandover(s: State, t: State, c: CallbackId, base: map<Place, Entry>, from: Place, to: Option<Place>)
    requires Inv(s) && SweptFrom(base, s.places) && HandedOver(base, from, to, t.places)
    requires from in s.places && !from.AtExchange? && !from.InRegister?
    requires to.Some? ==>
               t.places[to.value].owner == s.places[from].owner && to.value !in Broken(t) && !to.value.InTable?
    requires forall p :: p in Broken(t) ==> !Touches(p, c)
    requires c in t.callbacks && t.callbacks == s.callbacks[c := t.callbacks[c]] && t.exchanges == s.exchanges
    requires t.capacity == s.capacity && s.used == t.used && CallbackOk(t.callbacks[c])
    ensures Inv(t)
  {
    HandedOverIsLocal(s, t, base, from, to);
    forall e | e in t.exchanges ensures ExchangeOk(t, e) {
      assert ExchangeOk(s, e);
    }
    LocalChangeKeepsInv(s, t, 0, c, to);
  }

  /** A step that changes callback `c` and only sweeps. */
  lemma CallbackChange(s: State, t: State, c: CallbackId)
    requires Inv(s) && SweptFrom(t.places, s.places)
    requires forall p :: p in Broken(t) ==> !Touches(p, c)
    requires c in t.callbacks && t.callbacks == s.callbacks[c := t.callbacks[c]] && t.exchanges == s.exchanges
    requires t.capacity == s.capacity && s.used == t.used && CallbackOk(t.callbacks[c])
    ensures Inv(t)
  {
    forall e | e in t.exchanges ensures ExchangeOk(t, e) {
      assert ExchangeOk(s, e);
    }
    LocalChangeKeepsInv(s, t, 0, c, None);
  }
}
