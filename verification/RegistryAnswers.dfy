/**
 What the answers of the reference registry mean over whole runs, said without its step relation: who
 holds which locator, who is available, and how full the registry is.
 */
module RegistryAnswers {
  import opened Common
  import opened EagerRegistry

  /** Peer `p` holds locator `l`. */
  predicate HeldBy(s: Registry, l: Locator, p: Peer) {
    l in s.mappings && s.mappings[l].owner == p
  }

  ghost predicate IsHeld(s: Registry, l: Locator) {
    exists p :: HeldBy(s, l, p)
  }

  ghost predicate HoldsNothing(s: Registry, p: Peer) {
    forall l :: !HeldBy(s, l, p)
  }

  /** One of the two quotas is used up for this source. */
  predicate IsFull(limits: Limits, s: Registry, source: Source) {
    |s.mappings| == limits.capacity || |OfSource(s.mappings, source)| == limits.perSource
  }

  lemma FullMeansNoCapacity(limits: Limits, s: Registry, source: Source)
    requires Inv(limits, s)
    ensures IsFull(limits, s, source) <==> !HasCapacity(limits, s.mappings, source)
  {
    assert |OfSource(s.mappings, source)| <= limits.perSource;
  }

  // ---- signals ----

  /** Whether the last event that set a signal of `p` in `events` set it up. */
  ghost predicate LastSet(events: seq<Event>, p: Peer, reservation: bool) {
    if events == [] then false
    else
      var last := events[|events| - 1];
      if reservation && last.SetReservation? && last.peer == p then last.up
      else if !reservation && last.SetConnection? && last.peer == p then last.up
      else LastSet(events[..|events| - 1], p, reservation)
  }

  /** A peer is available exactly when the last event on each of its signals set it up. */
  lemma {:induction false} AvailabilityFollowsEvents(
    limits: Limits, events: seq<Event>, states: seq<Registry>, responses: seq<Response>, k: nat, p: Peer)
    requires Run(limits, events, states, responses) && k <= |events|
    ensures p in states[k].reservations <==> LastSet(events[..k], p, true)
    ensures p in states[k].connections <==> LastSet(events[..k], p, false)
  {
    if k > 0 {
      AvailabilityFollowsEvents(limits, events, states, responses, k - 1, p);
      var e := events[k - 1];
      assert Step(limits, states[k - 1], e, states[k], responses[k - 1]);
      assert events[..k][..k - 1] == events[..k - 1];
    }
  }

  // ---- one answer at a time ----

  lemma AnswerStep(limits: Limits, events: seq<Event>, states: seq<Registry>, responses: seq<Response>, k: nat)
    requires Run(limits, events, states, responses) && k < |events|
    ensures Inv(limits, states[k]) && Step(limits, states[k], events[k], states[k + 1], responses[k])
  {
    RunKeepsInv(limits, events, states, responses, k);
    var e := events[k];
  }

  lemma HolderFacts(limits: Limits, s: Registry, p: Peer)
    requires Inv(limits, s)
    ensures HoldsNothing(s, p) <==> !Holds(s.mappings, p)
    ensures forall l :: HeldBy(s, l, p) ==> Holds(s.mappings, p) && LocatorOf(s.mappings, p) == l
  {
    if Holds(s.mappings, p) {
      assert HeldBy(s, LocatorOf(s.mappings, p), p);
    }
  }

  /** What a reclaim answers, exactly. */
  lemma ReclaimAnswers(limits: Limits, events: seq<Event>, states: seq<Registry>, responses: seq<Response>, k: nat)
    requires Run(limits, events, states, responses) && k < |events| && events[k].Reclaim?
    ensures var s, r, p, l := states[k], responses[k], events[k].owner, events[k].locator;
            var full := IsFull(limits, s, events[k].source);
            && (r == ReservationRequired <==> !Available(s, p))
            && (r == Acquired(l) <==>
                  Available(s, p) && (HeldBy(s, l, p) || (HoldsNothing(s, p) && !IsHeld(s, l) && !full)))
            && (r == Conflict <==>
                  Available(s, p) && !HeldBy(s, l, p) && (!HoldsNothing(s, p) || IsHeld(s, l)))
            && (r == Capacity <==> Available(s, p) && HoldsNothing(s, p) && !IsHeld(s, l) && full)
  {
    AnswerStep(limits, events, states, responses, k);
    HolderFacts(limits, states[k], events[k].owner);
    FullMeansNoCapacity(limits, states[k], events[k].source);
    HeldMeansMapped(states[k], events[k].locator);
  }

  lemma HeldMeansMapped(s: Registry, l: Locator)
    ensures IsHeld(s, l) <==> l in s.mappings
  {
    if l in s.mappings {
      assert HeldBy(s, l, s.mappings[l].owner);
    }
  }

  /** What an allocation answers, exactly; a new locator is the first free one at or after the random start. */
  lemma AllocateAnswers(limits: Limits, events: seq<Event>, states: seq<Registry>, responses: seq<Response>, k: nat)
    requires Run(limits, events, states, responses) && k < |events| && events[k].Allocate?
    ensures var s, r, p, random := states[k], responses[k], events[k].owner, events[k].random;
            var full := IsFull(limits, s, events[k].source);
            && (r == ReservationRequired <==> !Available(s, p))
            && (r == Capacity <==> Available(s, p) && HoldsNothing(s, p) && full)
            && (r == RandomFailed <==> Available(s, p) && HoldsNothing(s, p) && !full && random.None?)
            && (forall l :: HeldBy(s, l, p) && Available(s, p) ==> r == Acquired(l))
            && (Available(s, p) && HoldsNothing(s, p) && !full && random.Some? ==>
                  && r.Acquired? && !IsHeld(s, r.locator)
                  && forall free: Locator :: !IsHeld(s, free) ==>
                       RingDistance(random.value, r.locator) <= RingDistance(random.value, free))
  {
    AnswerStep(limits, events, states, responses, k);
    HolderFacts(limits, states[k], events[k].owner);
    FullMeansNoCapacity(limits, states[k], events[k].source);
    forall l: Locator ensures IsHeld(states[k], l) <==> l in states[k].mappings {
      HeldMeansMapped(states[k], l);
    }
  }

  /** An acquired locator resolves to its owner at once, and nobody else's mapping changes. */
  lemma AcquiredResolves(limits: Limits, events: seq<Event>, states: seq<Registry>, responses: seq<Response>, k: nat)
    requires Run(limits, events, states, responses) && k < |events| && responses[k].Acquired?
    requires events[k].Allocate? || events[k].Reclaim?
    ensures Resolves(states[k + 1], responses[k].locator, events[k].owner)
    ensures forall l, p :: p != events[k].owner ==> (HeldBy(states[k], l, p) <==> HeldBy(states[k + 1], l, p))
  {
    AnswerStep(limits, events, states, responses, k);
    RunKeepsInv(limits, events, states, responses, k + 1);
    HolderFacts(limits, states[k], events[k].owner);
  }

  /** A release frees exactly the caller's own locator and touches no other mapping. */
  lemma ReleaseFrees(limits: Limits, events: seq<Event>, states: seq<Registry>, responses: seq<Response>, k: nat)
    requires Run(limits, events, states, responses) && k < |events| && events[k].Release?
    ensures responses[k] == Released && !HeldBy(states[k + 1], events[k].locator, events[k].owner)
    ensures forall l: Locator, p: Peer :: (l, p) != (events[k].locator, events[k].owner) ==>
              (HeldBy(states[k], l, p) <==> HeldBy(states[k + 1], l, p))
  {
    AnswerStep(limits, events, states, responses, k);
  }

  /** What a lookup answers, exactly. */
  lemma ResolveAnswers(limits: Limits, events: seq<Event>, states: seq<Registry>, responses: seq<Response>, k: nat)
    requires Run(limits, events, states, responses) && k < |events| && events[k].Resolve?
    ensures var s, r, l := states[k], responses[k], events[k].locator;
            && states[k + 1] == s
            && (forall p :: r == Resolved(p) <==> HeldBy(s, l, p) && Available(s, p))
            && (r == Retry <==> exists p :: HeldBy(s, l, p) && !Available(s, p))
            && (r == Unavailable <==> !IsHeld(s, l))
  {
    AnswerStep(limits, events, states, responses, k);
    HeldMeansMapped(states[k], events[k].locator);
    if events[k].locator in states[k].mappings {
      assert HeldBy(states[k], events[k].locator, states[k].mappings[events[k].locator].owner);
    }
  }

  // ---- over time ----

  /** Whether peer `p` asks for a locator, any or this one. */
  predicate AsksFor(event: Event, p: Peer, l: Locator) {
    (event.Allocate? && event.owner == p) || (event.Reclaim? && event.owner == p && event.locator == l)
  }

  /**
   The reconnect path: whatever happens in between, an available peer that acquired a locator, by allocation
   or reclaim, and did not lose it gets it back, whichever way it asks.
   */
  lemma KeeperGetsItBack(limits: Limits, events: seq<Event>, states: seq<Registry>, responses: seq<Response>,
                         p: Peer, l: Locator, i: nat, j: nat)
    requires Run(limits, events, states, responses) && i < j < |events|
    requires AsksFor(events[i], p, l) && responses[i] == Acquired(l)
    requires AsksFor(events[j], p, l) && Available(states[j], p) && !LostLocator(events, states, l, p, i + 1, j)
    ensures responses[j] == Acquired(l)
  {
    AcquiredResolves(limits, events, states, responses, i);
    AvailableKeepsLocator(limits, events, states, responses, l, p, i + 1, j);
    if events[j].Allocate? {
      AllocateAnswers(limits, events, states, responses, j);
    } else {
      ReclaimAnswers(limits, events, states, responses, j);
    }
  }

  /** Between signals, calls and the clock a mapping changes hands only through an answer to its new owner. */
  lemma NewHolderAsked(limits: Limits, events: seq<Event>, states: seq<Registry>, responses: seq<Response>,
                       k: nat, l: Locator, p: Peer)
    requires Run(limits, events, states, responses) && k < |events|
    requires !HeldBy(states[k], l, p) && HeldBy(states[k + 1], l, p)
    ensures AsksFor(events[k], p, l) && responses[k] == Acquired(l)
  {
    AnswerStep(limits, events, states, responses, k);
  }
}
