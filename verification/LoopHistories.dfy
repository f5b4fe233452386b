/**
 The connection book and the rejection protocol, read off the events of a run: which connections are
 tracked and where they come from, who is rejected and why, and who is told to close.
 */
module LoopHistories {
  import opened Common
  import opened EagerRegistry
  import opened LoopModel
  import opened LoopTheorems

  // ---- the book ----

  /** The events establish no connection id twice. */
  ghost predicate FreshIds(history: seq<SwarmEvent>) {
    forall i, j :: 0 <= i < j < |history| && history[i].Established? && history[j].Established? ==>
      history[i].id != history[j].id
  }

  /** The establishment at `i` has not been closed before `n`. */
  ghost predicate StillUp(history: seq<SwarmEvent>, i: nat, n: nat)
    requires i < n <= |history| && history[i].Established?
  {
    forall j :: i < j < n ==> history[j] != Closed(history[i].peer, history[i].id)
  }

  /** The establishments of `p` before `n` that were accepted and are still up. */
  ghost function Up(history: seq<SwarmEvent>, p: Peer, n: nat): set<nat>
    requires n <= |history|
    decreases n, 0
  {
    set i | 0 <= i < n && history[i].Established? && history[i].peer == p
            && Accepted(history, i) && StillUp(history, i, n)
  }

  /** The establishment at `i` found fewer than eight accepted connections of its peer up. */
  ghost predicate Accepted(history: seq<SwarmEvent>, i: nat)
    requires i < |history| && history[i].Established?
    decreases i, 1
  {
    |Up(history, history[i].peer, i)| < 8
  }

  ghost function Ids(history: seq<SwarmEvent>, ups: set<nat>): set<ConnectionId>
    requires forall i :: i in ups ==> i < |history| && history[i].Established?
  {
    set i | i in ups :: history[i].id
  }

  lemma {:induction false} IdsCount(history: seq<SwarmEvent>, ups: set<nat>)
    requires FreshIds(history) && forall i :: i in ups ==> i < |history| && history[i].Established?
    ensures |Ids(history, ups)| == |ups|
  {
    if ups != {} {
      var i :| i in ups;
      IdsCount(history, ups - {i});
      assert history[i].id !in Ids(history, ups - {i});
      assert Ids(history, ups) == Ids(history, ups - {i}) + {history[i].id};
    } else {
      assert Ids(history, ups) == {};
    }
  }

  lemma UpNext(history: seq<SwarmEvent>, p: Peer, n: nat)
    requires n < |history|
    ensures var e := history[n];
            forall i :: i in Up(history, p, n + 1) <==>
              || (i in Up(history, p, n) && e != Closed(p, history[i].id))
              || (i == n && e.Established? && e.peer == p && Accepted(history, n))
  {
  }

  /** The endpoint of the connection established at `i` is the one it was established with. */
  ghost predicate SourceKept(history: seq<SwarmEvent>, i: nat, book: Book)
    requires i < |history| && history[i].Established?
  {
    history[i].id in book.endpoints && book.endpoints[history[i].id] == history[i].source
  }

  ghost predicate AreEstablished(history: seq<SwarmEvent>, ups: set<nat>, n: nat) {
    n <= |history| && forall i :: i in ups ==> i < n && history[i].Established?
  }

  /** The book tracks exactly these connections of `p`, with the source of each. */
  ghost predicate TracksThese(history: seq<SwarmEvent>, ups: set<nat>, book: Book, p: Peer)
    requires AreEstablished(history, ups, |history|)
  {
    book.Roster(p) == Ids(history, ups) && forall i :: i in ups ==> SourceKept(history, i, book)
  }

  /** The book tracks exactly the accepted connections of `p` that are still up, with the source of each. */
  ghost predicate TracksPeer(history: seq<SwarmEvent>, n: nat, book: Book, p: Peer)
    requires n <= |history|
  {
    TracksThese(history, Up(history, p, n), book, p)
  }

  ghost predicate Tracks(history: seq<SwarmEvent>, n: nat, book: Book)
    requires n <= |history|
  {
    forall p :: TracksPeer(history, n, book, p)
  }

  lemma UpAfterOther(history: seq<SwarmEvent>, p: Peer, n: nat)
    requires n < |history| && (history[n].peer != p || history[n].Reservation?)
    ensures Up(history, p, n + 1) == Up(history, p, n)
  {
    UpNext(history, p, n);
  }

  lemma UpAfterEstablished(history: seq<SwarmEvent>, n: nat)
    requires n < |history| && history[n].Established?
    ensures var p := history[n].peer;
            Up(history, p, n + 1) ==
            if |Up(history, p, n)| < PER_PEER_CAPACITY then Up(history, p, n) + {n} else Up(history, p, n)
  {
    UpNext(history, history[n].peer, n);
  }

  lemma UpAfterClosed(history: seq<SwarmEvent>, n: nat)
    requires n < |history| && history[n].Closed?
    ensures var p := history[n].peer;
            forall i :: i in Up(history, p, n + 1) <==> i in Up(history, p, n) && history[i].id != history[n].id
  {
    UpNext(history, history[n].peer, n);
  }

  /** An event of one peer leaves the tracked connections of another alone. */
  lemma OthersStayTracked(history: seq<SwarmEvent>, n: nat, book: Book, ups: set<nat>, p: Peer, own: set<nat>)
    requires FreshIds(history) && n < |history| && AreEstablished(history, ups, n) && AreEstablished(history, own, n)
    requires history[n].peer != p && TracksThese(history, ups, book, p)
    requires TracksThese(history, own, book, history[n].peer)
    requires forall i :: i in ups ==> history[i].peer == p
    requires forall i :: i in own ==> history[i].peer == history[n].peer
    ensures TracksThese(history, ups, book.After(history[n]), p)
  {
    var e := history[n];
    forall i | i in ups ensures SourceKept(history, i, book.After(e)) {
      assert SourceKept(history, i, book);
      if e.Established? {
        assert history[i].id != e.id;
      } else if e.Closed? && e.id in book.Roster(e.peer) {
        var j :| j in own && history[j].id == e.id;
        assert history[i].id != history[j].id;
      }
    }
  }

  lemma NewIdIsNew(history: seq<SwarmEvent>, n: nat, ups: set<nat>)
    requires FreshIds(history) && n < |history| && AreEstablished(history, ups, n) && history[n].Established?
    ensures history[n].id !in Ids(history, ups) && |Ids(history, ups)| == |ups|
    ensures Ids(history, ups + {n}) == Ids(history, ups) + {history[n].id}
  {
    IdsCount(history, ups);
  }

  lemma SourcesStay(history: seq<SwarmEvent>, n: nat, book: Book, ups: set<nat>)
    requires FreshIds(history) && n < |history| && AreEstablished(history, ups, n) && history[n].Established?
    requires forall i :: i in ups ==> SourceKept(history, i, book)
    ensures forall i :: i in ups ==> SourceKept(history, i, book.After(history[n]))
  {
    forall i | i in ups ensures SourceKept(history, i, book.After(history[n])) {
      assert SourceKept(history, i, book) && history[i].id != history[n].id;
    }
  }

  lemma EstablishTracks(history: seq<SwarmEvent>, n: nat, book: Book, ups: set<nat>)
    requires FreshIds(history) && n < |history| && AreEstablished(history, ups, n) && history[n].Established?
    requires TracksThese(history, ups, book, history[n].peer)
    ensures var next := if |ups| < PER_PEER_CAPACITY then ups + {n} else ups;
            TracksThese(history, next, book.After(history[n]), history[n].peer)
  {
    NewIdIsNew(history, n, ups);
    SourcesStay(history, n, book, ups);
  }

  lemma CloseTracks(history: seq<SwarmEvent>, n: nat, book: Book, ups: set<nat>, rest: set<nat>)
    requires n < |history| && AreEstablished(history, ups, n) && history[n].Closed?
    requires TracksThese(history, ups, book, history[n].peer)
    requires forall i :: i in rest <==> i in ups && history[i].id != history[n].id
    ensures TracksThese(history, rest, book.After(history[n]), history[n].peer)
  {
    var e := history[n];
    assert Ids(history, rest) == Ids(history, ups) - {e.id};
    assert book.After(e).Roster(e.peer) == book.Roster(e.peer) - {e.id};
  }

  lemma EventTracks(history: seq<SwarmEvent>, n: nat, book: Book, p: Peer)
    requires FreshIds(history) && n < |history| && Tracks(history, n, book)
    ensures TracksPeer(history, n + 1, book.After(history[n]), p)
  {
    var e := history[n];
    assert TracksPeer(history, n, book, p) && TracksPeer(history, n, book, e.peer);
    if p != e.peer {
      UpAfterOther(history, p, n);
      OthersStayTracked(history, n, book, Up(history, p, n), p, Up(history, e.peer, n));
    } else if e.Established? {
      UpAfterEstablished(history, n);
      EstablishTracks(history, n, book, Up(history, p, n));
    } else if e.Closed? {
      UpAfterClosed(history, n);
      CloseTracks(history, n, book, Up(history, p, n), Up(history, p, n + 1));
    } else {
      UpAfterOther(history, p, n);
    }
  }

  /**
   What the book says of a history in which no connection id is used twice: a connection is tracked exactly
   when its establishment was accepted within the bound and not closed since, and its endpoint is the one it
   was established with.
   */
  lemma {:induction false} BookIsHistory(history: seq<SwarmEvent>, n: nat)
    requires FreshIds(history) && n <= |history|
    ensures Tracks(history, n, BookAfter(history[..n]))
  {
    if n == 0 {
      assert forall p :: Up(history, p, 0) == {};
    } else {
      BookIsHistory(history, n - 1);
      assert history[..n][..n - 1] == history[..n - 1];
      var book := BookAfter(history[..n]);
      forall p ensures TracksPeer(history, n, book, p) {
        EventTracks(history, n - 1, BookAfter(history[..n - 1]), p);
      }
    }
  }

  /** Over every run without reused ids the book is what the swarm events say. */
  lemma RunTracks(
    limits: Limits, events: seq<LoopEvent>, states: seq<Loop>, responses: seq<Response>, k: nat)
    requires LoopRun(limits, events, states, responses) && k <= |events| && FreshIds(SwarmEvents(events[..k]))
    ensures Tracks(SwarmEvents(events[..k]), |SwarmEvents(events[..k])|, states[k].book)
  {
    var history := SwarmEvents(events[..k]);
    RegistryFollowsSwarm(limits, events, states, responses, k);
    BookIsHistory(history, |history|);
    assert history[..|history|] == history;
  }

  /** A connection is the unique one of its peer exactly when it alone is up. */
  lemma UniqueIsOnlyUp(history: seq<SwarmEvent>, book: Book, p: Peer, i: nat)
    requires FreshIds(history) && Tracks(history, |history|, book)
    requires i < |history| && history[i].Established? && history[i].peer == p
    ensures book.IsUnique(p, history[i].id) <==> Up(history, p, |history|) == {i}
  {
    var ups := Up(history, p, |history|);
    assert TracksPeer(history, |history|, book, p);
    if book.IsUnique(p, history[i].id) {
      forall j ensures j in ups <==> j == i {
        if j in ups {
          assert history[j].id in Ids(history, ups);
        }
        assert history[i].id in Ids(history, ups);
      }
    }
  }

  // ---- who starts an exchange, and what its call meets ----

  /** A unique connection is the only one of its peer that is up. */
  lemma UniqueIsUp(history: seq<SwarmEvent>, book: Book, p: Peer, id: ConnectionId) returns (i: nat)
    requires FreshIds(history) && Tracks(history, |history|, book) && book.IsUnique(p, id)
    ensures Up(history, p, |history|) == {i} && i < |history| && history[i].Established? && history[i].id == id
    ensures history[i].peer == p && book.endpoints[id] == history[i].source
  {
    var ups := Up(history, p, |history|);
    assert TracksPeer(history, |history|, book, p);
    assert id in Ids(history, ups);
    i :| i in ups && history[i].id == id;
    UniqueIsOnlyUp(history, book, p, i);
    assert SourceKept(history, i, book);
  }

  /** The establishments of `p` that are up after `k` turns. */
  ghost function UpAt(events: seq<LoopEvent>, p: Peer, k: nat): set<nat>
    requires k <= |events|
  {
    Up(SwarmEvents(events[..k]), p, |SwarmEvents(events[..k])|)
  }

  /**
   An incoming exchange starts exactly with a permit, for a peer that is idle, not rejected, and has a single
   connection up; it is admitted on that connection. Otherwise nothing changes.
   */
  lemma IncomingStarts(
    limits: Limits, events: seq<LoopEvent>, states: seq<Loop>, responses: seq<Response>, k: nat)
    requires LoopRun(limits, events, states, responses) && k < |events| && events[k].Incoming?
    requires FreshIds(SwarmEvents(events[..k]))
    ensures var s, t, p, history := states[k], states[k + 1], events[k].peer, SwarmEvents(events[..k]);
            if events[k].permit && p !in s.around.tasks && p !in s.rejected && |UpAt(events, p, k)| == 1
            then exists i: nat ::
                   && UpAt(events, p, k) == {i} && i < |history| && history[i].Established?
                   && t == s.(around := s.around.(tasks := s.around.tasks[p := Reading(history[i].id)]))
            else t == s
  {
    var s, e, p, history := states[k], events[k], events[k].peer, SwarmEvents(events[..k]);
    assert LoopStep(limits, s, e, states[k + 1], responses[k]);
    RunTracks(limits, events, states, responses, k);
    var ups := UpAt(events, p, k);
    if id :| Admissible(s, p, e.permit, id) {
      var i := UniqueIsUp(history, s.book, p, id);
      assert forall c :: Admissible(s, p, e.permit, c) ==> c == id;
    } else if |ups| == 1 {
      var i :| i in ups;
      assert ups == {i} by {
        assert |ups - {i}| == 0;
        assert ups == {i} + (ups - {i});
      }
      UniqueIsOnlyUp(history, s.book, p, i);
      assert !Admissible(s, p, e.permit, history[i].id);
    }
  }

  /** The registry event a call stands for, on a connection with this source; without a source only a release is. */
  function EventOf(call: Call, source: Option<Source>, random: Option<Locator>): Option<Event> {
    match call.request
    case ReleaseRequest(l) => Some(Release(call.peer, l))
    case AllocateRequest => if source.Some? then Some(Allocate(call.peer, source.value, random)) else None
    case ReclaimRequest(l) => if source.Some? then Some(Reclaim(call.peer, source.value, l)) else None
  }

  /** The call that turn `k` serves. */
  ghost predicate Serves(s: Loop, e: LoopEvent, call: Call) {
    || (e.Waiting? && e.peer in s.around.tasks && s.around.tasks[e.peer] == Queued(call))
    || (e.Late? && e.call == call && call in s.around.late)
  }

  lemma ServedIsDecided(limits: Limits, s: Loop, e: LoopEvent, t: Loop, r: Response, call: Call)
    requires LoopStep(limits, s, e, t, r) && Serves(s, e, call)
    ensures Decided(limits, s.book, call, e.random, s.registry, t.registry, r)
  {
  }

  /**
   A call is put to the registry exactly when the connection it was admitted on is the only one of its peer that is
   up, with the source that connection was established with; every other call is answered Retry and changes nothing.
   */
  lemma CallMeetsRegistry(
    limits: Limits, events: seq<LoopEvent>, states: seq<Loop>, responses: seq<Response>, k: nat, call: Call)
    requires LoopRun(limits, events, states, responses) && k < |events| && Serves(states[k], events[k], call)
    requires FreshIds(SwarmEvents(events[..k]))
    ensures var s, t, history := states[k].registry, states[k + 1].registry, SwarmEvents(events[..k]);
            || (exists i: nat ::
                  && UpAt(events, call.peer, k) == {i} && i < |history| && history[i].Established?
                  && history[i].id == call.admitted
                  && var event := EventOf(call, history[i].source, events[k].random);
                     if event.Some? then Step(limits, s, event.value, t, responses[k])
                     else t == s && responses[k] == Retry)
            || (&& t == s && responses[k] == Retry
                && forall i: nat :: UpAt(events, call.peer, k) == {i} ==>
                     i < |history| && history[i].Established? && history[i].id != call.admitted)
  {
    var s, history := states[k], SwarmEvents(events[..k]);
    assert LoopStep(limits, s, events[k], states[k + 1], responses[k]);
    RunTracks(limits, events, states, responses, k);
    ServedIsDecided(limits, s, events[k], states[k + 1], responses[k], call);
    if s.book.IsUnique(call.peer, call.admitted) {
      var i := UniqueIsUp(history, s.book, call.peer, call.admitted);
    } else {
      forall i: nat | UpAt(events, call.peer, k) == {i}
        ensures i < |history| && history[i].Established? && history[i].id != call.admitted
      {
        assert i in UpAt(events, call.peer, k);
        UniqueIsOnlyUp(history, s.book, call.peer, i);
      }
    }
  }

  // ---- who is rejected, and who is told to close ----

  /** This turn turned `p` away. */
  ghost predicate TurnsAway(e: LoopEvent, r: Response, p: Peer) {
    r == Capacity && ((e.Waiting? && e.peer == p) || (e.Late? && e.call.peer == p))
  }

  lemma RejectedStep(limits: Limits, s: Loop, e: LoopEvent, t: Loop, r: Response, p: Peer)
    requires LoopStep(limits, s, e, t, r)
    ensures p in t.rejected ==> p in s.rejected || TurnsAway(e, r, p)
    ensures p in s.rejected && (p in t.around.tasks || p in t.book.rosters) ==> p in t.rejected
  {
    if PeerOf(e) != Some(p) {
      OtherPeers(limits, s, e, t, r, p);
    } else if e.Waiting? || e.Late? {
      CallIsServed(limits, s, e, t, r);
    }
  }

  /** A peer is rejected only after the registry answered one of its calls with Capacity. */
  lemma {:induction false} RejectedWasTurnedAway(
    limits: Limits, events: seq<LoopEvent>, states: seq<Loop>, responses: seq<Response>, k: nat, p: Peer)
    returns (i: nat)
    requires LoopRun(limits, events, states, responses) && k <= |events| && p in states[k].rejected
    ensures i < k && TurnsAway(events[i], responses[i], p)
  {
    i := k - 1;
    var e := events[i];
    RejectedStep(limits, states[i], e, states[k], responses[i], p);
    if p in states[i].rejected {
      i := RejectedWasTurnedAway(limits, events, states, responses, i, p);
    }
  }

  /** This turn serves a call of `p`. */
  predicate IsServed(s: Loop, e: LoopEvent, p: Peer) {
    || (e.Waiting? && e.peer == p && p in s.around.tasks && s.around.tasks[p].Queued?)
    || (e.Late? && e.call.peer == p && e.call in s.around.late)
  }

  /** Every peer that is turned away is rejected, and stays so until it is idle and disconnected. */
  lemma TurnedAwayIsRejected(
    limits: Limits, events: seq<LoopEvent>, states: seq<Loop>, responses: seq<Response>, k: nat, p: Peer)
    requires LoopRun(limits, events, states, responses) && k < |events|
    ensures p in states[k].rejected && (!states[k + 1].Idle(p) || p in states[k + 1].book.rosters) ==>
              p in states[k + 1].rejected
    ensures IsServed(states[k], events[k], p) && responses[k] == Capacity ==> p in states[k + 1].rejected
  {
    var e := events[k];
    RejectedStep(limits, states[k], e, states[k + 1], responses[k], p);
  }

  /** A peer that is not rejected has no tracked connection that was told to close. */
  ghost predicate Spared(s: Loop, p: Peer) {
    p !in s.rejected ==> s.book.Roster(p) !! s.around.Told(p)
  }

  lemma SparedStep(limits: Limits, s: Loop, e: LoopEvent, t: Loop, r: Response, p: Peer)
    requires PeerOk(s, p) && Spared(s, p) && LoopStep(limits, s, e, t, r)
    ensures Spared(t, p)
  {
    if PeerOf(e) != Some(p) {
      OtherPeers(limits, s, e, t, r, p);
    } else {
      match e
      case Swarm(Established(_, id, source)) => SparedEstablished(s, p, id, source);
      case Swarm(Closed(_, id)) => SparedClosed(s, p, id);
      case Waiting(_, _) => CallIsServed(limits, s, e, t, r);
      case Late(_, _) => CallIsServed(limits, s, e, t, r);
      case _ =>
    }
  }

  lemma SparedEstablished(s: Loop, p: Peer, id: ConnectionId, source: Option<Source>)
    requires Spared(s, p)
    ensures Spared(AfterEstablished(s, p, id, source), p)
  {
  }

  lemma SparedClosed(s: Loop, p: Peer, id: ConnectionId)
    requires Spared(s, p)
    ensures Spared(AfterClosed(s, p, id), p)
  {
    assert s.book.Close(p, id).Roster(p) == s.book.Roster(p) - {id};
  }

  /** The loop tells no tracked connection to close unless the registry turned its peer away. */
  lemma {:induction false} OnlyRejectedAreTold(
    limits: Limits, events: seq<LoopEvent>, states: seq<Loop>, responses: seq<Response>, k: nat, p: Peer)
    requires LoopRun(limits, events, states, responses) && k <= |events|
    ensures Spared(states[k], p)
  {
    if k > 0 {
      OnlyRejectedAreTold(limits, events, states, responses, k - 1, p);
      RunKeepsPeer(limits, events, states, responses, k - 1, p);
      var e := events[k - 1];
      SparedStep(limits, states[k - 1], e, states[k], responses[k - 1], p);
    }
  }
}
