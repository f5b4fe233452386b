/**
 The one-entry provider token cache and the mutex around it. A task that misses keeps the mutex while it
 fetches, so relay tasks meet the cache one at a time.
 */
module TokenCache {
  import opened Common

  const MAX_PROVIDER_TOKEN_TTL: Time := 24 * 60 * 60 * SECOND
  const MAX_TOKEN_REFRESH_MARGIN: Time := 5 * 60 * SECOND

  datatype Cached = Cached(value: string, usableUntil: Time)

  /** How long a token of this lifetime may be handed out: nine tenths of it, rounded up, while a tenth of the
      lifetime stays below five minutes; all but five minutes of it from there on. */
  function UsableFor(lifetime: Time): (usable: Time)
    ensures lifetime > 0 ==> 0 < usable <= lifetime
    ensures lifetime < 3_000 * SECOND ==> 9 * lifetime <= 10 * usable < 9 * lifetime + 10
    ensures lifetime >= 3_000 * SECOND ==> usable == lifetime - 300 * SECOND
  {
    var margin := if lifetime / 10 < MAX_TOKEN_REFRESH_MARGIN then lifetime / 10 else MAX_TOKEN_REFRESH_MARGIN;
    lifetime - margin
  }

  predicate Anomalous(lifetime: Time) {
    lifetime == 0 || lifetime > MAX_PROVIDER_TOKEN_TTL
  }

  predicate Stale(entry: Option<Cached>, now: Time) {
    entry.Some? && now >= entry.value.usableUntil
  }

  class ProviderTokenCache {
    /** The last instant the monotonic clock can represent. */
    const horizon: Time
    var entry: Option<Cached>

    constructor (horizon: Time)
      ensures this.horizon == horizon && entry == None
    {
      this.horizon := horizon;
      entry := None;
    }

    method Fresh(now: Time) returns (token: Option<string>)
      modifies this
      ensures entry == if Stale(old(entry), now) then None else old(entry)
      ensures token == if entry.Some? then Some(entry.value.value) else None
      ensures token.Some? ==> now < entry.value.usableUntil
    {
      if entry.Some? && now >= entry.value.usableUntil {
        entry := None;
      }
      token := if entry.Some? then Some(entry.value.value) else None;
    }

    method Store(value: string, lifetime: Time, now: Time) returns (stored: bool)
      modifies this
      ensures stored <==> 0 < lifetime <= 86_400 * SECOND && now + UsableFor(lifetime) <= horizon
      ensures entry == if stored then Some(Cached(value, now + UsableFor(lifetime))) else old(entry)
    {
      if lifetime == 0 || lifetime > MAX_PROVIDER_TOKEN_TTL {
        return false;
      }
      var proportional := lifetime / 10;
      var margin := if proportional < MAX_TOKEN_REFRESH_MARGIN then proportional else MAX_TOKEN_REFRESH_MARGIN;
      if margin > lifetime || now + (lifetime - margin) > horizon {
        return false;
      }
      entry := Some(Cached(value, now + (lifetime - margin)));
      stored := true;
    }

    /** Clears the entry exactly when it holds the failed token. */
    method InvalidateIf(failed: string)
      modifies this
      ensures entry == if old(entry).Some? && old(entry).value.value == failed then None else old(entry)
    {
      if entry.Some? && entry.value.value == failed {
        entry := None;
      }
    }

    /** A token just stored is handed out again at once, for every lifetime the cache accepts. */
    method StoreThenFresh(value: string, lifetime: Time, now: Time) returns (token: Option<string>)
      modifies this
      ensures token == (if Anomalous(lifetime) || now + UsableFor(lifetime) > horizon then None else Some(value))
      ensures entry == if token.None? then old(entry) else Some(Cached(value, now + UsableFor(lifetime)))
    {
      var stored := Store(value, lifetime, now);
      if !stored {
        return None;
      }
      token := Fresh(now);
    }
  }

  // The cache among tasks.

  /** What one task does while it holds the mutex, and the clock. */
  datatype Step =
    | Tick(elapsed: Time)
    | Ask(task: nat)
    | Fetched(task: nat, token: string, lifetime: Time)
    | FetchFailed(task: nat)
    | Report(task: nat, failed: string)

  datatype State = State(
    now: Time,
    entry: Option<Cached>,
    fetching: Option<nat>,   // who missed and still holds the mutex
    stores: nat,
    expiries: nat,
    invalidations: nat)

  const INITIAL: State := State(0, None, None, 0, 0, 0)

  predicate Enabled(s: State, step: Step) {
    match step
    case Tick(_) => true
    case Ask(_) => s.fetching.None?
    case Fetched(task, _, _) => s.fetching == Some(task)
    case FetchFailed(task) => s.fetching == Some(task)
    case Report(_, _) => s.fetching.None?
  }

  predicate Storable(horizon: Time, now: Time, lifetime: Time) {
    !Anomalous(lifetime) && now + UsableFor(lifetime) <= horizon
  }

  function Apply(horizon: Time, s: State, step: Step): State {
    match step
    case Tick(elapsed) => s.(now := s.now + elapsed)
    case Ask(task) =>
      if s.entry.Some? && !Stale(s.entry, s.now) then s
      else s.(entry := None, fetching := Some(task), expiries := s.expiries + if s.entry.Some? then 1 else 0)
    case Fetched(_, token, lifetime) =>
      if Storable(horizon, s.now, lifetime)
      then s.(entry := Some(Cached(token, s.now + UsableFor(lifetime))), fetching := None, stores := s.stores + 1)
      else s.(fetching := None)
    case FetchFailed(_) => s.(fetching := None)
    case Report(_, failed) =>
      if s.entry.Some? && s.entry.value.value == failed
      then s.(entry := None, invalidations := s.invalidations + 1) else s
  }

  /** The token a step hands to its task. */
  function Handed(horizon: Time, s: State, step: Step): Option<string> {
    match step
    case Ask(_) => if s.entry.Some? && !Stale(s.entry, s.now) then Some(s.entry.value.value) else None
    case Fetched(_, token, lifetime) => if Storable(horizon, s.now, lifetime) then Some(token) else None
    case _ => None
  }

  ghost predicate Run(horizon: Time, steps: seq<Step>, states: seq<State>) {
    && |states| == |steps| + 1
    && states[0] == INITIAL
    && forall i :: 0 <= i < |steps| ==>
         Enabled(states[i], steps[i]) && states[i + 1] == Apply(horizon, states[i], steps[i])
  }

  /** Nothing is cached while a task fetches, and every store is cleared once or still there. */
  ghost predicate Balanced(s: State) {
    && (s.fetching.Some? ==> s.entry.None?)
    && s.stores == s.expiries + s.invalidations + if s.entry.Some? then 1 else 0
  }

  lemma {:induction false} StoresBalanceClears(horizon: Time, steps: seq<Step>, states: seq<State>, i: nat)
    requires Run(horizon, steps, states) && i < |states|
    ensures Balanced(states[i])
    ensures states[i].stores <= 1 + states[i].expiries + states[i].invalidations
  {
    if i > 0 {
      StoresBalanceClears(horizon, steps, states, i - 1);
    }
  }

  /** The entry outlived its early expiry when somebody asked, or it was the very token reported. */
  predicate Retires(s: State, step: Step, e: Cached) {
    (step.Ask? && s.now >= e.usableUntil) || (step.Report? && step.failed == e.value)
  }

  /** A token leaves the cache only by its own expiry or its own failure: a late report about another
      token, however old, never erases it, and no fetch overwrites it. */
  lemma {:induction false} TokensRetireThemselves(horizon: Time, steps: seq<Step>, states: seq<State>, i: nat, j: nat)
    returns (k: nat)
    requires Run(horizon, steps, states) && i <= j < |states|
    requires states[i].entry.Some? && states[j].entry != states[i].entry
    ensures i <= k < j && states[k].entry == states[i].entry && Retires(states[k], steps[k], states[i].entry.value)
  {
    if states[j - 1].entry == states[i].entry {
      k := j - 1;
      StoresBalanceClears(horizon, steps, states, k);
    } else {
      k := TokensRetireThemselves(horizon, steps, states, i, j - 1);
    }
  }

  /** The fetch an entry came from. */
  lemma {:induction false} EntryOrigin(horizon: Time, steps: seq<Step>, states: seq<State>, i: nat) returns (k: nat)
    requires Run(horizon, steps, states) && i < |states| && states[i].entry.Some?
    ensures k < i && steps[k].Fetched? && Storable(horizon, states[k].now, steps[k].lifetime)
    ensures states[i].entry.value == Cached(steps[k].token, states[k].now + UsableFor(steps[k].lifetime))
    ensures states[k].now <= states[i].now
  {
    if states[i - 1].entry == states[i].entry {
      k := EntryOrigin(horizon, steps, states, i - 1);
    } else {
      k := i - 1;
    }
  }

  /** Every token handed out was fetched, and is handed out strictly before its early expiry. */
  lemma HandedOutInTime(horizon: Time, steps: seq<Step>, states: seq<State>, i: nat) returns (k: nat)
    requires Run(horizon, steps, states) && i < |steps| && Handed(horizon, states[i], steps[i]).Some?
    ensures k <= i && steps[k].Fetched? && Handed(horizon, states[i], steps[i]) == Some(steps[k].token)
    ensures states[k].now <= states[i].now < states[k].now + UsableFor(steps[k].lifetime)
    ensures UsableFor(steps[k].lifetime) <= steps[k].lifetime <= MAX_PROVIDER_TOKEN_TTL
  {
    if steps[i].Fetched? {
      k := i;
    } else {
      k := EntryOrigin(horizon, steps, states, i);
    }
  }

  lemma {:induction false} ClockRises(horizon: Time, steps: seq<Step>, states: seq<State>, i: nat, j: nat)
    requires Run(horizon, steps, states) && i <= j < |states|
    ensures states[i].now <= states[j].now
  {
    if i < j {
      ClockRises(horizon, steps, states, i, j - 1);
      assert states[j] == Apply(horizon, states[j - 1], steps[j - 1]);
    }
  }

  /** One fetch serves everybody: until the token is reported or its early expiry comes, every task that asks gets it,
      and nobody fetches again. */
  lemma FreshTokenIsShared(horizon: Time, steps: seq<Step>, states: seq<State>, i: nat, j: nat)
    requires Run(horizon, steps, states) && i < j < |steps| && steps[i].Fetched? && steps[j].Ask?
    requires 0 < steps[i].lifetime <= 86_400 * SECOND && states[i].now + UsableFor(steps[i].lifetime) <= horizon
    requires states[j].now < states[i].now + UsableFor(steps[i].lifetime)
    requires forall k :: i < k < j ==> !(steps[k].Report? && steps[k].failed == steps[i].token)
    ensures Handed(horizon, states[j], steps[j]) == Some(steps[i].token)
    ensures states[j + 1].fetching.None?
  {
    assert states[i + 1] == Apply(horizon, states[i], steps[i]);
    if states[j].entry != states[i + 1].entry {
      var k := TokensRetireThemselves(horizon, steps, states, i + 1, j);
      ClockRises(horizon, steps, states, k, j);
      assert false;
    }
    assert states[j + 1] == Apply(horizon, states[j], steps[j]);
  }

  /** Singleflight: a fetch holds the mutex, so no other task gets past the cache until it is over. */
  lemma {:induction false} FetchesDoNotOverlap(horizon: Time, steps: seq<Step>, states: seq<State>, i: nat, j: nat)
    requires Run(horizon, steps, states) && i < j < |steps|
    requires states[i + 1].fetching.Some?
    requires forall k :: i < k < j ==> !((steps[k].Fetched? || steps[k].FetchFailed?))
    ensures states[j].fetching == states[i + 1].fetching && !steps[j].Ask? && !steps[j].Report?
  {
    if j > i + 1 {
      FetchesDoNotOverlap(horizon, steps, states, i, j - 1);
    }
  }

  /** The cache object, driven through one task's turn, moves as the step relation says. */
  method Turn(cache: ProviderTokenCache, ghost s: State, step: Step, now: Time) returns (handed: Option<string>)
    requires s.entry == cache.entry && s.now == now && Balanced(s) && Enabled(s, step)
    modifies cache
    ensures cache.entry == Apply(cache.horizon, s, step).entry
    ensures handed == Handed(cache.horizon, s, step)
  {
    handed := None;
    match step
    case Tick(_) =>
    case Ask(_) => handed := cache.Fresh(now);
    case Fetched(_, token, lifetime) => handed := cache.StoreThenFresh(token, lifetime, now);
    case FetchFailed(_) =>
    case Report(_, failed) => cache.InvalidateIf(failed);
  }
}
