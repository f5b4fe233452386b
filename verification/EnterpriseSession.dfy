/**
 The single-owner enterprise authentication session: a guarded state machine whose fields are
 updated in place. `After` and `Answer` are its transition function on values; the class
 performs the same transitions imperatively.
 */
module EnterpriseSession {
  import opened Common

  datatype Provider = WeCom | Feishu
  datatype Failure = Platform | UserRejected | InvalidState

  datatype Phase =
    | Created
    | ProviderSelection
    | Authenticating
    | Authenticated
    | Resolving
    | Completed
    | Cancelled
    | Expired
    | Failed(why: Failure)
    | Unavailable

  type OAuthState = nat
  type Identity = nat

  const SESSION_LIFETIME: Time := 600 * SECOND

  datatype Session = Session(
    locator: Locator,
    deadline: Time,
    phase: Phase,
    provider: Option<Provider>,
    oauthState: Option<OAuthState>,
    identity: Option<Identity>,
    targetPeer: Option<Peer>)

  datatype Op =
    | OfferProviders
    | Select(provider: Provider, random: Option<OAuthState>)
    | Callback(state: OAuthState, member: Identity)
    | ValidateMember(valid: bool)
    | BeginResolve
    | Complete(peer: Peer)
    | End(phase: Phase)

  datatype Answer = Done | InvalidTransition | AlreadyTerminal | StateMismatch | RandomFailed

  predicate IsTerminal(p: Phase) {
    p.Completed? || p.Cancelled? || p.Expired? || p.Failed? || p.Unavailable?
  }

  /** The phases that cancel, expire, fail and unavailable end a session in. */
  predicate IsEnding(p: Phase) {
    p.Cancelled? || p.Expired? || p.Failed? || p.Unavailable?
  }

  function Start(locator: Locator, now: Time): Session {
    Session(locator, now + SESSION_LIFETIME, Created, None, None, None, None)
  }

  function Expected(op: Op): Phase {
    match op
    case OfferProviders => Created
    case Select(_, _) => ProviderSelection
    case Callback(_, _) => Authenticating
    case ValidateMember(_) => Authenticating
    case BeginResolve => Authenticated
    case Complete(_) => Resolving
    case End(p) => p
  }

  function Reply(s: Session, op: Op): Answer {
    if op.End? then if IsTerminal(s.phase) then AlreadyTerminal else Done
    else if s.phase != Expected(op) then InvalidTransition
    else match op
      case Select(_, random) => if random.None? then RandomFailed else Done
      case Callback(state, _) => if s.oauthState == Some(state) then Done else StateMismatch
      case ValidateMember(_) => if s.identity.Some? then Done else InvalidTransition
      case _ => Done
  }

  function After(s: Session, op: Op): Session {
    match Reply(s, op)
    case StateMismatch => s.(phase := Failed(InvalidState), oauthState := None, identity := None)
    case Done => (
      match op
      case OfferProviders => s.(phase := ProviderSelection)
      case Select(provider, random) =>
        s.(phase := Authenticating, provider := Some(provider), oauthState := random)
      case Callback(_, member) => s.(oauthState := None, identity := Some(member))
      case ValidateMember(valid) =>
        s.(phase := if valid then Authenticated else Failed(UserRejected), identity := None)
      case BeginResolve => s.(phase := Resolving)
      case Complete(peer) => s.(phase := Completed, targetPeer := Some(peer))
      case End(p) => s.(phase := p, oauthState := None, identity := None)
    )
    case _ => s
  }

  /** What every reachable session satisfies. */
  predicate SessionInv(s: Session) {
    && !(s.oauthState.Some? && s.identity.Some?)
    && (s.oauthState.Some? || s.identity.Some? ==> s.phase.Authenticating?)
    && (s.phase.Authenticating? ==> s.oauthState.Some? || s.identity.Some?)
    && (s.phase.Created? || s.phase.ProviderSelection? ==> s.provider.None?)
    && (s.phase.Authenticating? || IsAdmitted(s.phase) ==> s.provider.Some?)
    && (s.targetPeer.Some? <==> s.phase.Completed?)
  }

  predicate WellFormed(op: Op) {
    op.End? ==> IsEnding(op.phase)
  }

  /** The session after each prefix of a sequence of operations. */
  function Replay(s: Session, ops: seq<Op>): Session {
    if ops == [] then s else After(Replay(s, ops[..|ops| - 1]), ops[|ops| - 1])
  }

  lemma {:induction false} ReachableSessions(locator: Locator, now: Time, ops: seq<Op>)
    requires forall i :: 0 <= i < |ops| ==> WellFormed(ops[i])
    ensures SessionInv(Replay(Start(locator, now), ops))
    ensures Replay(Start(locator, now), ops).locator == locator
    ensures Replay(Start(locator, now), ops).deadline == now + SESSION_LIFETIME
  {
    if ops != [] {
      ReachableSessions(locator, now, ops[..|ops| - 1]);
      assert WellFormed(ops[|ops| - 1]);
    }
  }

  /** Terminal phases absorb, the provider is chosen once, and only a bad callback changes a session by failing. */
  lemma {:induction false} RunsOnlyMoveForward(s: Session, ops: seq<Op>)
    requires SessionInv(s) && forall i :: 0 <= i < |ops| ==> WellFormed(ops[i])
    ensures SessionInv(Replay(s, ops))
    ensures IsTerminal(s.phase) ==> Replay(s, ops) == s && s.oauthState.None? && s.identity.None?
    ensures s.provider.Some? ==> Replay(s, ops).provider == s.provider
    ensures ops != [] ==>
              var before, op := Replay(s, ops[..|ops| - 1]), ops[|ops| - 1];
              Reply(before, op) != Done ==>
                || Replay(s, ops) == before
                || (op.Callback? && before.phase.Authenticating? && Replay(s, ops).phase == Failed(InvalidState))
  {
    if ops != [] {
      RunsOnlyMoveForward(s, ops[..|ops| - 1]);
      assert WellFormed(ops[|ops| - 1]);
    }
  }

  /** The operations that admitted a session: its own state came back, and then membership was confirmed. */
  datatype Admission = Admission(select: nat, callback: nat, validate: nat)

  /** Operation `k` of the session succeeded. */
  ghost predicate Succeeded(s: Session, ops: seq<Op>, k: nat) {
    k < |ops| && Reply(Replay(s, ops[..k]), ops[k]) == Done
  }

  ghost predicate SelectedAt(s: Session, ops: seq<Op>, k: nat, provider: Option<Provider>, state: OAuthState) {
    Succeeded(s, ops, k) && ops[k].Select? && ops[k].random == Some(state) && provider == Some(ops[k].provider)
  }

  ghost predicate CalledBackAt(s: Session, ops: seq<Op>, k: nat, i: nat, provider: Option<Provider>) {
    k < i && Succeeded(s, ops, i) && ops[i].Callback? && SelectedAt(s, ops, k, provider, ops[i].state)
  }

  ghost predicate AdmittedBy(s: Session, ops: seq<Op>, a: Admission, provider: Option<Provider>) {
    && CalledBackAt(s, ops, a.select, a.callback, provider) && a.callback < a.validate
    && Succeeded(s, ops, a.validate) && ops[a.validate] == ValidateMember(true)
  }

  predicate IsAdmitted(phase: Phase) {
    phase.Authenticated? || phase.Resolving? || phase.Completed?
  }

  /** What the operations so far say about the secrets and the phase of a session. */
  ghost predicate Traced(start: Session, ops: seq<Op>, a: Admission) {
    var s := Replay(start, ops);
    && (s.oauthState.Some? ==> SelectedAt(start, ops, a.select, s.provider, s.oauthState.value))
    && (s.identity.Some? ==> CalledBackAt(start, ops, a.select, a.callback, s.provider))
    && (IsAdmitted(s.phase) ==> AdmittedBy(start, ops, a, s.provider))
  }

  lemma PrefixSucceeded(s: Session, ops: seq<Op>, n: nat, k: nat)
    requires n <= |ops| && Succeeded(s, ops[..n], k)
    ensures Succeeded(s, ops, k) && ops[..n][k] == ops[k]
  {
    assert ops[..n][..k] == ops[..k];
  }

  /** What a prefix of the operations says is still said by all of them. */
  lemma PrefixTraced(s: Session, ops: seq<Op>, n: nat, a: Admission, provider: Option<Provider>, state: OAuthState)
    requires n <= |ops|
    ensures SelectedAt(s, ops[..n], a.select, provider, state) ==> SelectedAt(s, ops, a.select, provider, state)
    ensures CalledBackAt(s, ops[..n], a.select, a.callback, provider) ==>
              CalledBackAt(s, ops, a.select, a.callback, provider) && a.callback < n
    ensures AdmittedBy(s, ops[..n], a, provider) ==> AdmittedBy(s, ops, a, provider)
    ensures SelectedAt(s, ops[..n], a.select, provider, state) ==> a.select < n
  {
    if Succeeded(s, ops[..n], a.select) { PrefixSucceeded(s, ops, n, a.select); }
    if Succeeded(s, ops[..n], a.callback) { PrefixSucceeded(s, ops, n, a.callback); }
    if Succeeded(s, ops[..n], a.validate) { PrefixSucceeded(s, ops, n, a.validate); }
  }

  /** One more operation: a successful one is remembered, and nothing else gives a session what it holds. */
  lemma TraceStep(start: Session, ops: seq<Op>, n: nat, a: Admission) returns (b: Admission)
    requires n + 1 == |ops| && WellFormed(ops[n]) && SessionInv(Replay(start, ops[..n])) && Traced(start, ops[..n], a)
    ensures Traced(start, ops, b)
  {
    var before := Replay(start, ops[..n]);
    PrefixTraced(start, ops, n, a, before.provider, if before.oauthState.Some? then before.oauthState.value else 0);
    b := a;
    if Reply(before, ops[n]) == Done {
      assert Succeeded(start, ops, n);
      match ops[n]
      case Select(_, _) => b := a.(select := n);
      case Callback(_, _) => b := a.(callback := n);
      case ValidateMember(_) => b := a.(validate := n);
      case _ =>
    }
  }

  lemma {:induction false} TraceAdmission(locator: Locator, now: Time, ops: seq<Op>) returns (a: Admission)
    requires forall i :: 0 <= i < |ops| ==> WellFormed(ops[i])
    ensures Traced(Start(locator, now), ops, a)
  {
    a := Admission(0, 0, 0);
    if ops != [] {
      var n := |ops| - 1;
      a := TraceAdmission(locator, now, ops[..n]);
      ReachableSessions(locator, now, ops[..n]);
      a := TraceStep(Start(locator, now), ops, n, a);
    }
  }

  /**
   A session resolves only after a selection gave it the provider it has and a state, that state came back in
   a successful callback, and membership was then validated.
   */
  lemma ResolvingMeansAdmitted(locator: Locator, now: Time, ops: seq<Op>)
    requires forall i :: 0 <= i < |ops| ==> WellFormed(ops[i])
    requires IsAdmitted(Replay(Start(locator, now), ops).phase)
    ensures exists a :: AdmittedBy(Start(locator, now), ops, a, Replay(Start(locator, now), ops).provider)
  {
    var a := TraceAdmission(locator, now, ops);
  }

  /** The operation that ended a session in this phase, and what it found. */
  ghost predicate Ends(before: Session, op: Op, phase: Phase) {
    match phase
    case Completed => op.Complete? && before.phase.Resolving?
    case Failed(InvalidState) =>
      op == End(phase) || (op.Callback? && before.phase.Authenticating? && before.oauthState != Some(op.state))
    case Failed(UserRejected) =>
      op == End(phase) || (op == ValidateMember(false) && before.phase.Authenticating? && before.identity.Some?)
    case _ => op == End(phase)
  }

  lemma ReplayFrom(s: Session, ops: seq<Op>, k: nat)
    requires k <= |ops|
    ensures Replay(s, ops) == Replay(Replay(s, ops[..k]), ops[k..])
    decreases |ops| - k
  {
    if k == |ops| {
      assert ops[..k] == ops;
    } else {
      ReplayFrom(s, ops, k + 1);
      ReplayHead(Replay(s, ops[..k]), ops[k..]);
      assert ops[..k + 1][..k] == ops[..k] && ops[k..][1..] == ops[k + 1..];
    }
  }

  lemma {:induction false} ReplayHead(s: Session, ops: seq<Op>)
    requires ops != []
    ensures Replay(s, ops) == Replay(After(s, ops[0]), ops[1..])
  {
    var n := |ops| - 1;
    if n == 0 {
      assert ops[1..] == [] && ops[..0] == [];
    } else {
      ReplayHead(s, ops[..n]);
      assert ops[..n][1..] == ops[1..][..n - 1] && ops[1..][n - 1] == ops[n];
    }
  }

  /** Every session that has ended was ended by one operation, for the reason its phase gives. */
  lemma {:induction false} EndingHasCause(locator: Locator, now: Time, ops: seq<Op>) returns (k: nat)
    requires forall i :: 0 <= i < |ops| ==> WellFormed(ops[i])
    requires IsTerminal(Replay(Start(locator, now), ops).phase)
    ensures k < |ops| && !IsTerminal(Replay(Start(locator, now), ops[..k]).phase)
    ensures Ends(Replay(Start(locator, now), ops[..k]), ops[k], Replay(Start(locator, now), ops).phase)
    ensures ops[k].Complete? ==> Replay(Start(locator, now), ops).targetPeer == Some(ops[k].peer)
  {
    var n := |ops| - 1;
    var before := Replay(Start(locator, now), ops[..n]);
    ReachableSessions(locator, now, ops[..n]);
    assert WellFormed(ops[n]);
    if IsTerminal(before.phase) {
      k := EndingHasCause(locator, now, ops[..n]);
      assert ops[..n][..k] == ops[..k];
    } else {
      k := n;
    }
  }

  /** An ending is never lost: after it the session is over, in that phase unless it had ended before. */
  lemma EndingIsFinal(locator: Locator, now: Time, ops: seq<Op>, k: nat)
    requires (forall i :: 0 <= i < |ops| ==> WellFormed(ops[i])) && k < |ops| && ops[k].End?
    ensures var before, after := Replay(Start(locator, now), ops[..k]), Replay(Start(locator, now), ops);
            && IsTerminal(after.phase) && after.oauthState.None? && after.identity.None?
            && after.phase == if IsTerminal(before.phase) then before.phase else ops[k].phase
  {
    var s := Start(locator, now);
    ReachableSessions(locator, now, ops[..k]);
    ReachableSessions(locator, now, ops[..k + 1]);
    assert ops[..k + 1][..k] == ops[..k] && WellFormed(ops[k]);
    ReplayFrom(s, ops, k + 1);
    RunsOnlyMoveForward(Replay(s, ops[..k + 1]), ops[k + 1..]);
  }

  /** The operations of a user who authenticates and is a member. */
  function HonestRun(provider: Provider, state: OAuthState, member: Identity, peer: Peer): seq<Op> {
    [OfferProviders, Select(provider, Some(state)), Callback(state, member), ValidateMember(true), BeginResolve,
     Complete(peer)]
  }

  lemma ReplayNext(s: Session, ops: seq<Op>, k: nat)
    requires k < |ops|
    ensures Replay(s, ops[..k + 1]) == After(Replay(s, ops[..k]), ops[k])
  {
    assert ops[..k + 1][..k] == ops[..k];
  }

  /** Nothing in the state machine stands in the way of a member: each of the six operations succeeds. */
  lemma HonestSessionCompletes(
    locator: Locator, now: Time, provider: Provider, state: OAuthState, member: Identity, peer: Peer)
    ensures var ops := HonestRun(provider, state, member, peer);
            && (forall k: nat :: k < |ops| ==> Succeeded(Start(locator, now), ops, k))
            && Replay(Start(locator, now), ops) ==
                 Session(locator, now + 600 * SECOND, Completed, Some(provider), None, None, Some(peer))
  {
    var s, ops := Start(locator, now), HonestRun(provider, state, member, peer);
    assert Replay(s, ops[..0]) == s;
    ReplayNext(s, ops, 0);
    ReplayNext(s, ops, 1);
    ReplayNext(s, ops, 2);
    ReplayNext(s, ops, 3);
    ReplayNext(s, ops, 4);
    ReplayNext(s, ops, 5);
    assert ops[..6] == ops;
  }

  class EnterpriseResolveSession {
    const locator: Locator
    const deadline: Time
    var phase: Phase
    var provider: Option<Provider>
    var oauthState: Option<OAuthState>
    var identity: Option<Identity>
    var targetPeer: Option<Peer>

    function State(): Session
      reads this
    {
      Session(locator, deadline, phase, provider, oauthState, identity, targetPeer)
    }

    ghost predicate Valid()
      reads this
    {
      SessionInv(State())
    }

    constructor (locator: Locator, now: Time)
      ensures Valid() && State() == Start(locator, now)
    {
      this.locator, deadline := locator, now + SESSION_LIFETIME;
      phase, provider, oauthState, identity, targetPeer := Created, None, None, None, None;
    }

    method OfferProviders() returns (r: Answer)
      requires Valid()
      modifies this
      ensures Valid() && State() == After(old(State()), Op.OfferProviders)
      ensures r == Reply(old(State()), Op.OfferProviders)
    {
      if phase != Created {
        return InvalidTransition;
      }
      phase := ProviderSelection;
      return Done;
    }

    method Select(chosen: Provider, random: Option<OAuthState>) returns (r: Answer)
      requires Valid()
      modifies this
      ensures var op := Op.Select(chosen, random);
              Valid() && State() == After(old(State()), op) && r == Reply(old(State()), op)
    {
      if phase != ProviderSelection {
        return InvalidTransition;
      }
      if random.None? {
        return RandomFailed;
      }
      provider := Some(chosen);
      oauthState := random;
      phase := Authenticating;
      return Done;
    }

    /** The mismatch path fails the session without wiping it; nothing is left to wipe. */
    method Callback(state: OAuthState, member: Identity) returns (r: Answer)
      requires Valid()
      modifies this
      ensures var op := Op.Callback(state, member);
              Valid() && State() == After(old(State()), op) && r == Reply(old(State()), op)
    {
      if phase != Authenticating {
        return InvalidTransition;
      }
      var stored := oauthState;
      oauthState := None;
      if stored.None? {
        WipeEnterpriseState();
        phase := Failed(InvalidState);
        return StateMismatch;
      }
      if stored.value != state {
        phase := Failed(InvalidState);
        return StateMismatch;
      }
      identity := Some(member);
      return Done;
    }

    method ValidateMember(valid: bool) returns (r: Answer)
      requires Valid()
      modifies this
      ensures var op := Op.ValidateMember(valid);
              Valid() && State() == After(old(State()), op) && r == Reply(old(State()), op)
    {
      if phase != Authenticating || identity.None? {
        return InvalidTransition;
      }
      identity := None;
      phase := if valid then Authenticated else Failed(UserRejected);
      return Done;
    }

    method BeginResolve() returns (r: Answer)
      requires Valid()
      modifies this
      ensures Valid() && State() == After(old(State()), Op.BeginResolve) && r == Reply(old(State()), Op.BeginResolve)
    {
      if phase != Authenticated {
        return InvalidTransition;
      }
      assert identity.None? && oauthState.None?;
      phase := Resolving;
      return Done;
    }

    method Complete(peer: Peer) returns (r: Answer)
      requires Valid()
      modifies this
      ensures Valid() && State() == After(old(State()), Op.Complete(peer))
      ensures r == Reply(old(State()), Op.Complete(peer))
    {
      if phase != Resolving {
        return InvalidTransition;
      }
      targetPeer := Some(peer);
      phase := Completed;
      return Done;
    }

    /** Cancels, expires, fails or marks unavailable from any active phase. */
    method Terminate(ending: Phase) returns (r: Answer)
      requires Valid() && IsEnding(ending)
      modifies this
      ensures Valid() && State() == After(old(State()), End(ending)) && r == Reply(old(State()), End(ending))
    {
      if IsTerminal(phase) {
        return AlreadyTerminal;
      }
      WipeEnterpriseState();
      phase := ending;
      return Done;
    }

    method WipeEnterpriseState()
      modifies this`identity, this`oauthState
      ensures identity.None? && oauthState.None?
    {
      identity := None;
      oauthState := None;
    }
  }
}
