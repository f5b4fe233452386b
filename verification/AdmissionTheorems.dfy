/** What the admission protocol guarantees in every interleaving. */
module AdmissionTheorems {
  import opened Common
  import opened EnterpriseSession
  import opened AdmissionModel
  import opened AdmissionInvariant
  import opened AdmissionSteps

  // ---- what a step leaves alone ----

  function ExchangeOf(step: Step): Option<ExchangeId> {
    if IsCallbackStep(step) || step.Tick? || step.Rendezvous? then None else Some(step.e)
  }

  /** The place a step may put a session into. */
  function Target(s: State, step: Step): Option<Place> {
    match step
    case ExchangeBegin(e, _) => Some(AtExchange(e))
    case ExchangeSelect(e, _, _) => Some(InRegister(e))
    case OwnerRegister(e) =>
      if e in s.exchanges && s.exchanges[e].state.Some? then Some(InTable(s.exchanges[e].state.value)) else None
    case OwnerRemove(e) => Some(InRemoveReply(e))
    case ExchangeReceive(e) => Some(AtExchange(e))
    case OwnerTake(c) => Some(AtCallback(c))
    case CallbackRoute(c) => Some(AtCallback(c))
    case CallbackVerify(c, _) => Some(AtCallback(c))
    case CallbackSendComplete(c) => Some(InComplete(c))
    case CallbackFinishTimeout(c) =>
      if AtCallback(c) in s.places then Some(InOutcome(s.places[AtCallback(c)].owner)) else None
    case OwnerComplete(c) => if InComplete(c) in s.places then Some(InOutcome(s.places[InComplete(c)].owner)) else None
    case _ => None
  }

  lemma OtherExchanges(s: State, step: Step, e: ExchangeId)
    requires Enabled(s, step) && ExchangeOf(step) != Some(e)
    ensures e in Apply(s, step).exchanges <==> e in s.exchanges
    ensures e in s.exchanges ==> Apply(s, step).exchanges[e] == s.exchanges[e]
  {
    if IsCallbackStep(step) {
      CallbacksLeaveExchanges(s, step);
    }
  }

  lemma CallbacksLeaveExchanges(s: State, step: Step)
    requires Enabled(s, step) && IsCallbackStep(step)
    ensures Apply(s, step).exchanges == s.exchanges
  {
  }

  lemma ExchangesLeaveCallbacks(s: State, step: Step)
    requires Enabled(s, step) && !IsCallbackStep(step)
    ensures Apply(s, step).callbacks == s.callbacks
  {
  }

  function CallbackOf(step: Step): Option<CallbackId> {
    if IsCallbackStep(step) then Some(step.c) else None
  }

  lemma OtherCallbacks(s: State, step: Step, c: CallbackId)
    requires Enabled(s, step) && CallbackOf(step) != Some(c)
    ensures c in Apply(s, step).callbacks <==> c in s.callbacks
    ensures c in s.callbacks ==> Apply(s, step).callbacks[c] == s.callbacks[c]
  {
    if !IsCallbackStep(step) {
      ExchangesLeaveCallbacks(s, step);
    }
  }

  /** What stays somewhere, unless the step put it there, was there before. */
  ghost predicate Stayed(s: State, step: Step, p: Place)
    requires Enabled(s, step)
  {
    p in Apply(s, step).places && Target(s, step) != Some(p) ==>
      p in s.places && Apply(s, step).places[p] == s.places[p]
  }

  lemma ExchangesLeavePlaces(s: State, step: Step, p: Place)
    requires Enabled(s, step) && !IsCallbackStep(step)
    ensures Stayed(s, step, p)
  {
  }

  lemma CallbacksLeavePlaces(s: State, step: Step, p: Place)
    requires Enabled(s, step) && IsCallbackStep(step)
    ensures Stayed(s, step, p)
  {
  }

  lemma OtherPlaces(s: State, step: Step, p: Place)
    requires Enabled(s, step) && p in Apply(s, step).places && Target(s, step) != Some(p)
    ensures p in s.places && Apply(s, step).places[p] == s.places[p]
  {
    if IsCallbackStep(step) {
      CallbacksLeavePlaces(s, step, p);
    } else {
      ExchangesLeavePlaces(s, step, p);
    }
  }

  // ---- what an exchange knows about itself never changes ----

  /** Locator and deadline are fixed at the start, provider and state once chosen. */
  predicate SameTransaction(x: Exchange, y: Exchange) {
    && x.locator == y.locator && x.deadline == y.deadline
    && (x.state.Some? ==> y.state == x.state)
    && (x.provider.Some? ==> y.provider == x.provider)
  }

  /** A selection finds nothing chosen yet. */
  lemma ChoiceKeepsTransaction(s: State, e: ExchangeId, provider: Provider, state: OAuthState)
    requires Inv(s) && Enabled(s, ExchangeSelect(e, provider, state))
    ensures e in Choose(s, e, provider, state).exchanges
    ensures SameTransaction(s.exchanges[e], Choose(s, e, provider, state).exchanges[e])
  {
    assert ExchangeOk(s, e);
  }

  lemma OwnStepKeepsTransaction(s: State, step: Step, e: ExchangeId)
    requires Enabled(s, step) && ExchangeOf(step) == Some(e) && !step.ExchangeSelect? && e in s.exchanges
    ensures e in Apply(s, step).exchanges && SameTransaction(s.exchanges[e], Apply(s, step).exchanges[e])
  {
    if step.ExchangeReceive? {
      assert Apply(s, step) == Receive(s, e);
    } else if step.OwnerRegister? {
      assert Apply(s, step) == Register(s, e);
    }
  }

  lemma StepKeepsTransaction(s: State, step: Step, e: ExchangeId)
    requires Inv(s) && Enabled(s, step) && e in s.exchanges
    ensures e in Apply(s, step).exchanges && SameTransaction(s.exchanges[e], Apply(s, step).exchanges[e])
  {
    if ExchangeOf(step) != Some(e) {
      OtherExchanges(s, step, e);
    } else if step.ExchangeSelect? {
      ChoiceKeepsTransaction(s, e, step.provider, step.state);
    } else {
      OwnStepKeepsTransaction(s, step, e);
    }
  }

  lemma {:induction false} TransactionIsFixed(capacity: nat, states: seq<State>, steps: seq<Step>, e: ExchangeId,
                                              i: nat, j: nat)
    requires Run(capacity, states, steps) && i <= j <= |steps| && e in states[i].exchanges
    ensures e in states[j].exchanges && SameTransaction(states[i].exchanges[e], states[j].exchanges[e])
    decreases j
  {
    if i < j {
      TransactionIsFixed(capacity, states, steps, e, i, j - 1);
      RunKeepsInv(capacity, states, steps, j - 1);
      assert Enabled(states[j - 1], steps[j - 1]);
      StepKeepsTransaction(states[j - 1], steps[j - 1], e);
    }
  }

  // ---- where admission comes from, one step at a time ----

  predicate Answered(s: State, e: ExchangeId, p: Peer) {
    AtPc(s, e, GotTarget(Some(p)))
  }

  predicate AdmittedOutcome(s: State, e: ExchangeId) {
    InOutcome(e) in s.places && s.places[InOutcome(e)].result == Some(ShowAdmitted)
  }

  predicate HoldsFor(s: State, place: Place, e: ExchangeId) {
    place in s.places && s.places[place].owner == e && s.places[place].result == Some(ShowAdmitted)
  }

  /** Callback `c` holds or has reported an admission of the session of `e`. */
  predicate Admitting(s: State, c: CallbackId, e: ExchangeId) {
    HoldsFor(s, AtCallback(c), e) || HoldsFor(s, InComplete(c), e)
  }

  predicate Undecided(s: State, c: CallbackId, e: ExchangeId) {
    && AtCallback(c) in s.places && s.places[AtCallback(c)].owner == e && c in s.callbacks
    && (s.callbacks[c].pc.Holding? || s.callbacks[c].pc.Verifying?)
  }

  /** The registry answers for the locator of `e` with an Active mapping to `p`. */
  predicate Resolving(s: State, step: Step, e: ExchangeId, p: Peer) {
    && step == OwnerResolve(e) && e in s.exchanges
    && s.exchanges[e].locator in s.active && s.active[s.exchanges[e].locator] == p
  }

  /** The exchange receives an admission before its session deadline. */
  predicate Receiving(s: State, step: Step, e: ExchangeId) {
    step == ExchangeReceive(e) && AdmittedOutcome(s, e) && e in s.exchanges && s.clock < s.exchanges[e].deadline
  }

  /** The owner commits an admission, unsignalled and before the callback deadline. */
  predicate Committing(s: State, step: Step, c: CallbackId, e: ExchangeId) {
    && step == OwnerComplete(c) && c in s.callbacks && Admitting(s, c, e)
    && !Signalled(s, e) && s.clock < s.callbacks[c].deadline
  }

  /** The provider of the session confirmed membership on the session's own route. */
  predicate Confirming(s: State, step: Step, c: CallbackId, e: ExchangeId) {
    && step.CallbackVerify? && step.c == c && step.verification.Verified?
    && Undecided(s, c, e) && e in s.exchanges && s.exchanges[e].provider == Some(s.callbacks[c].route)
  }

  /** The owner hands the transaction of `e` to the callback that presented its state. */
  predicate TakingOver(s: State, step: Step, c: CallbackId, e: ExchangeId) {
    && step == OwnerTake(c) && c in s.callbacks && e in s.exchanges
    && s.exchanges[e].state == Some(s.callbacks[c].state)
    && InTable(s.callbacks[c].state) in s.places && s.places[InTable(s.callbacks[c].state)].owner == e
  }

  lemma OriginOfResponse(s: State, step: Step, e: ExchangeId, p: Peer)
    requires Inv(s) && Enabled(s, step) && AtPc(Apply(s, step), e, Returned(WroteResolved(p)))
    ensures AtPc(s, e, Returned(WroteResolved(p))) || (step == ExchangeRespond(e) && Answered(s, e, p))
  {
    if ExchangeOf(step) != Some(e) {
      OtherExchanges(s, step, e);
    } else if e in s.exchanges {
      assert ExchangeOk(s, e);
    }
  }

  lemma OriginOfAnswer(s: State, step: Step, e: ExchangeId, p: Peer)
    requires Inv(s) && Enabled(s, step) && Answered(Apply(s, step), e, p)
    ensures Answered(s, e, p) || (Resolving(s, step, e, p) && AtPc(s, e, AwaitingTarget))
  {
    if ExchangeOf(step) != Some(e) {
      OtherExchanges(s, step, e);
    } else if step.OwnerResolve? {
      Sound(s, AtExchange(e));
    }
  }

  lemma OriginOfResolution(s: State, step: Step, e: ExchangeId)
    requires Inv(s) && Enabled(s, step) && AtPc(Apply(s, step), e, AwaitingTarget)
    ensures AtPc(s, e, AwaitingTarget) || Receiving(s, step, e)
  {
    if ExchangeOf(step) != Some(e) {
      OtherExchanges(s, step, e);
    } else if step.ExchangeReceive? {
      Sound(s, InOutcome(e));
    }
  }

  lemma OriginOfOutcome(s: State, step: Step, e: ExchangeId) returns (c: CallbackId)
    requires Inv(s) && Enabled(s, step) && AdmittedOutcome(Apply(s, step), e)
    ensures AdmittedOutcome(s, e) || Committing(s, step, c, e)
  {
    c := if step.OwnerComplete? then step.c else 0;
    if Target(s, step) != Some(InOutcome(e)) {
      OtherPlaces(s, step, InOutcome(e));
    } else if step.OwnerComplete? {
      Sound(s, InComplete(c));
    }
  }

  /** A callback holds an admission only because its verification succeeded. */
  lemma OriginOfHeldAdmission(s: State, step: Step, c: CallbackId)
    requires Inv(s) && Enabled(s, step) && AtCallback(c) in Apply(s, step).places
    requires Apply(s, step).places[AtCallback(c)].result == Some(ShowAdmitted)
    ensures var e := Apply(s, step).places[AtCallback(c)].owner; Admitting(s, c, e) || Confirming(s, step, c, e)
  {
    if Target(s, step) != Some(AtCallback(c)) {
      OtherPlaces(s, step, AtCallback(c));
    } else if step.OwnerTake? {
      if AtCallback(c) in s.places { Sound(s, AtCallback(c)); }
      if InTable(s.callbacks[c].state) in s.places { Sound(s, InTable(s.callbacks[c].state)); }
    } else {
      Sound(s, AtCallback(c));
    }
  }

  lemma OriginOfAdmitting(s: State, step: Step, c: CallbackId, e: ExchangeId)
    requires Inv(s) && Enabled(s, step) && Admitting(Apply(s, step), c, e)
    ensures Admitting(s, c, e) || Confirming(s, step, c, e)
  {
    var t := Apply(s, step);
    if HoldsFor(t, AtCallback(c), e) {
      OriginOfHeldAdmission(s, step, c);
    } else if Target(s, step) != Some(InComplete(c)) {
      OtherPlaces(s, step, InComplete(c));
    }
  }

  /** A taken transaction was in the table under the state the callback presented. */
  lemma OriginOfTaken(s: State, c: CallbackId, e: ExchangeId)
    requires Inv(s) && Enabled(s, OwnerTake(c)) && Undecided(Take(s, c), c, e)
    ensures Undecided(s, c, e) || TakingOver(s, OwnerTake(c), c, e)
  {
    assert CallbackOk(s.callbacks[c]);
    if AtCallback(c) in s.places { Sound(s, AtCallback(c)); }
    if InTable(s.callbacks[c].state) in s.places { Sound(s, InTable(s.callbacks[c].state)); }
  }

  lemma OriginOfUndecidedHere(s: State, step: Step, c: CallbackId, e: ExchangeId)
    requires Enabled(s, step) && CallbackOf(step) == Some(c) && !step.OwnerTake? && Undecided(Apply(s, step), c, e)
    ensures Undecided(s, c, e)
  {
  }

  lemma OriginOfUndecided(s: State, step: Step, c: CallbackId, e: ExchangeId)
    requires Inv(s) && Enabled(s, step) && Undecided(Apply(s, step), c, e)
    ensures Undecided(s, c, e) || TakingOver(s, step, c, e)
  {
    if step == OwnerTake(c) {
      OriginOfTaken(s, c, e);
    } else if CallbackOf(step) != Some(c) {
      OtherCallbacks(s, step, c);
      OtherPlaces(s, step, AtCallback(c));
    } else {
      OriginOfUndecidedHere(s, step, c, e);
    }
  }

  // ---- the steps that must have happened before ----

  lemma {:induction false} FindResponse(capacity: nat, states: seq<State>, steps: seq<Step>, k: nat, e: ExchangeId,
                                        p: Peer) returns (i: nat)
    requires Run(capacity, states, steps) && k <= |steps| && AtPc(states[k], e, Returned(WroteResolved(p)))
    ensures i < k && steps[i] == ExchangeRespond(e) && Answered(states[i], e, p)
  {
    i := k - 1;
    RunKeepsInv(capacity, states, steps, i);
    assert Enabled(states[i], steps[i]);
    OriginOfResponse(states[i], steps[i], e, p);
    if !Answered(states[i], e, p) {
      i := FindResponse(capacity, states, steps, i, e, p);
    }
  }

  lemma {:induction false} FindResolve(capacity: nat, states: seq<State>, steps: seq<Step>, k: nat, e: ExchangeId,
                                       p: Peer) returns (i: nat)
    requires Run(capacity, states, steps) && k <= |steps| && Answered(states[k], e, p)
    ensures i < k && Resolving(states[i], steps[i], e, p) && AtPc(states[i], e, AwaitingTarget)
  {
    i := k - 1;
    RunKeepsInv(capacity, states, steps, i);
    assert Enabled(states[i], steps[i]);
    OriginOfAnswer(states[i], steps[i], e, p);
    if Answered(states[i], e, p) {
      i := FindResolve(capacity, states, steps, i, e, p);
    }
  }

  lemma {:induction false} FindReceive(capacity: nat, states: seq<State>, steps: seq<Step>, k: nat, e: ExchangeId)
    returns (i: nat)
    requires Run(capacity, states, steps) && k <= |steps| && AtPc(states[k], e, AwaitingTarget)
    ensures i < k && Receiving(states[i], steps[i], e)
  {
    i := k - 1;
    RunKeepsInv(capacity, states, steps, i);
    assert Enabled(states[i], steps[i]);
    OriginOfResolution(states[i], steps[i], e);
    if AtPc(states[i], e, AwaitingTarget) {
      i := FindReceive(capacity, states, steps, i, e);
    }
  }

  lemma {:induction false} FindCommit(capacity: nat, states: seq<State>, steps: seq<Step>, k: nat, e: ExchangeId)
    returns (i: nat, c: CallbackId)
    requires Run(capacity, states, steps) && k <= |steps| && AdmittedOutcome(states[k], e)
    ensures i < k && Committing(states[i], steps[i], c, e)
  {
    i := k - 1;
    RunKeepsInv(capacity, states, steps, i);
    assert Enabled(states[i], steps[i]);
    c := OriginOfOutcome(states[i], steps[i], e);
    if AdmittedOutcome(states[i], e) {
      i, c := FindCommit(capacity, states, steps, i, e);
    }
  }

  lemma {:induction false} FindVerify(capacity: nat, states: seq<State>, steps: seq<Step>, k: nat, c: CallbackId,
                                      e: ExchangeId) returns (i: nat)
    requires Run(capacity, states, steps) && k <= |steps| && Admitting(states[k], c, e)
    ensures i < k && Confirming(states[i], steps[i], c, e)
  {
    i := k - 1;
    RunKeepsInv(capacity, states, steps, i);
    assert Enabled(states[i], steps[i]);
    OriginOfAdmitting(states[i], steps[i], c, e);
    if Admitting(states[i], c, e) {
      i := FindVerify(capacity, states, steps, i, c, e);
    }
  }

  lemma {:induction false} FindTake(capacity: nat, states: seq<State>, steps: seq<Step>, k: nat, c: CallbackId,
                                    e: ExchangeId) returns (i: nat)
    requires Run(capacity, states, steps) && k <= |steps| && Undecided(states[k], c, e)
    ensures i < k && TakingOver(states[i], steps[i], c, e)
  {
    i := k - 1;
    RunKeepsInv(capacity, states, steps, i);
    assert Enabled(states[i], steps[i]);
    OriginOfUndecided(states[i], steps[i], c, e);
    if Undecided(states[i], c, e) {
      i := FindTake(capacity, states, steps, i, c, e);
    }
  }

  /** The five steps behind one resolved response, in order. */
  datatype Evidence = Evidence(c: CallbackId, take: nat, verify: nat, commit: nat, receive: nat, resolve: nat)

  ghost predicate Justifies(states: seq<State>, steps: seq<Step>, k: nat, x: Exchange, e: ExchangeId, p: Peer,
                            w: Evidence)
    requires |states| == |steps| + 1
  {
    && w.take < w.verify < w.commit < w.receive < w.resolve < k <= |steps|
    && TakingOver(states[w.take], steps[w.take], w.c, e) && x.state == Some(states[w.take].callbacks[w.c].state)
    && Confirming(states[w.verify], steps[w.verify], w.c, e)
    && x.provider == Some(states[w.verify].callbacks[w.c].route)
    && Committing(states[w.commit], steps[w.commit], w.c, e)
    && Receiving(states[w.receive], steps[w.receive], e) && states[w.receive].clock < x.deadline
    && Resolving(states[w.resolve], steps[w.resolve], e, p) && x.locator in states[w.resolve].active
    && states[w.resolve].active[x.locator] == p
  }

  /**
   In every interleaving an exchange answers `Resolved(p)` only after, in this order: a callback that
   presented the exchange's own state took its transaction, the chosen provider confirmed membership on
   its own route, the owner committed the admission with no cancellation seen and before the callback
   deadline, the exchange received it before the session deadline, and the registry held an Active
   mapping from the exchange's locator to `p`.
   */
  lemma ResolvedIsJustified(capacity: nat, states: seq<State>, steps: seq<Step>, k: nat, e: ExchangeId, p: Peer)
    returns (w: Evidence)
    requires Run(capacity, states, steps) && k <= |steps| && AtPc(states[k], e, Returned(WroteResolved(p)))
    ensures Justifies(states, steps, k, states[k].exchanges[e], e, p, w)
  {
    var respond := FindResponse(capacity, states, steps, k, e, p);
    var resolve := FindResolve(capacity, states, steps, respond, e, p);
    var receive := FindReceive(capacity, states, steps, resolve, e);
    var commit, c := FindCommit(capacity, states, steps, receive, e);
    var verify := FindVerify(capacity, states, steps, commit, c, e);
    var take := FindTake(capacity, states, steps, verify, c, e);
    TransactionIsFixed(capacity, states, steps, e, take, k);
    TransactionIsFixed(capacity, states, steps, e, verify, k);
    TransactionIsFixed(capacity, states, steps, e, receive, k);
    TransactionIsFixed(capacity, states, steps, e, resolve, k);
    w := Evidence(c, take, verify, commit, receive, resolve);
  }

  // ---- consequences of the invariant ----

  /** A delivered completion is Admitted exactly when its session is Authenticated, and otherwise terminal. */
  lemma CompletionAgreesWithPhase(capacity: nat, states: seq<State>, steps: seq<Step>, k: nat, e: ExchangeId)
    requires Run(capacity, states, steps) && k <= |steps| && InOutcome(e) in states[k].places
    ensures var entry := states[k].places[InOutcome(e)];
            && entry.result.Some?
            && (entry.result == Some(ShowAdmitted) <==> entry.session.phase.Authenticated?)
            && (entry.result != Some(ShowAdmitted) ==> IsTerminal(entry.session.phase))
  {
    RunKeepsInv(capacity, states, steps, k);
    Sound(states[k], InOutcome(e));
  }

  lemma ReceiveSucceeds(s: State, e: ExchangeId)
    requires Inv(s) && Enabled(s, ExchangeReceive(e))
    ensures Receive(s, e).exchanges[e].pc != Returned(NothingWritten)
  {
    Sound(s, InOutcome(e));
  }

  lemma RespondSucceeds(s: State, e: ExchangeId)
    requires Inv(s) && Enabled(s, ExchangeRespond(e))
    ensures var target := s.exchanges[e].pc.target;
            Respond(s, e).exchanges[e].pc ==
              Returned(if target.Some? then WroteResolved(target.value) else WroteUnavailable)
  {
    Sound(s, AtExchange(e));
  }

  /** The exchange's own session calls never fail: it always has something to write. */
  lemma ExchangeCallsSucceed(capacity: nat, states: seq<State>, steps: seq<Step>, k: nat)
    requires Run(capacity, states, steps) && k < |steps|
    requires steps[k].ExchangeReceive? || steps[k].ExchangeRespond?
    ensures states[k + 1].exchanges[steps[k].e].pc != Returned(NothingWritten)
    ensures steps[k].ExchangeRespond? ==>
              var target := states[k].exchanges[steps[k].e].pc.target;
              states[k + 1].exchanges[steps[k].e].pc ==
                Returned(if target.Some? then WroteResolved(target.value) else WroteUnavailable)
  {
    var s, step := states[k], steps[k];
    RunKeepsInv(capacity, states, steps, k);
    if step.ExchangeReceive? {
      ReceiveSucceeds(s, step.e);
    } else {
      RespondSucceeds(s, step.e);
    }
  }

  lemma {:induction false} RunKeepsCapacity(capacity: nat, states: seq<State>, steps: seq<Step>, k: nat)
    requires Run(capacity, states, steps) && k <= |steps|
    ensures states[k].capacity == capacity
  {
    if k > 0 {
      RunKeepsCapacity(capacity, states, steps, k - 1);
      assert Enabled(states[k - 1], steps[k - 1]);
      StepKeepsCapacity(states[k - 1], steps[k - 1]);
    }
  }

  lemma StepKeepsCapacity(s: State, step: Step)
    requires Enabled(s, step)
    ensures Apply(s, step).capacity == s.capacity
  {
  }

  /** No session is ever in two places, the table keeps its bound, and a returned exchange leaves no slot behind. */
  lemma SessionsAreLinear(capacity: nat, states: seq<State>, steps: seq<Step>, k: nat)
    requires Run(capacity, states, steps) && k <= |steps|
    ensures Linear(states[k].places) && |TableSlots(states[k].places)| <= capacity
    ensures forall e, state: OAuthState | e in states[k].exchanges && InTable(state) in states[k].places ::
              states[k].exchanges[e].pc.Returned? ==>
                states[k].places[InTable(state)].owner != e && states[k].exchanges[e].state != Some(state)
  {
    var s := states[k];
    RunKeepsInv(capacity, states, steps, k);
    RunKeepsCapacity(capacity, states, steps, k);
    forall e, state: OAuthState | e in s.exchanges && s.exchanges[e].pc.Returned? && InTable(state) in s.places
      ensures s.places[InTable(state)].owner != e && s.exchanges[e].state != Some(state)
    {
      Sound(s, InTable(state));
    }
  }

  // ---- single use ----

  /** The transaction of `e` has not left the table yet. */
  predicate Early(s: State, e: ExchangeId) {
    && e in s.exchanges
    && var x := s.exchanges[e];
       || x.pc.Selecting? || x.pc.Registering?
       || (x.state.Some? && InTable(x.state.value) in s.places && s.places[InTable(x.state.value)].owner == e)
  }

  lemma SlotComesFromEarly(s: State, step: Step, e: ExchangeId, state: OAuthState)
    requires Inv(s) && Enabled(s, step) && e in s.exchanges && s.exchanges[e].state == Some(state)
    requires InTable(state) in Apply(s, step).places && Apply(s, step).places[InTable(state)].owner == e
    ensures Early(s, e)
  {
    if Target(s, step) != Some(InTable(state)) {
      OtherPlaces(s, step, InTable(state));
    } else {
      assert s.exchanges[step.e].state == Some(state);
    }
  }

  lemma EarlyComesFromEarly(s: State, step: Step, e: ExchangeId)
    requires Inv(s) && Enabled(s, step) && e in s.exchanges && Early(Apply(s, step), e)
    ensures Early(s, e)
  {
    if !s.exchanges[e].pc.Selecting? && !s.exchanges[e].pc.Registering? {
      StepKeepsTransaction(s, step, e);
      LateStaysLate(s, step, e);
      SlotComesFromEarly(s, step, e, s.exchanges[e].state.value);
    }
  }

  lemma LateStaysLate(s: State, step: Step, e: ExchangeId)
    requires Enabled(s, step) && e in s.exchanges && e in Apply(s, step).exchanges
    requires !s.exchanges[e].pc.Selecting? && !s.exchanges[e].pc.Registering?
    ensures !Apply(s, step).exchanges[e].pc.Selecting? && !Apply(s, step).exchanges[e].pc.Registering?
    ensures s.exchanges[e].state.None? ==> Apply(s, step).exchanges[e].state.None?
  {
    if ExchangeOf(step) != Some(e) {
      OtherExchanges(s, step, e);
    }
  }

  /** No verification of the session of `e` has finished yet. */
  ghost predicate Unverified(s: State, e: ExchangeId) {
    Early(s, e) || exists c :: Undecided(s, c, e)
  }

  lemma UnverifiedComesFromUnverified(s: State, step: Step, e: ExchangeId)
    requires Inv(s) && Enabled(s, step) && e in s.exchanges && Unverified(Apply(s, step), e)
    ensures Unverified(s, e)
  {
    if Early(Apply(s, step), e) {
      EarlyComesFromEarly(s, step, e);
    } else {
      var c :| Undecided(Apply(s, step), c, e);
      OriginOfUndecided(s, step, c, e);
    }
  }

  lemma EarlyBefore(capacity: nat, states: seq<State>, steps: seq<Step>, e: ExchangeId, j: nat)
    requires Run(capacity, states, steps) && j < |steps| && e in states[j].exchanges && Early(states[j + 1], e)
    ensures Early(states[j], e)
  {
    var s, step := states[j], steps[j];
    RunKeepsInv(capacity, states, steps, j);
    EarlyComesFromEarly(s, step, e);
  }

  /** Exchanges never disappear. */
  lemma StaysKnown(capacity: nat, states: seq<State>, steps: seq<Step>, e: ExchangeId, i: nat, j: nat)
    requires Run(capacity, states, steps) && i <= j <= |steps| && e in states[i].exchanges
    ensures e in states[j].exchanges
  {
    TransactionIsFixed(capacity, states, steps, e, i, j);
  }

  lemma {:induction false} TraceEarly(
    capacity: nat, states: seq<State>, steps: seq<Step>, e: ExchangeId, i: nat, j: nat)
    requires Run(capacity, states, steps) && i <= j <= |steps| && e in states[i].exchanges && Early(states[j], e)
    ensures Early(states[i], e)
    decreases j
  {
    if i < j {
      StaysKnown(capacity, states, steps, e, i, j - 1);
      EarlyBefore(capacity, states, steps, e, j - 1);
      TraceEarly(capacity, states, steps, e, i, j - 1);
    }
  }

  lemma UnverifiedBefore(capacity: nat, states: seq<State>, steps: seq<Step>, e: ExchangeId, j: nat)
    requires Run(capacity, states, steps) && j < |steps| && e in states[j].exchanges && Unverified(states[j + 1], e)
    ensures Unverified(states[j], e)
  {
    var s, step := states[j], steps[j];
    RunKeepsInv(capacity, states, steps, j);
    UnverifiedComesFromUnverified(s, step, e);
  }

  lemma {:induction false} TraceUnverified(
    capacity: nat, states: seq<State>, steps: seq<Step>, e: ExchangeId, i: nat, j: nat)
    requires Run(capacity, states, steps) && i <= j <= |steps| && e in states[i].exchanges && Unverified(states[j], e)
    ensures Unverified(states[i], e)
    decreases j
  {
    if i < j {
      StaysKnown(capacity, states, steps, e, i, j - 1);
      UnverifiedBefore(capacity, states, steps, e, j - 1);
      TraceUnverified(capacity, states, steps, e, i, j - 1);
    }
  }

  lemma TakeEndsEarly(s: State, c: CallbackId, e: ExchangeId)
    requires Inv(s) && Enabled(s, OwnerTake(c)) && TakingOver(s, OwnerTake(c), c, e)
    ensures Early(s, e) && !Early(Take(s, c), e)
  {
    Sound(s, InTable(s.callbacks[c].state));
  }

  /** `step` ends a verification of the session of `e`. */
  predicate FinishesVerification(s: State, step: Step, e: ExchangeId) {
    step.CallbackVerify? && AtCallback(step.c) in s.places && s.places[AtCallback(step.c)].owner == e
  }

  lemma VerifyEndsUnverified(s: State, step: Step, e: ExchangeId)
    requires Inv(s) && Enabled(s, step) && FinishesVerification(s, step, e)
    ensures e in s.exchanges && Unverified(s, e) && !Unverified(Apply(s, step), e)
  {
    var t := Apply(s, step);
    Sound(s, AtCallback(step.c));
    assert ExchangeOk(s, e);
    assert Undecided(s, step.c, e);
    StepKeepsInv(s, step);
    assert AtCallback(step.c) in t.places && t.places[AtCallback(step.c)].owner == e;
    if Early(t, e) {
      Sound(t, AtCallback(step.c));
      if InRegister(e) in t.places { Sound(t, InRegister(e)); }
      if AtExchange(e) in t.places { Sound(t, AtExchange(e)); }
      assert false;
    }
  }

  lemma TakeUsesUp(capacity: nat, states: seq<State>, steps: seq<Step>, e: ExchangeId, c: CallbackId, i: nat)
    requires Run(capacity, states, steps) && i < |steps| && TakingOver(states[i], steps[i], c, e)
    ensures Early(states[i], e) && e in states[i + 1].exchanges && !Early(states[i + 1], e)
  {
    RunKeepsInv(capacity, states, steps, i);
    TransactionIsFixed(capacity, states, steps, e, i, i + 1);
    assert Enabled(states[i], steps[i]);
    TakeEndsEarly(states[i], c, e);
  }

  lemma VerifyUsesUp(capacity: nat, states: seq<State>, steps: seq<Step>, e: ExchangeId, i: nat)
    requires Run(capacity, states, steps) && i < |steps| && FinishesVerification(states[i], steps[i], e)
    ensures Unverified(states[i], e) && e in states[i + 1].exchanges && !Unverified(states[i + 1], e)
  {
    RunKeepsInv(capacity, states, steps, i);
    assert Enabled(states[i], steps[i]);
    VerifyEndsUnverified(states[i], steps[i], e);
    TransactionIsFixed(capacity, states, steps, e, i, i + 1);
  }

  /** With fresh states a transaction is taken from the table at most once, whatever browsers replay. */
  lemma TakenAtMostOnce(capacity: nat, states: seq<State>, steps: seq<Step>, e: ExchangeId, c: CallbackId,
                        d: CallbackId, i: nat, j: nat)
    requires Run(capacity, states, steps) && i <= j < |steps|
    requires TakingOver(states[i], steps[i], c, e) && TakingOver(states[j], steps[j], d, e)
    ensures i == j && c == d
  {
    TakeUsesUp(capacity, states, steps, e, c, i);
    TakeUsesUp(capacity, states, steps, e, d, j);
    if i < j {
      TraceEarly(capacity, states, steps, e, i + 1, j);
    }
  }

  /** At most one verification of a transaction ever finishes. */
  lemma VerifiedAtMostOnce(capacity: nat, states: seq<State>, steps: seq<Step>, e: ExchangeId, i: nat, j: nat)
    requires Run(capacity, states, steps) && i <= j < |steps|
    requires FinishesVerification(states[i], steps[i], e) && FinishesVerification(states[j], steps[j], e)
    ensures i == j
  {
    VerifyUsesUp(capacity, states, steps, e, i);
    VerifyUsesUp(capacity, states, steps, e, j);
    if i < j {
      TraceUnverified(capacity, states, steps, e, i + 1, j);
    }
  }

  /** The transaction of `e` is in the table. */
  predicate Registered(s: State, e: ExchangeId) {
    && e in s.exchanges && s.exchanges[e].state.Some?
    && InTable(s.exchanges[e].state.value) in s.places && s.places[InTable(s.exchanges[e].state.value)].owner == e
  }

  predicate IsLate(s: State, e: ExchangeId) {
    e in s.exchanges && !s.exchanges[e].pc.Selecting? && !s.exchanges[e].pc.Registering?
  }

  lemma {:induction false} LateForEver(
    capacity: nat, states: seq<State>, steps: seq<Step>, e: ExchangeId, i: nat, j: nat)
    requires Run(capacity, states, steps) && i <= j <= |steps| && IsLate(states[i], e)
    ensures IsLate(states[j], e)
    decreases j
  {
    if i < j {
      LateForEver(capacity, states, steps, e, i, j - 1);
      StaysKnown(capacity, states, steps, e, j - 1, j);
      var s, step := states[j - 1], steps[j - 1];
      LateStaysLate(s, step, e);
    }
  }

  /** A registration leaves the table at most once, taken, removed or swept, and never returns. */
  lemma RegistrationNeverReturns(
    capacity: nat, states: seq<State>, steps: seq<Step>, e: ExchangeId, i: nat, k: nat, j: nat)
    requires Run(capacity, states, steps) && i <= k <= j <= |steps|
    requires Registered(states[i], e) && !Registered(states[k], e)
    ensures !Registered(states[j], e)
  {
    RunKeepsInv(capacity, states, steps, i);
    Sound(states[i], InTable(states[i].exchanges[e].state.value));
    LateForEver(capacity, states, steps, e, i, k);
    if Registered(states[j], e) {
      TraceEarly(capacity, states, steps, e, k, j);
    }
  }

  // ---- one verification ----

  /** Callback `c` holds the transaction of `e` and has not looked at its route. */
  predicate Unrouted(s: State, c: CallbackId, e: ExchangeId) {
    CallbackAt(s, c, Holding) && s.places[AtCallback(c)].owner == e
  }

  ghost predicate Unstarted(s: State, e: ExchangeId) {
    Early(s, e) || exists c :: Unrouted(s, c, e)
  }

  lemma OnlyTakesStartHolding(s: State, step: Step, c: CallbackId)
    requires Enabled(s, step) && CallbackOf(step) == Some(c) && !step.OwnerComplete? && !step.OwnerTake?
    ensures c in Apply(s, step).callbacks && !Apply(s, step).callbacks[c].pc.Holding?
  {
  }

  lemma OriginOfHolding(s: State, step: Step, c: CallbackId)
    requires Inv(s) && Enabled(s, step) && CallbackOf(step) == Some(c) && CallbackAt(Apply(s, step), c, Holding)
    ensures step == OwnerTake(c)
  {
    if step.OwnerComplete? {
      Sound(s, InComplete(c));
    } else if !step.OwnerTake? {
      OnlyTakesStartHolding(s, step, c);
    }
  }

  lemma OriginOfUnrouted(s: State, step: Step, c: CallbackId, e: ExchangeId)
    requires Inv(s) && Enabled(s, step) && Unrouted(Apply(s, step), c, e)
    ensures Unrouted(s, c, e) || TakingOver(s, step, c, e)
  {
    if CallbackOf(step) == Some(c) {
      OriginOfHolding(s, step, c);
      OriginOfTaken(s, c, e);
      TakenIsNew(s, c, e);
    } else {
      OtherCallbacks(s, step, c);
      OtherPlaces(s, step, AtCallback(c));
    }
  }

  /** A callback that still has its request queued holds nothing. */
  lemma TakenIsNew(s: State, c: CallbackId, e: ExchangeId)
    requires Inv(s) && Enabled(s, OwnerTake(c))
    ensures !Undecided(s, c, e)
  {
    assert CallbackOk(s.callbacks[c]);
  }

  lemma UnstartedBefore(s: State, step: Step, e: ExchangeId)
    requires Inv(s) && Enabled(s, step) && e in s.exchanges && Unstarted(Apply(s, step), e)
    ensures Unstarted(s, e)
  {
    if Early(Apply(s, step), e) {
      EarlyComesFromEarly(s, step, e);
    } else {
      var c :| Unrouted(Apply(s, step), c, e);
      OriginOfUnrouted(s, step, c, e);
    }
  }

  lemma {:induction false} TraceUnstarted(
    capacity: nat, states: seq<State>, steps: seq<Step>, e: ExchangeId, i: nat, j: nat)
    requires Run(capacity, states, steps) && i <= j <= |steps| && e in states[i].exchanges && Unstarted(states[j], e)
    ensures Unstarted(states[i], e)
    decreases j
  {
    if i < j {
      StaysKnown(capacity, states, steps, e, i, j - 1);
      RunKeepsInv(capacity, states, steps, j - 1);
      var s, step := states[j - 1], steps[j - 1];
      UnstartedBefore(s, step, e);
      TraceUnstarted(capacity, states, steps, e, i, j - 1);
    }
  }

  /** `step` starts a verification of the session of `e`. */
  predicate StartsVerification(s: State, step: Step, e: ExchangeId) {
    step.CallbackRoute? && Unrouted(s, step.c, e) && s.callbacks[step.c].authorization.Code?
    && s.places[AtCallback(step.c)].session.provider == Some(s.callbacks[step.c].route)
  }

  lemma HolderIsNotEarly(s: State, c: CallbackId, e: ExchangeId)
    requires Inv(s) && AtCallback(c) in s.places && s.places[AtCallback(c)].owner == e
    ensures e in s.exchanges && !Early(s, e)
  {
    Sound(s, AtCallback(c));
    assert ExchangeOk(s, e);
    if InRegister(e) in s.places { Sound(s, InRegister(e)); }
    if AtExchange(e) in s.places { Sound(s, AtExchange(e)); }
  }

  lemma StartEndsUnstarted(s: State, step: Step, e: ExchangeId)
    requires Inv(s) && Enabled(s, step) && StartsVerification(s, step, e)
    ensures e in s.exchanges && Unstarted(s, e) && !Unstarted(Apply(s, step), e)
  {
    var t := Apply(s, step);
    StepKeepsInv(s, step);
    HolderIsNotEarly(s, step.c, e);
    assert t == Route(s, step.c) == SetCallbackPc(s, step.c, Verifying);
    HolderIsNotEarly(t, step.c, e);
  }

  lemma StartUsesUp(capacity: nat, states: seq<State>, steps: seq<Step>, e: ExchangeId, i: nat)
    requires Run(capacity, states, steps) && i < |steps| && StartsVerification(states[i], steps[i], e)
    ensures Unstarted(states[i], e) && e in states[i + 1].exchanges && !Unstarted(states[i + 1], e)
  {
    RunKeepsInv(capacity, states, steps, i);
    var s, step := states[i], steps[i];
    StartEndsUnstarted(s, step, e);
    StaysKnown(capacity, states, steps, e, i, i + 1);
  }

  /** At most one verification of a transaction ever starts. */
  lemma StartedAtMostOnce(capacity: nat, states: seq<State>, steps: seq<Step>, e: ExchangeId, i: nat, j: nat)
    requires Run(capacity, states, steps) && i <= j < |steps|
    requires StartsVerification(states[i], steps[i], e) && StartsVerification(states[j], steps[j], e)
    ensures i == j
  {
    StartUsesUp(capacity, states, steps, e, i);
    StartUsesUp(capacity, states, steps, e, j);
    if i < j {
      TraceUnstarted(capacity, states, steps, e, i + 1, j);
    }
  }

  // ---- what the browser may conclude ----

  predicate ShowsAdmitted(s: State, c: CallbackId) {
    c in s.callbacks && s.callbacks[c].pc == Shown(ShowAdmitted)
  }

  lemma CommitDisplaysAdmission(s: State, c: CallbackId)
    requires Inv(s) && Enabled(s, OwnerComplete(c)) && ShowsAdmitted(Commit(s, c), c)
    ensures ShowsAdmitted(s, c) || Committing(s, OwnerComplete(c), c, s.places[InComplete(c)].owner)
  {
    Sound(s, InComplete(c));
  }

  lemma OtherStepsDisplayNoAdmission(s: State, step: Step, c: CallbackId)
    requires Enabled(s, step) && CallbackOf(step) == Some(c) && !step.OwnerComplete? && ShowsAdmitted(Apply(s, step), c)
    ensures ShowsAdmitted(s, c)
  {
  }

  lemma OriginOfDisplay(s: State, step: Step, c: CallbackId)
    requires Inv(s) && Enabled(s, step) && ShowsAdmitted(Apply(s, step), c)
    ensures ShowsAdmitted(s, c) || (InComplete(c) in s.places && Committing(s, step, c, s.places[InComplete(c)].owner))
  {
    if CallbackOf(step) != Some(c) {
      OtherCallbacks(s, step, c);
    } else if step.OwnerComplete? {
      CommitDisplaysAdmission(s, c);
    } else {
      OtherStepsDisplayNoAdmission(s, step, c);
    }
  }

  /** A browser is shown Admitted only after the owner committed that admission for some exchange. */
  lemma {:induction false} AdmittedPageMeansCommitted(capacity: nat, states: seq<State>, steps: seq<Step>, k: nat,
                                                      c: CallbackId)
    returns (i: nat, e: ExchangeId)
    requires Run(capacity, states, steps) && k <= |steps| && ShowsAdmitted(states[k], c)
    ensures i < k && Committing(states[i], steps[i], c, e)
  {
    i, e := k - 1, 0;
    RunKeepsInv(capacity, states, steps, i);
    assert Enabled(states[i], steps[i]);
    OriginOfDisplay(states[i], steps[i], c);
    if ShowsAdmitted(states[i], c) {
      i, e := AdmittedPageMeansCommitted(capacity, states, steps, i, c);
    } else {
      e := states[i].places[InComplete(c)].owner;
    }
  }
}
