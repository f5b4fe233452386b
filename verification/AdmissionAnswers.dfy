/** What the answers of an exchange and the pages of a callback mean, in every interleaving. */
module AdmissionAnswers {
  import opened Common
  import opened EnterpriseSession
  import opened AdmissionModel
  import opened AdmissionInvariant
  import opened AdmissionSteps
  import opened AdmissionTheorems
  import CallbackTable

  // ---- what an exchange writes ----

  /** The exchange has decided what to write, or has written it. */
  predicate Writes(s: State, e: ExchangeId, w: Written) {
    && e in s.exchanges
    && var pc := s.exchanges[e].pc;
       pc == Removing(w) || pc == Removed(w) || pc == Returned(w)
  }

  /** The unexpired slots of the table when the exchange asked to register. */
  function LiveSlots(s: State, e: ExchangeId): set<OAuthState>
    requires e in s.exchanges
  {
    set p | p in s.places && p.InTable? && s.places[p].deadline > s.exchanges[e].sentAt :: p.state
  }

  /** There is no room for the exchange's registration. */
  predicate NoRoom(s: State, e: ExchangeId)
    requires e in s.exchanges && s.exchanges[e].state.Some?
  {
    s.exchanges[e].state.value in LiveSlots(s, e) || |LiveSlots(s, e)| >= s.capacity
  }

  /** The completion the exchange is about to look at. */
  predicate Receives(s: State, step: Step, e: ExchangeId) {
    step == ExchangeReceive(e) && e in s.exchanges && InOutcome(e) in s.places
  }

  /** Why an exchange writes what it writes. */
  predicate Causes(s: State, step: Step, e: ExchangeId, w: Written) {
    && e in s.exchanges
    && match w
       case WroteExpired =>
         && s.clock >= s.exchanges[e].deadline
         && (step == ExchangeTimeout(e)
             || (Receives(s, step, e) && s.places[InOutcome(e)].session.phase.Authenticated?))
       case WroteFailed =>
         || step == ExchangeAbort(e, true) || step == ExchangeLost(e)
         || (step == OwnerRegister(e) && s.exchanges[e].state.Some? && NoRoom(s, e))
         || (Receives(s, step, e) && IsTerminal(s.places[InOutcome(e)].session.phase))
       case WroteUnavailable => step == ExchangeRespond(e) && s.exchanges[e].pc == GotTarget(None)
       case WroteResolved(p) => step == ExchangeRespond(e) && s.exchanges[e].pc == GotTarget(Some(p))
       case NothingWritten =>
         step == ExchangeAbort(e, false) || step == ExchangeAnnounce(e, false) || step == ExchangePeerClosed(e)
  }

  lemma SlotsAgree(s: State, e: ExchangeId)
    requires e in s.exchanges
    ensures forall state: OAuthState :: InTable(state) in Swept(s.places, s.exchanges[e].sentAt) <==>
              state in LiveSlots(s, e)
    ensures |TableSlots(Swept(s.places, s.exchanges[e].sentAt))| == |LiveSlots(s, e)|
  {
    var slots := TableSlots(Swept(s.places, s.exchanges[e].sentAt));
    CallbackTable.SlotStates(slots, LiveSlots(s, e));
  }

  /** What an exchange does with its completion, from the delivered session and the clock alone. */
  lemma ReceiveNext(s: State, e: ExchangeId)
    requires Inv(s) && Enabled(s, ExchangeReceive(e))
    ensures var phase, t := s.places[InOutcome(e)].session.phase, Receive(s, e);
            && (IsTerminal(phase) || phase.Authenticated?)
            && (IsTerminal(phase) ==> AtPc(t, e, Returned(WroteFailed)))
            && (phase.Authenticated? && s.clock >= s.exchanges[e].deadline ==> AtPc(t, e, Returned(WroteExpired)))
            && (phase.Authenticated? && s.clock < s.exchanges[e].deadline ==> AtPc(t, e, AwaitingTarget))
  {
    Sound(s, InOutcome(e));
  }

  lemma ReceiveHasCause(s: State, e: ExchangeId, w: Written)
    requires Inv(s) && Enabled(s, ExchangeReceive(e))
    ensures Writes(Receive(s, e), e, w) <==> Causes(s, ExchangeReceive(e), e, w)
  {
    ReceiveNext(s, e);
  }

  lemma RegisterHasCause(s: State, e: ExchangeId, w: Written)
    requires Inv(s) && Enabled(s, OwnerRegister(e))
    ensures Writes(Register(s, e), e, w) <==> Causes(s, OwnerRegister(e), e, w)
  {
    SlotsAgree(s, e);
  }

  lemma RespondHasCause(s: State, e: ExchangeId, w: Written)
    requires Inv(s) && Enabled(s, ExchangeRespond(e))
    ensures Writes(Respond(s, e), e, w) <==> Causes(s, ExchangeRespond(e), e, w)
  {
    RespondSucceeds(s, e);
  }

  /** The steps that carry an answer on without choosing it. */
  predicate CarriesOn(step: Step) {
    step.OwnerRemove? || step.ExchangeFinishRemove?
  }

  /** The steps by which an exchange leaves its registration. */
  predicate Leaves(step: Step) {
    step.ExchangeAnnounce? || step.ExchangeTimeout? || step.ExchangePeerClosed?
  }

  lemma LeaveHasCause(s: State, step: Step, e: ExchangeId, w: Written)
    requires Enabled(s, step) && ExchangeOf(step) == Some(e) && Leaves(step)
    ensures Writes(Apply(s, step), e, w) <==> Causes(s, step, e, w)
  {
    assert Apply(s, step).exchanges[e].pc ==
           if step == ExchangeAnnounce(e, true) then Waiting
           else Removing(if step.ExchangeTimeout? then WroteExpired else NothingWritten);
  }

  /** The steps by which an exchange gives up at once. */
  lemma FailureHasCause(s: State, step: Step, e: ExchangeId, w: Written)
    requires Enabled(s, step) && ExchangeOf(step) == Some(e) && (step.ExchangeAbort? || step.ExchangeLost?)
    ensures Writes(Apply(s, step), e, w) <==> Causes(s, step, e, w)
  {
    assert Apply(s, step).exchanges[e].pc ==
           Returned(if step == ExchangeAbort(e, false) then NothingWritten else WroteFailed);
  }

  /** The steps by which an exchange goes on. */
  lemma GoingOnWritesNothing(s: State, step: Step, e: ExchangeId, w: Written)
    requires Enabled(s, step) && ExchangeOf(step) == Some(e)
    requires step.ExchangeBegin? || step.ExchangeSelect? || step.OwnerResolve?
    ensures !Writes(Apply(s, step), e, w) && !Causes(s, step, e, w)
  {
  }

  lemma CarryingOnKeepsAnswer(s: State, step: Step, e: ExchangeId, w: Written)
    requires Enabled(s, step) && ExchangeOf(step) == Some(e) && CarriesOn(step)
    ensures Writes(Apply(s, step), e, w) <==> Writes(s, e, w)
  {
  }

  /** A step of an exchange makes it write `w` exactly when it is a cause of `w`, or carries `w` on. */
  lemma AnswerHasCause(s: State, step: Step, e: ExchangeId, w: Written)
    requires Inv(s) && Enabled(s, step) && ExchangeOf(step) == Some(e)
    ensures Writes(Apply(s, step), e, w) <==> Causes(s, step, e, w) || (CarriesOn(step) && Writes(s, e, w))
  {
    if step.ExchangeReceive? {
      ReceiveHasCause(s, e, w);
    } else if step.OwnerRegister? {
      RegisterHasCause(s, e, w);
    } else if step.ExchangeRespond? {
      RespondHasCause(s, e, w);
    } else if CarriesOn(step) {
      CarryingOnKeepsAnswer(s, step, e, w);
    } else if Leaves(step) {
      LeaveHasCause(s, step, e, w);
    } else if step.ExchangeAbort? || step.ExchangeLost? {
      FailureHasCause(s, step, e, w);
    } else {
      GoingOnWritesNothing(s, step, e, w);
    }
  }

  lemma WritesBefore(s: State, step: Step, e: ExchangeId, w: Written)
    requires Inv(s) && Enabled(s, step) && Writes(Apply(s, step), e, w)
    ensures Writes(s, e, w) || Causes(s, step, e, w)
  {
    if ExchangeOf(step) == Some(e) {
      AnswerHasCause(s, step, e, w);
    } else {
      OtherExchanges(s, step, e);
    }
  }

  /** Every answer has its cause: what the exchange wrote follows from what happened to it. */
  lemma {:induction false} AnswersAreJustified(
    capacity: nat, states: seq<State>, steps: seq<Step>, k: nat, e: ExchangeId, w: Written) returns (i: nat)
    requires Run(capacity, states, steps) && k <= |steps| && Writes(states[k], e, w)
    ensures i < k && Causes(states[i], steps[i], e, w)
  {
    i := k - 1;
    RunKeepsInv(capacity, states, steps, i);
    var s, step := states[i], steps[i];
    WritesBefore(s, step, e, w);
    if !Causes(s, step, e, w) {
      i := AnswersAreJustified(capacity, states, steps, i, e, w);
    }
  }

  /** A completion is answered by its session: terminal fails, authenticated expires or goes on by the deadline. */
  lemma ReceiveAnswers(capacity: nat, states: seq<State>, steps: seq<Step>, k: nat, e: ExchangeId)
    requires Run(capacity, states, steps) && k < |steps| && steps[k] == ExchangeReceive(e)
    ensures InOutcome(e) in states[k].places && e in states[k].exchanges
    ensures var s, t, phase := states[k], states[k + 1], states[k].places[InOutcome(e)].session.phase;
            && (IsTerminal(phase) || phase.Authenticated?)
            && (IsTerminal(phase) ==> AtPc(t, e, Returned(WroteFailed)))
            && (phase.Authenticated? && s.clock >= s.exchanges[e].deadline ==> AtPc(t, e, Returned(WroteExpired)))
            && (phase.Authenticated? && s.clock < s.exchanges[e].deadline ==> AtPc(t, e, AwaitingTarget))
  {
    RunKeepsInv(capacity, states, steps, k);
    var s, step := states[k], steps[k];
    ReceiveNext(s, e);
  }

  lemma ClockStep(s: State, step: Step)
    requires Enabled(s, step)
    ensures s.clock <= Apply(s, step).clock
  {
  }

  lemma {:induction false} ClockGoesOn(capacity: nat, states: seq<State>, steps: seq<Step>, i: nat, j: nat)
    requires Run(capacity, states, steps) && i <= j <= |steps|
    ensures states[i].clock <= states[j].clock
    decreases j
  {
    if i < j {
      ClockGoesOn(capacity, states, steps, i, j - 1);
      var s, step := states[j - 1], steps[j - 1];
      ClockStep(s, step);
    }
  }

  /** Expired is written only once the deadline of the session has passed. */
  lemma ExpiredMeansDeadline(capacity: nat, states: seq<State>, steps: seq<Step>, k: nat, e: ExchangeId)
    requires Run(capacity, states, steps) && k <= |steps| && AtPc(states[k], e, Returned(WroteExpired))
    ensures states[k].clock >= states[k].exchanges[e].deadline
  {
    var i := AnswersAreJustified(capacity, states, steps, k, e, WroteExpired);
    TransactionIsFixed(capacity, states, steps, e, i, k);
    ClockGoesOn(capacity, states, steps, i, k);
  }

  predicate AnsweredNone(s: State, e: ExchangeId) {
    AtPc(s, e, GotTarget(None))
  }

  lemma OriginOfNone(s: State, step: Step, e: ExchangeId)
    requires Inv(s) && Enabled(s, step) && AnsweredNone(Apply(s, step), e)
    ensures AnsweredNone(s, e) || (step == OwnerResolve(e) && e in s.exchanges && s.exchanges[e].locator !in s.active)
  {
    if ExchangeOf(step) != Some(e) {
      OtherExchanges(s, step, e);
    } else if step.OwnerResolve? {
      Sound(s, AtExchange(e));
    }
  }

  lemma {:induction false} FindNone(capacity: nat, states: seq<State>, steps: seq<Step>, k: nat, e: ExchangeId)
    returns (i: nat)
    requires Run(capacity, states, steps) && k <= |steps| && AnsweredNone(states[k], e)
    ensures i < k && steps[i] == OwnerResolve(e) && e in states[i].exchanges
    ensures states[i].exchanges[e].locator !in states[i].active
  {
    i := k - 1;
    RunKeepsInv(capacity, states, steps, i);
    var s, step := states[i], steps[i];
    OriginOfNone(s, step, e);
    if AnsweredNone(s, e) {
      i := FindNone(capacity, states, steps, i, e);
    }
  }

  /** Unavailable is written only after the registry held no Active mapping for the exchange's locator. */
  lemma UnavailableMeansNoMapping(
    capacity: nat, states: seq<State>, steps: seq<Step>, k: nat, e: ExchangeId) returns (i: nat)
    requires Run(capacity, states, steps) && k <= |steps| && AtPc(states[k], e, Returned(WroteUnavailable))
    ensures i < k && steps[i] == OwnerResolve(e) && states[k].exchanges[e].locator !in states[i].active
  {
    var respond := AnswersAreJustified(capacity, states, steps, k, e, WroteUnavailable);
    i := FindNone(capacity, states, steps, respond, e);
    TransactionIsFixed(capacity, states, steps, e, i, k);
  }

  // ---- what a callback decides and shows ----

  datatype Decision = Decision(result: CallbackResult, phase: Phase)

  const ADMIT: Decision := Decision(ShowAdmitted, Authenticated)
  const REJECT: Decision := Decision(ShowRejected, Failed(UserRejected))
  const INVALID: Decision := Decision(ShowInvalid, Failed(InvalidState))
  const PLATFORM: Decision := Decision(ShowPlatform, Failed(Platform))
  const CANCEL: Decision := Decision(ShowInvalid, Cancelled)

  /** The transaction at a place carries this decision: what to show, and how its session stands. */
  predicate Carries(s: State, p: Place, d: Decision) {
    p in s.places && s.places[p].result == Some(d.result) && s.places[p].session.phase == d.phase
  }

  /** The decision each outcome of a verification stands for. */
  function DecisionOn(v: Verification): Decision {
    match v
    case Verified(_) => ADMIT
    case InvalidCode => INVALID
    case RejectedMember => REJECT
    case ProviderError => PLATFORM
    case SawCancellation => CANCEL
    case HitDeadline => PLATFORM
  }

  lemma VerifiedAdmits(s: State, c: CallbackId, member: Identity)
    requires Inv(s) && Enabled(s, CallbackVerify(c, Verified(member)))
    ensures Carries(Verify(s, c, Verified(member)), AtCallback(c), ADMIT)
  {
    Sound(s, AtCallback(c));
  }

  lemma VerifyDecides(s: State, c: CallbackId, v: Verification)
    requires Inv(s) && Enabled(s, CallbackVerify(c, v))
    ensures Carries(Verify(s, c, v), AtCallback(c), DecisionOn(v))
  {
    if v.Verified? {
      VerifiedAdmits(s, c, v.member);
    } else {
      Sound(s, AtCallback(c));
    }
  }

  /** In every run a finished verification decides as its outcome says. */
  lemma VerificationDecides(
    capacity: nat, states: seq<State>, steps: seq<Step>, k: nat, c: CallbackId, v: Verification)
    requires Run(capacity, states, steps) && k < |steps| && steps[k] == CallbackVerify(c, v)
    ensures Carries(states[k + 1], AtCallback(c), DecisionOn(v))
  {
    RunKeepsInv(capacity, states, steps, k);
    var s, step := states[k], steps[k];
    VerifyDecides(s, c, v);
  }

  lemma RouteStep(s: State, c: CallbackId)
    requires Inv(s) && Enabled(s, CallbackRoute(c))
    ensures AtCallback(c) in s.places && s.places[AtCallback(c)].owner in s.exchanges && c in s.callbacks
    ensures var k, own := s.callbacks[c], s.exchanges[s.places[AtCallback(c)].owner].provider;
            var t := Route(s, c);
            && (own != Some(k.route) ==> Carries(t, AtCallback(c), INVALID))
            && (own == Some(k.route) && k.authorization.Denied? ==> Carries(t, AtCallback(c), REJECT))
            && (own == Some(k.route) && k.authorization.ProviderFailed? ==> Carries(t, AtCallback(c), PLATFORM))
            && (t.callbacks[c].pc.Verifying? <==> own == Some(k.route) && k.authorization.Code?)
  {
    Sound(s, AtCallback(c));
  }

  /** In every run a callback on a foreign route is invalid, and on its own route decided by what it brings. */
  lemma RouteDecides(capacity: nat, states: seq<State>, steps: seq<Step>, k: nat, c: CallbackId)
    requires Run(capacity, states, steps) && k < |steps| && steps[k] == CallbackRoute(c)
    ensures var s, t := states[k], states[k + 1];
            && AtCallback(c) in s.places && s.places[AtCallback(c)].owner in s.exchanges
            && c in s.callbacks && c in t.callbacks
            && var x, own := s.callbacks[c], s.exchanges[s.places[AtCallback(c)].owner].provider;
               && (own != Some(x.route) ==> Carries(t, AtCallback(c), INVALID))
               && (own == Some(x.route) && x.authorization.Denied? ==> Carries(t, AtCallback(c), REJECT))
               && (own == Some(x.route) && x.authorization.ProviderFailed? ==> Carries(t, AtCallback(c), PLATFORM))
               && (t.callbacks[c].pc.Verifying? <==> own == Some(x.route) && x.authorization.Code?)
  {
    RunKeepsInv(capacity, states, steps, k);
    var s, step := states[k], steps[k];
    RouteStep(s, c);
  }

  /** The step at which callback `c` was refused: denied by the user, or no active member. */
  predicate Refuses(s: State, step: Step, c: CallbackId) {
    || (step == CallbackRoute(c) && c in s.callbacks && s.callbacks[c].authorization.Denied?)
    || step == CallbackVerify(c, RejectedMember)
  }

  predicate HoldsRejection(s: State, c: CallbackId) {
    || (AtCallback(c) in s.places && s.places[AtCallback(c)].result == Some(ShowRejected))
    || (InComplete(c) in s.places && s.places[InComplete(c)].result == Some(ShowRejected))
    || (c in s.callbacks && s.callbacks[c].pc == Shown(ShowRejected))
  }

  lemma TakeHoldsNoRejection(s: State, c: CallbackId)
    requires Inv(s) && Enabled(s, OwnerTake(c)) && HoldsRejection(Take(s, c), c)
    ensures HoldsRejection(s, c)
  {
    if InTable(s.callbacks[c].state) in s.places { Sound(s, InTable(s.callbacks[c].state)); }
  }

  lemma VerifyRejects(s: State, c: CallbackId, v: Verification)
    requires Inv(s) && Enabled(s, CallbackVerify(c, v)) && HoldsRejection(Verify(s, c, v), c)
    ensures HoldsRejection(s, c) || v == RejectedMember
  {
    VerifyDecides(s, c, v);
  }

  lemma RouteRejects(s: State, c: CallbackId)
    requires Inv(s) && Enabled(s, CallbackRoute(c)) && HoldsRejection(Route(s, c), c)
    ensures HoldsRejection(s, c) || s.callbacks[c].authorization.Denied?
  {
    RouteStep(s, c);
  }

  lemma CommitKeepsRejection(s: State, c: CallbackId)
    requires Inv(s) && Enabled(s, OwnerComplete(c)) && HoldsRejection(Commit(s, c), c)
    ensures HoldsRejection(s, c)
  {
    CommitStep(s, c);
    Sound(s, InComplete(c));
  }

  lemma TimeoutHoldsNoRejection(s: State, c: CallbackId)
    requires Inv(s) && Enabled(s, CallbackFinishTimeout(c))
    ensures !HoldsRejection(FinishTimeout(s, c), c)
  {
    TimeoutStep(s, c);
    if InComplete(c) in s.places {
      Sound(s, InComplete(c));
    }
  }

  /** The steps of a callback that move its session along or let it go. */
  predicate IsHandover(step: Step) {
    step.CallbackSendComplete? || step.CallbackDrop? || step.CallbackBegin?
  }

  lemma HandoverKeepsRejection(s: State, step: Step, c: CallbackId)
    requires Inv(s) && Enabled(s, step) && CallbackOf(step) == Some(c) && IsHandover(step)
    requires HoldsRejection(Apply(s, step), c)
    ensures HoldsRejection(s, c)
  {
    if step.CallbackBegin? {
      if AtCallback(c) in s.places { Sound(s, AtCallback(c)); }
    }
  }

  lemma OtherStepsKeepRejection(s: State, step: Step, c: CallbackId)
    requires Enabled(s, step) && CallbackOf(step) != Some(c) && HoldsRejection(Apply(s, step), c)
    ensures HoldsRejection(s, c)
  {
    OtherCallbacks(s, step, c);
    if AtCallback(c) in Apply(s, step).places { OtherPlaces(s, step, AtCallback(c)); }
    if InComplete(c) in Apply(s, step).places { OtherPlaces(s, step, InComplete(c)); }
  }

  lemma RejectionHasCause(s: State, step: Step, c: CallbackId)
    requires Inv(s) && Enabled(s, step) && HoldsRejection(Apply(s, step), c)
    ensures HoldsRejection(s, c) || Refuses(s, step, c)
  {
    if CallbackOf(step) != Some(c) {
      OtherStepsKeepRejection(s, step, c);
    } else if step.OwnerTake? {
      TakeHoldsNoRejection(s, c);
    } else if step.CallbackVerify? {
      VerifyRejects(s, c, step.verification);
    } else if step.CallbackRoute? {
      RouteRejects(s, c);
    } else if step.OwnerComplete? {
      CommitKeepsRejection(s, c);
    } else if step.CallbackFinishTimeout? {
      TimeoutHoldsNoRejection(s, c);
    } else {
      HandoverKeepsRejection(s, step, c);
    }
  }

  /** A browser is shown Rejected only after the user denied access or the provider refused the member. */
  lemma {:induction false} RejectedPageMeansRefused(
    capacity: nat, states: seq<State>, steps: seq<Step>, k: nat, c: CallbackId) returns (i: nat)
    requires Run(capacity, states, steps) && k <= |steps| && HoldsRejection(states[k], c)
    ensures i < k && Refuses(states[i], steps[i], c)
  {
    i := k - 1;
    RunKeepsInv(capacity, states, steps, i);
    var s, step := states[i], steps[i];
    RejectionHasCause(s, step, c);
    if HoldsRejection(s, c) {
      i := RejectedPageMeansRefused(capacity, states, steps, i, c);
    }
  }

  /** The result the owner commits: a cancellation first, then the callback deadline, then what was decided. */
  function CommittedResult(s: State, c: CallbackId): Option<CallbackResult>
    requires c in s.callbacks && InComplete(c) in s.places
  {
    var entry := s.places[InComplete(c)];
    if entry.owner in s.exchanges && !s.exchanges[entry.owner].signalled then
      if s.clock >= s.callbacks[c].deadline then Some(ShowPlatform) else entry.result
    else Some(ShowInvalid)
  }

  lemma CommitStep(s: State, c: CallbackId)
    requires Inv(s) && Enabled(s, OwnerComplete(c))
    ensures var e, t := s.places[InComplete(c)].owner, Commit(s, c);
            && (Listening(s, e) ==> InOutcome(e) in t.places && t.places[InOutcome(e)].result == CommittedResult(s, c))
            && (s.callbacks[c].pc == Completing(false) ==>
                  CommittedResult(s, c).Some? && t.callbacks[c].pc == Shown(CommittedResult(s, c).value))
            && (s.callbacks[c].pc == Completing(true) ==> t.callbacks[c].pc == Shown(ShowInvalid))
  {
    Sound(s, InComplete(c));
  }

  /** In every run exchange and browser get the result the owner committed, and a foreign route is shown invalid. */
  lemma CommitDecides(capacity: nat, states: seq<State>, steps: seq<Step>, k: nat, c: CallbackId)
    requires Run(capacity, states, steps) && k < |steps| && steps[k] == OwnerComplete(c)
    ensures var s, t := states[k], states[k + 1];
            && c in s.callbacks && c in t.callbacks && InComplete(c) in s.places
            && var e, result := s.places[InComplete(c)].owner, CommittedResult(s, c);
               && (Listening(s, e) ==> InOutcome(e) in t.places && t.places[InOutcome(e)].result == result)
               && (s.callbacks[c].pc == Completing(false) ==>
                     result.Some? && t.callbacks[c].pc == Shown(result.value))
               && (s.callbacks[c].pc == Completing(true) ==> t.callbacks[c].pc == Shown(ShowInvalid))
  {
    RunKeepsInv(capacity, states, steps, k);
    var s, step := states[k], steps[k];
    CommitStep(s, c);
  }

  /** The state a callback brings is registered, and not expired when the callback asked for it. */
  predicate IsKnown(s: State, c: CallbackId)
    requires c in s.callbacks
  {
    var slot := InTable(s.callbacks[c].state);
    slot in s.places && s.places[slot].deadline > s.callbacks[c].sentAt
  }

  lemma TakeStep(s: State, c: CallbackId)
    requires Inv(s) && Enabled(s, OwnerTake(c))
    ensures var t, x := Take(s, c), s.callbacks[c];
            && c in t.callbacks && InTable(x.state) !in t.places
            && (x.pc.Taking? && IsKnown(s, c) ==>
                  t.callbacks[c].pc == Holding && AtCallback(c) in t.places
                  && t.places[AtCallback(c)] == s.places[InTable(x.state)])
            && (x.pc.Taking? && !IsKnown(s, c) ==> t.callbacks[c].pc == Shown(ShowInvalid))
            && (!x.pc.Taking? ==> t.callbacks[c].pc == x.pc)
  {
  }

  /** In every run a callback that waits for its state gets the very entry registered under it, or is shown invalid;
      in both cases nobody finds that state again. */
  lemma TakeDecides(capacity: nat, states: seq<State>, steps: seq<Step>, k: nat, c: CallbackId)
    requires Run(capacity, states, steps) && k < |steps| && steps[k] == OwnerTake(c)
    ensures var s, t := states[k], states[k + 1];
            && c in s.callbacks && c in t.callbacks
            && var x := s.callbacks[c];
               && InTable(x.state) !in t.places
               && (x.pc.Taking? && IsKnown(s, c) ==>
                     t.callbacks[c].pc == Holding && AtCallback(c) in t.places
                     && t.places[AtCallback(c)] == s.places[InTable(x.state)])
               && (x.pc.Taking? && !IsKnown(s, c) ==> t.callbacks[c].pc == Shown(ShowInvalid))
               && (!x.pc.Taking? ==> t.callbacks[c].pc == x.pc)
  {
    RunKeepsInv(capacity, states, steps, k);
    var s, step := states[k], steps[k];
    TakeStep(s, c);
  }

  lemma TimeoutStep(s: State, c: CallbackId)
    requires Inv(s) && Enabled(s, CallbackFinishTimeout(c))
    ensures var e, t := s.places[AtCallback(c)].owner, FinishTimeout(s, c);
            && s.clock >= s.callbacks[c].deadline && AtCallback(c) !in t.places
            && t.callbacks[c].pc == Shown(if s.callbacks[c].pc == Finishing(true) then ShowInvalid else ShowPlatform)
            && (Listening(s, e) ==> InOutcome(e) in t.places && t.places[InOutcome(e)].result == Some(ShowPlatform))
  {
    Sound(s, AtCallback(c));
  }

  /** In every run a callback that cannot report before its deadline is shown a platform error, or invalid on a foreign
      route, and the exchange is told of a platform error. */
  lemma TimeoutDecides(capacity: nat, states: seq<State>, steps: seq<Step>, k: nat, c: CallbackId)
    requires Run(capacity, states, steps) && k < |steps| && steps[k] == CallbackFinishTimeout(c)
    ensures var s, t := states[k], states[k + 1];
            && c in s.callbacks && c in t.callbacks && AtCallback(c) in s.places
            && var e := s.places[AtCallback(c)].owner;
               && s.clock >= s.callbacks[c].deadline
               && t.callbacks[c].pc ==
                    Shown(if s.callbacks[c].pc == Finishing(true) then ShowInvalid else ShowPlatform)
               && (Listening(s, e) ==>
                     InOutcome(e) in t.places && t.places[InOutcome(e)].result == Some(ShowPlatform))
  {
    RunKeepsInv(capacity, states, steps, k);
    var s, step := states[k], steps[k];
    TimeoutStep(s, c);
  }

  // ---- an exchange that is gone is seen to be gone ----

  /** Where a session is while its exchange waits for it. */
  predicate IsAway(p: Place) {
    p.InTable? || p.AtCallback? || p.InComplete?
  }

  /** The exchange of a session that is away still listens, or has signalled that it is gone. */
  predicate IsWatched(s: State, p: Place)
    requires p in s.places
  {
    var e := s.places[p].owner;
    e in s.exchanges && (s.exchanges[e].signalled || Listening(s, e))
  }

  ghost predicate AllWatched(s: State) {
    forall p :: p in s.places && IsAway(p) ==> IsWatched(s, p)
  }

  /** A session that is away after a step was away before it, unless it was just registered. */
  lemma AwayBefore(s: State, step: Step, p: Place) returns (q: Place)
    requires Enabled(s, step) && !step.OwnerRegister? && p in Apply(s, step).places && IsAway(p)
    ensures q in s.places && IsAway(q) && s.places[q].owner == Apply(s, step).places[p].owner
  {
    q := p;
    if Target(s, step) != Some(p) {
      OtherPlaces(s, step, p);
    } else if step.OwnerTake? {
      q := if InTable(s.callbacks[step.c].state) in Swept(s.places, s.callbacks[step.c].sentAt)
              && s.callbacks[step.c].pc.Taking?
           then InTable(s.callbacks[step.c].state) else p;
    } else if step.CallbackSendComplete? {
      q := AtCallback(step.c);
    }
  }

  lemma RegisterWatches(s: State, e: ExchangeId, p: Place)
    requires Inv(s) && AllWatched(s) && Enabled(s, OwnerRegister(e)) && p in Register(s, e).places && IsAway(p)
    ensures IsWatched(Register(s, e), p)
  {
    Sound(s, InRegister(e));
    if Target(s, OwnerRegister(e)) != Some(p) {
      OtherPlaces(s, OwnerRegister(e), p);
    }
  }

  /** The steps an exchange can take while its session is away. */
  lemma OwnStepWatches(s: State, step: Step, q: Place, e: ExchangeId)
    requires Inv(s) && Enabled(s, step) && !step.OwnerRegister? && ExchangeOf(step) == Some(e)
    requires q in s.places && IsAway(q) && s.places[q].owner == e && IsWatched(s, q)
    ensures var t := Apply(s, step); e in t.exchanges && (t.exchanges[e].signalled || Listening(t, e))
  {
    if AtExchange(e) in s.places { Sound(s, AtExchange(e)); }
    if InOutcome(e) in s.places { Sound(s, InOutcome(e)); }
  }

  lemma WatchedStep(s: State, step: Step, p: Place)
    requires Inv(s) && AllWatched(s) && Enabled(s, step) && p in Apply(s, step).places && IsAway(p)
    ensures IsWatched(Apply(s, step), p)
  {
    if step.OwnerRegister? {
      RegisterWatches(s, step.e, p);
    } else {
      var q := AwayBefore(s, step, p);
      var e := s.places[q].owner;
      if ExchangeOf(step) == Some(e) {
        OwnStepWatches(s, step, q, e);
      } else {
        OtherExchanges(s, step, e);
      }
    }
  }

  lemma {:induction false} RunWatches(capacity: nat, states: seq<State>, steps: seq<Step>, k: nat)
    requires Run(capacity, states, steps) && k <= |steps|
    ensures AllWatched(states[k])
  {
    if k > 0 {
      RunWatches(capacity, states, steps, k - 1);
      RunKeepsInv(capacity, states, steps, k - 1);
      var s, step := states[k - 1], steps[k - 1];
      forall p | p in states[k].places && IsAway(p) ensures IsWatched(states[k], p) {
        WatchedStep(s, step, p);
      }
    }
  }

  /** In every run an admission is committed only while its exchange still listens, and then the exchange gets it: no
      browser is shown Admitted for an exchange that had already gone. */
  lemma AdmissionReachesExchange(capacity: nat, states: seq<State>, steps: seq<Step>, k: nat, c: CallbackId)
    requires Run(capacity, states, steps) && k < |steps| && steps[k] == OwnerComplete(c)
    requires c in states[k].callbacks && InComplete(c) in states[k].places
    requires CommittedResult(states[k], c) == Some(ShowAdmitted)
    ensures var e := states[k].places[InComplete(c)].owner;
            && Listening(states[k], e) && InOutcome(e) in states[k + 1].places
            && states[k + 1].places[InOutcome(e)].result == Some(ShowAdmitted)
  {
    RunKeepsInv(capacity, states, steps, k);
    RunWatches(capacity, states, steps, k);
    var s, step := states[k], steps[k];
    CommitStep(s, c);
    assert IsWatched(s, InComplete(c));
  }
}
