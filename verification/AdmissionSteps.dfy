/** Every step of the admission protocol keeps the invariant, so every run does. */
module AdmissionSteps {
  import opened Common
  import opened EnterpriseSession
  import opened AdmissionModel
  import opened AdmissionInvariant

  lemma Sound(s: State, p: Place)
    requires Broken(s) == {} && p in s.places
    ensures PlaceOk(s, p)
  {
    assert p !in Broken(s);
  }

  /** Only two places can be in the hands of one callback. */
  lemma CallbackPlaces(s: State, c: CallbackId)
    requires AtCallback(c) in s.places ==> PlaceOk(s, AtCallback(c))
    requires InComplete(c) in s.places ==> PlaceOk(s, InComplete(c))
    ensures forall p :: p in Broken(s) ==> !Touches(p, c)
  {
    assert forall p :: Touches(p, c) ==> p == AtCallback(c) || p == InComplete(c);
  }

  /** A callback keeps its entries sound when its program counter and their exchanges stay as they are. */
  lemma CallbackPlacesFrame(s: State, t: State, c: CallbackId)
    requires Broken(s) == {} && t.exchanges == s.exchanges && c in s.callbacks && c in t.callbacks
    requires t.callbacks[c].(takeQueued := false) == s.callbacks[c].(takeQueued := false) || s.callbacks[c].pc.Taking?
    requires forall p :: p in t.places && Touches(p, c) ==> p in s.places && t.places[p] == s.places[p]
    ensures forall p :: p in Broken(t) ==> !Touches(p, c)
  {
    if AtCallback(c) in t.places { Sound(s, AtCallback(c)); }
    if InComplete(c) in t.places { Sound(s, InComplete(c)); }
    CallbackPlaces(t, c);
  }

  lemma BeginKeepsInv(s: State, e: ExchangeId, locator: Locator)
    requires Inv(s) && Enabled(s, ExchangeBegin(e, locator))
    ensures Inv(Begin(s, e, locator))
  {
    var t := Begin(s, e, locator);
    forall p | p in s.places ensures s.places[p].owner in s.exchanges {
      Sound(s, p);
    }
    assert PlaceOk(t, AtExchange(e));
    LocalChangeKeepsInv(s, t, e, 0, Some(AtExchange(e)));
  }

  lemma AbortKeepsInv(s: State, e: ExchangeId, refused: bool)
    requires Inv(s) && Enabled(s, ExchangeAbort(e, refused))
    ensures Inv(Apply(s, ExchangeAbort(e, refused)))
  {
    Sound(s, AtExchange(e));
    ExchangeHandover(s, Apply(s, ExchangeAbort(e, refused)), e, s.places, AtExchange(e), None);
  }

  lemma ChooseKeepsInv(s: State, e: ExchangeId, provider: Provider, state: OAuthState)
    requires Inv(s) && Enabled(s, ExchangeSelect(e, provider, state))
    ensures Inv(Choose(s, e, provider, state))
  {
    var t := Choose(s, e, provider, state);
    Sound(s, AtExchange(e));
    if InRegister(e) in s.places { Sound(s, InRegister(e)); }
    assert PlaceOk(t, InRegister(e));
    ExchangeHandover(s, t, e, s.places, AtExchange(e), Some(InRegister(e)));
  }

  lemma AddSlot(places: map<Place, Entry>, from: Place, state: OAuthState, entry: Entry)
    requires !from.InTable?
    ensures |TableSlots(Move(places, from, InTable(state), entry))| <= |TableSlots(places)| + 1
  {
    var before, after := TableSlots(places), TableSlots(Move(places, from, InTable(state), entry));
    assert after <= before + {InTable(state)};
    assert before + {InTable(state)} == after + (before + {InTable(state)} - after);
  }

  lemma RegisterKeepsInv(s: State, e: ExchangeId)
    requires Inv(s) && Enabled(s, OwnerRegister(e))
    ensures Inv(Register(s, e))
  {
    var t := Register(s, e);
    var x, swept := s.exchanges[e], Swept(s.places, s.exchanges[e].sentAt);
    var slot := InTable(x.state.value);
    Sound(s, InRegister(e));
    if t.exchanges[e].pc.Announcing? {
      AddSlot(swept, InRegister(e), x.state.value, s.places[InRegister(e)]);
      assert PlaceOk(t, slot);
      ExchangeHandover(s, t, e, swept, InRegister(e), Some(slot));
    } else {
      ExchangeHandover(s, t, e, swept, InRegister(e), None);
    }
  }

  lemma AnnouncedKeepsInv(s: State, e: ExchangeId)
    requires Inv(s) && Enabled(s, ExchangeAnnounce(e, true))
    ensures Inv(Apply(s, ExchangeAnnounce(e, true)))
  {
    var t := Apply(s, ExchangeAnnounce(e, true));
    forall p | p in t.places && t.places[p].owner == e ensures PlaceOk(t, p) {
      Sound(s, p);
    }
    ExchangeChange(s, t, e);
  }

  lemma LeaveKeepsInv(s: State, e: ExchangeId, after: Written)
    requires Inv(s) && Listening(s, e) && (after == NothingWritten || after == WroteExpired)
    ensures Inv(Leave(s, e, after))
  {
    var t := Leave(s, e, after);
    forall p | p in t.places && t.places[p].owner == e ensures PlaceOk(t, p) {
      Sound(s, p);
    }
    if InOutcome(e) in s.places { Sound(s, InOutcome(e)); }
    ExchangeChange(s, t, e);
  }

  lemma RemoveKeepsInv(s: State, e: ExchangeId)
    requires Inv(s) && Enabled(s, OwnerRemove(e))
    ensures Inv(Remove(s, e))
  {
    var t := Remove(s, e);
    var slot := InTable(s.exchanges[e].state.value);
    if slot in s.places {
      Sound(s, slot);
      if InRemoveReply(e) in s.places { Sound(s, InRemoveReply(e)); }
      assert PlaceOk(t, InRemoveReply(e));
      ExchangeHandover(s, t, e, s.places, slot, Some(InRemoveReply(e)));
    } else {
      forall p | p in t.places && t.places[p].owner == e ensures PlaceOk(t, p) {
        Sound(s, p);
      }
      ExchangeChange(s, t, e);
    }
  }

  lemma FinishRemoveKeepsInv(s: State, e: ExchangeId)
    requires Inv(s) && Enabled(s, ExchangeFinishRemove(e))
    ensures Inv(Apply(s, ExchangeFinishRemove(e)))
  {
    var t := Apply(s, ExchangeFinishRemove(e));
    forall p | p in t.places && t.places[p].owner == e ensures PlaceOk(t, p) {
      Sound(s, p);
    }
    if InRemoveReply(e) in s.places { Sound(s, InRemoveReply(e)); }
    ExchangeChange(s, t, e);
  }

  lemma ProceedKeepsInv(s: State, e: ExchangeId)
    requires Inv(s) && Listening(s, e) && InOutcome(e) in s.places
    requires s.places[InOutcome(e)].session.phase.Authenticated?
    ensures Inv(Proceed(s, e))
  {
    var t := Proceed(s, e);
    Sound(s, InOutcome(e));
    if AtExchange(e) in s.places { Sound(s, AtExchange(e)); }
    assert PlaceOk(t, AtExchange(e));
    ExchangeHandover(s, t, e, s.places, InOutcome(e), Some(AtExchange(e)));
  }

  lemma GiveUpKeepsInv(s: State, e: ExchangeId, wrote: Written)
    requires Inv(s) && Listening(s, e) && InOutcome(e) in s.places
    ensures Inv(GiveUp(s, e, wrote))
  {
    Sound(s, InOutcome(e));
    ExchangeHandover(s, GiveUp(s, e, wrote), e, s.places, InOutcome(e), None);
  }

  lemma ReceiveKeepsInv(s: State, e: ExchangeId)
    requires Inv(s) && Enabled(s, ExchangeReceive(e))
    ensures Inv(Receive(s, e))
  {
    var entry := s.places[InOutcome(e)];
    Sound(s, InOutcome(e));
    if entry.result != Some(ShowAdmitted) {
      GiveUpKeepsInv(s, e, WroteFailed);
    } else if s.clock >= entry.session.deadline {
      GiveUpKeepsInv(s, e, WroteExpired);
    } else {
      ProceedKeepsInv(s, e);
    }
  }

  lemma LostKeepsInv(s: State, e: ExchangeId)
    requires Inv(s) && Enabled(s, ExchangeLost(e))
    ensures Inv(Apply(s, ExchangeLost(e)))
  {
    ExchangeChange(s, Apply(s, ExchangeLost(e)), e);
  }

  lemma ResolveKeepsInv(s: State, e: ExchangeId)
    requires Inv(s) && Enabled(s, OwnerResolve(e))
    ensures Inv(Resolve(s, e))
  {
    var t := Resolve(s, e);
    forall p | p in t.places && t.places[p].owner == e ensures PlaceOk(t, p) {
      Sound(s, p);
    }
    ExchangeChange(s, t, e);
  }

  lemma RespondKeepsInv(s: State, e: ExchangeId)
    requires Inv(s) && Enabled(s, ExchangeRespond(e))
    ensures Inv(Respond(s, e))
  {
    Sound(s, AtExchange(e));
    ExchangeHandover(s, Respond(s, e), e, s.places, AtExchange(e), None);
  }

  lemma CallbackBeginKeepsInv(s: State, c: CallbackId, route: Provider, authorization: Authorization,
                              state: OAuthState, deadline: Time)
    requires Inv(s) && Enabled(s, CallbackBegin(c, route, authorization, state, deadline))
    ensures Inv(Apply(s, CallbackBegin(c, route, authorization, state, deadline)))
  {
    var t := Apply(s, CallbackBegin(c, route, authorization, state, deadline));
    if AtCallback(c) in s.places { Sound(s, AtCallback(c)); }
    if InComplete(c) in s.places { Sound(s, InComplete(c)); }
    CallbackChange(s, t, c);
  }

  lemma TakeHeldKeepsInv(s: State, c: CallbackId)
    requires Inv(s) && Enabled(s, OwnerTake(c)) && s.callbacks[c].pc.Taking?
    requires InTable(s.callbacks[c].state) in Swept(s.places, s.callbacks[c].sentAt)
    ensures Inv(Take(s, c))
  {
    var t := Take(s, c);
    var slot := InTable(s.callbacks[c].state);
    if AtCallback(c) in s.places { Sound(s, AtCallback(c)); }
    if InComplete(c) in s.places { Sound(s, InComplete(c)); }
    Sound(s, slot);
    assert PlaceOk(t, AtCallback(c));
    CallbackPlaces(t, c);
    CallbackHandover(s, t, c, Swept(s.places, s.callbacks[c].sentAt), slot, Some(AtCallback(c)));
  }

  /** The callback gave up before the owner answered: the entry is dropped. */
  lemma TakeDroppedKeepsInv(s: State, c: CallbackId)
    requires Inv(s) && Enabled(s, OwnerTake(c)) && !s.callbacks[c].pc.Taking?
    requires InTable(s.callbacks[c].state) in Swept(s.places, s.callbacks[c].sentAt)
    ensures Inv(Take(s, c))
  {
    var t, slot := Take(s, c), InTable(s.callbacks[c].state);
    assert CallbackOk(s.callbacks[c]);
    CallbackPlacesFrame(s, t, c);
    CallbackHandover(s, t, c, Swept(s.places, s.callbacks[c].sentAt), slot, None);
  }

  /** An unknown, replayed or expired state finds nothing. */
  lemma TakeNothingKeepsInv(s: State, c: CallbackId)
    requires Inv(s) && Enabled(s, OwnerTake(c))
    requires InTable(s.callbacks[c].state) !in Swept(s.places, s.callbacks[c].sentAt)
    ensures Inv(Take(s, c))
  {
    assert CallbackOk(s.callbacks[c]);
    CallbackPlacesFrame(s, Take(s, c), c);
    CallbackChange(s, Take(s, c), c);
  }

  lemma TakeKeepsInv(s: State, c: CallbackId)
    requires Inv(s) && Enabled(s, OwnerTake(c))
    ensures Inv(Take(s, c))
  {
    if InTable(s.callbacks[c].state) !in Swept(s.places, s.callbacks[c].sentAt) {
      TakeNothingKeepsInv(s, c);
    } else if s.callbacks[c].pc.Taking? {
      TakeHeldKeepsInv(s, c);
    } else {
      TakeDroppedKeepsInv(s, c);
    }
  }

  /** Work on the entry a callback holds. */
  lemma HeldKeepsInv(s: State, t: State, c: CallbackId)
    requires Inv(s) && c in s.callbacks && AtCallback(c) in s.places && c in t.callbacks && AtCallback(c) in t.places
    requires t == SetCallback(s, c, t.callbacks[c]).(places := s.places[AtCallback(c) := t.places[AtCallback(c)]])
    requires t.places[AtCallback(c)].owner == s.places[AtCallback(c)].owner
    requires PlaceOk(t, AtCallback(c)) && CallbackOk(t.callbacks[c])
    ensures Inv(t)
  {
    Sound(s, AtCallback(c));
    if InComplete(c) in s.places { Sound(s, InComplete(c)); }
    assert t.places == (s.places - {AtCallback(c)})[AtCallback(c) := t.places[AtCallback(c)]];
    CallbackHandover(s, t, c, s.places, AtCallback(c), Some(AtCallback(c)));
  }

  /** Failing an undecided or decided session from anywhere settles it. */
  lemma FailingSettles(entry: Entry, why: Failure, result: CallbackResult)
    requires SessionInv(entry.session) && result != ShowAdmitted
    requires var phase := entry.session.phase; phase.Authenticated? || IsTerminal(phase) || phase.Authenticating?
    ensures Settled(Failing(entry, why, result)) && SessionInv(Failing(entry, why, result).session)
  {
  }

  lemma DecideKeepsInv(s: State, c: CallbackId, mismatch: bool, entry: Entry)
    requires Inv(s) && c in s.callbacks && !s.callbacks[c].takeQueued && AtCallback(c) in s.places
    requires Settled(entry) && Belongs(s, entry) && entry.owner == s.places[AtCallback(c)].owner
    ensures Inv(Decide(s, c, mismatch, entry))
  {
    var t := Decide(s, c, mismatch, entry);
    assert PlaceOk(t, AtCallback(c));
    HeldKeepsInv(s, t, c);
  }

  lemma RefuseKeepsInv(s: State, c: CallbackId, mismatch: bool, why: Failure, result: CallbackResult)
    requires Inv(s) && CallbackAt(s, c, Holding) && result != ShowAdmitted
    ensures Inv(Decide(s, c, mismatch, Failing(s.places[AtCallback(c)], why, result)))
  {
    Sound(s, AtCallback(c));
    assert CallbackOk(s.callbacks[c]);
    FailingSettles(s.places[AtCallback(c)], why, result);
    DecideKeepsInv(s, c, mismatch, Failing(s.places[AtCallback(c)], why, result));
  }

  lemma StartVerifyingKeepsInv(s: State, c: CallbackId)
    requires Inv(s) && CallbackAt(s, c, Holding)
    requires s.places[AtCallback(c)].session.provider == Some(s.callbacks[c].route)
    ensures Inv(SetCallbackPc(s, c, Verifying))
  {
    var t := SetCallbackPc(s, c, Verifying);
    Sound(s, AtCallback(c));
    assert CallbackOk(s.callbacks[c]);
    assert t.places == s.places[AtCallback(c) := t.places[AtCallback(c)]];
    assert PlaceOk(t, AtCallback(c));
    HeldKeepsInv(s, t, c);
  }

  lemma RouteKeepsInv(s: State, c: CallbackId)
    requires Inv(s) && Enabled(s, CallbackRoute(c))
    ensures Inv(Route(s, c))
  {
    if s.places[AtCallback(c)].session.provider != Some(s.callbacks[c].route) {
      RefuseKeepsInv(s, c, true, InvalidState, ShowInvalid);
    } else {
      match s.callbacks[c].authorization
      case Denied => RefuseKeepsInv(s, c, false, UserRejected, ShowRejected);
      case ProviderFailed => RefuseKeepsInv(s, c, false, Platform, ShowPlatform);
      case Code => StartVerifyingKeepsInv(s, c);
    }
  }

  /** A verified callback carrying the session's own state admits it; every other outcome ends it. */
  lemma VerificationSettles(entry: Entry, x: Exchange, state: OAuthState, v: Verification)
    requires SessionInv(entry.session) && Pending(entry, x) && x.state == Some(state)
    ensures var after := VerifiedEntry(entry, state, v);
            && Settled(after) && SessionInv(after.session)
            && after == entry.(session := after.session, result := after.result)
            && after.session == entry.session.(phase := after.session.phase, oauthState := None, identity := None)
            && (after.result == Some(ShowAdmitted) <==> v.Verified?)
  {
  }

  lemma VerifyKeepsInv(s: State, c: CallbackId, v: Verification)
    requires Inv(s) && Enabled(s, CallbackVerify(c, v))
    ensures Inv(Verify(s, c, v))
  {
    Sound(s, AtCallback(c));
    var entry := s.places[AtCallback(c)];
    VerificationSettles(entry, s.exchanges[entry.owner], s.callbacks[c].state, v);
    assert CallbackOk(s.callbacks[c]);
    DecideKeepsInv(s, c, false, VerifiedEntry(entry, s.callbacks[c].state, v));
  }

  lemma SendCompleteKeepsInv(s: State, c: CallbackId)
    requires Inv(s) && Enabled(s, CallbackSendComplete(c))
    ensures Inv(Apply(s, CallbackSendComplete(c)))
  {
    var t := Apply(s, CallbackSendComplete(c));
    Sound(s, AtCallback(c));
    assert CallbackOk(s.callbacks[c]);
    if InComplete(c) in s.places { Sound(s, InComplete(c)); }
    assert PlaceOk(t, InComplete(c));
    CallbackHandover(s, t, c, s.places, AtCallback(c), Some(InComplete(c)));
  }

  /** Delivering a settled entry from the hands of `c`. */
  lemma DeliverKeepsInv(s: State, t: State, c: CallbackId, from: Place, entry: Entry)
    requires Inv(s) && c in s.callbacks && c in t.callbacks && Touches(from, c) && from in s.places
    requires t == SetCallback(s, c, t.callbacks[c]).(places := Deliver(s, from, entry))
    requires entry.owner == s.places[from].owner && Settled(entry) && Belongs(s, entry)
    requires CallbackOk(t.callbacks[c])
    requires AtCallback(c) in t.places ==> PlaceOk(t, AtCallback(c))
    requires InComplete(c) in t.places ==> PlaceOk(t, InComplete(c))
    ensures Inv(t)
  {
    var e := entry.owner;
    CallbackPlaces(t, c);
    if Listening(s, e) {
      if InOutcome(e) in s.places { Sound(s, InOutcome(e)); }
      assert PlaceOk(t, InOutcome(e));
      CallbackHandover(s, t, c, s.places, from, Some(InOutcome(e)));
    } else {
      CallbackHandover(s, t, c, s.places, from, None);
    }
  }

  lemma FinishTimeoutKeepsInv(s: State, c: CallbackId)
    requires Inv(s) && Enabled(s, CallbackFinishTimeout(c))
    ensures Inv(FinishTimeout(s, c))
  {
    var t := FinishTimeout(s, c);
    var entry := s.places[AtCallback(c)];
    Sound(s, AtCallback(c));
    FailingSettles(entry, Platform, ShowPlatform);
    if InComplete(c) in s.places { Sound(s, InComplete(c)); }
    DeliverKeepsInv(s, t, c, AtCallback(c), Failing(entry, Platform, ShowPlatform));
  }

  /** The owner's recheck never leaves result and phase disagreeing. */
  lemma CommitSettles(s: State, k: CallbackTask, entry: Entry)
    requires Belongs(s, entry) && Settled(entry)
    ensures var after := CommittedEntry(s, k, entry); Settled(after) && Belongs(s, after) && after.owner == entry.owner
  {
  }

  lemma CommitKeepsInv(s: State, c: CallbackId)
    requires Inv(s) && Enabled(s, OwnerComplete(c))
    ensures Inv(Commit(s, c))
  {
    var t, entry := Commit(s, c), s.places[InComplete(c)];
    Sound(s, InComplete(c));
    CommitSettles(s, s.callbacks[c], entry);
    if AtCallback(c) in s.places { Sound(s, AtCallback(c)); }
    assert CallbackOk(s.callbacks[c]);
    DeliverKeepsInv(s, t, c, InComplete(c), CommittedEntry(s, s.callbacks[c], entry));
  }

  lemma DropKeepsInv(s: State, c: CallbackId)
    requires Inv(s) && Enabled(s, CallbackDrop(c))
    ensures Inv(Apply(s, CallbackDrop(c)))
  {
    var t := Apply(s, CallbackDrop(c));
    assert CallbackOk(s.callbacks[c]);
    if InComplete(c) in s.places {
      Sound(s, InComplete(c));
      assert PlaceOk(t, InComplete(c));
    }
    CallbackPlaces(t, c);
    if AtCallback(c) in s.places {
      Sound(s, AtCallback(c));
      CallbackHandover(s, t, c, s.places, AtCallback(c), None);
    } else {
      assert t.places == s.places;
      CallbackChange(s, t, c);
    }
  }

  predicate IsCallbackStep(step: Step) {
    || step.CallbackBegin? || step.OwnerTake? || step.CallbackRoute? || step.CallbackVerify?
    || step.CallbackSendComplete? || step.CallbackFinishTimeout? || step.OwnerComplete? || step.CallbackDrop?
  }

  lemma ExchangeStepKeepsInv(s: State, step: Step)
    requires Inv(s) && Enabled(s, step) && !IsCallbackStep(step)
    ensures Inv(Apply(s, step))
  {
    match step
    case Tick(_) => ClockKeepsInv(s, Apply(s, step));
    case Rendezvous(_) => ClockKeepsInv(s, Apply(s, step));
    case ExchangeBegin(e, locator) => BeginKeepsInv(s, e, locator);
    case ExchangeAbort(e, refused) => AbortKeepsInv(s, e, refused);
    case ExchangeSelect(e, provider, state) => ChooseKeepsInv(s, e, provider, state);
    case OwnerRegister(e) => RegisterKeepsInv(s, e);
    case ExchangeAnnounce(e, written) =>
      if written { AnnouncedKeepsInv(s, e); } else { LeaveKeepsInv(s, e, NothingWritten); }
    case ExchangeTimeout(e) => LeaveKeepsInv(s, e, WroteExpired);
    case ExchangePeerClosed(e) => LeaveKeepsInv(s, e, NothingWritten);
    case OwnerRemove(e) => RemoveKeepsInv(s, e);
    case ExchangeFinishRemove(e) => FinishRemoveKeepsInv(s, e);
    case ExchangeReceive(e) => ReceiveKeepsInv(s, e);
    case ExchangeLost(e) => LostKeepsInv(s, e);
    case OwnerResolve(e) => ResolveKeepsInv(s, e);
    case ExchangeRespond(e) => RespondKeepsInv(s, e);
  }

  /** The steps of a callback that has made up its mind. */
  predicate IsReportStep(step: Step) {
    step.CallbackSendComplete? || step.CallbackFinishTimeout? || step.OwnerComplete? || step.CallbackDrop?
  }

  lemma ReportStepKeepsInv(s: State, step: Step)
    requires Inv(s) && Enabled(s, step) && IsReportStep(step)
    ensures Inv(Apply(s, step))
  {
    match step
    case CallbackSendComplete(c) => SendCompleteKeepsInv(s, c);
    case CallbackFinishTimeout(c) => FinishTimeoutKeepsInv(s, c);
    case OwnerComplete(c) => CommitKeepsInv(s, c);
    case CallbackDrop(c) => DropKeepsInv(s, c);
  }

  lemma CallbackStepKeepsInv(s: State, step: Step)
    requires Inv(s) && Enabled(s, step) && IsCallbackStep(step)
    ensures Inv(Apply(s, step))
  {
    if IsReportStep(step) {
      ReportStepKeepsInv(s, step);
    } else {
      match step
      case CallbackBegin(c, route, authorization, state, deadline) =>
        CallbackBeginKeepsInv(s, c, route, authorization, state, deadline);
      case OwnerTake(c) => TakeKeepsInv(s, c);
      case CallbackRoute(c) => RouteKeepsInv(s, c);
      case CallbackVerify(c, v) => VerifyKeepsInv(s, c, v);
    }
  }

  lemma StepKeepsInv(s: State, step: Step)
    requires Inv(s) && Enabled(s, step)
    ensures Inv(Apply(s, step))
  {
    if IsCallbackStep(step) {
      CallbackStepKeepsInv(s, step);
    } else {
      ExchangeStepKeepsInv(s, step);
    }
  }

  /** Time and the rendezvous registry move on their own. */
  lemma ClockKeepsInv(s: State, t: State)
    requires Inv(s) && t == s.(clock := t.clock, active := t.active)
    ensures Inv(t)
  {
    forall p | p in t.places ensures PlaceOk(t, p) {
      Sound(s, p);
      PlaceFrame(s, t, p);
    }
    forall e | e in t.exchanges ensures ExchangeOk(t, e) {
      assert ExchangeOk(s, e);
    }
  }

  /** Every state of every run satisfies the invariant. */
  lemma {:induction false} RunKeepsInv(capacity: nat, states: seq<State>, steps: seq<Step>, i: nat)
    requires Run(capacity, states, steps) && i <= |steps|
    ensures Inv(states[i])
  {
    if i == 0 {
      assert TableSlots(Initial(capacity).places) == {};
    } else {
      RunKeepsInv(capacity, states, steps, i - 1);
      assert Enabled(states[i - 1], steps[i - 1]);
      StepKeepsInv(states[i - 1], steps[i - 1]);
    }
  }
}
