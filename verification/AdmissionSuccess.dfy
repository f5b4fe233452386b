/**
 The admission protocol never wedges: from every reachable state with a free table slot, a new exchange
 for an Active locator can still be admitted and resolved, whatever the other actors have left behind.
 */
module AdmissionSuccess {
  import opened Common
  import opened EnterpriseSession
  import opened AdmissionModel
  import opened AdmissionInvariant
  import opened AdmissionSteps

  /** A continuation of a run. */
  ghost predicate Path(s: State, steps: seq<Step>, t: State)
    decreases |steps|
  {
    if steps == [] then s == t
    else Enabled(s, steps[0]) && Path(Apply(s, steps[0]), steps[1..], t)
  }

  lemma Then(s: State, step: Step, steps: seq<Step>, t: State)
    requires Enabled(s, step) && Path(Apply(s, step), steps, t)
    ensures Path(s, [step] + steps, t)
  {
    assert ([step] + steps)[1..] == steps;
  }

  lemma {:induction false} Join(s: State, a: seq<Step>, m: State, b: seq<Step>, t: State)
    requires Path(s, a, m) && Path(m, b, t)
    ensures Path(s, a + b, t)
    decreases |a|
  {
    if a == [] {
      assert a + b == b;
    } else {
      Join(Apply(s, a[0]), a[1..], m, b, t);
      assert (a + b)[1..] == a[1..] + b;
    }
  }

  lemma TwoSteps(s: State, x: Step, y: Step)
    requires Enabled(s, x) && Enabled(Apply(s, x), y)
    ensures Path(s, [x, y], Apply(Apply(s, x), y))
  {
    var m := Apply(s, x);
    Then(m, y, [], Apply(m, y));
    Then(s, x, [y], Apply(m, y));
    assert [x] + [y] == [x, y];
  }

  /** The exchange `e` wants `l`, which is Active for `p`, and its session is still alive. */
  predicate Wants(s: State, e: ExchangeId, l: Locator, p: Peer) {
    && e in s.exchanges && s.exchanges[e].locator == l && s.clock < s.exchanges[e].deadline
    && l in s.active && s.active[l] == p
  }

  /** The transaction of `e` is in `place` while `e` is at `pc`. */
  ghost predicate Stage(s: State, e: ExchangeId, pc: ExchangePc, place: Place, l: Locator, p: Peer) {
    Inv(s) && Wants(s, e, l, p) && AtPc(s, e, pc) && place in s.places && s.places[place].owner == e
  }

  /** The callback `c` works for `e` on its own route, with time to spare. */
  predicate Serving(s: State, c: CallbackId, pc: CallbackPc, e: ExchangeId) {
    && c in s.callbacks && e in s.exchanges
    && var k, x := s.callbacks[c], s.exchanges[e];
       && k.pc == pc && k.authorization.Code? && Some(k.state) == x.state && Some(k.route) == x.provider
       && s.clock < k.deadline && k.sentAt <= s.clock
  }

  predicate HoldsAdmission(s: State, place: Place) {
    place in s.places && s.places[place].result == Some(ShowAdmitted)
  }

  lemma CanRespond(s: State, e: ExchangeId, l: Locator, p: Peer)
    requires Stage(s, e, GotTarget(Some(p)), AtExchange(e), l, p)
    ensures Enabled(s, ExchangeRespond(e)) && AtPc(Apply(s, ExchangeRespond(e)), e, Returned(WroteResolved(p)))
  {
    Sound(s, AtExchange(e));
  }

  lemma CanResolve(s: State, e: ExchangeId, l: Locator, p: Peer)
    requires Stage(s, e, AwaitingTarget, AtExchange(e), l, p)
    ensures Enabled(s, OwnerResolve(e)) && Stage(Apply(s, OwnerResolve(e)), e, GotTarget(Some(p)), AtExchange(e), l, p)
  {
    Sound(s, AtExchange(e));
    ResolveKeepsInv(s, e);
  }

  lemma CanReceive(s: State, e: ExchangeId, l: Locator, p: Peer)
    requires Stage(s, e, Waiting, InOutcome(e), l, p) && HoldsAdmission(s, InOutcome(e))
    ensures Enabled(s, ExchangeReceive(e))
    ensures Stage(Apply(s, ExchangeReceive(e)), e, AwaitingTarget, AtExchange(e), l, p)
  {
    Sound(s, InOutcome(e));
    ReceiveKeepsInv(s, e);
  }

  lemma CanCommit(s: State, e: ExchangeId, c: CallbackId, l: Locator, p: Peer)
    requires Stage(s, e, Waiting, InComplete(c), l, p) && HoldsAdmission(s, InComplete(c))
    requires Serving(s, c, Completing(false), e)
    ensures Enabled(s, OwnerComplete(c))
    ensures Stage(Apply(s, OwnerComplete(c)), e, Waiting, InOutcome(e), l, p)
    ensures HoldsAdmission(Apply(s, OwnerComplete(c)), InOutcome(e))
  {
    assert ExchangeOk(s, e);
    CommitKeepsInv(s, c);
  }

  lemma CanReport(s: State, e: ExchangeId, c: CallbackId, l: Locator, p: Peer)
    requires Stage(s, e, Waiting, AtCallback(c), l, p) && HoldsAdmission(s, AtCallback(c))
    requires Serving(s, c, Finishing(false), e)
    ensures var step := CallbackSendComplete(c);
            && Enabled(s, step)
            && Stage(Apply(s, step), e, Waiting, InComplete(c), l, p) && HoldsAdmission(Apply(s, step), InComplete(c))
            && Serving(Apply(s, step), c, Completing(false), e)
  {
    SendCompleteKeepsInv(s, c);
  }

  lemma CanVerify(s: State, e: ExchangeId, c: CallbackId, l: Locator, p: Peer)
    requires Stage(s, e, Waiting, AtCallback(c), l, p) && Serving(s, c, Verifying, e)
    ensures var step := CallbackVerify(c, Verified(0));
            && Enabled(s, step)
            && Stage(Apply(s, step), e, Waiting, AtCallback(c), l, p) && HoldsAdmission(Apply(s, step), AtCallback(c))
            && Serving(Apply(s, step), c, Finishing(false), e)
  {
    Sound(s, AtCallback(c));
    VerifyKeepsInv(s, c, Verified(0));
  }

  lemma CanRoute(s: State, e: ExchangeId, c: CallbackId, l: Locator, p: Peer)
    requires Stage(s, e, Waiting, AtCallback(c), l, p) && Serving(s, c, Holding, e)
    ensures Enabled(s, CallbackRoute(c))
    ensures Stage(Apply(s, CallbackRoute(c)), e, Waiting, AtCallback(c), l, p)
    ensures Serving(Apply(s, CallbackRoute(c)), c, Verifying, e)
  {
    Sound(s, AtCallback(c));
    RouteKeepsInv(s, c);
  }

  lemma CanTake(s: State, e: ExchangeId, c: CallbackId, l: Locator, p: Peer)
    requires Serving(s, c, Taking, e) && s.callbacks[c].takeQueued
    requires Stage(s, e, Waiting, InTable(s.callbacks[c].state), l, p)
    ensures Enabled(s, OwnerTake(c))
    ensures Stage(Apply(s, OwnerTake(c)), e, Waiting, AtCallback(c), l, p)
    ensures Serving(Apply(s, OwnerTake(c)), c, Holding, e)
  {
    Sound(s, InTable(s.callbacks[c].state));
    TakeKeepsInv(s, c);
  }

  predicate Chose(s: State, e: ExchangeId, state: OAuthState) {
    e in s.exchanges && s.exchanges[e].state == Some(state) && s.exchanges[e].provider.Some?
  }

  lemma CanCallBack(s: State, e: ExchangeId, state: OAuthState, c: CallbackId, l: Locator, p: Peer)
    requires Stage(s, e, Waiting, InTable(state), l, p) && c !in s.callbacks
    ensures Chose(s, e, state)
    ensures var step := CallbackBegin(c, s.exchanges[e].provider.value, Code, state, s.clock + 1);
            var t := Apply(s, step);
            && Enabled(s, step) && Stage(t, e, Waiting, InTable(state), l, p)
            && Serving(t, c, Taking, e) && t.callbacks[c].takeQueued && t.callbacks[c].state == state
  {
    Sound(s, InTable(state));
    CallbackBeginKeepsInv(s, c, s.exchanges[e].provider.value, Code, state, s.clock + 1);
  }

  lemma CanAnnounce(s: State, e: ExchangeId, state: OAuthState, l: Locator, p: Peer)
    requires Stage(s, e, Announcing, InTable(state), l, p)
    ensures Enabled(s, ExchangeAnnounce(e, true))
    ensures Stage(Apply(s, ExchangeAnnounce(e, true)), e, Waiting, InTable(state), l, p)
    ensures Apply(s, ExchangeAnnounce(e, true)).callbacks == s.callbacks
  {
    AnnouncedKeepsInv(s, e);
  }

  lemma CanRegister(s: State, e: ExchangeId, state: OAuthState, l: Locator, p: Peer)
    requires Stage(s, e, Registering, InRegister(e), l, p) && s.exchanges[e].state == Some(state)
    requires InTable(state) !in s.places && |TableSlots(s.places)| < s.capacity
    ensures Enabled(s, OwnerRegister(e))
    ensures Stage(Apply(s, OwnerRegister(e)), e, Announcing, InTable(state), l, p)
    ensures Apply(s, OwnerRegister(e)).callbacks == s.callbacks
  {
    TableStaysBounded(s.places, Swept(s.places, s.exchanges[e].sentAt));
    RegisterKeepsInv(s, e);
  }

  lemma CanSelect(s: State, e: ExchangeId, state: OAuthState, l: Locator, p: Peer)
    requires Stage(s, e, Selecting, AtExchange(e), l, p) && state !in s.used && |TableSlots(s.places)| < s.capacity
    ensures var step := ExchangeSelect(e, WeCom, state);
            var t := Apply(s, step);
            && Enabled(s, step) && Stage(t, e, Registering, InRegister(e), l, p) && t.exchanges[e].state == Some(state)
            && InTable(state) !in t.places && |TableSlots(t.places)| < t.capacity && t.callbacks == s.callbacks
  {
    var t := Apply(s, ExchangeSelect(e, WeCom, state));
    ChooseKeepsInv(s, e, WeCom, state);
    TableStaysBounded(s.places, t.places);
    TableStatesAreUsed(s, state);
  }

  lemma TableStatesAreUsed(s: State, state: OAuthState)
    requires Inv(s)
    ensures InTable(state) in s.places ==> state in s.used
  {
    if InTable(state) in s.places {
      Sound(s, InTable(state));
      assert ExchangeOk(s, s.places[InTable(state)].owner);
    }
  }

  lemma CanBegin(s: State, e: ExchangeId, l: Locator, p: Peer)
    requires Inv(s) && e !in s.exchanges && l in s.active && s.active[l] == p && |TableSlots(s.places)| < s.capacity
    ensures var step := ExchangeBegin(e, l);
            var t := Apply(s, step);
            && Enabled(s, step) && Stage(t, e, Selecting, AtExchange(e), l, p)
            && t.used == s.used && |TableSlots(t.places)| < t.capacity && t.callbacks == s.callbacks
  {
    var t := Apply(s, ExchangeBegin(e, l));
    BeginKeepsInv(s, e, l);
    TableStaysBounded(s.places, t.places);
  }

  /** An admission that reached the exchange is resolved in three steps. */
  lemma FinishAdmission(s: State, e: ExchangeId, l: Locator, p: Peer) returns (steps: seq<Step>, t: State)
    requires Stage(s, e, Waiting, InOutcome(e), l, p) && HoldsAdmission(s, InOutcome(e))
    ensures Path(s, steps, t) && AtPc(t, e, Returned(WroteResolved(p)))
  {
    CanReceive(s, e, l, p);
    var s1 := Apply(s, ExchangeReceive(e));
    CanResolve(s1, e, l, p);
    CanRespond(Apply(s1, OwnerResolve(e)), e, l, p);
    steps, t := [OwnerResolve(e), ExchangeRespond(e)], Apply(Apply(s1, OwnerResolve(e)), ExchangeRespond(e));
    TwoSteps(s1, OwnerResolve(e), ExchangeRespond(e));
    Then(s, ExchangeReceive(e), steps, t);
    steps := [ExchangeReceive(e)] + steps;
  }

  /** A callback that holds the transaction can verify, report and have it committed. */
  lemma FinishCallback(s: State, e: ExchangeId, c: CallbackId, l: Locator, p: Peer) returns (steps: seq<Step>, t: State)
    requires Stage(s, e, Waiting, AtCallback(c), l, p) && Serving(s, c, Verifying, e)
    ensures Path(s, steps, t) && AtPc(t, e, Returned(WroteResolved(p)))
  {
    CanVerify(s, e, c, l, p);
    var s1 := Apply(s, CallbackVerify(c, Verified(0)));
    CanReport(s1, e, c, l, p);
    var s2 := Apply(s1, CallbackSendComplete(c));
    CanCommit(s2, e, c, l, p);
    steps, t := FinishAdmission(Apply(s2, OwnerComplete(c)), e, l, p);
    Then(s2, OwnerComplete(c), steps, t);
    steps := [OwnerComplete(c)] + steps;
    Then(s1, CallbackSendComplete(c), steps, t);
    steps := [CallbackSendComplete(c)] + steps;
    Then(s, CallbackVerify(c, Verified(0)), steps, t);
    steps := [CallbackVerify(c, Verified(0))] + steps;
  }

  /** A waiting exchange can be admitted by a new callback. */
  lemma FinishWaiting(s: State, e: ExchangeId, state: OAuthState, c: CallbackId, l: Locator, p: Peer)
    returns (steps: seq<Step>, t: State)
    requires Stage(s, e, Waiting, InTable(state), l, p) && c !in s.callbacks
    ensures Path(s, steps, t) && AtPc(t, e, Returned(WroteResolved(p)))
  {
    CanCallBack(s, e, state, c, l, p);
    var call := CallbackBegin(c, s.exchanges[e].provider.value, Code, state, s.clock + 1);
    var s1 := Apply(s, call);
    CanTake(s1, e, c, l, p);
    var s2 := Apply(s1, OwnerTake(c));
    CanRoute(s2, e, c, l, p);
    steps, t := FinishCallback(Apply(s2, CallbackRoute(c)), e, c, l, p);
    Then(s2, CallbackRoute(c), steps, t);
    steps := [CallbackRoute(c)] + steps;
    Then(s1, OwnerTake(c), steps, t);
    steps := [OwnerTake(c)] + steps;
    Then(s, call, steps, t);
    steps := [call] + steps;
  }

  /** A new exchange can start, choose and register. */
  lemma ReachTable(s: State, e: ExchangeId, state: OAuthState, l: Locator, p: Peer) returns (steps: seq<Step>, t: State)
    requires Inv(s) && e !in s.exchanges && state !in s.used
    requires l in s.active && s.active[l] == p && |TableSlots(s.places)| < s.capacity
    ensures Path(s, steps, t) && Stage(t, e, Announcing, InTable(state), l, p) && t.callbacks == s.callbacks
  {
    CanBegin(s, e, l, p);
    var s1 := Apply(s, ExchangeBegin(e, l));
    CanSelect(s1, e, state, l, p);
    var s2 := Apply(s1, ExchangeSelect(e, WeCom, state));
    CanRegister(s2, e, state, l, p);
    t := Apply(s2, OwnerRegister(e));
    TwoSteps(s1, ExchangeSelect(e, WeCom, state), OwnerRegister(e));
    Then(s, ExchangeBegin(e, l), [ExchangeSelect(e, WeCom, state), OwnerRegister(e)], t);
    steps := [ExchangeBegin(e, l)] + [ExchangeSelect(e, WeCom, state), OwnerRegister(e)];
  }

  /** The whole admission of a new exchange, from any reachable state with a free slot. */
  lemma AdmissionStaysPossible(capacity: nat, states: seq<State>, steps: seq<Step>, k: nat,
                               e: ExchangeId, state: OAuthState, c: CallbackId, l: Locator, p: Peer)
    returns (more: seq<Step>, t: State)
    requires Run(capacity, states, steps) && k <= |steps|
    requires e !in states[k].exchanges && c !in states[k].callbacks && state !in states[k].used
    requires l in states[k].active && states[k].active[l] == p && |TableSlots(states[k].places)| < states[k].capacity
    ensures Path(states[k], more, t) && AtPc(t, e, Returned(WroteResolved(p)))
  {
    RunKeepsInv(capacity, states, steps, k);
    var first, m := ReachTable(states[k], e, state, l, p);
    CanAnnounce(m, e, state, l, p);
    var waiting := Apply(m, ExchangeAnnounce(e, true));
    more, t := FinishWaiting(waiting, e, state, c, l, p);
    Then(m, ExchangeAnnounce(e, true), more, t);
    more := [ExchangeAnnounce(e, true)] + more;
    Join(states[k], first, m, more, t);
    more := first + more;
  }
}
