/**
 The enterprise admission protocol as a step relation: exchange tasks, HTTPS callback tasks and
 one owner pass exclusively owned sessions between them. Every step is one atomic action of one
 actor; channels deliver in any order, which covers every interleaving of the relay.
 */
module AdmissionModel {
  import opened Common
  import opened EnterpriseSession

  type ExchangeId = nat
  type CallbackId = nat

  /** What a browser is shown and what a completion carries. */
  datatype CallbackResult = ShowAdmitted | ShowRejected | ShowInvalid | ShowPlatform

  /** A transaction: the session, the exchange its signals belong to, and the copied deadline. */
  datatype Entry = Entry(session: Session, owner: ExchangeId, deadline: Time, result: Option<CallbackResult>)

  /** Where a transaction can be; whoever has the place owns the session in it. */
  datatype Place =
    | AtExchange(e: ExchangeId)
    | InRegister(e: ExchangeId)
    | InTable(state: OAuthState)
    | AtCallback(c: CallbackId)
    | InComplete(c: CallbackId)
    | InOutcome(e: ExchangeId)
    | InRemoveReply(e: ExchangeId)

  datatype Written = NothingWritten | WroteFailed | WroteExpired | WroteUnavailable | WroteResolved(peer: Peer)

  datatype ExchangePc =
    | Selecting
    | Registering
    | Announcing
    | Waiting
    | Removing(after: Written)
    | Removed(after: Written)
    | AwaitingTarget
    | GotTarget(target: Option<Peer>)
    | Returned(wrote: Written)

  datatype Exchange = Exchange(
    pc: ExchangePc,
    locator: Locator,
    deadline: Time,
    provider: Option<Provider>,
    state: Option<OAuthState>,
    sentAt: Time,        // the clock reading carried by the Register message
    signalled: bool)     // the cancellation sender was used or dropped

  datatype Authorization = Code | Denied | ProviderFailed

  datatype CallbackPc =
    | Taking
    | Holding
    | Verifying
    | Finishing(mismatch: bool)
    | Completing(mismatch: bool)
    | Shown(result: CallbackResult)

  datatype CallbackTask = CallbackTask(
    pc: CallbackPc,
    route: Provider,
    authorization: Authorization,
    state: OAuthState,
    sentAt: Time,        // the clock reading carried by the Take message
    deadline: Time,
    takeQueued: bool)

  datatype State = State(
    places: map<Place, Entry>,
    exchanges: map<ExchangeId, Exchange>,
    callbacks: map<CallbackId, CallbackTask>,
    used: set<OAuthState>,
    active: map<Locator, Peer>,   // the rendezvous registry's Active mappings
    clock: Time,
    capacity: nat)

  datatype Verification =
    | Verified(member: Identity)
    | InvalidCode
    | RejectedMember
    | ProviderError
    | SawCancellation
    | HitDeadline

  datatype Step =
    | Tick(elapsed: Time)
    | Rendezvous(active: map<Locator, Peer>)
    | ExchangeBegin(e: ExchangeId, locator: Locator)
    | ExchangeAbort(e: ExchangeId, refused: bool)
    | ExchangeSelect(e: ExchangeId, provider: Provider, state: OAuthState)
    | OwnerRegister(e: ExchangeId)
    | ExchangeAnnounce(e: ExchangeId, written: bool)
    | ExchangeTimeout(e: ExchangeId)
    | ExchangePeerClosed(e: ExchangeId)
    | OwnerRemove(e: ExchangeId)
    | ExchangeFinishRemove(e: ExchangeId)
    | ExchangeReceive(e: ExchangeId)
    | ExchangeLost(e: ExchangeId)
    | OwnerResolve(e: ExchangeId)
    | ExchangeRespond(e: ExchangeId)
    | CallbackBegin(c: CallbackId, route: Provider, authorization: Authorization, state: OAuthState, deadline: Time)
    | OwnerTake(c: CallbackId)
    | CallbackRoute(c: CallbackId)
    | CallbackVerify(c: CallbackId, verification: Verification)
    | CallbackSendComplete(c: CallbackId)
    | CallbackFinishTimeout(c: CallbackId)
    | OwnerComplete(c: CallbackId)
    | CallbackDrop(c: CallbackId)

  function Initial(capacity: nat): State {
    State(map[], map[], map[], {}, map[], 0, capacity)
  }

  // ---- helpers on states ----

  /** Whether the exchange still listens on its completion channel. */
  predicate Listening(s: State, e: ExchangeId) {
    e in s.exchanges && (s.exchanges[e].pc.Announcing? || s.exchanges[e].pc.Waiting?)
  }

  predicate Signalled(s: State, e: ExchangeId) {
    e in s.exchanges ==> s.exchanges[e].signalled
  }

  /** The table slots a sweep at `now` drops. */
  function Stale(places: map<Place, Entry>, now: Time): set<Place> {
    set p | p in places && p.InTable? && places[p].deadline <= now
  }

  function Swept(places: map<Place, Entry>, now: Time): map<Place, Entry> {
    places - Stale(places, now)
  }

  function TableSlots(places: map<Place, Entry>): set<Place> {
    set p | p in places && p.InTable?
  }

  function Move(places: map<Place, Entry>, from: Place, to: Place, entry: Entry): map<Place, Entry> {
    (places - {from})[to := entry]
  }

  /** Returns a finished transaction to its exchange, or drops it when nobody listens. */
  function Deliver(s: State, from: Place, entry: Entry): map<Place, Entry> {
    if Listening(s, entry.owner) then Move(s.places, from, InOutcome(entry.owner), entry) else s.places - {from}
  }

  function SetExchange(s: State, e: ExchangeId, x: Exchange): State {
    s.(exchanges := s.exchanges[e := x])
  }

  function SetPc(s: State, e: ExchangeId, pc: ExchangePc): State
    requires e in s.exchanges
  {
    SetExchange(s, e, s.exchanges[e].(pc := pc))
  }

  function SetCallback(s: State, c: CallbackId, x: CallbackTask): State {
    s.(callbacks := s.callbacks[c := x])
  }

  function SetCallbackPc(s: State, c: CallbackId, pc: CallbackPc): State
    requires c in s.callbacks
  {
    SetCallback(s, c, s.callbacks[c].(pc := pc))
  }

  // ---- the session work of one callback ----

  function Failing(entry: Entry, why: Failure, result: CallbackResult): Entry {
    entry.(session := After(entry.session, End(Failed(why))), result := Some(result))
  }

  /** The outcome of the verification race, applied to the taken entry. */
  function VerifiedEntry(entry: Entry, state: OAuthState, v: Verification): Entry {
    match v
    case Verified(member) =>
      var called := After(entry.session, Op.Callback(state, member));
      if Reply(entry.session, Op.Callback(state, member)) != Done
      then entry.(session := called, result := Some(ShowInvalid))
      else
        entry.(session := After(called, ValidateMember(true)),
               result := Some(if Reply(called, ValidateMember(true)) == Done then ShowAdmitted else ShowRejected))
    case InvalidCode => Failing(entry, InvalidState, ShowInvalid)
    case RejectedMember => Failing(entry, UserRejected, ShowRejected)
    case ProviderError => Failing(entry, Platform, ShowPlatform)
    case SawCancellation => entry.(session := After(entry.session, End(Cancelled)), result := Some(ShowInvalid))
    case HitDeadline => Failing(entry, Platform, ShowPlatform)
  }

  /** The owner's last look at a completion before it commits. */
  function CommittedEntry(s: State, c: CallbackTask, entry: Entry): Entry {
    if Signalled(s, entry.owner)
    then entry.(session := After(entry.session, End(Cancelled)), result := Some(ShowInvalid))
    else if s.clock >= c.deadline then Failing(entry, Platform, ShowPlatform)
    else entry
  }

  // ---- the steps ----

  predicate AtPc(s: State, e: ExchangeId, pc: ExchangePc) {
    e in s.exchanges && s.exchanges[e].pc == pc
  }

  predicate CallbackAt(s: State, c: CallbackId, pc: CallbackPc) {
    c in s.callbacks && s.callbacks[c].pc == pc && AtCallback(c) in s.places
  }

  predicate Enabled(s: State, step: Step) {
    match step
    case Tick(_) => true
    case Rendezvous(_) => true
    case ExchangeBegin(e, _) => e !in s.exchanges
    case ExchangeAbort(e, _) => AtPc(s, e, Selecting) && AtExchange(e) in s.places
    case ExchangeSelect(e, _, state) => AtPc(s, e, Selecting) && AtExchange(e) in s.places && state !in s.used
    case OwnerRegister(e) => AtPc(s, e, Registering) && InRegister(e) in s.places && s.exchanges[e].state.Some?
    case ExchangeAnnounce(e, _) => AtPc(s, e, Announcing)
    case ExchangeTimeout(e) => AtPc(s, e, Waiting) && s.clock >= s.exchanges[e].deadline
    case ExchangePeerClosed(e) => AtPc(s, e, Waiting)
    case OwnerRemove(e) => e in s.exchanges && s.exchanges[e].pc.Removing? && s.exchanges[e].state.Some?
    case ExchangeFinishRemove(e) => e in s.exchanges && s.exchanges[e].pc.Removed?
    case ExchangeReceive(e) => AtPc(s, e, Waiting) && InOutcome(e) in s.places && s.places[InOutcome(e)].result.Some?
    case ExchangeLost(e) => AtPc(s, e, Waiting) && forall p :: p in s.places ==> s.places[p].owner != e
    case OwnerResolve(e) => AtPc(s, e, AwaitingTarget) && AtExchange(e) in s.places
    case ExchangeRespond(e) => e in s.exchanges && s.exchanges[e].pc.GotTarget? && AtExchange(e) in s.places
    case CallbackBegin(c, _, _, _, _) => c !in s.callbacks
    case OwnerTake(c) => c in s.callbacks && s.callbacks[c].takeQueued
    case CallbackRoute(c) => CallbackAt(s, c, Holding)
    case CallbackVerify(c, v) =>
      && CallbackAt(s, c, Verifying)
      && (v.SawCancellation? ==> Signalled(s, s.places[AtCallback(c)].owner))
      && (v.HitDeadline? ==> s.clock >= s.callbacks[c].deadline)
    case CallbackSendComplete(c) => CallbackAt(s, c, Finishing(false)) || CallbackAt(s, c, Finishing(true))
    case CallbackFinishTimeout(c) =>
      (CallbackAt(s, c, Finishing(false)) || CallbackAt(s, c, Finishing(true))) && s.clock >= s.callbacks[c].deadline
    case OwnerComplete(c) => c in s.callbacks && InComplete(c) in s.places && s.places[InComplete(c)].result.Some?
    case CallbackDrop(c) => c in s.callbacks && !s.callbacks[c].pc.Shown?
  }

  function Begin(s: State, e: ExchangeId, locator: Locator): State {
    var session := After(Start(locator, s.clock), OfferProviders);
    SetExchange(s, e, Exchange(Selecting, locator, session.deadline, None, None, 0, false)).(
      places := s.places[AtExchange(e) := Entry(session, e, session.deadline, None)])
  }

  function Choose(s: State, e: ExchangeId, provider: Provider, state: OAuthState): State
    requires Enabled(s, ExchangeSelect(e, provider, state))
  {
    var entry := s.places[AtExchange(e)];
    var session := After(entry.session, Select(provider, Some(state)));
    var x := s.exchanges[e].(pc := Registering, provider := Some(provider), state := Some(state), sentAt := s.clock);
    SetExchange(s, e, x).(
      used := s.used + {state},
      places := Move(s.places, AtExchange(e), InRegister(e), entry.(session := session)))
  }

  function Register(s: State, e: ExchangeId): State
    requires Enabled(s, OwnerRegister(e))
  {
    var x, entry := s.exchanges[e], s.places[InRegister(e)];
    var swept := Swept(s.places, x.sentAt);
    if InTable(x.state.value) in swept || |TableSlots(swept)| >= s.capacity
    then SetPc(s, e, Returned(WroteFailed)).(places := swept - {InRegister(e)})
    else SetPc(s, e, Announcing).(places := Move(swept, InRegister(e), InTable(x.state.value), entry))
  }

  function Leave(s: State, e: ExchangeId, after: Written): State
    requires e in s.exchanges
  {
    SetExchange(s, e, s.exchanges[e].(pc := Removing(after), signalled := true)).(places := s.places - {InOutcome(e)})
  }

  function Remove(s: State, e: ExchangeId): State
    requires Enabled(s, OwnerRemove(e))
  {
    var x := s.exchanges[e];
    var slot := InTable(x.state.value);
    SetPc(s, e, Removed(x.pc.after)).(
      places := if slot in s.places then Move(s.places, slot, InRemoveReply(e), s.places[slot]) else s.places)
  }

  /** The exchange gives its completion up and returns. */
  function GiveUp(s: State, e: ExchangeId, wrote: Written): State
    requires e in s.exchanges
  {
    SetExchange(s, e, s.exchanges[e].(pc := Returned(wrote), signalled := true)).(places := s.places - {InOutcome(e)})
  }

  /** The exchange takes its session back and asks the owner for the target. */
  function Proceed(s: State, e: ExchangeId): State
    requires e in s.exchanges && InOutcome(e) in s.places
  {
    var entry := s.places[InOutcome(e)];
    SetExchange(s, e, s.exchanges[e].(pc := AwaitingTarget, signalled := true)).(
      places := Move(s.places, InOutcome(e), AtExchange(e), entry.(session := After(entry.session, BeginResolve))))
  }

  /** The exchange looks at its completion: only an unexpired admission goes on to resolve. */
  function Receive(s: State, e: ExchangeId): State
    requires Enabled(s, ExchangeReceive(e))
  {
    var entry := s.places[InOutcome(e)];
    if entry.result != Some(ShowAdmitted) then GiveUp(s, e, WroteFailed)
    else if s.clock >= entry.session.deadline then GiveUp(s, e, WroteExpired)
    else if Reply(entry.session, BeginResolve) != Done then GiveUp(s, e, NothingWritten)
    else Proceed(s, e)
  }

  /** The owner looks up the locator of the session that came back. */
  function Resolve(s: State, e: ExchangeId): State
    requires Enabled(s, OwnerResolve(e))
  {
    var l := s.places[AtExchange(e)].session.locator;
    SetPc(s, e, GotTarget(if l in s.active then Some(s.active[l]) else None))
  }

  function Respond(s: State, e: ExchangeId): State
    requires Enabled(s, ExchangeRespond(e))
  {
    var session, target := s.places[AtExchange(e)].session, s.exchanges[e].pc.target;
    var op := if target.Some? then Complete(target.value) else End(Unavailable);
    var wrote := if Reply(session, op) != Done then NothingWritten
                 else if target.Some? then WroteResolved(target.value) else WroteUnavailable;
    SetPc(s, e, Returned(wrote)).(places := s.places - {AtExchange(e)})
  }

  /** The single-use lookup; a callback that gave up in the meantime loses the entry for good. */
  function Take(s: State, c: CallbackId): State
    requires Enabled(s, OwnerTake(c))
  {
    var x := s.callbacks[c];
    var swept, slot := Swept(s.places, x.sentAt), InTable(x.state);
    var done := x.(takeQueued := false);
    if slot in swept then
      if x.pc.Taking?
      then SetCallback(s, c, done.(pc := Holding)).(places := Move(swept, slot, AtCallback(c), swept[slot]))
      else SetCallback(s, c, done).(places := swept - {slot})
    else SetCallback(s, c, if x.pc.Taking? then done.(pc := Shown(ShowInvalid)) else done).(places := swept)
  }

  /** The callback has decided and will report the entry. */
  function Decide(s: State, c: CallbackId, mismatch: bool, entry: Entry): State
    requires c in s.callbacks
  {
    SetCallbackPc(s, c, Finishing(mismatch)).(places := s.places[AtCallback(c) := entry])
  }

  function Route(s: State, c: CallbackId): State
    requires Enabled(s, CallbackRoute(c))
  {
    var x, entry := s.callbacks[c], s.places[AtCallback(c)];
    if entry.session.provider != Some(x.route) then Decide(s, c, true, Failing(entry, InvalidState, ShowInvalid))
    else match x.authorization
      case Denied => Decide(s, c, false, Failing(entry, UserRejected, ShowRejected))
      case ProviderFailed => Decide(s, c, false, Failing(entry, Platform, ShowPlatform))
      case Code => SetCallbackPc(s, c, Verifying)
  }

  function Verify(s: State, c: CallbackId, v: Verification): State
    requires Enabled(s, CallbackVerify(c, v))
  {
    Decide(s, c, false, VerifiedEntry(s.places[AtCallback(c)], s.callbacks[c].state, v))
  }

  /** What the browser sees: a mismatched route is refused whatever the owner commits. */
  function Display(mismatch: bool, result: CallbackResult): CallbackPc {
    Shown(if mismatch then ShowInvalid else result)
  }

  function FinishTimeout(s: State, c: CallbackId): State
    requires Enabled(s, CallbackFinishTimeout(c))
  {
    SetCallbackPc(s, c, Display(s.callbacks[c].pc.mismatch, ShowPlatform)).(
      places := Deliver(s, AtCallback(c), Failing(s.places[AtCallback(c)], Platform, ShowPlatform)))
  }

  function Commit(s: State, c: CallbackId): State
    requires Enabled(s, OwnerComplete(c))
  {
    var x := s.callbacks[c];
    var entry := CommittedEntry(s, x, s.places[InComplete(c)]);
    SetCallbackPc(s, c, if x.pc.Completing? then Display(x.pc.mismatch, entry.result.value) else x.pc).(
      places := Deliver(s, InComplete(c), entry))
  }

  function Apply(s: State, step: Step): State
    requires Enabled(s, step)
  {
    match step
    case Tick(elapsed) => s.(clock := s.clock + elapsed)
    case Rendezvous(active) => s.(active := active)
    case ExchangeBegin(e, locator) => Begin(s, e, locator)
    case ExchangeAbort(e, refused) =>
      SetPc(s, e, Returned(if refused then WroteFailed else NothingWritten)).(places := s.places - {AtExchange(e)})
    case ExchangeSelect(e, provider, state) => Choose(s, e, provider, state)
    case OwnerRegister(e) => Register(s, e)
    case ExchangeAnnounce(e, written) => if written then SetPc(s, e, Waiting) else Leave(s, e, NothingWritten)
    case ExchangeTimeout(e) => Leave(s, e, WroteExpired)
    case ExchangePeerClosed(e) => Leave(s, e, NothingWritten)
    case OwnerRemove(e) => Remove(s, e)
    case ExchangeFinishRemove(e) =>
      SetPc(s, e, Returned(s.exchanges[e].pc.after)).(places := s.places - {InRemoveReply(e)})
    case ExchangeReceive(e) => Receive(s, e)
    case ExchangeLost(e) => SetExchange(s, e, s.exchanges[e].(pc := Returned(WroteFailed), signalled := true))
    case OwnerResolve(e) => Resolve(s, e)
    case ExchangeRespond(e) => Respond(s, e)
    case CallbackBegin(c, route, authorization, state, deadline) =>
      SetCallback(s, c, CallbackTask(Taking, route, authorization, state, s.clock, deadline, true))
    case OwnerTake(c) => Take(s, c)
    case CallbackRoute(c) => Route(s, c)
    case CallbackVerify(c, v) => Verify(s, c, v)
    case CallbackSendComplete(c) =>
      SetCallbackPc(s, c, Completing(s.callbacks[c].pc.mismatch)).(
        places := Move(s.places, AtCallback(c), InComplete(c), s.places[AtCallback(c)]))
    case CallbackFinishTimeout(c) => FinishTimeout(s, c)
    case OwnerComplete(c) => Commit(s, c)
    case CallbackDrop(c) => SetCallbackPc(s, c, Shown(ShowPlatform)).(places := s.places - {AtCallback(c)})
  }

  /** A run of the protocol from the empty relay. */
  ghost predicate Run(capacity: nat, states: seq<State>, steps: seq<Step>) {
    && |states| == |steps| + 1
    && states[0] == Initial(capacity)
    && forall i {:trigger steps[i]} :: 0 <= i < |steps| ==>
         Enabled(states[i], steps[i]) && states[i + 1] == Apply(states[i], steps[i])
  }
}
