/**
 Member verification against a provider that may answer anything. The provider is a function of the
 whole conversation so far, and between two acquisitions of the token mutex other tasks may leave
 anything in the cache.
 */
module Verifier {
  import opened Common
  import opened TokenCache

  const MAX_EXCHANGE_RESPONSE_BYTES: nat := 64 * 1024
  const MAX_PROVIDER_TOKEN_BYTES: nat := 4 * 1024
  const MAX_AUTHORIZATION_CODE_BYTES: nat := 512
  const MAX_IDENTITY_BYTES: nat := 256

  const WECOM_TOKEN_INVALID: set<int> := {40_014, 42_001}
  const WECOM_OAUTH_CODE_REJECTED: set<int> := {40_029, 42_003, 42_022}
  const WECOM_MEMBER_REJECTED: set<int> := {60_021, 60_111}
  const FEISHU_TENANT_TOKEN_INVALID: set<int> := {99_991_663, 99_991_665}
  const FEISHU_MEMBER_REJECTED: set<int> := {20_008, 20_010, 20_021, 20_022, 20_023}
  const FEISHU_USER_TOKEN_INVALID: int := 99_991_668

  datatype EmployeeStatus = EmployeeStatus(
    activated: Option<bool>, frozen: Option<bool>, resigned: Option<bool>, exited: Option<bool>, unjoined: Option<bool>)
  {
    predicate Active() {
      && activated == Some(true) && frozen == Some(false) && resigned == Some(false)
      && exited == Some(false) && unjoined == Some(false)
    }
  }

  datatype Employee = Employee(userId: string, tenantKey: string)

  /** A decoded response body; `Garbage` does not decode. */
  datatype Body =
    | TokenBody(errcode: int, token: string, expiresIn: nat)
    | UserBody(errcode: int, userid: Option<string>)
    | MemberBody(errcode: int, status: Option<int>)
    | OAuthBody(code: Option<int>, userToken: string, lifetime: nat, error: Option<string>)
    | EmployeeBody(errcode: int, data: Option<Employee>)
    | StatusBody(errcode: int, employee: Option<EmployeeStatus>)
    | Garbage

  datatype Reply = TransportFailed | Oversized | Answer(status: nat, length: nat, body: Body)

  datatype Request =
    | FetchToken
    | UserInfo(token: string, code: string)
    | MemberStatus(token: string, userid: string)
    | OAuthToken(code: string)
    | EmployeeInfo(userToken: string)
    | EmployeeLookup(token: string, userid: string)

  datatype Exchange = Exchange(request: Request, reply: Reply)

  datatype Failure = TokenInvalid | Rejected | Platform | ResponseTooLarge
  datatype Outcome = Ok(text: string) | Err(failure: Failure)

  datatype VerifyError = PlatformError | MemberRejected | TooLarge | InvalidCode
  datatype Verdict = Member(identity: string) | Denied(error: VerifyError)

  function ToVerifyError(f: Failure): VerifyError {
    match f
    case Rejected => MemberRejected
    case ResponseTooLarge => TooLarge
    case TokenInvalid => PlatformError
    case Platform => PlatformError
  }

  predicate Success(reply: Reply) {
    reply.Answer? && 200 <= reply.status < 300
  }

  /** The failure of a reply that is not a bounded body at all. */
  function Unusable(reply: Reply): Option<Failure> {
    match reply
    case TransportFailed => Some(Platform)
    case Oversized => Some(ResponseTooLarge)
    case Answer(_, length, body) =>
      if length > MAX_EXCHANGE_RESPONSE_BYTES then Some(ResponseTooLarge)
      else if body.Garbage? then Some(Platform) else None
  }

  predicate ProviderToken(t: string) {
    && 0 < Utf8Length(t) <= MAX_PROVIDER_TOKEN_BYTES
    && forall i :: 0 <= i < |t| ==> !IsSpace(t[i])
  }

  /** The characters with the Unicode property White_Space. */
  predicate IsSpace(c: char) {
    || c == ' ' || '\t' <= c <= '\r' || c == '\U{85}' || c == '\U{a0}' || c == '\U{1680}'
    || '\U{2000}' <= c <= '\U{200a}' || c == '\U{2028}' || c == '\U{2029}' || c == '\U{202f}'
    || c == '\U{205f}' || c == '\U{3000}'
  }

  /** The token and the lifetime in seconds of a token response. */
  function TokenAnswer(reply: Reply): Outcome {
    if Unusable(reply).Some? then Err(Unusable(reply).value)
    else if !reply.body.TokenBody? || !Success(reply) || reply.body.errcode != 0 then Err(Platform)
    else if !ProviderToken(reply.body.token) || Anomalous(reply.body.expiresIn * SECOND) then Err(Platform)
    else Ok(reply.body.token)
  }

  function UserAnswer(reply: Reply): Outcome {
    if Unusable(reply).Some? then Err(Unusable(reply).value)
    else if !reply.body.UserBody? then Err(Platform)
    else
      var code := reply.body.errcode;
      if code in WECOM_TOKEN_INVALID then Err(TokenInvalid)
      else if code in WECOM_OAUTH_CODE_REJECTED || code in WECOM_MEMBER_REJECTED then Err(Rejected)
      else if !Success(reply) || code != 0 then Err(Platform)
      else if reply.body.userid.None? || reply.body.userid.value == "" then Err(Rejected)
      else Ok(reply.body.userid.value)
  }

  function MemberAnswer(reply: Reply): Outcome {
    if Unusable(reply).Some? then Err(Unusable(reply).value)
    else if !reply.body.MemberBody? then Err(Platform)
    else
      var code := reply.body.errcode;
      if code in WECOM_TOKEN_INVALID then Err(TokenInvalid)
      else if code in WECOM_MEMBER_REJECTED then Err(Rejected)
      else if !Success(reply) || code != 0 then Err(Platform)
      else if reply.body.status == Some(1) then Ok("")
      else Err(Rejected)
  }

  function OAuthAnswer(reply: Reply): Outcome {
    if Unusable(reply).Some? then Err(Unusable(reply).value)
    else if !reply.body.OAuthBody? then Err(Platform)
    else if !Success(reply) then Err(if reply.body.error == Some("invalid_grant") then Rejected else Platform)
    else if reply.body.code.Some? && reply.body.code.value != 0 then Err(Platform)
    else if !ProviderToken(reply.body.userToken) || Anomalous(reply.body.lifetime * SECOND) then Err(Platform)
    else Ok(reply.body.userToken)
  }

  function EmployeeAnswer(tenant: string, reply: Reply): Outcome {
    if Unusable(reply).Some? then Err(Unusable(reply).value)
    else if !reply.body.EmployeeBody? || !Success(reply) then Err(Platform)
    else if reply.body.errcode != 0 then
      Err(if reply.body.errcode == FEISHU_USER_TOKEN_INVALID then Rejected else Platform)
    else if reply.body.data.None? then Err(Platform)
    else if reply.body.data.value.tenantKey != tenant || reply.body.data.value.userId == "" then Err(Rejected)
    else Ok(reply.body.data.value.userId)
  }

  function StatusAnswer(reply: Reply): Outcome {
    if Unusable(reply).Some? then Err(Unusable(reply).value)
    else if !reply.body.StatusBody? then Err(Platform)
    else
      var code := reply.body.errcode;
      if code in FEISHU_TENANT_TOKEN_INVALID then Err(TokenInvalid)
      else if code in FEISHU_MEMBER_REJECTED then Err(Rejected)
      else if !Success(reply) || code != 0 then Err(Platform)
      else if reply.body.employee.Some? && reply.body.employee.value.Active() then Ok("")
      else Err(Rejected)
  }

  /** How one exchange came out, whatever it asked. */
  function Classify(tenant: string, e: Exchange): Outcome {
    match e.request
    case FetchToken => TokenAnswer(e.reply)
    case UserInfo(_, _) => UserAnswer(e.reply)
    case MemberStatus(_, _) => MemberAnswer(e.reply)
    case OAuthToken(_) => OAuthAnswer(e.reply)
    case EmployeeInfo(_) => EmployeeAnswer(tenant, e.reply)
    case EmployeeLookup(_, _) => StatusAnswer(e.reply)
  }

  predicate Identity(user: string) {
    0 < Utf8Length(user) <= MAX_IDENTITY_BYTES
  }

  datatype Stage = WecomStatus | FeishuStatus

  function StatusRequest(stage: Stage, token: string, user: string): Request {
    match stage
    case WecomStatus => MemberStatus(token, user)
    case FeishuStatus => EmployeeLookup(token, user)
  }

  /** A successful, bounded answer with exactly this body. */
  ghost predicate Says(reply: Reply, body: Body) {
    reply.Answer? && 200 <= reply.status < 300 && reply.length <= 65_536 && reply.body == body
  }

  /** The exchange in which this code bought this user id. */
  ghost predicate Named(e: Exchange, code: string, user: string) {
    e.request.UserInfo? && e.request.code == code && user != "" && Says(e.reply, UserBody(0, Some(user)))
  }

  /** The exchanges in which this code bought a user token, and the token named an employee of our tenant. */
  ghost predicate Employs(tenant: string, bought: Exchange, told: Exchange, code: string, user: string) {
    && bought.request == OAuthToken(code) && Success(bought.reply) && bought.reply.body.OAuthBody?
    && told.request == EmployeeInfo(bought.reply.body.userToken)
    && user != "" && Says(told.reply, EmployeeBody(0, Some(Employee(user, tenant))))
  }

  const ACTIVE_EMPLOYEE: EmployeeStatus :=
    EmployeeStatus(Some(true), Some(false), Some(false), Some(false), Some(false))

  /** The provider answered that this very user is an active member. */
  ghost predicate Confirms(stage: Stage, e: Exchange, user: string) {
    match stage
    case WecomStatus =>
      e.request.MemberStatus? && e.request.userid == user && Says(e.reply, MemberBody(0, Some(1)))
    case FeishuStatus =>
      e.request.EmployeeLookup? && e.request.userid == user && Says(e.reply, StatusBody(0, Some(ACTIVE_EMPLOYEE)))
  }

  /** A member is reported only after the provider's last word was that this code's user is active. */
  ghost predicate WecomEvidence(log: seq<Exchange>, start: nat, code: string, r: Verdict) {
    r.Member? ==>
      && Identity(r.identity)
      && (exists i :: start <= i < |log| - 1 && Named(log[i], code, r.identity))
      && Confirms(WecomStatus, log[|log| - 1], r.identity)
  }

  ghost predicate FeishuEvidence(tenant: string, log: seq<Exchange>, start: nat, code: string, r: Verdict) {
    r.Member? ==>
      && Identity(r.identity)
      && start + 3 <= |log| && Employs(tenant, log[start], log[start + 1], code, r.identity)
      && Confirms(FeishuStatus, log[|log| - 1], r.identity)
  }

  /** An active answer about a user whose id fits is never turned down. */
  ghost predicate Admits(stage: Stage, log: seq<Exchange>, r: Verdict) {
    log != [] && forall user :: Identity(user) && Confirms(stage, log[|log| - 1], user) ==> r == Member(user)
  }

  lemma NobodyToAdmit(stage: Stage, log: seq<Exchange>, r: Verdict)
    requires log != [] && !LooksUp(log[|log| - 1].request)
    ensures Admits(stage, log, r)
  {
  }

  lemma EvidenceFound(early: seq<Exchange>, log: seq<Exchange>, start: nat, code: string, user: string, r: Verdict)
    requires start < |early| && early < log && Named(early[|early| - 1], code, user)
    requires ConfirmedAs(WecomStatus, log, user, r)
    ensures WecomEvidence(log, start, code, r)
  {
    assert log[|early| - 1] == early[|early| - 1];
  }

  ghost predicate ConfirmedAs(stage: Stage, log: seq<Exchange>, user: string, r: Verdict) {
    r.Member? ==> log != [] && r.identity == user && Identity(user) && Confirms(stage, log[|log| - 1], user)
  }

  predicate LooksUp(request: Request) {
    request.MemberStatus? || request.EmployeeLookup?
  }

  predicate FailsAt(tenant: string, log: seq<Exchange>, i: nat) {
    i < |log| && Classify(tenant, log[i]) == Err(TokenInvalid)
  }

  /** From `start` on, the provider called some token invalid. */
  ghost predicate TokenFailed(tenant: string, log: seq<Exchange>, start: nat) {
    exists i: nat :: start <= i && FailsAt(tenant, log, i)
  }

  /** A conversation ends on an invalid token only after an earlier token was called invalid too, and reported. */
  ghost predicate Retries(tenant: string, log: seq<Exchange>, start: nat, reported: int) {
    log != [] && Classify(tenant, log[|log| - 1]) == Err(TokenInvalid) ==>
      reported == 1 && TokenFailed(tenant, log[..|log| - 1], start)
  }

  lemma RetriesSooner(tenant: string, log: seq<Exchange>, later: nat, start: nat, reported: int)
    requires start <= later && Retries(tenant, log, later, reported)
    ensures Retries(tenant, log, start, reported)
  {
  }

  lemma FailureRemembered(tenant: string, early: seq<Exchange>, log: seq<Exchange>, start: nat)
    requires early < log && TokenFailed(tenant, early, start)
    ensures TokenFailed(tenant, log, start) && Retries(tenant, log, start, 1)
  {
    var i: nat :| start <= i && FailsAt(tenant, early, i);
    assert log[i] == early[i] && log[..|log| - 1][i] == early[i];
    assert FailsAt(tenant, log, i) && FailsAt(tenant, log[..|log| - 1], i);
  }

  /** Every exchange from `start` on is what the provider answered at that point of the conversation. */
  ghost predicate Honest(oracle: (seq<Exchange>, Request) -> Reply, log: seq<Exchange>, start: nat) {
    forall i :: start <= i < |log| ==> log[i].reply == oracle(log[..i], log[i].request)
  }

  lemma HonestJoin(oracle: (seq<Exchange>, Request) -> Reply, early: seq<Exchange>, log: seq<Exchange>, start: nat)
    requires start <= |early| && early <= log && Honest(oracle, early, start) && Honest(oracle, log, |early|)
    ensures Honest(oracle, log, start)
  {
    forall i | start <= i < |log| ensures log[i].reply == oracle(log[..i], log[i].request) {
      if i < |early| {
        assert log[..i] == early[..i];
      }
    }
  }

  /** A printable token of moderate length. */
  predicate PlainToken(token: string) {
    0 < |token| <= 1024 && forall i :: 0 <= i < |token| ==> '!' <= token[i] <= '~'
  }

  lemma PlainTokenIsAccepted(token: string)
    requires PlainToken(token)
    ensures ProviderToken(token)
  {
    Utf8Bounds(token);
  }

  /** The answer a provider gives that knows `user` as an active member of `tenant` and has good tokens. */
  ghost predicate Helps(tenant: string, user: string, e: Exchange) {
    match e.request
    case FetchToken =>
      exists token, seconds ::
        PlainToken(token) && 0 < seconds <= 86_400 && Says(e.reply, TokenBody(0, token, seconds))
    case UserInfo(_, _) => Says(e.reply, UserBody(0, Some(user)))
    case MemberStatus(_, asked) => asked == user ==> Says(e.reply, MemberBody(0, Some(1)))
    case OAuthToken(_) =>
      exists token, seconds ::
        PlainToken(token) && 0 < seconds <= 86_400 && Says(e.reply, OAuthBody(Some(0), token, seconds, None))
    case EmployeeInfo(_) => Says(e.reply, EmployeeBody(0, Some(Employee(user, tenant))))
    case EmployeeLookup(_, asked) => asked == user ==> Says(e.reply, StatusBody(0, Some(ACTIVE_EMPLOYEE)))
  }

  /** Each helpful answer is accepted. */
  lemma HelpIsAccepted(tenant: string, user: string, e: Exchange)
    requires user != "" && Helps(tenant, user, e)
    ensures e.request.FetchToken? || e.request.OAuthToken? ==> Classify(tenant, e).Ok?
    ensures e.request.UserInfo? || e.request.EmployeeInfo? ==> Classify(tenant, e) == Ok(user)
    ensures e.request.MemberStatus? && e.request.userid == user ==> Classify(tenant, e).Ok?
    ensures e.request.EmployeeLookup? && e.request.userid == user ==> Classify(tenant, e).Ok?
  {
    match e.request
    case FetchToken => PlainTokenIsAccepted(e.reply.body.token);
    case OAuthToken(_) => PlainTokenIsAccepted(e.reply.body.userToken);
    case _ =>
  }

  // ---- what each failure means, in the provider's own codes ----

  /** A response that arrived, within bounds, and decoded. */
  predicate Bounded(reply: Reply) {
    reply.Answer? && reply.length <= MAX_EXCHANGE_RESPONSE_BYTES && !reply.body.Garbage?
  }

  lemma TooLargeMeans(tenant: string, e: Exchange)
    ensures Classify(tenant, e) == Err(ResponseTooLarge) <==>
            e.reply.Oversized? || (e.reply.Answer? && e.reply.length > 65_536)
  {
  }

  lemma TokenInvalidMeans(tenant: string, e: Exchange)
    ensures Classify(tenant, e) == Err(TokenInvalid) <==>
            && Bounded(e.reply)
            && match e.request
               case UserInfo(_, _) => e.reply.body.UserBody? && e.reply.body.errcode in {40_014, 42_001}
               case MemberStatus(_, _) => e.reply.body.MemberBody? && e.reply.body.errcode in {40_014, 42_001}
               case EmployeeLookup(_, _) => e.reply.body.StatusBody? && e.reply.body.errcode in {99_991_663, 99_991_665}
               case _ => false
  {
  }

  /** The provider refused the code or the member. */
  predicate RefusedBy(tenant: string, request: Request, reply: Reply)
    requires reply.Answer?
  {
    match request
    case FetchToken => false
    case UserInfo(_, _) =>
      && reply.body.UserBody?
      && (reply.body.errcode in {40_029, 42_003, 42_022, 60_021, 60_111}
          || (Success(reply) && reply.body.errcode == 0 && reply.body.userid in {None, Some("")}))
    case MemberStatus(_, _) =>
      && reply.body.MemberBody?
      && (reply.body.errcode in {60_021, 60_111}
          || (Success(reply) && reply.body.errcode == 0 && reply.body.status != Some(1)))
    case OAuthToken(_) => reply.body.OAuthBody? && !Success(reply) && reply.body.error == Some("invalid_grant")
    case EmployeeInfo(_) =>
      && reply.body.EmployeeBody? && Success(reply)
      && (reply.body.errcode == 99_991_668
          || (reply.body.errcode == 0 && reply.body.data.Some?
              && (reply.body.data.value.tenantKey != tenant || reply.body.data.value.userId == "")))
    case EmployeeLookup(_, _) =>
      && reply.body.StatusBody?
      && (reply.body.errcode in {20_008, 20_010, 20_021, 20_022, 20_023}
          || (Success(reply) && reply.body.errcode == 0 && reply.body.employee != Some(ACTIVE_EMPLOYEE)))
  }

  lemma RejectedMeans(tenant: string, e: Exchange)
    ensures Classify(tenant, e) == Err(Rejected) <==> Bounded(e.reply) && RefusedBy(tenant, e.request, e.reply)
  {
  }

  predicate IsMalformed(code: string) {
    code == "" || Utf8Length(code) > 512
  }

  class Provider {
    const oracle: (seq<Exchange>, Request) -> Reply
    const others: (nat, Option<Cached>) -> Option<Cached>
    const clock: nat -> Time
    const cache: ProviderTokenCache
    const tenant: string
    /** The conversation with the provider. */
    var log: seq<Exchange>
    /** Acquisitions of the token mutex, and how many of them were to report a failed token. */
    var turns: nat
    var reports: nat

    constructor (oracle: (seq<Exchange>, Request) -> Reply, others: (nat, Option<Cached>) -> Option<Cached>,
                 clock: nat -> Time, horizon: Time, tenant: string)
      ensures fresh(cache) && log == [] && turns == 0 && reports == 0
      ensures this.oracle == oracle && this.others == others && this.clock == clock && this.tenant == tenant
    {
      this.oracle, this.others, this.clock, this.tenant := oracle, others, clock, tenant;
      cache := new ProviderTokenCache(horizon);
      log, turns, reports := [], 0, 0;
    }

    /** The provider helps throughout, and its tokens never outlive the clock. */
    ghost predicate Helpful(user: string) {
      && user != "" && 0 < Utf8Length(user) <= 256
      && (forall past: seq<Exchange>, request: Request ::
            Helps(tenant, user, Exchange(request, oracle(past, request))))
      && forall t: nat :: clock(t) + MAX_PROVIDER_TOKEN_TTL <= cache.horizon
    }

    /** The last exchange decides the error, and an accepted answer is followed by a denial only when the new token
        would outlive the clock or the user id does not fit. */
    ghost predicate Verdicts(log: seq<Exchange>, r: Verdict) {
      && log != []
      && match Classify(tenant, log[|log| - 1])
         case Err(Rejected) => r == Denied(MemberRejected)
         case Err(ResponseTooLarge) => r == Denied(TooLarge)
         case Err(_) => r == Denied(PlatformError)
         case Ok(_) => r.Member? || (r == Denied(PlatformError) && Misfit(log[|log| - 1]))
    }

    lemma AcceptedLookup(stage: Stage, log: seq<Exchange>, token: string, user: string, r: Verdict)
      requires log != [] && log[|log| - 1].request == StatusRequest(stage, token, user)
      requires Classify(tenant, log[|log| - 1]).Ok?
      requires r == if Identity(user) then Member(user) else Denied(PlatformError)
      ensures Verdicts(log, r) && Admits(stage, log, r) && ConfirmedAs(stage, log, user, r)
    {
    }

    lemma RefusedLookup(stage: Stage, log: seq<Exchange>, failure: Failure)
      requires log != [] && Classify(tenant, log[|log| - 1]) == Err(failure)
      ensures Verdicts(log, Denied(ToVerifyError(failure))) && Admits(stage, log, Denied(ToVerifyError(failure)))
    {
    }

    ghost predicate Misfit(e: Exchange) {
      match e.request
      case FetchToken =>
        && e.reply.Answer? && e.reply.body.TokenBody?
        && exists t: nat :: clock(t) + UsableFor(e.reply.body.expiresIn * SECOND) > cache.horizon
      case MemberStatus(_, user) => user == "" || Utf8Length(user) > 256
      case EmployeeLookup(_, user) => user == "" || Utf8Length(user) > 256
      case _ => false
    }

    method Send(request: Request) returns (reply: Reply)
      modifies `log
      ensures log == old(log) + [Exchange(request, reply)] && reply == oracle(old(log), request)
    {
      reply := oracle(log, request);
      log := log + [Exchange(request, reply)];
    }

    method Lock()
      modifies `turns, cache
      ensures turns == old(turns) + 1 && cache.entry == others(old(turns), old(cache.entry))
    {
      cache.entry := others(turns, cache.entry);
      turns := turns + 1;
    }

    /** The cached token without asking while it is fresh; otherwise one fetch, whose result is what is handed out. */
    method Acquire() returns (r: Outcome)
      modifies this, cache
      ensures turns == old(turns) + 1 && reports == old(reports)
      ensures r.Ok? ==> cache.entry.Some? && r.text == cache.entry.value.value
      ensures var found, now := others(old(turns), old(cache.entry)), clock(2 * turns);
              if found.Some? && now < found.value.usableUntil then log == old(log) && r == Ok(found.value.value)
              else
                && log == old(log) + [Exchange(FetchToken, oracle(old(log), FetchToken))]
                && var reply := oracle(old(log), FetchToken);
                   match TokenAnswer(reply)
                   case Err(failure) => r == Err(failure)
                   case Ok(token) =>
                     r == if Storable(cache.horizon, clock(2 * turns + 1), reply.body.expiresIn * SECOND)
                          then Ok(token) else Err(Platform)
    {
      Lock();
      var hit := cache.Fresh(clock(2 * turns));
      if hit.Some? {
        return Ok(hit.value);
      }
      var reply := Send(FetchToken);
      if TokenAnswer(reply).Err? {
        return TokenAnswer(reply);
      }
      var stored := cache.StoreThenFresh(reply.body.token, reply.body.expiresIn * SECOND, clock(2 * turns + 1));
      r := if stored.Some? then Ok(stored.value) else Err(Platform);
    }

    /** A token, or the failure of the one fetch that was made for it. */
    method AccessToken(ghost user: string) returns (r: Outcome)
      modifies this, cache
      ensures Honest(oracle, log, |old(log)|) && (Helpful(user) ==> r.Ok?)
      ensures turns == old(turns) + 1 && reports == old(reports)
      ensures log == old(log) ==> r.Ok?
      ensures log != old(log) ==>
                && |log| == |old(log)| + 1 && old(log) <= log && log[|log| - 1].request == FetchToken
                && var c := Classify(tenant, log[|log| - 1]);
                   (c.Err? ==> r == c && r != Err(TokenInvalid)) && (c.Ok? ==> r == c || r == Err(Platform))
      ensures r.Err? ==> Verdicts(log, Denied(ToVerifyError(r.failure)))
    {
      r := Acquire();
      if Helpful(user) {
        HelpIsAccepted(tenant, user, Exchange(FetchToken, oracle(old(log), FetchToken)));
      }
    }

    method Report(failed: string)
      modifies `turns, `reports, cache
      ensures turns == old(turns) + 1 && reports == old(reports) + 1
      ensures cache.entry.Some? ==> cache.entry.value.value != failed
    {
      Lock();
      cache.InvalidateIf(failed);
      reports := reports + 1;
    }

    /** One request whose outcome is how its exchange classifies. */
    method Call(request: Request, ghost user: string) returns (r: Outcome)
      modifies `log
      ensures Honest(oracle, log, |old(log)|)
      ensures Helpful(user) && (request.OAuthToken? || (LooksUp(request) && request.userid == user)) ==> r.Ok?
      ensures Helpful(user) && (request.UserInfo? || request.EmployeeInfo?) ==> r == Ok(user)
      ensures |log| == |old(log)| + 1 && old(log) <= log
      ensures log[|log| - 1].request == request && r == Classify(tenant, log[|log| - 1])
    {
      var reply := Send(request);
      if Helpful(user) {
        HelpIsAccepted(tenant, user, Exchange(request, reply));
      }
      r := Classify(tenant, Exchange(request, reply));
    }

    /** Reports a failed token and gets another one, in a conversation that began at `start`. */
    method Refresh(failed: string, ghost start: nat) returns (r: Outcome)
      requires start <= |log| && Honest(oracle, log, start) && TokenFailed(tenant, log, start)
      modifies this, cache
      ensures Honest(oracle, log, start) && TokenFailed(tenant, log, start)
      ensures turns == old(turns) + 2 && reports == old(reports) + 1
      ensures old(log) <= log
      ensures |old(log)| <= |log| <= |old(log)| + 1
      ensures r.Err? ==>
                && |log| == |old(log)| + 1 && log[|log| - 1].request.FetchToken?
                && Verdicts(log, Denied(ToVerifyError(r.failure))) && Retries(tenant, log, start, 1)
    {
      ghost var early := log;
      Report(failed);
      r := AccessToken("");
      HonestJoin(oracle, early, log, start);
      if early < log {
        FailureRemembered(tenant, early, log, start);
      }
    }

    /** One attempt to buy a user id with the code. */
    method NameUser(code: string, token: string, ghost known: string) returns (user: Outcome)
      modifies `log
      ensures |log| == |old(log)| + 1 && old(log) <= log && Honest(oracle, log, |old(log)|)
      ensures log[|log| - 1].request == UserInfo(token, code)
      ensures if user.Ok? then Named(log[|log| - 1], code, user.text)
              else Verdicts(log, Denied(ToVerifyError(user.failure)))
      ensures user == Err(TokenInvalid) <==> Classify(tenant, log[|log| - 1]) == Err(TokenInvalid)
      ensures Helpful(known) ==> user == Ok(known)
    {
      user := Call(UserInfo(token, code), known);
    }

    /** The first stage: the code buys a user id, possibly after a refresh. */
    method IdentifyWecom(code: string, first: string, ghost known: string)
      returns (user: Outcome, token: string, refreshed: bool)
      modifies this, cache
      ensures Honest(oracle, log, |old(log)|) && (Helpful(known) ==> user == Ok(known))
      ensures old(log) <= log
      ensures old(reports) <= reports <= old(reports) + 1 && turns == old(turns) + 2 * (reports - old(reports))
      ensures |old(log)| < |log| <= |old(log)| + 1 + 2 * (reports - old(reports))
      ensures user.Ok? ==> reports == old(reports) + (if refreshed then 1 else 0)
      ensures user.Ok? ==> Named(log[|log| - 1], code, user.text) && log[|log| - 1].request.token == token
      ensures !refreshed ==> token == first
      ensures user.Err? ==> Verdicts(log, Denied(ToVerifyError(user.failure)))
      ensures Retries(tenant, log, |old(log)|, reports - old(reports))
      ensures refreshed ==> TokenFailed(tenant, log, |old(log)|)
      ensures user.Err? ==> !LooksUp(log[|log| - 1].request)
    {
      ghost var start := |log|;
      token, refreshed := first, false;
      while true
        invariant reports == old(reports) + (if refreshed then 1 else 0)
        invariant turns == old(turns) + 2 * (reports - old(reports))
        invariant start <= |log| <= start + 2 * (reports - old(reports))
        invariant old(log) <= log && Honest(oracle, log, start)
        invariant refreshed ==> TokenFailed(tenant, log, start)
        invariant !refreshed ==> token == first
        decreases if refreshed then 0 else 1
      {
        ghost var early := log;
        user := NameUser(code, token, known);
        HonestJoin(oracle, early, log, start);
        if refreshed {
          FailureRemembered(tenant, early, log, start);
        }
        if user.Ok? || user.failure != TokenInvalid || refreshed {
          return;
        }
        assert TokenFailed(tenant, log, start) by {
          assert FailsAt(tenant, log, |log| - 1);
        }
        var t := Refresh(token, start);
        if t.Err? {
          return t, token, refreshed;
        }
        token, refreshed := t.text, true;
      }
    }

    /** One lookup of the user, and whether it failed because of the token. */
    method LookUp(stage: Stage, user: string, token: string) returns (r: Verdict, invalid: bool)
      modifies `log
      ensures |log| == |old(log)| + 1 && old(log) <= log && Honest(oracle, log, |old(log)|)
      ensures log[|log| - 1].request == StatusRequest(stage, token, user)
      ensures Verdicts(log, r) && Admits(stage, log, r) && ConfirmedAs(stage, log, user, r)
      ensures invalid <==> Classify(tenant, log[|log| - 1]) == Err(TokenInvalid)
      ensures Helpful(user) ==> r == Member(user) && !invalid
    {
      var answer := Call(StatusRequest(stage, token, user), user);
      if answer.Ok? {
        r, invalid := if Identity(user) then Member(user) else Denied(PlatformError), false;
        AcceptedLookup(stage, log, token, user, r);
      } else {
        r, invalid := Denied(ToVerifyError(answer.failure)), answer.failure == TokenInvalid;
        RefusedLookup(stage, log, answer.failure);
      }
    }

    /** The last stage: the user is looked up, with a refresh unless one was already spent. */
    method Confirm(stage: Stage, user: string, first: string, spent: bool) returns (r: Verdict)
      modifies this, cache
      ensures old(log) <= log
      ensures |old(log)| < |log| <= |old(log)| + (if spent then 1 else 3)
      ensures old(reports) <= reports <= old(reports) + (if spent then 0 else 1)
      ensures turns <= old(turns) + (if spent then 0 else 2)
      ensures Honest(oracle, log, |old(log)|) && (Helpful(user) ==> r == Member(user))
      ensures Verdicts(log, r) && Admits(stage, log, r)
      ensures |log| == |old(log)| + 1 ==> log[|log| - 1].request == StatusRequest(stage, first, user)
      ensures spent || Retries(tenant, log, |old(log)|, reports - old(reports))
      ensures ConfirmedAs(stage, log, user, r)
    {
      ghost var start := |log|;
      var token, refreshed := first, spent;
      while true
        invariant start <= |log| <= start + (if refreshed && !spent then 2 else 0)
        invariant reports == old(reports) + (if refreshed && !spent then 1 else 0)
        invariant turns == old(turns) + (if refreshed && !spent then 2 else 0)
        invariant spent ==> refreshed
        invariant old(log) <= log && Honest(oracle, log, start)
        invariant refreshed && !spent ==> TokenFailed(tenant, log, start)
        invariant |log| == start ==> token == first
        decreases if refreshed then 0 else 1
      {
        ghost var early := log;
        var invalid;
        r, invalid := LookUp(stage, user, token);
        HonestJoin(oracle, early, log, start);
        if refreshed && !spent {
          FailureRemembered(tenant, early, log, start);
        }
        if !invalid || refreshed {
          return;
        }
        assert TokenFailed(tenant, log, start) by {
          assert FailsAt(tenant, log, |log| - 1);
        }
        var t := Refresh(token, start);
        if t.Err? {
          NobodyToAdmit(stage, log, Denied(ToVerifyError(t.failure)));
          return Denied(ToVerifyError(t.failure));
        }
        token, refreshed := t.text, true;
      }
    }

    /** A token and the first stage together. */
    method NameWecom(code: string, ghost known: string) returns (user: Outcome, token: string, refreshed: bool)
      modifies this, cache
      ensures Honest(oracle, log, |old(log)|) && (Helpful(known) ==> user == Ok(known))
      ensures old(log) <= log && |old(log)| < |log| <= |old(log)| + 4
      ensures old(reports) <= reports <= old(reports) + 1 && turns <= old(turns) + 3
      ensures user.Ok? ==> reports == old(reports) + (if refreshed then 1 else 0)
      ensures user.Ok? ==> turns == old(turns) + (if refreshed then 3 else 1)
      ensures user.Ok? ==> |log| <= |old(log)| + (if refreshed then 4 else 2)
      ensures user.Ok? ==> Named(log[|log| - 1], code, user.text)
      ensures user.Err? ==> Verdicts(log, Denied(ToVerifyError(user.failure))) && !LooksUp(log[|log| - 1].request)
      ensures Retries(tenant, log, |old(log)|, reports - old(reports))
      ensures refreshed ==> TokenFailed(tenant, log, |old(log)|)
    {
      ghost var start := |log|;
      user := AccessToken(known);
      token, refreshed := "", false;
      if user.Ok? {
        ghost var early := log;
        user, token, refreshed := IdentifyWecom(code, user.text, known);
        HonestJoin(oracle, early, log, start);
        RetriesSooner(tenant, log, |early|, start, reports - old(reports));
      }
    }

    /** Exchanges a code for a user id and checks that user, sharing one token refresh between both stages. */
    method VerifyWecom(code: string, ghost known: string) returns (r: Verdict)
      modifies this, cache
      ensures |old(log)| < |log| <= |old(log)| + 5 && old(log) <= log
      ensures old(reports) <= reports <= old(reports) + 1 && turns <= old(turns) + 3
      ensures WecomEvidence(log, |old(log)|, code, r) && Admits(WecomStatus, log, r)
      ensures Verdicts(log, r) && Honest(oracle, log, |old(log)|)
      ensures Retries(tenant, log, |old(log)|, reports - old(reports))
      ensures Helpful(known) ==> r == Member(known)
    {
      ghost var start := |log|;
      var user, token, refreshed := NameWecom(code, known);
      if user.Err? {
        return Denied(ToVerifyError(user.failure));
      }
      ghost var early := log;
      r := Confirm(WecomStatus, user.text, token, refreshed);
      HonestJoin(oracle, early, log, start);
      if refreshed {
        FailureRemembered(tenant, early, log, start);
      } else {
        RetriesSooner(tenant, log, |early|, start, reports - old(reports));
      }
      EvidenceFound(early, log, start, code, user.text, r);
    }

    method VerifyFeishu(code: string, ghost known: string) returns (r: Verdict)
      modifies this, cache
      ensures |old(log)| < |log| <= |old(log)| + 6 && old(log) <= log
      ensures old(reports) <= reports <= old(reports) + 1 && turns <= old(turns) + 3
      ensures FeishuEvidence(tenant, log, |old(log)|, code, r) && Admits(FeishuStatus, log, r)
      ensures Verdicts(log, r) && Honest(oracle, log, |old(log)|)
      ensures Retries(tenant, log, |old(log)|, reports - old(reports))
      ensures Helpful(known) ==> r == Member(known)
    {
      ghost var start := |log|;
      var user := IdentifyFeishu(code, known);
      if user.Err? {
        return Denied(ToVerifyError(user.failure));
      }
      ghost var bought, told, early := log[start], log[start + 1], log;
      var t := AccessToken(known);
      HonestJoin(oracle, early, log, start);
      if t.Err? {
        return Denied(ToVerifyError(t.failure));
      }
      early := log;
      r := Confirm(FeishuStatus, user.text, t.text, false);
      HonestJoin(oracle, early, log, start);
      RetriesSooner(tenant, log, |early|, start, reports - old(reports));
      assert log[start] == bought && log[start + 1] == told;
    }

    /** The code buys a user token, and the token names an employee. */
    method IdentifyFeishu(code: string, ghost known: string) returns (user: Outcome)
      modifies `log
      ensures old(log) <= log && |old(log)| < |log| <= |old(log)| + 2 && Honest(oracle, log, |old(log)|)
      ensures user.Ok? ==>
                |log| == |old(log)| + 2 && Employs(tenant, log[|old(log)|], log[|old(log)| + 1], code, user.text)
      ensures user.Err? ==> Verdicts(log, Denied(ToVerifyError(user.failure))) && user != Err(TokenInvalid)
      ensures user.Err? ==> log[|log| - 1].request.OAuthToken? || log[|log| - 1].request.EmployeeInfo?
      ensures user.Err? ==> Classify(tenant, log[|log| - 1]) == user
      ensures Helpful(known) ==> user == Ok(known)
    {
      ghost var start := |log|;
      user := Call(OAuthToken(code), known);
      if user.Err? {
        return;
      }
      ghost var early := log;
      user := Call(EmployeeInfo(user.text), known);
      HonestJoin(oracle, early, log, start);
    }

    /**
     The whole verification of one callback. Malformed codes and unconfigured providers are refused without any
     request; every other call is decided by its last exchange, with evidence for every member and a refresh before
     a token is given up on; and against a provider that helps throughout, the user it knows is a member.
     */
    method VerifyMember(stage: Stage, configured: bool, code: string, ghost known: string) returns (r: Verdict)
      modifies this, cache
      ensures IsMalformed(code) ==> r == Denied(InvalidCode) && log == old(log)
      ensures !IsMalformed(code) && !configured ==> r == Denied(PlatformError) && log == old(log)
      ensures !IsMalformed(code) && configured ==>
                && |old(log)| < |log| <= |old(log)| + 6 && old(log) <= log && Honest(oracle, log, |old(log)|)
                && old(reports) <= reports <= old(reports) + 1 && turns <= old(turns) + 3
                && Verdicts(log, r) && Admits(stage, log, r)
                && Retries(tenant, log, |old(log)|, reports - old(reports))
                && (if stage == WecomStatus then WecomEvidence(log, |old(log)|, code, r)
                    else FeishuEvidence(tenant, log, |old(log)|, code, r))
                && (Helpful(known) ==> r == Member(known))
    {
      if code == "" || Utf8Length(code) > MAX_AUTHORIZATION_CODE_BYTES {
        return Denied(InvalidCode);
      }
      if !configured {
        return Denied(PlatformError);
      }
      if stage == WecomStatus {
        r := VerifyWecom(code, known);
      } else {
        r := VerifyFeishu(code, known);
      }
    }
  }
}
