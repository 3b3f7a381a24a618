/**
 The call pipeline as a state machine over the steps of its workers.

 Every message is in exactly one place at a time: a topic, or the hands of a worker. A token is a
 message tagged with that place, and the in-flight tokens form one multiset, so topics are unordered
 and there may be any number of workers of each kind.

 Every step can be taken with faults: the consumed message is delivered again, the produced message
 is lost, or a database write fails and the worker carries on. A clean step has none of them and a
 provider that keeps its contract.
 */
module Pipeline {
  import opened Wrappers
  import opened Messages
  import opened Statistics

  /** What a run cannot change: the retry decoding, the number of retry topics and each campaign's
      registered phone numbers (fixed at creation, see Targets.AddTargetsKeepsPhones). */
  datatype Config = Config(codec: Codec, topics: nat, phones: map<CampaignId, set<string>>)

  /** How far a status worker has come with a message. */
  datatype Stage = Fetched | Updated | Logged | Counted

  datatype Token =
    // TriggerCall in progress: call record created; counters raised
    | Registered(d: DispatchMessage)
    | Announced(d: DispatchMessage)
    // call topic, then a call worker without and with a slot
    | InCallTopic(d: DispatchMessage)
    | AwaitingSlot(d: DispatchMessage)
    | OnCall(d: DispatchMessage)
    // status topic, then a status worker
    | InStatusTopic(m: StatusMessage)
    | Recording(m: StatusMessage, stage: Stage)
    // retry topic (numbered from 1), then a retry worker
    | InRetryTopic(topic: int, r: RetryMessage)
    | Sleeping(topic: int, r: RetryMessage)
    // ended calls: dispatch refused; no retry wanted; no retry topic for the attempt
    | Refused(d: DispatchMessage)
    | Closed(m: StatusMessage)
    | Stranded(m: StatusMessage)
  {
    predicate HasDispatch() {
      Registered? || Announced? || InCallTopic? || AwaitingSlot? || OnCall? || Refused?
    }

    predicate HasStatus() {
      InStatusTopic? || Recording? || Closed? || Stranded?
    }

    predicate HasRetry() {
      InRetryTopic? || Sleeping?
    }

    predicate Ended() {
      Refused? || Closed? || Stranded?
    }

    function Load(): Payload {
      if HasDispatch() then PayloadOf(d) else if HasStatus() then PayloadOfStatus(m) else PayloadOf(r.dispatch)
    }

    function Call(): CallId {
      Load().callId
    }

    function Attempt(): int {
      if HasDispatch() then d.attempt else if HasStatus() then m.attempt else r.dispatch.attempt
    }

    function MaxAttempts(): int {
      if HasDispatch() then d.maxAttempts else if HasStatus() then m.maxAttempts else r.dispatch.maxAttempts
    }

    /** The call record carries the outcome of this attempt. */
    predicate OutcomeStored() {
      Closed? || Stranded? || (Recording? && stage != Fetched)
    }

    /** The attempt log has a row for this attempt. */
    predicate AttemptLogged() {
      Closed? || Stranded? || (Recording? && (stage == Logged || stage == Counted))
    }

    /** The counters include this attempt's outcome. */
    predicate OutcomeCounted() {
      Closed? || Stranded? || (Recording? && stage == Counted)
    }

    /** The counters include the call. */
    predicate CallCounted() {
      !Registered?
    }
  }

  /** The part of a call record that changes after CreateCall. */
  datatype CallRecord = CallRecord(status: CallStatus, attemptCount: int)

  datatype System = System(
    tokens: multiset<Token>,                         // in flight
    archive: multiset<Token>,                        // ended
    origin: map<CallId, DispatchMessage>,            // history: each call's first dispatch message
    calls: map<CallId, CallRecord>,                  // calls_by_campaign
    attempts: map<CallId, map<int, StatusMessage>>,  // call_attempts, each row as the message it was written from
    stats: map<CampaignId, Counters>,                // campaign_statistics
    compensated: map<CampaignId, int>)               // history: dispatch failures taken back from pending

  function All(s: System): multiset<Token> {
    s.tokens + s.archive
  }

  function Rows(s: System, c: CallId): map<int, StatusMessage> {
    if c in s.attempts then s.attempts[c] else map[]
  }

  function CompensatedFor(s: System, g: CampaignId): int {
    if g in s.compensated then s.compensated[g] else 0
  }

  /** A deployment with campaigns but no calls yet. */
  ghost predicate Init(s: System) {
    && s.tokens == multiset{} && s.archive == multiset{}
    && s.origin == map[] && s.calls == map[] && s.attempts == map[] && s.compensated == map[]
    && NIL_CAMPAIGN !in s.stats
    && forall g :: g in s.stats ==> s.stats[g] == ZERO
  }

  // ---------- Steps ----------

  datatype Event =
    // TriggerCall: create the record, raise the counters, enqueue (or fail to)
    | Register(first: DispatchMessage)
    | Announce(d: DispatchMessage)
    | Enqueue(d: DispatchMessage)
    | Refuse(d: DispatchMessage)
    // call worker
    | FetchCall(d: DispatchMessage)
    | TakeSlot(d: DispatchMessage)
    | PlaceCall(d: DispatchMessage, result: ProviderResult, callErr: Option<string>, now: int, next: int)
    // status worker
    | FetchStatus(m: StatusMessage)
    | UpdateCall(m: StatusMessage)
    | LogAttempt(m: StatusMessage)
    | CountOutcome(m: StatusMessage)
    | Settle(m: StatusMessage)
    // retry worker
    | FetchRetry(topic: int, r: RetryMessage)
    | Forward(topic: int, r: RetryMessage, now: int)

  /** Redelivery of the consumed message, loss of the produced one, failure of the step's write. */
  datatype Fault = Fault(kept: bool, lost: bool, skipped: bool)

  const NO_FAULT := Fault(false, false, false)

  datatype Step = Step(event: Event, fault: Fault)

  /** The token a step consumes. */
  function Source(e: Event): Token
    requires !e.Register?
  {
    match e
    case Announce(d) => Registered(d)
    case Enqueue(d) => Announced(d)
    case Refuse(d) => Announced(d)
    case FetchCall(d) => InCallTopic(d)
    case TakeSlot(d) => AwaitingSlot(d)
    case PlaceCall(d, _, _, _, _) => OnCall(d)
    case FetchStatus(m) => InStatusTopic(m)
    case UpdateCall(m) => Recording(m, Fetched)
    case LogAttempt(m) => Recording(m, Updated)
    case CountOutcome(m) => Recording(m, Logged)
    case Settle(m) => Recording(m, Counted)
    case FetchRetry(topic, r) => InRetryTopic(topic, r)
    case Forward(topic, r, _) => Sleeping(topic, r)
  }

  /** ScheduleRetry's range check. */
  predicate HasTopic(topics: nat, attempt: int) {
    0 < attempt <= topics
  }

  /** The token a step produces. */
  function Target(cfg: Config, e: Event): Token {
    match e
    case Register(d) => Registered(d)
    case Announce(d) => Announced(d)
    case Enqueue(d) => InCallTopic(d)
    case Refuse(d) => Refused(d)
    case FetchCall(d) => AwaitingSlot(d)
    case TakeSlot(d) => OnCall(d)
    case PlaceCall(d, result, callErr, now, next) => InStatusTopic(BuildStatus(d, result, callErr, now, next))
    case FetchStatus(m) => Recording(m, Fetched)
    case UpdateCall(m) => Recording(m, Updated)
    case LogAttempt(m) => Recording(m, Logged)
    case CountOutcome(m) => Recording(m, Counted)
    case Settle(m) =>
      if !WantsRetry(m) then Closed(m)
      else if HasTopic(cfg.topics, m.attempt) then InRetryTopic(m.attempt, RetryFor(m))
      else Stranded(m)
    case FetchRetry(topic, r) => Sleeping(topic, Delivered(cfg.codec, r))
    case Forward(topic, r, now) => InCallTopic(r.dispatch.(enqueuedAt := now))
  }

  /** When a step can be taken. TriggerCall draws a fresh id and checks the phone number; the retry
      worker sleeps until the message is due. Waiting for a slot takes no step. */
  predicate Enabled(cfg: Config, s: System, e: Event) {
    match e
    case Register(d) =>
      && d.callId !in s.origin && d.attempt == 1 && d.campaignId != NIL_CAMPAIGN
      && d.campaignId in cfg.phones && d.phone in cfg.phones[d.campaignId]
    case Forward(topic, r, now) => Source(e) in s.tokens && r.nextAttempt <= now
    case _ => Source(e) in s.tokens
  }

  // The databases after the step's own write.

  function CallsAfter(calls: map<CallId, CallRecord>, e: Event): map<CallId, CallRecord> {
    match e
    case Register(d) => calls[d.callId := CallRecord(Queued, 0)]
    case UpdateCall(m) => if m.callId in calls then calls[m.callId := CallRecord(m.status, m.attempt)] else calls
    case _ => calls
  }

  function AttemptsAfter(attempts: map<CallId, map<int, StatusMessage>>, e: Event)
    : map<CallId, map<int, StatusMessage>>
  {
    match e
    case LogAttempt(m) =>
      attempts[m.callId := (if m.callId in attempts then attempts[m.callId] else map[])[m.attempt := m]]
    case _ => attempts
  }

  function StatsAfter(stats: map<CampaignId, Counters>, e: Event): map<CampaignId, Counters> {
    match e
    case Announce(d) => Applied(stats, d.campaignId, ON_TRIGGER)
    case Refuse(d) => Applied(stats, d.campaignId, ON_REFUSAL)
    case CountOutcome(m) => AfterOutcome(stats, m)
    case _ => stats
  }

  function CompensatedAfter(s: System, e: Event): map<CampaignId, int> {
    if e.Refuse? then s.compensated[e.d.campaignId := CompensatedFor(s, e.d.campaignId) + 1] else s.compensated
  }

  /** The system after a step. */
  function Apply(cfg: Config, s: System, p: Step): System {
    var e, f := p.event, p.fault;
    var source := if e.Register? || f.kept then multiset{} else multiset{Source(e)};
    var target := if f.lost then multiset{} else multiset{Target(cfg, e)};
    var ended := Target(cfg, e).Ended();
    System(
      s.tokens - source + (if ended then multiset{} else target),
      s.archive + (if ended then target else multiset{}),
      if e.Register? then s.origin[e.first.callId := e.first] else s.origin,
      if f.skipped then s.calls else CallsAfter(s.calls, e),
      if f.skipped then s.attempts else AttemptsAfter(s.attempts, e),
      if f.skipped then s.stats else StatsAfter(s.stats, e),
      if f.skipped then s.compensated else CompensatedAfter(s, e))
  }

  // ---------- Runs ----------

  function After(cfg: Config, s: System, run: seq<Step>): System
    decreases |run|
  {
    if run == [] then s else After(cfg, Apply(cfg, s, run[0]), run[1..])
  }

  /** A run in which anything may fail and any message may be delivered again. */
  predicate FaultyRun(cfg: Config, s: System, run: seq<Step>)
    decreases |run|
  {
    run == [] || (Enabled(cfg, s, run[0].event) && FaultyRun(cfg, Apply(cfg, s, run[0]), run[1..]))
  }

  predicate CleanStep(p: Step) {
    p.fault == NO_FAULT && (p.event.PlaceCall? ==> ProviderContract(p.event.result))
  }

  /** A run with exactly-once delivery, no failing write and a provider that keeps its contract. */
  predicate CleanRun(cfg: Config, s: System, run: seq<Step>) {
    FaultyRun(cfg, s, run) && forall i :: 0 <= i < |run| ==> CleanStep(run[i])
  }
}
