/**
 internal/service/call/service.go: TriggerCall. The phone number is checked against the campaign's targets; then
 the call is stored, counted and sent, each step only if the one before succeeded.
 */
module CallService {
  import opened Wrappers
  import opened Messages
  import opened Statistics
  import opened CallStore
  import opened Targets
  import B = Backoff
  import P = Pipeline
  import R = PipelineRuns
  import W = StatusWorker

  /** What TriggerCall reads of a campaign. */
  datatype Campaign = Campaign(policy: B.Policy, maxConcurrent: int)

  datatype Input = Input(campaignId: CampaignId, phone: string, metadata: Metadata)

  /** How the databases and Kafka answer, the id uuid.New draws and the time in nanoseconds. */
  datatype Answers = Answers(
    getOk: bool, listOk: bool, callId: CallId, now: int,
    writes: nat, countOk: bool, sendOk: bool, undoOk: bool)

  /** Every step of an accepted call succeeds. */
  predicate Served(a: Answers) {
    a.writes >= 2 && a.countOk && a.sendOk
  }

  /** What TriggerCall writes to. */
  datatype Books = Books(tables: Tables, stats: map<CampaignId, Counters>, topic: seq<DispatchMessage>)

  function NewCall(input: Input, a: Answers): CallData {
    CallData(a.callId, input.campaignId, input.phone, Queued, 0, None, Time(a.now / B.SECOND, 0))
  }

  function FirstDispatch(c: Campaign, input: Input, defaultLimit: int, a: Answers): DispatchMessage {
    DispatchMessage(
      a.callId, input.campaignId, input.phone, 1, c.policy.maxAttempts,
      B.StoredMs(c.policy.base), B.StoredMs(c.policy.max), c.policy.jitter,
      if c.maxConcurrent > 0 then c.maxConcurrent else defaultLimit, input.metadata, a.now)
  }

  /** The books after an accepted call. The first step that fails ends it. A call that was stored but not counted
      stays so; only a failed dispatch is taken back, and only from pending. */
  function Booked(b: Books, c: CallData, first: DispatchMessage, a: Answers): Books {
    var stored := b.(tables := Prefix(b.tables, CreateWrites(c, a.now), a.writes));
    if a.writes < 2 || !a.countOk then stored
    else
      var counted := stored.(stats := Applied(b.stats, first.campaignId, ON_TRIGGER));
      if a.sendOk then counted.(topic := b.topic + [first])
      else if a.undoOk && first.campaignId != NIL_CAMPAIGN then
        counted.(stats := Applied(counted.stats, first.campaignId, ON_REFUSAL))
      else counted
  }

  /** What that means for the counters. A call with no row, or that is not counted, changes none. */
  lemma CountersAfterCall(b: Books, c: CallData, first: DispatchMessage, a: Answers)
    ensures !(a.writes >= 2 && a.countOk && first.campaignId in b.stats) ==> Booked(b, c, first, a).stats == b.stats
    ensures a.writes >= 2 && a.countOk && first.campaignId in b.stats ==>
              var was := b.stats[first.campaignId];
              var undone := !a.sendOk && a.undoOk && first.campaignId != NIL_CAMPAIGN;
              Booked(b, c, first, a).stats == b.stats[first.campaignId :=
                was.(total := was.total + 1, pending := if undone then was.pending else was.pending + 1)]
  {
  }

  class Service {
    const store: Store
    const targets: TargetTable
    const stats: StatisticsTable
    const defaultLimit: int
    var campaigns: map<CampaignId, Campaign>
    var topic: seq<DispatchMessage>

    ghost function State(): Books
      reads this, store, stats
    {
      Books(store.Contents(), stats.rows, topic)
    }

    constructor (store: Store, targets: TargetTable, stats: StatisticsTable, defaultLimit: int,
                 campaigns: map<CampaignId, Campaign>)
      ensures this.store == store && this.targets == targets && this.stats == stats && this.defaultLimit == defaultLimit
      ensures this.campaigns == campaigns && topic == []
    {
      this.store, this.targets, this.stats, this.defaultLimit := store, targets, stats, defaultLimit;
      this.campaigns, topic := campaigns, [];
    }

    /** validatePhoneInCampaignTargets. Returns also the targets it looked at: the 10000 oldest. */
    method ValidatePhone(g: CampaignId, phone: string, listOk: bool)
      returns (r: Result<()>, ghost listed: seq<TargetId>)
      ensures OldestOf(targets.rows, Matching(targets.rows, g, None), 10_000, listed)
      ensures r.Ok? <==> listOk && phone in PhonesAt(targets.rows, listed)
      ensures r.Ok? ==> phone in PhonesOf(targets.rows, g)
      ensures |Matching(targets.rows, g, None)| <= ALL ==> (r.Ok? <==> listOk && phone in PhonesOf(targets.rows, g))
    {
      listed := SelectOldest(targets.rows, Matching(targets.rows, g, None), ALL);
      var existing := targets.ListByCampaign(g, ALL, None, listOk);
      if existing.Err? {
        return Err(existing.reason), listed;
      }
      var ids := existing.value;
      listed := ids;
      AcceptedIsRegistered(targets.rows, g, ids, phone);
      if |ids| == 0 {
        return Err("no registered targets"), listed;
      }
      for i := 0 to |ids|
        invariant forall j :: 0 <= j < i ==> targets.rows[ids[j]].phone != phone
      {
        if targets.rows[ids[i]].phone == phone {
          assert phone in PhonesAt(targets.rows, ids);
          return Ok(()), listed;
        }
      }
      return Err("phone number is not registered"), listed;
    }

    /** TriggerCall. A refused call leaves no trace; what an accepted one leaves depends on the step that fails. */
    method TriggerCall(input: Input, a: Answers)
      returns (r: Result<CallData>, ghost accepted: bool, ghost listed: seq<TargetId>)
      modifies store, stats, this`topic
      ensures OldestOf(targets.rows, Matching(targets.rows, input.campaignId, None), 10_000, listed)
      ensures accepted <==>
                && input.phone != "" && a.getOk && input.campaignId in campaigns
                && a.listOk && input.phone in PhonesAt(targets.rows, listed)
      ensures !accepted ==> State() == old(State())
      ensures accepted ==>
                State() == Booked(old(State()), NewCall(input, a),
                                  FirstDispatch(campaigns[input.campaignId], input, defaultLimit, a), a)
      ensures r.Ok? <==> accepted && Served(a)
      ensures r.Ok? ==> r.value == NewCall(input, a)
      ensures accepted && a.writes >= 2 ==> exists bucket ::
                && InBucket(Time(a.now / 1_000_000_000, 0), bucket)
                && store.calls == old(store.calls)[CallKey(input.campaignId, bucket, a.callId) :=
                                                   CallRow(Some(input.phone), Queued, 0, None)]
      ensures accepted && Served(a) ==>
                var c := campaigns[input.campaignId];
                && |topic| == |old(topic)| + 1 && topic[..|old(topic)|] == old(topic)
                && var d := topic[|old(topic)|];
                && d.callId == a.callId && d.campaignId == input.campaignId && d.phone == input.phone
                && d.attempt == 1 && d.maxAttempts == c.policy.maxAttempts
                && d.baseMs == B.StoredMs(c.policy.base) && d.maxMs == B.StoredMs(c.policy.max)
                && d.jitter == c.policy.jitter && d.metadata == input.metadata && d.enqueuedAt == a.now
                && d.limit == if c.maxConcurrent > 0 then c.maxConcurrent else defaultLimit
      ensures !(accepted && Served(a)) ==> topic == old(topic)
      ensures !(accepted && a.writes >= 2 && a.countOk && input.campaignId in old(stats.rows)) ==>
                stats.rows == old(stats.rows)
      ensures accepted && a.writes >= 2 && a.countOk && input.campaignId in old(stats.rows) ==>
                var c := old(stats.rows)[input.campaignId];
                var undone := !a.sendOk && a.undoOk && input.campaignId != NIL_CAMPAIGN;
                stats.rows == old(stats.rows)[input.campaignId :=
                  c.(total := c.total + 1, pending := if undone then c.pending else c.pending + 1)]
      ensures store.attempts == old(store.attempts)
    {
      accepted := false;
      listed := SelectOldest(targets.rows, Matching(targets.rows, input.campaignId, None), ALL);
      if input.phone == "" {
        return Err("phone number is required"), accepted, listed;
      }
      var g := input.campaignId;
      if !a.getOk || g !in campaigns {
        return Err("lookup campaign"), accepted, listed;
      }
      var campaign := campaigns[g];
      var valid, seen := ValidatePhone(g, input.phone, a.listOk);
      listed := seen;
      if valid.Err? {
        return Err(valid.reason), accepted, listed;
      }
      accepted := true;
      CountersAfterCall(State(), NewCall(input, a), FirstDispatch(campaign, input, defaultLimit, a), a);
      r := Submit(campaign, input, a);
    }

    /** TriggerCall once the number is accepted. */
    method Submit(campaign: Campaign, input: Input, a: Answers) returns (r: Result<CallData>)
      modifies store, stats, this`topic
      ensures State() == Booked(old(State()), NewCall(input, a), FirstDispatch(campaign, input, defaultLimit, a), a)
      ensures r.Ok? <==> Served(a)
      ensures r.Ok? ==> r.value == NewCall(input, a)
      ensures a.writes >= 2 ==> exists bucket ::
                && InBucket(Time(a.now / 1_000_000_000, 0), bucket)
                && store.calls == old(store.calls)[CallKey(input.campaignId, bucket, a.callId) :=
                                                   CallRow(Some(input.phone), Queued, 0, None)]
      ensures store.attempts == old(store.attempts)
    {
      var limit := defaultLimit;
      if campaign.maxConcurrent > 0 {
        limit := campaign.maxConcurrent;
      }
      var call := NewCall(input, a);
      var created := store.CreateCall(call, a.now, a.writes);
      if created.Err? {
        return Err(created.reason);
      }
      var counted := stats.ApplyDelta(input.campaignId, ON_TRIGGER, a.countOk);
      if counted.Err? {
        return Err(counted.reason);
      }
      var policy := campaign.policy;
      var payload := DispatchMessage(
        call.id, call.campaignId, call.phone, 1, policy.maxAttempts,
        B.StoredMs(policy.base), B.StoredMs(policy.max), policy.jitter, limit, input.metadata, a.now);
      if !a.sendOk {
        if input.campaignId != NIL_CAMPAIGN {
          var _ := stats.ApplyDelta(input.campaignId, ON_REFUSAL, a.undoOk);
        }
        return Err("dispatch call");
      }
      topic := topic + [payload];
      return Ok(call);
    }
  }

  // ---------- Who is accepted ----------

  /** A number that passes the check is registered; with at most 10000 targets every registered number passes. */
  lemma AcceptedIsRegistered(t: Table, g: CampaignId, listed: seq<TargetId>, phone: string)
    requires OldestOf(t, Matching(t, g, None), ALL, listed)
    ensures phone in PhonesAt(t, listed) ==> phone in PhonesOf(t, g)
    ensures |Matching(t, g, None)| <= ALL ==> (phone in PhonesAt(t, listed) <==> phone in PhonesOf(t, g))
  {
    if phone in PhonesAt(t, listed) {
      forall i | 0 <= i < |listed| ensures listed[i] in t && t[listed[i]].campaignId == g {
        assert listed[i] in Matching(t, g, None);
      }
      ListedAreRegistered(t, g, listed, phone);
    }
    if |Matching(t, g, None)| <= ALL {
      AllAreListed(t, g, listed, phone);
    }
  }

  /** So in a campaign of at most 10000 targets, no target of a scheduler batch is refused for its number. */
  lemma BatchIsAccepted(t: Table, g: CampaignId, n: nat, batch: seq<TargetId>, at: int, listed: seq<TargetId>, k: nat)
    requires OldestOf(t, Matching(t, g, Some(Waiting)), n, batch) && k < |batch|
    requires var t' := Scheduled(t, g, batch, at);
      OldestOf(t', Matching(t', g, None), ALL, listed)
    requires |Matching(t, g, None)| <= ALL
    ensures t[batch[k]].phone in PhonesAt(Scheduled(t, g, batch, at), listed)
  {
    var t' := Scheduled(t, g, batch, at);
    assert Matching(t', g, None) == Matching(t, g, None);
    assert batch[k] in Matching(t, g, Some(Waiting));
    StatesKeepPhones(t, g, batch, Waiting, at, g);
    AcceptedIsRegistered(t', g, listed, t[batch[k]].phone);
  }

  /** An accepted call of a stored campaign with a fresh id is one the pipeline may register. */
  lemma AcceptedMayRegister(cfg: P.Config, s: P.System, t: Table, listed: seq<TargetId>, c: Campaign, input: Input,
                            defaultLimit: int, a: Answers)
    requires OldestOf(t, Matching(t, input.campaignId, None), ALL, listed)
    requires input.phone in PhonesAt(t, listed)
    requires input.campaignId != NIL_CAMPAIGN && input.campaignId in cfg.phones
    requires cfg.phones[input.campaignId] == PhonesOf(t, input.campaignId) && a.callId !in s.origin
    ensures P.Enabled(cfg, s, P.Register(FirstDispatch(c, input, defaultLimit, a)))
  {
    AcceptedIsRegistered(t, input.campaignId, listed, input.phone);
  }

  // ---------- Refinement ----------

  /** The pipeline steps of an accepted call. Where TriggerCall gives up, nobody goes on with the call: its token
      is lost. */
  function Trace(first: DispatchMessage, a: Answers): seq<P.Step> {
    if a.writes == 0 then []
    else if a.writes == 1 then [Registering(first, true)]
    else if !a.countOk then [Registering(first, false), Announcing(first, true)]
    else [Registering(first, false), Announcing(first, false), Sending(first, a)]
  }

  function Registering(first: DispatchMessage, torn: bool): P.Step {
    R.Losing(P.Register(first), torn)
  }

  function Announcing(first: DispatchMessage, failed: bool): P.Step {
    P.Step(P.Announce(first), P.Fault(false, failed, failed))
  }

  function Sending(first: DispatchMessage, a: Answers): P.Step {
    if a.sendOk then R.Clean(P.Enqueue(first)) else R.Skipping(P.Refuse(first), !a.undoOk)
  }

  /** Where the call's token is afterwards. */
  function OnItsWay(first: DispatchMessage, a: Answers): multiset<P.Token> {
    if Served(a) then multiset{P.InCallTopic(first)} else multiset{}
  }

  function GivenUp(first: DispatchMessage, a: Answers): multiset<P.Token> {
    if a.writes >= 2 && a.countOk && !a.sendOk then multiset{P.Refused(first)} else multiset{}
  }

  /** The counters afterwards. */
  function StatsOf(stats: map<CampaignId, Counters>, first: DispatchMessage, a: Answers): map<CampaignId, Counters> {
    var g := first.campaignId;
    if a.writes < 2 || !a.countOk then stats
    else if a.sendOk || !a.undoOk then Applied(stats, g, ON_TRIGGER)
    else Applied(Applied(stats, g, ON_TRIGGER), g, ON_REFUSAL)
  }

  /** The steps of an accepted call are a run, whatever fails. */
  lemma TraceState(cfg: P.Config, s: P.System, first: DispatchMessage, a: Answers) returns (s': P.System)
    requires P.Enabled(cfg, s, P.Register(first))
    ensures R.Runs(cfg, s, Trace(first, a), s')
    ensures s'.tokens == s.tokens + OnItsWay(first, a) && s'.archive == s.archive + GivenUp(first, a)
    ensures s'.attempts == s.attempts
    ensures s'.calls == if a.writes == 0 then s.calls else s.calls[first.callId := P.CallRecord(Queued, 0)]
    ensures s'.stats == StatsOf(s.stats, first, a)
  {
    if a.writes == 0 {
      s' := s;
    } else if a.writes == 1 {
      s' := R.RegisterStep(cfg, s, Registering(first, true));
      R.RunOfOne(cfg, s, Registering(first, true), s');
    } else if !a.countOk {
      s' := UncountedState(cfg, s, first, a);
    } else {
      s' := CountedState(cfg, s, first, a);
    }
  }

  lemma UncountedState(cfg: P.Config, s: P.System, first: DispatchMessage, a: Answers) returns (s': P.System)
    requires P.Enabled(cfg, s, P.Register(first)) && a.writes >= 2 && !a.countOk
    ensures R.Runs(cfg, s, [Registering(first, false), Announcing(first, true)], s')
    ensures s'.tokens == s.tokens && s'.archive == s.archive && s'.attempts == s.attempts
    ensures s'.calls == s.calls[first.callId := P.CallRecord(Queued, 0)] && s'.stats == s.stats
  {
    var s1;
    s1, s' := R.RegisterHop(cfg, s, Registering(first, false), Announcing(first, true));
    R.RunOfTwo(cfg, s, Registering(first, false), s1, Announcing(first, true), s');
  }

  lemma CountedState(cfg: P.Config, s: P.System, first: DispatchMessage, a: Answers) returns (s': P.System)
    requires P.Enabled(cfg, s, P.Register(first)) && a.writes >= 2 && a.countOk
    ensures R.Runs(cfg, s, [Registering(first, false), Announcing(first, false), Sending(first, a)], s')
    ensures s'.tokens == s.tokens + OnItsWay(first, a) && s'.archive == s.archive + GivenUp(first, a)
    ensures s'.attempts == s.attempts
    ensures s'.calls == s.calls[first.callId := P.CallRecord(Queued, 0)] && s'.stats == StatsOf(s.stats, first, a)
  {
    s' := R.RegisterHops(cfg, s, Registering(first, false), Announcing(first, false), Sending(first, a));
    CountedWrites(s, first, a);
  }

  lemma CountedWrites(s: P.System, first: DispatchMessage, a: Answers)
    requires a.writes >= 2 && a.countOk
    ensures R.StatsOf(R.StatsOf(s.stats, Announcing(first, false)), Sending(first, a)) == StatsOf(s.stats, first, a)
    ensures var registered := R.CallsOf(s.calls, Registering(first, false));
      R.CallsOf(R.CallsOf(registered, Announcing(first, false)), Sending(first, a))
         == s.calls[first.callId := P.CallRecord(Queued, 0)]
    ensures R.AttemptsOf(R.AttemptsOf(s.attempts, Announcing(first, false)), Sending(first, a)) == s.attempts
  {
  }

  lemma CreateMirrored(t: Tables, calls: map<CallId, P.CallRecord>, c: CallData, now: int, writes: nat)
    requires W.MirrorsCalls(t, calls) && !HasCall(t, c.id) && c.status == Queued && c.attemptCount == 0
    ensures W.MirrorsCalls(Prefix(t, CreateWrites(c, now), writes),
                           if writes == 0 then calls else calls[c.id := P.CallRecord(Queued, 0)])
  {
    CreatePrefixes(t, c, now);
    var ws := CreateWrites(c, now);
    assert ws[..2] == ws;
    CreateKeepsSound(t, c, now, writes);
    if writes > 0 {
      CreateRefines(t, calls, c, now);
      SameCalls(ExecAll(t, ws), Prefix(t, ws, writes), calls[c.id := P.CallRecord(Queued, 0)]);
    }
  }

  /** Whatever fails, what an accepted call does to the databases is what the run does to the pipeline, and the call's
      message is in the call topic exactly if it is in the pipeline's. */
  lemma TriggerRefines(cfg: P.Config, s: P.System, b: Books, c: CallData, first: DispatchMessage, a: Answers)
    requires W.MirrorsCalls(b.tables, s.calls) && b.stats == s.stats
    requires P.Enabled(cfg, s, P.Register(first)) && !HasCall(b.tables, first.callId)
    requires c.id == first.callId && c.status == Queued && c.attemptCount == 0
    ensures var b', s' := Booked(b, c, first, a), P.After(cfg, s, Trace(first, a));
      && P.FaultyRun(cfg, s, Trace(first, a))
      && W.MirrorsCalls(b'.tables, s'.calls) && b'.stats == s'.stats
      && (Agree(b.tables) ==> (Agree(b'.tables) <==> a.writes != 1))
      && s'.tokens == s.tokens + OnItsWay(first, a) && s'.archive == s.archive + GivenUp(first, a)
      && b'.topic == b.topic + if Served(a) then [first] else []
  {
    var _ := TraceState(cfg, s, first, a);
    CreateMirrored(b.tables, s.calls, c, a.now, a.writes);
    if Agree(b.tables) {
      CreateAgreesExactly(b.tables, c, a.now, a.writes);
    }
  }

  /** In particular for the call and the message that TriggerCall makes. */
  lemma AcceptedRefines(cfg: P.Config, s: P.System, b: Books, campaign: Campaign, input: Input, limit: int, a: Answers)
    requires W.MirrorsCalls(b.tables, s.calls) && b.stats == s.stats && !HasCall(b.tables, a.callId)
    requires var first := FirstDispatch(campaign, input, limit, a); P.Enabled(cfg, s, P.Register(first))
    ensures var c, first := NewCall(input, a), FirstDispatch(campaign, input, limit, a);
      var b', s' := Booked(b, c, first, a), P.After(cfg, s, Trace(first, a));
      && P.FaultyRun(cfg, s, Trace(first, a))
      && W.MirrorsCalls(b'.tables, s'.calls) && b'.stats == s'.stats
      && s'.tokens == s.tokens + OnItsWay(first, a)
  {
    TriggerRefines(cfg, s, b, NewCall(input, a), FirstDispatch(campaign, input, limit, a), a);
  }

  /** The run is clean exactly if nothing was begun and given up: no write at all, or all of them with the dispatch
      either accepted or taken back from pending. */
  lemma CleanTraceExactly(cfg: P.Config, s: P.System, first: DispatchMessage, a: Answers)
    requires P.Enabled(cfg, s, P.Register(first))
    ensures P.CleanRun(cfg, s, Trace(first, a))
       <==> a.writes == 0 || (a.writes >= 2 && a.countOk && (a.sendOk || a.undoOk))
  {
    var _ := TraceState(cfg, s, first, a);
    var run := Trace(first, a);
    if a.writes == 1 {
      assert run[0] == Registering(first, true);
    } else if a.writes >= 2 && !a.countOk {
      assert run[1] == Announcing(first, true);
    } else if a.writes >= 2 {
      R.CleanIsAllClean(cfg, s, run);
      R.CleanOfThree(run[0], run[1], run[2]);
    }
  }
}
