/** The invariant of clean runs: one token a call, and databases that say what the tokens say. */
module PipelineClean {
  import opened Messages
  import opened Statistics
  import opened Pipeline
  import opened PipelineFaulty
  import opened Gauges

  /** How many rows the attempt log has for the call of a token. */
  function RowCount(t: Token): int {
    if t.AttemptLogged() then t.Attempt() else t.Attempt() - 1
  }

  /** Rows 1..k; those of earlier attempts are retryable failures, that of this attempt is this outcome. */
  ghost predicate LogAgrees(t: Token, rows: map<int, StatusMessage>) {
    && (forall j :: j in rows <==> 1 <= j <= RowCount(t))
    && (forall j :: j in rows && j < t.Attempt() ==> rows[j].status == Failed && rows[j].retryable)
    && (t.AttemptLogged() && t.Attempt() in rows ==> rows[t.Attempt()] == t.m)
  }

  /** What the call record of a token's call says. */
  function ExpectedRecord(t: Token): CallRecord {
    if t.OutcomeStored() then CallRecord(t.m.status, t.m.attempt)
    else if t.Attempt() == 1 then CallRecord(Queued, 0)
    else CallRecord(Failed, t.Attempt() - 1)
  }

  predicate ContractKept(t: Token) {
    t.HasStatus() ==>
      (t.m.status == Completed || t.m.status == Failed) && (t.m.status == Completed ==> !t.m.retryable)
  }

  ghost predicate Tidy(s: System, t: Token) {
    && ContractKept(t)
    && LogAgrees(t, Rows(s, t.Call()))
    && t.Call() in s.calls && s.calls[t.Call()] == ExpectedRecord(t)
  }

  ghost predicate AllTidy(s: System) {
    forall t :: t in All(s) ==> Tidy(s, t)
  }

  /** Each triggered call has one token, in flight or archived; other ids have none. */
  ghost predicate OneEach(s: System) {
    forall c: CallId :: Total(Of(c), All(s)) == if c in s.origin then 1 else 0
  }

  /** Archived tokens are those of ended calls. */
  ghost predicate Sorted(s: System) {
    (forall t :: t in s.tokens ==> !t.Ended()) && (forall t :: t in s.archive ==> t.Ended())
  }

  /** The counters that the tokens of a campaign account for. */
  ghost function Exact(b: multiset<Token>, g: CampaignId): Counters {
    Counters(Total(Triggered(g), b), Total(Answered(g), b), Total(GivenUp(g), b), 0,
             Total(Open(g), b), Total(Retried(g), b))
  }

  ghost predicate RowExact(s: System, g: CampaignId) {
    g in s.stats ==> s.stats[g] == Exact(All(s), g)
  }

  ghost predicate TakenBackExact(s: System, g: CampaignId) {
    CompensatedFor(s, g) == Total(TakenBack(g), All(s))
  }

  ghost predicate CountersExact(s: System) {
    forall g: CampaignId :: RowExact(s, g) && TakenBackExact(s, g)
  }

  ghost predicate CleanInv(cfg: Config, s: System) {
    FaultyInv(cfg, s) && OneEach(s) && Sorted(s) && AllTidy(s) && CountersExact(s)
  }

  // ---------- A clean step moves one token ----------

  lemma StepMovesOne(cfg: Config, s: System, p: Step)
    requires CleanStep(p) && Enabled(cfg, s, p.event) && !p.event.Register?
    ensures All(Apply(cfg, s, p)) == All(s) - multiset{Source(p.event)} + multiset{Target(cfg, p.event)}
    ensures Source(p.event) in All(s)
  {
  }

  lemma StepAddsOne(cfg: Config, s: System, p: Step)
    requires CleanStep(p) && p.event.Register?
    ensures All(Apply(cfg, s, p)) == All(s) + multiset{Target(cfg, p.event)}
  {
  }

  /** What a step does to a sum over all tokens. */
  lemma StepShiftsTotal(cfg: Config, s: System, p: Step, q: Gauge)
    requires CleanStep(p) && Enabled(cfg, s, p.event)
    ensures Total(q, All(Apply(cfg, s, p))) == Total(q, All(s)) + Weight(q, Target(cfg, p.event))
                                             - (if p.event.Register? then 0 else Weight(q, Source(p.event)))
  {
    var e := p.event;
    if e.Register? {
      StepAddsOne(cfg, s, p);
      TotalPut(q, All(s), Target(cfg, e));
    } else {
      StepMovesOne(cfg, s, p);
      MoveShiftsTotal(q, All(s), Source(e), Target(cfg, e));
    }
  }

  lemma {:induction false} StepKeepsOneEach(cfg: Config, s: System, p: Step)
    requires FaultyInv(cfg, s) && OneEach(s) && CleanStep(p) && Enabled(cfg, s, p.event)
    ensures OneEach(Apply(cfg, s, p))
  {
    var e, s' := p.event, Apply(cfg, s, p);
    if !e.Register? {
      StepMovesOne(cfg, s, p);
      StepKeepsTokenOk(cfg, s.origin[Source(e).Call()], e);
    }
    forall c: CallId ensures Total(Of(c), All(s')) == if c in s'.origin then 1 else 0 {
      StepShiftsTotal(cfg, s, p, Of(c));
    }
  }

  /** A token other than the one a step moves belongs to another call. */
  lemma OthersAreOtherCalls(cfg: Config, s: System, p: Step, t: Token)
    requires FaultyInv(cfg, s) && OneEach(s) && CleanStep(p) && Enabled(cfg, s, p.event)
    requires t in All(Apply(cfg, s, p)) && t != Target(cfg, p.event)
    ensures t in All(s)
    ensures t.Call() != Target(cfg, p.event).Call()
  {
    StepKeepsOneEach(cfg, s, p);
    StepAddsAtMost(cfg, s, p, t);
    TargetIsThere(cfg, s, p);
    DifferentCalls(Apply(cfg, s, p), t, Target(cfg, p.event));
  }

  lemma TargetIsThere(cfg: Config, s: System, p: Step)
    requires CleanStep(p) && Enabled(cfg, s, p.event)
    ensures Target(cfg, p.event) in All(Apply(cfg, s, p))
  {
    if p.event.Register? {
      StepAddsOne(cfg, s, p);
    } else {
      StepMovesOne(cfg, s, p);
    }
  }

  lemma DifferentCalls(s: System, t: Token, u: Token)
    requires OneEach(s) && t in All(s) && u in All(s) && t != u
    ensures t.Call() != u.Call()
  {
    if t.Call() == u.Call() {
      OneOf(All(s), t, u);
    }
  }

  // ---------- Databases ----------

  lemma RowsOfStep(cfg: Config, s: System, p: Step, c: CallId)
    requires CleanStep(p)
    ensures Rows(Apply(cfg, s, p), c) == if p.event.LogAttempt? && p.event.m.callId == c
                                         then Rows(s, c)[p.event.m.attempt := p.event.m] else Rows(s, c)
  {
  }

  lemma RecordOfStep(cfg: Config, s: System, p: Step)
    requires CleanStep(p)
    ensures Apply(cfg, s, p).calls == CallsAfter(s.calls, p.event)
  {
  }

  lemma MovedKeepsContract(cfg: Config, first: DispatchMessage, e: Event)
    requires !e.Register? && ContractKept(Source(e))
    requires e.PlaceCall? ==> ProviderContract(e.result)
    ensures ContractKept(Target(cfg, e))
  {
  }

  lemma MovedKeepsLog(cfg: Config, first: DispatchMessage, e: Event, rows: map<int, StatusMessage>)
    requires !e.Register? && TokenOk(cfg, first, Source(e)) && ContractKept(Source(e))
    requires LogAgrees(Source(e), rows)
    ensures LogAgrees(Target(cfg, e), if e.LogAttempt? then rows[e.m.attempt := e.m] else rows)
  {
  }

  lemma MovedKeepsRecord(cfg: Config, first: DispatchMessage, e: Event, calls: map<CallId, CallRecord>)
    requires !e.Register? && TokenOk(cfg, first, Source(e)) && ContractKept(Source(e))
    requires Source(e).Call() in calls && calls[Source(e).Call()] == ExpectedRecord(Source(e))
    ensures var c := Target(cfg, e).Call();
      c in CallsAfter(calls, e) && CallsAfter(calls, e)[c] == ExpectedRecord(Target(cfg, e))
  {
  }

  /** The moved token's call: the step's write is the one that its new place promises. */
  lemma MovedStaysTidy(cfg: Config, s: System, p: Step)
    requires FaultyInv(cfg, s) && CleanStep(p) && Enabled(cfg, s, p.event) && !p.event.Register?
    requires Tidy(s, Source(p.event))
    ensures Tidy(Apply(cfg, s, p), Target(cfg, p.event))
  {
    var e, t := p.event, Source(p.event);
    StepMovesOne(cfg, s, p);
    var first := s.origin[t.Call()];
    StepKeepsTokenOk(cfg, first, e);
    RowsOfStep(cfg, s, p, t.Call());
    RecordOfStep(cfg, s, p);
    MovedKeepsContract(cfg, first, e);
    MovedKeepsLog(cfg, first, e, Rows(s, t.Call()));
    MovedKeepsRecord(cfg, first, e, s.calls);
  }

  lemma NewIsTidy(cfg: Config, s: System, p: Step)
    requires FaultyInv(cfg, s) && CleanStep(p) && Enabled(cfg, s, p.event) && p.event.Register?
    ensures Tidy(Apply(cfg, s, p), Target(cfg, p.event))
  {
    var c := p.event.first.callId;
    RowsOfStep(cfg, s, p, c);
    RecordOfStep(cfg, s, p);
    assert forall j :: j !in Rows(s, c);
  }

  /** Another call's rows and record are not written. */
  lemma OtherStaysTidy(cfg: Config, s: System, p: Step, t: Token)
    requires CleanStep(p) && Tidy(s, t)
    requires t.Call() != Target(cfg, p.event).Call()
    requires !p.event.Register? ==> Target(cfg, p.event).Call() == Source(p.event).Call()
    ensures Tidy(Apply(cfg, s, p), t)
  {
    assert Rows(Apply(cfg, s, p), t.Call()) == Rows(s, t.Call());
  }

  lemma StepKeepsTidy(cfg: Config, s: System, p: Step)
    requires FaultyInv(cfg, s) && OneEach(s) && AllTidy(s) && CleanStep(p) && Enabled(cfg, s, p.event)
    ensures AllTidy(Apply(cfg, s, p))
  {
    var e, s' := p.event, Apply(cfg, s, p);
    if e.Register? {
      NewIsTidy(cfg, s, p);
    } else {
      assert Source(e) in All(s);
      StepKeepsTokenOk(cfg, s.origin[Source(e).Call()], e);
      MovedStaysTidy(cfg, s, p);
    }
    forall t | t in All(s') ensures Tidy(s', t) {
      if t != Target(cfg, e) {
        OthersAreOtherCalls(cfg, s, p, t);
        OtherStaysTidy(cfg, s, p, t);
      }
    }
  }

  // ---------- Counters ----------

  /** The counter change of a step, for one campaign. */
  function StatsShift(e: Event, g: CampaignId): Counters {
    match e
    case Announce(d) => if d.campaignId == g then ON_TRIGGER else ZERO
    case Refuse(d) => if d.campaignId == g then ON_REFUSAL else ZERO
    case CountOutcome(m) => if m.campaignId == g then OutcomeDelta(m) else ZERO
    case _ => ZERO
  }

  lemma StatsShiftIsApplied(stats: map<CampaignId, Counters>, e: Event, g: CampaignId)
    requires g in stats && NIL_CAMPAIGN !in stats
    ensures g in StatsAfter(stats, e) && StatsAfter(stats, e)[g] == Add(stats[g], StatsShift(e, g))
  {
  }

  /** The same change, read off the token that moves. */
  lemma WeightsShiftAlike(cfg: Config, first: DispatchMessage, e: Event, g: CampaignId)
    requires !e.Register? && TokenOk(cfg, first, Source(e)) && ContractKept(Source(e)) && ContractKept(Target(cfg, e))
    ensures var t, u, d := Source(e), Target(cfg, e), StatsShift(e, g);
      && Weight(Triggered(g), u) == Weight(Triggered(g), t) + d.total
      && Weight(Answered(g), u) == Weight(Answered(g), t) + d.completed
      && Weight(GivenUp(g), u) == Weight(GivenUp(g), t) + d.failed
      && Weight(Open(g), u) == Weight(Open(g), t) + d.pending
      && Weight(Retried(g), u) == Weight(Retried(g), t) + d.retries
      && d.inProgress == 0
  {
    StepKeepsTokenOk(cfg, first, e);
  }

  /** Replacing one token by another shifts every counter by the difference of their weights. */
  lemma ExactShifts(b: multiset<Token>, t: Token, u: Token, g: CampaignId, d: Counters)
    requires t in b
    requires Weight(Triggered(g), u) == Weight(Triggered(g), t) + d.total
    requires Weight(Answered(g), u) == Weight(Answered(g), t) + d.completed
    requires Weight(GivenUp(g), u) == Weight(GivenUp(g), t) + d.failed
    requires Weight(Open(g), u) == Weight(Open(g), t) + d.pending
    requires Weight(Retried(g), u) == Weight(Retried(g), t) + d.retries
    requires d.inProgress == 0
    ensures Exact(b - multiset{t} + multiset{u}, g) == Add(Exact(b, g), d)
  {
    MoveShiftsTotal(Triggered(g), b, t, u);
    MoveShiftsTotal(Answered(g), b, t, u);
    MoveShiftsTotal(GivenUp(g), b, t, u);
    MoveShiftsTotal(Open(g), b, t, u);
    MoveShiftsTotal(Retried(g), b, t, u);
  }

  /** A call that is only registered is not counted. */
  lemma ExactWithNew(b: multiset<Token>, d: DispatchMessage, g: CampaignId)
    requires d.attempt == 1
    ensures Exact(b + multiset{Registered(d)}, g) == Exact(b, g)
  {
    TotalPut(Triggered(g), b, Registered(d));
    TotalPut(Answered(g), b, Registered(d));
    TotalPut(GivenUp(g), b, Registered(d));
    TotalPut(Open(g), b, Registered(d));
    TotalPut(Retried(g), b, Registered(d));
  }

  lemma StatsOfStep(cfg: Config, s: System, p: Step)
    requires CleanStep(p)
    ensures Apply(cfg, s, p).stats == StatsAfter(s.stats, p.event)
    ensures Apply(cfg, s, p).compensated == CompensatedAfter(s, p.event)
  {
  }

  lemma StepKeepsExact(cfg: Config, s: System, p: Step, g: CampaignId)
    requires FaultyInv(cfg, s) && AllTidy(s) && CleanStep(p) && Enabled(cfg, s, p.event)
    requires RowExact(s, g)
    ensures RowExact(Apply(cfg, s, p), g)
  {
    var e := p.event;
    StatsOfStep(cfg, s, p);
    if g in Apply(cfg, s, p).stats {
      assert g in s.stats;
      StatsShiftIsApplied(s.stats, e, g);
      if e.Register? {
        StepAddsOne(cfg, s, p);
        ExactWithNew(All(s), e.first, g);
      } else {
        var t := Source(e);
        StepMovesOne(cfg, s, p);
        assert Tidy(s, t);
        MovedKeepsContract(cfg, s.origin[t.Call()], e);
        WeightsShiftAlike(cfg, s.origin[t.Call()], e, g);
        ExactShifts(All(s), t, Target(cfg, e), g, StatsShift(e, g));
      }
    }
  }

  lemma TakenBackShifts(cfg: Config, s: System, s': System, e: Event, g: CampaignId)
    requires TakenBackExact(s, g)
    requires s'.compensated == CompensatedAfter(s, e)
    requires Total(TakenBack(g), All(s')) == Total(TakenBack(g), All(s)) + Weight(TakenBack(g), Target(cfg, e))
                                             - (if e.Register? then 0 else Weight(TakenBack(g), Source(e)))
    ensures TakenBackExact(s', g)
  {
  }

  lemma StepKeepsCounters(cfg: Config, s: System, p: Step)
    requires FaultyInv(cfg, s) && AllTidy(s) && CountersExact(s) && CleanStep(p) && Enabled(cfg, s, p.event)
    ensures CountersExact(Apply(cfg, s, p))
  {
    forall g: CampaignId ensures RowExact(Apply(cfg, s, p), g) && TakenBackExact(Apply(cfg, s, p), g) {
      StepKeepsExact(cfg, s, p, g);
      StatsOfStep(cfg, s, p);
      StepShiftsTotal(cfg, s, p, TakenBack(g));
      TakenBackShifts(cfg, s, Apply(cfg, s, p), p.event, g);
    }
  }

  lemma StepKeepsSorted(cfg: Config, s: System, p: Step)
    requires Sorted(s) && CleanStep(p)
    ensures Sorted(Apply(cfg, s, p))
  {
  }

  // ---------- Every clean run ----------

  lemma {:induction false} StepKeepsCleanInv(cfg: Config, s: System, p: Step)
    requires CleanInv(cfg, s) && CleanStep(p) && Enabled(cfg, s, p.event)
    ensures CleanInv(cfg, Apply(cfg, s, p))
  {
    StepKeepsFaultyInv(cfg, s, p);
    StepKeepsOneEach(cfg, s, p);
    StepKeepsTidy(cfg, s, p);
    StepKeepsCounters(cfg, s, p);
    StepKeepsSorted(cfg, s, p);
  }

  lemma NothingCounts(s: System, g: CampaignId)
    requires All(s) == multiset{} && s.compensated == map[] && (g in s.stats ==> s.stats[g] == ZERO)
    ensures RowExact(s, g) && TakenBackExact(s, g)
  {
  }

  lemma InitIsFaulty(cfg: Config, s: System)
    requires Init(s)
    ensures FaultyInv(cfg, s)
  {
  }

  lemma InitIsClean(cfg: Config, s: System)
    requires Init(s)
    ensures CleanInv(cfg, s)
  {
    assert All(s) == multiset{};
    InitIsFaulty(cfg, s);
    forall g: CampaignId ensures RowExact(s, g) && TakenBackExact(s, g) {
      NothingCounts(s, g);
    }
  }

  lemma CleanRunTail(cfg: Config, s: System, run: seq<Step>)
    requires CleanRun(cfg, s, run) && run != []
    ensures CleanStep(run[0]) && Enabled(cfg, s, run[0].event)
    ensures CleanRun(cfg, Apply(cfg, s, run[0]), run[1..])
    ensures After(cfg, s, run) == After(cfg, Apply(cfg, s, run[0]), run[1..])
  {
  }

  lemma CleanRunCons(cfg: Config, s: System, p: Step, rest: seq<Step>)
    requires CleanStep(p) && Enabled(cfg, s, p.event) && CleanRun(cfg, Apply(cfg, s, p), rest)
    ensures CleanRun(cfg, s, [p] + rest)
    ensures After(cfg, s, [p] + rest) == After(cfg, Apply(cfg, s, p), rest)
  {
    assert ([p] + rest)[1..] == rest;
  }

  lemma {:induction false} CleanRunKeepsInv(cfg: Config, s: System, run: seq<Step>)
    requires CleanInv(cfg, s) && CleanRun(cfg, s, run)
    ensures CleanInv(cfg, After(cfg, s, run))
    decreases |run|
  {
    if run != [] {
      CleanRunTail(cfg, s, run);
      StepKeepsCleanInv(cfg, s, run[0]);
      CleanRunKeepsInv(cfg, Apply(cfg, s, run[0]), run[1..]);
    }
  }

  lemma {:induction false} CleanRunReaches(cfg: Config, s: System, run: seq<Step>)
    requires Init(s) && CleanRun(cfg, s, run)
    ensures CleanInv(cfg, After(cfg, s, run))
  {
    InitIsClean(cfg, s);
    CleanRunKeepsInv(cfg, s, run);
  }
}
