/**
 Where what the pipeline holds comes from: every status message, row and retry goes back to a placed call and says what
 the provider said; and the counters count what the provider answered.
 */
module PipelineHistory {
  import opened Wrappers
  import opened Messages
  import opened Statistics
  import opened Pipeline
  import opened PipelineFaulty
  import opened Gauges
  import opened PipelineClean
  import opened PipelineTheorems

  // ---------- Provenance, on every run ----------

  /** What the placed calls of a run have published. */
  function Published(p: Step): set<StatusMessage> {
    if p.event.PlaceCall?
    then {BuildStatus(p.event.d, p.event.result, p.event.callErr, p.event.now, p.event.next)} else {}
  }

  function PublishedIn(run: seq<Step>): set<StatusMessage>
    decreases |run|
  {
    if run == [] then {} else Published(run[0]) + PublishedIn(run[1..])
  }

  /** The failed attempt that a retry follows. */
  predicate FollowsUp(r: RetryMessage, topic: int, m: StatusMessage) {
    m.callId == r.dispatch.callId && m.attempt == topic && m.retryable && m.nextAttempt == Some(r.nextAttempt)
  }

  ghost predicate TokenComesFrom(t: Token, ms: set<StatusMessage>) {
    && (t.HasStatus() ==> t.m in ms)
    && (t.HasRetry() ==> exists m :: m in ms && FollowsUp(t.r, t.topic, m))
  }

  /** All that is in the system was published by a placed call. */
  ghost predicate ComesFrom(s: System, ms: set<StatusMessage>) {
    && (forall t :: t in All(s) ==> TokenComesFrom(t, ms))
    && (forall c, j :: c in s.attempts && j in s.attempts[c] ==> s.attempts[c][j] in ms)
  }

  lemma TargetComesFrom(cfg: Config, first: DispatchMessage, p: Step, ms: set<StatusMessage>)
    requires !p.event.Register? && TokenOk(cfg, first, Source(p.event)) && TokenComesFrom(Source(p.event), ms)
    ensures TokenComesFrom(Target(cfg, p.event), ms + Published(p))
  {
    var t, u := Source(p.event), Target(cfg, p.event);
    if u.InRetryTopic? {
      assert t.m in ms + Published(p) && FollowsUp(u.r, u.topic, t.m);
    }
    if u.Sleeping? {
      var m :| m in ms && FollowsUp(t.r, t.topic, m);
      assert m in ms + Published(p) && FollowsUp(u.r, u.topic, m);
    }
  }

  lemma MoreComesFrom(t: Token, ms: set<StatusMessage>, more: set<StatusMessage>)
    requires TokenComesFrom(t, ms)
    ensures TokenComesFrom(t, ms + more)
  {
    if t.HasRetry() {
      var m :| m in ms && FollowsUp(t.r, t.topic, m);
      assert m in ms + more;
    }
  }

  lemma StepTokensComeFrom(cfg: Config, s: System, p: Step, ms: set<StatusMessage>, t: Token)
    requires TokensOk(cfg, s) && ComesFrom(s, ms) && Enabled(cfg, s, p.event) && t in All(Apply(cfg, s, p))
    ensures TokenComesFrom(t, ms + Published(p))
  {
    var e := p.event;
    if t != Target(cfg, e) {
      StepAddsAtMost(cfg, s, p, t);
      MoreComesFrom(t, ms, Published(p));
    } else if !e.Register? {
      assert Source(e) in All(s);
      TargetComesFrom(cfg, s.origin[Source(e).Call()], p, ms);
    }
  }

  lemma StepRowsComeFrom(cfg: Config, s: System, p: Step, ms: set<StatusMessage>, c: CallId, j: int)
    requires ComesFrom(s, ms) && Enabled(cfg, s, p.event)
    requires var s' := Apply(cfg, s, p); c in s'.attempts && j in s'.attempts[c]
    ensures Apply(cfg, s, p).attempts[c][j] in ms + Published(p)
  {
    if p.event.LogAttempt? {
      assert Source(p.event) in All(s);
    }
  }

  lemma StepComesFrom(cfg: Config, s: System, p: Step, ms: set<StatusMessage>)
    requires TokensOk(cfg, s) && ComesFrom(s, ms) && Enabled(cfg, s, p.event)
    ensures ComesFrom(Apply(cfg, s, p), ms + Published(p))
  {
    var s' := Apply(cfg, s, p);
    forall t | t in All(s') ensures TokenComesFrom(t, ms + Published(p)) {
      StepTokensComeFrom(cfg, s, p, ms, t);
    }
    forall c, j | c in s'.attempts && j in s'.attempts[c] ensures s'.attempts[c][j] in ms + Published(p) {
      StepRowsComeFrom(cfg, s, p, ms, c, j);
    }
  }

  lemma {:induction false} RunComesFrom(cfg: Config, s: System, run: seq<Step>, ms: set<StatusMessage>)
    requires TokensOk(cfg, s) && ComesFrom(s, ms) && FaultyRun(cfg, s, run)
    ensures ComesFrom(After(cfg, s, run), ms + PublishedIn(run))
    decreases |run|
  {
    if run == [] {
      assert ms + PublishedIn(run) == ms;
    } else {
      StepComesFrom(cfg, s, run[0], ms);
      StepKeepsTokens(cfg, s, run[0]);
      RunComesFrom(cfg, Apply(cfg, s, run[0]), run[1..], ms + Published(run[0]));
      assert ms + Published(run[0]) + PublishedIn(run[1..]) == ms + PublishedIn(run);
    }
  }

  /** The i-th step places the call of which a message speaks, and the message says what came of it. */
  predicate PlacedAt(run: seq<Step>, i: int, m: StatusMessage) {
    && 0 <= i < |run| && run[i].event.PlaceCall?
    && var e := run[i].event;
      Reports(m, e.d, e.result, e.callErr, e.now, e.next)
  }

  lemma {:induction false} PublishedWasPlaced(run: seq<Step>, m: StatusMessage) returns (i: nat)
    requires m in PublishedIn(run)
    ensures PlacedAt(run, i, m)
    decreases |run|
  {
    if m in Published(run[0]) {
      i := 0;
      var e := run[0].event;
      StatusReports(e.d, e.result, e.callErr, e.now, e.next);
    } else {
      var k := PublishedWasPlaced(run[1..], m);
      i := k + 1;
    }
  }

  lemma FromStart(cfg: Config, s: System, run: seq<Step>)
    requires Init(s) && FaultyRun(cfg, s, run)
    ensures ComesFrom(After(cfg, s, run), PublishedIn(run))
  {
    InitIsFaulty(cfg, s);
    assert All(s) == multiset{};
    RunComesFrom(cfg, s, run, {});
    assert {} + PublishedIn(run) == PublishedIn(run);
  }

  /** On every run, whatever is redelivered, lost or not written, each attempt row goes back to a placed call of that
      call and that attempt, and says what the provider said of it. */
  lemma RowsSayWhatWasAnswered(cfg: Config, s: System, run: seq<Step>, c: CallId, j: int) returns (i: nat)
    requires Init(s) && FaultyRun(cfg, s, run) && j in Rows(After(cfg, s, run), c)
    ensures PlacedAt(run, i, Rows(After(cfg, s, run), c)[j])
    ensures run[i].event.d.callId == c && run[i].event.d.attempt == j
  {
    FromStart(cfg, s, run);
    FaultyRunLogsSoundRows(cfg, s, run, c, j);
    i := PublishedWasPlaced(run, Rows(After(cfg, s, run), c)[j]);
    RowsAreOfTheirCall(cfg, s, run, c, j);
  }

  lemma RowsAreOfTheirCall(cfg: Config, s: System, run: seq<Step>, c: CallId, j: int)
    requires Init(s) && FaultyRun(cfg, s, run) && j in Rows(After(cfg, s, run), c)
    ensures Rows(After(cfg, s, run), c)[j].callId == c
  {
    InitIsFaulty(cfg, s);
    FaultyRunKeepsInv(cfg, s, run);
    RunKeepsOrigin(cfg, s, run);
  }

  /** A call's first message is kept under its own id. */
  ghost predicate OriginOk(s: System) {
    forall c :: c in s.origin ==> s.origin[c].callId == c
  }

  lemma {:induction false} RunKeepsOriginOk(cfg: Config, s: System, run: seq<Step>)
    requires OriginOk(s) && FaultyRun(cfg, s, run)
    ensures OriginOk(After(cfg, s, run))
    decreases |run|
  {
    if run != [] {
      RunKeepsOriginOk(cfg, Apply(cfg, s, run[0]), run[1..]);
    }
  }

  lemma RunKeepsOrigin(cfg: Config, s: System, run: seq<Step>)
    requires Init(s) && FaultyRun(cfg, s, run)
    ensures OriginOk(After(cfg, s, run))
  {
    RunKeepsOriginOk(cfg, s, run);
  }

  // ---------- Retries keep their time ----------

  lemma {:induction false} RunPrefix(cfg: Config, s: System, run: seq<Step>, i: nat)
    requires FaultyRun(cfg, s, run) && i < |run|
    ensures FaultyRun(cfg, s, run[..i]) && Enabled(cfg, After(cfg, s, run[..i]), run[i].event)
    decreases i
  {
    if i > 0 {
      assert run[1..][..i - 1] == run[..i][1..];
      RunPrefix(cfg, Apply(cfg, s, run[0]), run[1..], i - 1);
    }
  }

  /** On every run, whatever fails: a retry worker forwards attempt k + 1 only after a call worker placed attempt k of
      the same call and wanted a retry, and not before the time that the call worker computed for it. */
  lemma ForwardedNotBefore(cfg: Config, s: System, run: seq<Step>, i: nat) returns (k: nat)
    requires Init(s) && FaultyRun(cfg, s, run) && i < |run| && run[i].event.Forward?
    ensures k < i && run[k].event.PlaceCall?
    ensures var placed, forwarded := run[k].event, run[i].event;
      && placed.d.callId == forwarded.r.dispatch.callId && placed.d.attempt + 1 == forwarded.r.dispatch.attempt
      && placed.next == forwarded.r.nextAttempt <= forwarded.now
  {
    var before, e := After(cfg, s, run[..i]), run[i].event;
    RunPrefix(cfg, s, run, i);
    FromStart(cfg, s, run[..i]);
    InitIsFaulty(cfg, s);
    FaultyRunKeepsInv(cfg, s, run[..i]);
    assert Source(e) in All(before);
    var m :| m in PublishedIn(run[..i]) && FollowsUp(e.r, e.topic, m);
    k := PublishedWasPlaced(run[..i], m);
    assert run[..i][k] == run[k];
    assert TokenOk(cfg, before.origin[Source(e).Call()], Source(e));
  }

  /** On clean runs a retry is due at the time in the row of the attempt it follows. */
  ghost predicate DueByLog(s: System) {
    forall t :: t in s.tokens && t.HasRetry() ==> RetryInLog(t, Rows(s, t.Call()))
  }

  predicate RetryInLog(t: Token, rows: map<int, StatusMessage>)
    requires t.HasRetry()
  {
    t.topic in rows && rows[t.topic].nextAttempt == Some(t.r.nextAttempt)
  }

  lemma StepKeepsDueByLog(cfg: Config, s: System, p: Step)
    requires CleanInv(cfg, s) && DueByLog(s) && CleanStep(p) && Enabled(cfg, s, p.event)
    ensures DueByLog(Apply(cfg, s, p))
  {
    var s' := Apply(cfg, s, p);
    forall t | t in s'.tokens && t.HasRetry() ensures RetryInLog(t, Rows(s', t.Call())) {
      TokenDueByLog(cfg, s, p, t);
    }
  }

  lemma TokenDueByLog(cfg: Config, s: System, p: Step, t: Token)
    requires CleanInv(cfg, s) && DueByLog(s) && CleanStep(p) && Enabled(cfg, s, p.event)
    requires t in Apply(cfg, s, p).tokens && t.HasRetry()
    ensures RetryInLog(t, Rows(Apply(cfg, s, p), t.Call()))
  {
    if t == Target(cfg, p.event) {
      MovedTokenDue(cfg, s, p);
    } else {
      OldTokenDue(cfg, s, p, t);
    }
  }

  lemma MovedTokenDue(cfg: Config, s: System, p: Step)
    requires CleanInv(cfg, s) && DueByLog(s) && CleanStep(p) && Enabled(cfg, s, p.event)
    requires Target(cfg, p.event).HasRetry()
    ensures RetryInLog(Target(cfg, p.event), Rows(Apply(cfg, s, p), Target(cfg, p.event).Call()))
  {
    var u := SoundSource(cfg, s, p);
    MovedRetryInLog(cfg, s.origin[u.Call()], p, Rows(s, u.Call()));
    RowsOfStep(cfg, s, p, u.Call());
  }

  lemma OldTokenDue(cfg: Config, s: System, p: Step, t: Token)
    requires CleanInv(cfg, s) && DueByLog(s) && CleanStep(p) && Enabled(cfg, s, p.event)
    requires t in All(Apply(cfg, s, p)) && t.HasRetry() && t != Target(cfg, p.event)
    ensures RetryInLog(t, Rows(Apply(cfg, s, p), t.Call()))
  {
    OthersAreOtherCalls(cfg, s, p, t);
    OldRetryInLog(cfg, s, p, t);
    RowsOfStep(cfg, s, p, t.Call());
  }

  /** What is known of the token that a step takes. */
  lemma SoundSource(cfg: Config, s: System, p: Step) returns (t: Token)
    requires CleanInv(cfg, s) && Enabled(cfg, s, p.event) && !p.event.Register?
    ensures t == Source(p.event) && t in s.tokens && t.Call() in s.origin
    ensures TokenOk(cfg, s.origin[t.Call()], t) && ContractKept(t) && LogAgrees(t, Rows(s, t.Call()))
  {
    t := Source(p.event);
    assert t in All(s);
    assert Tidy(s, t);
  }

  lemma MovedRetryInLog(cfg: Config, first: DispatchMessage, p: Step, rows: map<int, StatusMessage>)
    requires !p.event.Register? && TokenOk(cfg, first, Source(p.event)) && LogAgrees(Source(p.event), rows)
    requires Source(p.event).HasRetry() ==> RetryInLog(Source(p.event), rows)
    requires Target(cfg, p.event).HasRetry()
    ensures RetryInLog(Target(cfg, p.event), rows)
    ensures !p.event.LogAttempt? && Target(cfg, p.event).Call() == Source(p.event).Call()
  {
  }

  lemma OldRetryInLog(cfg: Config, s: System, p: Step, t: Token)
    requires Sorted(s) && DueByLog(s) && t in All(s) && t.HasRetry()
    ensures RetryInLog(t, Rows(s, t.Call()))
  {
  }

  lemma {:induction false} RunKeepsDueByLog(cfg: Config, s: System, run: seq<Step>)
    requires CleanInv(cfg, s) && DueByLog(s) && CleanRun(cfg, s, run)
    ensures DueByLog(After(cfg, s, run))
    decreases |run|
  {
    if run != [] {
      CleanRunTail(cfg, s, run);
      StepKeepsDueByLog(cfg, s, run[0]);
      StepKeepsCleanInv(cfg, s, run[0]);
      RunKeepsDueByLog(cfg, Apply(cfg, s, run[0]), run[1..]);
    }
  }

  /** On every clean run, a retry in topic k, or with its worker, is due when the row of attempt k says. */
  lemma RetriesAreDueByLog(cfg: Config, s: System, run: seq<Step>, t: Token)
    requires Init(s) && CleanRun(cfg, s, run) && t in After(cfg, s, run).tokens && t.HasRetry()
    ensures var rows := Rows(After(cfg, s, run), t.Call());
      t.topic in rows && rows[t.topic].nextAttempt == Some(t.r.nextAttempt)
  {
    InitIsClean(cfg, s);
    RunKeepsDueByLog(cfg, s, run);
    assert RetryInLog(t, Rows(After(cfg, s, run), t.Call()));
  }

  // ---------- Each attempt is placed once ----------

  /** The attempts of a call that a token has behind it. */
  function Behind(t: Token): int {
    if t.HasStatus() then t.Attempt() else t.Attempt() - 1
  }

  /** All tokens of a call have attempt j behind them. */
  ghost predicate Past(s: System, c: CallId, j: int) {
    c in s.origin && forall t :: t in All(s) && t.Call() == c ==> j <= Behind(t)
  }

  /** The token that a step moves keeps its attempts behind it, and leaves one more behind if it is a call. */
  lemma TargetKeepsPast(cfg: Config, first: DispatchMessage, e: Event)
    requires !e.Register? && TokenOk(cfg, first, Source(e))
    ensures Target(cfg, e).Call() == Source(e).Call() && Behind(Source(e)) <= Behind(Target(cfg, e))
    ensures e.PlaceCall? ==> e.d.callId == Source(e).Call() && Behind(Source(e)) == e.d.attempt - 1
                             && Behind(Target(cfg, e)) == e.d.attempt
  {
  }

  lemma MovedIsPast(cfg: Config, s: System, p: Step, c: CallId, j: int)
    requires TokensOk(cfg, s) && Past(s, c, j) && Enabled(cfg, s, p.event)
    ensures Target(cfg, p.event).Call() == c ==> j <= Behind(Target(cfg, p.event))
    ensures p.event.PlaceCall? && p.event.d.callId == c ==> p.event.d.attempt > j
  {
    if !p.event.Register? {
      assert Source(p.event) in All(s);
      TargetKeepsPast(cfg, s.origin[Source(p.event).Call()], p.event);
    }
  }

  lemma StepKeepsPast(cfg: Config, s: System, p: Step, c: CallId, j: int)
    requires TokensOk(cfg, s) && Past(s, c, j) && Enabled(cfg, s, p.event)
    ensures Past(Apply(cfg, s, p), c, j)
  {
    MovedIsPast(cfg, s, p, c, j);
    OriginKept(cfg, s, p, c);
    forall t | t in All(Apply(cfg, s, p)) && t.Call() == c ensures j <= Behind(t) {
      if t != Target(cfg, p.event) {
        StepAddsAtMost(cfg, s, p, t);
      }
    }
  }

  lemma {:induction false} NotPlacedAgain(cfg: Config, s: System, run: seq<Step>, c: CallId, j: int, i: nat)
    requires TokensOk(cfg, s) && Past(s, c, j) && FaultyRun(cfg, s, run) && i < |run|
    ensures run[i].event.PlaceCall? && run[i].event.d.callId == c ==> run[i].event.d.attempt > j
    decreases |run|
  {
    if i == 0 {
      MovedIsPast(cfg, s, run[0], c, j);
    } else {
      StepKeepsPast(cfg, s, run[0], c, j);
      StepKeepsTokens(cfg, s, run[0]);
      NotPlacedAgain(cfg, Apply(cfg, s, run[0]), run[1..], c, j, i - 1);
    }
  }

  lemma PlacedIsPast(cfg: Config, s: System, p: Step)
    requires CleanInv(cfg, s) && CleanStep(p) && Enabled(cfg, s, p.event) && p.event.PlaceCall?
    ensures Past(Apply(cfg, s, p), p.event.d.callId, p.event.d.attempt)
  {
    var s', u := Apply(cfg, s, p), Target(cfg, p.event);
    assert Source(p.event) in All(s);
    forall t | t in All(s') && t.Call() == p.event.d.callId ensures p.event.d.attempt <= Behind(t) {
      if t != u {
        OthersAreOtherCalls(cfg, s, p, t);
      }
    }
  }

  lemma {:induction false} RunSplits(cfg: Config, s: System, a: seq<Step>, b: seq<Step>)
    requires FaultyRun(cfg, s, a + b)
    ensures FaultyRun(cfg, s, a) && FaultyRun(cfg, After(cfg, s, a), b)
    decreases |a|
  {
    if a == [] {
      assert a + b == b;
    } else {
      assert (a + b)[1..] == a[1..] + b;
      RunSplits(cfg, Apply(cfg, s, a[0]), a[1..], b);
    }
  }

  /** A clean run cut before its i-th step. */
  lemma CutAt(cfg: Config, s: System, run: seq<Step>, i: nat)
    requires CleanRun(cfg, s, run) && i < |run|
    ensures CleanRun(cfg, s, run[..i]) && CleanStep(run[i])
    ensures FaultyRun(cfg, After(cfg, s, run[..i]), run[i..])
  {
    assert run[..i] + run[i..] == run;
    RunSplits(cfg, s, run[..i], run[i..]);
  }

  lemma FirstOfRun(cfg: Config, s: System, run: seq<Step>)
    requires FaultyRun(cfg, s, run) && run != []
    ensures Enabled(cfg, s, run[0].event) && FaultyRun(cfg, Apply(cfg, s, run[0]), run[1..])
  {
  }

  /** What is known when a clean run has come to its i-th step. */
  lemma Midway(cfg: Config, s: System, run: seq<Step>, i: nat) returns (mid: System)
    requires CleanInv(cfg, s) && CleanRun(cfg, s, run) && i < |run|
    ensures CleanInv(cfg, mid) && CleanStep(run[i]) && Enabled(cfg, mid, run[i].event)
    ensures FaultyRun(cfg, Apply(cfg, mid, run[i]), run[i + 1..])
  {
    CutAt(cfg, s, run, i);
    mid := After(cfg, s, run[..i]);
    CleanRunKeepsInv(cfg, s, run[..i]);
    FirstOfRun(cfg, mid, run[i..]);
    assert run[i..][0] == run[i] && run[i..][1..] == run[i + 1..];
  }

  /** And after it, if it placed a call. */
  lemma PlacedMidway(cfg: Config, s: System, run: seq<Step>, i: nat) returns (next: System)
    requires CleanInv(cfg, s) && CleanRun(cfg, s, run) && i < |run| && run[i].event.PlaceCall?
    ensures FaultyRun(cfg, next, run[i + 1..]) && TokensOk(cfg, next)
    ensures Past(next, run[i].event.d.callId, run[i].event.d.attempt)
  {
    var mid := Midway(cfg, s, run, i);
    PlacedIsPast(cfg, mid, run[i]);
    StepKeepsTokens(cfg, mid, run[i]);
    next := Apply(cfg, mid, run[i]);
  }

  /** On a clean run no attempt of a call is placed twice, so its row says what the one answer was. */
  lemma PlacedOnce(cfg: Config, s: System, run: seq<Step>, i: nat, k: nat)
    requires CleanInv(cfg, s) && CleanRun(cfg, s, run) && i < k < |run|
    requires run[i].event.PlaceCall? && run[k].event.PlaceCall? && run[i].event.d.callId == run[k].event.d.callId
    ensures run[i].event.d.attempt < run[k].event.d.attempt
  {
    var next := PlacedMidway(cfg, s, run, i);
    assert run[i + 1..][k - i - 1] == run[k];
    NotPlacedAgain(cfg, next, run[i + 1..], run[i].event.d.callId, run[i].event.d.attempt, k - i - 1);
  }

  // ---------- What the counters count ----------

  /** The provider's answer to a placed call is this final outcome: completed; or failed, or silent with an error,
      without another attempt to come. */
  predicate AnsweredAs(e: Event, status: CallStatus)
    requires e.PlaceCall?
  {
    var silent := e.callErr.Some? && e.result.error == "";
    var again := (silent || e.result.retryable) && e.d.attempt < e.d.maxAttempts;
    match status
    case Completed => !silent && e.result.status == Completed
    case Failed => (silent || e.result.status == Failed) && !again
    case _ => false
  }

  /** The placed calls of a campaign with this outcome. */
  function Answers(run: seq<Step>, g: CampaignId, status: CallStatus): nat
    decreases |run|
  {
    if run == [] then 0
    else Answers(run[1..], g, status)
         + Indicator(run[0].event.PlaceCall? && run[0].event.d.campaignId == g && AnsweredAs(run[0].event, status))
  }

  lemma OutcomeShifts(cfg: Config, first: DispatchMessage, p: Step, g: CampaignId, status: CallStatus)
    requires CleanStep(p) && !p.event.Register? && TokenOk(cfg, first, Source(p.event)) && ContractKept(Source(p.event))
    requires status == Completed || status == Failed
    ensures Weight(Outcome(g, status), Target(cfg, p.event))
         == Weight(Outcome(g, status), Source(p.event))
            + Indicator(p.event.PlaceCall? && p.event.d.campaignId == g && AnsweredAs(p.event, status))
  {
  }

  lemma AnswerWeight(cfg: Config, s: System, p: Step, g: CampaignId, status: CallStatus)
    requires CleanInv(cfg, s) && CleanStep(p) && Enabled(cfg, s, p.event) && (status == Completed || status == Failed)
    ensures Weight(Outcome(g, status), Target(cfg, p.event))
         == (if p.event.Register? then 0 else Weight(Outcome(g, status), Source(p.event)))
            + Indicator(p.event.PlaceCall? && p.event.d.campaignId == g && AnsweredAs(p.event, status))
  {
    if !p.event.Register? {
      var t := SoundSource(cfg, s, p);
      OutcomeShifts(cfg, s.origin[t.Call()], p, g, status);
    }
  }

  lemma StepCountsAnswer(cfg: Config, s: System, p: Step, g: CampaignId, status: CallStatus)
    requires CleanInv(cfg, s) && CleanStep(p) && Enabled(cfg, s, p.event) && (status == Completed || status == Failed)
    ensures Total(Outcome(g, status), All(Apply(cfg, s, p)))
         == Total(Outcome(g, status), All(s))
            + Indicator(p.event.PlaceCall? && p.event.d.campaignId == g && AnsweredAs(p.event, status))
  {
    StepShiftsTotal(cfg, s, p, Outcome(g, status));
    AnswerWeight(cfg, s, p, g, status);
  }

  lemma {:induction false} RunCountsAnswers(cfg: Config, s: System, run: seq<Step>, g: CampaignId, status: CallStatus)
    requires CleanInv(cfg, s) && CleanRun(cfg, s, run) && (status == Completed || status == Failed)
    ensures Total(Outcome(g, status), All(After(cfg, s, run)))
         == Total(Outcome(g, status), All(s)) + Answers(run, g, status)
    decreases |run|
  {
    if run != [] {
      CleanRunTail(cfg, s, run);
      StepCountsAnswer(cfg, s, run[0], g, status);
      StepKeepsCleanInv(cfg, s, run[0]);
      RunCountsAnswers(cfg, Apply(cfg, s, run[0]), run[1..], g, status);
    }
  }

  function Counted(c: Counters, status: CallStatus): int {
    if status == Completed then c.completed else c.failed
  }

  function CountedGauge(g: CampaignId, status: CallStatus): Gauge {
    if status == Completed then Answered(g) else GivenUp(g)
  }

  lemma OutcomeWeights(t: Token, g: CampaignId, status: CallStatus)
    requires status == Completed || status == Failed
    ensures Weight(CountedGauge(g, status), t) + Weight(Uncounted(g, status), t) == Weight(Outcome(g, status), t)
    ensures t.Ended() ==> Weight(Uncounted(g, status), t) == 0
  {
  }

  lemma OutcomesSplit(s: System, g: CampaignId, status: CallStatus)
    requires Sorted(s) && (status == Completed || status == Failed)
    ensures Total(CountedGauge(g, status), All(s)) + Total(Uncounted(g, status), s.tokens)
         == Total(Outcome(g, status), All(s))
  {
    SumOfOutcomes(All(s), g, status);
    TotalSplit(Uncounted(g, status), s.tokens, s.archive);
    forall t | t in s.archive ensures Weight(Uncounted(g, status), t) == 0 {
      OutcomeWeights(t, g, status);
    }
    TotalZero(Uncounted(g, status), s.archive);
  }

  lemma SumOfOutcomes(b: multiset<Token>, g: CampaignId, status: CallStatus)
    requires status == Completed || status == Failed
    ensures Total(CountedGauge(g, status), b) + Total(Uncounted(g, status), b) == Total(Outcome(g, status), b)
  {
    var q, r, u := CountedGauge(g, status), Uncounted(g, status), Outcome(g, status);
    forall t | t in b ensures Weight(q, t) + Weight(r, t) == Weight(u, t) {
      OutcomeWeights(t, g, status);
    }
    TotalSum(q, r, u, b);
  }

  /** At every moment of a clean run, completed (or failed) plus the outcomes not counted yet is the number of calls
      that the provider answered so. */
  lemma CountersCountAnswers(cfg: Config, s: System, run: seq<Step>, g: CampaignId, status: CallStatus)
    requires Init(s) && CleanRun(cfg, s, run) && g in After(cfg, s, run).stats
    requires status == Completed || status == Failed
    ensures var s' := After(cfg, s, run);
      Counted(s'.stats[g], status) + Total(Uncounted(g, status), s'.tokens) == Answers(run, g, status)
  {
    CleanRunReaches(cfg, s, run);
    InitIsClean(cfg, s);
    RunCountsAnswers(cfg, s, run, g, status);
    var s' := After(cfg, s, run);
    assert All(s) == multiset{};
    OutcomesSplit(s', g, status);
    assert RowExact(s', g);
  }

  /** With nothing in flight, completed and failed are the numbers of calls answered so. */
  lemma AtRestCountersAreAnswers(cfg: Config, s: System, run: seq<Step>, g: CampaignId)
    requires Init(s) && CleanRun(cfg, s, run) && g in After(cfg, s, run).stats
    requires After(cfg, s, run).tokens == multiset{}
    ensures var c := After(cfg, s, run).stats[g];
      c.completed == Answers(run, g, Completed) && c.failed == Answers(run, g, Failed)
  {
    CountersCountAnswers(cfg, s, run, g, Completed);
    CountersCountAnswers(cfg, s, run, g, Failed);
  }
}
