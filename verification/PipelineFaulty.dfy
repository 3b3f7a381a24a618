/** What holds on every run of the pipeline, whatever is redelivered, lost or not written. */
module PipelineFaulty {
  import opened Wrappers
  import opened Messages
  import opened Statistics
  import opened Pipeline

  // ---------- Budgets ----------

  /** The largest attempt number a call can reach, by its first message's MaxAttempts. */
  function Cap(codec: Codec, budget: int): int {
    var atLeastOne := if budget < 1 then 1 else budget;
    if codec == Literal && atLeastOne > 2 then 2 else atLeastOne
  }

  /** The MaxAttempts that the messages of an attempt carry. */
  function BudgetAt(codec: Codec, budget: int, attempt: int): int {
    if codec == Literal && attempt > 1 then 0 else budget
  }

  /** The call's history bounds every one of its tokens. `first` is the call's first message. */
  predicate TokenOk(cfg: Config, first: DispatchMessage, t: Token) {
    && t.Load() == PayloadOf(first)
    && first.attempt == 1
    && first.campaignId != NIL_CAMPAIGN
    && first.campaignId in cfg.phones && first.phone in cfg.phones[first.campaignId]
    && 1 <= t.Attempt() <= Cap(cfg.codec, first.maxAttempts)
    && (t.Registered? || t.Announced? || t.Refused? ==> t.d == first)
    && (t.HasDispatch() ==> t.d.maxAttempts == BudgetAt(cfg.codec, first.maxAttempts, t.Attempt()))
    && (t.HasStatus() ==> StatusOk(cfg, first, t.m))
    && (t.HasRetry() ==> RetryOk(cfg, first, t.topic, t.r))
    && (t.InRetryTopic? ==> t.r.dispatch.maxAttempts == first.maxAttempts)
    && (t.Sleeping? ==> t.r.dispatch.maxAttempts == BudgetAt(cfg.codec, first.maxAttempts, t.Attempt()))
    && (t.Closed? ==> !t.m.retryable)
    && (t.Stranded? ==> t.m.retryable && cfg.topics < t.m.attempt)
  }

  predicate StatusOk(cfg: Config, first: DispatchMessage, m: StatusMessage) {
    && m.maxAttempts == BudgetAt(cfg.codec, first.maxAttempts, m.attempt)
    && (m.retryable ==> m.attempt < m.maxAttempts)
    && (m.retryable <==> m.nextAttempt.Some?)
  }

  /** Retry topic k holds the retries of attempt k, numbered k + 1, and k is below the call's budget. */
  predicate RetryOk(cfg: Config, first: DispatchMessage, topic: int, r: RetryMessage) {
    && 1 <= topic <= cfg.topics
    && r.dispatch.attempt == topic + 1
    && topic < first.maxAttempts
    && r.maxAttempts == first.maxAttempts
    && (cfg.codec == Literal ==> topic == 1)
  }

  ghost predicate TokensOk(cfg: Config, s: System) {
    forall t :: t in All(s) ==> t.Call() in s.origin && TokenOk(cfg, s.origin[t.Call()], t)
  }

  /** Every row of the attempt log was written from a message of that call and that attempt. */
  predicate RowOk(cfg: Config, first: DispatchMessage, attempt: int, m: StatusMessage) {
    && m.attempt == attempt
    && PayloadOfStatus(m) == PayloadOf(first)
    && 1 <= attempt <= Cap(cfg.codec, first.maxAttempts)
    && StatusOk(cfg, first, m)
  }

  ghost predicate RowsOk(cfg: Config, s: System) {
    forall c, j :: c in s.attempts && j in s.attempts[c] ==>
      c in s.origin && RowOk(cfg, s.origin[c], j, s.attempts[c][j])
  }

  /** Pending calls, closed calls and compensated dispatches account for every counted call. */
  predicate Balanced(c: Counters, compensated: int) {
    c.total - compensated == c.completed + c.failed + c.pending && c.inProgress == 0
  }

  ghost predicate StatsBalanced(s: System) {
    && NIL_CAMPAIGN !in s.stats
    && forall g :: g in s.stats ==> Balanced(s.stats[g], CompensatedFor(s, g))
  }

  ghost predicate FaultyInv(cfg: Config, s: System) {
    TokensOk(cfg, s) && RowsOk(cfg, s) && StatsBalanced(s)
  }

  // ---------- One step ----------

  /** A worker that is handed a sound message hands on a sound message. */
  lemma StepKeepsTokenOk(cfg: Config, first: DispatchMessage, e: Event)
    requires !e.Register? && TokenOk(cfg, first, Source(e))
    ensures TokenOk(cfg, first, Target(cfg, e))
    ensures Target(cfg, e).Call() == Source(e).Call()
  {
  }

  /** A step adds no token but the one it produces. */
  lemma StepAddsAtMost(cfg: Config, s: System, p: Step, t: Token)
    requires t in All(Apply(cfg, s, p)) && t != Target(cfg, p.event)
    ensures t in All(s)
  {
  }

  lemma StepKeepsTokens(cfg: Config, s: System, p: Step)
    requires TokensOk(cfg, s) && Enabled(cfg, s, p.event)
    ensures TokensOk(cfg, Apply(cfg, s, p))
  {
    forall t | t in All(Apply(cfg, s, p))
      ensures t.Call() in Apply(cfg, s, p).origin && TokenOk(cfg, Apply(cfg, s, p).origin[t.Call()], t)
    {
      if t == Target(cfg, p.event) {
        TargetIsSound(cfg, s, p);
      } else {
        StepAddsAtMost(cfg, s, p, t);
        OriginKept(cfg, s, p, t.Call());
      }
    }
  }

  lemma OriginKept(cfg: Config, s: System, p: Step, c: CallId)
    requires Enabled(cfg, s, p.event) && c in s.origin
    ensures c in Apply(cfg, s, p).origin && Apply(cfg, s, p).origin[c] == s.origin[c]
  {
  }

  lemma TargetIsSound(cfg: Config, s: System, p: Step)
    requires TokensOk(cfg, s) && Enabled(cfg, s, p.event)
    ensures var t, s' := Target(cfg, p.event), Apply(cfg, s, p);
      t.Call() in s'.origin && TokenOk(cfg, s'.origin[t.Call()], t)
  {
    var e := p.event;
    if !e.Register? {
      assert Source(e) in All(s);
      StepKeepsTokenOk(cfg, s.origin[Source(e).Call()], e);
      OriginKept(cfg, s, p, Source(e).Call());
    }
  }

  lemma StepKeepsRows(cfg: Config, s: System, p: Step)
    requires TokensOk(cfg, s) && RowsOk(cfg, s) && Enabled(cfg, s, p.event)
    ensures RowsOk(cfg, Apply(cfg, s, p))
  {
    var e, s' := p.event, Apply(cfg, s, p);
    if e.LogAttempt? {
      assert Source(e) in All(s);
    }
    forall c, j | c in s'.attempts && j in s'.attempts[c]
      ensures c in s'.origin && RowOk(cfg, s'.origin[c], j, s'.attempts[c][j])
    {
      if !(e.LogAttempt? && c == e.m.callId && j == e.m.attempt) {
        assert c in s.attempts && j in s.attempts[c];
        assert s.attempts[c][j] == s'.attempts[c][j];
      }
    }
  }

  lemma StepKeepsBalance(cfg: Config, s: System, p: Step)
    requires StatsBalanced(s)
    ensures StatsBalanced(Apply(cfg, s, p))
  {
    var e, s' := p.event, Apply(cfg, s, p);
    forall g | g in s'.stats
      ensures Balanced(s'.stats[g], CompensatedFor(s', g))
    {
      assert g in s.stats;
      assert Balanced(s.stats[g], CompensatedFor(s, g));
    }
  }

  lemma StepKeepsFaultyInv(cfg: Config, s: System, p: Step)
    requires FaultyInv(cfg, s) && Enabled(cfg, s, p.event)
    ensures FaultyInv(cfg, Apply(cfg, s, p))
  {
    StepKeepsTokens(cfg, s, p);
    StepKeepsRows(cfg, s, p);
    StepKeepsBalance(cfg, s, p);
  }

  // ---------- Every run ----------

  lemma {:induction false} FaultyRunKeepsInv(cfg: Config, s: System, run: seq<Step>)
    requires FaultyInv(cfg, s) && FaultyRun(cfg, s, run)
    ensures FaultyInv(cfg, After(cfg, s, run))
    decreases |run|
  {
    if run != [] {
      StepKeepsFaultyInv(cfg, s, run[0]);
      FaultyRunKeepsInv(cfg, Apply(cfg, s, run[0]), run[1..]);
    }
  }

  /** Whatever is redelivered, lost or not written: every message anywhere carries the payload of its
      call's first dispatch, a registered phone number and an attempt within the call's cap, every
      retry topic k holds only attempt k + 1, and the counters balance. */
  lemma FaultyRunIsSafe(cfg: Config, s: System, run: seq<Step>)
    requires Init(s) && FaultyRun(cfg, s, run)
    ensures var s' := After(cfg, s, run);
      && (forall t :: t in All(s') ==>
            && t.Call() in s'.origin
            && var first := s'.origin[t.Call()];
            && t.Load() == PayloadOf(first)
            && first.campaignId in cfg.phones && t.Load().phone in cfg.phones[t.Load().campaignId]
            && 1 <= t.Attempt() <= Cap(cfg.codec, first.maxAttempts)
            && (t.HasRetry() ==>
                  1 <= t.topic <= cfg.topics && t.Attempt() == t.topic + 1 && t.topic < first.maxAttempts))
      && (forall g :: g in s'.stats ==> Balanced(s'.stats[g], CompensatedFor(s', g)))
  {
    FaultyRunKeepsInv(cfg, s, run);
  }

  /** The attempt log never goes beyond the cap and never mixes up calls or attempts. */
  lemma {:induction false} FaultyRunLogsSoundRows(cfg: Config, s: System, run: seq<Step>, c: CallId, j: int)
    requires Init(s) && FaultyRun(cfg, s, run)
    requires j in Rows(After(cfg, s, run), c)
    ensures var s' := After(cfg, s, run);
      && c in s'.origin
      && var m := Rows(s', c)[j];
      && m.attempt == j && PayloadOfStatus(m) == PayloadOf(s'.origin[c])
      && 1 <= j <= Cap(cfg.codec, s'.origin[c].maxAttempts)
  {
    FaultyRunKeepsInv(cfg, s, run);
    var s' := After(cfg, s, run);
    assert c in s'.attempts && RowOk(cfg, s'.origin[c], j, s'.attempts[c][j]);
  }

  /** The effect of the shadowed JSON tag, on any run: after one retry no message carries a budget and
      no second attempt is ever retryable. With the intended decoding each message keeps the budget. */
  lemma {:induction false} BudgetAfterRetry(cfg: Config, s: System, run: seq<Step>, t: Token)
    requires Init(s) && FaultyRun(cfg, s, run)
    requires t in All(After(cfg, s, run)) && !t.InRetryTopic? && t.Attempt() > 1
    ensures t.Call() in After(cfg, s, run).origin
    ensures t.MaxAttempts() == if cfg.codec == Literal then 0 else After(cfg, s, run).origin[t.Call()].maxAttempts
    ensures cfg.codec == Literal ==> t.Attempt() == 2 && (t.HasStatus() ==> !t.m.retryable)
  {
    FaultyRunKeepsInv(cfg, s, run);
  }

  /** So under the code as it stands only first attempts are ever retried, on any run. */
  lemma LiteralRetriesFirstOnly(cfg: Config, s: System, run: seq<Step>, t: Token)
    requires Init(s) && FaultyRun(cfg, s, run) && cfg.codec == Literal
    requires t in All(After(cfg, s, run))
    ensures t.HasStatus() && t.m.retryable ==> t.Attempt() == 1
    ensures t.HasDispatch() && t.d.attempt < t.d.maxAttempts ==> t.Attempt() == 1
  {
    FaultyRunKeepsInv(cfg, s, run);
  }

  /** A failure that asks for a retry gets one exactly when its attempt is below the cap: the whole budget
      under the intended decoding, two attempts at most under the code as it stands. */
  lemma RetriedExactlyBelowCap(cfg: Config, first: DispatchMessage, d: DispatchMessage,
                               result: ProviderResult, callErr: Option<string>, now: int, next: int)
    requires TokenOk(cfg, first, OnCall(d))
    ensures var m := Target(cfg, PlaceCall(d, result, callErr, now, next)).m;
      WantsRetry(m) <==>
        (result.retryable || ErrorOverrides(result, callErr)) && d.attempt < Cap(cfg.codec, first.maxAttempts)
  {
  }
}
