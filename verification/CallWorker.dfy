/** internal/worker/call/worker.go: one dispatch message, from the topic to its status message. */
module CallWorker {
  import opened Wrappers
  import opened Messages
  import opened Limiter
  import Backoff
  import P = Pipeline
  import F = PipelineFaulty
  import R = PipelineRuns

  /** What the world answers while one message is handled. */
  datatype Answers = Answers(
    polls: seq<Poll>,                                            // the limiter while the worker waits for a slot
    result: ProviderResult, callErr: Option<string>,             // the provider
    now: int, u: real, huge: int,                                // clock, random number, float conversion
    publishOk: bool, commitOk: bool,                             // Kafka
    keysAtRelease: map<CampaignId, Key>, releasedAt: int, releaseReply: Reply) // the limiter at the end

  datatype Outcome =
    | Undecodable
    | NoSlot(slot: Slot)
    | Handled(slot: Slot, message: StatusMessage)

  /** The retry time computed for a dispatch. */
  function NextAttempt(d: DispatchMessage, a: Answers): int {
    a.now + Backoff.Delay(d.baseMs, d.maxMs, d.jitter, d.attempt, a.huge, a.u)
  }

  /** What a worker published and committed for one message. */
  ghost predicate Processed(raw: Option<DispatchMessage>, a: Answers, out: Outcome,
                            topic: seq<StatusMessage>, topic': seq<StatusMessage>, commits: int)
  {
    && (out.Undecodable? <==> raw.None?)
    && (out.Handled? ==>
          && raw.Some?
          && out.message == BuildStatus(raw.value, a.result, a.callErr, a.now, NextAttempt(raw.value, a)))
    && topic' == (if out.Handled? && a.publishOk then topic + [out.message] else topic)
    && commits == (if !out.NoSlot? && a.commitOk then 1 else 0)
  }

  class Worker {
    const limiter: RedisLimiter
    const configLimit: int
    var statusTopic: seq<StatusMessage>
    var committed: int

    constructor (limiter: RedisLimiter, configLimit: int)
      ensures this.limiter == limiter && this.configLimit == configLimit && statusTopic == [] && committed == 0
    {
      this.limiter, this.configLimit := limiter, configLimit;
      statusTopic, committed := [], 0;
    }

    /** The status message, put together field by field and then corrected. */
    method Report(d: DispatchMessage, a: Answers) returns (m: StatusMessage)
      ensures m == BuildStatus(d, a.result, a.callErr, a.now, NextAttempt(d, a))
      ensures a.callErr.Some? && a.result.error == "" ==>
                m.status == Failed && m.error == a.callErr.value && (m.retryable <==> d.attempt < d.maxAttempts)
      ensures a.callErr.None? || a.result.error != "" ==>
                && m.status == a.result.status && m.error == a.result.error
                && (m.retryable <==> a.result.retryable && d.attempt < d.maxAttempts)
      ensures a.result.duration > 0 ==> m.durationMs * 1_000_000 <= a.result.duration < (m.durationMs + 1) * 1_000_000
      ensures a.result.duration <= 0 ==> m.durationMs == 0
      ensures m.occurredAt == a.now && (m.retryable <==> m.nextAttempt.Some?)
      ensures m.retryable ==>
                m.nextAttempt.value == a.now + Backoff.Delay(d.baseMs, d.maxMs, d.jitter, d.attempt, a.huge, a.u)
    {
      m := StatusMessage(
        d.callId, d.campaignId, d.phone, a.result.status, d.attempt, d.maxAttempts,
        a.result.retryable && d.attempt < d.maxAttempts,
        d.baseMs, d.maxMs, d.jitter, d.limit, 0, a.result.error, a.now, None, d.metadata);
      if a.result.duration > 0 {
        m := m.(durationMs := a.result.duration / 1_000_000);
      }
      if a.callErr.Some? && m.error == "" {
        m := m.(error := a.callErr.value);
        m := m.(retryable := d.attempt < d.maxAttempts);
        m := m.(status := Failed);
      }
      if m.retryable {
        var next := Backoff.ComputeNextAttempt(d.baseMs, d.maxMs, d.jitter, d.attempt, a.now, a.u, a.huge);
        m := m.(nextAttempt := Some(next));
      }
    }

    /** processMessage. A slot that was taken is given back exactly once, on the way out; a slot that was not
        needed is not. A failed publication is logged and the message is committed all the same. */
    method ProcessMessage(raw: Option<DispatchMessage>, a: Answers) returns (out: Outcome)
      modifies this`statusTopic, this`committed, limiter`keys, limiter`writes
      ensures Processed(raw, a, out, old(statusTopic), statusTopic, committed - old(committed))
      ensures committed == old(committed) + if !out.NoSlot? && a.commitOk then 1 else 0
      ensures statusTopic == old(statusTopic) + if out.Handled? && a.publishOk then [out.message] else []
      ensures !out.Undecodable? ==> Waited(out.slot, raw.value.campaignId, raw.value.limit, configLimit, a.polls)
      ensures out.Handled? ==> out.slot.NotNeeded? || out.slot.Taken?
      ensures out.NoSlot? ==> out.slot.Errored? || out.slot.Abandoned?
      ensures out.Undecodable? || (out.Handled? && out.slot.NotNeeded?) ==>
                limiter.keys == old(limiter.keys) && limiter.writes == old(limiter.writes)
      ensures out.Handled? && out.slot.Taken? ==>
                var g, poll := raw.value.campaignId, a.polls[out.slot.polls];
                var taken := poll.keys[g := Raised(KeyIn(poll.keys, g), Milliseconds(limiter.ttl), poll.at)];
                var given := a.keysAtRelease[g := Lowered(KeyIn(a.keysAtRelease, g), a.releasedAt)];
                if a.releaseReply == NotRun
                then limiter.keys == a.keysAtRelease && limiter.writes == old(limiter.writes) + [taken]
                else limiter.keys == given && limiter.writes == old(limiter.writes) + [taken] + [given]
    {
      if raw.None? {
        if a.commitOk {
          committed := committed + 1;
        }
        return Undecodable;
      }
      var d := raw.value;
      var slot := limiter.WaitForSlot(d.campaignId, d.limit, configLimit, a.polls);
      if slot.Abandoned? || slot.Errored? {
        return NoSlot(slot);
      }
      var m := Report(d, a);
      if a.publishOk {
        statusTopic := statusTopic + [m];
      }
      if a.commitOk {
        committed := committed + 1;
      }
      if slot.Taken? {
        limiter.keys := a.keysAtRelease;
        var _ := limiter.Release(d.campaignId, a.releasedAt, a.releaseReply);
      }
      return Handled(slot, m);
    }
  }

  // ---------- Refinement ----------

  /** The pipeline steps of one message. One that is not committed is delivered again, or passed over by a later
      commit. Without a slot, that is all that happens to it. */
  function Trace(d: DispatchMessage, a: Answers, out: Outcome, again: bool): seq<P.Step> {
    match out
    case Undecodable => []
    case NoSlot(_) => [P.Step(P.FetchCall(d), P.Fault(again, true, false))]
    case Handled(_, _) =>
      [R.Fetching(P.FetchCall(d), !a.commitOk && again), R.Clean(P.TakeSlot(d)), Placing(d, a)]
  }

  function Placing(d: DispatchMessage, a: Answers): P.Step {
    R.Losing(P.PlaceCall(d, a.result, a.callErr, a.now, NextAttempt(d, a)), !a.publishOk)
  }

  /** The steps of a message that got its slot. */
  lemma HandledIsRun(cfg: P.Config, s: P.System, d: DispatchMessage, a: Answers, slot: Slot, m: StatusMessage,
                     again: bool)
    requires P.InCallTopic(d) in s.tokens
    requires m == BuildStatus(d, a.result, a.callErr, a.now, NextAttempt(d, a))
    ensures var run := Trace(d, a, Handled(slot, m), again);
      var s' := P.After(cfg, s, run);
      && P.FaultyRun(cfg, s, run) && R.OnlyMoved(s, s')
      && s'.tokens == R.Rest(s, P.InCallTopic(d), !a.commitOk && again)
                      + if a.publishOk then multiset{P.InStatusTopic(m)} else multiset{}
  {
    var kept := !a.commitOk && again;
    var _ := R.ThreeHops(cfg, s, R.Fetching(P.FetchCall(d), kept), R.Clean(P.TakeSlot(d)), Placing(d, a));
  }

  /** processMessage is a run of the pipeline: the dispatch message leaves the call topic exactly if it is committed
      (or passed over), and what the status topic gained is what the pipeline's status topic gained. */
  lemma ProcessingRefines(cfg: P.Config, s: P.System, d: DispatchMessage, a: Answers, out: Outcome, again: bool,
                          topic: seq<StatusMessage>, topic': seq<StatusMessage>, commits: int)
    requires P.InCallTopic(d) in s.tokens
    requires Processed(Some(d), a, out, topic, topic', commits)
    ensures var run := Trace(d, a, out, again);
      var s' := P.After(cfg, s, run);
      && P.FaultyRun(cfg, s, run) && R.OnlyMoved(s, s')
      && topic <= topic' && |topic'| <= |topic| + 1
      && s'.tokens == R.Rest(s, P.InCallTopic(d), commits == 0 && again)
                      + if |topic'| > |topic| then multiset{P.InStatusTopic(topic'[|topic|])} else multiset{}
  {
    match out
    case NoSlot(_) =>
      var _ := R.LosingHop(cfg, s, P.Step(P.FetchCall(d), P.Fault(again, true, false)));
    case Handled(slot, m) =>
      HandledIsRun(cfg, s, d, a, slot, m, again);
  }

  /** The run is a clean one exactly if the message got its slot, Kafka took both its writes and the provider kept
      its contract. */
  lemma CleanExactly(cfg: P.Config, s: P.System, d: DispatchMessage, a: Answers, out: Outcome)
    requires P.InCallTopic(d) in s.tokens && !out.Undecodable?
    requires out.Handled? ==> out.message == BuildStatus(d, a.result, a.callErr, a.now, NextAttempt(d, a))
    ensures P.CleanRun(cfg, s, Trace(d, a, out, true))
       <==> out.Handled? && a.publishOk && a.commitOk && ProviderContract(a.result)
  {
    var run := Trace(d, a, out, true);
    if out.Handled? {
      HandledIsRun(cfg, s, d, a, out.slot, out.message, true);
      R.CleanIsAllClean(cfg, s, run);
      R.CleanOfThree(run[0], run[1], run[2]);
    } else {
      assert run[0].fault != P.NO_FAULT;
    }
  }

  // ---------- What is published ----------

  /** A status message of a provider that keeps its contract: completed is never retryable; a retry is asked only
      below the budget, with a time exactly then. */
  lemma ReportIsSound(d: DispatchMessage, a: Answers)
    requires ProviderContract(a.result)
    ensures var m := BuildStatus(d, a.result, a.callErr, a.now, NextAttempt(d, a));
      && (m.status == Completed || m.status == Failed)
      && (m.status == Completed ==> !m.retryable)
      && (m.retryable <==> m.nextAttempt.Some?)
      && (m.retryable ==> m.attempt < m.maxAttempts)
      && PayloadOfStatus(m) == PayloadOf(d) && m.attempt == d.attempt && m.maxAttempts == d.maxAttempts
  {
  }

  /** The time of a retry is at least the base delay away exactly if there is jitter (which restores the base), or
      the cap and the int64 product are both at least the base. */
  lemma RetryWaitsBaseExactly(d: DispatchMessage, a: Answers)
    ensures var m := BuildStatus(d, a.result, a.callErr, a.now, NextAttempt(d, a));
      var base := Backoff.WorkerBase(d.baseMs);
      m.retryable ==>
        (m.nextAttempt.value >= a.now + base <==>
         d.jitter > 0.0
         || (base <= Backoff.WorkerMax(d.maxMs) && base <= Backoff.Wrap(Backoff.Product(base, d.attempt, a.huge))))
  {
  }

  /** Which is so whenever the cap is not below the base and nothing overflows. */
  lemma RetryWaitsBase(d: DispatchMessage, a: Answers)
    requires d.attempt >= 1
    requires var base := Backoff.WorkerBase(d.baseMs);
      base <= Backoff.WorkerMax(d.maxMs) && Backoff.Scaled(base, d.attempt - 1) <= Backoff.MAX64
    ensures var m := BuildStatus(d, a.result, a.callErr, a.now, NextAttempt(d, a));
      m.retryable ==> m.nextAttempt.value >= a.now + Backoff.WorkerBase(d.baseMs)
  {
    var base := Backoff.WorkerBase(d.baseMs);
    Backoff.UnjitteredBounds(base, Backoff.WorkerMax(d.maxMs), d.attempt, a.huge);
    RetryWaitsBaseExactly(d, a);
  }

  /** The first delay is the smaller of base and cap, for every policy. */
  lemma FirstDelay(baseMs: int, maxMs: int, jitter: real, huge: int, u: real)
    ensures var base, max := Backoff.WorkerBase(baseMs), Backoff.WorkerMax(maxMs);
      Backoff.Delay(baseMs, maxMs, jitter, 1, huge, u) == Backoff.Jittered(Backoff.Min(base, max), base, jitter, u)
  {
    var base := Backoff.WorkerBase(baseMs);
    assert Backoff.Product(base, 1, huge) == Backoff.Scaled(base, 0) == base;
  }

  /** As messages are decoded, the exponential is never used: on every run, whatever fails, a call that is placed and
      asks for a retry waits for the smaller of base and cap, with jitter. */
  lemma LiteralRetryWaitsBase(cfg: P.Config, s: P.System, run: seq<P.Step>, d: DispatchMessage, a: Answers)
    requires P.Init(s) && P.FaultyRun(cfg, s, run) && cfg.codec == Literal
    requires P.OnCall(d) in P.After(cfg, s, run).tokens
    ensures var m := BuildStatus(d, a.result, a.callErr, a.now, NextAttempt(d, a));
      var base, max := Backoff.WorkerBase(d.baseMs), Backoff.WorkerMax(d.maxMs);
      m.retryable ==>
        d.attempt == 1 && m.nextAttempt == Some(a.now + Backoff.Jittered(Backoff.Min(base, max), base, d.jitter, a.u))
  {
    assert P.OnCall(d) in P.All(P.After(cfg, s, run));
    F.LiteralRetriesFirstOnly(cfg, s, run, P.OnCall(d));
    if d.attempt == 1 {
      FirstRetryTime(d, a);
    }
  }

  lemma FirstRetryTime(d: DispatchMessage, a: Answers)
    requires d.attempt == 1
    ensures var base, max := Backoff.WorkerBase(d.baseMs), Backoff.WorkerMax(d.maxMs);
      NextAttempt(d, a) == a.now + Backoff.Jittered(Backoff.Min(base, max), base, d.jitter, a.u)
  {
    FirstDelay(d.baseMs, d.maxMs, d.jitter, a.huge, a.u);
  }
}
