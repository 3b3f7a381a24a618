/** Calls that fail at every attempt: how many attempts they really get. */
module PipelineFailing {
  import opened Wrappers
  import opened Messages
  import opened Pipeline
  import opened PipelineFaulty
  import opened PipelineClean
  import opened PipelineTermination

  /** The next step of a token if every placed call fails and may be retried. */
  function FailingStep(t: Token): Step
    requires !t.Ended()
  {
    if t.OnCall?
    then Step(PlaceCall(t.d, ProviderResult(Failed, 0, true, "busy"), None, 0, 0), NO_FAULT)
    else NextStep(t)
  }

  predicate Failing(t: Token) {
    t.HasStatus() ==> t.m.status == Failed && (t.m.retryable <==> t.m.attempt < t.m.maxAttempts)
  }

  /** The message goes on to fail again, until it is closed at the call's cap. */
  lemma FailingGoesOn(cfg: Config, first: DispatchMessage, t: Token)
    requires TokenOk(cfg, first, t) && Failing(t) && !t.Ended() && first.maxAttempts - 1 <= cfg.topics
    ensures var p := FailingStep(t);
      var u := Target(cfg, p.event);
      && !p.event.Register? && CleanStep(p) && Source(p.event) == t
      && Failing(u) && u.Call() == t.Call()
      && (u.Ended() ==> u.Closed? && u.m.attempt == Cap(cfg.codec, first.maxAttempts))
  {
    StepKeepsTokenOk(cfg, first, FailingStep(t).event);
  }

  lemma FailingIsEnabled(cfg: Config, s: System, t: Token)
    requires t in s.tokens && !t.Ended()
    ensures Enabled(cfg, s, FailingStep(t).event)
  {
  }

  /** Where the token is after its step. */
  lemma TargetPlaced(cfg: Config, s: System, p: Step)
    requires CleanStep(p) && Enabled(cfg, s, p.event)
    ensures var u, s' := Target(cfg, p.event), Apply(cfg, s, p);
      if u.Ended() then u in s'.archive else u in s'.tokens
    ensures !p.event.Register? ==> Apply(cfg, s, p).origin == s.origin
  {
  }

  /** The end of a failing call: closed as failed, at this attempt. */
  predicate ClosedAt(c: CallId, attempt: int, u: Token) {
    u.Closed? && u.Call() == c && u.m.status == Failed && u.m.attempt == attempt
  }

  /** A call that has the topics for all its retries, and its cap. */
  predicate Retriable(cfg: Config, s: System, c: CallId, cap: int) {
    c in s.origin && s.origin[c].maxAttempts - 1 <= cfg.topics && cap == Cap(cfg.codec, s.origin[c].maxAttempts)
  }

  lemma FailingHop(cfg: Config, s: System, t: Token, cap: int) returns (p: Step, s': System, u: Token)
    requires CleanInv(cfg, s) && t in s.tokens && Failing(t) && Retriable(cfg, s, t.Call(), cap)
    ensures CleanStep(p) && Enabled(cfg, s, p.event) && s' == Apply(cfg, s, p)
    ensures CleanInv(cfg, s') && WorkOf(s') < WorkOf(s) && Retriable(cfg, s', t.Call(), cap)
    ensures Failing(u) && u.Call() == t.Call()
    ensures if u.Ended() then u in s'.archive && ClosedAt(t.Call(), cap, u) else u in s'.tokens
  {
    assert t in All(s) && !t.Ended();
    p := FailingStep(t);
    FailingGoesOn(cfg, s.origin[t.Call()], t);
    FailingIsEnabled(cfg, s, t);
    TargetPlaced(cfg, s, p);
    StepKeepsCleanInv(cfg, s, p);
    StepReducesWork(cfg, s, p);
    s', u := Apply(cfg, s, p), Target(cfg, p.event);
  }

  lemma InFront(cfg: Config, s: System, p: Step, mid: System, rest: seq<Step>)
    requires CleanStep(p) && Enabled(cfg, s, p.event) && mid == Apply(cfg, s, p) && CleanRun(cfg, mid, rest)
    ensures CleanRun(cfg, s, [p] + rest) && After(cfg, s, [p] + rest) == After(cfg, mid, rest)
  {
    CleanRunCons(cfg, s, p, rest);
  }

  lemma {:induction false} FailingRun(cfg: Config, s: System, t: Token, cap: int) returns (run: seq<Step>, u: Token)
    requires CleanInv(cfg, s) && t in s.tokens && Failing(t) && Retriable(cfg, s, t.Call(), cap)
    ensures CleanRun(cfg, s, run)
    ensures u in After(cfg, s, run).archive && ClosedAt(t.Call(), cap, u)
    decreases WorkOf(s)
  {
    var p, mid, next := FailingHop(cfg, s, t, cap);
    var rest := [];
    u := next;
    if !next.Ended() {
      rest, u := FailingRun(cfg, mid, next, cap);
    }
    InFront(cfg, s, p, mid, rest);
    run := [p] + rest;
  }

  /** With enough retry topics, every first message can be followed by a clean run in which each attempt fails, and
      the call is closed as failed at its cap: its budget under the intended decoding, but after two attempts under
      the code as it stands, however large the budget. */
  lemma FailingCallReachesCap(cfg: Config, s: System, first: DispatchMessage) returns (run: seq<Step>, u: Token)
    requires Init(s) && Enabled(cfg, s, Register(first)) && first.maxAttempts - 1 <= cfg.topics
    ensures CleanRun(cfg, s, run) && run != [] && run[0].event == Register(first)
    ensures u in After(cfg, s, run).archive && u.Closed? && u.Call() == first.callId && u.m.status == Failed
    ensures u.m.attempt == if cfg.codec == Literal && first.maxAttempts > 2 then 2
                           else if first.maxAttempts < 1 then 1 else first.maxAttempts
  {
    var p := Step(Register(first), NO_FAULT);
    InitIsClean(cfg, s);
    StepKeepsCleanInv(cfg, s, p);
    TargetPlaced(cfg, s, p);
    var mid := Apply(cfg, s, p);
    var rest;
    rest, u := FailingRun(cfg, mid, Registered(first), Cap(cfg.codec, first.maxAttempts));
    run := [p] + rest;
    CleanRunCons(cfg, s, p, rest);
  }
}
