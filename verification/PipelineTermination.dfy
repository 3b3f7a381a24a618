/** Clean runs end: every step but a new trigger uses up work, and no message is ever stuck. */
module PipelineTermination {
  import opened Wrappers
  import opened Messages
  import opened Pipeline
  import opened PipelineFaulty
  import opened Gauges
  import opened PipelineClean

  /** The steps left to all messages in flight. */
  ghost function WorkOf(s: System): nat {
    Total(Work, All(s))
  }

  lemma StepUsesWork(cfg: Config, first: DispatchMessage, e: Event)
    requires !e.Register? && TokenOk(cfg, first, Source(e))
    ensures Weight(Work, Target(cfg, e)) < Weight(Work, Source(e))
  {
  }

  lemma MoveLowersTotal(q: Gauge, b: multiset<Token>, t: Token, u: Token)
    requires t in b && Weight(q, u) < Weight(q, t)
    ensures Total(q, b - multiset{t} + multiset{u}) < Total(q, b)
  {
    MoveShiftsTotal(q, b, t, u);
  }

  lemma StepReducesWork(cfg: Config, s: System, p: Step)
    requires TokensOk(cfg, s) && CleanStep(p) && Enabled(cfg, s, p.event) && !p.event.Register?
    ensures WorkOf(Apply(cfg, s, p)) < WorkOf(s)
  {
    var t, u := Source(p.event), Target(cfg, p.event);
    StepMovesOne(cfg, s, p);
    StepUsesWork(cfg, s.origin[t.Call()], p.event);
    MoveLowersTotal(Work, All(s), t, u);
  }

  /** The work that a step brings: that of a new call, and the step itself. */
  function NewWorkOf(p: Step): nat {
    if p.event.Register? then 1 + WorkLeft(Registered(p.event.first)) else 0
  }

  function NewWork(run: seq<Step>): nat
    decreases |run|
  {
    if run == [] then 0 else NewWorkOf(run[0]) + NewWork(run[1..])
  }

  /** A new call brings at most 12 steps and 16 for each retry its budget allows. */
  lemma WorkOfNewCall(d: DispatchMessage)
    requires d.attempt == 1
    ensures WorkLeft(Registered(d)) == 12 + (if d.maxAttempts > 1 then 16 * (d.maxAttempts - 1) else 0)
  {
  }

  lemma StepAccountsForWork(cfg: Config, s: System, p: Step)
    requires TokensOk(cfg, s) && CleanStep(p) && Enabled(cfg, s, p.event)
    ensures 1 + WorkOf(Apply(cfg, s, p)) <= WorkOf(s) + NewWorkOf(p)
  {
    if p.event.Register? {
      StepShiftsTotal(cfg, s, p, Work);
    } else {
      StepReducesWork(cfg, s, p);
    }
  }

  /** A clean run takes no more steps than there was work at its start and its triggers brought: 13 for each
      triggered call and 16 for each retry that its budget allows. */
  lemma {:induction false} RunsAreBounded(cfg: Config, s: System, run: seq<Step>)
    requires TokensOk(cfg, s) && CleanRun(cfg, s, run)
    ensures |run| + WorkOf(After(cfg, s, run)) <= WorkOf(s) + NewWork(run)
    decreases |run|
  {
    if run != [] {
      CleanRunTail(cfg, s, run);
      StepAccountsForWork(cfg, s, run[0]);
      StepKeepsTokens(cfg, s, run[0]);
      RunsAreBounded(cfg, Apply(cfg, s, run[0]), run[1..]);
    }
  }

  /** The number of calls that a run triggers, and the largest budget among them, bound its length. */
  lemma {:induction false} NewWorkBound(run: seq<Step>, budget: nat)
    requires budget >= 1
    requires forall i :: 0 <= i < |run| && run[i].event.Register? ==>
               run[i].event.first.attempt == 1 && run[i].event.first.maxAttempts <= budget
    ensures NewWork(run) <= NewCalls(run) * (13 + 16 * (budget - 1))
    decreases |run|
  {
    if run != [] {
      assert forall i :: 0 <= i < |run[1..]| ==> run[1..][i] == run[i + 1];
      NewWorkBound(run[1..], budget);
      var each := 13 + 16 * (budget - 1);
      if run[0].event.Register? {
        WorkOfNewCall(run[0].event.first);
        OneMoreCall(NewCalls(run[1..]), each);
      }
    }
  }

  function NewCalls(run: seq<Step>): nat
    decreases |run|
  {
    if run == [] then 0 else NewCalls(run[1..]) + if run[0].event.Register? then 1 else 0
  }

  lemma OneMoreCall(n: nat, each: nat)
    ensures (n + 1) * each == n * each + each
  {
  }

  /** From a deployment without calls, a clean run that triggers n calls of at most this budget has at most
      n * (13 + 16 * (budget - 1)) steps. */
  lemma RunsFromStartAreBounded(cfg: Config, s: System, run: seq<Step>, budget: nat)
    requires Init(s) && CleanRun(cfg, s, run) && budget >= 1
    requires forall i :: 0 <= i < |run| && run[i].event.Register? ==>
               run[i].event.first.attempt == 1 && run[i].event.first.maxAttempts <= budget
    ensures |run| <= NewCalls(run) * (13 + 16 * (budget - 1))
  {
    InitIsFaulty(cfg, s);
    RunsAreBounded(cfg, s, run);
    NewWorkBound(run, budget);
    NoWorkAtStart(s);
  }

  lemma NoWorkAtStart(s: System)
    requires Init(s)
    ensures WorkOf(s) == 0
  {
    assert All(s) == multiset{};
  }

  /** The next step of a token in flight; the retry worker's clock may have to advance for it. */
  function NextStep(t: Token): Step
    requires !t.Ended()
  {
    var e := match t
      case Registered(d) => Announce(d)
      case Announced(d) => Enqueue(d)
      case InCallTopic(d) => FetchCall(d)
      case AwaitingSlot(d) => TakeSlot(d)
      case OnCall(d) => PlaceCall(d, ProviderResult(Completed, 0, false, ""), None, 0, 0)
      case InStatusTopic(m) => FetchStatus(m)
      case Recording(m, stage) =>
        (match stage
         case Fetched => UpdateCall(m) case Updated => LogAttempt(m)
         case Logged => CountOutcome(m) case Counted => Settle(m))
      case InRetryTopic(topic, r) => FetchRetry(topic, r)
      case Sleeping(topic, r) => Forward(topic, r, r.nextAttempt);
    Step(e, NO_FAULT)
  }

  /** No message is stuck: whatever is in flight has a step that can be taken now. */
  lemma NothingStuck(cfg: Config, s: System, t: Token)
    requires t in s.tokens && !t.Ended()
    ensures var p := NextStep(t);
      !p.event.Register? && CleanStep(p) && Enabled(cfg, s, p.event) && Source(p.event) == t
  {
  }

  /** Every reachable system can be run to rest, in at most as many steps as there is work, and the calls
      that are live when it starts have all ended then. */
  lemma {:induction false} RunsToRest(cfg: Config, s: System) returns (run: seq<Step>)
    requires CleanInv(cfg, s)
    ensures CleanRun(cfg, s, run) && |run| <= WorkOf(s)
    ensures After(cfg, s, run).tokens == multiset{}
    ensures After(cfg, s, run).origin == s.origin
    decreases WorkOf(s)
  {
    if s.tokens == multiset{} {
      run := [];
    } else {
      var t :| t in s.tokens;
      NothingStuck(cfg, s, t);
      var p := NextStep(t);
      StepKeepsCleanInv(cfg, s, p);
      StepReducesWork(cfg, s, p);
      var rest := RunsToRest(cfg, Apply(cfg, s, p));
      run := [p] + rest;
      CleanRunCons(cfg, s, p, rest);
    }
  }

  /** A clean run that cannot go on without a new trigger is at rest. */
  lemma StuckOnlyAtRest(cfg: Config, s: System)
    requires Sorted(s)
    requires forall p: Step :: CleanStep(p) && Enabled(cfg, s, p.event) ==> p.event.Register?
    ensures s.tokens == multiset{}
  {
    forall t ensures t !in s.tokens {
      if t in s.tokens {
        NothingStuck(cfg, s, t);
      }
    }
  }
}
