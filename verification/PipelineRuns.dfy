/** How steps join into runs, and what one step of a message in a worker's hands does to the rest. */
module PipelineRuns {
  import opened Wrappers
  import opened Messages
  import opened Statistics
  import opened Pipeline

  function Clean(e: Event): Step {
    Step(e, NO_FAULT)
  }

  /** The step of a consumer that may leave its message to be delivered again. */
  function Fetching(e: Event, again: bool): Step {
    Step(e, Fault(again, false, false))
  }

  function Losing(e: Event, lost: bool): Step {
    Step(e, Fault(false, lost, false))
  }

  function Skipping(e: Event, skipped: bool): Step {
    Step(e, Fault(false, false, skipped))
  }

  // ---------- Bags ----------

  lemma PutTake(b: multiset<Token>, t: Token)
    ensures b + multiset{t} - multiset{t} == b
  {
  }

  /** What stays in place when a message is fetched. */
  function Rest(s: System, t: Token, again: bool): multiset<Token> {
    if again then s.tokens else s.tokens - multiset{t}
  }

  // ---------- Joining steps ----------

  /** The end of a step or a run, if it can be taken. */
  function StepEnd(cfg: Config, s: System, p: Step): Option<System> {
    if Enabled(cfg, s, p.event) then Some(Apply(cfg, s, p)) else None
  }

  function RunEnd(cfg: Config, s: System, run: seq<Step>): Option<System> {
    if FaultyRun(cfg, s, run) then Some(After(cfg, s, run)) else None
  }

  predicate Leads(cfg: Config, s: System, p: Step, s': System) {
    StepEnd(cfg, s, p) == Some(s')
  }

  predicate Runs(cfg: Config, s: System, run: seq<Step>, s': System) {
    RunEnd(cfg, s, run) == Some(s')
  }

  lemma Link(cfg: Config, s: System, p: Step, mid: System, rest: seq<Step>, end: System)
    requires Leads(cfg, s, p, mid) && Runs(cfg, mid, rest, end)
    ensures Runs(cfg, s, [p] + rest, end)
  {
    assert ([p] + rest)[1..] == rest;
  }

  lemma RunOfOne(cfg: Config, s: System, p: Step, end: System)
    requires Leads(cfg, s, p, end)
    ensures Runs(cfg, s, [p], end)
  {
    Link(cfg, s, p, end, [], end);
    assert [p] + [] == [p];
  }

  lemma RunOfTwo(cfg: Config, s: System, p: Step, mid: System, q: Step, end: System)
    requires Leads(cfg, s, p, mid) && Leads(cfg, mid, q, end)
    ensures Runs(cfg, s, [p, q], end)
  {
    RunOfOne(cfg, mid, q, end);
    Link(cfg, s, p, mid, [q], end);
    assert [p] + [q] == [p, q];
  }

  lemma RunOfThree(cfg: Config, s: System, p: Step, s1: System, q: Step, s2: System, r: Step, end: System)
    requires Leads(cfg, s, p, s1) && Leads(cfg, s1, q, s2) && Leads(cfg, s2, r, end)
    ensures Runs(cfg, s, [p, q, r], end)
  {
    RunOfTwo(cfg, s1, q, s2, r, end);
    Link(cfg, s, p, s1, [q, r], end);
    assert [p] + [q, r] == [p, q, r];
  }

  lemma RunOfFive(cfg: Config, s: System, p: Step, s1: System, q: Step, s2: System, r: Step, s3: System,
                  u: Step, s4: System, v: Step, end: System)
    requires Leads(cfg, s, p, s1) && Leads(cfg, s1, q, s2) && Leads(cfg, s2, r, s3) && Leads(cfg, s3, u, s4)
    requires Leads(cfg, s4, v, end)
    ensures Runs(cfg, s, [p, q] + [r, u, v], end)
  {
    RunOfTwo(cfg, s, p, s1, q, s2);
    RunOfThree(cfg, s2, r, s3, u, s4, v, end);
    Join(cfg, s, [p, q], s2, [r, u, v], end);
  }

  /** One run after another. */
  lemma {:induction false} Join(cfg: Config, s: System, a: seq<Step>, mid: System, b: seq<Step>, end: System)
    requires Runs(cfg, s, a, mid) && Runs(cfg, mid, b, end)
    ensures Runs(cfg, s, a + b, end)
    decreases |a|
  {
    if a == [] {
      assert a + b == b;
      NoStep(cfg, s, mid);
    } else {
      var s1 := FirstStep(cfg, s, a, mid);
      Join(cfg, s1, a[1..], mid, b, end);
      JoinStep(cfg, s, a, s1, b, end);
    }
  }

  lemma JoinStep(cfg: Config, s: System, a: seq<Step>, s1: System, b: seq<Step>, end: System)
    requires a != [] && Leads(cfg, s, a[0], s1) && Runs(cfg, s1, a[1..] + b, end)
    ensures Runs(cfg, s, a + b, end)
  {
    assert (a + b)[1..] == a[1..] + b;
  }

  lemma NoStep(cfg: Config, s: System, end: System)
    requires Runs(cfg, s, [], end)
    ensures s == end
  {
  }

  lemma FirstStep(cfg: Config, s: System, run: seq<Step>, end: System) returns (s1: System)
    requires Runs(cfg, s, run, end) && run != []
    ensures Leads(cfg, s, run[0], s1) && Runs(cfg, s1, run[1..], end)
  {
    s1 := Apply(cfg, s, run[0]);
  }

  predicate AllClean(run: seq<Step>) {
    forall i :: 0 <= i < |run| ==> CleanStep(run[i])
  }

  lemma CleanIsAllClean(cfg: Config, s: System, run: seq<Step>)
    requires FaultyRun(cfg, s, run)
    ensures CleanRun(cfg, s, run) <==> AllClean(run)
  {
  }

  /** Three, or five, steps are clean exactly if each is. */
  lemma CleanOfThree(p: Step, q: Step, r: Step)
    ensures AllClean([p, q, r]) <==> CleanStep(p) && CleanStep(q) && CleanStep(r)
  {
    var run := [p, q, r];
    assert run[0] == p && run[1] == q && run[2] == r;
  }

  lemma CleanOfFive(p: Step, q: Step, r: Step, u: Step, v: Step)
    ensures AllClean([p, q] + [r, u, v])
         <==> CleanStep(p) && CleanStep(q) && CleanStep(r) && CleanStep(u) && CleanStep(v)
  {
    var run := [p, q] + [r, u, v];
    assert run[0] == p && run[1] == q && run[2] == r && run[3] == u && run[4] == v;
  }

  // ---------- One step ----------

  function CallsOf(calls: map<CallId, CallRecord>, p: Step): map<CallId, CallRecord> {
    if p.fault.skipped then calls else CallsAfter(calls, p.event)
  }

  function AttemptsOf(attempts: map<CallId, map<int, StatusMessage>>, p: Step): map<CallId, map<int, StatusMessage>> {
    if p.fault.skipped then attempts else AttemptsAfter(attempts, p.event)
  }

  function StatsOf(stats: map<CampaignId, Counters>, p: Step): map<CampaignId, Counters> {
    if p.fault.skipped then stats else StatsAfter(stats, p.event)
  }

  /** All that a step leaves alone or changes besides the tokens. */
  ghost predicate Wrote(s: System, p: Step, s': System) {
    && s'.origin == s.origin
    && s'.calls == CallsOf(s.calls, p)
    && s'.attempts == AttemptsOf(s.attempts, p)
    && s'.stats == StatsOf(s.stats, p)
    && (!p.event.Refuse? ==> s'.compensated == s.compensated)
  }

  function InFlight(cfg: Config, p: Step): multiset<Token> {
    if p.fault.lost || Target(cfg, p.event).Ended() then multiset{} else multiset{Target(cfg, p.event)}
  }

  function Archived(cfg: Config, p: Step): multiset<Token> {
    if !p.fault.lost && Target(cfg, p.event).Ended() then multiset{Target(cfg, p.event)} else multiset{}
  }

  /** A message is taken from where it lies. */
  lemma TakingStep(cfg: Config, s: System, p: Step) returns (s': System)
    requires !p.event.Register? && Enabled(cfg, s, p.event)
    ensures Leads(cfg, s, p, s')
    ensures
      && s'.tokens == Rest(s, Source(p.event), p.fault.kept) + InFlight(cfg, p)
      && s'.archive == s.archive + Archived(cfg, p)
      && Wrote(s, p, s')
  {
    s' := Apply(cfg, s, p);
  }

  /** A message in a worker's hands goes on, and what else is in flight stays. */
  lemma HeldStep(cfg: Config, rest: multiset<Token>, s: System, p: Step) returns (s': System)
    requires !p.event.Register? && !p.fault.kept && s.tokens == rest + multiset{Source(p.event)}
    requires p.event.Forward? ==> p.event.r.nextAttempt <= p.event.now
    ensures Leads(cfg, s, p, s')
    ensures
      && s'.tokens == rest + InFlight(cfg, p)
      && s'.archive == s.archive + Archived(cfg, p)
      && Wrote(s, p, s')
  {
    PutTake(rest, Source(p.event));
    s' := Apply(cfg, s, p);
  }

  // ---------- Moving a message ----------

  /** Events without a write. */
  predicate Moves(e: Event) {
    e.FetchCall? || e.TakeSlot? || e.PlaceCall? || e.FetchStatus? || e.Settle? || e.FetchRetry? || e.Forward?
  }

  /** Nothing but the tokens in flight is changed. */
  ghost predicate OnlyMoved(s: System, s': System) {
    && s'.archive == s.archive && s'.origin == s.origin && s'.calls == s.calls && s'.attempts == s.attempts
    && s'.stats == s.stats && s'.compensated == s.compensated
  }

  lemma MovedTrans(s: System, mid: System, s': System)
    requires OnlyMoved(s, mid) && OnlyMoved(mid, s')
    ensures OnlyMoved(s, s')
  {
  }

  /** One step after another hands a message on: what p produces q consumes. */
  predicate Follows(cfg: Config, p: Step, q: Step) {
    && !p.event.Register? && !p.fault.lost && !Target(cfg, p.event).Ended()
    && !q.event.Register? && !q.fault.kept && Source(q.event) == Target(cfg, p.event)
    && (q.event.Forward? ==> q.event.r.nextAttempt <= q.event.now)
  }

  lemma MovesWriteNothing(s: System, p: Step, s': System)
    requires Moves(p.event) && Wrote(s, p, s') && s'.archive == s.archive
    ensures OnlyMoved(s, s')
  {
  }

  /** A message is taken and not lost. */
  lemma TakingHop(cfg: Config, s: System, p: Step, q: Step) returns (s': System)
    requires Moves(p.event) && Follows(cfg, p, q) && Enabled(cfg, s, p.event)
    ensures Leads(cfg, s, p, s') && OnlyMoved(s, s')
    ensures s'.tokens == Rest(s, Source(p.event), p.fault.kept) + multiset{Source(q.event)}
  {
    s' := TakingStep(cfg, s, p);
    MovesWriteNothing(s, p, s');
  }

  lemma HeldHop(cfg: Config, rest: multiset<Token>, s: System, q: Step) returns (s': System)
    requires Moves(q.event) && !q.fault.kept && s.tokens == rest + multiset{Source(q.event)}
    requires !Target(cfg, q.event).Ended() && (q.event.Forward? ==> q.event.r.nextAttempt <= q.event.now)
    ensures Leads(cfg, s, q, s') && OnlyMoved(s, s') && s'.tokens == rest + InFlight(cfg, q)
  {
    s' := HeldStep(cfg, rest, s, q);
    MovesWriteNothing(s, q, s');
  }

  /** A message is taken and nothing comes of it. */
  lemma LosingHop(cfg: Config, s: System, p: Step) returns (s': System)
    requires Moves(p.event) && p.fault.lost && Enabled(cfg, s, p.event)
    ensures Runs(cfg, s, [p], s') && OnlyMoved(s, s') && s'.tokens == Rest(s, Source(p.event), p.fault.kept)
  {
    s' := TakingStep(cfg, s, p);
    MovesWriteNothing(s, p, s');
    RunOfOne(cfg, s, p, s');
  }

  lemma Exchange(a: multiset<Token>, gone: multiset<Token>, put: multiset<Token>, t: Token, u: multiset<Token>)
    requires gone + multiset{t} <= a
    ensures t in a - gone + put
    ensures a - gone + put - multiset{t} + u == a - (gone + multiset{t}) + (put + u)
    ensures a - gone + put + u == a - (gone + multiset{}) + (put + u)
  {
  }

  /** A run that has taken `gone` and brought `put`, and one more message `t` that may stay and brings `u`. */
  lemma OneMore(cfg: Config, s: System, before: seq<Step>, mid: System, last: seq<Step>, s': System,
                gone: multiset<Token>, put: multiset<Token>, t: Token, u: multiset<Token>, kept: bool)
    requires Runs(cfg, s, before, mid) && Runs(cfg, mid, last, s') && OnlyMoved(s, mid) && OnlyMoved(mid, s')
    requires mid.tokens == s.tokens - gone + put && s'.tokens == Rest(mid, t, kept) + u
    requires gone + multiset{t} <= s.tokens
    ensures Runs(cfg, s, before + last, s') && OnlyMoved(s, s')
    ensures s'.tokens == s.tokens - (gone + if kept then multiset{} else multiset{t}) + (put + u)
  {
    Exchange(s.tokens, gone, put, t, u);
    MovedTrans(s, mid, s');
    Join(cfg, s, before, mid, last, s');
  }

  /** Two steps of one message. */
  lemma TwoHops(cfg: Config, s: System, p: Step, q: Step) returns (s': System)
    requires Moves(p.event) && Moves(q.event) && Follows(cfg, p, q) && Enabled(cfg, s, p.event)
    requires !Target(cfg, q.event).Ended()
    ensures Runs(cfg, s, [p, q], s') && OnlyMoved(s, s')
    ensures s'.tokens == Rest(s, Source(p.event), p.fault.kept) + InFlight(cfg, q)
  {
    var s1 := TakingHop(cfg, s, p, q);
    s' := HeldHop(cfg, Rest(s, Source(p.event), p.fault.kept), s1, q);
    RunOfTwo(cfg, s, p, s1, q, s');
  }

  /** Three steps of one message. */
  lemma ThreeHops(cfg: Config, s: System, p: Step, q: Step, r: Step) returns (s': System)
    requires Moves(p.event) && Moves(q.event) && Moves(r.event)
    requires Follows(cfg, p, q) && Follows(cfg, q, r) && Enabled(cfg, s, p.event)
    requires !Target(cfg, r.event).Ended()
    ensures Runs(cfg, s, [p, q, r], s') && OnlyMoved(s, s')
    ensures s'.tokens == Rest(s, Source(p.event), p.fault.kept) + InFlight(cfg, r)
  {
    var rest := Rest(s, Source(p.event), p.fault.kept);
    var s1 := TakingHop(cfg, s, p, q);
    var s2 := HeldHop(cfg, rest, s1, q);
    s' := HeldHop(cfg, rest, s2, r);
    RunOfThree(cfg, s, p, s1, q, s2, r, s');
  }

  // ---------- Longer turns ----------

  /** One step after another, which only Register and Refuse are not. */
  predicate Chained(cfg: Config, p: Step, q: Step) {
    !p.event.Register? && !p.event.Refuse? && Follows(cfg, p, q)
  }

  /** Five steps of one message. */
  lemma FiveHops(cfg: Config, s: System, p: Step, q: Step, r: Step, u: Step, v: Step) returns (s': System)
    requires Chained(cfg, p, q) && Chained(cfg, q, r) && Chained(cfg, r, u) && Chained(cfg, u, v)
    requires Enabled(cfg, s, p.event) && !v.event.Refuse?
    ensures Runs(cfg, s, [p, q] + [r, u, v], s')
    ensures s'.tokens == Rest(s, Source(p.event), p.fault.kept) + InFlight(cfg, v)
    ensures s'.archive == s.archive + Archived(cfg, v)
    ensures s'.origin == s.origin && s'.compensated == s.compensated
    ensures s'.calls == CallsOf(CallsOf(CallsOf(CallsOf(CallsOf(s.calls, p), q), r), u), v)
    ensures s'.attempts == AttemptsOf(AttemptsOf(AttemptsOf(AttemptsOf(AttemptsOf(s.attempts, p), q), r), u), v)
    ensures s'.stats == StatsOf(StatsOf(StatsOf(StatsOf(StatsOf(s.stats, p), q), r), u), v)
  {
    var rest := Rest(s, Source(p.event), p.fault.kept);
    var s1 := TakingStep(cfg, s, p);
    var s2 := HeldStep(cfg, rest, s1, q);
    var s3 := HeldStep(cfg, rest, s2, r);
    var s4 := HeldStep(cfg, rest, s3, u);
    s' := HeldStep(cfg, rest, s4, v);
    RunOfFive(cfg, s, p, s1, q, s2, r, s3, u, s4, v, s');
  }

  /** A new call. */
  lemma RegisterStep(cfg: Config, s: System, p: Step) returns (s': System)
    requires p.event.Register? && !p.fault.skipped && Enabled(cfg, s, p.event)
    ensures Leads(cfg, s, p, s')
    ensures s'.tokens == s.tokens + InFlight(cfg, p) && s'.archive == s.archive
    ensures s'.attempts == s.attempts && s'.stats == s.stats && s'.calls == CallsOf(s.calls, p)
  {
    s' := Apply(cfg, s, p);
  }

  /** A new call and one more step of it. */
  lemma RegisterHop(cfg: Config, s: System, p: Step, q: Step) returns (s1: System, s': System)
    requires p.event.Register? && !p.fault.skipped && !p.fault.lost && Enabled(cfg, s, p.event)
    requires !q.event.Register? && !q.event.Forward? && !q.fault.kept && Source(q.event) == Target(cfg, p.event)
    ensures Leads(cfg, s, p, s1) && Leads(cfg, s1, q, s')
    ensures s'.tokens == s.tokens + InFlight(cfg, q) && s'.archive == s.archive + Archived(cfg, q)
    ensures s'.calls == CallsOf(CallsOf(s.calls, p), q) && s'.stats == StatsOf(s.stats, q)
    ensures s'.attempts == AttemptsOf(s.attempts, q)
  {
    s1 := RegisterStep(cfg, s, p);
    s' := HeldStep(cfg, s.tokens, s1, q);
  }

  /** And a third one. */
  lemma RegisterHops(cfg: Config, s: System, p: Step, q: Step, r: Step) returns (s': System)
    requires p.event.Register? && !p.fault.skipped && !p.fault.lost && Enabled(cfg, s, p.event)
    requires !q.event.Register? && !q.event.Forward? && !q.fault.kept && Source(q.event) == Target(cfg, p.event)
    requires Follows(cfg, q, r)
    ensures Runs(cfg, s, [p, q, r], s')
    ensures s'.tokens == s.tokens + InFlight(cfg, r) && s'.archive == s.archive + Archived(cfg, r)
    ensures s'.calls == CallsOf(CallsOf(CallsOf(s.calls, p), q), r)
    ensures s'.attempts == AttemptsOf(AttemptsOf(s.attempts, q), r)
    ensures s'.stats == StatsOf(StatsOf(s.stats, q), r)
  {
    var s1, s2 := RegisterHop(cfg, s, p, q);
    s' := HeldStep(cfg, s.tokens, s2, r);
    RunOfThree(cfg, s, p, s1, q, s2, r, s');
  }
}
