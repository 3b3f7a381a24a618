/**
 internal/scheduler/scheduler.go: one tick of a single scheduler. For each campaign that is open, the oldest
 waiting targets are marked dispatched, a call is triggered for each, and those that failed are put back.
 */
module Scheduler {
  import opened Wrappers
  import opened Messages
  import opened Targets
  import B = BusinessHours
  import C = CallService

  /** How the databases answer while one campaign is processed, and what each TriggerCall meets. */
  datatype Replies = Replies(fetchOk: bool, markOk: bool, resetOk: bool, at: int, calls: TargetId -> C.Answers)

  /** How that comes out: the targets whose TriggerCall failed, and the answers of the three statements. */
  datatype Answers = Answers(fails: set<TargetId>, fetchOk: bool, markOk: bool, resetOk: bool, at: int)

  function Outcome(r: Replies, fails: set<TargetId>): Answers {
    Answers(fails, r.fetchOk, r.markOk, r.resetOk, r.at)
  }

  /** A campaign as the tick sees it. */
  datatype Campaign = Campaign(id: CampaignId, windows: seq<B.Window>, local: Option<B.Local>)

  /** What the calls of one batch have in common. */
  datatype Job = Job(t: Table, g: CampaignId, campaign: Option<C.Campaign>, limit: int, calls: TargetId -> C.Answers)

  // ---------- One batch ----------

  /** The targets of a batch whose trigger failed, in order. */
  function FailedOf(batch: seq<TargetId>, fails: set<TargetId>): seq<TargetId>
    decreases |batch|
  {
    if batch == [] then []
    else FailedOf(batch[..|batch| - 1], fails)
         + if batch[|batch| - 1] in fails then [batch[|batch| - 1]] else []
  }

  lemma {:induction false} FailedExactly(batch: seq<TargetId>, fails: set<TargetId>, i: TargetId)
    ensures i in FailedOf(batch, fails) <==> i in batch && i in fails
    decreases |batch|
  {
    if batch != [] {
      FailedExactly(batch[..|batch| - 1], fails, i);
      assert batch == batch[..|batch| - 1] + [batch[|batch| - 1]];
    }
  }

  /** The table after a batch that was marked. */
  function AfterBatch(t: Table, g: CampaignId, batch: seq<TargetId>, a: Answers): Table {
    var marked := Scheduled(t, g, batch, a.at);
    if a.resetOk then WithState(marked, g, FailedOf(batch, a.fails), Waiting) else marked
  }

  /** The number of calls that the scheduler has triggered for a target. */
  function Triggers(counts: map<TargetId, nat>, i: TargetId): nat {
    if i in counts then counts[i] else 0
  }

  /** One more for every target of the batch that did not fail. */
  function Triggered(counts: map<TargetId, nat>, batch: seq<TargetId>, fails: set<TargetId>): map<TargetId, nat>
    decreases |batch|
  {
    if batch == [] then counts
    else
      var before := Triggered(counts, batch[..|batch| - 1], fails);
      var i := batch[|batch| - 1];
      if i in fails then before else before[i := Triggers(before, i) + 1]
  }

  lemma {:induction false} TriggeredCounts(counts: map<TargetId, nat>, batch: seq<TargetId>, fails: set<TargetId>,
                                           i: TargetId)
    requires forall j, k :: 0 <= j < k < |batch| ==> batch[j] != batch[k]
    ensures Triggers(Triggered(counts, batch, fails), i) ==
              Triggers(counts, i) + if i in batch && i !in fails then 1 else 0
    decreases |batch|
  {
    if batch != [] {
      var less := batch[..|batch| - 1];
      TriggeredCounts(counts, less, fails, i);
      assert batch == less + [batch[|batch| - 1]];
    }
  }

  // What the same calls do to the books.

  function InputOf(job: Job, i: TargetId): C.Input
    requires i in job.t
  {
    C.Input(job.g, job.t[i].phone, job.t[i].payload)
  }

  /** The books after one TriggerCall, if it is accepted. */
  function BookedOne(b: C.Books, job: Job, i: TargetId): C.Books
    requires i in job.t && job.campaign.Some?
  {
    C.Booked(b, C.NewCall(InputOf(job, i), job.calls(i)), FirstOf(job, i), job.calls(i))
  }

  function FirstOf(job: Job, i: TargetId): DispatchMessage
    requires i in job.t && job.campaign.Some?
  {
    C.FirstDispatch(job.campaign.value, InputOf(job, i), job.limit, job.calls(i))
  }

  /** The targets exist, and none is accepted for a campaign that does not. */
  predicate Fits(job: Job, batch: seq<TargetId>, refused: set<TargetId>) {
    forall k :: 0 <= k < |batch| ==> batch[k] in job.t && (batch[k] in refused || job.campaign.Some?)
  }

  function BookedAll(b: C.Books, job: Job, batch: seq<TargetId>, refused: set<TargetId>): C.Books
    requires Fits(job, batch, refused)
    decreases |batch|
  {
    if batch == [] then b
    else
      var before := BookedAll(b, job, batch[..|batch| - 1], refused);
      var i := batch[|batch| - 1];
      if i in refused then before else BookedOne(before, job, i)
  }

  /** A target fails when it is refused or one of the steps after that does not succeed. */
  predicate FailsAre(job: Job, batch: seq<TargetId>, refused: set<TargetId>, fails: set<TargetId>) {
    forall k :: 0 <= k < |batch| ==> (batch[k] in fails <==> batch[k] in refused || !C.Served(job.calls(batch[k])))
  }

  /** Hopeless targets are refused; in a campaign of at most 10000 targets these are the ones with an empty number,
      and besides them only a failing look-up is refused. */
  ghost predicate RefusedAre(job: Job, batch: seq<TargetId>, refused: set<TargetId>) {
    && (forall k :: 0 <= k < |batch| && batch[k] in job.t && IsHopeless(job.t, job.g, batch[k]) ==> batch[k] in refused)
    && (|Matching(job.t, job.g, None)| <= ALL ==>
          forall k :: 0 <= k < |batch| && batch[k] in job.t ==>
            (batch[k] in refused <==>
             job.t[batch[k]].phone == "" || job.campaign.None?
             || !job.calls(batch[k]).getOk || !job.calls(batch[k]).listOk))
  }

  /** All that is known after the calls of a batch, or of the part of it that has been worked through. */
  ghost predicate Played(job: Job, batch: seq<TargetId>, refused: set<TargetId>, fails: set<TargetId>,
                         b: C.Books, counts: map<TargetId, nat>, b': C.Books, counts': map<TargetId, nat>)
  {
    && Fits(job, batch, refused) && FailsAre(job, batch, refused, fails) && RefusedAre(job, batch, refused)
    && b' == BookedAll(b, job, batch, refused)
    && counts' == Triggered(counts, batch, fails)
  }

  /** What the check of the number may say of a target. */
  ghost predicate MayBeAccepted(job: Job, i: TargetId, accepted: bool) {
    && i in job.t && (accepted ==> job.campaign.Some? && !IsHopeless(job.t, job.g, i))
    && (|Matching(job.t, job.g, None)| <= ALL ==>
          (accepted <==> job.t[i].phone != "" && job.campaign.Some? && job.calls(i).getOk && job.calls(i).listOk))
  }

  function With(s: set<TargetId>, i: TargetId, member: bool): set<TargetId> {
    if member then s + {i} else s - {i}
  }

  // The sets of a longer batch say the same of the shorter one.

  lemma {:induction false} FailedIsLocal(batch: seq<TargetId>, fails: set<TargetId>, fails': set<TargetId>)
    requires forall k :: 0 <= k < |batch| ==> (batch[k] in fails <==> batch[k] in fails')
    ensures FailedOf(batch, fails) == FailedOf(batch, fails')
    decreases |batch|
  {
    if batch != [] {
      FailedIsLocal(batch[..|batch| - 1], fails, fails');
    }
  }

  lemma {:induction false} TriggeredIsLocal(counts: map<TargetId, nat>, batch: seq<TargetId>, fails: set<TargetId>,
                                            fails': set<TargetId>)
    requires forall k :: 0 <= k < |batch| ==> (batch[k] in fails <==> batch[k] in fails')
    ensures Triggered(counts, batch, fails) == Triggered(counts, batch, fails')
    decreases |batch|
  {
    if batch != [] {
      TriggeredIsLocal(counts, batch[..|batch| - 1], fails, fails');
    }
  }

  lemma {:induction false} BookedIsLocal(b: C.Books, job: Job, batch: seq<TargetId>, refused: set<TargetId>,
                                         refused': set<TargetId>)
    requires forall k :: 0 <= k < |batch| ==> (batch[k] in refused <==> batch[k] in refused')
    requires Fits(job, batch, refused)
    ensures Fits(job, batch, refused') && BookedAll(b, job, batch, refused) == BookedAll(b, job, batch, refused')
    decreases |batch|
  {
    if batch != [] {
      BookedIsLocal(b, job, batch[..|batch| - 1], refused, refused');
    }
  }

  lemma FailedNext(batch: seq<TargetId>, i: TargetId, fails: set<TargetId>, failed: bool)
    requires i !in batch
    ensures FailedOf(batch + [i], With(fails, i, failed)) == FailedOf(batch, fails) + if failed then [i] else []
  {
    assert (batch + [i])[..|batch|] == batch;
    FailedIsLocal(batch, fails, With(fails, i, failed));
  }

  lemma TriggeredNext(counts: map<TargetId, nat>, batch: seq<TargetId>, i: TargetId, fails: set<TargetId>, failed: bool)
    requires i !in batch
    ensures var before := Triggered(counts, batch, fails);
      Triggered(counts, batch + [i], With(fails, i, failed)) ==
        if failed then before else before[i := Triggers(before, i) + 1]
  {
    assert (batch + [i])[..|batch|] == batch;
    TriggeredIsLocal(counts, batch, fails, With(fails, i, failed));
  }

  lemma BookedNext(b: C.Books, job: Job, batch: seq<TargetId>, i: TargetId, refused: set<TargetId>, accepted: bool)
    requires i !in batch && Fits(job, batch, refused) && i in job.t && (accepted ==> job.campaign.Some?)
    ensures Fits(job, batch + [i], With(refused, i, !accepted))
    ensures var before := BookedAll(b, job, batch, refused);
      BookedAll(b, job, batch + [i], With(refused, i, !accepted)) ==
        if accepted then BookedOne(before, job, i) else before
  {
    assert (batch + [i])[..|batch|] == batch;
    BookedIsLocal(b, job, batch, refused, With(refused, i, !accepted));
  }

  lemma SetsNext(job: Job, batch: seq<TargetId>, i: TargetId, refused: set<TargetId>, fails: set<TargetId>,
                 accepted: bool)
    requires FailsAre(job, batch, refused, fails) && RefusedAre(job, batch, refused) && i !in batch
              && MayBeAccepted(job, i, accepted)
    ensures var refused' := With(refused, i, !accepted);
      var fails' := With(fails, i, !(accepted && C.Served(job.calls(i))));
      FailsAre(job, batch + [i], refused', fails') && RefusedAre(job, batch + [i], refused')
  {
  }

  /** One more call. */
  lemma PlayedNext(job: Job, batch: seq<TargetId>, i: TargetId, accepted: bool, refused: set<TargetId>,
                   fails: set<TargetId>, b: C.Books, counts: map<TargetId, nat>,
                   b': C.Books, counts': map<TargetId, nat>)
    requires Played(job, batch, refused, fails, b, counts, b', counts') && i !in batch
              && MayBeAccepted(job, i, accepted)
    ensures var ok := accepted && C.Served(job.calls(i));
      Played(job, batch + [i], With(refused, i, !accepted), With(fails, i, !ok), b, counts,
             if accepted then BookedOne(b', job, i) else b',
             if ok then counts'[i := Triggers(counts', i) + 1] else counts')
  {
    SetsNext(job, batch, i, refused, fails, accepted);
    BookedNext(b, job, batch, i, refused, accepted);
    TriggeredNext(counts, batch, i, fails, !(accepted && C.Served(job.calls(i))));
  }

  /** The same for the part of a batch that has been worked through. */
  lemma PlayedPrefix(job: Job, batch: seq<TargetId>, n: nat, accepted: bool, refused: set<TargetId>,
                     fails: set<TargetId>, b: C.Books, counts: map<TargetId, nat>,
                   b': C.Books, counts': map<TargetId, nat>)
    requires n < |batch| && forall j, k :: 0 <= j < k < |batch| ==> batch[j] != batch[k]
    requires Played(job, batch[..n], refused, fails, b, counts, b', counts') && MayBeAccepted(job, batch[n], accepted)
    ensures var i := batch[n];
      var ok := accepted && C.Served(job.calls(i));
      && Played(job, batch[..n + 1], With(refused, i, !accepted), With(fails, i, !ok), b, counts,
                if accepted then BookedOne(b', job, i) else b',
                if ok then counts'[i := Triggers(counts', i) + 1] else counts')
      && FailedOf(batch[..n + 1], With(fails, i, !ok)) == FailedOf(batch[..n], fails) + if ok then [] else [i]
  {
    var i := batch[n];
    assert batch[..n + 1] == batch[..n] + [i];
    FailedNext(batch[..n], i, fails, !(accepted && C.Served(job.calls(i))));
    PlayedNext(job, batch[..n], i, accepted, refused, fails, b, counts, b', counts');
  }

  // What a played batch has done.

  /** The messages of the targets that did not fail, in order. */
  function SentOf(job: Job, batch: seq<TargetId>, fails: set<TargetId>): seq<DispatchMessage>
    requires Fits(job, batch, fails)
    decreases |batch|
  {
    if batch == [] then []
    else
      var before := SentOf(job, batch[..|batch| - 1], fails);
      var i := batch[|batch| - 1];
      if i in fails then before else before + [FirstOf(job, i)]
  }

  /** Each target of a batch either failed or has one message in the call topic, in the order of the batch. */
  lemma {:induction false} BatchIsSent(job: Job, batch: seq<TargetId>, refused: set<TargetId>, fails: set<TargetId>,
                                       b: C.Books)
    requires Fits(job, batch, refused) && FailsAre(job, batch, refused, fails)
    ensures Fits(job, batch, fails)
    ensures BookedAll(b, job, batch, refused).topic == b.topic + SentOf(job, batch, fails)
    ensures |SentOf(job, batch, fails)| + |FailedOf(batch, fails)| == |batch|
    decreases |batch|
  {
    if batch != [] {
      BatchIsSent(job, batch[..|batch| - 1], refused, fails, b);
    }
  }

  /** The statement that takes a failed dispatch back from pending succeeds. */
  predicate UndosOk(job: Job, batch: seq<TargetId>) {
    forall k :: 0 <= k < |batch| ==> job.calls(batch[k]).undoOk
  }

  /** Then a batch adds to pending exactly the calls it sent, however many others failed and wherever. */
  lemma {:induction false} PendingGrowsBySent(job: Job, batch: seq<TargetId>, refused: set<TargetId>,
                                              fails: set<TargetId>, b: C.Books)
    requires Fits(job, batch, refused) && FailsAre(job, batch, refused, fails) && Fits(job, batch, fails)
    requires UndosOk(job, batch) && job.g != NIL_CAMPAIGN && job.g in b.stats
    ensures var b' := BookedAll(b, job, batch, refused);
      && b'.stats.Keys == b.stats.Keys
      && b'.stats[job.g].pending == b.stats[job.g].pending + |SentOf(job, batch, fails)|
      && forall h :: h in b.stats && h != job.g ==> b'.stats[h] == b.stats[h]
    decreases |batch|
  {
    if batch != [] {
      PendingGrowsBySent(job, batch[..|batch| - 1], refused, fails, b);
    }
  }

  /** Nothing goes wrong for the calls of a batch, and its targets have numbers. */
  predicate Healthy(job: Job, batch: seq<TargetId>) {
    && job.campaign.Some?
    && forall k :: 0 <= k < |batch| ==>
         && batch[k] in job.t && job.t[batch[k]].phone != ""
         && job.calls(batch[k]).getOk && job.calls(batch[k]).listOk && C.Served(job.calls(batch[k]))
  }

  /** In a campaign of at most 10000 targets a healthy batch has no failures, so it is a step that drains. */
  lemma HealthyBatchDrains(t: Table, g: CampaignId, batchSize: int, batch: seq<TargetId>, r: Replies, job: Job,
                           refused: set<TargetId>, fails: set<TargetId>, b: C.Books)
    requires OldestOf(t, Matching(t, g, Some(Waiting)), Effective(batchSize), batch) && |Matching(t, g, None)| <= ALL
    requires job.t == Scheduled(t, g, batch, r.at) && job.g == g && Healthy(job, batch)
    requires Fits(job, batch, refused) && FailsAre(job, batch, refused, fails) && RefusedAre(job, batch, refused)
    ensures FailedOf(batch, fails) == []
    ensures |BookedAll(b, job, batch, refused).topic| == |b.topic| + |batch|
    ensures r.resetOk ==> DrainStep(t, AfterBatch(t, g, batch, Outcome(r, fails)), g, Effective(batchSize), {})
  {
    assert Matching(job.t, g, None) == Matching(t, g, None);
    FailedIsLocal(batch, fails, {});
    NoFailures(batch);
    BatchIsSent(job, batch, refused, fails, b);
    if r.resetOk {
      assert AfterBatch(t, g, batch, Outcome(r, fails)) == AfterBatch(t, g, batch, Answers({}, true, true, true, r.at));
    }
  }

  lemma {:induction false} NoFailures(batch: seq<TargetId>)
    ensures FailedOf(batch, {}) == []
    decreases |batch|
  {
    if batch != [] {
      NoFailures(batch[..|batch| - 1]);
    }
  }

  class Scheduler {
    const targets: TargetTable
    const service: C.Service
    /** History: calls triggered for each target. */
    ghost var triggers: map<TargetId, nat>

    constructor (service: C.Service)
      ensures this.service == service && targets == service.targets && triggers == map[]
    {
      this.service, targets := service, service.targets;
      triggers := map[];
    }

    ghost predicate Wired() {
      targets == service.targets
    }

    ghost function JobFor(g: CampaignId, calls: TargetId -> C.Answers): Job
      reads targets, service
    {
      var campaign := if g in service.campaigns then Some(service.campaigns[g]) else None;
      Job(targets.rows, g, campaign, service.defaultLimit, calls)
    }

    /** The tick's work for one open campaign. Returns the batch it fetched. */
    method DispatchBatch(g: CampaignId, batchSize: int, r: Replies)
      returns (batch: seq<TargetId>, ghost refused: set<TargetId>, ghost fails: set<TargetId>)
      requires Wired()
      modifies targets, this`triggers, service`topic, service.store, service.stats
      ensures r.fetchOk ==>
                OldestOf(old(targets.rows), Matching(old(targets.rows), g, Some(Waiting)), Effective(batchSize), batch)
      ensures !r.fetchOk ==> batch == []
      ensures targets.rows == if batch != [] && r.markOk
                              then AfterBatch(old(targets.rows), g, batch, Outcome(r, fails)) else old(targets.rows)
      ensures batch != [] && r.markOk ==>
                var job := old(JobFor(g, r.calls)).(t := Scheduled(old(targets.rows), g, batch, r.at));
                Played(job, batch, refused, fails, old(service.State()), old(triggers), service.State(), triggers)
      ensures batch == [] || !r.markOk ==> triggers == old(triggers) && service.State() == old(service.State())
      ensures r.fetchOk && r.markOk && r.resetOk ==>
                DrainStep(old(targets.rows), targets.rows, g, Effective(batchSize),
                    fails + HopelessOf(old(targets.rows), g))
      ensures service.store.attempts == old(service.store.attempts)
    {
      refused, fails := {}, {};
      var fetched := targets.NextBatchForScheduling(g, batchSize, r.fetchOk);
      if fetched.Err? {
        batch := [];
        return;
      }
      batch := fetched.value;
      if |batch| == 0 {
        EmptyBatchDrains(targets.rows, g, Effective(batchSize), fails + HopelessOf(targets.rows, g));
        return;
      }
      var marked := Mark(g, batch, r);
      if !marked {
        return;
      }
      BatchIsMarked(old(targets.rows), g, Effective(batchSize), batch, r.at);
      var failed;
      failed, refused, fails := TriggerAll(g, batch, r.calls);
      PutBack(g, failed, r);
      if r.resetOk {
        BatchDrains(old(targets.rows), g, Effective(batchSize), batch, r,
                    old(JobFor(g, r.calls)).(t := Scheduled(old(targets.rows), g, batch, r.at)), refused, fails);
      }
    }

    method Mark(g: CampaignId, batch: seq<TargetId>, r: Replies) returns (ok: bool)
      requires batch != []
      modifies targets
      ensures ok <==> r.markOk
      ensures targets.rows == if r.markOk then Scheduled(old(targets.rows), g, batch, r.at) else old(targets.rows)
    {
      var ids := IdsOf(batch);
      var marked := targets.MarkScheduled(g, ids, r.at, r.markOk);
      return marked.Ok?;
    }

    method PutBack(g: CampaignId, failed: seq<TargetId>, r: Replies)
      modifies targets
      ensures targets.rows == if r.resetOk then WithState(old(targets.rows), g, failed, Waiting) else old(targets.rows)
    {
      if |failed| > 0 {
        var _ := targets.SetState(g, failed, Waiting, r.resetOk);
      } else {
        NoneFailed(targets.rows, g);
      }
    }

    /** The ids of the fetched rows; a row stands for its id here. */
    method IdsOf(batch: seq<TargetId>) returns (ids: seq<TargetId>)
      ensures ids == batch
    {
      ids := [];
      for i := 0 to |batch|
        invariant ids == batch[..i]
      {
        ids := ids + [batch[i]];
      }
    }

    /** The loop that triggers a call for each target of the batch and collects those that failed. */
    method TriggerAll(g: CampaignId, batch: seq<TargetId>, calls: TargetId -> C.Answers)
      returns (failed: seq<TargetId>, ghost refused: set<TargetId>, ghost fails: set<TargetId>)
      requires Wired()
      requires forall k :: 0 <= k < |batch| ==> batch[k] in targets.rows && targets.rows[batch[k]].campaignId == g
      requires forall j, k :: 0 <= j < k < |batch| ==> batch[j] != batch[k]
      modifies this`triggers, service`topic, service.store, service.stats
      ensures failed == FailedOf(batch, fails)
      ensures Played(old(JobFor(g, calls)), batch, refused, fails, old(service.State()), old(triggers),
                service.State(), triggers)
      ensures service.store.attempts == old(service.store.attempts)
    {
      failed, refused, fails := [], {}, {};
      ghost var job, b, counts := JobFor(g, calls), service.State(), triggers;
      for i := 0 to |batch|
        invariant job == JobFor(g, calls)
        invariant failed == FailedOf(batch[..i], fails)
        invariant Played(job, batch[..i], refused, fails, b, counts, service.State(), triggers)
        invariant service.store.attempts == old(service.store.attempts)
      {
        failed, refused, fails := TriggerNext(job, g, batch, i, calls, failed, refused, fails, b, counts);
      }
      assert batch[..|batch|] == batch;
    }

    /** One turn of that loop. */
    method TriggerNext(ghost job: Job, g: CampaignId, batch: seq<TargetId>, i: nat, calls: TargetId -> C.Answers,
                       failed: seq<TargetId>, ghost refused: set<TargetId>, ghost fails: set<TargetId>,
                       ghost b: C.Books, ghost counts: map<TargetId, nat>)
      returns (failed': seq<TargetId>, ghost refused': set<TargetId>, ghost fails': set<TargetId>)
      requires Wired() && i < |batch| && batch[i] in targets.rows && targets.rows[batch[i]].campaignId == g
      requires forall j, k :: 0 <= j < k < |batch| ==> batch[j] != batch[k]
      requires job == JobFor(g, calls) && failed == FailedOf(batch[..i], fails)
      requires Played(job, batch[..i], refused, fails, b, counts, service.State(), triggers)
      modifies this`triggers, service`topic, service.store, service.stats
      ensures job == JobFor(g, calls) && failed' == FailedOf(batch[..i + 1], fails')
      ensures Played(job, batch[..i + 1], refused', fails', b, counts, service.State(), triggers)
      ensures service.store.attempts == old(service.store.attempts)
    {
      ghost var b', counts' := service.State(), triggers;
      var ok, accepted := TriggerOne(job, g, batch[i], calls);
      PlayedPrefix(job, batch, i, accepted, refused, fails, b, counts, b', counts');
      refused', fails' := With(refused, batch[i], !accepted), With(fails, batch[i], !ok);
      if ok {
        failed' := failed;
        triggers := triggers[batch[i] := Triggers(triggers, batch[i]) + 1];
      } else {
        failed' := failed + [batch[i]];
      }
    }

    method TriggerOne(ghost job: Job, g: CampaignId, i: TargetId, calls: TargetId -> C.Answers)
      returns (ok: bool, ghost accepted: bool)
      requires Wired() && i in targets.rows && targets.rows[i].campaignId == g && job == JobFor(g, calls)
      modifies service`topic, service.store, service.stats
      ensures job == JobFor(g, calls) && MayBeAccepted(job, i, accepted)
      ensures ok <==> accepted && C.Served(job.calls(i))
      ensures service.State() == if accepted then BookedOne(old(service.State()), job, i) else old(service.State())
      ensures ok ==>
                && |service.topic| == |old(service.topic)| + 1
                    && service.topic[..|old(service.topic)|] == old(service.topic)
                && var d := service.topic[|old(service.topic)|];
                && d.campaignId == g && d.phone == targets.rows[i].phone && d.metadata == targets.rows[i].payload
                && d.attempt == 1
      ensures !ok ==> service.topic == old(service.topic)
      ensures service.store.attempts == old(service.store.attempts)
    {
      var input := C.Input(g, targets.rows[i].phone, targets.rows[i].payload);
      var call, agreed, listed := service.TriggerCall(input, calls(i));
      RegisteredIsListed(targets.rows, g, i, listed);
      if IsHopeless(targets.rows, g, i) && targets.rows[i].phone != "" {
        HiddenIsNotListed(targets.rows, g, listed, targets.rows[i].phone);
      }
      return call.Ok?, agreed;
    }

    ghost function Here(): Snap
      reads this, targets, service, service.store, service.stats
    {
      Snap(targets.rows, triggers, service.State())
    }

    /** tick. Pending retries put the whole tick off; a campaign outside its hours is passed over. The history has
        what each campaign's turn started from and came to. */
    method Tick(pendingRetries: bool, campaigns: seq<Campaign>, batchSize: int, answers: seq<Replies>)
      returns (ghost snaps: seq<Snap>, ghost rounds: seq<Round>)
      requires Wired() && |campaigns| == |answers|
      requires forall i :: 0 <= i < |campaigns| ==> ValidCampaign(campaigns[i])
      modifies targets, this`triggers, service`topic, service.store, service.stats
      ensures pendingRetries ==> Here() == old(Here())
      ensures !pendingRetries ==>
                && Rounds(campaigns, batchSize, answers, service.campaigns, service.defaultLimit, snaps, rounds)
                && snaps[0] == old(Here()) && snaps[|campaigns|] == Here()
      ensures !pendingRetries && DistinctIds(campaigns) ==> forall n ::
                0 <= n < |campaigns| && B.Open(campaigns[n].windows, campaigns[n].local) ==>
                  && (answers[n].fetchOk && answers[n].markOk ==>
                        Reached(old(Here()), Here(), campaigns[n].id, batchSize, answers[n], rounds[n]))
                  && (!(answers[n].fetchOk && answers[n].markOk) ==> SameFor(old(Here()), Here(), campaigns[n].id))
      ensures old(Accounted(targets.rows, triggers)) && ResetsOk(answers) ==> Accounted(targets.rows, triggers)
      ensures targets.rows.Keys == old(targets.rows.Keys)
      ensures forall i :: i in targets.rows ==>
                OnlyDispatched(old(targets.rows)[i], targets.rows[i])
                && (targets.rows[i] != old(targets.rows)[i] ==> HasOpen(campaigns, old(targets.rows)[i].campaignId))
      ensures service.store.attempts == old(service.store.attempts)
    {
      snaps, rounds := [Here()], [];
      if pendingRetries {
        return;
      }
      for n := 0 to |campaigns|
        invariant service.store.attempts == old(service.store.attempts)
        invariant |snaps| == n + 1 && |rounds| == n && snaps[0] == old(Here()) && snaps[n] == Here()
        invariant Rounds(campaigns[..n], batchSize, answers[..n], service.campaigns, service.defaultLimit, snaps,
                  rounds)
      {
        ghost var before := Here();
        var batch, refused, fails := TickCampaign(campaigns[n], batchSize, answers[n]);
        RoundsNext(campaigns[..n + 1], batchSize, answers[..n + 1], service.campaigns, service.defaultLimit, snaps,
            rounds,
                   Here(), Round(batch, refused, fails));
        snaps, rounds := snaps + [Here()], rounds + [Round(batch, refused, fails)];
      }
      assert campaigns[..|campaigns|] == campaigns && answers[..|answers|] == answers;
      RoundsSay(campaigns, batchSize, answers, service.campaigns, service.defaultLimit, snaps, rounds, |campaigns|);
      if DistinctIds(campaigns) {
        AllReached(campaigns, batchSize, answers, service.campaigns, service.defaultLimit, snaps, rounds);
      }
    }

    /** The turn of one campaign. */
    method TickCampaign(c: Campaign, batchSize: int, r: Replies)
      returns (batch: seq<TargetId>, ghost refused: set<TargetId>, ghost fails: set<TargetId>)
      requires Wired() && ValidCampaign(c)
      modifies targets, this`triggers, service`topic, service.store, service.stats
      ensures RoundDone(old(Here()), Here(), c, batchSize, r, service.campaigns, service.defaultLimit,
                        Round(batch, refused, fails))
      ensures service.store.attempts == old(service.store.attempts)
    {
      var open := B.IsWithinBusinessHours(c.windows, c.local);
      if !open {
        batch, refused, fails := [], {}, {};
        return;
      }
      batch, refused, fails := DispatchBatch(c.id, batchSize, r);
    }
  }

  // ---------- A whole tick ----------

  /** The targets, the calls triggered for them and the books of the call service at one moment. */
  datatype Snap = Snap(rows: Table, triggers: map<TargetId, nat>, books: C.Books)

  /** What a campaign's turn fetched, and which of those were refused or failed. */
  datatype Round = Round(batch: seq<TargetId>, refused: set<TargetId>, fails: set<TargetId>)

  function LookUp(campaigns: map<CampaignId, C.Campaign>, g: CampaignId): Option<C.Campaign> {
    if g in campaigns then Some(campaigns[g]) else None
  }

  /** What DispatchBatch does. */
  ghost predicate BatchDone(x: Snap, y: Snap, g: CampaignId, batchSize: int, r: Replies,
                            known: map<CampaignId, C.Campaign>, limit: int, round: Round)
  {
    && (r.fetchOk ==> OldestOf(x.rows, Matching(x.rows, g, Some(Waiting)), Effective(batchSize), round.batch))
    && (!r.fetchOk ==> round.batch == [])
    && (round.batch != [] && r.markOk ==>
          && y.rows == AfterBatch(x.rows, g, round.batch, Outcome(r, round.fails))
          && Played(Job(Scheduled(x.rows, g, round.batch, r.at), g, LookUp(known, g), limit, r.calls),
                    round.batch, round.refused, round.fails, x.books, x.triggers, y.books, y.triggers))
    && (round.batch == [] || !r.markOk ==> y == x)
  }

  /** The turn of a campaign: a batch if it is open, nothing if not. */
  ghost predicate RoundDone(x: Snap, y: Snap, c: Campaign, batchSize: int, r: Replies,
                            known: map<CampaignId, C.Campaign>, limit: int, round: Round)
  {
    if B.Open(c.windows, c.local) then BatchDone(x, y, c.id, batchSize, r, known, limit, round) else y == x
  }

  /** One turn for each campaign, in order. */
  ghost predicate Rounds(campaigns: seq<Campaign>, batchSize: int, answers: seq<Replies>,
                         known: map<CampaignId, C.Campaign>, limit: int, snaps: seq<Snap>, rounds: seq<Round>)
  {
    && |campaigns| == |answers| == |rounds| && |snaps| == |rounds| + 1
    && forall n {:trigger rounds[n]} :: 0 <= n < |rounds| ==>
         RoundDone(snaps[n], snaps[n + 1], campaigns[n], batchSize, answers[n], known, limit, rounds[n])
  }

  lemma RoundsNext(campaigns: seq<Campaign>, batchSize: int, answers: seq<Replies>, known: map<CampaignId, C.Campaign>,
                   limit: int, snaps: seq<Snap>, rounds: seq<Round>, y: Snap, round: Round)
    requires |campaigns| == |answers| == |rounds| + 1 && |snaps| == |rounds| + 1
    requires var n := |rounds|;
      && Rounds(campaigns[..n], batchSize, answers[..n], known, limit, snaps, rounds)
      && RoundDone(snaps[n], y, campaigns[n], batchSize, answers[n], known, limit, round)
    ensures Rounds(campaigns, batchSize, answers, known, limit, snaps + [y], rounds + [round])
  {
    var n, all, done := |rounds|, snaps + [y], rounds + [round];
    forall m | 0 <= m <= n
      ensures RoundDone(all[m], all[m + 1], campaigns[m], batchSize, answers[m], known, limit, done[m])
    {
      if m < n {
        assert RoundDone(snaps[m], snaps[m + 1], campaigns[..n][m], batchSize, answers[..n][m], known, limit,
            rounds[m]);
      }
    }
  }

  predicate DistinctIds(campaigns: seq<Campaign>) {
    forall m, n :: 0 <= m < n < |campaigns| ==> campaigns[m].id != campaigns[n].id
  }

  /** The targets of a campaign and their calls are as they were. */
  predicate SameFor(x: Snap, y: Snap, g: CampaignId) {
    && x.rows.Keys == y.rows.Keys
    && (forall i :: i in x.rows ==> (x.rows[i].campaignId == g <==> y.rows[i].campaignId == g))
    && (forall i :: i in x.rows && x.rows[i].campaignId == g ==>
          y.rows[i] == x.rows[i] && Triggers(y.triggers, i) == Triggers(x.triggers, i))
  }

  /** A campaign has been worked on: its oldest waiting targets were marked; those whose TriggerCall succeeded are
      queued with one more call, those that failed wait again if they could be put back; and its other targets are
      as they were. */
  ghost predicate Reached(x: Snap, y: Snap, g: CampaignId, batchSize: int, r: Replies, round: Round) {
    && OldestOf(x.rows, Matching(x.rows, g, Some(Waiting)), if batchSize > 0 then batchSize else 100, round.batch)
    && x.rows.Keys == y.rows.Keys
    && (forall i :: i in x.rows ==> (x.rows[i].campaignId == g <==> y.rows[i].campaignId == g))
    && (forall i :: i in x.rows && x.rows[i].campaignId == g && i in round.batch ==>
          && y.rows[i].scheduledAt == Some(r.at)
          && (i !in round.fails ==>
                y.rows[i].state == Dispatched && Triggers(y.triggers, i) == Triggers(x.triggers, i) + 1)
          && (i in round.fails ==>
                && y.rows[i].state == (if r.resetOk then Waiting else Dispatched)
                && Triggers(y.triggers, i) == Triggers(x.triggers, i)))
    && (forall i :: i in x.rows && x.rows[i].campaignId == g && i !in round.batch ==>
          y.rows[i] == x.rows[i] && Triggers(y.triggers, i) == Triggers(x.triggers, i))
  }

  lemma RoundReaches(x: Snap, y: Snap, g: CampaignId, batchSize: int, r: Replies,
                     known: map<CampaignId, C.Campaign>, limit: int, round: Round)
    requires BatchDone(x, y, g, batchSize, r, known, limit, round) && r.fetchOk && r.markOk
    ensures Reached(x, y, g, batchSize, r, round)
  {
    var batch := round.batch;
    BatchMovesOnlyIts(x.rows, g, batchSize, batch, Outcome(r, round.fails), y.rows);
    BatchIsWaiting(x.rows, g, Effective(batchSize), batch);
    if batch != [] {
      forall i | i in x.rows && x.rows[i].campaignId == g
        ensures Triggers(y.triggers, i) == Triggers(x.triggers, i) + if i in batch && i !in round.fails then 1 else 0
        ensures i in batch ==>
                  y.rows[i] == x.rows[i].(state := if i in round.fails && r.resetOk then Waiting else Dispatched,
                                          scheduledAt := Some(r.at))
      {
        BatchEffect(x.rows, g, batch, Outcome(r, round.fails), i);
        TriggeredCounts(x.triggers, batch, round.fails, i);
      }
    }
  }

  /** A turn leaves the targets of other campaigns alone, and one whose statements fail its own too. */
  lemma RoundLeaves(x: Snap, y: Snap, c: Campaign, batchSize: int, r: Replies,
                    known: map<CampaignId, C.Campaign>, limit: int, round: Round, h: CampaignId)
    requires RoundDone(x, y, c, batchSize, r, known, limit, round)
    requires h != c.id || !r.fetchOk || !r.markOk
    ensures SameFor(x, y, h)
  {
    if B.Open(c.windows, c.local) && round.batch != [] && r.markOk {
      BatchMovesOnlyIts(x.rows, c.id, batchSize, round.batch, Outcome(r, round.fails), y.rows);
      BatchIsWaiting(x.rows, c.id, Effective(batchSize), round.batch);
      forall i | i in x.rows && x.rows[i].campaignId == h ensures Triggers(y.triggers, i) == Triggers(x.triggers, i) {
        TriggeredCounts(x.triggers, round.batch, round.fails, i);
      }
    }
  }

  lemma SameForTrans(x: Snap, y: Snap, z: Snap, g: CampaignId)
    requires SameFor(x, y, g) && SameFor(y, z, g)
    ensures SameFor(x, z, g)
  {
  }

  lemma ReachedFrom(w: Snap, x: Snap, y: Snap, z: Snap, g: CampaignId, batchSize: int, r: Replies, round: Round)
    requires SameFor(w, x, g) && Reached(x, y, g, batchSize, r, round) && SameFor(y, z, g)
    ensures Reached(w, z, g, batchSize, r, round)
  {
    ReachedUntil(x, y, z, g, batchSize, r, round);
    ReachedSince(w, x, z, g, batchSize, r, round);
  }

  lemma ReachedUntil(x: Snap, y: Snap, z: Snap, g: CampaignId, batchSize: int, r: Replies, round: Round)
    requires Reached(x, y, g, batchSize, r, round) && SameFor(y, z, g)
    ensures Reached(x, z, g, batchSize, r, round)
  {
  }

  lemma ReachedSince(w: Snap, x: Snap, y: Snap, g: CampaignId, batchSize: int, r: Replies, round: Round)
    requires SameFor(w, x, g) && Reached(x, y, g, batchSize, r, round)
    ensures Reached(w, y, g, batchSize, r, round)
  {
    assert Matching(w.rows, g, Some(Waiting)) == Matching(x.rows, g, Some(Waiting));
  }

  /** Turns of other campaigns. */
  lemma {:induction false} RoundsLeave(campaigns: seq<Campaign>, batchSize: int, answers: seq<Replies>,
                                       known: map<CampaignId, C.Campaign>, limit: int, snaps: seq<Snap>,
                                       rounds: seq<Round>, lo: nat, hi: nat, h: CampaignId)
    requires Rounds(campaigns, batchSize, answers, known, limit, snaps, rounds) && lo <= hi <= |rounds|
    requires forall n :: lo <= n < hi ==>
               campaigns[n].id != h || !answers[n].fetchOk || !answers[n].markOk
    ensures SameFor(snaps[lo], snaps[hi], h)
    decreases hi
  {
    if lo < hi {
      var n := hi - 1;
      RoundsLeave(campaigns, batchSize, answers, known, limit, snaps, rounds, lo, n, h);
      RoundLeaves(snaps[n], snaps[n + 1], campaigns[n], batchSize, answers[n], known, limit, rounds[n], h);
      SameForTrans(snaps[lo], snaps[n], snaps[hi], h);
    }
  }

  /** With one turn each, every open campaign is reached whose statements succeed, whatever the others do. */
  lemma OneReached(campaigns: seq<Campaign>, batchSize: int, answers: seq<Replies>, known: map<CampaignId, C.Campaign>,
                   limit: int, snaps: seq<Snap>, rounds: seq<Round>, n: nat)
    requires Rounds(campaigns, batchSize, answers, known, limit, snaps, rounds) && DistinctIds(campaigns)
    requires n < |campaigns| && B.Open(campaigns[n].windows, campaigns[n].local)
    ensures answers[n].fetchOk && answers[n].markOk ==>
              Reached(snaps[0], snaps[|campaigns|], campaigns[n].id, batchSize, answers[n], rounds[n])
    ensures !(answers[n].fetchOk && answers[n].markOk) ==> SameFor(snaps[0], snaps[|campaigns|], campaigns[n].id)
  {
    var g, x, y, z := campaigns[n].id, snaps[n], snaps[n + 1], snaps[|campaigns|];
    RoundsLeave(campaigns, batchSize, answers, known, limit, snaps, rounds, 0, n, g);
    RoundsLeave(campaigns, batchSize, answers, known, limit, snaps, rounds, n + 1, |campaigns|, g);
    assert RoundDone(x, y, campaigns[n], batchSize, answers[n], known, limit, rounds[n]);
    if answers[n].fetchOk && answers[n].markOk {
      RoundReaches(x, y, g, batchSize, answers[n], known, limit, rounds[n]);
      ReachedFrom(snaps[0], x, y, z, g, batchSize, answers[n], rounds[n]);
    } else {
      RoundLeaves(x, y, campaigns[n], batchSize, answers[n], known, limit, rounds[n], g);
      SameForTrans(snaps[0], x, y, g);
      SameForTrans(snaps[0], y, z, g);
    }
  }

  lemma AllReached(campaigns: seq<Campaign>, batchSize: int, answers: seq<Replies>, known: map<CampaignId, C.Campaign>,
                   limit: int, snaps: seq<Snap>, rounds: seq<Round>)
    requires Rounds(campaigns, batchSize, answers, known, limit, snaps, rounds) && DistinctIds(campaigns)
    ensures forall n :: 0 <= n < |campaigns| && B.Open(campaigns[n].windows, campaigns[n].local) ==>
              && (answers[n].fetchOk && answers[n].markOk ==>
                    Reached(snaps[0], snaps[|campaigns|], campaigns[n].id, batchSize, answers[n], rounds[n]))
              && (!(answers[n].fetchOk && answers[n].markOk) ==> SameFor(snaps[0], snaps[|campaigns|], campaigns[n].id))
  {
    forall n | 0 <= n < |campaigns| && B.Open(campaigns[n].windows, campaigns[n].local)
      ensures answers[n].fetchOk && answers[n].markOk ==>
                Reached(snaps[0], snaps[|campaigns|], campaigns[n].id, batchSize, answers[n], rounds[n])
      ensures !(answers[n].fetchOk && answers[n].markOk) ==> SameFor(snaps[0], snaps[|campaigns|], campaigns[n].id)
    {
      OneReached(campaigns, batchSize, answers, known, limit, snaps, rounds, n);
    }
  }

  /** One turn: only targets of its campaign move, and only if it is open; and the account is kept. */
  lemma RoundSays(x: Snap, y: Snap, c: Campaign, batchSize: int, r: Replies,
                  known: map<CampaignId, C.Campaign>, limit: int, round: Round)
    requires RoundDone(x, y, c, batchSize, r, known, limit, round)
    ensures y.rows.Keys == x.rows.Keys
    ensures forall i :: i in x.rows ==>
              OnlyDispatched(x.rows[i], y.rows[i])
              && (y.rows[i] != x.rows[i] ==> x.rows[i].campaignId == c.id && B.Open(c.windows, c.local))
    ensures Accounted(x.rows, x.triggers) && r.resetOk ==> Accounted(y.rows, y.triggers)
  {
    if B.Open(c.windows, c.local) {
      var a := Outcome(r, round.fails);
      BatchMovesOnlyIts(x.rows, c.id, batchSize, round.batch, a, y.rows);
      if Accounted(x.rows, x.triggers) && r.resetOk {
        BatchKeepsAccount(x.rows, x.triggers, c.id, batchSize, round.batch, a, y.rows, y.triggers);
      }
    }
  }

  lemma {:induction false} RoundsSay(campaigns: seq<Campaign>, batchSize: int, answers: seq<Replies>,
                                     known: map<CampaignId, C.Campaign>, limit: int, snaps: seq<Snap>,
                                     rounds: seq<Round>, n: nat)
    requires Rounds(campaigns, batchSize, answers, known, limit, snaps, rounds) && n <= |rounds|
    ensures snaps[n].rows.Keys == snaps[0].rows.Keys
    ensures forall i :: i in snaps[0].rows ==>
              OnlyDispatched(snaps[0].rows[i], snaps[n].rows[i])
              && (snaps[n].rows[i] != snaps[0].rows[i] ==> HasOpen(campaigns, snaps[0].rows[i].campaignId))
    ensures Accounted(snaps[0].rows, snaps[0].triggers) && ResetsOk(answers) ==>
              Accounted(snaps[n].rows, snaps[n].triggers)
    decreases n
  {
    if n > 0 {
      RoundsSay(campaigns, batchSize, answers, known, limit, snaps, rounds, n - 1);
      assert RoundDone(snaps[n - 1], snaps[n - 1 + 1], campaigns[n - 1], batchSize, answers[n - 1], known, limit,
          rounds[n - 1]);
      RoundSays(snaps[n - 1], snaps[n], campaigns[n - 1], batchSize, answers[n - 1], known, limit, rounds[n - 1]);
      forall i | i in snaps[0].rows
        ensures OnlyDispatched(snaps[0].rows[i], snaps[n].rows[i])
        ensures snaps[n].rows[i] != snaps[0].rows[i] ==> HasOpen(campaigns, snaps[0].rows[i].campaignId)
      {
        assert OnlyDispatched(snaps[0].rows[i], snaps[n - 1].rows[i]);
        assert OnlyDispatched(snaps[n - 1].rows[i], snaps[n].rows[i]);
      }
    }
  }

  /** With at most 10000 targets, the number of a target is among those that the check looks at. */
  lemma RegisteredIsListed(t: Table, g: CampaignId, i: TargetId, listed: seq<TargetId>)
    requires i in t && t[i].campaignId == g
    requires OldestOf(t, Matching(t, g, None), ALL, listed)
    ensures |Matching(t, g, None)| <= ALL ==> t[i].phone in PhonesAt(t, listed)
  {
    C.AcceptedIsRegistered(t, g, listed, t[i].phone);
  }

  lemma BatchIsMarked(t: Table, g: CampaignId, n: nat, batch: seq<TargetId>, at: int)
    requires OldestOf(t, Matching(t, g, Some(Waiting)), n, batch)
    ensures var t' := Scheduled(t, g, batch, at);
      forall k :: 0 <= k < |batch| ==> batch[k] in t' && t'[batch[k]].campaignId == g
  {
    BatchIsWaiting(t, g, n, batch);
  }

  lemma NoneFailed(t: Table, g: CampaignId)
    ensures WithState(t, g, [], Waiting) == t
  {
  }

  predicate ValidCampaign(c: Campaign) {
    && (forall i :: 0 <= i < |c.windows| ==> B.ValidWindow(c.windows[i]))
    && (c.local.Some? ==> B.ValidLocal(c.local.value))
  }

  /** One of the campaigns has this id and is within its business hours. */
  ghost predicate HasOpen(campaigns: seq<Campaign>, g: CampaignId) {
    exists n :: 0 <= n < |campaigns| && campaigns[n].id == g && B.Open(campaigns[n].windows, campaigns[n].local)
  }

  /** All a tick may change of a target: whether it is dispatched, and when it was last scheduled. */
  predicate OnlyDispatched(x: Target, y: Target) {
    && y == x.(state := y.state, scheduledAt := y.scheduledAt)
    && (x.state == y.state || (x.state == Waiting && y.state == Dispatched))
  }

  // ---------- Accounting ----------

  /** A dispatched target has had exactly one call triggered by the scheduler, a waiting one none. */
  ghost predicate Accounted(t: Table, counts: map<TargetId, nat>) {
    forall i :: i in t ==>
      (t[i].state == Waiting ==> Triggers(counts, i) == 0) && (t[i].state == Dispatched ==> Triggers(counts, i) == 1)
  }

  /** No batch is left marked because its failures could not be put back. */
  predicate ResetsOk(answers: seq<Replies>) {
    forall i :: 0 <= i < |answers| ==> answers[i].resetOk
  }

  /** What a marked batch does to one target. */
  lemma BatchEffect(t: Table, g: CampaignId, batch: seq<TargetId>, a: Answers, i: TargetId)
    requires i in t
    requires forall k :: 0 <= k < |batch| ==> batch[k] in t && t[batch[k]].campaignId == g
    ensures i in AfterBatch(t, g, batch, a)
    ensures var y := AfterBatch(t, g, batch, a)[i];
      y == if i !in batch then t[i]
           else t[i].(state := if i in a.fails && a.resetOk then Waiting else Dispatched, scheduledAt := Some(a.at))
  {
    FailedExactly(batch, a.fails, i);
  }

  /** The rows a batch may hold. */
  lemma BatchIsWaiting(t: Table, g: CampaignId, n: nat, batch: seq<TargetId>)
    requires OldestOf(t, Matching(t, g, Some(Waiting)), n, batch)
    ensures forall k :: 0 <= k < |batch| ==>
              batch[k] in t && t[batch[k]].campaignId == g && t[batch[k]].state == Waiting
  {
    forall k | 0 <= k < |batch| ensures batch[k] in t && t[batch[k]].campaignId == g && t[batch[k]].state == Waiting {
      assert batch[k] in Matching(t, g, Some(Waiting));
    }
  }

  /** A batch changes no target outside it, and of those in it only whether they are dispatched. */
  lemma BatchMovesOnlyIts(t: Table, g: CampaignId, batchSize: int, batch: seq<TargetId>, a: Answers, t': Table)
    requires a.fetchOk ==> OldestOf(t, Matching(t, g, Some(Waiting)), Effective(batchSize), batch)
    requires !a.fetchOk ==> batch == []
    requires t' == if batch != [] && a.markOk then AfterBatch(t, g, batch, a) else t
    ensures t'.Keys == t.Keys
    ensures forall i :: i in t ==>
              OnlyDispatched(t[i], t'[i])
              && (i !in batch ==> t'[i] == t[i])
              && (t'[i] != t[i] ==> t[i].campaignId == g)
  {
    if batch != [] && a.markOk {
      BatchIsWaiting(t, g, Effective(batchSize), batch);
      forall i | i in t
        ensures i in t' && OnlyDispatched(t[i], t'[i]) && (i !in batch ==> t'[i] == t[i])
                  && (t'[i] != t[i] ==> t[i].campaignId == g)
      {
        BatchEffect(t, g, batch, a, i);
      }
    }
  }

  /** A batch whose failures are put back keeps the account. */
  lemma BatchKeepsAccount(t: Table, counts: map<TargetId, nat>, g: CampaignId, batchSize: int, batch: seq<TargetId>,
                          a: Answers, t': Table, counts': map<TargetId, nat>)
    requires Accounted(t, counts) && a.resetOk
    requires a.fetchOk ==> OldestOf(t, Matching(t, g, Some(Waiting)), Effective(batchSize), batch)
    requires !a.fetchOk ==> batch == []
    requires t' == if batch != [] && a.markOk then AfterBatch(t, g, batch, a) else t
    requires counts' == if a.markOk then Triggered(counts, batch, a.fails) else counts
    ensures Accounted(t', counts')
  {
    if batch != [] && a.markOk {
      AccountKeptExactly(t, counts, g, Effective(batchSize), batch, a);
    }
  }

  /** And only such a batch does: a failed target that stays marked counts as dispatched but was never called. */
  lemma AccountKeptExactly(t: Table, counts: map<TargetId, nat>, g: CampaignId, n: nat, batch: seq<TargetId>,
                           a: Answers)
    requires Accounted(t, counts)
    requires OldestOf(t, Matching(t, g, Some(Waiting)), n, batch)
    ensures Accounted(AfterBatch(t, g, batch, a), Triggered(counts, batch, a.fails))
       <==> a.resetOk || forall k :: 0 <= k < |batch| ==> batch[k] !in a.fails
  {
    var t', counts' := AfterBatch(t, g, batch, a), Triggered(counts, batch, a.fails);
    BatchIsWaiting(t, g, n, batch);
    if a.resetOk || forall k :: 0 <= k < |batch| ==> batch[k] !in a.fails {
      forall i | i in t'
        ensures t'[i].state == Waiting ==> Triggers(counts', i) == 0
        ensures t'[i].state == Dispatched ==> Triggers(counts', i) == 1
      {
        BatchEffect(t, g, batch, a, i);
        TriggeredCounts(counts, batch, a.fails, i);
      }
    } else {
      var k :| 0 <= k < |batch| && batch[k] in a.fails;
      BatchEffect(t, g, batch, a, batch[k]);
      TriggeredCounts(counts, batch, a.fails, batch[k]);
    }
  }

  /** New targets enter the account with fresh ids, as waiting. */
  lemma {:induction false} InsertKeepsAccount(t: Table, counts: map<TargetId, nat>, rows: seq<NewTarget>)
    requires Accounted(t, counts)
    requires forall i :: 0 <= i < |rows| ==> rows[i].id !in counts && rows[i].target.state == Waiting
    ensures Accounted(Inserted(t, rows), counts)
    decreases |rows|
  {
    if rows != [] {
      InsertKeepsAccount(t, counts, rows[..|rows| - 1]);
    }
  }

  // ---------- The account over a run ----------

  /** What happens to the targets: new ones come in, or a batch of a campaign is dispatched. */
  datatype Happening =
    | Arrive(rows: seq<NewTarget>)
    | Dispatch(g: CampaignId, n: nat, batch: seq<TargetId>, a: Answers)

  /** The targets and the number of calls the scheduler has triggered for each. */
  datatype Books = Books(t: Table, counts: map<TargetId, nat>)

  /** Ids are fresh, as uuid.New draws them, and new targets wait; a batch holds the oldest waiting ones, and its
      failures can be put back. */
  ghost predicate Happens(b: Books, h: Happening) {
    match h
    case Arrive(rows) => forall i :: 0 <= i < |rows| ==> rows[i].id !in b.t && rows[i].target.state == Waiting
    case Dispatch(g, n, batch, a) => OldestOf(b.t, Matching(b.t, g, Some(Waiting)), n, batch) && a.resetOk
  }

  function Next(b: Books, h: Happening): Books {
    match h
    case Arrive(rows) => Books(Inserted(b.t, rows), b.counts)
    case Dispatch(g, n, batch, a) =>
      if a.markOk then Books(AfterBatch(b.t, g, batch, a), Triggered(b.counts, batch, a.fails)) else b
  }

  function NextAll(b: Books, hs: seq<Happening>): Books
    decreases |hs|
  {
    if hs == [] then b else Next(NextAll(b, hs[..|hs| - 1]), hs[|hs| - 1])
  }

  ghost predicate AllHappen(b: Books, hs: seq<Happening>)
    decreases |hs|
  {
    hs == [] || (AllHappen(b, hs[..|hs| - 1]) && Happens(NextAll(b, hs[..|hs| - 1]), hs[|hs| - 1]))
  }

  /** The rows that Create and AddTargets make are such arrivals. */
  lemma RecordsArrive(b: Books, g: CampaignId, inputs: seq<TargetInput>, now: int)
    requires FreshInputs(b.t, inputs)
    ensures Happens(b, Arrive(Records(g, inputs, now)))
    ensures Gained(b.t, Next(b, Arrive(Records(g, inputs, now))).t, g, inputs, now)
  {
    RecordsAreGained(b.t, g, inputs, now);
  }

  /** The account, and no calls for targets that are not there. */
  ghost predicate BooksKept(b: Books) {
    Accounted(b.t, b.counts) && b.counts.Keys <= b.t.Keys
  }

  lemma {:induction false} TriggeredKeys(counts: map<TargetId, nat>, batch: seq<TargetId>, fails: set<TargetId>)
    ensures Triggered(counts, batch, fails).Keys <= counts.Keys + Elements(batch)
    decreases |batch|
  {
    if batch != [] {
      TriggeredKeys(counts, batch[..|batch| - 1], fails);
    }
  }

  lemma {:induction false} InsertedKeepsKeys(t: Table, rows: seq<NewTarget>)
    ensures t.Keys <= Inserted(t, rows).Keys
    decreases |rows|
  {
    if rows != [] {
      InsertedKeepsKeys(t, rows[..|rows| - 1]);
    }
  }

  lemma NextKeepsBooks(b: Books, h: Happening)
    requires BooksKept(b) && Happens(b, h)
    ensures BooksKept(Next(b, h))
  {
    match h
    case Arrive(rows) =>
      InsertKeepsAccount(b.t, b.counts, rows);
      InsertedKeepsKeys(b.t, rows);
    case Dispatch(g, n, batch, a) =>
      AccountKeptExactly(b.t, b.counts, g, n, batch, a);
      TriggeredKeys(b.counts, batch, a.fails);
      BatchIsWaiting(b.t, g, n, batch);
  }

  /** Over any run of arrivals and batches from an empty table, in any campaigns, whatever fails as long as it can be
      put back, each queued target has had exactly one call triggered and each pending one none. */
  lemma {:induction false} AccountOverRuns(hs: seq<Happening>)
    requires AllHappen(Books(map[], map[]), hs)
    ensures BooksKept(NextAll(Books(map[], map[]), hs))
    decreases |hs|
  {
    if hs != [] {
      AccountOverRuns(hs[..|hs| - 1]);
      NextKeepsBooks(NextAll(Books(map[], map[]), hs[..|hs| - 1]), hs[|hs| - 1]);
    }
  }

  // ---------- Runs of ticks ----------

  /** The tables to which a dispatching tick of a campaign may lead, with the targets that fail in it. */
  ghost function AfterTick(t: Table, g: CampaignId, n: nat, fails: set<TargetId>): iset<Table> {
    iset batch, at | OldestOf(t, Matching(t, g, Some(Waiting)), n, batch) ::
      AfterBatch(t, g, batch, Answers(fails, true, true, true, at))
  }

  ghost predicate DrainStep(t: Table, t': Table, g: CampaignId, n: nat, fails: set<TargetId>) {
    t' in AfterTick(t, g, n, fails)
  }

  /** A target that no TriggerCall accepts: its number is empty, or hidden behind 10000 older targets. */
  ghost predicate IsHopeless(t: Table, g: CampaignId, i: TargetId)
    requires i in t
  {
    t[i].phone == "" || Hidden(t, g, t[i].phone)
  }

  ghost function HopelessOf(t: Table, g: CampaignId): set<TargetId> {
    set i | i in t && t[i].campaignId == g && IsHopeless(t, g, i)
  }

  /** The same targets, but for their states. */
  predicate SameButState(t: Table, t': Table) {
    t'.Keys == t.Keys && forall i :: i in t ==> t'[i] == t[i].(state := t'[i].state, scheduledAt := t'[i].scheduledAt)
  }

  lemma SameHopeless(t: Table, t': Table, g: CampaignId, i: TargetId)
    requires SameButState(t, t') && i in t
    ensures IsHopeless(t', g, i) <==> IsHopeless(t, g, i)
  {
    var from := Matching(t, g, None);
    assert Matching(t', g, None) == from;
    forall j | j in from ensures OlderThan(t', from, j) == OlderThan(t, from, j) {
    }
  }

  lemma BatchKeepsRows(t: Table, g: CampaignId, batch: seq<TargetId>, a: Answers)
    ensures SameButState(t, AfterBatch(t, g, batch, a))
    ensures SameButState(t, Scheduled(t, g, batch, a.at))
  {
  }

  /** A batch whose three statements succeed is a step in which, besides those that failed, all hopeless targets
      may count as failing: those in the batch did. */
  lemma BatchDrains(t: Table, g: CampaignId, n: nat, batch: seq<TargetId>, r: Replies, job: Job,
                    refused: set<TargetId>, fails: set<TargetId>)
    requires OldestOf(t, Matching(t, g, Some(Waiting)), n, batch) && r.fetchOk && r.markOk && r.resetOk
    requires job.t == Scheduled(t, g, batch, r.at) && job.g == g
    requires Fits(job, batch, refused) && FailsAre(job, batch, refused, fails) && RefusedAre(job, batch, refused)
    ensures DrainStep(t, AfterBatch(t, g, batch, Outcome(r, fails)), g, n, fails + HopelessOf(t, g))
  {
    var all := fails + HopelessOf(t, g);
    BatchKeepsRows(t, g, batch, Outcome(r, fails));
    forall k | 0 <= k < |batch| ensures batch[k] in fails <==> batch[k] in all {
      if batch[k] in HopelessOf(t, g) {
        SameHopeless(t, job.t, g, batch[k]);
      }
    }
    FailedIsLocal(batch, fails, all);
    assert AfterBatch(t, g, batch, Outcome(r, fails)) == AfterBatch(t, g, batch, Answers(all, true, true, true, r.at));
  }

  lemma EmptyBatchDrains(t: Table, g: CampaignId, n: nat, fails: set<TargetId>)
    requires OldestOf(t, Matching(t, g, Some(Waiting)), n, [])
    ensures DrainStep(t, t, g, n, fails)
  {
    NoneFailed(Scheduled(t, g, [], 0), g);
    assert Scheduled(t, g, [], 0) == t;
    assert AfterBatch(t, g, [], Answers(fails, true, true, true, 0)) == t;
  }
}
