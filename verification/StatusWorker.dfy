/** internal/worker/status/worker.go: what one status message does to the databases and retry topics. */
module StatusWorker {
  import opened Wrappers
  import opened Messages
  import opened Statistics
  import opened CallStore
  import R = RetryScheduler
  import P = Pipeline
  import PR = PipelineRuns

  /** Everything a status worker writes to. */
  datatype Databases = Databases(
    tables: Tables,
    attempts: map<(CallId, int), AttemptRow>,
    stats: map<CampaignId, Counters>,
    topics: seq<seq<Record>>)

  /** How the databases and Kafka answer while one message is handled. */
  datatype Answers = Answers(now: int, updateWrites: nat, appendOk: bool, applyOk: bool, scheduleOk: bool,
                             commitOk: bool)

  /** What FetchMessage brings. */
  datatype Fetch = FetchFailed | Undecodable | Got(m: StatusMessage)

  function OptionalString(value: string): Option<string> {
    if value == "" then None else Some(value)
  }

  // The four effects of a message, in their order.

  ghost function TablesAfter(t: Tables, m: StatusMessage, a: Answers): Tables {
    if !HasCall(t, m.callId) then t
    else
      var k := KeyOf(t, m.callId);
      Prefix(t, UpdateWrites(Loaded(k, t.calls[k]), m.status, m.attempt, OptionalString(m.error), a.now),
          a.updateWrites)
  }

  function LogAfter(rows: map<(CallId, int), AttemptRow>, m: StatusMessage, a: Answers)
    : map<(CallId, int), AttemptRow>
  {
    if a.appendOk then rows[(m.callId, m.attempt) := AttemptRowOf(m)] else rows
  }

  function CountersAfter(stats: map<CampaignId, Counters>, m: StatusMessage, a: Answers): map<CampaignId, Counters> {
    if a.applyOk then AfterOutcome(stats, m) else stats
  }

  function TopicsAfter(topics: seq<seq<Record>>, m: StatusMessage, a: Answers): seq<seq<Record>> {
    if WantsRetry(m) && P.HasTopic(|topics|, m.attempt) && a.scheduleOk
    then topics[m.attempt - 1 := topics[m.attempt - 1] + [EncodeRetry(RetryFor(m))]]
    else topics
  }

  ghost function Handled(db: Databases, m: StatusMessage, a: Answers): Databases {
    Databases(TablesAfter(db.tables, m, a), LogAfter(db.attempts, m, a),
              CountersAfter(db.stats, m, a), TopicsAfter(db.topics, m, a))
  }

  /** A failed fetch and an undecodable message touch no database. */
  ghost function HandledAll(db: Databases, inbox: seq<Fetch>, answers: seq<Answers>): Databases
    requires |inbox| == |answers|
    decreases |inbox|
  {
    if inbox == [] then db
    else
      var before := HandledAll(db, inbox[..|inbox| - 1], answers[..|inbox| - 1]);
      if inbox[|inbox| - 1].Got? then Handled(before, inbox[|inbox| - 1].m, answers[|inbox| - 1]) else before
  }

  /** Everything that was fetched is committed, if Kafka takes the commit. */
  function Commits(inbox: seq<Fetch>, answers: seq<Answers>): nat
    requires |inbox| == |answers|
    decreases |inbox|
  {
    if inbox == [] then 0
    else Commits(inbox[..|inbox| - 1], answers[..|inbox| - 1])
         + if !inbox[|inbox| - 1].FetchFailed? && answers[|inbox| - 1].commitOk then 1 else 0
  }

  lemma {:induction false} AllOrNoneCommitted(inbox: seq<Fetch>, answers: seq<Answers>)
    requires |inbox| == |answers|
    ensures (forall i :: 0 <= i < |inbox| ==> !inbox[i].FetchFailed? && answers[i].commitOk) ==>
              Commits(inbox, answers) == |inbox|
    ensures (forall i :: 0 <= i < |inbox| ==> inbox[i].FetchFailed? || !answers[i].commitOk) ==>
              Commits(inbox, answers) == 0
    decreases |inbox|
  {
    if inbox != [] {
      AllOrNoneCommitted(inbox[..|inbox| - 1], answers[..|inbox| - 1]);
    }
  }

  lemma HandlingKeepsSound(db: Databases, m: StatusMessage, a: Answers)
    requires Sound(db.tables)
    ensures Sound(Handled(db, m, a).tables)
  {
    if HasCall(db.tables, m.callId) {
      UpdateKeepsSound(db.tables, KeyOf(db.tables, m.callId), m.status, m.attempt, OptionalString(m.error), a.now,
          a.updateWrites);
    }
  }

  /** A record that a retry worker decodes, in either way, to a retry of a failed attempt. */
  predicate ReadsAsRetryOf(codec: Codec, rec: Record, m: StatusMessage) {
    var r := DecodeRetry(codec, rec);
    r.Some? && Retries(r.value, m) && r.value.dispatch.maxAttempts == if codec == Literal then 0 else m.maxAttempts
  }

  lemma WireRetries(m: StatusMessage)
    requires WantsRetry(m)
    ensures forall codec :: ReadsAsRetryOf(codec, EncodeRetry(RetryFor(m)), m)
  {
    RetryRetries(m);
    forall codec ensures ReadsAsRetryOf(codec, EncodeRetry(RetryFor(m)), m) {
      RetryHop(codec, RetryFor(m));
    }
  }

  class Worker {
    const store: Store
    const stats: StatisticsTable
    const retry: R.Scheduler
    var committed: nat

    ghost function State(): Databases
      reads store, stats, retry
    {
      Databases(store.Contents(), store.attempts, stats.rows, retry.writers)
    }

    constructor (store: Store, stats: StatisticsTable, retry: R.Scheduler)
      ensures this.store == store && this.stats == stats && this.retry == retry && committed == 0
    {
      this.store, this.stats, this.retry := store, stats, retry;
      committed := 0;
    }

    /** The counters: a delta is put together field by field and applied at once. */
    method CountOutcome(m: StatusMessage, ok: bool)
      modifies stats
      ensures stats.rows == if ok then AfterOutcome(old(stats.rows), m) else old(stats.rows)
      ensures m.campaignId == NIL_CAMPAIGN || m.campaignId !in old(stats.rows) ==> stats.rows == old(stats.rows)
    {
      if m.campaignId == NIL_CAMPAIGN {
        return;
      }
      var delta := ZERO;
      if m.attempt > 1 {
        delta := delta.(retries := delta.retries + 1);
      }
      match m.status {
        case Completed =>
          delta := delta.(completed := delta.completed + 1);
          delta := delta.(pending := delta.pending - 1);
        case Failed =>
          if !m.retryable {
            delta := delta.(failed := delta.failed + 1);
            delta := delta.(pending := delta.pending - 1);
          }
        case _ =>
      }
      var _ := stats.ApplyDelta(m.campaignId, delta, ok);
    }

    /** The retry: the next attempt of the call goes to this attempt's topic. */
    method SendRetry(m: StatusMessage, a: Answers)
      modifies retry
      ensures retry.writers == TopicsAfter(old(retry.writers), m, a)
      ensures m.retryable && m.nextAttempt.Some? && 1 <= m.attempt <= old(|retry.writers|) && a.scheduleOk ==>
                var k, was := m.attempt - 1, old(retry.writers);
                && retry.writers == was[k := retry.writers[k]]
                && |retry.writers[k]| == |was[k]| + 1 && retry.writers[k][..|was[k]|] == was[k]
                && forall codec :: ReadsAsRetryOf(codec, retry.writers[k][|was[k]|], m)
      ensures !(m.retryable && m.nextAttempt.Some? && 1 <= m.attempt <= old(|retry.writers|) && a.scheduleOk) ==>
                retry.writers == old(retry.writers)
    {
      if m.retryable && m.nextAttempt.Some? {
        WireRetries(m);
        var next := m.nextAttempt.value;
        var dispatch := DispatchMessage(
          m.callId, m.campaignId, m.phone, m.attempt + 1, m.maxAttempts,
          m.baseMs, m.maxMs, m.jitter, m.limit, m.metadata, next);
        var _ := retry.ScheduleRetry(m.attempt, RetryMessage(dispatch, m.maxAttempts, next), a.scheduleOk);
      }
    }

    /** One turn of the loop. Every error is logged and the next effect is tried all the same. */
    method Handle(m: StatusMessage, a: Answers)
      requires Sound(store.Contents())
      modifies store, stats, retry, this`committed
      ensures State() == Handled(old(State()), m, a)
      ensures Sound(store.Contents())
      ensures committed == old(committed) + if a.commitOk then 1 else 0
      ensures store.attempts == if a.appendOk
                                then old(store.attempts)[(m.callId, m.attempt) :=
                                       AttemptRow(m.status, m.error, m.occurredAt, m.durationMs)]
                                else old(store.attempts)
      ensures old(HasCall(store.Contents(), m.callId)) && a.updateWrites > 0 ==>
                var k := old(KeyOf(store.Contents(), m.callId));
                store.calls == old(store.calls)[k :=
                  CallRow(old(store.calls)[k].phone, m.status, m.attempt, if m.error == "" then None
                      else Some(m.error))]
    {
      Record(m, a);
      CountOutcome(m, a.applyOk);
      SendRetry(m, a);
      Commit(a.commitOk);
    }

    /** The call store's part of a turn. */
    method Record(m: StatusMessage, a: Answers)
      requires Sound(store.Contents())
      modifies store
      ensures store.Contents() == TablesAfter(old(store.Contents()), m, a) && Sound(store.Contents())
      ensures store.attempts == LogAfter(old(store.attempts), m, a)
      ensures store.attempts == if a.appendOk
                                then old(store.attempts)[(m.callId, m.attempt) :=
                                       AttemptRow(m.status, m.error, m.occurredAt, m.durationMs)]
                                else old(store.attempts)
      ensures old(HasCall(store.Contents(), m.callId)) && a.updateWrites > 0 ==>
                var k := old(KeyOf(store.Contents(), m.callId));
                store.calls == old(store.calls)[k :=
                  CallRow(old(store.calls)[k].phone, m.status, m.attempt, if m.error == "" then None
                      else Some(m.error))]
    {
      if HasCall(store.Contents(), m.callId) {
        UpdateKeepsSound(store.Contents(), KeyOf(store.Contents(), m.callId), m.status, m.attempt,
                         OptionalString(m.error), a.now, a.updateWrites);
      }
      var _ := store.UpdateCallStatus(m.callId, m.status, m.attempt, OptionalString(m.error), a.now, a.updateWrites);
      var _ := store.AppendAttempt(m.callId, m.attempt, AttemptRow(m.status, m.error, m.occurredAt, m.durationMs),
                                   a.appendOk);
    }

    method Commit(ok: bool)
      modifies this`committed
      ensures committed == old(committed) + if ok then 1 else 0
    {
      if ok {
        committed := committed + 1;
      }
    }

    /** The loop, for as long as it runs. */
    method Run(inbox: seq<Fetch>, answers: seq<Answers>)
      requires |inbox| == |answers| && Sound(store.Contents())
      modifies store, stats, retry, this`committed
      ensures State() == HandledAll(old(State()), inbox, answers)
      ensures committed == old(committed) + Commits(inbox, answers)
      ensures (forall i :: 0 <= i < |inbox| ==> !inbox[i].FetchFailed? && answers[i].commitOk) ==>
                committed == old(committed) + |inbox|
      ensures (forall i :: 0 <= i < |inbox| ==> inbox[i].FetchFailed? || !answers[i].commitOk) ==>
                committed == old(committed)
    {
      AllOrNoneCommitted(inbox, answers);
      for i := 0 to |inbox|
        invariant Sound(store.Contents())
        invariant State() == HandledAll(old(State()), inbox[..i], answers[..i])
        invariant committed == old(committed) + Commits(inbox[..i], answers[..i])
      {
        assert inbox[..i + 1][..i] == inbox[..i] && answers[..i + 1][..i] == answers[..i];
        match inbox[i] {
          case FetchFailed =>
          case Undecodable => Commit(answers[i].commitOk);
          case Got(m) => Handle(m, answers[i]);
        }
      }
      assert inbox[..|inbox|] == inbox && answers[..|inbox|] == answers;
    }
  }

  // ---------- Refinement ----------

  /** The call tables hold the pipeline's records. Whether the index agrees is CallStore's business. */
  ghost predicate MirrorsCalls(t: Tables, calls: map<CallId, P.CallRecord>) {
    Sound(t) && Represents(t, calls)
  }

  ghost predicate MirrorsLog(rows: map<(CallId, int), AttemptRow>, attempts: map<CallId, map<int, StatusMessage>>) {
    && (forall c: CallId, j: int :: (c, j) in rows <==> j in RowsIn(attempts, c))
    && (forall c: CallId, j: int :: (c, j) in rows ==> rows[(c, j)] == AttemptRowOf(RowsIn(attempts, c)[j]))
  }

  function RowsIn(attempts: map<CallId, map<int, StatusMessage>>, c: CallId): map<int, StatusMessage> {
    if c in attempts then attempts[c] else map[]
  }

  /** The databases hold what a pipeline state says. Topics are compared message by message below. */
  ghost predicate Mirrors(db: Databases, s: P.System) {
    MirrorsCalls(db.tables, s.calls) && MirrorsLog(db.attempts, s.attempts) && db.stats == s.stats
  }

  // The pipeline steps of one turn of the loop, with what failed in it.

  function Updating(m: StatusMessage, a: Answers): P.Step {
    PR.Skipping(P.UpdateCall(m), a.updateWrites == 0)
  }

  function Logging(m: StatusMessage, a: Answers): P.Step {
    PR.Skipping(P.LogAttempt(m), !a.appendOk)
  }

  function Counting(m: StatusMessage, a: Answers): P.Step {
    PR.Skipping(P.CountOutcome(m), !a.applyOk)
  }

  function Settling(cfg: P.Config, m: StatusMessage, a: Answers): P.Step {
    PR.Losing(P.Settle(m), WantsRetry(m) && P.HasTopic(cfg.topics, m.attempt) && !a.scheduleOk)
  }

  /** A message that is not committed is delivered again, or passed over by a later commit. */
  function Turn(cfg: P.Config, m: StatusMessage, a: Answers, again: bool): seq<P.Step> {
    [PR.Fetching(P.FetchStatus(m), !a.commitOk && again), Updating(m, a)]
    + [Logging(m, a), Counting(m, a), Settling(cfg, m, a)]
  }

  /** What a turn makes of the pipeline's copies of the databases. */
  ghost predicate Written(s: P.System, m: StatusMessage, a: Answers, s': P.System) {
    && s'.origin == s.origin && s'.compensated == s.compensated
    && s'.calls == (if a.updateWrites == 0 then s.calls else P.CallsAfter(s.calls, P.UpdateCall(m)))
    && s'.attempts == (if a.appendOk then P.AttemptsAfter(s.attempts, P.LogAttempt(m)) else s.attempts)
    && s'.stats == (if a.applyOk then AfterOutcome(s.stats, m) else s.stats)
  }

  /** A turn is a run of five steps that takes the message out of the status topic and settles its call. */
  lemma TurnIsRun(cfg: P.Config, s: P.System, m: StatusMessage, a: Answers, again: bool) returns (s': P.System)
    requires P.InStatusTopic(m) in s.tokens
    ensures PR.Runs(cfg, s, Turn(cfg, m, a, again), s') && Written(s, m, a, s')
    ensures s'.tokens == PR.Rest(s, P.InStatusTopic(m), !a.commitOk && again) + PR.InFlight(cfg, Settling(cfg, m, a))
    ensures s'.archive == s.archive + PR.Archived(cfg, Settling(cfg, m, a))
  {
    var fetch := PR.Fetching(P.FetchStatus(m), !a.commitOk && again);
    s' := PR.FiveHops(cfg, s, fetch, Updating(m, a), Logging(m, a), Counting(m, a), Settling(cfg, m, a));
    TurnWrites(cfg, s, m, a, fetch.fault.kept);
  }

  /** Each of the three databases is written by one of the five steps. */
  lemma TurnWrites(cfg: P.Config, s: P.System, m: StatusMessage, a: Answers, kept: bool)
    ensures var p, q, r := PR.Fetching(P.FetchStatus(m), kept), Updating(m, a), Logging(m, a);
      var u, v := Counting(m, a), Settling(cfg, m, a);
      && PR.CallsOf(PR.CallsOf(PR.CallsOf(PR.CallsOf(PR.CallsOf(s.calls, p), q), r), u), v)
         == (if a.updateWrites == 0 then s.calls else P.CallsAfter(s.calls, P.UpdateCall(m)))
      && PR.AttemptsOf(PR.AttemptsOf(PR.AttemptsOf(PR.AttemptsOf(PR.AttemptsOf(s.attempts, p), q), r), u), v)
         == (if a.appendOk then P.AttemptsAfter(s.attempts, P.LogAttempt(m)) else s.attempts)
      && PR.StatsOf(PR.StatsOf(PR.StatsOf(PR.StatsOf(PR.StatsOf(s.stats, p), q), r), u), v)
         == (if a.applyOk then AfterOutcome(s.stats, m) else s.stats)
  {
  }

  lemma CallsStayMirrored(t: Tables, calls: map<CallId, P.CallRecord>, m: StatusMessage, a: Answers)
    requires MirrorsCalls(t, calls)
    ensures MirrorsCalls(TablesAfter(t, m, a),
                         if a.updateWrites == 0 then calls else P.CallsAfter(calls, P.UpdateCall(m)))
  {
    if HasCall(t, m.callId) {
      var k := KeyOf(t, m.callId);
      UpdateKeepsSound(t, k, m.status, m.attempt, OptionalString(m.error), a.now, a.updateWrites);
      if a.updateWrites > 0 {
        UpdateRefines(t, calls, m, OptionalString(m.error), a.now, a.updateWrites);
      } else {
        NothingWritten(t, UpdateWrites(Loaded(k, t.calls[k]), m.status, m.attempt, OptionalString(m.error), a.now));
      }
    }
  }

  lemma NothingWritten(t: Tables, ws: seq<Write>)
    ensures Prefix(t, ws, 0) == t
  {
    assert ws[..0] == [];
  }

  lemma LogStaysMirrored(rows: map<(CallId, int), AttemptRow>, attempts: map<CallId, map<int, StatusMessage>>,
                         m: StatusMessage, a: Answers)
    requires MirrorsLog(rows, attempts)
    ensures MirrorsLog(LogAfter(rows, m, a),
                       if a.appendOk then P.AttemptsAfter(attempts, P.LogAttempt(m)) else attempts)
  {
    var rows' := LogAfter(rows, m, a);
    var attempts' := if a.appendOk then P.AttemptsAfter(attempts, P.LogAttempt(m)) else attempts;
    forall c: CallId, j: int
      ensures (c, j) in rows' <==> j in RowsIn(attempts', c)
      ensures (c, j) in rows' ==> rows'[(c, j)] == AttemptRowOf(RowsIn(attempts', c)[j])
    {
      assert RowsIn(attempts', c) == if c == m.callId && a.appendOk then RowsIn(attempts, c)[m.attempt := m]
                                     else RowsIn(attempts, c);
    }
  }

  lemma HandlingKeepsMirror(s: P.System, s': P.System, db: Databases, m: StatusMessage, a: Answers)
    requires Mirrors(db, s) && Written(s, m, a, s')
    ensures Mirrors(Handled(db, m, a), s')
  {
    CallsStayMirrored(db.tables, s.calls, m, a);
    LogStaysMirrored(db.attempts, s.attempts, m, a);
  }

  /** Whatever fails in a turn, the code and the pipeline's steps do the same to the call tables, the attempt log and
      the counters; and the message leaves the status topic exactly if it is committed (or passed over). */
  lemma HandlingRefines(cfg: P.Config, s: P.System, db: Databases, m: StatusMessage, a: Answers, again: bool)
    requires Mirrors(db, s) && P.InStatusTopic(m) in s.tokens
    ensures var s' := P.After(cfg, s, Turn(cfg, m, a, again));
      && P.FaultyRun(cfg, s, Turn(cfg, m, a, again))
      && Mirrors(Handled(db, m, a), s')
      && s'.tokens == PR.Rest(s, P.InStatusTopic(m), !a.commitOk && again) + PR.InFlight(cfg, Settling(cfg, m, a))
      && s'.archive == s.archive + PR.Archived(cfg, Settling(cfg, m, a))
  {
    var s' := TurnIsRun(cfg, s, m, a, again);
    HandlingKeepsMirror(s, s', db, m, a);
  }

  // ---------- The whole loop ----------

  /** The messages of an inbox, in the status topic. */
  function Pile(inbox: seq<Fetch>): multiset<P.Token>
    decreases |inbox|
  {
    if inbox == [] then multiset{}
    else
      var last := inbox[|inbox| - 1];
      Pile(inbox[..|inbox| - 1]) + if last.Got? then multiset{P.InStatusTopic(last.m)} else multiset{}
  }

  /** What all turns make of one message: whether it leaves the status topic, the retry it parks, the call it ends. */
  datatype Traffic = Traffic(gone: multiset<P.Token>, parked: seq<P.Token>, ended: multiset<P.Token>)

  function ParkedBy(cfg: P.Config, m: StatusMessage, a: Answers): seq<P.Token> {
    var out := P.Target(cfg, P.Settle(m));
    if out.InRetryTopic? && a.scheduleOk then [out] else []
  }

  function Turned(cfg: P.Config, t: Traffic, m: StatusMessage, a: Answers, again: bool): Traffic {
    Traffic(t.gone + (if !a.commitOk && again then multiset{} else multiset{P.InStatusTopic(m)}),
            t.parked + ParkedBy(cfg, m, a),
            t.ended + PR.Archived(cfg, Settling(cfg, m, a)))
  }

  function TrafficOf(cfg: P.Config, inbox: seq<Fetch>, answers: seq<Answers>, again: bool): Traffic
    requires |inbox| == |answers|
    decreases |inbox|
  {
    if inbox == [] then Traffic(multiset{}, [], multiset{})
    else
      var before := TrafficOf(cfg, inbox[..|inbox| - 1], answers[..|inbox| - 1], again);
      if inbox[|inbox| - 1].Got? then Turned(cfg, before, inbox[|inbox| - 1].m, answers[|inbox| - 1], again) else before
  }

  /** Parked retries, appended to their topics as they are on the wire. */
  function Appended(topics: seq<seq<Record>>, parked: seq<P.Token>): (r: seq<seq<Record>>)
    ensures |r| == |topics|
    decreases |parked|
  {
    if parked == [] then topics
    else
      var before, t := Appended(topics, parked[..|parked| - 1]), parked[|parked| - 1];
      if t.InRetryTopic? && 1 <= t.topic <= |before|
      then before[t.topic - 1 := before[t.topic - 1] + [EncodeRetry(t.r)]] else before
  }

  lemma ParkedIsInFlight(cfg: P.Config, m: StatusMessage, a: Answers)
    ensures PR.InFlight(cfg, Settling(cfg, m, a)) == multiset(ParkedBy(cfg, m, a))
  {
  }

  lemma ParkedIsAppended(cfg: P.Config, topics: seq<seq<Record>>, parked: seq<P.Token>, m: StatusMessage, a: Answers)
    requires |topics| == cfg.topics
    ensures Appended(topics, parked + ParkedBy(cfg, m, a)) == TopicsAfter(Appended(topics, parked), m, a)
  {
    var out := ParkedBy(cfg, m, a);
    if out == [] {
      assert parked + out == parked;
    } else {
      assert (parked + out)[..|parked + out| - 1] == parked;
    }
  }

  /** Where a run of turns has come: the databases and topics are as in `db`, the tokens have moved as in `t`. */
  ghost predicate Worked(cfg: P.Config, s: P.System, topics: seq<seq<Record>>, t: Traffic, db: Databases,
                         s': P.System) {
    && Mirrors(db, s') && db.topics == Appended(topics, t.parked)
    && s'.tokens == s.tokens - t.gone + multiset(t.parked) && s'.archive == s.archive + t.ended
  }

  lemma OneMoreTurn(cfg: P.Config, s: P.System, mid: P.System, topics: seq<seq<Record>>, t: Traffic,
                    before: seq<P.Step>, db: Databases, m: StatusMessage, a: Answers, again: bool)
    returns (s': P.System)
    requires |topics| == cfg.topics && PR.Runs(cfg, s, before, mid) && Worked(cfg, s, topics, t, db, mid)
    requires t.gone + multiset{P.InStatusTopic(m)} <= s.tokens
    ensures PR.Runs(cfg, s, before + Turn(cfg, m, a, again), s')
    ensures Worked(cfg, s, topics, Turned(cfg, t, m, a, again), Handled(db, m, a), s')
  {
    var parked := ParkedBy(cfg, m, a);
    PR.Exchange(s.tokens, t.gone, multiset(t.parked), P.InStatusTopic(m), multiset(parked));
    s' := TurnIsRun(cfg, mid, m, a, again);
    HandlingKeepsMirror(mid, s', db, m, a);
    PR.Join(cfg, s, before, mid, Turn(cfg, m, a, again), s');
    ParkedIsInFlight(cfg, m, a);
    ParkedIsAppended(cfg, topics, t.parked, m, a);
    assert multiset(t.parked + parked) == multiset(t.parked) + multiset(parked);
  }

  lemma {:induction false} GoneIsPart(cfg: P.Config, inbox: seq<Fetch>, answers: seq<Answers>, again: bool)
    requires |inbox| == |answers|
    ensures TrafficOf(cfg, inbox, answers, again).gone <= Pile(inbox)
    decreases |inbox|
  {
    if inbox != [] {
      GoneIsPart(cfg, inbox[..|inbox| - 1], answers[..|inbox| - 1], again);
    }
  }

  /** The whole loop is a run of the pipeline to a state that the databases mirror. The committed (or passed-over)
      messages have left the status topic, exactly the parked retries are in the pipeline's retry topics and, encoded
      and in order, in the real ones, and exactly the calls settled without a retry have ended. */
  lemma {:induction false} InboxRefines(cfg: P.Config, s: P.System, db: Databases, inbox: seq<Fetch>,
                                        answers: seq<Answers>, again: bool)
    returns (run: seq<P.Step>, s': P.System)
    requires Mirrors(db, s) && |db.topics| == cfg.topics && |inbox| == |answers| && Pile(inbox) <= s.tokens
    ensures PR.Runs(cfg, s, run, s')
    ensures Worked(cfg, s, db.topics, TrafficOf(cfg, inbox, answers, again), HandledAll(db, inbox, answers), s')
    decreases |inbox|
  {
    if inbox == [] {
      run, s' := [], s;
      assert s.tokens - multiset{} + multiset([]) == s.tokens;
    } else {
      var n := |inbox| - 1;
      run, s' := InboxRefines(cfg, s, db, inbox[..n], answers[..n], again);
      if inbox[n].Got? {
        var before, mid := run, s';
        GoneIsPart(cfg, inbox[..n], answers[..n], again);
        s' := OneMoreTurn(cfg, s, mid, db.topics, TrafficOf(cfg, inbox[..n], answers[..n], again), before,
                          HandledAll(db, inbox[..n], answers[..n]), inbox[n].m, answers[n], again);
        run := before + Turn(cfg, inbox[n].m, answers[n], again);
      }
    }
  }

  /** The turn is a clean run exactly if the record was written, log, counters and commit succeeded, and the retry
      was taken if there was one to send. */
  lemma CleanTurnExactly(cfg: P.Config, s: P.System, m: StatusMessage, a: Answers)
    requires P.InStatusTopic(m) in s.tokens
    ensures P.CleanRun(cfg, s, Turn(cfg, m, a, true))
       <==> a.updateWrites > 0 && a.appendOk && a.applyOk && a.commitOk
            && (WantsRetry(m) && P.HasTopic(cfg.topics, m.attempt) ==> a.scheduleOk)
  {
    var _ := TurnIsRun(cfg, s, m, a, true);
    var run := Turn(cfg, m, a, true);
    PR.CleanIsAllClean(cfg, s, run);
    PR.CleanOfFive(run[0], run[1], run[2], run[3], run[4]);
  }

  /** The retry that the pipeline parks in topic k is the record that is appended to topic k, and the retry
      worker reads it back as the pipeline delivers it. If the pipeline parks none, no topic changes. */
  lemma HandlingParksRetry(cfg: P.Config, topics: seq<seq<Record>>, m: StatusMessage, a: Answers)
    requires |topics| == cfg.topics
    ensures var out, topics' := P.Target(cfg, P.Settle(m)), TopicsAfter(topics, m, a);
      if PR.InFlight(cfg, Settling(cfg, m, a)) == multiset{} then topics' == topics
      else
        && PR.InFlight(cfg, Settling(cfg, m, a)) == multiset{out} && out.InRetryTopic? && 1 <= out.topic <= |topics|
        && topics' == topics[out.topic - 1 := topics[out.topic - 1] + [EncodeRetry(out.r)]]
        && DecodeRetry(cfg.codec, EncodeRetry(out.r)) == Some(P.Target(cfg, P.FetchRetry(out.topic, out.r)).r)
  {
    var out := P.Target(cfg, P.Settle(m));
    if out.InRetryTopic? {
      RetryHop(cfg.codec, out.r);
    }
  }
}
