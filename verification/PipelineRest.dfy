/** The counters and call records as a function of the attempt log: retries at every moment, the rest when
    nothing is in flight. */
module PipelineRest {
  import opened Messages
  import opened Statistics
  import opened Pipeline
  import opened PipelineFaulty
  import opened Gauges
  import opened PipelineClean
  import opened PipelineTheorems

  /** What the attempt log says one call should contribute to its campaign's counters. */
  function LogCounters(rows: map<int, StatusMessage>): Counters {
    var k := |rows|;
    if k == 0 || k !in rows then Counters(1, 0, 0, 0, 0, 0)
    else Counters(1,
                  if rows[k].status == Completed then 1 else 0,
                  if rows[k].status == Failed && !rows[k].retryable then 1 else 0,
                  0,
                  if rows[k].retryable then 1 else 0,
                  k - 1)
  }

  function CallShare(s: System, g: CampaignId, c: CallId): Counters {
    if c in s.origin && s.origin[c].campaignId == g then LogCounters(Rows(s, c)) else ZERO
  }

  ghost function PickCall(calls: set<CallId>): (c: CallId)
    requires calls != {}
    ensures c in calls
  {
    var c :| c in calls; c
  }

  /** The counters of a campaign recomputed from the attempt log. */
  ghost function FromLog(s: System, g: CampaignId, calls: set<CallId>): Counters
    decreases |calls|
  {
    if calls == {} then ZERO
    else Add(CallShare(s, g, PickCall(calls)), FromLog(s, g, calls - {PickCall(calls)}))
  }

  lemma {:induction false} FromLogTake(s: System, g: CampaignId, calls: set<CallId>, c: CallId)
    requires c in calls
    ensures FromLog(s, g, calls) == Add(CallShare(s, g, c), FromLog(s, g, calls - {c}))
    decreases |calls|
  {
    var d := PickCall(calls);
    if d != c {
      var withoutC, withoutD := calls - {c}, calls - {d};
      var rest := withoutC - {d};
      assert withoutD - {c} == rest;
      FromLogTake(s, g, withoutD, c);
      FromLogTake(s, g, withoutC, d);
      AddSwap(CallShare(s, g, c), CallShare(s, g, d), FromLog(s, g, rest));
    }
  }

  lemma AddSwap(a: Counters, b: Counters, c: Counters)
    ensures Add(a, Add(b, c)) == Add(b, Add(a, c))
  {
  }

  function Weights(t: Token, g: CampaignId): Counters {
    Counters(Weight(Triggered(g), t), Weight(Answered(g), t), Weight(GivenUp(g), t), 0,
             Weight(Open(g), t), Weight(Retried(g), t))
  }

  lemma ExactTake(b: multiset<Token>, t: Token, g: CampaignId)
    requires t in b
    ensures Exact(b, g) == Add(Weights(t, g), Exact(b - multiset{t}, g))
  {
    TotalTake(Triggered(g), b, t);
    TotalTake(Answered(g), b, t);
    TotalTake(GivenUp(g), b, t);
    TotalTake(Open(g), b, t);
    TotalTake(Retried(g), b, t);
  }

  /** A finite map whose keys are 1..k has k entries. */
  lemma {:induction false} CountKeys(rows: map<int, StatusMessage>, k: nat)
    requires forall j :: j in rows <==> 1 <= j <= k
    ensures |rows| == k
    decreases k
  {
    if k == 0 {
      assert forall j :: j !in rows;
      assert rows == map[];
    } else {
      var fewer := rows - {k};
      CountKeys(fewer, k - 1);
      assert rows.Keys == fewer.Keys + {k};
    }
  }

  lemma EndedShare(cfg: Config, first: DispatchMessage, t: Token, g: CampaignId, rows: map<int, StatusMessage>)
    requires TokenOk(cfg, first, t) && t.Ended() && ContractKept(t) && LogAgrees(t, rows)
    ensures Weights(t, g) == if first.campaignId == g then LogCounters(rows) else ZERO
  {
    CountKeys(rows, RowCount(t));
  }

  /** An ended call weighs what its rows say. */
  lemma EndedWeighsItsLog(cfg: Config, s: System, t: Token, g: CampaignId)
    requires CleanInv(cfg, s) && t in s.archive
    ensures Weights(t, g) == CallShare(s, g, t.Call())
  {
    assert t in All(s);
    assert Tidy(s, t) && TokenOk(cfg, s.origin[t.Call()], t);
    EndedShare(cfg, s.origin[t.Call()], t, g, Rows(s, t.Call()));
  }

  /** The calls of the archived tokens of a bag. */
  ghost predicate CallsAre(b: multiset<Token>, calls: set<CallId>) {
    && (forall t :: t in b ==> t.Call() in calls)
    && (forall c :: c in calls ==> Total(Of(c), b) == 1)
  }

  lemma CallsAreTake(b: multiset<Token>, calls: set<CallId>, t: Token)
    requires CallsAre(b, calls) && t in b
    ensures CallsAre(b - multiset{t}, calls - {t.Call()})
  {
    var rest := b - multiset{t};
    forall u | u in rest ensures u.Call() in calls - {t.Call()} {
      if u.Call() == t.Call() {
        OneOf(b, t, u);
      }
    }
    forall c | c in calls - {t.Call()} ensures Total(Of(c), rest) == 1 {
      TotalTake(Of(c), b, t);
    }
  }

  lemma {:induction false} ArchiveMatchesLog(cfg: Config, s: System, b: multiset<Token>, calls: set<CallId>,
                                             g: CampaignId)
    requires CleanInv(cfg, s) && b <= s.archive && CallsAre(b, calls)
    ensures Exact(b, g) == FromLog(s, g, calls)
    decreases |b|
  {
    if b == multiset{} {
      forall c ensures c !in calls {
        assert Total(Of(c), b) == 0;
      }
    } else {
      var t :| t in b;
      assert t in s.archive;
      CallsAreTake(b, calls, t);
      ArchiveMatchesLog(cfg, s, b - multiset{t}, calls - {t.Call()}, g);
      ExactTake(b, t, g);
      FromLogTake(s, g, calls, t.Call());
      EndedWeighsItsLog(cfg, s, t, g);
    }
  }

  lemma RestingCalls(cfg: Config, s: System)
    requires CleanInv(cfg, s) && s.tokens == multiset{}
    ensures All(s) == s.archive && CallsAre(s.archive, s.origin.Keys)
  {
    assert All(s) == s.archive;
    forall t | t in s.archive ensures t.Call() in s.origin.Keys {
      assert t in All(s);
    }
    forall c | c in s.origin.Keys ensures Total(Of(c), s.archive) == 1 {
      assert c in s.origin;
    }
  }

  /** At rest every counter of a campaign is the one recomputed from the attempt log: total from the calls,
      completed and failed from each last row, pending from the stranded calls, retries from the row counts. */
  lemma AtRestCountersMatchLog(cfg: Config, s: System, run: seq<Step>, g: CampaignId)
    requires Init(s) && CleanRun(cfg, s, run)
    requires After(cfg, s, run).tokens == multiset{} && g in After(cfg, s, run).stats
    ensures var s' := After(cfg, s, run); s'.stats[g] == FromLog(s', g, s'.origin.Keys)
  {
    CleanRunReaches(cfg, s, run);
    var s' := After(cfg, s, run);
    RestingCalls(cfg, s');
    assert RowExact(s', g);
    ArchiveMatchesLog(cfg, s', s'.archive, s'.origin.Keys, g);
  }

  /** At rest, with enough retry topics, nothing is pending and every call not taken back is closed. */
  lemma AtRestAllClosed(cfg: Config, s: System, run: seq<Step>, g: CampaignId)
    requires Init(s) && CleanRun(cfg, s, run)
    requires After(cfg, s, run).tokens == multiset{} && g in After(cfg, s, run).stats
    requires EnoughTopics(cfg, After(cfg, s, run))
    ensures var s' := After(cfg, s, run);
      s'.stats[g].pending == 0
      && s'.stats[g].completed + s'.stats[g].failed == s'.stats[g].total - CompensatedFor(s', g)
  {
    PendingIsLive(cfg, s, run, g);
    var s' := After(cfg, s, run);
    TotalZero(LiveIn(g), s'.tokens);
    InitIsFaulty(cfg, s);
    FaultyRunKeepsInv(cfg, s, run);
    assert StatsBalanced(s') && Balanced(s'.stats[g], CompensatedFor(s', g));
  }

  /** At rest a call's record repeats its last row, or says that no attempt was made. */
  lemma AtRestRecordsMatchLog(cfg: Config, s: System, run: seq<Step>, c: CallId)
    requires Init(s) && CleanRun(cfg, s, run)
    requires After(cfg, s, run).tokens == multiset{} && c in After(cfg, s, run).origin
    ensures var s' := After(cfg, s, run);
      var k := |Rows(s', c)|;
      && c in s'.calls
      && (k > 0 ==> k in Rows(s', c))
      && s'.calls[c] == if k == 0 then CallRecord(Queued, 0) else CallRecord(Rows(s', c)[k].status, k)
  {
    CleanRunReaches(cfg, s, run);
    var s' := After(cfg, s, run);
    var t := TokenOfCall(cfg, s', c);
    assert t in s'.archive;
    assert Tidy(s', t) && t.Ended() && TokenOk(cfg, s'.origin[c], t);
    CountKeys(Rows(s', c), RowCount(t));
  }

  /** How an ended call ended can be read off its log: without rows its dispatch was refused; it is stranded exactly
      if its last row is retryable, and then that row's attempt is above the topic count. */
  lemma EndedByItsLog(cfg: Config, s: System, run: seq<Step>, t: Token)
    requires Init(s) && CleanRun(cfg, s, run) && t in After(cfg, s, run).archive
    ensures var rows := Rows(After(cfg, s, run), t.Call());
      var k := |rows|;
      && (t.Refused? <==> k == 0)
      && (k > 0 ==> k in rows && (t.Stranded? <==> rows[k].retryable)
                    && (rows[k].retryable ==> rows[k].status == Failed && cfg.topics < k))
  {
    CleanRunReaches(cfg, s, run);
    var s' := After(cfg, s, run);
    assert t in All(s');
    assert Tidy(s', t) && t.Ended() && TokenOk(cfg, s'.origin[t.Call()], t);
    CountKeys(Rows(s', t.Call()), RowCount(t));
  }

  // ---------- retries_attempted ----------

  lemma TokenRetries(cfg: Config, first: DispatchMessage, t: Token, g: CampaignId, rows: map<int, StatusMessage>)
    requires TokenOk(cfg, first, t) && LogAgrees(t, rows)
    ensures Weight(Retried(g), t) + Weight(RetryLogged(g), t) ==
              if first.campaignId == g then LogCounters(rows).retries else 0
  {
    CountKeys(rows, RowCount(t));
  }

  lemma {:induction false} RetriesOfBag(cfg: Config, s: System, b: multiset<Token>, calls: set<CallId>, g: CampaignId)
    requires CleanInv(cfg, s) && b <= All(s) && CallsAre(b, calls)
    ensures Total(Retried(g), b) + Total(RetryLogged(g), b) == FromLog(s, g, calls).retries
    decreases |b|
  {
    if b == multiset{} {
      forall c ensures c !in calls {
        assert Total(Of(c), b) == 0;
      }
    } else {
      var t :| t in b;
      assert t in All(s);
      CallsAreTake(b, calls, t);
      RetriesOfBag(cfg, s, b - multiset{t}, calls - {t.Call()}, g);
      TotalTake(Retried(g), b, t);
      TotalTake(RetryLogged(g), b, t);
      FromLogTake(s, g, calls, t.Call());
      assert Tidy(s, t);
      TokenRetries(cfg, s.origin[t.Call()], t, g, Rows(s, t.Call()));
    }
  }

  lemma EndedNotLogged(t: Token, g: CampaignId)
    requires t.Ended()
    ensures Weight(RetryLogged(g), t) == 0
  {
  }

  lemma NoRetryLoggedAtEnd(s: System, g: CampaignId)
    requires Sorted(s)
    ensures Total(RetryLogged(g), All(s)) == Total(RetryLogged(g), s.tokens)
  {
    TotalSplit(RetryLogged(g), s.tokens, s.archive);
    forall t | t in s.archive ensures Weight(RetryLogged(g), t) == 0 {
      EndedNotLogged(t, g);
    }
    TotalZero(RetryLogged(g), s.archive);
  }

  lemma AllCallsAre(cfg: Config, s: System)
    requires CleanInv(cfg, s)
    ensures CallsAre(All(s), s.origin.Keys)
  {
  }

  /** At every moment retries_attempted is the sum over the campaign's calls of their recorded attempts less one,
      but for the attempts that a status worker has logged and is about to count. */
  lemma {:induction false} RetriesMatchLog(cfg: Config, s: System, run: seq<Step>, g: CampaignId)
    requires Init(s) && CleanRun(cfg, s, run) && g in After(cfg, s, run).stats
    ensures var s' := After(cfg, s, run);
      s'.stats[g].retries + Total(RetryLogged(g), s'.tokens) == FromLog(s', g, s'.origin.Keys).retries
  {
    CleanRunReaches(cfg, s, run);
    var s' := After(cfg, s, run);
    AllCallsAre(cfg, s');
    RetriesOfBag(cfg, s', All(s'), s'.origin.Keys, g);
    NoRetryLoggedAtEnd(s', g);
    assert RowExact(s', g);
  }
}
