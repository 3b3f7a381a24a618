/** What clean runs of the pipeline guarantee, read off the invariant of PipelineClean. */
module PipelineTheorems {
  import opened Messages
  import opened Pipeline
  import opened PipelineFaulty
  import opened Gauges
  import opened PipelineClean

  // ---------- One token a call ----------

  /** Each triggered call is in exactly one place: in flight or, once ended, archived. */
  lemma {:induction false} OneTokenPerCall(cfg: Config, s: System, run: seq<Step>, c: CallId)
    requires Init(s) && CleanRun(cfg, s, run)
    ensures var s' := After(cfg, s, run);
      && Total(Of(c), s'.tokens) + Total(Of(c), s'.archive) == (if c in s'.origin then 1 else 0)
      && (forall t :: t in s'.tokens ==> !t.Ended())
      && (forall t :: t in s'.archive ==> t.Ended())
  {
    CleanRunReaches(cfg, s, run);
    var s' := After(cfg, s, run);
    TotalSplit(Of(c), s'.tokens, s'.archive);
  }

  /** The token of a call, wherever it is. */
  lemma TokenOfCall(cfg: Config, s: System, c: CallId) returns (t: Token)
    requires CleanInv(cfg, s) && c in s.origin
    ensures t in All(s) && t.Call() == c
    ensures forall u :: u in All(s) && u.Call() == c ==> u == t
  {
    t := SomeOf(All(s), c);
    forall u | u in All(s) && u.Call() == c ensures u == t {
      OneOf(All(s), t, u);
    }
  }

  /** What an ended call leaves behind: no attempt, a final outcome, or a failure no topic takes. */
  lemma EndedCallSays(cfg: Config, s: System, run: seq<Step>, t: Token)
    requires Init(s) && CleanRun(cfg, s, run)
    requires t in After(cfg, s, run).archive
    ensures var s' := After(cfg, s, run);
      var c := t.Call();
      && c in s'.calls
      && match t
         case Refused(_) => (forall j :: j !in Rows(s', c)) && s'.calls[c] == CallRecord(Queued, 0)
         case Closed(m) =>
           && m.attempt in Rows(s', c) && Rows(s', c)[m.attempt] == m && !m.retryable
           && (forall j :: j in Rows(s', c) ==> j <= m.attempt)
           && s'.calls[c] == CallRecord(m.status, m.attempt)
         case Stranded(m) =>
           && m.attempt in Rows(s', c) && Rows(s', c)[m.attempt] == m
           && m.status == Failed && m.retryable && cfg.topics < m.attempt
           && s'.calls[c] == CallRecord(Failed, m.attempt)
         case _ => false
  {
    CleanRunReaches(cfg, s, run);
    var s' := After(cfg, s, run);
    assert t in All(s') && Tidy(s', t) && t.Ended();
    assert TokenOk(cfg, s'.origin[t.Call()], t);
  }

  /** The call of an archived token is as it was. */
  ghost predicate EndKept(s: System, s': System, t: Token) {
    && t in s.archive && t in s'.archive
    && Rows(s', t.Call()) == Rows(s, t.Call())
    && t.Call() in s.calls && t.Call() in s'.calls && s'.calls[t.Call()] == s.calls[t.Call()]
  }

  lemma StepsFromAnotherCall(cfg: Config, s: System, p: Step, t: Token)
    requires CleanInv(cfg, s) && CleanStep(p) && Enabled(cfg, s, p.event) && t in s.archive
    ensures Target(cfg, p.event).Call() != t.Call()
    ensures !p.event.Register? ==> Source(p.event).Call() != t.Call()
  {
    var e := p.event;
    assert t in All(s);
    if !e.Register? {
      StepMovesOne(cfg, s, p);
      StepKeepsTokenOk(cfg, s.origin[Source(e).Call()], e);
      assert !Source(e).Ended();
      if Source(e).Call() == t.Call() {
        OneOf(All(s), Source(e), t);
      }
    }
  }

  lemma OtherRecordsKept(cfg: Config, calls: map<CallId, CallRecord>, e: Event, c: CallId)
    requires c in calls && Target(cfg, e).Call() != c
    requires !e.Register? ==> Source(e).Call() != c
    ensures c in CallsAfter(calls, e) && CallsAfter(calls, e)[c] == calls[c]
  {
  }

  lemma ArchiveGrows(cfg: Config, s: System, p: Step)
    ensures s.archive <= Apply(cfg, s, p).archive
  {
  }

  lemma StepKeepsEnded(cfg: Config, s: System, p: Step, t: Token)
    requires CleanInv(cfg, s) && CleanStep(p) && Enabled(cfg, s, p.event) && t in s.archive
    ensures EndKept(s, Apply(cfg, s, p), t)
  {
    EndKeptHere(cfg, s, t);
    StepsFromAnotherCall(cfg, s, p, t);
    EndedRowsKept(cfg, s, p, t);
    EndedRecordKept(cfg, s, p, t);
    ArchiveGrows(cfg, s, p);
  }

  lemma EndedRowsKept(cfg: Config, s: System, p: Step, t: Token)
    requires !p.event.Register? ==> Source(p.event).Call() != t.Call()
    requires CleanStep(p) && Target(cfg, p.event).Call() != t.Call()
    ensures Rows(Apply(cfg, s, p), t.Call()) == Rows(s, t.Call())
  {
    RowsOfStep(cfg, s, p, t.Call());
  }

  lemma EndedRecordKept(cfg: Config, s: System, p: Step, t: Token)
    requires CleanStep(p) && Target(cfg, p.event).Call() != t.Call() && t.Call() in s.calls
    requires !p.event.Register? ==> Source(p.event).Call() != t.Call()
    ensures var s' := Apply(cfg, s, p); t.Call() in s'.calls && s'.calls[t.Call()] == s.calls[t.Call()]
  {
    RecordOfStep(cfg, s, p);
    OtherRecordsKept(cfg, s.calls, p.event, t.Call());
  }

  lemma EndKeptTrans(s: System, mid: System, s': System, t: Token)
    requires EndKept(s, mid, t) && EndKept(mid, s', t)
    ensures EndKept(s, s', t)
  {
  }

  lemma EndKeptHere(cfg: Config, s: System, t: Token)
    requires CleanInv(cfg, s) && t in s.archive
    ensures EndKept(s, s, t)
  {
    assert t in All(s) && Tidy(s, t);
  }

  /** Nothing follows the end of a call: no message, no row, no change of its record. */
  lemma {:induction false} EndedStaysEnded(cfg: Config, s: System, run: seq<Step>, t: Token)
    requires CleanInv(cfg, s) && CleanRun(cfg, s, run) && t in s.archive
    ensures EndKept(s, After(cfg, s, run), t)
    decreases |run|
  {
    if run == [] {
      EndKeptHere(cfg, s, t);
    } else {
      var mid := Apply(cfg, s, run[0]);
      CleanRunTail(cfg, s, run);
      StepKeepsEnded(cfg, s, run[0], t);
      StepKeepsCleanInv(cfg, s, run[0]);
      EndedStaysEnded(cfg, mid, run[1..], t);
      EndKeptTrans(s, mid, After(cfg, mid, run[1..]), t);
    }
  }

  // ---------- The attempt log ----------

  /** Although topics are unordered, a call's rows are exactly 1..k, k within the cap; every row but the
      last is a retryable failure; and anything still to come follows such a failure. */
  lemma AttemptLogIsExact(cfg: Config, s: System, run: seq<Step>, c: CallId) returns (k: nat)
    requires Init(s) && CleanRun(cfg, s, run)
    requires c in After(cfg, s, run).origin
    ensures var s' := After(cfg, s, run);
      var rows := Rows(s', c);
      && k <= Cap(cfg.codec, s'.origin[c].maxAttempts)
      && (forall j :: j in rows <==> 1 <= j <= k)
      && (forall j :: 1 <= j < k ==> rows[j].status == Failed && rows[j].retryable)
      && (forall t :: t in s'.tokens && t.Call() == c ==>
            && k <= t.Attempt() <= k + 1
            && (t.Attempt() == k + 1 && k > 0 ==> rows[k].status == Failed && rows[k].retryable))
  {
    CleanRunReaches(cfg, s, run);
    var s' := After(cfg, s, run);
    var t := TokenOfCall(cfg, s', c);
    assert Tidy(s', t) && TokenOk(cfg, s'.origin[c], t);
    k := RowCount(t);
    assert forall u :: u in s'.tokens && u.Call() == c ==> u == t;
  }

  // ---------- Retry routing ----------

  /** With a retry topic for every attempt but the last, no call is ever stranded. */
  lemma EnoughTopicsStrandNone(cfg: Config, s: System, run: seq<Step>, t: Token)
    requires Init(s) && FaultyRun(cfg, s, run)
    requires t in All(After(cfg, s, run))
    requires t.Call() in After(cfg, s, run).origin ==> After(cfg, s, run).origin[t.Call()].maxAttempts - 1 <= cfg.topics
    ensures !t.Stranded?
  {
    InitIsFaulty(cfg, s);
    FaultyRunKeepsInv(cfg, s, run);
  }

  /** Settling a message strands its call exactly when it wants a retry beyond the last topic. */
  lemma StrandedExactly(cfg: Config, first: DispatchMessage, m: StatusMessage)
    requires TokenOk(cfg, first, Recording(m, Counted))
    ensures Target(cfg, Settle(m)).Stranded? <==> m.retryable && cfg.topics < m.attempt
    ensures Target(cfg, Settle(m)).InRetryTopic? <==> m.retryable && m.attempt <= cfg.topics
  {
  }

  /** No attempt goes beyond the one that the last retry topic leads to. */
  ghost predicate WithinTopics(cfg: Config, s: System) {
    forall t :: t in All(s) ==> t.Attempt() <= cfg.topics + 1
  }

  lemma StepKeepsWithinTopics(cfg: Config, s: System, p: Step)
    requires WithinTopics(cfg, s) && TokensOk(cfg, s) && Enabled(cfg, s, p.event)
    ensures WithinTopics(cfg, Apply(cfg, s, p))
  {
    if !p.event.Register? {
      assert Source(p.event) in All(s);
      TargetWithinTopics(cfg, s.origin[Source(p.event).Call()], p.event);
    }
    forall t | t in All(Apply(cfg, s, p)) ensures t.Attempt() <= cfg.topics + 1 {
      if t != Target(cfg, p.event) {
        StepAddsAtMost(cfg, s, p, t);
      }
    }
  }

  lemma TargetWithinTopics(cfg: Config, first: DispatchMessage, e: Event)
    requires !e.Register? && TokenOk(cfg, first, Source(e)) && Source(e).Attempt() <= cfg.topics + 1
    ensures Target(cfg, e).Attempt() <= cfg.topics + 1
  {
  }

  lemma {:induction false} RunKeepsWithinTopics(cfg: Config, s: System, run: seq<Step>)
    requires WithinTopics(cfg, s) && TokensOk(cfg, s) && FaultyRun(cfg, s, run)
    ensures WithinTopics(cfg, After(cfg, s, run))
    decreases |run|
  {
    if run != [] {
      StepKeepsWithinTopics(cfg, s, run[0]);
      StepKeepsTokens(cfg, s, run[0]);
      RunKeepsWithinTopics(cfg, Apply(cfg, s, run[0]), run[1..]);
    }
  }

  lemma StuckAboveTopics(cfg: Config, s: System, t: Token, j: int)
    requires CleanInv(cfg, s) && WithinTopics(cfg, s) && t in All(s)
    requires j in Rows(s, t.Call()) && Rows(s, t.Call())[j].retryable && cfg.topics < j
    ensures t.Attempt() == j && (t.Stranded? || t.Recording?)
  {
    assert Tidy(s, t) && TokenOk(cfg, s.origin[t.Call()], t);
  }

  /** A call with a retryable failure at an attempt above the topic count is stranded, or a status worker is about
      to strand it; and no attempt goes further. */
  lemma RetryableAboveTopicsStrands(cfg: Config, s: System, run: seq<Step>, c: CallId, j: int)
    requires Init(s) && CleanRun(cfg, s, run) && c in After(cfg, s, run).origin
    requires j in Rows(After(cfg, s, run), c) && Rows(After(cfg, s, run), c)[j].retryable && cfg.topics < j
    ensures j == cfg.topics + 1
    ensures exists t :: t in All(After(cfg, s, run)) && t.Call() == c && (t.Stranded? || t.Recording?)
  {
    CleanRunReaches(cfg, s, run);
    InitIsFaulty(cfg, s);
    RunKeepsWithinTopics(cfg, s, run);
    var s' := After(cfg, s, run);
    var t := TokenOfCall(cfg, s', c);
    StuckAboveTopics(cfg, s', t, j);
  }

  // ---------- pending_calls ----------

  lemma OpenIsLive(cfg: Config, s: System, g: CampaignId)
    requires CleanInv(cfg, s)
    ensures Total(Open(g), s.tokens) == Total(LiveIn(g), s.tokens)
  {
    forall t | t in s.tokens ensures Weight(Open(g), t) == Weight(LiveIn(g), t) {
      assert t in All(s) && Tidy(s, t);
    }
    TotalAlike(Open(g), LiveIn(g), s.tokens);
  }

  lemma OpenIsStranded(cfg: Config, s: System, g: CampaignId)
    requires CleanInv(cfg, s)
    ensures Total(Open(g), s.archive) == Total(StrandedIn(g), s.archive)
  {
    forall t | t in s.archive ensures Weight(Open(g), t) == Weight(StrandedIn(g), t) {
      assert t in All(s) && Tidy(s, t) && TokenOk(cfg, s.origin[t.Call()], t);
    }
    TotalAlike(Open(g), StrandedIn(g), s.archive);
  }

  lemma PendingHere(cfg: Config, s: System, g: CampaignId)
    requires CleanInv(cfg, s) && g in s.stats
    ensures s.stats[g].pending == Total(LiveIn(g), s.tokens) + Total(StrandedIn(g), s.archive)
  {
    assert RowExact(s, g);
    TotalSplit(Open(g), s.tokens, s.archive);
    OpenIsLive(cfg, s, g);
    OpenIsStranded(cfg, s, g);
  }

  lemma NoneStrandedHere(cfg: Config, s: System, g: CampaignId)
    requires TokensOk(cfg, s)
    requires forall c :: c in s.origin ==> s.origin[c].maxAttempts - 1 <= cfg.topics
    ensures Total(StrandedIn(g), s.archive) == 0
  {
    forall t | t in s.archive ensures Weight(StrandedIn(g), t) == 0 {
      assert t in All(s) && TokenOk(cfg, s.origin[t.Call()], t);
    }
    TotalZero(StrandedIn(g), s.archive);
  }

  /** pending_calls is the number of live tokens plus the number of stranded calls, at every moment. */
  lemma PendingIsLivePlusStranded(cfg: Config, s: System, run: seq<Step>, g: CampaignId)
    requires Init(s) && CleanRun(cfg, s, run)
    requires g in After(cfg, s, run).stats
    ensures var s' := After(cfg, s, run);
      s'.stats[g].pending == Total(LiveIn(g), s'.tokens) + Total(StrandedIn(g), s'.archive)
  {
    CleanRunReaches(cfg, s, run);
    PendingHere(cfg, After(cfg, s, run), g);
  }

  /** Every call has a retry topic for each attempt but its last. */
  ghost predicate EnoughTopics(cfg: Config, s: System) {
    forall c :: c in s.origin ==> s.origin[c].maxAttempts - 1 <= cfg.topics
  }

  /** With enough retry topics for every call, pending_calls is the number of live tokens. */
  lemma PendingIsLive(cfg: Config, s: System, run: seq<Step>, g: CampaignId)
    requires Init(s) && CleanRun(cfg, s, run)
    requires g in After(cfg, s, run).stats && EnoughTopics(cfg, After(cfg, s, run))
    ensures After(cfg, s, run).stats[g].pending == Total(LiveIn(g), After(cfg, s, run).tokens)
  {
    CleanRunReaches(cfg, s, run);
    PendingHere(cfg, After(cfg, s, run), g);
    NoneStrandedHere(cfg, After(cfg, s, run), g);
  }
}
