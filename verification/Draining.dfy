/**
 Runs of dispatching ticks of one campaign: how fast the waiting targets drain, and which of them never do.
 What fails may change from tick to tick.
 */
module Draining {
  import opened Wrappers
  import opened Messages
  import opened Targets
  import opened Scheduler

  /** Ticks of campaign g with batch size n: the tables before, between and after them, and what fails in each. */
  datatype Ticks = Ticks(ts: seq<Table>, fs: seq<set<TargetId>>, g: CampaignId, n: nat)

  /** One of them: the table before it, the table after it, and what fails. */
  datatype Tick = Tick(before: Table, after: Table, fails: set<TargetId>)

  function TickOf(r: Ticks, k: nat): Tick
    requires k < |r.fs| && |r.ts| == |r.fs| + 1
  {
    Tick(r.ts[k], r.ts[k + 1], r.fs[k])
  }

  ghost predicate AreTicks(r: Ticks) {
    && |r.ts| == |r.fs| + 1
    && forall k: nat {:trigger TickOf(r, k)} :: k < |r.fs| ==>
         DrainStep(TickOf(r, k).before, TickOf(r, k).after, r.g, r.n, TickOf(r, k).fails)
  }

  /** A run of dispatching ticks. */
  type Run = r: Ticks | AreTicks(r) ghost witness Ticks([map[]], [], 0, 0)

  function WaitingOf(t: Table, g: CampaignId): set<TargetId> {
    Matching(t, g, Some(Waiting))
  }

  // ---------- One tick ----------

  /** What a tick does to the waiting targets: those of a batch that do not fail are gone. */
  lemma StepTakesBatch(t: Table, t': Table, g: CampaignId, n: nat, batch: seq<TargetId>, a: Answers)
    requires OldestOf(t, WaitingOf(t, g), n, batch) && a.resetOk
    requires t' == AfterBatch(t, g, batch, a)
    ensures WaitingOf(t', g) == WaitingOf(t, g) - (Elements(batch) - a.fails)
    ensures Elements(batch) <= WaitingOf(t, g) && |Elements(batch)| == |batch|
  {
    DistinctSize(batch);
    forall k | 0 <= k < |batch| ensures batch[k] in t && t[batch[k]].campaignId == g {
      assert batch[k] in WaitingOf(t, g);
    }
    forall i ensures i in WaitingOf(t', g) <==> i in WaitingOf(t, g) - (Elements(batch) - a.fails) {
      if i in t {
        BatchEffect(t, g, batch, a, i);
      } else {
        assert i !in t';
      }
    }
  }

  lemma StepMeans(t: Table, t': Table, g: CampaignId, n: nat, fails: set<TargetId>) returns (batch: seq<TargetId>)
    requires DrainStep(t, t', g, n, fails)
    ensures OldestOf(t, WaitingOf(t, g), n, batch) && SameButState(t, t')
    ensures WaitingOf(t', g) == WaitingOf(t, g) - (Elements(batch) - fails)
    ensures Elements(batch) <= WaitingOf(t, g) && |Elements(batch)| == |batch|
  {
    var ids, at :| OldestOf(t, WaitingOf(t, g), n, ids)
      && t' == AfterBatch(t, g, ids, Answers(fails, true, true, true, at));
    batch := ids;
    StepTakesBatch(t, t', g, n, batch, Answers(fails, true, true, true, at));
    BatchKeepsRows(t, g, batch, Answers(fails, true, true, true, at));
  }

  /** And such a tick can be made of any n oldest. */
  lemma StepOf(t: Table, g: CampaignId, n: nat, batch: seq<TargetId>, fails: set<TargetId>) returns (t': Table)
    requires OldestOf(t, WaitingOf(t, g), n, batch)
    ensures DrainStep(t, t', g, n, fails) && SameButState(t, t')
    ensures WaitingOf(t', g) == WaitingOf(t, g) - (Elements(batch) - fails)
  {
    t' := AfterBatch(t, g, batch, Answers(fails, true, true, true, 0));
    StepTakesBatch(t, t', g, n, batch, Answers(fails, true, true, true, 0));
    BatchKeepsRows(t, g, batch, Answers(fails, true, true, true, 0));
  }

  /** A tick makes progress exactly when its batch has a target that does not fail. */
  lemma ProgressExactly(t: Table, t': Table, g: CampaignId, n: nat, batch: seq<TargetId>, a: Answers)
    requires OldestOf(t, WaitingOf(t, g), n, batch) && a.resetOk
    requires t' == AfterBatch(t, g, batch, a)
    ensures WaitingOf(t', g) <= WaitingOf(t, g)
    ensures WaitingOf(t', g) != WaitingOf(t, g) <==> exists k :: 0 <= k < |batch| && batch[k] !in a.fails
  {
    StepTakesBatch(t, t', g, n, batch, a);
    if k :| 0 <= k < |batch| && batch[k] !in a.fails {
      assert batch[k] in Elements(batch) - a.fails;
      assert batch[k] in WaitingOf(t, g) && batch[k] !in WaitingOf(t', g);
    } else {
      assert Elements(batch) - a.fails == {};
    }
  }

  lemma SameTrans(a: Table, b: Table, c: Table)
    requires SameButState(a, b) && SameButState(b, c)
    ensures SameButState(a, c)
  {
  }

  /** Over a run the targets stay, and waiting ones only become fewer. */
  lemma {:induction false} RunKeepsRows(r: Run, k: nat)
    requires k < |r.ts|
    ensures SameButState(r.ts[0], r.ts[k]) && WaitingOf(r.ts[k], r.g) <= WaitingOf(r.ts[0], r.g)
    decreases k
  {
    if k > 0 {
      RunKeepsRows(r, k - 1);
      StepAt(r, k - 1);
      var _ := StepMeans(r.ts[k - 1], r.ts[k], r.g, r.n, r.fs[k - 1]);
      SameTrans(r.ts[0], r.ts[k - 1], r.ts[k]);
    }
  }

  lemma StepAt(r: Run, j: nat)
    requires j < |r.fs|
    ensures DrainStep(r.ts[j], r.ts[j + 1], r.g, r.n, r.fs[j])
  {
    assert TickOf(r, j) == Tick(r.ts[j], r.ts[j + 1], r.fs[j]);
  }

  // ---------- No failures ----------

  function AtLeastZero(x: int): nat {
    if x < 0 then 0 else x
  }

  /** What is left of w after k ticks of at least m each. */
  function Remaining(w: nat, m: int, k: nat): nat {
    if k == 0 then w else AtLeastZero(Remaining(w, m, k - 1) - m)
  }

  lemma {:induction false} RemainingIs(w: nat, m: nat, k: nat)
    ensures Remaining(w, m, k) == AtLeastZero(w - k * m)
  {
    if k > 0 {
      RemainingIs(w, m, k - 1);
      assert k * m == (k - 1) * m + m;
    }
  }

  predicate NothingFails(fs: seq<set<TargetId>>) {
    forall k :: 0 <= k < |fs| ==> fs[k] == {}
  }

  /** If no trigger fails, each dispatching tick takes a full batch or all that is left. */
  lemma StepDrains(t: Table, t': Table, g: CampaignId, n: nat)
    requires DrainStep(t, t', g, n, {})
    ensures |WaitingOf(t', g)| == if |WaitingOf(t, g)| <= n then 0 else |WaitingOf(t, g)| - n
  {
    var batch := StepMeans(t, t', g, n, {});
    assert Elements(batch) - {} == Elements(batch);
    SizeOfRest(WaitingOf(t, g), Elements(batch));
  }

  lemma {:induction false} DrainsTickByTick(r: Run, k: nat)
    requires NothingFails(r.fs) && k < |r.ts|
    ensures |WaitingOf(r.ts[k], r.g)| == Remaining(|WaitingOf(r.ts[0], r.g)|, r.n, k)
    decreases k
  {
    if k > 0 {
      DrainsTickByTick(r, k - 1);
      StepAt(r, k - 1);
      StepDrains(r.ts[k - 1], r.ts[k], r.g, r.n);
    }
  }

  /** After k dispatching ticks without failures, k batches are gone. */
  lemma DrainsBatchByBatch(r: Run, k: nat)
    requires NothingFails(r.fs) && k < |r.ts|
    ensures |WaitingOf(r.ts[k], r.g)| == AtLeastZero(|WaitingOf(r.ts[0], r.g)| - k * r.n)
  {
    DrainsTickByTick(r, k);
    RemainingIs(|WaitingOf(r.ts[0], r.g)|, r.n, k);
  }

  /** So w waiting targets are drained after k ticks exactly when k is at least w / n rounded up. */
  lemma DrainedExactly(r: Run, k: nat)
    requires NothingFails(r.fs) && k < |r.ts| && r.n > 0
    ensures WaitingOf(r.ts[k], r.g) == {} <==> (|WaitingOf(r.ts[0], r.g)| + r.n - 1) / r.n <= k
  {
    DrainsBatchByBatch(r, k);
    var w := |WaitingOf(r.ts[0], r.g)|;
    RoundedUp(w, r.n, k);
    if |WaitingOf(r.ts[k], r.g)| == 0 {
      assert WaitingOf(r.ts[k], r.g) == {};
    }
  }

  lemma RoundedUp(w: nat, n: nat, k: nat)
    requires n > 0
    ensures w <= k * n <==> (w + n - 1) / n <= k
  {
    var q := (w + n - 1) / n;
    assert q * n <= w + n - 1 < q * n + n;
    if q <= k {
      assert q * n <= k * n;
    } else {
      assert (k + 1) * n <= q * n;
    }
  }

  // ---------- Who gets through ----------

  /** A target with n failing ones ahead of it is not taken. */
  lemma StepStarves(t: Table, t': Table, g: CampaignId, n: nat, fails: set<TargetId>, ahead: set<TargetId>, x: TargetId)
    requires DrainStep(t, t', g, n, fails) && x in WaitingOf(t, g)
    requires ahead <= OlderThan(t, WaitingOf(t, g), x) && ahead <= fails && |ahead| >= n
    ensures x in WaitingOf(t', g) && ahead <= OlderThan(t', WaitingOf(t', g), x)
  {
    var batch := StepMeans(t, t', g, n, fails);
    SmallerSubset(ahead, OlderThan(t, WaitingOf(t, g), x));
    ManyOlderKeepOut(t, WaitingOf(t, g), n, batch, x);
  }

  /** As long as n older targets fail at every tick, a target stays waiting: for good. */
  lemma {:induction false} OldFailuresStarve(r: Run, ahead: set<TargetId>, x: TargetId, k: nat)
    requires k < |r.ts| && x in WaitingOf(r.ts[0], r.g)
    requires ahead <= OlderThan(r.ts[0], WaitingOf(r.ts[0], r.g), x) && |ahead| >= r.n
    requires forall j :: 0 <= j < |r.fs| ==> ahead <= r.fs[j]
    ensures x in WaitingOf(r.ts[k], r.g) && ahead <= OlderThan(r.ts[k], WaitingOf(r.ts[k], r.g), x)
    decreases k
  {
    if k > 0 {
      OldFailuresStarve(r, ahead, x, k - 1);
      StepAt(r, k - 1);
      StepStarves(r.ts[k - 1], r.ts[k], r.g, r.n, r.fs[k - 1], ahead, x);
    }
  }

  /** The targets ahead of x, or of its age, that are not in `bad`. */
  function GoodAhead(t: Table, g: CampaignId, bad: set<TargetId>, x: TargetId): set<TargetId>
    requires x in t
  {
    AsOldAs(t, WaitingOf(t, g) - bad, x)
  }

  /** With fewer than n failing ones ahead, a tick takes the target or one of the good ones ahead of it. */
  lemma StepLetsThrough(t: Table, t': Table, g: CampaignId, n: nat, fails: set<TargetId>, bad: set<TargetId>,
                        x: TargetId)
    requires DrainStep(t, t', g, n, fails) && x in WaitingOf(t, g) && x in WaitingOf(t', g) && x !in fails
    requires |AsOldAs(t, WaitingOf(t, g) * bad, x)| < n
    requires AsOldAs(t, WaitingOf(t, g), x) * fails <= bad
    ensures |GoodAhead(t', g, bad, x)| < |GoodAhead(t, g, bad, x)|
  {
    var batch := StepMeans(t, t', g, n, fails);
    var taken := Elements(batch);
    LeftOutMeansFull(t, WaitingOf(t, g), n, batch, x);
    if taken <= bad {
      assert taken <= AsOldAs(t, WaitingOf(t, g) * bad, x);
      SmallerSubset(taken, AsOldAs(t, WaitingOf(t, g) * bad, x));
    } else {
      var y :| y in taken && y !in bad;
      AheadGone(t, t', g, taken - fails, bad, x, y);
    }
  }

  /** A good one that goes is one less ahead. */
  lemma AheadGone(t: Table, t': Table, g: CampaignId, gone: set<TargetId>, bad: set<TargetId>, x: TargetId, y: TargetId)
    requires SameButState(t, t') && x in t && WaitingOf(t', g) == WaitingOf(t, g) - gone
    requires y in gone && y in GoodAhead(t, g, bad, x)
    ensures |GoodAhead(t', g, bad, x)| < |GoodAhead(t, g, bad, x)|
  {
    var before, after := GoodAhead(t, g, bad, x), GoodAhead(t', g, bad, x);
    assert after <= before - {y};
    SmallerSubset(after, before - {y});
    SizeOfRest(before, {y});
  }

  /** Fewer waiting targets, fewer ahead. */
  lemma AheadShrinks(t: Table, t': Table, g: CampaignId, bad: set<TargetId>, x: TargetId)
    requires SameButState(t, t') && x in t && WaitingOf(t', g) <= WaitingOf(t, g)
    ensures AsOldAs(t', WaitingOf(t', g), x) <= AsOldAs(t, WaitingOf(t, g), x)
    ensures |AsOldAs(t', WaitingOf(t', g) * bad, x)| <= |AsOldAs(t, WaitingOf(t, g) * bad, x)|
  {
    SmallerSubset(AsOldAs(t', WaitingOf(t', g) * bad, x), AsOldAs(t, WaitingOf(t, g) * bad, x));
  }

  /** If among the targets at least as old as x fewer than n ever fail, then x, which does not, is gone after one tick
      more than there are good ones. */
  lemma {:induction false} FewFailuresLetThrough(r: Run, bad: set<TargetId>, x: TargetId, k: nat)
    requires k < |r.ts| && x in WaitingOf(r.ts[0], r.g)
    requires |AsOldAs(r.ts[0], WaitingOf(r.ts[0], r.g) * bad, x)| < r.n
    requires forall j :: 0 <= j < |r.fs| ==>
              x !in r.fs[j] && AsOldAs(r.ts[0], WaitingOf(r.ts[0], r.g), x) * r.fs[j] <= bad
    ensures x in r.ts[k]
    ensures x in WaitingOf(r.ts[k], r.g) ==> |GoodAhead(r.ts[k], r.g, bad, x)| + k <= |GoodAhead(r.ts[0], r.g, bad, x)|
    decreases k
  {
    RunKeepsRows(r, k);
    if k > 0 && x in WaitingOf(r.ts[k], r.g) {
      FewFailuresLetThrough(r, bad, x, k - 1);
      RunKeepsRows(r, k - 1);
      AheadShrinks(r.ts[0], r.ts[k - 1], r.g, bad, x);
      var t, t' := r.ts[k - 1], r.ts[k - 1 + 1];
      StepAt(r, k - 1);
      var _ := StepMeans(t, t', r.g, r.n, r.fs[k - 1]);
      StepLetsThrough(t, t', r.g, r.n, r.fs[k - 1], bad, x);
    }
  }

  /** Exactly who is starved. Let `bad` fail at every tick, and no other target at least as old as x ever, nor x; and
      let no bad one have x's age. Then after more ticks than there are good ones ahead, x is dispatched exactly if
      fewer than n bad ones are older. */
  lemma StarvedExactly(r: Run, bad: set<TargetId>, x: TargetId, k: nat)
    requires k < |r.ts| && x in WaitingOf(r.ts[0], r.g)
    requires forall j :: 0 <= j < |r.fs| ==>
               && x !in r.fs[j]
               && forall i :: i in AsOldAs(r.ts[0], WaitingOf(r.ts[0], r.g), x) ==> (i in r.fs[j] <==> i in bad)
    requires forall i :: i in WaitingOf(r.ts[0], r.g) * bad && i != x ==> r.ts[0][i].createdAt != r.ts[0][x].createdAt
    requires k > |GoodAhead(r.ts[0], r.g, bad, x)|
    ensures x !in WaitingOf(r.ts[k], r.g) <==> |OlderThan(r.ts[0], WaitingOf(r.ts[0], r.g) * (bad - {x}), x)| < r.n
  {
    var w, older := WaitingOf(r.ts[0], r.g), OlderThan(r.ts[0], WaitingOf(r.ts[0], r.g) * (bad - {x}), x);
    assert older == AsOldAs(r.ts[0], w * bad, x);
    if |older| < r.n {
      FewFailuresLetThrough(r, bad, x, k);
    } else {
      forall j | 0 <= j < |r.fs| ensures older <= r.fs[j] {
        forall i | i in older ensures i in r.fs[j] {
          assert i in AsOldAs(r.ts[0], w, x);
        }
      }
      OldFailuresStarve(r, older, x, k);
    }
  }

  // ---------- Equal ages ----------

  /** The table with x put ahead of those of its age (d = -1), or behind them (d = 1). */
  function Ranked(t: Table, x: TargetId, d: int): Table {
    map i | i in t :: t[i].(createdAt := 2 * t[i].createdAt + if i == x then d else 0)
  }

  lemma RankedOldest(t: Table, from: set<TargetId>, n: nat, ids: seq<TargetId>, x: TargetId, d: int)
    requires from <= t.Keys && -1 <= d <= 1 && OldestOf(Ranked(t, x, d), from, n, ids)
    ensures OldestOf(t, from, n, ids)
  {
  }

  /** A batch that prefers x, or all others, where the order is open. */
  lemma PreferringBatch(t: Table, from: set<TargetId>, n: nat, x: TargetId, d: int) returns (ids: seq<TargetId>)
    requires from <= t.Keys && x in from && (d == -1 || d == 1)
    ensures OldestOf(t, from, n, ids)
    ensures d == 1 && |AsOldAs(t, from, x)| >= n ==> x !in ids
    ensures d == -1 && x !in ids ==> |Elements(ids)| == n && Elements(ids) <= OlderThan(t, from, x)
  {
    var r := Ranked(t, x, d);
    ids := OldestOfExists(r, from, n);
    RankedOldest(t, from, n, ids, x, d);
    if d == 1 && |AsOldAs(t, from, x)| >= n {
      SmallerSubset(AsOldAs(t, from, x), OlderThan(r, from, x));
      ManyOlderKeepOut(r, from, n, ids, x);
    }
    if d == -1 && x !in ids {
      LeftOutMeansFull(r, from, n, ids, x);
      assert AsOldAs(r, from, x) <= OlderThan(t, from, x);
    }
  }

  /** k ticks in which exactly `bad` fails. */
  function Always(bad: set<TargetId>, k: nat): seq<set<TargetId>> {
    seq(k, i => bad)
  }

  /** r consists of k ticks of campaign g from t in which exactly `bad` fails. */
  predicate Plain(r: Ticks, t: Table, g: CampaignId, n: nat, bad: set<TargetId>, k: nat) {
    r.g == g && r.n == n && r.fs == Always(bad, k) && |r.ts| == k + 1 && r.ts[0] == t
  }

  lemma NoTicks(t: Table, g: CampaignId, n: nat, bad: set<TargetId>) returns (r: Run)
    ensures Plain(r, t, g, n, bad, 0)
  {
    r := Ticks([t], [], g, n);
  }

  lemma RunCons(t: Table, rest: Run, g: CampaignId, n: nat, bad: set<TargetId>, k: nat) returns (r: Run)
    requires k > 0 && |rest.ts| > 0 && Plain(rest, rest.ts[0], g, n, bad, k - 1)
    requires DrainStep(t, rest.ts[0], g, n, bad)
    ensures Plain(r, t, g, n, bad, k) && r.ts == [t] + rest.ts
  {
    var all := Ticks([t] + rest.ts, Always(bad, k), g, n);
    forall j: nat | j < k
      ensures DrainStep(TickOf(all, j).before, TickOf(all, j).after, g, n, TickOf(all, j).fails)
    {
      if j > 0 {
        StepAt(rest, j - 1);
      }
    }
    r := all;
  }

  /** With n failing targets at least as old, there are runs in which a target waits as long as one likes. */
  lemma {:induction false} MayWait(t: Table, g: CampaignId, n: nat, bad: set<TargetId>, x: TargetId, k: nat)
    returns (r: Run)
    requires x in WaitingOf(t, g) && |AsOldAs(t, WaitingOf(t, g) * bad, x)| >= n
    ensures Plain(r, t, g, n, bad, k) && x in WaitingOf(r.ts[k], g)
    decreases k
  {
    if k == 0 {
      r := NoTicks(t, g, n, bad);
    } else {
      var w := WaitingOf(t, g);
      SmallerSubset(AsOldAs(t, w * bad, x), AsOldAs(t, w, x));
      var batch := PreferringBatch(t, w, n, x, 1);
      var t' := StepOf(t, g, n, batch, bad);
      assert x in WaitingOf(t', g);
      assert AsOldAs(t, w * bad, x) == AsOldAs(t', WaitingOf(t', g) * bad, x);
      var rest := MayWait(t', g, n, bad, x, k - 1);
      r := RunCons(t, rest, g, n, bad, k);
    }
  }

  function GoodOlder(t: Table, g: CampaignId, bad: set<TargetId>, x: TargetId): set<TargetId>
    requires x in t
  {
    OlderThan(t, WaitingOf(t, g) - bad, x)
  }

  /** With fewer than n failing targets that are older, there is a run in which a target does not wait longer than for
      the good ones ahead. */
  lemma {:induction false} MayPass(t: Table, g: CampaignId, n: nat, bad: set<TargetId>, x: TargetId, k: nat)
    returns (r: Run)
    requires x in t && x !in bad
    requires x in WaitingOf(t, g) ==> |OlderThan(t, WaitingOf(t, g) * bad, x)| < n && k > |GoodOlder(t, g, bad, x)|
    ensures Plain(r, t, g, n, bad, k) && x !in WaitingOf(r.ts[k], g)
    decreases k
  {
    if k == 0 {
      r := NoTicks(t, g, n, bad);
    } else {
      var t' := PassingStep(t, g, n, bad, x);
      var rest := MayPass(t', g, n, bad, x, k - 1);
      r := RunCons(t, rest, g, n, bad, k);
    }
  }

  /** A tick that takes x, or else a good one that is older. */
  lemma PassingStep(t: Table, g: CampaignId, n: nat, bad: set<TargetId>, x: TargetId) returns (t': Table)
    requires x in t && x !in bad
    requires x in WaitingOf(t, g) ==> |OlderThan(t, WaitingOf(t, g) * bad, x)| < n
    ensures DrainStep(t, t', g, n, bad) && x in t'
    ensures x !in WaitingOf(t, g) ==> x !in WaitingOf(t', g)
    ensures x in WaitingOf(t', g) ==>
              && |OlderThan(t', WaitingOf(t', g) * bad, x)| < n
              && |GoodOlder(t', g, bad, x)| < |GoodOlder(t, g, bad, x)|
  {
    var w := WaitingOf(t, g);
    if x !in w {
      var batch := OldestOfExists(t, w, n);
      t' := StepOf(t, g, n, batch, bad);
    } else {
      var batch := PreferringBatch(t, w, n, x, -1);
      t' := StepOf(t, g, n, batch, bad);
      if x in WaitingOf(t', g) {
        assert x !in Elements(batch);
        GoodOneTaken(t, t', g, n, bad, x, Elements(batch));
      }
    }
  }

  lemma GoodOneTaken(t: Table, t': Table, g: CampaignId, n: nat, bad: set<TargetId>, x: TargetId, taken: set<TargetId>)
    requires SameButState(t, t') && x in WaitingOf(t, g) && |OlderThan(t, WaitingOf(t, g) * bad, x)| < n
    requires |taken| == n && taken <= OlderThan(t, WaitingOf(t, g), x)
    requires WaitingOf(t', g) == WaitingOf(t, g) - (taken - bad)
    ensures |OlderThan(t', WaitingOf(t', g) * bad, x)| < n
    ensures |GoodOlder(t', g, bad, x)| < |GoodOlder(t, g, bad, x)|
  {
    var before, after := GoodOlder(t, g, bad, x), GoodOlder(t', g, bad, x);
    SmallerSubset(OlderThan(t', WaitingOf(t', g) * bad, x), OlderThan(t, WaitingOf(t, g) * bad, x));
    if taken <= bad {
      assert taken <= OlderThan(t, WaitingOf(t, g) * bad, x);
      SmallerSubset(taken, OlderThan(t, WaitingOf(t, g) * bad, x));
    } else {
      var y :| y in taken && y !in bad;
      assert y in before && y !in after && after <= before - {y};
      SmallerSubset(after, before - {y});
      SizeOfRest(before, {y});
    }
  }

  ghost predicate MayStay(t: Table, g: CampaignId, n: nat, bad: set<TargetId>, x: TargetId, k: nat) {
    exists r: Run :: Plain(r, t, g, n, bad, k) && x in WaitingOf(r.ts[k], g)
  }

  ghost predicate MustStay(t: Table, g: CampaignId, n: nat, bad: set<TargetId>, x: TargetId, k: nat) {
    forall r: Run :: Plain(r, t, g, n, bad, k) ==> x in WaitingOf(r.ts[k], g)
  }

  /** A target that does not fail may be starved exactly if n failing ones are at least as old, and is starved whatever
      the order of equal ages exactly if n failing ones are older. */
  lemma StayExactly(t: Table, g: CampaignId, n: nat, bad: set<TargetId>, x: TargetId, k: nat)
    requires x in WaitingOf(t, g) && x !in bad && k > |GoodAhead(t, g, bad, x)|
    ensures MayStay(t, g, n, bad, x, k) <==> |AsOldAs(t, WaitingOf(t, g) * bad, x)| >= n
    ensures MustStay(t, g, n, bad, x, k) <==> |OlderThan(t, WaitingOf(t, g) * bad, x)| >= n
  {
    MayStayExactly(t, g, n, bad, x, k);
    MustStayExactly(t, g, n, bad, x, k);
  }

  lemma MayStayExactly(t: Table, g: CampaignId, n: nat, bad: set<TargetId>, x: TargetId, k: nat)
    requires x in WaitingOf(t, g) && x !in bad && k > |GoodAhead(t, g, bad, x)|
    ensures MayStay(t, g, n, bad, x, k) <==> |AsOldAs(t, WaitingOf(t, g) * bad, x)| >= n
  {
    if |AsOldAs(t, WaitingOf(t, g) * bad, x)| >= n {
      var r := MayWait(t, g, n, bad, x, k);
    } else {
      forall r: Run | Plain(r, t, g, n, bad, k) ensures x !in WaitingOf(r.ts[k], g) {
        FewFailuresLetThrough(r, bad, x, k);
      }
    }
  }

  lemma MustStayExactly(t: Table, g: CampaignId, n: nat, bad: set<TargetId>, x: TargetId, k: nat)
    requires x in WaitingOf(t, g) && x !in bad && k > |GoodAhead(t, g, bad, x)|
    ensures MustStay(t, g, n, bad, x, k) <==> |OlderThan(t, WaitingOf(t, g) * bad, x)| >= n
  {
    var older := OlderThan(t, WaitingOf(t, g) * bad, x);
    if |older| >= n {
      forall r: Run | Plain(r, t, g, n, bad, k) ensures x in WaitingOf(r.ts[k], g) {
        OldFailuresStarve(r, older, x, k);
      }
    } else {
      SmallerSubset(GoodOlder(t, g, bad, x), GoodAhead(t, g, bad, x));
      var r := MayPass(t, g, n, bad, x, k);
    }
  }

  /** The targets of one creation all have the same age: any of them may be starved by n failing ones, and none must. */
  lemma CreatedTogether(t: Table, g: CampaignId, n: nat, bad: set<TargetId>, x: TargetId, k: nat)
    requires x in WaitingOf(t, g) && x !in bad && k > |GoodAhead(t, g, bad, x)| && n > 0
    requires forall i :: i in WaitingOf(t, g) ==> t[i].createdAt == t[x].createdAt
    ensures MayStay(t, g, n, bad, x, k) <==> |WaitingOf(t, g) * bad| >= n
    ensures !MustStay(t, g, n, bad, x, k)
  {
    StayExactly(t, g, n, bad, x, k);
    assert AsOldAs(t, WaitingOf(t, g) * bad, x) == WaitingOf(t, g) * bad;
    assert OlderThan(t, WaitingOf(t, g) * bad, x) == {};
  }

  // ---------- Targets that always fail ----------

  /** Ticks as DispatchBatch makes them: hopeless targets fail. */
  ghost predicate ScheduledRun(r: Run) {
    forall j :: 0 <= j < |r.fs| ==> HopelessOf(r.ts[j], r.g) <= r.fs[j]
  }

  /** Once hopeless, always hopeless: neither numbers nor ages ever change. */
  lemma HopelessForGood(r: Run, j: nat)
    requires ScheduledRun(r) && j < |r.ts|
    ensures HopelessOf(r.ts[j], r.g) == HopelessOf(r.ts[0], r.g)
  {
    RunKeepsRows(r, j);
    forall i ensures i in HopelessOf(r.ts[j], r.g) <==> i in HopelessOf(r.ts[0], r.g) {
      if i in r.ts[0] {
        SameHopeless(r.ts[0], r.ts[j], r.g, i);
      }
    }
  }

  lemma {:induction false} AlwaysFailingWaits(r: Run, i: TargetId, k: nat)
    requires k < |r.ts| && i in WaitingOf(r.ts[0], r.g)
    requires forall j :: 0 <= j < |r.fs| ==> i in r.fs[j]
    ensures i in WaitingOf(r.ts[k], r.g)
    decreases k
  {
    if k > 0 {
      AlwaysFailingWaits(r, i, k - 1);
      StepAt(r, k - 1);
      FailingWaits(r.ts[k - 1], r.ts[k], r.g, r.n, r.fs[k - 1], i);
    }
  }

  /** A target without a number, or whose number is hidden behind 10000 older targets, is put back at every tick and
      waits for ever. */
  lemma HopelessWaits(r: Run, i: TargetId, k: nat)
    requires ScheduledRun(r) && k < |r.ts| && i in HopelessOf(r.ts[0], r.g) && i in WaitingOf(r.ts[0], r.g)
    ensures i in WaitingOf(r.ts[k], r.g)
  {
    forall j | 0 <= j < |r.fs| ensures i in r.fs[j] {
      HopelessForGood(r, j);
    }
    AlwaysFailingWaits(r, i, k);
  }

  lemma FailingWaits(t: Table, t': Table, g: CampaignId, n: nat, fails: set<TargetId>, i: TargetId)
    requires DrainStep(t, t', g, n, fails) && i in fails && i in WaitingOf(t, g)
    ensures i in WaitingOf(t', g)
  {
    var _ := StepMeans(t, t', g, n, fails);
  }

  /** And n of them stop every target that is younger, whatever else fails or not. */
  lemma HopelessStarve(r: Run, x: TargetId, k: nat)
    requires ScheduledRun(r) && k < |r.ts| && x in WaitingOf(r.ts[0], r.g)
    requires |OlderThan(r.ts[0], WaitingOf(r.ts[0], r.g) * HopelessOf(r.ts[0], r.g), x)| >= r.n
    ensures x in WaitingOf(r.ts[k], r.g)
  {
    var ahead := OlderThan(r.ts[0], WaitingOf(r.ts[0], r.g) * HopelessOf(r.ts[0], r.g), x);
    forall j | 0 <= j < |r.fs| ensures ahead <= r.fs[j] {
      HopelessForGood(r, j);
    }
    OldFailuresStarve(r, ahead, x, k);
  }

  /** Empty numbers are enough for that: nothing checks for them when a campaign is created or extended. */
  lemma EmptyNumbersStarve(r: Run, x: TargetId, k: nat)
    requires ScheduledRun(r) && k < |r.ts| && x in WaitingOf(r.ts[0], r.g)
    requires |set i | i in OlderThan(r.ts[0], WaitingOf(r.ts[0], r.g), x) && r.ts[0][i].phone == ""| >= r.n
    ensures x in WaitingOf(r.ts[k], r.g)
  {
    var t, w := r.ts[0], WaitingOf(r.ts[0], r.g);
    var empty := set i | i in OlderThan(t, w, x) && t[i].phone == "";
    forall i | i in empty ensures i in OlderThan(t, w * HopelessOf(t, r.g), x) {
      assert IsHopeless(t, r.g, i);
    }
    SmallerSubset(empty, OlderThan(t, w * HopelessOf(t, r.g), x));
    HopelessStarve(r, x, k);
  }

  // ---------- How fast the others drain ----------

  /** The waiting targets that never fail. */
  function GoodOf(t: Table, g: CampaignId, bad: set<TargetId>): set<TargetId> {
    WaitingOf(t, g) - bad
  }

  function FailingOf(t: Table, g: CampaignId, bad: set<TargetId>): set<TargetId> {
    WaitingOf(t, g) * bad
  }

  /** Of n oldest, all but the failing ones are good; or all that wait are taken. */
  lemma TakesGoodOnes(waiting: set<TargetId>, taken: set<TargetId>, bad: set<TargetId>, n: nat)
    requires taken <= waiting && |taken| == (if |waiting| < n then |waiting| else n)
    ensures |(waiting - bad) - (taken - bad)| <= AtLeastZero(|waiting - bad| - (n - |waiting * bad|))
  {
    SizeOfRest(waiting - bad, taken - bad);
    if |waiting| <= n {
      SubsetSize(taken, waiting);
    } else {
      SmallerSubset(taken * bad, waiting * bad);
      assert taken - bad == taken - taken * bad;
      SizeOfRest(taken, taken * bad);
    }
  }

  /** With f targets waiting that may fail, a tick gets at least n - f of the others away, or all of them. */
  lemma StepTakesGoodOnes(t: Table, t': Table, g: CampaignId, n: nat, fails: set<TargetId>, bad: set<TargetId>)
    requires DrainStep(t, t', g, n, fails) && WaitingOf(t, g) * fails <= bad
    ensures |GoodOf(t', g, bad)| <= AtLeastZero(|GoodOf(t, g, bad)| - (n - |FailingOf(t, g, bad)|))
    ensures WaitingOf(t', g) <= WaitingOf(t, g)
  {
    var batch := StepMeans(t, t', g, n, fails);
    var w, taken := WaitingOf(t, g), Elements(batch);
    TakesGoodOnes(w, taken, bad, n);
    assert GoodOf(t', g, bad) <= (w - bad) - (taken - bad);
    SmallerSubset(GoodOf(t', g, bad), (w - bad) - (taken - bad));
  }

  lemma MoreFailuresFewerTaken(good: nat, good': nat, good0: nat, n: nat, f: nat, f0: nat, k: nat)
    requires f <= f0 && good' <= AtLeastZero(good - (n - f)) && k > 0 && good <= Remaining(good0, n - f0, k - 1)
    ensures good' <= Remaining(good0, n - f0, k)
  {
  }

  /** The waiting targets that fail in some tick. */
  ghost function EverFailing(r: Run): set<TargetId> {
    set i | i in WaitingOf(r.ts[0], r.g) && exists j :: 0 <= j < |r.fs| && i in r.fs[j]
  }

  lemma OnlyTheseFail(r: Run, j: nat, waiting: set<TargetId>)
    requires j < |r.fs| && waiting <= WaitingOf(r.ts[0], r.g)
    ensures waiting * r.fs[j] <= EverFailing(r)
  {
  }

  lemma FewerFailing(t0: Table, t: Table, g: CampaignId, bad: set<TargetId>)
    requires WaitingOf(t, g) <= WaitingOf(t0, g)
    ensures |FailingOf(t, g, bad)| <= |FailingOf(t0, g, bad)|
  {
    SmallerSubset(FailingOf(t, g, bad), FailingOf(t0, g, bad));
  }

  /** How many waiting targets that never fail are left after k ticks. */
  ghost function GoodLeft(r: Run, k: nat): nat
    requires k < |r.ts|
  {
    |GoodOf(r.ts[k], r.g, EverFailing(r))|
  }

  lemma AllFailWaiting(r: Run)
    ensures FailingOf(r.ts[0], r.g, EverFailing(r)) == EverFailing(r)
  {
  }

  lemma TickAt(r: Run, k: nat, good0: nat, f0: nat)
    requires 0 < k < |r.ts| && |EverFailing(r)| <= f0
    requires GoodLeft(r, k - 1) <= Remaining(good0, r.n - f0, k - 1)
    ensures GoodLeft(r, k) <= Remaining(good0, r.n - f0, k)
  {
    var bad, t := EverFailing(r), r.ts[k - 1];
    RunKeepsRows(r, k - 1);
    StepAt(r, k - 1);
    OnlyTheseFail(r, k - 1, WaitingOf(t, r.g));
    FewerFailing(r.ts[0], t, r.g, bad);
    AllFailWaiting(r);
    OneMoreTick(t, r.ts[k], r.g, r.n, r.fs[k - 1], bad, good0, f0, k);
  }

  /** So over k ticks, if f targets ever fail, at least k times n - f of the others. */
  lemma {:induction false} FewFailuresProgress(r: Run, k: nat)
    requires k < |r.ts|
    ensures GoodLeft(r, k) <= Remaining(GoodLeft(r, 0), r.n - |EverFailing(r)|, k)
    decreases k
  {
    if k > 0 {
      FewFailuresProgress(r, k - 1);
      TickAt(r, k, GoodLeft(r, 0), |EverFailing(r)|);
    }
  }

  lemma OneMoreTick(t: Table, t': Table, g: CampaignId, n: nat, fails: set<TargetId>, bad: set<TargetId>,
                    good0: nat, f0: nat, k: nat)
    requires k > 0 && DrainStep(t, t', g, n, fails) && WaitingOf(t, g) * fails <= bad
    requires |FailingOf(t, g, bad)| <= f0 && |GoodOf(t, g, bad)| <= Remaining(good0, n - f0, k - 1)
    ensures |GoodOf(t', g, bad)| <= Remaining(good0, n - f0, k)
  {
    StepTakesGoodOnes(t, t', g, n, fails, bad);
    MoreFailuresFewerTaken(|GoodOf(t, g, bad)|, |GoodOf(t', g, bad)|, good0, n, |FailingOf(t, g, bad)|, f0, k);
  }

  /** All the others are gone after w / (n - f) ticks, rounded up: if fewer than n targets ever fail, they only slow a
      campaign down. */
  lemma FewFailuresDrain(r: Run, k: nat)
    requires k < |r.ts| && |EverFailing(r)| < r.n
    requires var m := r.n - |EverFailing(r)|;
      (GoodLeft(r, 0) + m - 1) / m <= k
    ensures GoodOf(r.ts[k], r.g, EverFailing(r)) == {}
  {
    FewFailuresProgress(r, k);
    NoneLeft(GoodLeft(r, 0), r.n - |EverFailing(r)|, k);
    assert GoodLeft(r, k) == 0;
  }

  lemma NoneLeft(w: nat, m: nat, k: nat)
    requires m > 0 && (w + m - 1) / m <= k
    ensures Remaining(w, m, k) == 0
  {
    RemainingIs(w, m, k);
    RoundedUp(w, m, k);
  }
}
