/**
 Concurrency slots of one campaign: any number of call workers, each acquiring with its own limit, one
 Redis key, and a clock. Every step is one atomic script, or time passing, or the key being dropped.
 */
module Slots {
  import opened Wrappers
  import opened Limiter

  type WorkerId = nat

  /** The key, the time, who holds a slot and since when. `leaked` counts slots that nobody will give back because a
      script failed; `granted` is the time of the last grant. */
  datatype World = World(key: Key, now: int, holders: map<WorkerId, int>, leaked: nat, granted: int)

  datatype Act =
    | Acquire(w: WorkerId, limit: int)
    | Release(w: WorkerId)
    | Wait(ms: nat)
    | Drop                     // the key is gone before its time: eviction, restart, failover
    | AcquireUnheard(limit: int) // the script ran but its reply was lost; the worker takes it for an error
    | ReleaseNotRun(w: WorkerId) // the script did not run; the worker logs that and goes on

  function Start(now: int): World {
    World(Absent, now, map[], 0, now)
  }

  /** The call worker acquires with a positive limit while it holds no slot, and releases what it holds. */
  predicate Can(x: World, a: Act) {
    match a
    case Acquire(w, limit) => w !in x.holders && limit > 0
    case Release(w) => w in x.holders
    case AcquireUnheard(limit) => limit > 0
    case ReleaseNotRun(w) => w in x.holders
    case _ => true
  }

  predicate Granted(x: World, limit: int) {
    Count(x.key, x.now) < limit
  }

  function Do(ttl: nat, x: World, a: Act): World {
    match a
    case Acquire(w, limit) =>
      if Granted(x, limit)
      then x.(key := Raised(x.key, ttl, x.now), holders := x.holders[w := x.now], granted := x.now) else x
    case Release(w) => x.(key := Lowered(x.key, x.now), holders := x.holders - {w})
    case Wait(ms) => x.(now := x.now + ms)
    case Drop => x.(key := Absent)
    case AcquireUnheard(limit) =>
      if Granted(x, limit) then x.(key := Raised(x.key, ttl, x.now), leaked := x.leaked + 1, granted := x.now) else x
    case ReleaseNotRun(w) => x.(holders := x.holders - {w}, leaked := x.leaked + 1)
  }

  function DoAll(ttl: nat, x: World, run: seq<Act>): World
    decreases |run|
  {
    if run == [] then x else Do(ttl, DoAll(ttl, x, run[..|run| - 1]), run[|run| - 1])
  }

  /** Any run: the key may expire or be dropped at any moment, and scripts may fail. */
  predicate Run(ttl: nat, x: World, run: seq<Act>)
    decreases |run|
  {
    run == [] || (Run(ttl, x, run[..|run| - 1]) && Can(DoAll(ttl, x, run[..|run| - 1]), run[|run| - 1]))
  }

  /** The script does what its caller believes. */
  predicate Heard(a: Act) {
    !a.AcquireUnheard? && !a.ReleaseNotRun?
  }

  predicate AllHeard(run: seq<Act>) {
    forall i :: 0 <= i < |run| ==> Heard(run[i])
  }

  /** No slot is held for the TTL or longer, no script fails and no key is dropped. A TTL of 0 means no expiry. */
  predicate Timely(ttl: nat, x: World, a: Act) {
    Heard(a) && !a.Drop? && (a.Wait? && ttl > 0 ==> forall w :: w in x.holders ==> x.now + a.ms < x.holders[w] + ttl)
  }

  predicate TimelyRun(ttl: nat, x: World, run: seq<Act>)
    decreases |run|
  {
    run == [] ||
    (TimelyRun(ttl, x, run[..|run| - 1])
     && Can(DoAll(ttl, x, run[..|run| - 1]), run[|run| - 1])
     && Timely(ttl, DoAll(ttl, x, run[..|run| - 1]), run[|run| - 1]))
  }

  // ---------- Timed ----------

  /** The counter is the number of holders. */
  predicate Exact(x: World) {
    Count(x.key, x.now) == |x.holders|
  }

  /** What the key is like while the count is exact: it expires a TTL after the last grant. */
  ghost predicate KeyInv(ttl: nat, x: World) {
    && Exact(x)
    && (x.holders != map[] ==>
          x.key.Present? && x.key.expiresAt == if ttl > 0 then Some(x.granted + ttl) else None)
    && (ttl == 0 && x.key.Present? ==> x.key.expiresAt == None)
    && (x.key.Present? ==> x.key.value >= 0)
    && (forall w :: w in x.holders ==> x.holders[w] <= x.granted)
    && x.granted <= x.now
  }

  lemma SizeWith(m: map<WorkerId, int>, w: WorkerId, t: int)
    requires w !in m
    ensures |m[w := t]| == |m| + 1
  {
    assert m[w := t].Keys == m.Keys + {w};
  }

  lemma SizeWithout(m: map<WorkerId, int>, w: WorkerId)
    requires w in m
    ensures |m - {w}| == |m| - 1
  {
    assert (m - {w}).Keys == m.Keys - {w};
  }

  lemma NoneIsEmpty(m: map<WorkerId, int>)
    ensures |m| == 0 <==> m == map[]
  {
    if |m| == 0 {
      assert m.Keys == {};
    }
  }

  /** The key does not expire under a holder during a step. */
  predicate Renewed(ttl: nat, x: World, a: Act) {
    a.Wait? ==> x.holders == map[] || ttl == 0 || x.now + a.ms < x.granted + ttl
  }

  /** Exactly when a step keeps count: unless it waits past a TTL after the last grant while a slot is held. */
  lemma StepKeepsCountExactly(ttl: nat, x: World, a: Act)
    requires KeyInv(ttl, x) && Can(x, a) && Heard(a) && !a.Drop?
    ensures Exact(Do(ttl, x, a)) <==> Renewed(ttl, x, a)
    ensures Renewed(ttl, x, a) ==> KeyInv(ttl, Do(ttl, x, a))
  {
    match a
    case Acquire(w, limit) => AcquireKeepsCount(ttl, x, w, limit);
    case Release(w) => ReleaseKeepsCount(ttl, x, w);
    case Wait(ms) => WaitKeepsCount(ttl, x, ms);
  }

  lemma AcquireKeepsCount(ttl: nat, x: World, w: WorkerId, limit: int)
    requires KeyInv(ttl, x) && w !in x.holders
    ensures KeyInv(ttl, Do(ttl, x, Acquire(w, limit)))
  {
    NoneIsEmpty(x.holders);
    SizeWith(x.holders, w, x.now);
  }

  lemma ReleaseKeepsCount(ttl: nat, x: World, w: WorkerId)
    requires KeyInv(ttl, x) && w in x.holders
    ensures KeyInv(ttl, Do(ttl, x, Release(w)))
  {
    NoneIsEmpty(x.holders);
    SizeWithout(x.holders, w);
  }

  lemma WaitKeepsCount(ttl: nat, x: World, ms: nat)
    requires KeyInv(ttl, x)
    ensures Exact(Do(ttl, x, Wait(ms))) <==> Renewed(ttl, x, Wait(ms))
    ensures Renewed(ttl, x, Wait(ms)) ==> KeyInv(ttl, Do(ttl, x, Wait(ms)))
  {
    NoneIsEmpty(x.holders);
  }

  predicate RenewedRun(ttl: nat, x: World, run: seq<Act>)
    decreases |run|
  {
    run == [] ||
    (RenewedRun(ttl, x, run[..|run| - 1]) && Renewed(ttl, DoAll(ttl, x, run[..|run| - 1]), run[|run| - 1]))
  }

  predicate ExactThroughout(ttl: nat, x: World, run: seq<Act>)
    decreases |run|
  {
    Exact(DoAll(ttl, x, run)) && (run == [] || ExactThroughout(ttl, x, run[..|run| - 1]))
  }

  lemma {:induction false} RenewedKeepsKeyInv(ttl: nat, now: int, run: seq<Act>)
    requires Run(ttl, Start(now), run) && AllHeard(run) && Drop !in run
    requires RenewedRun(ttl, Start(now), run)
    ensures KeyInv(ttl, DoAll(ttl, Start(now), run))
    decreases |run|
  {
    if run != [] {
      var n := |run| - 1;
      RenewedKeepsKeyInv(ttl, now, run[..n]);
      StepKeepsCountExactly(ttl, DoAll(ttl, Start(now), run[..n]), run[n]);
    }
  }

  /** Over a run whose scripts do not fail, the counter is the number of holders at every moment exactly if no slot
      is ever held when a TTL has passed since the last grant. So a slot may outlive the TTL as long as others are
      granted in the meantime. */
  lemma {:induction false} CountExactExactly(ttl: nat, now: int, run: seq<Act>)
    requires Run(ttl, Start(now), run) && AllHeard(run) && Drop !in run
    ensures ExactThroughout(ttl, Start(now), run) <==> RenewedRun(ttl, Start(now), run)
    decreases |run|
  {
    if run != [] {
      var n := |run| - 1;
      var x := DoAll(ttl, Start(now), run[..n]);
      CountExactExactly(ttl, now, run[..n]);
      if RenewedRun(ttl, Start(now), run[..n]) {
        RenewedKeepsKeyInv(ttl, now, run[..n]);
        StepKeepsCountExactly(ttl, x, run[n]);
      }
    }
  }

  lemma TimelyIsRenewed(ttl: nat, x: World, a: Act)
    requires KeyInv(ttl, x) && Timely(ttl, x, a)
    ensures Renewed(ttl, x, a)
  {
    if a.Wait? && x.holders != map[] {
      var w :| w in x.holders;
    }
  }

  lemma {:induction false} TimelyRunKeepsInv(ttl: nat, now: int, run: seq<Act>)
    requires TimelyRun(ttl, Start(now), run)
    ensures KeyInv(ttl, DoAll(ttl, Start(now), run))
    decreases |run|
  {
    if run != [] {
      var x := DoAll(ttl, Start(now), run[..|run| - 1]);
      TimelyRunKeepsInv(ttl, now, run[..|run| - 1]);
      TimelyIsRenewed(ttl, x, run[|run| - 1]);
      StepKeepsCountExactly(ttl, x, run[|run| - 1]);
    }
  }

  lemma {:induction false} TimelyHolds(ttl: nat, now: int, run: seq<Act>, w: WorkerId)
    requires TimelyRun(ttl, Start(now), run) && ttl > 0 && w in DoAll(ttl, Start(now), run).holders
    ensures var x := DoAll(ttl, Start(now), run); x.now < x.holders[w] + ttl
    decreases |run|
  {
    if run != [] && w in DoAll(ttl, Start(now), run[..|run| - 1]).holders {
      TimelyHolds(ttl, now, run[..|run| - 1], w);
    }
  }

  /** If every slot is released within the TTL and without error, then at every moment the key is there while a slot
      is held, the counter is the number of holders, an acquire is granted exactly when fewer than its limit hold a
      slot, and a granted one leaves at most its limit. */
  lemma {:induction false} SlotSafety(ttl: nat, now: int, run: seq<Act>, w: WorkerId, limit: int)
    requires TimelyRun(ttl, Start(now), run)
    ensures var x := DoAll(ttl, Start(now), run);
      && (x.holders != map[] ==> Alive(x.key, x.now))
      && Exact(x)
      && (Granted(x, limit) <==> |x.holders| < limit)
      && (Granted(x, limit) && w !in x.holders ==> |Do(ttl, x, Acquire(w, limit)).holders| <= limit)
  {
    TimelyRunKeepsInv(ttl, now, run);
    var x := DoAll(ttl, Start(now), run);
    NoneIsEmpty(x.holders);
    if w !in x.holders {
      SizeWith(x.holders, w, x.now);
    }
    if ttl > 0 && x.holders != map[] {
      var v :| v in x.holders;
      TimelyHolds(ttl, now, run, v);
    }
  }

  // ---------- Untimed ----------

  /** Slots, held or leaked, whose count the key has lost. */
  function Forgotten(x: World): int {
    |x.holders| + x.leaked - Count(x.key, x.now)
  }

  ghost predicate CountInv(x: World) {
    && 0 <= Count(x.key, x.now) <= |x.holders| + x.leaked
    && (x.key.Present? ==> x.key.value >= 0)
  }

  lemma StepKeepsCountInv(ttl: nat, x: World, a: Act)
    requires CountInv(x) && Can(x, a)
    ensures CountInv(Do(ttl, x, a))
    ensures Heard(a) ==> Do(ttl, x, a).leaked == x.leaked
    ensures Do(ttl, x, a).leaked <= x.leaked + 1
  {
    match a
    case Acquire(w, limit) => SizeWith(x.holders, w, x.now);
    case Release(w) => SizeWithout(x.holders, w);
    case Wait(ms) =>
    case Drop =>
    case AcquireUnheard(limit) =>
    case ReleaseNotRun(w) => SizeWithout(x.holders, w);
  }

  /** Failed scripts of a run. */
  function Losses(run: seq<Act>): nat
    decreases |run|
  {
    if run == [] then 0 else Losses(run[..|run| - 1]) + if Heard(run[|run| - 1]) then 0 else 1
  }

  lemma {:induction false} RunKeepsCountInv(ttl: nat, now: int, run: seq<Act>)
    requires Run(ttl, Start(now), run)
    ensures CountInv(DoAll(ttl, Start(now), run)) && DoAll(ttl, Start(now), run).leaked <= Losses(run)
    decreases |run|
  {
    if run != [] {
      RunKeepsCountInv(ttl, now, run[..|run| - 1]);
      StepKeepsCountInv(ttl, DoAll(ttl, Start(now), run[..|run| - 1]), run[|run| - 1]);
    }
  }

  /** However the key expires and whatever scripts fail, the counter stays between zero and the holders plus at most
      one slot for each failed script. So with no failures an acquire is only refused when its limit is really
      reached; and a granted one exceeds it at most by what was forgotten. */
  lemma {:induction false} NoPhantomHolders(ttl: nat, now: int, run: seq<Act>, w: WorkerId, limit: int)
    requires Run(ttl, Start(now), run)
    ensures var x := DoAll(ttl, Start(now), run);
      && x.leaked <= Losses(run)
      && 0 <= Forgotten(x) <= |x.holders| + x.leaked
      && (!Granted(x, limit) ==> limit <= |x.holders| + x.leaked)
      && (Granted(x, limit) && w !in x.holders ==>
            |Do(ttl, x, Acquire(w, limit)).holders| + x.leaked <= limit + Forgotten(x)
            && Forgotten(Do(ttl, x, Acquire(w, limit))) == Forgotten(x))
  {
    RunKeepsCountInv(ttl, now, run);
    var x := DoAll(ttl, Start(now), run);
    if w !in x.holders {
      SizeWith(x.holders, w, x.now);
    }
  }

  /** A release with a lost count pays back the loss, and otherwise lowers the counter. */
  lemma ReleaseRepairs(ttl: nat, x: World, w: WorkerId)
    requires CountInv(x) && w in x.holders
    ensures Forgotten(Do(ttl, x, Release(w))) == if Count(x.key, x.now) == 0 then Forgotten(x) - 1 else Forgotten(x)
  {
    SizeWithout(x.holders, w);
  }

  /** Without timely releases the limit does not hold: a slot kept for a TTL is granted a second time. */
  lemma LateReleaseOverAdmits(ttl: nat, now: int)
    requires ttl > 0
    ensures var run := [Acquire(0, 1), Wait(ttl), Acquire(1, 1)];
      Run(ttl, Start(now), run) && AllHeard(run) && |DoAll(ttl, Start(now), run).holders| == 2
  {
    var run := [Acquire(0, 1), Wait(ttl), Acquire(1, 1)];
    assert run[..2][..1] == [Acquire(0, 1)] && run[..2] == [Acquire(0, 1), Wait(ttl)];
    assert [Acquire(0, 1)][..0] == [];
    var x1 := DoAll(ttl, Start(now), [Acquire(0, 1)]);
    assert x1 == World(Present(1, Some(now + ttl)), now, map[0 := now], 0, now);
    var x2 := DoAll(ttl, Start(now), run[..2]);
    assert x2 == x1.(now := now + ttl);
    assert DoAll(ttl, Start(now), run) == Do(ttl, x2, Acquire(1, 1));
    SizeWith(map[0 := now], 1, now + ttl);
  }

  /** And with a lost reply a slot is taken that nobody holds: until the key expires, an acquire with limit 1 is
      refused though there is no holder. */
  lemma LostReplyBlocks(ttl: nat, now: int, ms: nat, limit: int)
    requires ttl == 0 || ms < ttl
    ensures var run := [AcquireUnheard(1), Wait(ms)];
      var x := DoAll(ttl, Start(now), run);
      Run(ttl, Start(now), run) && x.holders == map[] && (Granted(x, limit) <==> limit > 1)
  {
    var run := [AcquireUnheard(1), Wait(ms)];
    assert run[..1] == [AcquireUnheard(1)] && [AcquireUnheard(1)][..0] == [];
    var x1 := DoAll(ttl, Start(now), run[..1]);
    assert x1 == World(Raised(Absent, ttl, now), now, map[], 1, now);
    assert DoAll(ttl, Start(now), run) == x1.(now := now + ms);
  }
}
