/**
 internal/service/concurrency/limiter.go: a counter a campaign in Redis, changed by two atomic scripts and
 by the expiry of its key. Times are in milliseconds.
 */
module Limiter {
  import opened Wrappers
  import opened Messages

  /** A Redis key: absent, or a number with or without an expiry time. */
  datatype Key = Absent | Present(value: int, expiresAt: Option<int>)

  predicate Alive(k: Key, now: int) {
    k.Present? && (k.expiresAt.Some? ==> now < k.expiresAt.value)
  }

  /** GET key or '0': an expired key reads as absent. */
  function Count(k: Key, now: int): int {
    if Alive(k, now) then k.value else 0
  }

  /** INCR then, with a positive TTL, PEXPIRE. */
  function Raised(k: Key, ttl: int, now: int): Key {
    Present(Count(k, now) + 1,
            if ttl > 0 then Some(now + ttl) else if Alive(k, now) then k.expiresAt else None)
  }

  /** DECR, or DEL at zero. DECR keeps the expiry. */
  function Lowered(k: Key, now: int): Key {
    if Count(k, now) <= 0 then Absent else Present(k.value - 1, k.expiresAt)
  }

  const FIVE_MINUTES := 300_000_000_000

  /** time.Duration.Milliseconds, for a duration in nanoseconds. */
  function Milliseconds(ns: int): int {
    if ns >= 0 then ns / 1_000_000 else -((-ns) / 1_000_000)
  }

  /** How Redis answers a script: as it should; with an error before the script has run; or after it, so that
      the caller does not learn the result. */
  datatype Reply = Answered | NotRun | Unheard

  /** A poll of waitForSlot: what other workers have made of the keys by then, the time and the answer. */
  datatype Poll = Poll(keys: map<CampaignId, Key>, at: int, reply: Reply)

  function KeyIn(keys: map<CampaignId, Key>, g: CampaignId): Key {
    if g in keys then keys[g] else Absent
  }

  /** waitForSlot's ways out. */
  datatype Slot =
    | NotNeeded            // no campaign or no limit: the call goes ahead without a slot
    | Taken(polls: nat)    // acquired after so many refusals; to be released once
    | Errored(polls: nat)  // a script failed after so many refusals
    | Abandoned            // the context ended first

  class RedisLimiter {
    const defaultLimit: int
    const ttl: int  // nanoseconds
    var keys: map<CampaignId, Key>
    /** History: the keys as each script of this worker that changed them left them. */
    ghost var writes: seq<map<CampaignId, Key>>

    constructor (defaultLimit: int, ttl: int)
      ensures this.defaultLimit == defaultLimit
      ensures this.ttl == if ttl <= 0 then 300_000_000_000 else ttl
      ensures keys == map[] && writes == []
    {
      this.defaultLimit := defaultLimit;
      this.ttl := if ttl <= 0 then FIVE_MINUTES else ttl;
      keys, writes := map[], [];
    }

    function Limit(limit: int): int {
      if limit <= 0 then defaultLimit else limit
    }

    /** A slot is granted without being counted for the nil campaign and without any limit. */
    predicate Bypassed(g: CampaignId, limit: int) {
      g == NIL_CAMPAIGN || Limit(limit) <= 0
    }

    method Acquire(g: CampaignId, limit: int, now: int, reply: Reply) returns (r: Result<bool>)
      modifies this`keys, this`writes
      ensures Bypassed(g, limit) ==> r == Ok(true) && keys == old(keys) && writes == old(writes)
      ensures Bypassed(g, limit) <==> g == NIL_CAMPAIGN || (limit <= 0 && defaultLimit <= 0)
      ensures !Bypassed(g, limit) ==>
                var k := KeyIn(old(keys), g);
                var granted := Count(k, now) < if limit > 0 then limit else defaultLimit;
                && (reply == Answered ==> r == Ok(granted))
                && (reply != Answered ==> r.Err?)
                && (granted && reply != NotRun ==>
                      keys == old(keys)[g := Raised(k, Milliseconds(ttl), now)] && writes == old(writes) + [keys])
                && (!granted || reply == NotRun ==> keys == old(keys) && writes == old(writes))
      ensures r == Ok(true) && !Bypassed(g, limit) && ttl >= 1_000_000 ==>
                && g in keys && keys[g].Present? && keys[g].expiresAt.Some?
                && var life := keys[g].expiresAt.value - now;
                   life * 1_000_000 <= ttl < (life + 1) * 1_000_000
    {
      if g == NIL_CAMPAIGN {
        return Ok(true);
      }
      var l := if limit <= 0 then defaultLimit else limit;
      if l <= 0 {
        return Ok(true);
      }
      if reply == NotRun {
        return Err("concurrency acquire");
      }
      if ttl >= 0 {
        TtlInMilliseconds(ttl);
      }
      var granted := AcquireScript(g, l, now);
      if reply == Unheard {
        return Err("concurrency acquire");
      }
      return Ok(granted);
    }

    method AcquireScript(g: CampaignId, l: int, now: int) returns (granted: bool)
      modifies this`keys, this`writes
      ensures granted <==> Count(KeyIn(old(keys), g), now) < l
      ensures keys == if granted then old(keys)[g := Raised(KeyIn(old(keys), g), Milliseconds(ttl), now)] else old(keys)
      ensures writes == if granted then old(writes) + [keys] else old(writes)
    {
      var key := KeyIn(keys, g);
      var current := if Alive(key, now) then key.value else 0;
      if current < l {
        // INCR
        key := if Alive(key, now) then key.(value := key.value + 1) else Present(1, None);
        if Milliseconds(ttl) > 0 {
          key := key.(expiresAt := Some(now + Milliseconds(ttl)));
        }
        keys := keys[g := key];
        writes := writes + [keys];
        return true;
      }
      return false;
    }

    method Release(g: CampaignId, now: int, reply: Reply) returns (r: Result<()>)
      modifies this`keys, this`writes
      ensures keys == if g == NIL_CAMPAIGN || reply == NotRun then old(keys)
                      else old(keys)[g := Lowered(KeyIn(old(keys), g), now)]
      ensures writes == if g == NIL_CAMPAIGN || reply == NotRun then old(writes) else old(writes) + [keys]
      ensures r.Ok? <==> g == NIL_CAMPAIGN || reply == Answered
    {
      if g == NIL_CAMPAIGN {
        return Ok(());
      }
      if reply == NotRun {
        return Err("concurrency release");
      }
      var key := KeyIn(keys, g);
      var current := if Alive(key, now) then key.value else 0;
      if current <= 0 {
        key := Absent;
      } else {
        key := key.(value := key.value - 1);
      }
      keys := keys[g := key];
      writes := writes + [keys];
      return if reply == Answered then Ok(()) else Err("concurrency release");
    }

    /** waitForSlot of the call worker; the polls are those until the context ends. The limiter is never asked in
        a way that it would answer without counting. */
    method WaitForSlot(g: CampaignId, dispatchLimit: int, configLimit: int, polls: seq<Poll>) returns (slot: Slot)
      modifies this`keys, this`writes
      ensures Waited(slot, g, dispatchLimit, configLimit, polls)
      ensures slot.NotNeeded? ==> keys == old(keys) && writes == old(writes)
      ensures slot.Taken? ==>
                var poll := polls[slot.polls];
                && keys == poll.keys[g := Raised(KeyIn(poll.keys, g), Milliseconds(ttl), poll.at)]
                && keys[g].value == Count(KeyIn(poll.keys, g), poll.at) + 1
                && writes == old(writes) + [keys]
      ensures slot.Errored? ==>
                var poll := polls[slot.polls];
                var limit := if dispatchLimit > 0 then dispatchLimit else configLimit;
                if poll.reply == NotRun || limit <= Count(KeyIn(poll.keys, g), poll.at)
                then keys == poll.keys && writes == old(writes)
                else keys == poll.keys[g := Raised(KeyIn(poll.keys, g), Milliseconds(ttl), poll.at)]
                     && writes == old(writes) + [keys]
      ensures slot.Abandoned? ==> writes == old(writes)
    {
      if g == NIL_CAMPAIGN {
        return NotNeeded;
      }
      var limit := dispatchLimit;
      if limit <= 0 {
        limit := configLimit;
      }
      if limit <= 0 {
        return NotNeeded;
      }
      var i := 0;
      while i < |polls|
        invariant 0 <= i <= |polls| && writes == old(writes)
        invariant forall j :: 0 <= j < i ==> RefusedBy(polls[j], g, limit)
      {
        keys := polls[i].keys;
        assert !Bypassed(g, limit);
        var acquired := Acquire(g, limit, polls[i].at, polls[i].reply);
        if acquired.Err? {
          return Errored(i);
        }
        if acquired.value {
          return Taken(i);
        }
        i := i + 1;
      }
      return Abandoned;
    }
  }

  /** The script answered, and the limit was reached. */
  predicate RefusedBy(poll: Poll, g: CampaignId, limit: int) {
    poll.reply == Answered && limit <= Count(KeyIn(poll.keys, g), poll.at)
  }

  /** Which way out waitForSlot takes: none is needed without a campaign or a limit; else the first poll that is not
      refused decides, by a grant or an error; else the context has ended. */
  predicate Waited(slot: Slot, g: CampaignId, dispatchLimit: int, configLimit: int, polls: seq<Poll>) {
    var limit := if dispatchLimit > 0 then dispatchLimit else configLimit;
    && (slot.NotNeeded? <==> g == NIL_CAMPAIGN || limit <= 0)
    && (slot.Taken? ==>
          && slot.polls < |polls|
          && polls[slot.polls].reply == Answered
          && Count(KeyIn(polls[slot.polls].keys, g), polls[slot.polls].at) < limit
          && forall i :: 0 <= i < slot.polls ==> RefusedBy(polls[i], g, limit))
    && (slot.Errored? ==>
          && slot.polls < |polls|
          && polls[slot.polls].reply != Answered
          && forall i :: 0 <= i < slot.polls ==> RefusedBy(polls[i], g, limit))
    && (slot.Abandoned? ==> forall i :: 0 <= i < |polls| ==> RefusedBy(polls[i], g, limit))
  }

  /** The TTL of a key is the configured one, cut to whole milliseconds: never longer, and less than one shorter. */
  lemma TtlInMilliseconds(ns: int)
    requires ns >= 0
    ensures Milliseconds(ns) * 1_000_000 <= ns < (Milliseconds(ns) + 1) * 1_000_000
  {
  }
}
