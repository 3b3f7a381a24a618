/** Sums over bags of tokens: the quantities that the counters, the one-token rule and the
    termination measure are about. */
module Gauges {
  import opened Messages
  import opened Pipeline

  datatype Gauge =
    | Of(c: CallId)             // tokens of one call
    | Triggered(g: CampaignId)  // calls counted by TriggerCall
    | Answered(g: CampaignId)   // outcomes counted as completed
    | GivenUp(g: CampaignId)    // outcomes counted as failed
    | Open(g: CampaignId)       // calls counted and not yet counted out
    | LiveIn(g: CampaignId)     // messages under way that pending_calls is meant to count
    | StrandedIn(g: CampaignId) // calls whose retry no topic took
    | Retried(g: CampaignId)    // counted attempts beyond each call's first
    | RetryLogged(g: CampaignId) // attempts beyond the first that are in the log but not yet counted
    | Outcome(g: CampaignId, status: CallStatus)   // final outcomes with this status, counted or not
    | Uncounted(g: CampaignId, status: CallStatus) // those that are not counted yet
    | TakenBack(g: CampaignId)  // refused dispatches
    | Work                      // a bound on the steps left

  predicate Bears(t: Token, g: CampaignId) {
    t.Load().campaignId == g
  }

  predicate CountedAs(t: Token, status: CallStatus) {
    t.OutcomeCounted() && t.m.status == status && (status == Failed ==> !t.m.retryable)
  }

  /** A message that says how a call finally came out. */
  predicate FinalAs(t: Token, status: CallStatus) {
    t.HasStatus() && t.m.status == status && (status == Failed ==> !t.m.retryable)
  }

  /** Counted by TriggerCall, not ended, and not a final outcome that is counted already. */
  predicate Live(t: Token) {
    t.CallCounted() && !t.Ended() && !(t.OutcomeCounted() && !t.m.retryable)
  }

  function Indicator(b: bool): nat {
    if b then 1 else 0
  }

  /** Steps from a place to the end of its attempt. */
  function StageWeight(t: Token): nat {
    match t
    case Registered(_) => 12
    case Announced(_) => 11
    case InCallTopic(_) => 10
    case AwaitingSlot(_) => 9
    case OnCall(_) => 8
    case InStatusTopic(_) => 7
    case Recording(_, stage) =>
      (match stage case Fetched => 6 case Updated => 5 case Logged => 4 case Counted => 3)
    case InRetryTopic(_, _) => 12
    case Sleeping(_, _) => 11
    case _ => 0
  }

  /** At most 16 steps for each attempt that may still follow. */
  function WorkLeft(t: Token): nat {
    StageWeight(t) + (if t.Ended() || t.MaxAttempts() <= t.Attempt() then 0 else 16 * (t.MaxAttempts() - t.Attempt()))
  }

  function Weight(q: Gauge, t: Token): nat {
    match q
    case Of(c) => Indicator(t.Call() == c)
    case Triggered(g) => Indicator(Bears(t, g) && t.CallCounted())
    case Answered(g) => Indicator(Bears(t, g) && CountedAs(t, Completed))
    case GivenUp(g) => Indicator(Bears(t, g) && CountedAs(t, Failed))
    case Open(g) =>
      Indicator(Bears(t, g) && t.CallCounted() && !t.Refused? && !CountedAs(t, Completed) && !CountedAs(t, Failed))
    case Retried(g) =>
      if !Bears(t, g) then 0
      else if t.OutcomeCounted() then (if t.Attempt() > 1 then t.Attempt() - 1 else 0)
      else if t.Attempt() > 2 then t.Attempt() - 2 else 0
    case LiveIn(g) => Indicator(Bears(t, g) && Live(t))
    case StrandedIn(g) => Indicator(Bears(t, g) && t.Stranded?)
    case RetryLogged(g) => Indicator(Bears(t, g) && t.AttemptLogged() && !t.OutcomeCounted() && t.Attempt() > 1)
    case Outcome(g, status) => Indicator(Bears(t, g) && FinalAs(t, status))
    case Uncounted(g, status) => Indicator(Bears(t, g) && FinalAs(t, status) && !t.OutcomeCounted())
    case TakenBack(g) => Indicator(Bears(t, g) && t.Refused?)
    case Work => WorkLeft(t)
  }

  ghost function Pick(b: multiset<Token>): (t: Token)
    requires b != multiset{}
    ensures t in b
  {
    var t :| t in b; t
  }

  ghost function Total(q: Gauge, b: multiset<Token>): nat
    decreases |b|
  {
    if b == multiset{} then 0 else Weight(q, Pick(b)) + Total(q, b - multiset{Pick(b)})
  }

  /** The sum does not depend on the order in which the bag is emptied. */
  lemma {:induction false} TotalTake(q: Gauge, b: multiset<Token>, t: Token)
    requires t in b
    ensures Total(q, b) == Weight(q, t) + Total(q, b - multiset{t})
    decreases |b|
  {
    var u := Pick(b);
    if u != t {
      TotalTake(q, b - multiset{u}, t);
      TotalTake(q, b - multiset{t}, u);
      assert b - multiset{u} - multiset{t} == b - multiset{t} - multiset{u};
    }
  }

  lemma TotalPut(q: Gauge, b: multiset<Token>, t: Token)
    ensures Total(q, b + multiset{t}) == Total(q, b) + Weight(q, t)
  {
    TotalTake(q, b + multiset{t}, t);
    assert b + multiset{t} - multiset{t} == b;
  }

  lemma MoveShiftsTotal(q: Gauge, b: multiset<Token>, t: Token, u: Token)
    requires t in b
    ensures Total(q, b - multiset{t} + multiset{u}) == Total(q, b) + Weight(q, u) - Weight(q, t)
  {
    TotalTake(q, b, t);
    TotalPut(q, b - multiset{t}, u);
  }

  lemma {:induction false} TotalSplit(q: Gauge, a: multiset<Token>, b: multiset<Token>)
    ensures Total(q, a + b) == Total(q, a) + Total(q, b)
    decreases |b|
  {
    if b == multiset{} {
      assert a + b == a;
    } else {
      var t :| t in b;
      TotalSplit(q, a, b - multiset{t});
      TotalTake(q, b, t);
      TotalPut(q, a + (b - multiset{t}), t);
      assert a + (b - multiset{t}) + multiset{t} == a + b;
    }
  }

  lemma TotalAtLeast(q: Gauge, b: multiset<Token>, t: Token)
    requires t in b
    ensures Total(q, b) >= Weight(q, t)
  {
    TotalTake(q, b, t);
  }

  /** Sums of weights that agree on the bag are equal. */
  lemma {:induction false} TotalAlike(q: Gauge, r: Gauge, b: multiset<Token>)
    requires forall t :: t in b ==> Weight(q, t) == Weight(r, t)
    ensures Total(q, b) == Total(r, b)
    decreases |b|
  {
    if b != multiset{} {
      var t :| t in b;
      TotalTake(q, b, t);
      TotalTake(r, b, t);
      TotalAlike(q, r, b - multiset{t});
    }
  }

  /** Weights that add up token by token add up over a bag. */
  lemma {:induction false} TotalSum(q: Gauge, r: Gauge, u: Gauge, b: multiset<Token>)
    requires forall t :: t in b ==> Weight(q, t) + Weight(r, t) == Weight(u, t)
    ensures Total(q, b) + Total(r, b) == Total(u, b)
    decreases |b|
  {
    if b != multiset{} {
      var t :| t in b;
      TotalTake(q, b, t);
      TotalTake(r, b, t);
      TotalTake(u, b, t);
      TotalSum(q, r, u, b - multiset{t});
    }
  }

  /** A bag of weightless tokens adds up to nothing. */
  lemma {:induction false} TotalZero(q: Gauge, b: multiset<Token>)
    requires forall t :: t in b ==> Weight(q, t) == 0
    ensures Total(q, b) == 0
    decreases |b|
  {
    if b != multiset{} {
      var t :| t in b;
      TotalTake(q, b, t);
      TotalZero(q, b - multiset{t});
    }
  }

  /** Two tokens of a call that has one are the same token. */
  lemma OneOf(b: multiset<Token>, t: Token, u: Token)
    requires t in b && u in b && t.Call() == u.Call()
    requires Total(Of(t.Call()), b) <= 1
    ensures t == u && b[t] == 1
  {
    var q := Of(t.Call());
    TotalTake(q, b, t);
    if u in b - multiset{t} {
      TotalAtLeast(q, b - multiset{t}, u);
    }
  }

  /** A call with a positive count has a token. */
  lemma {:induction false} SomeOf(b: multiset<Token>, c: CallId) returns (t: Token)
    requires Total(Of(c), b) > 0
    ensures t in b && t.Call() == c
    decreases |b|
  {
    t :| t in b;
    if t.Call() != c {
      TotalTake(Of(c), b, t);
      t := SomeOf(b - multiset{t}, c);
    }
  }
}
