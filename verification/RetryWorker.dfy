/** internal/worker/retry/worker.go: one consumer of one retry topic, over the topic's whole log. */
module RetryWorker {
  import opened Wrappers
  import opened Messages
  import P = Pipeline
  import R = PipelineRuns

  /** How a sleep ends: by its timer, so much too late, or after so much time because the context ends. */
  datatype Wake = Timer(late: nat) | ContextEnds(after: nat)

  /** How the world answers for each message: time before it is fetched, the end of the sleep if there is one, and
      whether Kafka accepts the dispatch and the commit. */
  datatype Answer = Answer(before: nat, wake: Wake, sendOk: bool, commitOk: bool)

  /** A consumer's life: the messages it fetches, as far as they can be decoded, and their answers. */
  datatype Life = Life(log: seq<Option<RetryMessage>>, answers: seq<Answer>, start: int)
  {
    predicate Valid() {
      |log| == |answers|
    }
  }

  /** A log as the worker reads it. */
  function Decoded(codec: Codec, log: seq<Record>): seq<Option<RetryMessage>> {
    seq(|log|, i requires 0 <= i < |log| => DecodeRetry(codec, log[i]))
  }

  /** A message put back into the call topic: its place in the retry log and the time. */
  datatype Sent = Sent(index: nat, message: DispatchMessage, at: int)

  /** sleepUntil does not reach t. */
  predicate CutShort(clock: int, t: int, wake: Wake) {
    clock < t && wake.ContextEnds?
  }

  /** The clock after sleepUntil(t). */
  function Slept(clock: int, t: int, wake: Wake): int {
    if t <= clock then clock
    else match wake
         case Timer(late) => t + late
         case ContextEnds(after) => clock + after
  }

  /** The clock when message i has been fetched. */
  function ArrivalTime(h: Life, i: nat): int
    requires h.Valid() && i < |h.log|
    decreases i, 1
  {
    ClockAfter(h, i) + h.answers[i].before
  }

  /** The clock when the first n messages have been handled. */
  function ClockAfter(h: Life, n: nat): int
    requires h.Valid() && n <= |h.log|
    decreases n, 0
  {
    if n == 0 then h.start
    else match h.log[n - 1]
         case None => ArrivalTime(h, n - 1)
         case Some(r) => Slept(ArrivalTime(h, n - 1), r.nextAttempt, h.answers[n - 1].wake)
  }

  /** The worker has waited until the message is due. */
  predicate Waited(h: Life, i: nat)
    requires h.Valid() && i < |h.log|
  {
    h.log[i].Some? && !CutShort(ArrivalTime(h, i), h.log[i].value.nextAttempt, h.answers[i].wake)
  }

  predicate Forwarded(h: Life, i: nat)
    requires h.Valid() && i < |h.log|
  {
    Waited(h, i) && h.answers[i].sendOk
  }

  /** All messages but those whose dispatch fails are committed, if Kafka takes the commit. */
  predicate Commits(h: Life, i: nat)
    requires h.Valid() && i < |h.log|
  {
    h.answers[i].commitOk && (Waited(h, i) ==> h.answers[i].sendOk)
  }

  /** What is sent for a message, and when. */
  function SentFor(h: Life, i: nat): Sent
    requires h.Valid() && i < |h.log| && h.log[i].Some?
  {
    var now := ClockAfter(h, i + 1);
    Sent(i, h.log[i].value.dispatch.(enqueuedAt := now), now)
  }

  /** What the consumer sends for the first n messages, in log order. */
  function SentUpTo(h: Life, n: nat): seq<Sent>
    requires h.Valid() && n <= |h.log|
  {
    if n == 0 then [] else SentUpTo(h, n - 1) + if Forwarded(h, n - 1) then [SentFor(h, n - 1)] else []
  }

  /** How many of the first n messages the consumer commits. */
  function Committed(h: Life, n: nat): nat
    requires h.Valid() && n <= |h.log|
  {
    if n == 0 then 0 else Committed(h, n - 1) + if Commits(h, n - 1) then 1 else 0
  }

  /** A message that cannot be decoded, or whose sleep is cut short, is committed if Kafka takes the commit; one that
      was waited for only if its dispatch was accepted as well. */
  lemma CommitsExactly(h: Life, i: nat)
    requires h.Valid() && i < |h.log|
    ensures h.log[i].None? ==> (Commits(h, i) <==> h.answers[i].commitOk)
    ensures h.log[i].Some? ==>
              var due, clock := h.log[i].value.nextAttempt, ArrivalTime(h, i);
              && (clock < due && h.answers[i].wake.ContextEnds? ==> (Commits(h, i) <==> h.answers[i].commitOk))
              && (due <= clock || h.answers[i].wake.Timer? ==>
                    (Commits(h, i) <==> h.answers[i].commitOk && h.answers[i].sendOk))
  {
  }

  class Worker {
    const codec: Codec
    var clock: int
    var callTopic: seq<Sent>
    var committed: nat

    constructor (codec: Codec, clock: int)
      ensures this.codec == codec && this.clock == clock && callTopic == [] && committed == 0
    {
      this.codec := codec;
      this.clock, callTopic, committed := clock, [], 0;
    }

    method SleepUntil(t: int, wake: Wake) returns (r: Result<()>)
      modifies this`clock
      ensures clock == Slept(old(clock), t, wake)
      ensures clock == if t <= old(clock) then old(clock)
                       else match wake case Timer(late) => t + late case ContextEnds(after) => old(clock) + after
      ensures r.Ok? <==> !CutShort(old(clock), t, wake)
      ensures r.Ok? ==> t <= clock
    {
      var d := t - clock;
      if d <= 0 {
        return Ok(());
      }
      match wake {
        case Timer(late) =>
          clock := clock + d + late;
          return Ok(());
        case ContextEnds(after) =>
          clock := clock + after;
          return Err("context ended");
      }
    }

    method Commit(ok: bool)
      modifies this`committed
      ensures committed == old(committed) + if ok then 1 else 0
    {
      if ok {
        committed := committed + 1;
      }
    }

    /** consumeTopic over the messages that are fetched. */
    method ConsumeTopic(log: seq<Record>, answers: seq<Answer>)
      requires |log| == |answers|
      modifies this
      ensures var h := Life(Decoded(codec, log), answers, old(clock));
        && clock == ClockAfter(h, |log|)
        && callTopic == old(callTopic) + SentUpTo(h, |log|)
        && committed == old(committed) + Committed(h, |log|)
    {
      ghost var h := Life(Decoded(codec, log), answers, clock);
      var i := 0;
      while i < |log|
        invariant 0 <= i <= |log|
        invariant clock == ClockAfter(h, i)
        invariant callTopic == old(callTopic) + SentUpTo(h, i)
        invariant committed == old(committed) + Committed(h, i)
      {
        clock := clock + answers[i].before;
        var decoded := DecodeRetry(codec, log[i]);
        if decoded.None? {
          Commit(answers[i].commitOk);
        } else {
          Forward(h, i, decoded.value, answers[i]);
        }
        i := i + 1;
      }
    }

    /** The part of the loop after a message has been decoded. */
    method Forward(ghost h: Life, i: nat, r: RetryMessage, a: Answer)
      requires h.Valid() && i < |h.log| && h.log[i] == Some(r) && h.answers[i] == a
      requires clock == ArrivalTime(h, i)
      modifies this
      ensures clock == ClockAfter(h, i + 1)
      ensures callTopic == old(callTopic) + if Forwarded(h, i) then [SentFor(h, i)] else []
      ensures committed == old(committed) + if Commits(h, i) then 1 else 0
      ensures r.nextAttempt <= old(clock) || a.wake.Timer? ==>
                if a.sendOk
                then |callTopic| == |old(callTopic)| + 1 && committed == old(committed) + (if a.commitOk then 1 else 0)
                     && callTopic[|old(callTopic)|] == Sent(i, r.dispatch.(enqueuedAt := clock), clock)
                     && clock == (if old(clock) < r.nextAttempt then r.nextAttempt + a.wake.late else old(clock))
                else callTopic == old(callTopic) && committed == old(committed)
      ensures old(clock) < r.nextAttempt && a.wake.ContextEnds? ==>
                callTopic == old(callTopic) && committed == (old(committed) + if a.commitOk then 1 else 0)
                && clock == old(clock) + a.wake.after
    {
      var slept := SleepUntil(r.nextAttempt, a.wake);
      if slept.Err? {
        Commit(a.commitOk);
        return;
      }
      var dispatch := r.dispatch;
      dispatch := dispatch.(enqueuedAt := clock);
      if !a.sendOk {
        return;
      }
      callTopic := callTopic + [Sent(i, dispatch, clock)];
      Commit(a.commitOk);
    }
  }

  // ---------- Timing ----------

  lemma {:induction false} ClockGrows(h: Life, i: nat, n: nat)
    requires h.Valid() && i <= n <= |h.log|
    ensures ClockAfter(h, i) <= ClockAfter(h, n)
    ensures i < n ==> ClockAfter(h, i) + h.answers[i].before <= ClockAfter(h, n)
    decreases n
  {
    if i < n {
      ClockGrows(h, i, n - 1);
    }
  }

  /** When n messages have been handled, each of them that was waited for is due. */
  lemma {:induction false} AllDue(h: Life, n: nat, j: nat)
    requires h.Valid() && j < n <= |h.log| && Waited(h, j)
    ensures h.log[j].value.nextAttempt <= ClockAfter(h, n)
  {
    ClockGrows(h, j + 1, n);
  }

  /** The latest time among the messages waited for so far, and the start. */
  function RunningMax(h: Life, n: nat): int
    requires h.Valid() && n <= |h.log|
  {
    if n == 0 then h.start
    else
      var m := RunningMax(h, n - 1);
      if Waited(h, n - 1) && m < h.log[n - 1].value.nextAttempt then h.log[n - 1].value.nextAttempt else m
  }

  /** A consumer is never ahead of the running maximum, and exactly on it when nothing delays it. */
  lemma {:induction false} ClockIsRunningMax(h: Life, n: nat)
    requires h.Valid() && n <= |h.log|
    ensures RunningMax(h, n) <= ClockAfter(h, n)
    ensures (forall i :: 0 <= i < n ==> h.answers[i].before == 0 && h.answers[i].wake == Timer(0)) ==>
              ClockAfter(h, n) == RunningMax(h, n)
    decreases n
  {
    if n > 0 {
      ClockIsRunningMax(h, n - 1);
    }
  }

  /** A sent message is one of the log that was waited for and accepted, with its own content; and neither its own
      time nor that of any message ahead of it that was waited for has still to come. */
  predicate OnTime(h: Life, n: nat, x: Sent)
    requires h.Valid() && n <= |h.log|
  {
    && x.index < n && Forwarded(h, x.index) && x == SentFor(h, x.index)
    && RunningMax(h, x.index + 1) <= x.at
    && h.log[x.index].value.nextAttempt <= x.at
  }

  lemma {:induction false} SentOnTime(h: Life, n: nat, k: nat)
    requires h.Valid() && n <= |h.log| && k < |SentUpTo(h, n)|
    ensures OnTime(h, n, SentUpTo(h, n)[k])
    decreases n
  {
    var rest := SentUpTo(h, n - 1);
    if k < |rest| {
      SentOnTime(h, n - 1, k);
    } else {
      ClockIsRunningMax(h, n);
    }
  }

  /** Log order is kept, and so is the order of time. */
  lemma {:induction false} SentInOrder(h: Life, n: nat, k: nat, l: nat)
    requires h.Valid() && n <= |h.log| && k < l < |SentUpTo(h, n)|
    ensures var sent := SentUpTo(h, n);
      sent[k].index < sent[l].index && sent[k].at <= sent[l].at
    decreases n
  {
    var rest := SentUpTo(h, n - 1);
    if l < |rest| {
      SentInOrder(h, n - 1, k, l);
    } else {
      SentOnTime(h, n - 1, k);
      ClockGrows(h, rest[k].index + 1, n);
    }
  }

  /** Every message that is waited for and accepted is sent. */
  lemma {:induction false} AcceptedAreSent(h: Life, n: nat, i: nat)
    requires h.Valid() && i < n <= |h.log| && Forwarded(h, i)
    ensures exists k :: 0 <= k < |SentUpTo(h, n)| && SentUpTo(h, n)[k].index == i
    decreases n
  {
    var rest := SentUpTo(h, n - 1);
    var sent := SentUpTo(h, n);
    if i == n - 1 {
      assert sent[|rest|].index == i;
    } else {
      AcceptedAreSent(h, n - 1, i);
      var k :| 0 <= k < |rest| && rest[k].index == i;
      assert sent[k] == rest[k];
    }
  }

  // ---------- Refinement ----------

  /** What becomes of a message of the retry topic: whether it stays to be delivered again, and when it was sent. */
  datatype Fate = Fate(kept: bool, sentAt: Option<int>)

  /** A message that is not committed is delivered again, or passed over by a later commit. */
  function FateOf(h: Life, i: nat, again: bool): Fate
    requires h.Valid() && i < |h.log|
  {
    Fate(!Commits(h, i) && again, if Forwarded(h, i) then Some(ClockAfter(h, i + 1)) else None)
  }

  /** What the call topic gets of it. */
  function Arrival(codec: Codec, r: RetryMessage, f: Fate): multiset<P.Token> {
    if f.sentAt.None? then multiset{}
    else multiset{P.InCallTopic(Delivered(codec, r).dispatch.(enqueuedAt := f.sentAt.value))}
  }

  /** What leaves the retry topic. */
  function Leaving(topic: int, r: RetryMessage, f: Fate): multiset<P.Token> {
    if f.kept then multiset{} else multiset{P.InRetryTopic(topic, r)}
  }

  /** The pipeline steps of a message. */
  function Trace(codec: Codec, topic: int, r: RetryMessage, f: Fate): seq<P.Step> {
    if f.sentAt.None? then [P.Step(P.FetchRetry(topic, r), P.Fault(f.kept, true, false))]
    else [R.Fetching(P.FetchRetry(topic, r), f.kept), R.Clean(P.Forward(topic, Delivered(codec, r), f.sentAt.value))]
  }

  predicate Timely(r: RetryMessage, f: Fate) {
    f.sentAt.Some? ==> r.nextAttempt <= f.sentAt.value
  }

  /** A message whose fate is timely may take its steps. */
  lemma FateState(cfg: P.Config, s: P.System, topic: int, r: RetryMessage, f: Fate) returns (s': P.System)
    requires P.InRetryTopic(topic, r) in s.tokens && Timely(r, f)
    ensures R.Runs(cfg, s, Trace(cfg.codec, topic, r, f), s') && R.OnlyMoved(s, s')
    ensures s'.tokens == R.Rest(s, P.InRetryTopic(topic, r), f.kept) + Arrival(cfg.codec, r, f)
  {
    if f.sentAt.None? {
      s' := R.LosingHop(cfg, s, P.Step(P.FetchRetry(topic, r), P.Fault(f.kept, true, false)));
    } else {
      s' := R.TwoHops(cfg, s, R.Fetching(P.FetchRetry(topic, r), f.kept),
                      R.Clean(P.Forward(topic, Delivered(cfg.codec, r), f.sentAt.value)));
    }
  }

  /** The log holds at i what the status worker wrote as `r`. */
  predicate Holds(codec: Codec, h: Life, i: nat, r: RetryMessage)
    requires i < |h.log|
  {
    h.log[i] == Some(Delivered(codec, r))
  }

  lemma WrittenIsHeld(codec: Codec, log: seq<Record>, answers: seq<Answer>, start: int, i: nat, r: RetryMessage)
    requires i < |log| && log[i] == EncodeRetry(r)
    ensures Holds(codec, Life(Decoded(codec, log), answers, start), i, r)
  {
    RetryHop(codec, r);
  }

  /** The worker's doing is timely, and what it sends is what the pipeline sends. */
  lemma FateIsTimely(codec: Codec, h: Life, i: nat, r: RetryMessage, again: bool)
    requires h.Valid() && i < |h.log| && Holds(codec, h, i, r)
    ensures Timely(r, FateOf(h, i, again))
    ensures Matches(codec, h, r, FateOf(h, i, again), i)
  {
  }

  /** A message's arrival is what the worker sent. */
  predicate Matches(codec: Codec, h: Life, r: RetryMessage, f: Fate, i: nat)
    requires h.Valid() && i < |h.log|
  {
    if Forwarded(h, i) then Arrival(codec, r, f) == multiset{P.InCallTopic(SentFor(h, i).message)}
    else Arrival(codec, r, f) == multiset{}
  }

  /** Handling message i, which the status worker wrote as `r`, is a run of the pipeline that takes it from its retry
      topic exactly if it is committed (or passed over), and puts into the call topic what the worker sent, if it
      did. In particular the worker sends only when the pipeline lets it: the message is due. */
  lemma ConsumingRefines(cfg: P.Config, s: P.System, h: Life, i: nat, topic: int, r: RetryMessage, again: bool)
    requires h.Valid() && i < |h.log| && Holds(cfg.codec, h, i, r) && P.InRetryTopic(topic, r) in s.tokens
    ensures var run := Trace(cfg.codec, topic, r, FateOf(h, i, again));
      var s' := P.After(cfg, s, run);
      && P.FaultyRun(cfg, s, run) && R.OnlyMoved(s, s')
      && s'.tokens == R.Rest(s, P.InRetryTopic(topic, r), !Commits(h, i) && again)
                      + if Forwarded(h, i) then multiset{P.InCallTopic(SentFor(h, i).message)} else multiset{}
  {
    FateIsTimely(cfg.codec, h, i, r, again);
    var _ := FateState(cfg, s, topic, r, FateOf(h, i, again));
  }

  /** The same for what has been sent, whatever the log before and after it: the message in the call topic is that
      of the pipeline. */
  lemma SentIsRun(cfg: P.Config, s: P.System, h: Life, n: nat, k: nat, topic: int, r: RetryMessage, again: bool)
    requires h.Valid() && n <= |h.log| && k < |SentUpTo(h, n)|
    requires var x := SentUpTo(h, n)[k];
      x.index < |h.log| && Holds(cfg.codec, h, x.index, r) && P.InRetryTopic(topic, r) in s.tokens
    ensures var x := SentUpTo(h, n)[k];
      var kept := !h.answers[x.index].commitOk && again;
      var run := [R.Fetching(P.FetchRetry(topic, r), kept), R.Clean(P.Forward(topic, Delivered(cfg.codec, r), x.at))];
      && P.FaultyRun(cfg, s, run)
      && P.After(cfg, s, run).tokens == R.Rest(s, P.InRetryTopic(topic, r), kept) + multiset{P.InCallTopic(x.message)}
  {
    SentOnTime(h, n, k);
    ConsumingRefines(cfg, s, h, SentUpTo(h, n)[k].index, topic, r, again);
  }

  lemma CleanTrace(cfg: P.Config, s: P.System, topic: int, r: RetryMessage, f: Fate)
    requires P.InRetryTopic(topic, r) in s.tokens && Timely(r, f)
    ensures P.CleanRun(cfg, s, Trace(cfg.codec, topic, r, f)) <==> f.sentAt.Some? && !f.kept
  {
    var _ := FateState(cfg, s, topic, r, f);
    var run := Trace(cfg.codec, topic, r, f);
    assert run[0].fault == P.NO_FAULT <==> f.sentAt.Some? && !f.kept;
  }

  /** The steps of message i are clean ones exactly if it is forwarded and committed. */
  lemma CleanExactly(cfg: P.Config, s: P.System, h: Life, i: nat, topic: int, r: RetryMessage)
    requires h.Valid() && i < |h.log| && Holds(cfg.codec, h, i, r) && P.InRetryTopic(topic, r) in s.tokens
    ensures P.CleanRun(cfg, s, Trace(cfg.codec, topic, r, FateOf(h, i, true)))
       <==> Forwarded(h, i) && h.answers[i].commitOk
  {
    FateIsTimely(cfg.codec, h, i, r, true);
    CleanTrace(cfg, s, topic, r, FateOf(h, i, true));
  }

  // ---------- The whole log ----------

  /** The log's messages as the pipeline holds them. */
  function Pile(topic: int, rs: seq<RetryMessage>, n: nat): multiset<P.Token>
    requires n <= |rs|
  {
    if n == 0 then multiset{} else Pile(topic, rs, n - 1) + multiset{P.InRetryTopic(topic, rs[n - 1])}
  }

  /** Those of the first n that leave the retry topic. */
  function Gone(topic: int, rs: seq<RetryMessage>, fs: seq<Fate>, n: nat): multiset<P.Token>
    requires n <= |rs| == |fs|
  {
    if n == 0 then multiset{} else Gone(topic, rs, fs, n - 1) + Leaving(topic, rs[n - 1], fs[n - 1])
  }

  function Arrived(codec: Codec, rs: seq<RetryMessage>, fs: seq<Fate>, n: nat): multiset<P.Token>
    requires n <= |rs| == |fs|
  {
    if n == 0 then multiset{} else Arrived(codec, rs, fs, n - 1) + Arrival(codec, rs[n - 1], fs[n - 1])
  }

  function TraceAll(codec: Codec, topic: int, rs: seq<RetryMessage>, fs: seq<Fate>, n: nat): seq<P.Step>
    requires n <= |rs| == |fs|
  {
    if n == 0 then [] else TraceAll(codec, topic, rs, fs, n - 1) + Trace(codec, topic, rs[n - 1], fs[n - 1])
  }

  lemma {:induction false} GoneIsPart(topic: int, rs: seq<RetryMessage>, fs: seq<Fate>, n: nat)
    requires n <= |rs| == |fs|
    ensures Gone(topic, rs, fs, n) <= Pile(topic, rs, n)
  {
    if n > 0 {
      GoneIsPart(topic, rs, fs, n - 1);
    }
  }

  lemma {:induction false} FatesState(cfg: P.Config, s: P.System, topic: int, rs: seq<RetryMessage>, fs: seq<Fate>,
                                      n: nat)
    returns (s': P.System)
    requires n <= |rs| == |fs| && Pile(topic, rs, n) <= s.tokens
    requires forall i :: 0 <= i < n ==> Timely(rs[i], fs[i])
    ensures R.Runs(cfg, s, TraceAll(cfg.codec, topic, rs, fs, n), s') && R.OnlyMoved(s, s')
    ensures s'.tokens == s.tokens - Gone(topic, rs, fs, n) + Arrived(cfg.codec, rs, fs, n)
    decreases n
  {
    if n == 0 {
      s' := NoneYet(cfg, s, topic, rs, fs);
    } else {
      PileFits(s, topic, rs, fs, n);
      var mid := FatesState(cfg, s, topic, rs, fs, n - 1);
      s' := FatesNext(cfg, s, mid, topic, rs, fs, n);
    }
  }

  lemma NoneYet(cfg: P.Config, s: P.System, topic: int, rs: seq<RetryMessage>, fs: seq<Fate>) returns (s': P.System)
    requires |rs| == |fs|
    ensures R.Runs(cfg, s, TraceAll(cfg.codec, topic, rs, fs, 0), s') && R.OnlyMoved(s, s')
    ensures s'.tokens == s.tokens - Gone(topic, rs, fs, 0) + Arrived(cfg.codec, rs, fs, 0)
  {
    s' := s;
  }

  lemma PileFits(s: P.System, topic: int, rs: seq<RetryMessage>, fs: seq<Fate>, n: nat)
    requires 0 < n <= |rs| == |fs| && Pile(topic, rs, n) <= s.tokens
    ensures Pile(topic, rs, n - 1) <= s.tokens
    ensures Gone(topic, rs, fs, n - 1) + multiset{P.InRetryTopic(topic, rs[n - 1])} <= s.tokens
  {
    GoneIsPart(topic, rs, fs, n - 1);
  }

  lemma FatesNext(cfg: P.Config, s: P.System, mid: P.System, topic: int, rs: seq<RetryMessage>, fs: seq<Fate>, n: nat)
    returns (s': P.System)
    requires 0 < n <= |rs| == |fs| && Timely(rs[n - 1], fs[n - 1])
    requires Gone(topic, rs, fs, n - 1) + multiset{P.InRetryTopic(topic, rs[n - 1])} <= s.tokens
    requires R.Runs(cfg, s, TraceAll(cfg.codec, topic, rs, fs, n - 1), mid) && R.OnlyMoved(s, mid)
    requires mid.tokens == s.tokens - Gone(topic, rs, fs, n - 1) + Arrived(cfg.codec, rs, fs, n - 1)
    ensures R.Runs(cfg, s, TraceAll(cfg.codec, topic, rs, fs, n), s') && R.OnlyMoved(s, s')
    ensures s'.tokens == s.tokens - Gone(topic, rs, fs, n) + Arrived(cfg.codec, rs, fs, n)
  {
    var r, f := rs[n - 1], fs[n - 1];
    var gone, put := Gone(topic, rs, fs, n - 1), Arrived(cfg.codec, rs, fs, n - 1);
    R.Exchange(s.tokens, gone, put, P.InRetryTopic(topic, r), multiset{});
    s' := FateState(cfg, mid, topic, r, f);
    R.OneMore(cfg, s, TraceAll(cfg.codec, topic, rs, fs, n - 1), mid, Trace(cfg.codec, topic, r, f), s',
              gone, put, P.InRetryTopic(topic, r), Arrival(cfg.codec, r, f), f.kept);
  }

  function FatesOf(h: Life, again: bool): seq<Fate>
    requires h.Valid()
  {
    seq(|h.log|, i requires 0 <= i < |h.log| => FateOf(h, i, again))
  }

  /** The messages that the worker sent, in the call topic. */
  function InTopic(sent: seq<Sent>): multiset<P.Token>
    decreases |sent|
  {
    if sent == [] then multiset{}
    else InTopic(sent[..|sent| - 1]) + multiset{P.InCallTopic(sent[|sent| - 1].message)}
  }

  lemma InTopicNext(sent: seq<Sent>, x: Sent)
    ensures InTopic(sent + [x]) == InTopic(sent) + multiset{P.InCallTopic(x.message)}
  {
    assert (sent + [x])[..|sent|] == sent;
  }

  lemma {:induction false} SentHasArrived(codec: Codec, h: Life, rs: seq<RetryMessage>, fs: seq<Fate>, n: nat)
    requires h.Valid() && n <= |h.log| == |rs| == |fs|
    requires forall i :: 0 <= i < |rs| ==> Matches(codec, h, rs[i], fs[i], i)
    ensures Arrived(codec, rs, fs, n) == InTopic(SentUpTo(h, n))
  {
    if n > 0 {
      SentHasArrived(codec, h, rs, fs, n - 1);
      assert Matches(codec, h, rs[n - 1], fs[n - 1], n - 1);
      if Forwarded(h, n - 1) {
        InTopicNext(SentUpTo(h, n - 1), SentFor(h, n - 1));
      } else {
        assert SentUpTo(h, n) == SentUpTo(h, n - 1);
      }
    }
  }

  lemma LifeRefines(cfg: P.Config, s: P.System, h: Life, topic: int, rs: seq<RetryMessage>, again: bool)
    requires h.Valid() && |h.log| == |rs| && Pile(topic, rs, |rs|) <= s.tokens
    requires forall i :: 0 <= i < |rs| ==> Holds(cfg.codec, h, i, rs[i])
    ensures var fs := FatesOf(h, again);
      var run := TraceAll(cfg.codec, topic, rs, fs, |rs|);
      var s' := P.After(cfg, s, run);
      && P.FaultyRun(cfg, s, run) && R.OnlyMoved(s, s')
      && s'.tokens == s.tokens - Gone(topic, rs, fs, |rs|) + InTopic(SentUpTo(h, |rs|))
  {
    var fs := FatesOf(h, again);
    forall i | 0 <= i < |rs| ensures Timely(rs[i], fs[i]) && Matches(cfg.codec, h, rs[i], fs[i], i) {
      FateIsTimely(cfg.codec, h, i, rs[i], again);
    }
    SentHasArrived(cfg.codec, h, rs, fs, |rs|);
    var _ := FatesState(cfg, s, topic, rs, fs, |rs|);
  }

  /** Consuming a whole log of what status workers wrote is a run of the pipeline: all committed (or passed-over)
      messages leave the retry topic, exactly the messages that the worker sent come into the call topic, and
      nothing else changes. */
  lemma LogRefines(cfg: P.Config, s: P.System, log: seq<Record>, answers: seq<Answer>, start: int,
                   topic: int, rs: seq<RetryMessage>, again: bool)
    requires |log| == |answers| == |rs| && Pile(topic, rs, |rs|) <= s.tokens
    requires forall i :: 0 <= i < |rs| ==> log[i] == EncodeRetry(rs[i])
    ensures var h := Life(Decoded(cfg.codec, log), answers, start);
      var fs := FatesOf(h, again);
      var run := TraceAll(cfg.codec, topic, rs, fs, |rs|);
      var s' := P.After(cfg, s, run);
      && P.FaultyRun(cfg, s, run) && R.OnlyMoved(s, s')
      && s'.tokens == s.tokens - Gone(topic, rs, fs, |rs|) + InTopic(SentUpTo(h, |rs|))
  {
    var h := Life(Decoded(cfg.codec, log), answers, start);
    forall i | 0 <= i < |rs| ensures Holds(cfg.codec, h, i, rs[i]) {
      WrittenIsHeld(cfg.codec, log, answers, start, i, rs[i]);
    }
    LifeRefines(cfg, s, h, topic, rs, again);
  }
}
