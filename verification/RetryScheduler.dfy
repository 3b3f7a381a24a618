/** internal/queue/retry_scheduler.go: one topic a failed attempt, numbered from 1. */
module RetryScheduler {
  import opened Wrappers
  import opened Messages
  import P = Pipeline

  class Scheduler {
    /** What has been written to each retry topic, as it is on the wire. */
    var writers: seq<seq<Record>>

    constructor (topics: seq<string>)
      ensures |writers| == |topics|
      ensures forall i :: 0 <= i < |writers| ==> writers[i] == []
    {
      var ws: seq<seq<Record>> := [];
      for i := 0 to |topics|
        invariant |ws| == i
        invariant forall j :: 0 <= j < i ==> ws[j] == []
      {
        ws := ws + [[]];
      }
      writers := ws;
    }

    /** Attempt k goes to topic k and to no other; an attempt without a topic is an error. */
    method ScheduleRetry(attempt: int, msg: RetryMessage, ok: bool) returns (r: Result<()>)
      modifies this
      ensures r.Ok? <==> P.HasTopic(old(|writers|), attempt) && ok
      ensures writers == if r.Ok? then old(writers)[attempt - 1 := old(writers)[attempt - 1] + [EncodeRetry(msg)]]
                         else old(writers)
    {
      if attempt <= 0 || attempt > |writers| {
        return Err("attempt out of range");
      }
      if !ok {
        return Err("write");
      }
      writers := writers[attempt - 1 := writers[attempt - 1] + [EncodeRetry(msg)]];
      return Ok(());
    }
  }
}
