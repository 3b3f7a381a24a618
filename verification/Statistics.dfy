/** internal/repository/postgres/statistics_repository.go: one row of counters a campaign. */
module Statistics {
  import opened Wrappers
  import opened Messages

  /** A row of campaign_statistics, and also the shape of a StatsDelta. */
  datatype Counters = Counters(total: int, completed: int, failed: int, inProgress: int, pending: int, retries: int)

  const ZERO := Counters(0, 0, 0, 0, 0, 0)

  function Add(a: Counters, b: Counters): Counters {
    Counters(a.total + b.total, a.completed + b.completed, a.failed + b.failed,
             a.inProgress + b.inProgress, a.pending + b.pending, a.retries + b.retries)
  }

  /** UPDATE ... WHERE campaign_id: a campaign without a row is left alone. */
  function Applied(rows: map<CampaignId, Counters>, g: CampaignId, delta: Counters): map<CampaignId, Counters> {
    if g in rows then rows[g := Add(rows[g], delta)] else rows
  }

  /** What TriggerCall adds for a new call, and what it takes back when the dispatch fails. */
  const ON_TRIGGER := Counters(1, 0, 0, 0, 1, 0)
  const ON_REFUSAL := Counters(0, 0, 0, 0, -1, 0)

  /** The delta of one status message. */
  function OutcomeDelta(m: StatusMessage): Counters {
    var final := m.status == Completed || (m.status == Failed && !m.retryable);
    Counters(0,
             if m.status == Completed then 1 else 0,
             if m.status == Failed && !m.retryable then 1 else 0,
             0,
             if final then -1 else 0,
             if m.attempt > 1 then 1 else 0)
  }

  /** The status worker leaves the counters alone when the message names no campaign. */
  function AfterOutcome(rows: map<CampaignId, Counters>, m: StatusMessage): map<CampaignId, Counters> {
    if m.campaignId == NIL_CAMPAIGN then rows else Applied(rows, m.campaignId, OutcomeDelta(m))
  }

  class StatisticsTable {
    var rows: map<CampaignId, Counters>

    constructor ()
      ensures rows == map[]
    {
      rows := map[];
    }

    /** INSERT ... ON CONFLICT DO NOTHING. */
    method Ensure(g: CampaignId, ok: bool) returns (r: Result<()>)
      modifies this
      ensures r.Ok? <==> ok
      ensures rows == if ok && g !in old(rows) then old(rows)[g := ZERO] else old(rows)
    {
      if !ok {
        return Err("ensure");
      }
      if g !in rows {
        rows := rows[g := ZERO];
      }
      return Ok(());
    }

    /** One UPDATE that adds all six deltas. */
    method ApplyDelta(g: CampaignId, delta: Counters, ok: bool) returns (r: Result<()>)
      modifies this
      ensures r.Ok? <==> ok
      ensures rows == if ok then Applied(old(rows), g, delta) else old(rows)
    {
      if !ok {
        return Err("apply delta");
      }
      if g in rows {
        var c := rows[g];
        rows := rows[g := Counters(
          c.total + delta.total, c.completed + delta.completed, c.failed + delta.failed,
          c.inProgress + delta.inProgress, c.pending + delta.pending, c.retries + delta.retries)];
      }
      return Ok(());
    }
  }
}
