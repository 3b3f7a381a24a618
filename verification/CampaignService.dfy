/**
 internal/service/campaign/service.go: Create, which writes to four tables one after the other. What it leaves
 when one of them fails, and what a campaign it made is worth to the call service.
 */
module CampaignService {
  import opened Wrappers
  import opened Messages
  import opened Statistics
  import opened Targets
  import B = Backoff
  import H = BusinessHours
  import C = CallService

  datatype Input = Input(
    name: string, timeZone: string, zoneLoads: bool, maxConcurrent: int, policy: B.Policy,
    windows: seq<H.ClockWindow>, targets: seq<TargetInput>)

  /** The id uuid.New draws, the time, and the answers of the four tables. */
  datatype Answers = Answers(id: CampaignId, now: int, createOk: bool, hoursOk: bool, ensureOk: bool, insertOk: bool)

  /** The columns of a campaign that Create computes. Durations are stored in milliseconds. */
  datatype Row = Row(name: string, maxConcurrent: int, maxAttempts: int, baseMs: int, maxMs: int, jitter: real)

  /** validateCreateInput. */
  predicate Accepts(input: Input) {
    && input.name != "" && input.timeZone != "" && input.zoneLoads
    && forall i :: 0 <= i < |input.windows| ==> H.CreationAccepts(input.windows[i])
  }

  function RowFor(input: Input, defaultConcurrency: int): Row {
    var p := B.NormalizeRetry(input.policy);
    Row(input.name, if input.maxConcurrent <= 0 then defaultConcurrency else input.maxConcurrent,
        p.maxAttempts, B.StoredMs(p.base), B.StoredMs(p.max), p.jitter)
  }

  /** What the call service reads back. */
  function Loaded(row: Row): C.Campaign {
    C.Campaign(
      B.Policy(row.maxAttempts, B.Wrap(row.baseMs * B.MS), B.Wrap(row.maxMs * B.MS), row.jitter),
      row.maxConcurrent)
  }

  /** The unique index on LOWER(name); what LOWER does is up to the database. */
  predicate NameTaken(campaigns: map<CampaignId, Row>, lower: string -> string, name: string) {
    exists id :: id in campaigns && lower(campaigns[id].name) == lower(name)
  }

  class Service {
    const hours: H.Repository
    const stats: StatisticsTable
    const targets: TargetTable
    const defaultConcurrency: int
    const lower: string -> string
    var campaigns: map<CampaignId, Row>

    constructor (hours: H.Repository, stats: StatisticsTable, targets: TargetTable, defaultConcurrency: int,
                 lower: string -> string)
      ensures this.hours == hours && this.stats == stats && this.targets == targets
      ensures this.defaultConcurrency == defaultConcurrency && this.lower == lower && campaigns == map[]
    {
      this.hours, this.stats, this.targets, this.defaultConcurrency := hours, stats, targets, defaultConcurrency;
      this.lower := lower;
      campaigns := map[];
    }

    method Validate(input: Input) returns (r: Result<()>)
      ensures r.Ok? <==> Accepts(input)
      ensures r.Ok? <==>
                && input.name != "" && input.timeZone != "" && input.zoneLoads
                && forall i :: 0 <= i < |input.windows| ==>
                     var w := input.windows[i];
                     w.start.hour * 60 + w.start.minute != w.end.hour * 60 + w.end.minute
    {
      if input.name == "" {
        return Err("campaign name is required");
      }
      if input.timeZone == "" {
        return Err("time zone is required");
      }
      if !input.zoneLoads {
        return Err("invalid time zone");
      }
      for i := 0 to |input.windows|
        invariant forall j :: 0 <= j < i ==> H.CreationAccepts(input.windows[j])
      {
        if H.MinuteOf(input.windows[i].start) == H.MinuteOf(input.windows[i].end) {
          return Err("business hour window must have positive duration");
        }
      }
      return Ok(());
    }

    /** Create. `done` is how many of the four tables were written; what was written stays. */
    method Create(input: Input, a: Answers) returns (r: Result<CampaignId>, ghost done: nat)
      modifies this`campaigns, hours, stats, targets
      ensures done > 0 <==> Accepts(input) && a.createOk && !NameTaken(old(campaigns), lower, input.name)
      ensures done > 1 <==> done > 0 && a.hoursOk && H.Storable(input.windows)
      ensures done > 2 <==> done > 1 && a.ensureOk
      ensures done > 3 <==> done > 2 && (input.targets == [] || a.insertOk)
      ensures r.Ok? <==> done == 4
      ensures r.Ok? ==> r.value == a.id
      ensures campaigns == if done > 0 then old(campaigns)[a.id := RowFor(input, defaultConcurrency)]
                           else old(campaigns)
      ensures done <= 1 ==> hours.rows == old(hours.rows)
      ensures done > 1 ==>
                && H.Holds(hours.RowsOf(a.id), input.windows)
                && forall h :: h != a.id ==> hours.RowsOf(h) == old(hours.RowsOf(h))
      ensures stats.rows == if done > 2 && a.id !in old(stats.rows) then old(stats.rows)[a.id := ZERO]
                            else old(stats.rows)
      ensures r.Ok? && FreshInputs(old(targets.rows), input.targets) ==>
                Gained(old(targets.rows), targets.rows, a.id, input.targets, a.now)
      ensures targets.rows == if done > 3 then Inserted(old(targets.rows), Records(a.id, input.targets, a.now))
                              else old(targets.rows)
    {
      done := 0;
      var valid := Validate(input);
      if valid.Err? {
        return Err(valid.reason), done;
      }
      if !a.createOk || NameTaken(campaigns, lower, input.name) {
        return Err("create campaign"), done;
      }
      var policy := B.NormalizeRetry(input.policy);
      var concurrency := input.maxConcurrent;
      if concurrency <= 0 {
        concurrency := defaultConcurrency;
      }
      campaigns := campaigns[a.id :=
        Row(input.name, concurrency, policy.maxAttempts, B.StoredMs(policy.base), B.StoredMs(policy.max),
            policy.jitter)];
      done := 1;
      var replaced := hours.Replace(a.id, input.windows, a.hoursOk);
      if replaced.Err? {
        return Err("store business hours"), done;
      }
      done := 2;
      var ensured := stats.Ensure(a.id, a.ensureOk);
      if ensured.Err? {
        return Err("ensure stats"), done;
      }
      done := 3;
      var stored := StoreTargets(targets, a.id, input.targets, a.now, a.insertOk);
      if stored.Err? {
        return Err("store targets"), done;
      }
      done := 4;
      return Ok(a.id), done;
    }
  }

  // ---------- A created campaign ----------

  lemma {:induction false} RowPhonesOf(g: CampaignId, inputs: seq<TargetInput>, now: int)
    ensures RowPhones(Records(g, inputs, now)) == set i | 0 <= i < |inputs| :: inputs[i].phone
    decreases |inputs|
  {
    if inputs != [] {
      var n := |inputs| - 1;
      RowPhonesOf(g, inputs[..n], now);
      assert Records(g, inputs, now)[..n] == Records(g, inputs[..n], now);
      forall p ensures p in RowPhones(Records(g, inputs, now))
          <==> exists i :: 0 <= i < |inputs| && inputs[i].phone == p {
        if i :| 0 <= i < n && inputs[i].phone == p {
          assert inputs[..n][i].phone == p;
        }
        assert inputs[n].phone == p ==> exists i :: 0 <= i < |inputs| && inputs[i].phone == p;
      }
    }
  }

  /** A campaign that was created has exactly the numbers it was given, and every later sequence of additions leaves
      it those. */
  lemma CreatedHasItsNumbers(t: Table, g: CampaignId, inputs: seq<TargetInput>, now: int, additions: seq<Addition>)
    requires forall i :: i in t ==> t[i].campaignId != g
    requires forall i :: 0 <= i < |inputs| ==> inputs[i].id !in t
    requires forall i, j :: 0 <= i < j < |inputs| ==> inputs[i].id != inputs[j].id
    ensures PhonesOf(Added(Inserted(t, Records(g, inputs, now)), additions), g) ==
              set i | 0 <= i < |inputs| :: inputs[i].phone
  {
    var created := Inserted(t, Records(g, inputs, now));
    InsertAddsPhones(t, Records(g, inputs, now), g);
    RowPhonesOf(g, inputs, now);
    AddTargetsKeepsPhones(created, additions, g);
    assert PhonesOf(t, g) == {};
  }

  /** But it keeps its name: creating it again is refused, whatever other campaigns have been created meanwhile. */
  lemma {:induction false} HalfCreatedKeepsName(campaigns: map<CampaignId, Row>, lower: string -> string,
                                                id: CampaignId, input: Input,
                                                others: seq<(CampaignId, Row)>, standard: int, again: string)
    requires lower(again) == lower(input.name)
    requires forall i :: 0 <= i < |others| ==> others[i].0 != id
    ensures NameTaken(Stored(campaigns[id := RowFor(input, standard)], others), lower, again)
  {
    StoredKeeps(campaigns[id := RowFor(input, standard)], others, id);
    assert id in Stored(campaigns[id := RowFor(input, standard)], others);
  }

  /** Campaigns stored later, each under an id of its own. */
  function Stored(campaigns: map<CampaignId, Row>, others: seq<(CampaignId, Row)>): map<CampaignId, Row>
    decreases |others|
  {
    if others == [] then campaigns
    else Stored(campaigns, others[..|others| - 1])[others[|others| - 1].0 := others[|others| - 1].1]
  }

  lemma {:induction false} StoredKeeps(campaigns: map<CampaignId, Row>, others: seq<(CampaignId, Row)>, id: CampaignId)
    requires id in campaigns && forall i :: 0 <= i < |others| ==> others[i].0 != id
    ensures id in Stored(campaigns, others) && Stored(campaigns, others)[id] == campaigns[id]
    decreases |others|
  {
    if others != [] {
      StoredKeeps(campaigns, others[..|others| - 1], id);
    }
  }

  /** A create that fails half-way leaves a campaign that can never have a call: whatever is added later, the
      call service refuses every number. */
  lemma HalfCreatedTakesNoCalls(t: Table, g: CampaignId, additions: seq<Addition>, listed: seq<TargetId>, phone: string)
    requires forall i :: i in t ==> t[i].campaignId != g
    requires var t' := Added(t, additions); OldestOf(t', Matching(t', g, None), ALL, listed)
    ensures phone !in PhonesAt(Added(t, additions), listed)
  {
    assert PhonesOf(t, g) == {};
    AddTargetsKeepsPhones(t, additions, g);
    C.AcceptedIsRegistered(Added(t, additions), g, listed, phone);
  }

  lemma MsSurvive(d: int)
    requires 0 <= d <= B.MAX64
    ensures B.StoredMs(B.Wrap(B.StoredMs(d) * B.MS)) == B.StoredMs(d)
  {
    assert B.StoredMs(d) * B.MS <= d;
  }

  /** Through the table and the call service, a call worker gets the normalised policy in whole milliseconds, and the
      limit that was asked for, or the default of the first service that has one. */
  lemma CreatedPolicyReachesWorker(input: Input, defaultConcurrency: int, defaultLimit: int, call: C.Input,
                                   a: C.Answers)
    requires input.policy.base <= B.MAX64 && input.policy.max <= B.MAX64
    ensures var p := B.NormalizeRetry(input.policy);
      var d := C.FirstDispatch(Loaded(RowFor(input, defaultConcurrency)), call, defaultLimit, a);
      && d.maxAttempts == p.maxAttempts > 0
      && d.baseMs == B.StoredMs(p.base) && d.maxMs == B.StoredMs(p.max) && d.jitter == p.jitter
      && 0 <= d.baseMs <= d.maxMs
      && d.limit == (if input.maxConcurrent > 0 then input.maxConcurrent
                     else if defaultConcurrency > 0 then defaultConcurrency else defaultLimit)
  {
    var p := B.NormalizeRetry(input.policy);
    B.NormalizeIsNormal(input.policy);
    MsSurvive(p.base);
    MsSurvive(p.max);
  }
}
