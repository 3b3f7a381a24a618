/**
 Campaign targets: the repository (internal/repository/postgres/target_repository.go) as operations on a
 table, and the campaign service's Create and AddTargets, which fill it.
 */
module Targets {
  import opened Wrappers
  import opened Messages

  type TargetId = nat

  /** The state column; the code writes "pending" and "queued". */
  datatype State = Waiting | Dispatched | Named(text: string)

  datatype Target = Target(
    campaignId: CampaignId, phone: string, payload: Metadata, state: State,
    scheduledAt: Option<int>, createdAt: int)

  type Table = map<TargetId, Target>

  /** A row to insert, with the id that uuid.New gave it. */
  datatype NewTarget = NewTarget(id: TargetId, target: Target)

  /** The limit that the services pass to see "all" targets. */
  const ALL := 10_000

  // ---------- Queries ----------

  /** WHERE campaign_id = g AND state = ... (no filter for None). */
  function Matching(t: Table, g: CampaignId, state: Option<State>): set<TargetId> {
    set i | i in t && t[i].campaignId == g && (state.Some? ==> t[i].state == state.value)
  }

  function Effective(limit: int): nat {
    if limit <= 0 then 100 else limit
  }

  /** ORDER BY created_at ASC LIMIT n: the oldest rows first; the order of equally old rows is open. */
  ghost predicate OldestOf(t: Table, from: set<TargetId>, n: nat, ids: seq<TargetId>)
    requires from <= t.Keys
  {
    && |ids| == (if |from| < n then |from| else n)
    && (forall i :: 0 <= i < |ids| ==> ids[i] in from)
    && (forall i, j :: 0 <= i < j < |ids| ==> ids[i] != ids[j] && t[ids[i]].createdAt <= t[ids[j]].createdAt)
    && (forall i, r :: 0 <= i < |ids| && r in from && r !in ids ==> t[ids[i]].createdAt <= t[r].createdAt)
  }

  lemma {:induction false} OldestExists(t: Table, from: set<TargetId>) returns (m: TargetId)
    requires from <= t.Keys && from != {}
    ensures m in from && forall r :: r in from ==> t[m].createdAt <= t[r].createdAt
    decreases |from|
  {
    m :| m in from;
    var rest := from - {m};
    if rest == {} {
      assert forall r :: r in from ==> r == m || r in rest;
    } else {
      var k := OldestExists(t, rest);
      if t[k].createdAt < t[m].createdAt {
        m := k;
      }
    }
  }

  /** Some n oldest rows always exist. */
  lemma {:induction false} OldestOfExists(t: Table, from: set<TargetId>, n: nat) returns (ids: seq<TargetId>)
    requires from <= t.Keys
    ensures OldestOf(t, from, n, ids)
    decreases |from|
  {
    if from == {} || n == 0 {
      ids := [];
    } else {
      var m := OldestExists(t, from);
      var rest := OldestOfExists(t, from - {m}, n - 1);
      ids := [m] + rest;
    }
  }

  /** SELECT ... ORDER BY created_at ASC LIMIT n. */
  method SelectOldest(t: Table, from: set<TargetId>, n: nat) returns (ids: seq<TargetId>)
    requires from <= t.Keys
    ensures OldestOf(t, from, n, ids)
  {
    ids := [];
    var rest := from;
    while |ids| < n && rest != {}
      invariant rest <= from && |ids| <= n && |ids| + |rest| == |from|
      invariant forall r :: r in from <==> r in rest || r in ids
      invariant forall i :: 0 <= i < |ids| ==> ids[i] !in rest
      invariant forall i, j :: 0 <= i < j < |ids| ==> ids[i] != ids[j] && t[ids[i]].createdAt <= t[ids[j]].createdAt
      invariant forall i, r :: 0 <= i < |ids| && r in rest ==> t[ids[i]].createdAt <= t[r].createdAt
      decreases |rest|
    {
      ghost var _ := OldestExists(t, rest);
      var m :| m in rest && forall r :: r in rest ==> t[m].createdAt <= t[r].createdAt;
      ids := ids + [m];
      rest := rest - {m};
    }
  }

  // ---------- Statements ----------

  /** INSERT ... ON CONFLICT (id) DO NOTHING, row by row. */
  function Inserted(t: Table, rows: seq<NewTarget>): Table
    decreases |rows|
  {
    if rows == [] then t
    else
      var before := Inserted(t, rows[..|rows| - 1]);
      var r := rows[|rows| - 1];
      if r.id in before then before else before[r.id := r.target]
  }

  /** UPDATE ... SET state WHERE campaign_id AND id = ANY. */
  function WithState(t: Table, g: CampaignId, ids: seq<TargetId>, state: State): Table {
    map i | i in t :: if t[i].campaignId == g && i in ids then t[i].(state := state) else t[i]
  }

  /** UPDATE ... SET state = 'queued', scheduled_at. */
  function Scheduled(t: Table, g: CampaignId, ids: seq<TargetId>, at: int): Table {
    map i | i in t ::
      if t[i].campaignId == g && i in ids then t[i].(state := Dispatched, scheduledAt := Some(at)) else t[i]
  }

  lemma {:induction false} InsertedKeeps(t: Table, rows: seq<NewTarget>, id: TargetId)
    requires id in t
    ensures id in Inserted(t, rows) && Inserted(t, rows)[id] == t[id]
    decreases |rows|
  {
    if rows != [] {
      InsertedKeeps(t, rows[..|rows| - 1], id);
    }
  }

  lemma {:induction false} InsertedFirst(t: Table, rows: seq<NewTarget>, i: int, id: TargetId)
    requires id !in t && FirstWith(rows, i, id)
    ensures id in Inserted(t, rows) && Inserted(t, rows)[id] == rows[i].target
    decreases |rows|
  {
    var n := |rows| - 1;
    if i < n {
      InsertedFirst(t, rows[..n], i, id);
    } else {
      InsertedKeys(t, rows[..n], id);
    }
  }

  /** The i-th row is the first with this id. */
  predicate FirstWith(rows: seq<NewTarget>, i: int, id: TargetId) {
    0 <= i < |rows| && rows[i].id == id && forall j :: 0 <= j < i ==> rows[j].id != id
  }

  class TargetTable {
    var rows: Table

    constructor ()
      ensures rows == map[]
    {
      rows := map[];
    }

    /** One statement for all rows; the campaign is the argument, not the record's. */
    method BulkInsert(g: CampaignId, records: seq<NewTarget>, ok: bool) returns (r: Result<()>)
      modifies this
      ensures r.Ok? <==> records == [] || ok
      ensures rows == if ok then Inserted(old(rows), ForCampaign(g, records)) else old(rows)
      ensures forall id :: id in old(rows) ==> id in rows && rows[id] == old(rows)[id]
      ensures ok ==> forall i, id :: FirstWith(records, i, id) && id !in old(rows) ==>
                id in rows && rows[id] == records[i].target.(campaignId := g)
      ensures forall id :: id in rows ==> id in old(rows) || exists i :: 0 <= i < |records| && records[i].id == id
    {
      BulkInserted(rows, g, records);
      if |records| == 0 {
        return Ok(());
      }
      if !ok {
        return Err("bulk insert");
      }
      var params := ForCampaign(g, records);
      var i := 0;
      while i < |params|
        invariant 0 <= i <= |params|
        invariant rows == Inserted(old(rows), params[..i])
      {
        assert params[..i + 1][..i] == params[..i];
        if params[i].id !in rows {
          rows := rows[params[i].id := params[i].target];
        }
        i := i + 1;
      }
      assert params[..|params|] == params;
      return Ok(());
    }

    method NextBatchForScheduling(g: CampaignId, limit: int, ok: bool) returns (r: Result<seq<TargetId>>)
      ensures r.Ok? <==> ok
      ensures ok ==> OldestOf(rows, Matching(rows, g, Some(Waiting)), if limit > 0 then limit else 100, r.value)
      ensures ok ==> forall i :: i in r.value ==> i in rows && rows[i].campaignId == g && rows[i].state == Waiting
      ensures ok ==> forall i :: i in rows && rows[i].campaignId == g && rows[i].state == Waiting && i !in r.value ==>
                |r.value| == (if limit > 0 then limit else 100)
                && forall k :: 0 <= k < |r.value| ==> rows[r.value[k]].createdAt <= rows[i].createdAt
    {
      if !ok {
        return Err("select for scheduling");
      }
      var ids := SelectOldest(rows, Matching(rows, g, Some(Waiting)), Effective(limit));
      OldestIsFull(rows, Matching(rows, g, Some(Waiting)), Effective(limit), ids);
      return Ok(ids);
    }

    method MarkScheduled(g: CampaignId, ids: seq<TargetId>, at: int, ok: bool) returns (r: Result<()>)
      modifies this
      ensures r.Ok? <==> ids == [] || ok
      ensures rows == if ok then Scheduled(old(rows), g, ids, at) else old(rows)
      ensures rows.Keys == old(rows).Keys
      ensures forall i :: i in rows ==>
                rows[i] == if ok && i in ids && old(rows)[i].campaignId == g
                           then old(rows)[i].(state := Dispatched, scheduledAt := Some(at)) else old(rows)[i]
    {
      if |ids| == 0 {
        assert Scheduled(rows, g, ids, at) == rows;
        return Ok(());
      }
      if !ok {
        return Err("mark scheduled");
      }
      rows := Scheduled(rows, g, ids, at);
      return Ok(());
    }

    method SetState(g: CampaignId, ids: seq<TargetId>, state: State, ok: bool) returns (r: Result<()>)
      modifies this
      ensures r.Ok? <==> ids == [] || ok
      ensures rows == if ok then WithState(old(rows), g, ids, state) else old(rows)
      ensures rows.Keys == old(rows).Keys
      ensures forall i :: i in rows ==>
                rows[i] == if ok && i in ids && old(rows)[i].campaignId == g then old(rows)[i].(state := state)
                           else old(rows)[i]
    {
      if |ids| == 0 {
        assert WithState(rows, g, ids, state) == rows;
        return Ok(());
      }
      if !ok {
        return Err("set state");
      }
      rows := WithState(rows, g, ids, state);
      return Ok(());
    }

    method ListByCampaign(g: CampaignId, limit: int, state: Option<State>, ok: bool) returns (r: Result<seq<TargetId>>)
      ensures r.Ok? <==> ok
      ensures ok ==> OldestOf(rows, Matching(rows, g, state), if limit > 0 then limit else 100, r.value)
      ensures ok ==> forall i :: i in r.value ==>
                i in rows && rows[i].campaignId == g && (state.Some? ==> rows[i].state == state.value)
      ensures ok ==> forall i ::
                i in rows && rows[i].campaignId == g && (state.Some? ==> rows[i].state == state.value)
                    && i !in r.value ==>
                |r.value| == (if limit > 0 then limit else 100)
                && forall k :: 0 <= k < |r.value| ==> rows[r.value[k]].createdAt <= rows[i].createdAt
    {
      if !ok {
        return Err("list");
      }
      var ids := SelectOldest(rows, Matching(rows, g, state), Effective(limit));
      OldestIsFull(rows, Matching(rows, g, state), Effective(limit), ids);
      return Ok(ids);
    }
  }

  function ForCampaign(g: CampaignId, records: seq<NewTarget>): (r: seq<NewTarget>)
    ensures |r| == |records|
  {
    seq(|records|, i requires 0 <= i < |records| =>
      records[i].(target := records[i].target.(campaignId := g)))
  }

  lemma BulkInserted(t: Table, g: CampaignId, records: seq<NewTarget>)
    ensures var t' := Inserted(t, ForCampaign(g, records));
      && (forall id :: id in t ==> id in t' && t'[id] == t[id])
      && (forall i, id :: FirstWith(records, i, id) && id !in t ==>
            id in t' && t'[id] == records[i].target.(campaignId := g))
      && (forall id :: id in t' ==> id in t || exists i :: 0 <= i < |records| && records[i].id == id)
  {
    var rows := ForCampaign(g, records);
    var t' := Inserted(t, rows);
    forall id: TargetId | id in t ensures id in t' && t'[id] == t[id] {
      InsertedKeeps(t, rows, id);
    }
    forall id: TargetId | id in t' && id !in t ensures exists i :: 0 <= i < |records| && records[i].id == id {
      if forall i :: 0 <= i < |rows| ==> rows[i].id != id {
        InsertedKeys(t, rows, id);
      } else {
        var i :| 0 <= i < |rows| && rows[i].id == id;
        assert records[i].id == id;
      }
    }
    forall i, id: TargetId | FirstWith(records, i, id) && id !in t
      ensures id in t' && t'[id] == records[i].target.(campaignId := g)
    {
      assert FirstWith(rows, i, id);
      InsertedFirst(t, rows, i, id);
    }
  }

  // ---------- Registered phone numbers ----------

  /** The phone numbers of a campaign's targets. */
  ghost function PhonesOf(t: Table, g: CampaignId): set<string> {
    set i | i in t && t[i].campaignId == g :: t[i].phone
  }

  /** Changing states moves no phone number. */
  lemma StatesKeepPhones(t: Table, g: CampaignId, ids: seq<TargetId>, state: State, at: int, h: CampaignId)
    ensures PhonesOf(WithState(t, g, ids, state), h) == PhonesOf(t, h)
    ensures PhonesOf(Scheduled(t, g, ids, at), h) == PhonesOf(t, h)
  {
    var a, b := WithState(t, g, ids, state), Scheduled(t, g, ids, at);
    assert forall i :: i in t ==> a[i].phone == t[i].phone && a[i].campaignId == t[i].campaignId;
    assert forall i :: i in t ==> b[i].phone == t[i].phone && b[i].campaignId == t[i].campaignId;
    forall p ensures p in PhonesOf(a, h) <==> p in PhonesOf(t, h) {
      if p in PhonesOf(t, h) {
        var i :| i in t && t[i].campaignId == h && t[i].phone == p;
        assert i in a;
      }
    }
    forall p ensures p in PhonesOf(b, h) <==> p in PhonesOf(t, h) {
      if p in PhonesOf(t, h) {
        var i :| i in t && t[i].campaignId == h && t[i].phone == p;
        assert i in b;
      }
    }
  }

  lemma OneInsertPhones(t: Table, id: TargetId, target: Target, h: CampaignId)
    requires id !in t
    ensures PhonesOf(t[id := target], h) == PhonesOf(t, h) + if target.campaignId == h then {target.phone} else {}
  {
    var t' := t[id := target];
    forall p ensures p in PhonesOf(t', h)
        <==> p in PhonesOf(t, h) + if target.campaignId == h then {target.phone} else {} {
      if p in PhonesOf(t, h) {
        var i :| i in t && t[i].campaignId == h && t[i].phone == p;
        assert i in t' && t'[i] == t[i];
      }
      if target.campaignId == h && p == target.phone {
        assert id in t' && t'[id] == target;
      }
    }
  }

  /** Inserting rows of one campaign whose numbers are registered leaves every campaign's numbers alone. */
  lemma {:induction false} InsertKeepsPhones(t: Table, rows: seq<NewTarget>, g: CampaignId, h: CampaignId)
    requires forall i :: 0 <= i < |rows| ==> rows[i].target.campaignId == g && rows[i].target.phone in PhonesOf(t, g)
    ensures PhonesOf(Inserted(t, rows), h) == PhonesOf(t, h)
    decreases |rows|
  {
    if rows != [] {
      var less := rows[..|rows| - 1];
      InsertKeepsPhones(t, less, g, h);
      var before, r := Inserted(t, less), rows[|rows| - 1];
      if r.id !in before {
        OneInsertPhones(before, r.id, r.target, h);
      }
    }
  }

  function RowPhones(rows: seq<NewTarget>): set<string>
    decreases |rows|
  {
    if rows == [] then {} else RowPhones(rows[..|rows| - 1]) + {rows[|rows| - 1].target.phone}
  }

  lemma {:induction false} InsertedKeys(t: Table, rows: seq<NewTarget>, id: TargetId)
    requires id !in t && forall i :: 0 <= i < |rows| ==> rows[i].id != id
    ensures id !in Inserted(t, rows)
    decreases |rows|
  {
    if rows != [] {
      InsertedKeys(t, rows[..|rows| - 1], id);
    }
  }

  /** With ids that uuid.New has just drawn, a campaign gains exactly the numbers of its new rows. */
  lemma {:induction false} InsertAddsPhones(t: Table, rows: seq<NewTarget>, g: CampaignId)
    requires forall i :: 0 <= i < |rows| ==> rows[i].target.campaignId == g && rows[i].id !in t
    requires forall i, j :: 0 <= i < j < |rows| ==> rows[i].id != rows[j].id
    ensures PhonesOf(Inserted(t, rows), g) == PhonesOf(t, g) + RowPhones(rows)
    decreases |rows|
  {
    if rows != [] {
      var less, r := rows[..|rows| - 1], rows[|rows| - 1];
      InsertAddsPhones(t, less, g);
      InsertedKeys(t, less, r.id);
      OneInsertPhones(Inserted(t, less), r.id, r.target, g);
    }
  }

  // ---------- The campaign service ----------

  /** A target as the API gives it, with the id it will get. */
  datatype TargetInput = TargetInput(id: TargetId, phone: string, payload: Metadata)

  function Records(g: CampaignId, inputs: seq<TargetInput>, now: int): seq<NewTarget> {
    seq(|inputs|, i requires 0 <= i < |inputs| =>
      NewTarget(inputs[i].id, Target(g, inputs[i].phone, inputs[i].payload, Waiting, None, now)))
  }

  /** Ids as uuid.New draws them: new, and no two alike. */
  predicate FreshInputs(t: Table, inputs: seq<TargetInput>) {
    && (forall i :: 0 <= i < |inputs| ==> inputs[i].id !in t)
    && (forall i, j :: 0 <= i < j < |inputs| ==> inputs[i].id != inputs[j].id)
  }

  /** The table has gained a waiting target for each input, and nothing else has changed. */
  predicate Gained(t: Table, t': Table, g: CampaignId, inputs: seq<TargetInput>, now: int) {
    && (forall id :: id in t ==> id in t' && t'[id] == t[id])
    && (forall i :: 0 <= i < |inputs| ==>
          inputs[i].id in t'
          && t'[inputs[i].id] == Target(g, inputs[i].phone, inputs[i].payload, Waiting, None, now))
    && (forall id :: id in t' ==> id in t || exists i :: 0 <= i < |inputs| && inputs[i].id == id)
  }

  lemma RecordsAreGained(t: Table, g: CampaignId, inputs: seq<TargetInput>, now: int)
    requires FreshInputs(t, inputs)
    ensures Gained(t, Inserted(t, Records(g, inputs, now)), g, inputs, now)
  {
    var rows := Records(g, inputs, now);
    var t' := Inserted(t, rows);
    forall id: TargetId | id in t ensures id in t' && t'[id] == t[id] {
      InsertedKeeps(t, rows, id);
    }
    forall id: TargetId | id in t' && id !in t ensures exists i :: 0 <= i < |inputs| && inputs[i].id == id {
      if forall i :: 0 <= i < |rows| ==> rows[i].id != id {
        InsertedKeys(t, rows, id);
      } else {
        var i :| 0 <= i < |rows| && rows[i].id == id;
        assert inputs[i].id == id;
      }
    }
    forall i | 0 <= i < |inputs|
      ensures inputs[i].id in t'
      ensures t'[inputs[i].id] == Target(g, inputs[i].phone, inputs[i].payload, Waiting, None, now)
    {
      assert FirstWith(rows, i, inputs[i].id);
      InsertedFirst(t, rows, i, inputs[i].id);
    }
  }

  /** So exactly the new targets wait besides those that did. */
  lemma GainedWait(t: Table, t': Table, g: CampaignId, inputs: seq<TargetInput>, now: int, h: CampaignId)
    requires FreshInputs(t, inputs) && Gained(t, t', g, inputs, now)
    ensures Matching(t', h, Some(Waiting))
         == Matching(t, h, Some(Waiting)) + if h == g then set i | 0 <= i < |inputs| :: inputs[i].id else {}
  {
    var ids := set i | 0 <= i < |inputs| :: inputs[i].id;
    forall x ensures x in Matching(t', h, Some(Waiting))
                <==> x in Matching(t, h, Some(Waiting)) + if h == g then ids else {} {
      if x in t' && x !in t {
        var i :| 0 <= i < |inputs| && inputs[i].id == x;
        assert t'[inputs[i].id].state == Waiting;
      }
      if x in ids {
        var i :| 0 <= i < |inputs| && inputs[i].id == x;
        assert t'[inputs[i].id].campaignId == g;
      }
    }
  }

  /** The numbers of a list of rows. */
  ghost function PhonesAt(t: Table, ids: seq<TargetId>): set<string>
    requires forall i :: 0 <= i < |ids| ==> ids[i] in t
  {
    set i | 0 <= i < |ids| :: t[ids[i]].phone
  }

  /** The targets part of Create. */
  method StoreTargets(table: TargetTable, g: CampaignId, inputs: seq<TargetInput>, now: int, ok: bool)
    returns (r: Result<()>)
    modifies table
    ensures r.Ok? <==> inputs == [] || ok
    ensures table.rows == if inputs != [] && ok then Inserted(old(table.rows), Records(g, inputs, now))
                          else old(table.rows)
    ensures r.Ok? && FreshInputs(old(table.rows), inputs) ==> Gained(old(table.rows), table.rows, g, inputs, now)
  {
    if |inputs| == 0 {
      return Ok(());
    }
    if FreshInputs(table.rows, inputs) {
      RecordsAreGained(table.rows, g, inputs, now);
    }
    var records := BuildRecords(g, inputs, now);
    assert ForCampaign(g, records) == records;
    r := table.BulkInsert(g, records, ok);
  }

  method BuildRecords(g: CampaignId, inputs: seq<TargetInput>, now: int) returns (records: seq<NewTarget>)
    ensures records == Records(g, inputs, now)
  {
    records := [];
    for i := 0 to |inputs|
      invariant |records| == i
      invariant forall j :: 0 <= j < i ==> records[j] == Records(g, inputs, now)[j]
    {
      records := records + [NewTarget(inputs[i].id, Target(g, inputs[i].phone, inputs[i].payload, Waiting, None, now))];
    }
  }

  /** AddTargets. Numbers are accepted when they are among the campaign's 10000 oldest targets; one that is not
      rejects all. Whatever happens, no campaign's set of phone numbers changes. */
  method AddTargets(table: TargetTable, g: CampaignId, inputs: seq<TargetInput>, now: int, listOk: bool, insertOk: bool)
    returns (r: Result<()>, ghost listed: seq<TargetId>)
    modifies table
    ensures listOk && inputs != [] ==> OldestOf(old(table.rows), Matching(old(table.rows), g, None), 10_000, listed)
    ensures inputs == [] ==> r.Ok? && table.rows == old(table.rows)
    ensures inputs != [] ==>
              (r.Ok? <==> listOk && insertOk && listed != []
                          && forall i :: 0 <= i < |inputs| ==> inputs[i].phone in PhonesAt(old(table.rows), listed))
    ensures r.Ok? && inputs != [] ==> table.rows == Inserted(old(table.rows), Records(g, inputs, now))
    ensures r.Ok? && FreshInputs(old(table.rows), inputs) ==> Gained(old(table.rows), table.rows, g, inputs, now)
    ensures r.Err? ==> table.rows == old(table.rows)
    ensures forall h: CampaignId :: PhonesOf(table.rows, h) == old(PhonesOf(table.rows, h))
  {
    listed := [];
    if |inputs| == 0 {
      return Ok(()), listed;
    }
    var existing := table.ListByCampaign(g, ALL, None, listOk);
    if existing.Err? {
      return Err(existing.reason), listed;
    }
    var ids := existing.value;
    listed := ids;
    if |ids| == 0 {
      return Err("no registered target list"), listed;
    }
    var allowed := AllowedPhones(table, ids);
    var registered := AllRegistered(inputs, allowed);
    assert allowed.Keys == PhonesAt(table.rows, ids);
    if !registered {
      return Err("phone number is not registered"), listed;
    }
    var records := BuildRecords(g, inputs, now);
    assert ForCampaign(g, records) == records;
    forall i | 0 <= i < |records|
      ensures records[i].target.campaignId == g && records[i].target.phone in PhonesOf(table.rows, g)
    {
      ListedAreRegistered(table.rows, g, ids, inputs[i].phone);
    }
    forall h: CampaignId ensures PhonesOf(Inserted(table.rows, records), h) == PhonesOf(table.rows, h) {
      InsertKeepsPhones(table.rows, records, g, h);
    }
    if FreshInputs(table.rows, inputs) {
      RecordsAreGained(table.rows, g, inputs, now);
    }
    r := table.BulkInsert(g, records, insertOk);
  }

  /** The set of numbers that AddTargets accepts. */
  method AllowedPhones(table: TargetTable, ids: seq<TargetId>) returns (allowed: map<string, bool>)
    requires forall i :: 0 <= i < |ids| ==> ids[i] in table.rows
    ensures allowed.Keys == PhonesAt(table.rows, ids)
  {
    allowed := map[];
    for i := 0 to |ids|
      invariant forall p :: p in allowed <==> exists j :: 0 <= j < i && table.rows[ids[j]].phone == p
    {
      allowed := allowed[table.rows[ids[i]].phone := true];
    }
  }

  method AllRegistered(inputs: seq<TargetInput>, allowed: map<string, bool>) returns (r: bool)
    ensures r <==> forall i :: 0 <= i < |inputs| ==> inputs[i].phone in allowed
  {
    for i := 0 to |inputs|
      invariant forall j :: 0 <= j < i ==> inputs[j].phone in allowed
    {
      if inputs[i].phone !in allowed {
        return false;
      }
    }
    return true;
  }

  lemma ListedAreRegistered(t: Table, g: CampaignId, ids: seq<TargetId>, phone: string)
    requires forall i :: 0 <= i < |ids| ==> ids[i] in t && t[ids[i]].campaignId == g
    requires phone in PhonesAt(t, ids)
    ensures phone in PhonesOf(t, g)
  {
    var i :| 0 <= i < |ids| && t[ids[i]].phone == phone;
    assert ids[i] in t && t[ids[i]].campaignId == g;
  }

  /** With at most 10000 targets, every registered number is among those that are looked at. */
  lemma AllAreListed(t: Table, g: CampaignId, ids: seq<TargetId>, phone: string)
    requires OldestOf(t, Matching(t, g, None), ALL, ids) && |Matching(t, g, None)| <= ALL
    ensures phone in PhonesAt(t, ids) <==> phone in PhonesOf(t, g)
  {
    var from := Matching(t, g, None);
    AllTaken(t, from, ids);
    if phone in PhonesOf(t, g) {
      var r :| r in t && t[r].campaignId == g && t[r].phone == phone;
      assert r in from && r in ids;
      var i :| 0 <= i < |ids| && ids[i] == r;
      assert t[ids[i]].phone == phone;
    }
    if phone in PhonesAt(t, ids) {
      ListedAreRegistered(t, g, ids, phone);
    }
  }

  function Elements(ids: seq<TargetId>): set<TargetId> {
    set i | i in ids
  }

  lemma {:induction false} DistinctSize(ids: seq<TargetId>)
    requires forall i, j :: 0 <= i < j < |ids| ==> ids[i] != ids[j]
    ensures |Elements(ids)| == |ids|
    decreases |ids|
  {
    if ids == [] {
      assert Elements(ids) == {};
    } else {
      var n := |ids| - 1;
      DistinctSize(ids[..n]);
      assert Elements(ids) == Elements(ids[..n]) + {ids[n]};
    }
  }

  lemma AllTaken(t: Table, from: set<TargetId>, ids: seq<TargetId>)
    requires forall i :: 0 <= i < |ids| ==> ids[i] in from
    requires forall i, j :: 0 <= i < j < |ids| ==> ids[i] != ids[j]
    requires |ids| == |from|
    ensures Elements(ids) == from
  {
    DistinctSize(ids);
    SubsetSize(Elements(ids), from);
  }

  lemma SubsetSize(a: set<TargetId>, b: set<TargetId>)
    requires a <= b && |a| == |b|
    ensures a == b
  {
    forall x | x in b ensures x in a {
      if x !in a {
        SmallerSubset(a, b - {x});
      }
    }
  }

  lemma {:induction false} SmallerSubset(a: set<TargetId>, b: set<TargetId>)
    requires a <= b
    ensures |a| <= |b|
    decreases |a|
  {
    if a != {} {
      var x :| x in a;
      SmallerSubset(a - {x}, b - {x});
    }
  }

  lemma SizeOfRest(a: set<TargetId>, b: set<TargetId>)
    requires b <= a
    ensures |a - b| == |a| - |b|
  {
    assert a == (a - b) + b;
    assert |(a - b) + b| == |a - b| + |b|;
  }

  // ---------- Who is among the n oldest ----------

  function OlderThan(t: Table, from: set<TargetId>, x: TargetId): set<TargetId>
    requires from <= t.Keys && x in t
  {
    set i | i in from && t[i].createdAt < t[x].createdAt
  }

  /** The others that are older or of the same age. */
  function AsOldAs(t: Table, from: set<TargetId>, x: TargetId): set<TargetId>
    requires from <= t.Keys && x in t
  {
    set i | i in from && i != x && t[i].createdAt <= t[x].createdAt
  }

  /** A row with n older ones is not among the n oldest. */
  lemma ManyOlderKeepOut(t: Table, from: set<TargetId>, n: nat, ids: seq<TargetId>, x: TargetId)
    requires from <= t.Keys && OldestOf(t, from, n, ids) && x in from
    requires |OlderThan(t, from, x)| >= n
    ensures x !in ids
  {
    if x in ids {
      forall i | i in OlderThan(t, from, x) ensures i in Elements(ids) - {x} {
        assert t[i].createdAt < t[x].createdAt;
      }
      DistinctSize(ids);
      SmallerSubset(OlderThan(t, from, x), Elements(ids) - {x});
      SizeOfRest(Elements(ids), {x});
    }
  }

  /** A row that is not among the n oldest has n others that are at least as old. */
  lemma LeftOutMeansFull(t: Table, from: set<TargetId>, n: nat, ids: seq<TargetId>, x: TargetId)
    requires from <= t.Keys && OldestOf(t, from, n, ids) && x in from && x !in ids
    ensures |Elements(ids)| == n && Elements(ids) <= AsOldAs(t, from, x)
  {
    DistinctSize(ids);
    if |ids| == |from| {
      AllTaken(t, from, ids);
    }
  }

  lemma OldestIsFull(t: Table, from: set<TargetId>, n: nat, ids: seq<TargetId>)
    requires from <= t.Keys && OldestOf(t, from, n, ids)
    ensures forall x :: x in from && x !in ids ==> |ids| == n
  {
    DistinctSize(ids);
    forall x | x in from && x !in ids ensures |ids| == n {
      LeftOutMeansFull(t, from, n, ids, x);
    }
  }

  /** So one with fewer is. */
  lemma FewAsOldLetIn(t: Table, from: set<TargetId>, n: nat, ids: seq<TargetId>, x: TargetId)
    requires from <= t.Keys && OldestOf(t, from, n, ids) && x in from
    requires |AsOldAs(t, from, x)| < n
    ensures x in ids
  {
    if x !in ids {
      LeftOutMeansFull(t, from, n, ids, x);
      SmallerSubset(Elements(ids), AsOldAs(t, from, x));
    }
  }

  /** Every target with this number has 10000 older ones in its campaign, so that no look-up ever sees it. */
  ghost predicate Hidden(t: Table, g: CampaignId, phone: string) {
    forall j :: j in Matching(t, g, None) && t[j].phone == phone ==> |OlderThan(t, Matching(t, g, None), j)| >= ALL
  }

  lemma HiddenIsNotListed(t: Table, g: CampaignId, ids: seq<TargetId>, phone: string)
    requires OldestOf(t, Matching(t, g, None), ALL, ids) && Hidden(t, g, phone)
    ensures phone !in PhonesAt(t, ids)
  {
    if phone in PhonesAt(t, ids) {
      var i :| 0 <= i < |ids| && t[ids[i]].phone == phone;
      assert ids[i] in Matching(t, g, None);
      ManyOlderKeepOut(t, Matching(t, g, None), ALL, ids, ids[i]);
    }
  }

  /** And a number is seen if one of its targets has fewer than 10000 others that are at least as old. Between the
      two, the order of equally old rows decides. */
  lemma VisibleIsListed(t: Table, g: CampaignId, ids: seq<TargetId>, j: TargetId)
    requires OldestOf(t, Matching(t, g, None), ALL, ids) && j in Matching(t, g, None)
    requires |AsOldAs(t, Matching(t, g, None), j)| < ALL
    ensures t[j].phone in PhonesAt(t, ids)
  {
    FewAsOldLetIn(t, Matching(t, g, None), ALL, ids, j);
    var i :| 0 <= i < |ids| && ids[i] == j;
    assert t[ids[i]].phone == t[j].phone;
  }

  // ---------- Any sequence of additions ----------

  /** An addition that AddTargets lets through. */
  datatype Addition = Addition(g: CampaignId, inputs: seq<TargetInput>, now: int)

  ghost predicate LetThrough(t: Table, a: Addition) {
    forall i :: 0 <= i < |a.inputs| ==> a.inputs[i].phone in PhonesOf(t, a.g)
  }

  ghost function Added(t: Table, additions: seq<Addition>): Table
    decreases |additions|
  {
    if additions == [] then t
    else
      var a := additions[0];
      Added(if LetThrough(t, a) then Inserted(t, Records(a.g, a.inputs, a.now)) else t, additions[1..])
  }

  /** No sequence of AddTargets calls, let through or not, changes a campaign's set of phone numbers. */
  lemma {:induction false} AddTargetsKeepsPhones(t: Table, additions: seq<Addition>, h: CampaignId)
    ensures PhonesOf(Added(t, additions), h) == PhonesOf(t, h)
    decreases |additions|
  {
    if additions != [] {
      var a := additions[0];
      var next := if LetThrough(t, a) then Inserted(t, Records(a.g, a.inputs, a.now)) else t;
      if LetThrough(t, a) {
        InsertKeepsPhones(t, Records(a.g, a.inputs, a.now), a.g, h);
      }
      AddTargetsKeepsPhones(next, additions[1..], h);
    }
  }
}
