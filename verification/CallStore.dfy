/**
 internal/repository/scylla/call_store.go: a primary table, an index by status and an attempt log.

 The store has no transactions. An operation is a list of single-row writes, and an error after some of
 them leaves the tables as those writes made them. CQL UPDATE is an upsert.
 */
module CallStore {
  import opened Wrappers
  import opened Messages
  import P = Pipeline

  /** A point in time in seconds, with the zone offset that time.Time's calendar methods use. */
  datatype Time = Time(utc: int, offset: int)

  const DAY := 86_400

  /** Midnight UTC of the calendar date that t shows in its own zone. */
  function BucketDate(t: Time): Time {
    Time((t.utc + t.offset) / DAY * DAY, 0)
  }

  /** A bucket is midnight UTC of the day that the call's creation shows in its own zone. */
  predicate InBucket(t: Time, bucket: int) {
    bucket % DAY == 0 && bucket <= t.utc + t.offset < bucket + DAY
  }

  lemma BucketDateIdempotent(t: Time)
    ensures BucketDate(BucketDate(t)) == BucketDate(t)
    ensures InBucket(t, BucketDate(t).utc) && BucketDate(t).offset == 0
  {
  }

  // ---------- Tables ----------

  datatype CallKey = CallKey(campaignId: CampaignId, bucket: int, callId: CallId)

  datatype CallRow = CallRow(phone: Option<string>, status: CallStatus, attemptCount: int, lastError: Option<string>)

  datatype IndexKey = IndexKey(campaignId: CampaignId, status: CallStatus, bucket: int, callId: CallId)

  /** A column that was never written is null. */
  datatype IndexRow = IndexRow(phone: Option<string>, updatedAt: int)

  datatype Tables = Tables(calls: map<CallKey, CallRow>, index: map<IndexKey, IndexRow>)

  /** domain.Call as CreateCall gets it and GetCall returns it. */
  datatype CallData = CallData(
    id: CallId, campaignId: CampaignId, phone: string, status: CallStatus, attemptCount: int,
    lastError: Option<string>, createdAt: Time)

  datatype Write =
    | InsertCall(key: CallKey, row: CallRow)
    | UpdateCall(key: CallKey, status: CallStatus, attemptCount: int, lastError: Option<string>)
    | TouchIndex(ikey: IndexKey, now: int)
    | DeleteIndex(ikey: IndexKey)
    | InsertIndex(ikey: IndexKey, irow: IndexRow)

  function Exec(t: Tables, w: Write): Tables {
    match w
    case InsertCall(k, row) => t.(calls := t.calls[k := row])
    case UpdateCall(k, status, n, err) =>
      var phone := if k in t.calls then t.calls[k].phone else None;
      t.(calls := t.calls[k := CallRow(phone, status, n, err)])
    case TouchIndex(k, now) =>
      var phone := if k in t.index then t.index[k].phone else None;
      t.(index := t.index[k := IndexRow(phone, now)])
    case DeleteIndex(k) => t.(index := t.index - {k})
    case InsertIndex(k, row) => t.(index := t.index[k := row])
  }

  function ExecAll(t: Tables, ws: seq<Write>): Tables
    decreases |ws|
  {
    if ws == [] then t else ExecAll(Exec(t, ws[0]), ws[1..])
  }

  function KeyFor(c: CallData): CallKey {
    CallKey(c.campaignId, BucketDate(c.createdAt).utc, c.id)
  }

  function IndexOf(k: CallKey, status: CallStatus): IndexKey {
    IndexKey(k.campaignId, status, k.bucket, k.callId)
  }

  function CreateWrites(c: CallData, now: int): seq<Write> {
    [InsertCall(KeyFor(c), CallRow(Some(c.phone), c.status, c.attemptCount, None)),
     InsertIndex(IndexOf(KeyFor(c), c.status), IndexRow(Some(c.phone), now))]
  }

  /** `c` is what GetCall returned; the partition is found again through its CreatedAt. */
  function UpdateWrites(c: CallData, status: CallStatus, attempts: int, lastError: Option<string>,
                        now: int): seq<Write> {
    var k := KeyFor(c);
    [UpdateCall(k, status, attempts, lastError), TouchIndex(IndexOf(k, c.status), now)]
    + if c.status == status then []
      else [DeleteIndex(IndexOf(k, c.status)), InsertIndex(IndexOf(k, status), IndexRow(Some(c.phone), now))]
  }

  /** What GetCall makes of a row. CreatedAt is replaced by the bucket. */
  function Loaded(k: CallKey, row: CallRow): CallData {
    CallData(k.callId, k.campaignId, if row.phone.Some? then row.phone.value else "",
             row.status, row.attemptCount, row.lastError, BucketDate(Time(k.bucket, 0)))
  }

  // ---------- Agreement ----------

  /** A call id is in one row, in a bucket that is a date, with a phone number. */
  ghost predicate Sound(t: Tables) {
    && (forall k :: k in t.calls ==> k.bucket % DAY == 0 && t.calls[k].phone.Some?)
    && (forall k, l :: k in t.calls && l in t.calls && k.callId == l.callId ==> k == l)
  }

  /** Each call has its index row, under its current status and phone number, and there is no other row. */
  ghost predicate Agree(t: Tables) {
    && (forall k :: k in t.calls ==>
          IndexOf(k, t.calls[k].status) in t.index
          && t.index[IndexOf(k, t.calls[k].status)].phone == t.calls[k].phone)
    && (forall i :: i in t.index ==>
          CallKey(i.campaignId, i.bucket, i.callId) in t.calls
          && t.calls[CallKey(i.campaignId, i.bucket, i.callId)].status == i.status)
  }

  ghost predicate HasCall(t: Tables, id: CallId) {
    exists k :: k in t.calls && k.callId == id
  }

  ghost function KeyOf(t: Tables, id: CallId): (k: CallKey)
    requires HasCall(t, id)
    ensures k in t.calls && k.callId == id
  {
    var k :| k in t.calls && k.callId == id; k
  }

  /** The partition that an update computes from the loaded call is the one the call was loaded from. */
  lemma LoadedKey(t: Tables, k: CallKey)
    requires Sound(t) && k in t.calls
    ensures KeyFor(Loaded(k, t.calls[k])) == k
  {
    BucketDateIdempotent(Time(k.bucket, 0));
  }

  lemma ExecOne(t: Tables, ws: seq<Write>)
    requires |ws| == 1
    ensures ExecAll(t, ws) == Exec(t, ws[0])
  {
    assert ExecAll(Exec(t, ws[0]), ws[1..]) == Exec(t, ws[0]);
  }

  lemma {:induction false} ExecSnoc(t: Tables, ws: seq<Write>, w: Write)
    ensures ExecAll(t, ws + [w]) == Exec(ExecAll(t, ws), w)
    decreases |ws|
  {
    if ws == [] {
      assert ws + [w] == [w];
      ExecOne(t, [w]);
    } else {
      assert (ws + [w])[1..] == ws[1..] + [w];
      ExecSnoc(Exec(t, ws[0]), ws[1..], w);
    }
  }

  /** The tables after the first n writes of a list. */
  function Prefix(t: Tables, ws: seq<Write>, n: nat): Tables {
    if n <= |ws| then ExecAll(t, ws[..n]) else ExecAll(t, ws)
  }

  lemma PrefixStep(t: Tables, ws: seq<Write>, n: nat)
    requires n < |ws|
    ensures Prefix(t, ws, n + 1) == Exec(Prefix(t, ws, n), ws[n])
  {
    assert ws[..n + 1] == ws[..n] + [ws[n]];
    ExecSnoc(t, ws[..n], ws[n]);
  }

  // ---------- Whole and torn operations ----------

  lemma CreatePrefixes(t: Tables, c: CallData, now: int)
    ensures var ws := CreateWrites(c, now);
      && Prefix(t, ws, 0) == t
      && Prefix(t, ws, 1) == Exec(t, ws[0])
      && Prefix(t, ws, 2) == Exec(Exec(t, ws[0]), ws[1])
  {
    var ws := CreateWrites(c, now);
    assert ws[..0] == [];
    PrefixStep(t, ws, 0);
    PrefixStep(t, ws, 1);
  }

  /** A create that fails between its two writes, and only that, leaves a call out of the index. */
  lemma CreateAgreesExactly(t: Tables, c: CallData, now: int, n: nat)
    requires Sound(t) && Agree(t) && !HasCall(t, c.id)
    ensures Agree(Prefix(t, CreateWrites(c, now), n)) <==> n != 1
    ensures Sound(Prefix(t, CreateWrites(c, now), n))
  {
    var ws, k := CreateWrites(c, now), KeyFor(c);
    CreatePrefixes(t, c, now);
    BucketDateIdempotent(c.createdAt);
    assert ws[..2] == ws;
    assert k !in t.calls;
    if n == 1 {
      var t' := Prefix(t, ws, 1);
      assert k in t'.calls && IndexOf(k, c.status) !in t'.index;
    }
  }

  /** However far a create comes, ids stay unique. */
  lemma CreateKeepsSound(t: Tables, c: CallData, now: int, n: nat)
    requires Sound(t) && !HasCall(t, c.id)
    ensures Sound(Prefix(t, CreateWrites(c, now), n))
    ensures n > 0 ==> Prefix(t, CreateWrites(c, now), n).calls == ExecAll(t, CreateWrites(c, now)).calls
  {
    CreatePrefixes(t, c, now);
    BucketDateIdempotent(c.createdAt);
    assert CreateWrites(c, now)[..2] == CreateWrites(c, now);
  }

  lemma UpdatePrefixes(t: Tables, c: CallData, status: CallStatus, attempts: int, lastError: Option<string>, now: int)
    ensures var ws := UpdateWrites(c, status, attempts, lastError, now);
      && |ws| == (if c.status == status then 2 else 4)
      && Prefix(t, ws, 0) == t
      && Prefix(t, ws, 1) == Exec(t, ws[0])
      && Prefix(t, ws, 2) == Exec(Exec(t, ws[0]), ws[1])
      && (c.status != status ==>
            && Prefix(t, ws, 3) == Exec(Exec(Exec(t, ws[0]), ws[1]), ws[2])
            && Prefix(t, ws, 4) == Exec(Exec(Exec(Exec(t, ws[0]), ws[1]), ws[2]), ws[3]))
  {
    var ws := UpdateWrites(c, status, attempts, lastError, now);
    assert ws[..0] == [];
    PrefixStep(t, ws, 0);
    PrefixStep(t, ws, 1);
    if c.status != status {
      PrefixStep(t, ws, 2);
      PrefixStep(t, ws, 3);
    }
  }

  /** What a prefix of an update leaves in the tables. */
  lemma UpdatePrefixTables(t: Tables, k: CallKey, status: CallStatus, attempts: int, lastError: Option<string>,
                           now: int, n: nat)
    requires Sound(t) && Agree(t) && k in t.calls
    ensures var row := t.calls[k];
      var t' := Prefix(t, UpdateWrites(Loaded(k, row), status, attempts, lastError, now), n);
      var before, after := IndexOf(k, row.status), IndexOf(k, status);
      && t'.calls == (if n == 0 then t.calls else t.calls[k := CallRow(row.phone, status, attempts, lastError)])
      && (n <= 1 ==> t'.index == t.index)
      && (n >= 2 && (n == 2 || status == row.status) ==> t'.index == t.index[before := IndexRow(row.phone, now)])
      && (n == 3 && status != row.status ==> t'.index == t.index - {before})
      && (n >= 4 && status != row.status ==> t'.index == (t.index - {before})[after := IndexRow(row.phone, now)])
  {
    var row := t.calls[k];
    var c := Loaded(k, row);
    var ws := UpdateWrites(c, status, attempts, lastError, now);
    LoadedKey(t, k);
    UpdatePrefixes(t, c, status, attempts, lastError, now);
    assert ws[..|ws|] == ws;
    assert t.index[IndexOf(k, row.status)].phone == row.phone;
  }

  lemma RowReplacedKeepsSound(t: Tables, t': Tables, k: CallKey, row: CallRow)
    requires Sound(t) && k in t.calls && row.phone == t.calls[k].phone && t'.calls == t.calls[k := row]
    ensures Sound(t')
  {
  }

  /** However far an update comes, ids stay unique and no other call's row changes. */
  lemma UpdateKeepsSound(t: Tables, k: CallKey, status: CallStatus, attempts: int, lastError: Option<string>,
                         now: int, n: nat)
    requires Sound(t) && k in t.calls
    ensures var t' := Prefix(t, UpdateWrites(Loaded(k, t.calls[k]), status, attempts, lastError, now), n);
      && Sound(t')
      && t'.calls == if n == 0 then t.calls else t.calls[k := CallRow(t.calls[k].phone, status, attempts, lastError)]
  {
    var c := Loaded(k, t.calls[k]);
    var ws := UpdateWrites(c, status, attempts, lastError, now);
    LoadedKey(t, k);
    UpdatePrefixes(t, c, status, attempts, lastError, now);
    assert ws[..|ws|] == ws;
    if n > 0 {
      RowReplacedKeepsSound(t, Prefix(t, ws, n), k, CallRow(t.calls[k].phone, status, attempts, lastError));
    }
  }

  /** The index row of a call moved to its new status, or touched in place. */
  lemma IndexMovedAgrees(t: Tables, t': Tables, k: CallKey, row: CallRow, now: int)
    requires Agree(t) && k in t.calls && row.phone == t.calls[k].phone
    requires t'.calls == t.calls[k := row]
    requires t'.index == (t.index - {IndexOf(k, t.calls[k].status)})[IndexOf(k, row.status) := IndexRow(row.phone, now)]
    ensures Agree(t')
  {
    forall i | i in t'.index
      ensures CallKey(i.campaignId, i.bucket, i.callId) in t'.calls
      ensures t'.calls[CallKey(i.campaignId, i.bucket, i.callId)].status == i.status
    {
      if i != IndexOf(k, row.status) {
        assert i in t.index;
      }
    }
  }

  /** The status changed in the primary table but not yet in the index. */
  lemma IndexLeftDisagrees(t: Tables, t': Tables, k: CallKey, row: CallRow)
    requires Agree(t) && k in t.calls && row.status != t.calls[k].status
    requires t'.calls == t.calls[k := row]
    requires IndexOf(k, row.status) in t'.index ==> IndexOf(k, row.status) in t.index
    ensures !Agree(t')
  {
    assert k in t'.calls;
    assert IndexOf(k, row.status) !in t.index;
  }

  /** An update keeps the index in step exactly when it completes, fails before its first write, or does
      not change the status. */
  lemma UpdateAgreesExactly(t: Tables, k: CallKey, status: CallStatus, attempts: int, lastError: Option<string>,
                            now: int, n: nat)
    requires Sound(t) && Agree(t) && k in t.calls
    ensures var t' := Prefix(t, UpdateWrites(Loaded(k, t.calls[k]), status, attempts, lastError, now), n);
      && Sound(t')
      && (Agree(t') <==> n == 0 || n >= 4 || status == t.calls[k].status)
  {
    var row := CallRow(t.calls[k].phone, status, attempts, lastError);
    var before := IndexOf(k, t.calls[k].status);
    var t' := Prefix(t, UpdateWrites(Loaded(k, t.calls[k]), status, attempts, lastError, now), n);
    UpdatePrefixTables(t, k, status, attempts, lastError, now, n);
    if n == 0 {
      assert t' == t;
    } else {
      RowReplacedKeepsSound(t, t', k, row);
      if status == t.calls[k].status && n >= 2 {
        assert t'.index == (t.index - {before})[before := IndexRow(row.phone, now)];
        IndexMovedAgrees(t, t', k, row, now);
      } else if n >= 4 {
        IndexMovedAgrees(t, t', k, row, now);
      } else if status != t.calls[k].status {
        IndexLeftDisagrees(t, t', k, row);
      }
    }
  }

  /** Once the index row is missing, an update that keeps the status puts back a row without a phone. */
  lemma UpsertMakesPhantom(t: Tables, k: CallKey, attempts: int, lastError: Option<string>, now: int)
    requires Sound(t) && k in t.calls && IndexOf(k, t.calls[k].status) !in t.index
    ensures var i := IndexOf(k, t.calls[k].status);
      var t' := ExecAll(t, UpdateWrites(Loaded(k, t.calls[k]), t.calls[k].status, attempts, lastError, now));
      i in t'.index && t'.index[i] == IndexRow(None, now) && !Agree(t')
  {
    var c := Loaded(k, t.calls[k]);
    var ws := UpdateWrites(c, c.status, attempts, lastError, now);
    LoadedKey(t, k);
    UpdatePrefixes(t, c, c.status, attempts, lastError, now);
    assert ws[..2] == ws;
    var t' := ExecAll(t, ws);
    assert k in t'.calls;
  }

  // ---------- Repair ----------

  /** What a completed update leaves, whether or not the index agreed before. */
  lemma UpdateEffect(t: Tables, k: CallKey, status: CallStatus, attempts: int, lastError: Option<string>, now: int)
    requires Sound(t) && k in t.calls
    ensures var row := t.calls[k];
      var t' := ExecAll(t, UpdateWrites(Loaded(k, row), status, attempts, lastError, now));
      var before, after := IndexOf(k, row.status), IndexOf(k, status);
      && t'.calls == t.calls[k := CallRow(row.phone, status, attempts, lastError)]
      && t'.index == if status == row.status
                     then t.index[before := IndexRow(if before in t.index then t.index[before].phone else None, now)]
                     else (t.index - {before})[after := IndexRow(row.phone, now)]
  {
    var c := Loaded(k, t.calls[k]);
    var ws := UpdateWrites(c, status, attempts, lastError, now);
    LoadedKey(t, k);
    UpdatePrefixes(t, c, status, attempts, lastError, now);
    assert ws[..|ws|] == ws;
  }

  lemma StaleRowDisagrees(t: Tables, k: CallKey, status: CallStatus)
    requires k in t.calls && t.calls[k].status != status && IndexOf(k, status) in t.index
    ensures !Agree(t)
  {
    var i := IndexOf(k, status);
    assert CallKey(i.campaignId, i.bucket, i.callId) == k;
  }

  lemma NoPhoneDisagrees(t: Tables, k: CallKey)
    requires k in t.calls && t.calls[k].phone.Some?
    requires IndexOf(k, t.calls[k].status) in t.index && t.index[IndexOf(k, t.calls[k].status)].phone.None?
    ensures !Agree(t)
  {
  }

  /** After an update from `old` to `status` that was torn before its delete, the old index row is still there. */
  lemma RepairBeforeDelete(t: Tables, torn: Tables, k: CallKey, status: CallStatus, next: CallRow, now: int, t': Tables)
    requires Sound(t) && Agree(t) && k in t.calls && status != t.calls[k].status && next.phone == t.calls[k].phone
    requires torn.index == t.index
             || exists at :: torn.index == t.index[IndexOf(k, t.calls[k].status) := IndexRow(t.calls[k].phone, at)]
    requires t'.calls == t.calls[k := next]
    requires next.status != status ==>
               t'.index == (torn.index - {IndexOf(k, status)})[IndexOf(k, next.status) := IndexRow(next.phone, now)]
    requires next.status == status ==> torn.index.Keys <= t'.index.Keys
    ensures Agree(t') <==> next.status == t.calls[k].status
  {
    var before := IndexOf(k, t.calls[k].status);
    assert before in torn.index && IndexOf(k, status) !in t.index;
    if next.status == t.calls[k].status {
      assert t'.index == (t.index - {before})[before := IndexRow(next.phone, now)];
      IndexMovedAgrees(t, t', k, next, now);
    } else {
      StaleRowDisagrees(t', k, t.calls[k].status);
    }
  }

  /** After one that was torn before its insert, the call is in no index row. */
  lemma RepairBeforeInsert(t: Tables, k: CallKey, status: CallStatus, next: CallRow, now: int, t': Tables)
    requires Sound(t) && Agree(t) && k in t.calls && status != t.calls[k].status && next.phone == t.calls[k].phone
    requires t'.calls == t.calls[k := next]
    requires var left := t.index - {IndexOf(k, t.calls[k].status)};
      t'.index == if next.status == status then left[IndexOf(k, status) := IndexRow(None, now)]
                  else (left - {IndexOf(k, status)})[IndexOf(k, next.status) := IndexRow(next.phone, now)]
    ensures Agree(t') <==> next.status != status
  {
    assert IndexOf(k, status) !in t.index;
    if next.status == status {
      NoPhoneDisagrees(t', k);
    } else {
      assert t.index - {IndexOf(k, t.calls[k].status)} - {IndexOf(k, status)} ==
          t.index - {IndexOf(k, t.calls[k].status)};
      IndexMovedAgrees(t, t', k, next, now);
    }
  }

  /** Which later updates repair a torn one. Before its delete (n is 1 or 2), only an update back to the old status
      does: it overwrites the old row, which any other leaves behind. Before its insert (n is 3), only one to yet
      another status does: the same status upserts a row without a phone number. */
  lemma RepairExactly(t: Tables, k: CallKey, status: CallStatus, attempts: int, lastError: Option<string>, now: int,
                      n: nat, status': CallStatus, attempts': int, lastError': Option<string>, now': int)
    requires Sound(t) && Agree(t) && k in t.calls && status != t.calls[k].status && 1 <= n <= 3
    ensures var torn := Prefix(t, UpdateWrites(Loaded(k, t.calls[k]), status, attempts, lastError, now), n);
      && !Agree(torn) && k in torn.calls
      && (Agree(ExecAll(torn, UpdateWrites(Loaded(k, torn.calls[k]), status', attempts', lastError', now')))
          <==> if n <= 2 then status' == t.calls[k].status else status' != status)
  {
    var torn := Prefix(t, UpdateWrites(Loaded(k, t.calls[k]), status, attempts, lastError, now), n);
    UpdateAgreesExactly(t, k, status, attempts, lastError, now, n);
    UpdatePrefixTables(t, k, status, attempts, lastError, now, n);
    UpdateEffect(torn, k, status', attempts', lastError', now');
    var t' := ExecAll(torn, UpdateWrites(Loaded(k, torn.calls[k]), status', attempts', lastError', now'));
    var next := CallRow(t.calls[k].phone, status', attempts', lastError');
    assert IndexOf(k, status) !in t.index;
    if n <= 2 {
      RepairBeforeDelete(t, torn, k, status, next, now', t');
    } else {
      RepairBeforeInsert(t, k, status, next, now', t');
    }
  }

  /** A create torn between its inserts is repaired by an update to another status, and by no other. */
  lemma CreateRepairExactly(t: Tables, c: CallData, now: int,
                            status': CallStatus, attempts': int, lastError': Option<string>, now': int)
    requires Sound(t) && Agree(t) && !HasCall(t, c.id)
    ensures var torn, k := Prefix(t, CreateWrites(c, now), 1), KeyFor(c);
      && !Agree(torn) && k in torn.calls
      && (Agree(ExecAll(torn, UpdateWrites(Loaded(k, torn.calls[k]), status', attempts', lastError', now')))
          <==> status' != c.status)
  {
    var torn, k := Prefix(t, CreateWrites(c, now), 1), KeyFor(c);
    CreateAgreesExactly(t, c, now, 1);
    CreatePrefixes(t, c, now);
    UpdateEffect(torn, k, status', attempts', lastError', now');
    var t' := ExecAll(torn, UpdateWrites(Loaded(k, torn.calls[k]), status', attempts', lastError', now'));
    assert k !in t.calls;
    assert forall s :: IndexOf(k, s) !in t.index;
    if status' == c.status {
      NoPhoneDisagrees(t', k);
    } else {
      RowAddedAgrees(t, t', k, CallRow(Some(c.phone), status', attempts', lastError'), now');
    }
  }

  lemma RowAddedAgrees(t: Tables, t': Tables, k: CallKey, row: CallRow, now: int)
    requires Agree(t) && k !in t.calls
    requires t'.calls == t.calls[k := row] && t'.index == t.index[IndexOf(k, row.status) := IndexRow(row.phone, now)]
    ensures Agree(t')
  {
    forall i | i in t'.index
      ensures CallKey(i.campaignId, i.bucket, i.callId) in t'.calls
      ensures t'.calls[CallKey(i.campaignId, i.bucket, i.callId)].status == i.status
    {
      if i != IndexOf(k, row.status) {
        assert i in t.index;
      }
    }
  }

  // ---------- Sequences of operations ----------

  datatype Op =
    | Create(c: CallData, now: int)
    | Update(id: CallId, status: CallStatus, attempts: int, lastError: Option<string>, at: int)

  /** A completed operation; an update of an unknown call fails without a write. */
  ghost function Perform(t: Tables, op: Op): Tables {
    match op
    case Create(c, now) => ExecAll(t, CreateWrites(c, now))
    case Update(id, status, n, err, now) =>
      if !HasCall(t, id) then t
      else ExecAll(t, UpdateWrites(Loaded(KeyOf(t, id), t.calls[KeyOf(t, id)]), status, n, err, now))
  }

  ghost function PerformAll(t: Tables, ops: seq<Op>): Tables
    decreases |ops|
  {
    if ops == [] then t else PerformAll(Perform(t, ops[0]), ops[1..])
  }

  /** CreateCall gets the id that TriggerCall has just drawn. */
  ghost predicate FreshIds(t: Tables, ops: seq<Op>)
    decreases |ops|
  {
    ops == [] || ((ops[0].Create? ==> !HasCall(t, ops[0].c.id)) && FreshIds(Perform(t, ops[0]), ops[1..]))
  }

  lemma PerformKeepsAgreement(t: Tables, op: Op)
    requires Sound(t) && Agree(t) && (op.Create? ==> !HasCall(t, op.c.id))
    ensures Sound(Perform(t, op)) && Agree(Perform(t, op))
  {
    match op
    case Create(c, now) =>
      CreateAgreesExactly(t, c, now, 2);
      assert CreateWrites(c, now)[..2] == CreateWrites(c, now);
    case Update(id, status, n, err, now) =>
      if HasCall(t, id) {
        var k := KeyOf(t, id);
        var ws := UpdateWrites(Loaded(k, t.calls[k]), status, n, err, now);
        UpdateAgreesExactly(t, k, status, n, err, now, 4);
        assert ws[..|ws|] == ws;
      }
  }

  /** After any sequence of completed operations the index agrees with the primary table. */
  lemma {:induction false} OperationsKeepAgreement(t: Tables, ops: seq<Op>)
    requires Sound(t) && Agree(t) && FreshIds(t, ops)
    ensures Sound(PerformAll(t, ops)) && Agree(PerformAll(t, ops))
    decreases |ops|
  {
    if ops != [] {
      PerformKeepsAgreement(t, ops[0]);
      OperationsKeepAgreement(Perform(t, ops[0]), ops[1..]);
    }
  }

  /** In particular each call has exactly one index row, under its status, bucket and phone number. */
  lemma OneIndexRowPerCall(ops: seq<Op>, k: CallKey)
    requires FreshIds(Tables(map[], map[]), ops) && k in PerformAll(Tables(map[], map[]), ops).calls
    ensures var t := PerformAll(Tables(map[], map[]), ops);
      var i := IndexOf(k, t.calls[k].status);
      && i in t.index && t.index[i].phone == t.calls[k].phone
      && (forall j :: j in t.index && j.callId == k.callId ==> j == i)
  {
    OperationsKeepAgreement(Tables(map[], map[]), ops);
  }

  // ---------- The status of each call ----------

  /** The abstract record of each call, as the pipeline's invariants speak of it. */
  ghost predicate Represents(t: Tables, records: map<CallId, P.CallRecord>) {
    && (forall k :: k in t.calls ==>
          && k.callId in records
          && records[k.callId] == P.CallRecord(t.calls[k].status, t.calls[k].attemptCount))
    && (forall c :: c in records ==> HasCall(t, c))
  }

  /** Creating and updating calls is what the pipeline's steps do to its call records. */
  lemma CreateRefines(t: Tables, records: map<CallId, P.CallRecord>, c: CallData, now: int)
    requires Sound(t) && Represents(t, records) && !HasCall(t, c.id)
    requires c.status == Queued && c.attemptCount == 0
    ensures Represents(ExecAll(t, CreateWrites(c, now)), records[c.id := P.CallRecord(Queued, 0)])
  {
    var t', records' := ExecAll(t, CreateWrites(c, now)), records[c.id := P.CallRecord(Queued, 0)];
    CreatePrefixes(t, c, now);
    assert CreateWrites(c, now)[..2] == CreateWrites(c, now);
    assert t'.calls == t.calls[KeyFor(c) := CallRow(Some(c.phone), Queued, 0, None)];
    forall d | d in records' ensures HasCall(t', d) {
      var k := if d == c.id then KeyFor(c) else KeyOf(t, d);
      assert k in t'.calls && k.callId == d;
    }
  }

  /** Only the call rows matter for that. */
  lemma SameCalls(t: Tables, t': Tables, records: map<CallId, P.CallRecord>)
    requires t.calls == t'.calls && Represents(t, records)
    ensures Represents(t', records)
  {
    forall c | c in records ensures HasCall(t', c) {
      var k := KeyOf(t, c);
      assert k in t'.calls && k.callId == c;
    }
  }

  lemma UpdateRefines(t: Tables, records: map<CallId, P.CallRecord>, m: StatusMessage, lastError: Option<string>,
                      now: int, n: nat)
    requires Sound(t) && Represents(t, records) && HasCall(t, m.callId) && n > 0
    ensures var k := KeyOf(t, m.callId);
      Represents(Prefix(t, UpdateWrites(Loaded(k, t.calls[k]), m.status, m.attempt, lastError, now), n),
                 P.CallsAfter(records, P.UpdateCall(m)))
  {
    var k := KeyOf(t, m.callId);
    var t' := Prefix(t, UpdateWrites(Loaded(k, t.calls[k]), m.status, m.attempt, lastError, now), n);
    UpdateKeepsSound(t, k, m.status, m.attempt, lastError, now, n);
    var records' := P.CallsAfter(records, P.UpdateCall(m));
    forall c | c in records' ensures HasCall(t', c) {
      var l := if c == m.callId then k else KeyOf(t, c);
      assert l in t'.calls && l.callId == c;
    }
  }

  // ---------- The store ----------

  datatype AttemptRow = AttemptRow(status: CallStatus, error: string, createdAt: int, durationMs: int)

  /** The row that the status worker writes for a message. */
  function AttemptRowOf(m: StatusMessage): AttemptRow {
    AttemptRow(m.status, m.error, m.occurredAt, m.durationMs)
  }

  /** In each operation `budget` is the number of writes the database takes before it fails. */
  class Store {
    var calls: map<CallKey, CallRow>
    var index: map<IndexKey, IndexRow>
    var attempts: map<(CallId, int), AttemptRow>

    ghost function Contents(): Tables
      reads this
    {
      Tables(calls, index)
    }

    constructor ()
      ensures Contents() == Tables(map[], map[]) && attempts == map[]
    {
      calls, index, attempts := map[], map[], map[];
    }

    method CreateCall(c: CallData, now: int, budget: nat) returns (r: Result<()>)
      modifies this`calls, this`index
      ensures Contents() == Prefix(old(Contents()), CreateWrites(c, now), budget)
      ensures r.Ok? <==> budget >= 2
      ensures r.Ok? ==> exists bucket ::
                && InBucket(c.createdAt, bucket)
                && calls == old(calls)[CallKey(c.campaignId, bucket, c.id) :=
                                       CallRow(Some(c.phone), c.status, c.attemptCount, None)]
                && index == old(index)[IndexKey(c.campaignId, c.status, bucket, c.id) := IndexRow(Some(c.phone), now)]
    {
      BucketDateIdempotent(c.createdAt);
      CreatePrefixes(Contents(), c, now);
      assert CreateWrites(c, now)[..2] == CreateWrites(c, now);
      var k := CallKey(c.campaignId, BucketDate(c.createdAt).utc, c.id);
      if budget == 0 {
        return Err("insert calls_by_campaign");
      }
      calls := calls[k := CallRow(Some(c.phone), c.status, c.attemptCount, None)];
      if budget == 1 {
        return Err("insert calls_by_status");
      }
      index := index[IndexOf(k, c.status) := IndexRow(Some(c.phone), now)];
      return Ok(());
    }

    /** SELECT ... WHERE call_id ALLOW FILTERING: the first row with the id, if there is one. */
    method GetCall(id: CallId) returns (r: Result<CallData>)
      requires Sound(Contents())
      ensures r.Ok? <==> HasCall(Contents(), id)
      ensures r.Ok? ==> var k := KeyOf(Contents(), id);
                && r.value == Loaded(k, calls[k]) && KeyFor(r.value) == k
                && r.value.id == id && r.value.campaignId == k.campaignId && Some(r.value.phone) == calls[k].phone
                && r.value.status == calls[k].status && r.value.attemptCount == calls[k].attemptCount
                && r.value.lastError == calls[k].lastError && r.value.createdAt == Time(k.bucket, 0)
    {
      if k :| k in calls && k.callId == id {
        assert HasCall(Contents(), id) && KeyOf(Contents(), id) == k;
        LoadedKey(Contents(), k);
        return Ok(Loaded(k, calls[k]));
      }
      return Err("not found");
    }

    method UpdateCallStatus(id: CallId, status: CallStatus, attemptCount: int, lastError: Option<string>, now: int,
                            budget: nat)
      returns (r: Result<()>)
      requires Sound(Contents())
      modifies this`calls, this`index
      ensures !old(HasCall(Contents(), id)) ==> r.Err? && Contents() == old(Contents())
      ensures old(HasCall(Contents(), id)) ==>
                var k := old(KeyOf(Contents(), id));
                var ws := UpdateWrites(Loaded(k, old(calls)[k]), status, attemptCount, lastError, now);
                Contents() == Prefix(old(Contents()), ws, budget) && (r.Ok? <==> |ws| <= budget)
      ensures r.Ok? ==>
                var k := old(KeyOf(Contents(), id));
                var row := old(calls)[k];
                var before := IndexKey(k.campaignId, row.status, k.bucket, id);
                && calls == old(calls)[k := CallRow(row.phone, status, attemptCount, lastError)]
                && (status == row.status ==>
                      && index.Keys == old(index).Keys + {before} && index[before].updatedAt == now
                      && (before in old(index) ==> index[before].phone == old(index)[before].phone)
                      && forall i :: i in old(index) && i != before ==> index[i] == old(index)[i])
                && (status != row.status ==>
                      index == (old(index) - {before})[IndexKey(k.campaignId, status, k.bucket, id) :=
                                                       IndexRow(row.phone, now)])
    {
      if HasCall(Contents(), id) {
        UpdateEffect(Contents(), KeyOf(Contents(), id), status, attemptCount, lastError, now);
      }
      var found := GetCall(id);
      if found.Err? {
        return Err(found.reason);
      }
      var call := found.value;
      UpdatePrefixes(Contents(), call, status, attemptCount, lastError, now);
      ghost var ws := UpdateWrites(call, status, attemptCount, lastError, now);
      assert ws[..|ws|] == ws;
      var k := CallKey(call.campaignId, BucketDate(call.createdAt).utc, id);
      if budget == 0 {
        return Err("update calls_by_campaign");
      }
      calls := calls[k := CallRow(if k in calls then calls[k].phone else None, status, attemptCount, lastError)];
      if budget == 1 {
        return Err("update calls_by_status");
      }
      var before := IndexOf(k, call.status);
      index := index[before := IndexRow(if before in index then index[before].phone else None, now)];
      if call.status != status {
        if budget == 2 {
          return Err("delete old status");
        }
        index := index - {before};
        if budget == 3 {
          return Err("insert new status");
        }
        index := index[IndexOf(k, status) := IndexRow(Some(call.phone), now)];
      }
      return Ok(());
    }

    /** INSERT with the call and the attempt number as key: a second row for the pair replaces the first. */
    method AppendAttempt(id: CallId, attempt: int, row: AttemptRow, ok: bool) returns (r: Result<()>)
      modifies this`attempts
      ensures r.Ok? <==> ok
      ensures attempts == if ok then old(attempts)[(id, attempt) := row] else old(attempts)
    {
      if !ok {
        return Err("append attempt");
      }
      attempts := attempts[(id, attempt) := row];
      return Ok(());
    }
  }
}
