/** The wire shapes of internal/queue/messages.go and what each worker builds from them. */
module Messages {
  import opened Wrappers

  type CallId = nat
  type CampaignId = nat
  type Metadata = map<string, string>

  /** uuid.Nil. Campaign ids are drawn by uuid.New, so no campaign carries it. */
  const NIL_CAMPAIGN: CampaignId := 0

  /** domain.CallStatus; Unset is the empty string of a zero provider result. */
  datatype CallStatus = Unset | Pending | Queued | Dialing | Completed | Failed | Retrying

  datatype DispatchMessage = DispatchMessage(
    callId: CallId, campaignId: CampaignId, phone: string,
    attempt: int, maxAttempts: int,
    baseMs: int, maxMs: int, jitter: real,
    limit: int, metadata: Metadata, enqueuedAt: int)

  datatype StatusMessage = StatusMessage(
    callId: CallId, campaignId: CampaignId, phone: string,
    status: CallStatus, attempt: int, maxAttempts: int, retryable: bool,
    baseMs: int, maxMs: int, jitter: real,
    limit: int, durationMs: int, error: string, occurredAt: int,
    nextAttempt: Option<int>, metadata: Metadata)

  /** RetryMessage embeds a dispatch and declares a second MaxAttempts under the same JSON tag. */
  datatype RetryMessage = RetryMessage(dispatch: DispatchMessage, maxAttempts: int, nextAttempt: int)

  /** telephony.Result, with the duration in nanoseconds. */
  datatype ProviderResult = ProviderResult(status: CallStatus, duration: int, retryable: bool, error: string)

  /** The contract the mock provider keeps: a call completes or fails, and a completed call asks for no retry. */
  predicate ProviderContract(r: ProviderResult) {
    (r.status == Completed || r.status == Failed) && (r.status == Completed ==> !r.retryable)
  }

  // ---------- What the call worker publishes ----------

  /** A provider error without a reason in the result overrides what the result says. */
  predicate ErrorOverrides(r: ProviderResult, callErr: Option<string>) {
    callErr.Some? && r.error == ""
  }

  /** The status message of processMessage; `next` is what computeNextAttempt returned. */
  function BuildStatus(d: DispatchMessage, r: ProviderResult, callErr: Option<string>, now: int,
                       next: int): StatusMessage
  {
    var overridden := ErrorOverrides(r, callErr);
    var retryable := (overridden || r.retryable) && d.attempt < d.maxAttempts;
    StatusMessage(
      d.callId, d.campaignId, d.phone,
      if overridden then Failed else r.status,
      d.attempt, d.maxAttempts, retryable,
      d.baseMs, d.maxMs, d.jitter, d.limit,
      if r.duration > 0 then r.duration / 1_000_000 else 0,
      if overridden then callErr.value else r.error,
      now,
      if retryable then Some(next) else None,
      d.metadata)
  }

  /** What a status message has to say about a placed call: `next` is the time for a retry. */
  predicate Reports(m: StatusMessage, d: DispatchMessage, r: ProviderResult, callErr: Option<string>, now: int,
                    next: int) {
    var silent := callErr.Some? && r.error == "";
    && m.callId == d.callId && m.campaignId == d.campaignId && m.phone == d.phone && m.metadata == d.metadata
    && m.attempt == d.attempt && m.maxAttempts == d.maxAttempts && m.limit == d.limit
    && m.baseMs == d.baseMs && m.maxMs == d.maxMs && m.jitter == d.jitter
    && (silent ==> m.status == Failed && m.error == callErr.value && (m.retryable <==> d.attempt < d.maxAttempts))
    && (!silent ==> m.status == r.status && m.error == r.error
                    && (m.retryable <==> r.retryable && d.attempt < d.maxAttempts))
    && (r.duration > 0 ==> m.durationMs * 1_000_000 <= r.duration < (m.durationMs + 1) * 1_000_000)
    && (r.duration <= 0 ==> m.durationMs == 0)
    && m.occurredAt == now
    && m.nextAttempt == if m.retryable then Some(next) else None
  }

  /** The published message says so. */
  lemma StatusReports(d: DispatchMessage, r: ProviderResult, callErr: Option<string>, now: int, next: int)
    ensures Reports(BuildStatus(d, r, callErr, now, next), d, r, callErr, now, next)
  {
  }

  // ---------- What the status worker sends on ----------

  /** What a retry has to say after a failed attempt: the next attempt of the same call, due when that said. */
  predicate Retries(r: RetryMessage, m: StatusMessage) {
    && r.dispatch.callId == m.callId && r.dispatch.campaignId == m.campaignId && r.dispatch.phone == m.phone
    && r.dispatch.attempt == m.attempt + 1
    && r.dispatch.baseMs == m.baseMs && r.dispatch.maxMs == m.maxMs && r.dispatch.jitter == m.jitter
    && r.dispatch.limit == m.limit && r.dispatch.metadata == m.metadata
    && r.maxAttempts == m.maxAttempts
    && m.nextAttempt == Some(r.nextAttempt) && r.dispatch.enqueuedAt == r.nextAttempt
  }

  lemma RetryRetries(m: StatusMessage)
    requires WantsRetry(m)
    ensures Retries(RetryFor(m), m) && RetryFor(m).dispatch.maxAttempts == m.maxAttempts
  {
  }

  predicate WantsRetry(m: StatusMessage) {
    m.retryable && m.nextAttempt.Some?
  }

  /** The retry instruction the status worker builds for a failed attempt. */
  function RetryFor(m: StatusMessage): RetryMessage
    requires WantsRetry(m)
  {
    RetryMessage(
      DispatchMessage(
        m.callId, m.campaignId, m.phone, m.attempt + 1, m.maxAttempts,
        m.baseMs, m.maxMs, m.jitter, m.limit, m.metadata, m.nextAttempt.value),
      m.maxAttempts, m.nextAttempt.value)
  }

  // ---------- The part of a message no hop may change ----------

  datatype Payload = Payload(
    callId: CallId, campaignId: CampaignId, phone: string,
    baseMs: int, maxMs: int, jitter: real, limit: int, metadata: Metadata)

  function PayloadOf(d: DispatchMessage): Payload {
    Payload(d.callId, d.campaignId, d.phone, d.baseMs, d.maxMs, d.jitter, d.limit, d.metadata)
  }

  function PayloadOfStatus(m: StatusMessage): Payload {
    Payload(m.callId, m.campaignId, m.phone, m.baseMs, m.maxMs, m.jitter, m.limit, m.metadata)
  }

  // ---------- JSON ----------

  /** One constructor per JSON tag, so that two fields with one tag collide as they do on the wire. */
  datatype Tag =
    | CallIdTag | CampaignIdTag | PhoneTag | AttemptTag | MaxAttemptsTag | BaseMsTag | MaxMsTag
    | JitterTag | LimitTag | MetadataTag | EnqueuedAtTag | NextAttemptTag

  datatype Json = Num(n: int) | Dec(r: real) | Text(s: string) | Obj(m: Metadata)

  type Record = map<Tag, Json>

  function EncodeDispatch(d: DispatchMessage): Record {
    map[CallIdTag := Num(d.callId), CampaignIdTag := Num(d.campaignId), PhoneTag := Text(d.phone),
        AttemptTag := Num(d.attempt), MaxAttemptsTag := Num(d.maxAttempts),
        BaseMsTag := Num(d.baseMs), MaxMsTag := Num(d.maxMs), JitterTag := Dec(d.jitter),
        LimitTag := Num(d.limit), MetadataTag := Obj(d.metadata), EnqueuedAtTag := Num(d.enqueuedAt)]
  }

  /** encoding/json: a field of the outer struct hides an embedded field with the same tag. */
  function EncodeRetry(r: RetryMessage): Record {
    EncodeDispatch(r.dispatch) + map[MaxAttemptsTag := Num(r.maxAttempts), NextAttemptTag := Num(r.nextAttempt)]
  }

  predicate NumOrAbsent(rec: Record, t: Tag) {
    t in rec ==> rec[t].Num?
  }

  predicate IdOrAbsent(rec: Record, t: Tag) {
    t in rec ==> rec[t].Num? && rec[t].n >= 0
  }

  /** The records json.Unmarshal accepts for these structs; anything else is a decoding error. */
  predicate WellTyped(rec: Record) {
    && IdOrAbsent(rec, CallIdTag) && IdOrAbsent(rec, CampaignIdTag)
    && (PhoneTag in rec ==> rec[PhoneTag].Text?)
    && NumOrAbsent(rec, AttemptTag) && NumOrAbsent(rec, MaxAttemptsTag)
    && NumOrAbsent(rec, BaseMsTag) && NumOrAbsent(rec, MaxMsTag)
    && (JitterTag in rec ==> rec[JitterTag].Dec?)
    && NumOrAbsent(rec, LimitTag)
    && (MetadataTag in rec ==> rec[MetadataTag].Obj?)
    && NumOrAbsent(rec, EnqueuedAtTag) && NumOrAbsent(rec, NextAttemptTag)
  }

  /** A field without a value on the wire keeps the zero of its type. */
  function NumField(rec: Record, t: Tag): int
    requires NumOrAbsent(rec, t)
  {
    if t in rec then rec[t].n else 0
  }

  function DecodeDispatch(rec: Record): Option<DispatchMessage> {
    if !WellTyped(rec) then None else
    Some(DispatchMessage(
      NumField(rec, CallIdTag), NumField(rec, CampaignIdTag),
      if PhoneTag in rec then rec[PhoneTag].s else "",
      NumField(rec, AttemptTag), NumField(rec, MaxAttemptsTag),
      NumField(rec, BaseMsTag), NumField(rec, MaxMsTag),
      if JitterTag in rec then rec[JitterTag].r else 0.0,
      NumField(rec, LimitTag),
      if MetadataTag in rec then rec[MetadataTag].m else map[],
      NumField(rec, EnqueuedAtTag)))
  }

  /** How the retry worker's copy of a message gets its inner MaxAttempts. */
  datatype Codec =
    | Literal   // as encoding/json does it: only the outer field is filled
    | Intended  // as the retry worker relies on it: the inner field is filled too

  function DecodeRetry(codec: Codec, rec: Record): Option<RetryMessage> {
    match DecodeDispatch(rec)
    case None => None
    case Some(d) =>
      var inner := if codec == Literal then 0 else NumField(rec, MaxAttemptsTag);
      Some(RetryMessage(d.(maxAttempts := inner), NumField(rec, MaxAttemptsTag), NumField(rec, NextAttemptTag)))
  }

  /** A retry message as it comes out of a retry topic. */
  function Delivered(codec: Codec, r: RetryMessage): RetryMessage {
    r.(dispatch := r.dispatch.(maxAttempts := if codec == Literal then 0 else r.maxAttempts))
  }

  lemma DispatchRoundTrip(d: DispatchMessage)
    ensures DecodeDispatch(EncodeDispatch(d)) == Some(d)
  {
    assert WellTyped(EncodeDispatch(d));
  }

  /** Which records are decoded, and to what: fields that are there must have their type, others are zero. */
  lemma DecodesExactly(rec: Record)
    ensures DecodeDispatch(rec).Some? <==>
              && (CallIdTag in rec ==> rec[CallIdTag].Num? && rec[CallIdTag].n >= 0)
              && (CampaignIdTag in rec ==> rec[CampaignIdTag].Num? && rec[CampaignIdTag].n >= 0)
              && (AttemptTag in rec ==> rec[AttemptTag].Num?) && (MaxAttemptsTag in rec ==> rec[MaxAttemptsTag].Num?)
              && (BaseMsTag in rec ==> rec[BaseMsTag].Num?) && (MaxMsTag in rec ==> rec[MaxMsTag].Num?)
              && (LimitTag in rec ==> rec[LimitTag].Num?) && (EnqueuedAtTag in rec ==> rec[EnqueuedAtTag].Num?)
              && (NextAttemptTag in rec ==> rec[NextAttemptTag].Num?)
              && (PhoneTag in rec ==> rec[PhoneTag].Text?)
              && (JitterTag in rec ==> rec[JitterTag].Dec?)
              && (MetadataTag in rec ==> rec[MetadataTag].Obj?)
    ensures DecodeDispatch(rec).Some? ==>
              var d := DecodeDispatch(rec).value;
              && (AttemptTag in rec ==> rec[AttemptTag] == Num(d.attempt)) && (AttemptTag !in rec ==> d.attempt == 0)
              && (MaxAttemptsTag in rec ==> rec[MaxAttemptsTag] == Num(d.maxAttempts))
              && (MaxAttemptsTag !in rec ==> d.maxAttempts == 0)
              && (PhoneTag in rec ==> rec[PhoneTag] == Text(d.phone)) && (PhoneTag !in rec ==> d.phone == "")
              && (CampaignIdTag !in rec ==> d.campaignId == NIL_CAMPAIGN)
              && (LimitTag !in rec ==> d.limit == 0) && (JitterTag !in rec ==> d.jitter == 0.0)
  {
  }

  /** What a retry topic does to a message: the embedded MaxAttempts is overwritten, nothing else is. */
  lemma RetryHop(codec: Codec, r: RetryMessage)
    ensures DecodeRetry(codec, EncodeRetry(r)) == Some(Delivered(codec, r))
  {
    var rec := EncodeRetry(r);
    assert WellTyped(rec);
    assert rec[AttemptTag] == Num(r.dispatch.attempt);
  }

  /** Exactly when a retry topic returns what was put in. The status worker always writes equal inner
      and outer values, so under the code as it stands only a budget of zero survives. */
  lemma RetryRoundTrips(codec: Codec, r: RetryMessage)
    ensures DecodeRetry(codec, EncodeRetry(r)) == Some(r)
       <==> r.dispatch.maxAttempts == (if codec == Literal then 0 else r.maxAttempts)
  {
    RetryHop(codec, r);
  }
}
