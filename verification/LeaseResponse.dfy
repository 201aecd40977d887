/** The JSON body of a granted recording lease: the rewrite that makes a
    post-reservation summary describe the minute just admitted, and the response
    object built around it. */
module LeaseResponse {
  import opened Prelude
  import opened Json

  const LEASE_SECONDS: int := 60
  const AUTHORITY_KEY: string := "_recording_retention_authority"

  /** The recording section of an authorized summary always says allowed. */
  function AllowRecording(summary: Json): Json {
    var recording := summary.Get("recording");
    if recording.Some? && recording.value.Obj? then
      Obj(summary.fields["recording" := Obj(recording.value.fields["allowed" := Bool(true)]["reason" := Null])])
    else
      summary
  }

  /** Whether the usage section is one whose final minute must be re-exposed. */
  predicate FinalMinuteReserved(usage: Json) {
    var allowance, used := FieldI64(usage, "allowance_seconds"), FieldI64(usage, "used_seconds");
    && allowance.Some? && used.Some?
    && FieldI64(usage, "remaining_seconds") == Some(0)
    && used.value >= LEASE_SECONDS
    && Saturate(allowance.value - used.value) == 0
  }

  function ExposeFinalMinute(summary: Json): Json {
    var usage := summary.Get("usage");
    if usage.Some? && usage.value.Obj? && FinalMinuteReserved(usage.value) then
      var used := FieldI64(usage.value, "used_seconds").value;
      Obj(summary.fields["usage" := Obj(usage.value.fields
        ["used_seconds" := Num(used - LEASE_SECONDS)]
        ["remaining_seconds" := Num(LEASE_SECONDS)])])
    else
      summary
  }

  function AuthorizedSummary(summary: Json): Json {
    ExposeFinalMinute(AllowRecording(summary))
  }

  /** Receipts written before the policy spelling was pinned carry the joined form. */
  function NormalizeAuthority(authority: Json): Json {
    if authority.Get("policy") == Some(Str("processing_window30d")) then
      Obj(authority.fields["policy" := Str("processing_window_30d")])
    else
      authority
  }

  function WithoutAuthority(summary: Json): Json {
    if summary.Obj? then Obj(summary.fields - {AUTHORITY_KEY}) else summary
  }

  function LeaseBody(leaseId: string, expires: int, summary: Json): Json {
    var authority := summary.Get(AUTHORITY_KEY);
    Obj(map[
      "lease_id" := Str(leaseId),
      "expires_at" := Num(expires),
      "billing" := AuthorizedSummary(WithoutAuthority(summary)),
      "recording_retention" := if authority.Some? then NormalizeAuthority(authority.value) else Null
    ])
  }

  /** Rewriting an already rewritten summary changes nothing, so a client that
      feeds a lease response back sees the same numbers. */
  lemma AuthorizedSummaryIdempotent(summary: Json)
    ensures AuthorizedSummary(AuthorizedSummary(summary)) == AuthorizedSummary(summary)
  {
    var first := AllowRecording(summary);
    var second := ExposeFinalMinute(first);
    assert AllowRecording(second) == second by {
      if second.Get("recording").Some? && second.Get("recording").value.Obj? {
        var fields := second.Get("recording").value.fields;
        assert fields["allowed" := Bool(true)]["reason" := Null] == fields;
        assert second.fields["recording" := second.fields["recording"]] == second.fields;
      }
    }
    assert ExposeFinalMinute(second) == second;
  }

  /** A client that checks allowance = used + remaining accepts the rewritten
      usage whenever it would have accepted the original; the allowance itself
      never moves, the two counters move by the same 60 seconds, and an account
      whose last minute was just reserved is shown that whole minute. */
  lemma AuthorizedSummaryKeepsArithmetic(summary: Json, allowance: int, used: int, remaining: int)
    requires summary.Get("usage").Some?
    requires FieldI64(summary.Get("usage").value, "allowance_seconds") == Some(allowance)
    requires FieldI64(summary.Get("usage").value, "used_seconds") == Some(used)
    requires FieldI64(summary.Get("usage").value, "remaining_seconds") == Some(remaining)
    requires allowance == used + remaining
    ensures
      var usage := AuthorizedSummary(summary).Get("usage");
      && usage.Some?
      && FieldI64(usage.value, "allowance_seconds") == Some(allowance)
      && (var shift := if remaining == 0 && used >= LEASE_SECONDS then LEASE_SECONDS else 0;
          && FieldI64(usage.value, "used_seconds") == Some(used - shift)
          && FieldI64(usage.value, "remaining_seconds") == Some(remaining + shift))
  {
    var before := AllowRecording(summary).Get("usage").value;
    assert before == summary.Get("usage").value;
    var usage := AuthorizedSummary(summary).Get("usage").value;
    var shift := if remaining == 0 && used >= LEASE_SECONDS then LEASE_SECONDS else 0;
    assert FinalMinuteReserved(before) <==> shift != 0;
    assert FieldI64(usage, "used_seconds") == Some(used - shift);
    assert FieldI64(usage, "remaining_seconds") == Some(remaining + shift);
  }

  /** What a client reads off the body of a granted lease: the lease's own id and expiry;
      a summary whose recording section says allowed for no reason, is otherwise as it
      was, and no longer carries the retention authority; and that authority beside it,
      under the one spelling of its policy. */
  lemma LeaseBodySays(leaseId: string, expires: int, summary: Json)
    ensures
      var body := LeaseBody(leaseId, expires, summary);
      && body.Get("lease_id") == Some(Str(leaseId)) && body.Get("expires_at") == Some(Num(expires))
      && body.Get("billing").Some? && BillingSays(summary, body.Get("billing").value)
      && body.Get("recording_retention").Some?
      && RetentionSays(summary.Get(AUTHORITY_KEY), body.Get("recording_retention").value)
  {
    SummarySays(WithoutAuthority(summary));
  }

  ghost predicate BillingSays(summary: Json, billing: Json) {
    && billing.Obj? == summary.Obj?
    && billing.Get(AUTHORITY_KEY) == None
    && (!summary.Obj? ==> billing == summary)
    && (forall k | k != AUTHORITY_KEY && k != "recording" && k != "usage" :: billing.Get(k) == summary.Get(k))
    && RecordingSays(summary.Get("recording"), billing.Get("recording"))
  }

  ghost predicate RecordingSays(before: Option<Json>, after: Option<Json>) {
    if before.Some? && before.value.Obj? then
      && after.Some? && after.value.Obj?
      && after.value.Get("allowed") == Some(Bool(true)) && after.value.Get("reason") == Some(Null)
      && forall k | k != "allowed" && k != "reason" :: after.value.Get(k) == before.value.Get(k)
    else
      after == before
  }

  ghost predicate RetentionSays(authority: Option<Json>, retention: Json) {
    if authority.None? then retention == Null
    else
      && retention.Get("policy") != Some(Str("processing_window30d"))
      && (authority.value.Get("policy") != Some(Str("processing_window30d")) ==> retention == authority.value)
      && forall k | k != "policy" :: retention.Get(k) == authority.value.Get(k)
  }

  lemma SummarySays(summary: Json)
    ensures
      var after := AuthorizedSummary(summary);
      && after.Obj? == summary.Obj? && (!summary.Obj? ==> after == summary)
      && (forall k | k != "recording" && k != "usage" :: after.Get(k) == summary.Get(k))
      && RecordingSays(summary.Get("recording"), after.Get("recording"))
  {
  }
}
