/**
 * app/api/send-sms/route.ts, `POST`: check the session, read the recipients,
 * then send to each recipient in turn, counting successes and failures and
 * writing one best-effort `sms_logs` row per real send. The carrier is an
 * oracle (`replies[i]` is what it does for recipient `i`) and so is the log
 * store (`faults[i]` says whether the log insert for recipient `i` throws).
 */
module SendRoute {
  import opened Wrappers
  import opened Records
  import opened Twilio

  const AuthRequired := "認証が必要です"
  const NoRecipients := "送信先が指定されていません"
  const EmptyField := "電話番号またはメッセージが空です"
  const UnknownPhone := "不明"
  const SendFailed := "SMS送信中にエラーが発生しました"

  /** One entry of `recipients`; an absent phone or message is the empty string. */
  datatype Recipient = Recipient(phone: string, message: string, contactId: Option<string>)

  /** The JSON body; `recipients` is `None` when it is missing or not an array. */
  datatype SendBody = SendBody(recipients: Option<seq<Recipient>>, dryRun: bool, campaignId: Option<string>)

  /** One element of `results`. */
  datatype ResultEntry = ResultEntry(phone: string, success: bool, error: Option<string>)

  datatype Payload =
    | ErrorPayload(error: string)
    | Summary(total: nat, success: nat, failed: nat, dryRun: bool, results: seq<ResultEntry>)

  datatype Response = Response(status: int, payload: Payload)

  /** What handling one recipient produces: its result entry, the carrier request made and the log written. */
  datatype Outcome = Outcome(entry: ResultEntry, request: Option<CarrierRequest>, log: Option<SmsLog>)

  /** `!recipient.phone || !recipient.message`. */
  predicate Incomplete(r: Recipient) {
    r.phone == "" || r.message == ""
  }

  /** The handling of one recipient, given the carrier's reply to it. */
  function OutcomeOf(env: TwilioEnv, dryRun: bool, campaignId: Option<string>, r: Recipient, reply: CarrierReply): (o: Outcome)
    ensures Incomplete(r) ==>
      o.entry == ResultEntry(if r.phone == "" then UnknownPhone else r.phone, false, Some(EmptyField))
      && o.request.None? && o.log.None?
    ensures !Incomplete(r) && dryRun ==>
      o.entry == ResultEntry(r.phone, true, None) && o.request.None? && o.log.None?
    ensures !Incomplete(r) && !dryRun ==>
      var sent := SendSms(env, r.phone, r.message, reply);
      o.entry.phone == r.phone
      && (o.entry.success <==> sent.result.success)
      && (o.entry.success ==> o.entry.error.None?)
      && (!o.entry.success ==> o.entry.error == sent.result.error)
      && o.request == sent.request
      && o.log == Some(SmsLog(r.phone, r.message,
                              if o.entry.success then Succeeded else Failed,
                              if o.entry.success then None else sent.result.error,
                              OrNull(r.contactId), OrNull(campaignId)))
  {
    if Incomplete(r) then
      Outcome(ResultEntry(if r.phone == "" then UnknownPhone else r.phone, false, Some(EmptyField)), None, None)
    else if dryRun then
      Outcome(ResultEntry(r.phone, true, None), None, None)
    else
      var sent := SendSms(env, r.phone, r.message, reply);
      if sent.result.success then
        Outcome(ResultEntry(r.phone, true, None), sent.request,
                Some(SmsLog(r.phone, r.message, Succeeded, None, OrNull(r.contactId), OrNull(campaignId))))
      else
        Outcome(ResultEntry(r.phone, false, sent.result.error), sent.request,
                Some(SmsLog(r.phone, r.message, Failed, sent.result.error, OrNull(r.contactId), OrNull(campaignId))))
  }

  /** The outcomes of a batch, recipient by recipient. */
  function Outcomes(env: TwilioEnv, dryRun: bool, campaignId: Option<string>,
                    rs: seq<Recipient>, replies: seq<CarrierReply>): (os: seq<Outcome>)
    requires |replies| == |rs|
    ensures |os| == |rs|
  {
    seq(|rs|, i requires 0 <= i < |rs| => OutcomeOf(env, dryRun, campaignId, rs[i], replies[i]))
  }

  function SuccessCount(os: seq<Outcome>): nat {
    if os == [] then 0 else SuccessCount(os[..|os| - 1]) + (if os[|os| - 1].entry.success then 1 else 0)
  }

  function FailedCount(os: seq<Outcome>): nat {
    if os == [] then 0 else FailedCount(os[..|os| - 1]) + (if os[|os| - 1].entry.success then 0 else 1)
  }

  function Entries(os: seq<Outcome>): (es: seq<ResultEntry>)
    ensures |es| == |os|
    ensures forall i :: 0 <= i < |os| ==> es[i] == os[i].entry
  {
    seq(|os|, i requires 0 <= i < |os| => os[i].entry)
  }

  /** The carrier requests made, in order. */
  function Requests(os: seq<Outcome>): seq<CarrierRequest> {
    if os == [] then []
    else
      var last := os[|os| - 1];
      Requests(os[..|os| - 1]) + (if last.request.Some? then [last.request.value] else [])
  }

  /** The log rows that reach the table: those of real sends whose insert does not throw. */
  function SavedLogs(os: seq<Outcome>, faults: seq<bool>): seq<SmsLog>
    requires |faults| == |os|
  {
    if os == [] then []
    else
      var n := |os| - 1;
      SavedLogs(os[..n], faults[..n]) + (if os[n].log.Some? && !faults[n] then [os[n].log.value] else [])
  }

  /** The response of `POST`; the log store's faults play no part in it. */
  function Respond(authenticated: bool, body: Option<SendBody>, env: TwilioEnv, replies: seq<CarrierReply>): (resp: Response)
    requires body.Some? && body.value.recipients.Some? ==> |replies| == |body.value.recipients.value|
    ensures !authenticated ==> resp == Response(401, ErrorPayload(AuthRequired))
    ensures authenticated && body.None? ==> resp == Response(500, ErrorPayload(SendFailed))
    ensures authenticated && body.Some? && (body.value.recipients.None? || body.value.recipients.value == []) ==>
      resp == Response(400, ErrorPayload(NoRecipients))
    ensures resp.status == 200 <==> authenticated && body.Some? && body.value.recipients.Some? && body.value.recipients.value != []
    ensures resp.status == 200 ==>
      resp.payload.Summary? && resp.payload.total == |body.value.recipients.value|
      && resp.payload.dryRun == body.value.dryRun
      && |resp.payload.results| == resp.payload.total
  {
    if !authenticated then Response(401, ErrorPayload(AuthRequired))
    else if body.None? then Response(500, ErrorPayload(SendFailed))
    else if body.value.recipients.None? || body.value.recipients.value == [] then Response(400, ErrorPayload(NoRecipients))
    else
      var b := body.value;
      var rs := b.recipients.value;
      var os := Outcomes(env, b.dryRun, b.campaignId, rs, replies);
      Response(200, Summary(|rs|, SuccessCount(os), FailedCount(os), b.dryRun, Entries(os)))
  }

  /** The `sms_logs` table, written only by inserts. */
  class SmsLogTable {
    var logs: seq<SmsLog>

    constructor ()
      ensures logs == []
    {
      logs := [];
    }

    /** `saveSmsLog(log)`; when the insert fails the row is not stored and the error is swallowed by the caller. */
    method Save(log: SmsLog, fault: bool)
      modifies this
      ensures logs == if fault then old(logs) else old(logs) + [log]
    {
      if !fault {
        logs := logs + [log];
      }
    }
  }

  /**
   * `POST(request)`. `body` is `None` when the JSON cannot be read. It returns
   * the response, the carrier requests made in order, and the client state
   * `getClient` leaves behind.
   */
  method Post(authenticated: bool, body: Option<SendBody>, env: TwilioEnv,
              replies: seq<CarrierReply>, faults: seq<bool>, table: SmsLogTable)
    returns (resp: Response, sent: seq<CarrierRequest>, envOut: TwilioEnv)
    requires body.Some? && body.value.recipients.Some? ==>
      |replies| == |body.value.recipients.value| && |faults| == |body.value.recipients.value|
    modifies table
    ensures resp == Respond(authenticated, body, env, replies)
    ensures resp.status != 200 ==> sent == [] && table.logs == old(table.logs) && envOut == env
    ensures resp.status == 200 ==>
      var b := body.value;
      var os := Outcomes(env, b.dryRun, b.campaignId, b.recipients.value, replies);
      sent == Requests(os) && table.logs == old(table.logs) + SavedLogs(os, faults)
    ensures ConfigError(envOut) == ConfigError(env) && envOut.fromNumber == env.fromNumber
  {
    sent := [];
    envOut := env;
    if !authenticated {
      return Response(401, ErrorPayload(AuthRequired)), sent, envOut;
    }
    if body.None? {
      return Response(500, ErrorPayload(SendFailed)), sent, envOut;
    }
    var b := body.value;
    if b.recipients.None? || b.recipients.value == [] {
      return Response(400, ErrorPayload(NoRecipients)), sent, envOut;
    }
    var rs := b.recipients.value;
    var successCount, failedCount, results;
    successCount, failedCount, results, sent, envOut := SendEach(env, b.dryRun, b.campaignId, rs, replies, faults, table);
    resp := Response(200, Summary(|rs|, successCount, failedCount, b.dryRun, results));
  }

  /** The `for (const recipient of recipients)` loop of `POST`. */
  method SendEach(env: TwilioEnv, dryRun: bool, campaignId: Option<string>, rs: seq<Recipient>,
                  replies: seq<CarrierReply>, faults: seq<bool>, table: SmsLogTable)
    returns (successCount: nat, failedCount: nat, results: seq<ResultEntry>, sent: seq<CarrierRequest>, envOut: TwilioEnv)
    requires |replies| == |rs| && |faults| == |rs|
    modifies table
    ensures var os := Outcomes(env, dryRun, campaignId, rs, replies);
      successCount == SuccessCount(os) && failedCount == FailedCount(os) && results == Entries(os)
      && sent == Requests(os) && table.logs == old(table.logs) + SavedLogs(os, faults)
    ensures ConfigError(envOut) == ConfigError(env) && envOut.fromNumber == env.fromNumber
  {
    ghost var os := Outcomes(env, dryRun, campaignId, rs, replies);
    ghost var logs0 := table.logs;
    successCount, failedCount, results, sent, envOut := 0, 0, [], [], env;
    var i := 0;
    while i < |rs|
      invariant 0 <= i <= |rs|
      invariant successCount == SuccessCount(os[..i]) && failedCount == FailedCount(os[..i])
      invariant results == Entries(os[..i])
      invariant sent == Requests(os[..i])
      invariant table.logs == logs0 + SavedLogs(os[..i], faults[..i])
      invariant ConfigError(envOut) == ConfigError(env) && envOut.fromNumber == env.fromNumber
      decreases |rs| - i
    {
      ghost var logs := table.logs;
      var entry, request;
      entry, request, envOut := SendOne(env, envOut, dryRun, campaignId, rs[i], replies[i], faults[i], table, os[i]);
      TallyStep(os, faults, i, logs0, logs, table.logs, successCount, failedCount, results, sent, entry, request);
      successCount := if entry.success then successCount + 1 else successCount;
      failedCount := if entry.success then failedCount else failedCount + 1;
      results := results + [entry];
      sent := if request.Some? then sent + [request.value] else sent;
      i := i + 1;
    }
    assert os[..i] == os && faults[..i] == faults;
  }

  /**
   * One pass of the loop body: the early `continue`s for an incomplete
   * recipient and for a dry run, otherwise the send and its log write.
   */
  method SendOne(env: TwilioEnv, envIn: TwilioEnv, dryRun: bool, campaignId: Option<string>, r: Recipient,
                 reply: CarrierReply, fault: bool, table: SmsLogTable, ghost o: Outcome)
    returns (entry: ResultEntry, request: Option<CarrierRequest>, envOut: TwilioEnv)
    requires ConfigError(envIn) == ConfigError(env) && envIn.fromNumber == env.fromNumber
    requires o == OutcomeOf(env, dryRun, campaignId, r, reply)
    modifies table
    ensures entry == o.entry && request == o.request
      && table.logs == old(table.logs) + (if o.log.Some? && !fault then [o.log.value] else [])
    ensures ConfigError(envOut) == ConfigError(env) && envOut.fromNumber == env.fromNumber
  {
    envOut := envIn;
    request := None;
    if r.phone == "" || r.message == "" {
      return ResultEntry(if r.phone == "" then UnknownPhone else r.phone, false, Some(EmptyField)), request, envOut;
    }
    if dryRun {
      return ResultEntry(r.phone, true, None), request, envOut;
    }
    SendSmsSameConfig(envIn, env, r.phone, r.message, reply);
    var attempt := SendSms(envIn, r.phone, r.message, reply);
    AfterSendKeepsConfig(envIn);
    envOut := AfterSend(envIn);
    request := attempt.request;
    var result := attempt.result;
    if result.success {
      entry := ResultEntry(r.phone, true, None);
      table.Save(SmsLog(r.phone, r.message, Succeeded, None, OrNull(r.contactId), OrNull(campaignId)), fault);
    } else {
      entry := ResultEntry(r.phone, false, result.error);
      table.Save(SmsLog(r.phone, r.message, Failed, result.error, OrNull(r.contactId), OrNull(campaignId)), fault);
    }
  }

  /** The loop's summaries after recipient `i`, from those before it and the recipient's outcome. */
  lemma TallyStep(os: seq<Outcome>, faults: seq<bool>, i: nat, logs0: seq<SmsLog>, logs: seq<SmsLog>, logs': seq<SmsLog>,
                  sc: nat, fc: nat, results: seq<ResultEntry>, sent: seq<CarrierRequest>,
                  entry: ResultEntry, request: Option<CarrierRequest>)
    requires i < |os| == |faults|
    requires sc == SuccessCount(os[..i]) && fc == FailedCount(os[..i])
    requires results == Entries(os[..i]) && sent == Requests(os[..i])
    requires logs == logs0 + SavedLogs(os[..i], faults[..i])
    requires entry == os[i].entry && request == os[i].request
    requires logs' == logs + (if os[i].log.Some? && !faults[i] then [os[i].log.value] else [])
    ensures (if entry.success then sc + 1 else sc) == SuccessCount(os[..i + 1])
    ensures (if entry.success then fc else fc + 1) == FailedCount(os[..i + 1])
    ensures results + [entry] == Entries(os[..i + 1])
    ensures (if request.Some? then sent + [request.value] else sent) == Requests(os[..i + 1])
    ensures logs' == logs0 + SavedLogs(os[..i + 1], faults[..i + 1])
  {
    PrefixStep(os, faults, i);
  }

  /** How the batch summaries grow by one recipient. */
  lemma PrefixStep(os: seq<Outcome>, faults: seq<bool>, i: nat)
    requires i < |os| == |faults|
    ensures SuccessCount(os[..i + 1]) == SuccessCount(os[..i]) + (if os[i].entry.success then 1 else 0)
    ensures FailedCount(os[..i + 1]) == FailedCount(os[..i]) + (if os[i].entry.success then 0 else 1)
    ensures Entries(os[..i + 1]) == Entries(os[..i]) + [os[i].entry]
    ensures Requests(os[..i + 1]) == Requests(os[..i]) + (if os[i].request.Some? then [os[i].request.value] else [])
    ensures SavedLogs(os[..i + 1], faults[..i + 1])
            == SavedLogs(os[..i], faults[..i]) + (if os[i].log.Some? && !faults[i] then [os[i].log.value] else [])
  {
    assert os[..i + 1][..i] == os[..i] && faults[..i + 1][..i] == faults[..i];
  }

  // ---------------------------------------------------------------------------
  // Properties of a batch

  /** Every recipient is counted exactly once: `success + failed == total`. */
  lemma {:induction false} CountsAddUp(os: seq<Outcome>)
    ensures SuccessCount(os) + FailedCount(os) == |os|
  {
    if os != [] {
      CountsAddUp(os[..|os| - 1]);
    }
  }

  /** `success` is the number of entries reported successful. */
  lemma {:induction false} SuccessCountIsSize(os: seq<Outcome>)
    ensures SuccessCount(os) == |set i | 0 <= i < |os| && os[i].entry.success|
  {
    if os != [] {
      var n := |os| - 1;
      SuccessCountIsSize(os[..n]);
      var before := set i | 0 <= i < n && os[..n][i].entry.success;
      var now := set i | 0 <= i < |os| && os[i].entry.success;
      assert before == set i | 0 <= i < n && os[i].entry.success;
      if os[n].entry.success {
        assert now == before + {n};
      } else {
        assert now == before;
      }
    }
  }

  /** The counts in a 200 response add up to the number of recipients. */
  lemma ResponseCountsAddUp(authenticated: bool, body: Option<SendBody>, env: TwilioEnv, replies: seq<CarrierReply>)
    requires body.Some? && body.value.recipients.Some? ==> |replies| == |body.value.recipients.value|
    requires Respond(authenticated, body, env, replies).status == 200
    ensures var p := Respond(authenticated, body, env, replies).payload;
      p.success + p.failed == p.total
  {
    var b := body.value;
    CountsAddUp(Outcomes(env, b.dryRun, b.campaignId, b.recipients.value, replies));
  }

  /** Every carrier request of a batch: an outcome's own request, in recipient order. */
  lemma {:induction false} RequestsCome(os: seq<Outcome>)
    ensures |Requests(os)| <= |os|
    ensures (forall i :: 0 <= i < |os| ==> os[i].request.None?) ==> Requests(os) == []
  {
    if os != [] {
      var n := |os| - 1;
      RequestsCome(os[..n]);
      assert forall i :: 0 <= i < n ==> os[..n][i] == os[i];
    }
  }

  lemma {:induction false} NoLogsSaved(os: seq<Outcome>, faults: seq<bool>)
    requires |faults| == |os|
    requires forall i :: 0 <= i < |os| ==> os[i].log.None?
    ensures SavedLogs(os, faults) == []
  {
    if os != [] {
      var n := |os| - 1;
      assert forall i :: 0 <= i < n ==> os[..n][i] == os[i];
      NoLogsSaved(os[..n], faults[..n]);
    }
  }

  /**
   * A dry run makes no carrier request and writes no log, and every complete
   * recipient is reported as sent.
   */
  lemma DryRunHasNoEffects(env: TwilioEnv, campaignId: Option<string>, rs: seq<Recipient>,
                           replies: seq<CarrierReply>, faults: seq<bool>)
    requires |replies| == |rs| && |faults| == |rs|
    ensures var os := Outcomes(env, true, campaignId, rs, replies);
      Requests(os) == [] && SavedLogs(os, faults) == []
      && forall i :: 0 <= i < |rs| ==> (os[i].entry.success <==> !Incomplete(rs[i]))
  {
    var os := Outcomes(env, true, campaignId, rs, replies);
    DryRunOutcomes(env, campaignId, rs, replies);
    RequestsCome(os);
    NoLogsSaved(os, faults);
  }

  /** In a dry run each outcome has no request and no log, and succeeds exactly for a complete recipient. */
  lemma DryRunOutcomes(env: TwilioEnv, campaignId: Option<string>, rs: seq<Recipient>, replies: seq<CarrierReply>)
    requires |replies| == |rs|
    ensures var os := Outcomes(env, true, campaignId, rs, replies);
      forall i :: 0 <= i < |os| ==>
        os[i].request.None? && os[i].log.None? && (os[i].entry.success <==> !Incomplete(rs[i]))
  {
    var os := Outcomes(env, true, campaignId, rs, replies);
    forall i | 0 <= i < |os|
      ensures os[i].request.None? && os[i].log.None? && (os[i].entry.success <==> !Incomplete(rs[i]))
    {
      var o := OutcomeOf(env, true, campaignId, rs[i], replies[i]);
      assert os[i] == o;
    }
  }

  /** A recipient with an empty phone or message never reaches the carrier, live or not. */
  lemma IncompleteNeverSent(env: TwilioEnv, dryRun: bool, campaignId: Option<string>, rs: seq<Recipient>,
                            replies: seq<CarrierReply>, faults: seq<bool>)
    requires |replies| == |rs| && |faults| == |rs|
    requires forall i :: 0 <= i < |rs| ==> Incomplete(rs[i])
    ensures var os := Outcomes(env, dryRun, campaignId, rs, replies);
      Requests(os) == [] && SavedLogs(os, faults) == [] && SuccessCount(os) == 0
  {
    var os := Outcomes(env, dryRun, campaignId, rs, replies);
    IncompleteOutcomes(env, dryRun, campaignId, rs, replies);
    RequestsCome(os);
    NoLogsSaved(os, faults);
    NoneSucceeded(os);
  }

  /** Each incomplete recipient yields a failed entry with no request and no log. */
  lemma IncompleteOutcomes(env: TwilioEnv, dryRun: bool, campaignId: Option<string>, rs: seq<Recipient>,
                           replies: seq<CarrierReply>)
    requires |replies| == |rs|
    requires forall i :: 0 <= i < |rs| ==> Incomplete(rs[i])
    ensures var os := Outcomes(env, dryRun, campaignId, rs, replies);
      forall i :: 0 <= i < |os| ==> os[i].request.None? && os[i].log.None? && !os[i].entry.success
  {
    var os := Outcomes(env, dryRun, campaignId, rs, replies);
    forall i | 0 <= i < |os|
      ensures os[i].request.None? && os[i].log.None? && !os[i].entry.success
    {
      var o := OutcomeOf(env, dryRun, campaignId, rs[i], replies[i]);
      assert os[i] == o;
    }
  }

  lemma {:induction false} NoneSucceeded(os: seq<Outcome>)
    requires forall i :: 0 <= i < |os| ==> !os[i].entry.success
    ensures SuccessCount(os) == 0
  {
    if os != [] {
      var n := |os| - 1;
      assert forall i :: 0 <= i < n ==> os[..n][i] == os[i];
      NoneSucceeded(os[..n]);
    }
  }

  /**
   * A live send to a complete recipient succeeds exactly when the number is
   * valid, the configuration is complete and the carrier accepts the message,
   * which it receives verbatim at the normalised number.
   */
  lemma LiveOutcome(env: TwilioEnv, campaignId: Option<string>, r: Recipient, reply: CarrierReply)
    requires !Incomplete(r)
    ensures var o := OutcomeOf(env, false, campaignId, r, reply);
      (o.entry.success <==> ConfigError(env).None? && ValidatePhoneNumber(r.phone) && reply.Created?)
      && (o.request.Some? ==> o.request.value == CarrierRequest(r.message, env.fromNumber, NormalizePhoneNumber(r.phone)))
      && (ConfigError(env).None? && !ValidatePhoneNumber(r.phone) ==>
            o.request.None? && o.entry.error == Some(InvalidNumberPrefix + r.phone))
  {
  }

  /** A recipient's outcome depends on that recipient and the carrier's reply to it alone. */
  lemma OutcomesIndependent(env: TwilioEnv, dryRun: bool, campaignId: Option<string>,
                            rs1: seq<Recipient>, replies1: seq<CarrierReply>,
                            rs2: seq<Recipient>, replies2: seq<CarrierReply>, i: nat, j: nat)
    requires |replies1| == |rs1| && |replies2| == |rs2|
    requires i < |rs1| && j < |rs2| && rs1[i] == rs2[j] && replies1[i] == replies2[j]
    ensures Outcomes(env, dryRun, campaignId, rs1, replies1)[i] == Outcomes(env, dryRun, campaignId, rs2, replies2)[j]
  {
  }
}
