/**
 * Row shapes of the relational store (sms_logs, campaigns, short_urls,
 * click_logs) and its error value. Store-generated columns that no modelled
 * code reads (`sent_at` of a log) are left out; the status columns are closed
 * variants.
 */
module Records {
  import opened Wrappers

  /** An error object returned by the store client (`error.code`, `error.message`). */
  datatype DbError = DbError(code: string, message: string)

  /** `sms_logs.status`, restricted by the table to 'success' (`Succeeded`) and 'failed'. */
  datatype SmsStatus = Succeeded | Failed

  /** `campaigns.status`. */
  datatype CampaignStatus = Draft | Sent | Scheduled

  /** One row of `sms_logs` as the send route writes it. */
  datatype SmsLog = SmsLog(
    phoneNumber: string,
    message: string,
    status: SmsStatus,
    errorMessage: Option<string>,
    contactId: Option<string>,
    campaignId: Option<string>)

  /** One row of `campaigns`. */
  datatype Campaign = Campaign(
    id: string,
    name: string,
    messageTemplate: string,
    status: CampaignStatus,
    sentAt: Option<string>)

  /** One row of `short_urls`. */
  datatype ShortUrl = ShortUrl(
    id: string,
    code: string,
    originalUrl: string,
    contactId: Option<string>,
    campaignId: Option<string>,
    smsLogId: Option<string>,
    createdAt: string)

  /** One row of `click_logs`. */
  datatype ClickLog = ClickLog(
    id: string,
    shortUrlId: string,
    clickedAt: string,
    userAgent: Option<string>,
    ipAddress: Option<string>)

  /** One row of `contacts`; the timestamps other than `created_at` are left out. */
  datatype Contact = Contact(
    id: string,
    phoneNumber: string,
    name: Option<string>,
    tags: seq<string>,
    optedOut: bool,
    createdAt: string)

  /**
   * The store's answer to a single-row insert: the generated `id` and
   * timestamp, or an error. It stands for whatever the real store does.
   */
  datatype InsertReply = Inserted(id: string, createdAt: string) | Refused(error: DbError)

  /** `v || null` on an optional string: an absent or empty string becomes null. */
  function OrNull(v: Option<string>): (r: Option<string>)
    ensures r.Some? <==> v.Some? && v.value != ""
    ensures r.Some? ==> r == v
  {
    if v.Some? && v.value != "" then v else None
  }
}
