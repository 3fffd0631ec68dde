# sms-sender, modelled in Dafny

This project models the logic of a small SMS campaign service. The service
sends a text message to a list of recipients through the carrier Twilio and
logs every send. It turns the links in a message into short `/r/<code>` links
whose clicks it records, and it reports delivery and click statistics per
campaign. It also keeps an address book of contacts.

The external collaborators become inputs:
- **The store** (Supabase tables). The tables the code changes are classes
  holding sequences of rows: `ShortUrlStore`, `SmsLogTable` and
  `ContactTable`. The tables it only reads are lists of rows (`Analytics.Db`).
  Each store call's answer (success, an error, generated ids) is a parameter.
- **The carrier.** `replies[i]` is what `client.messages.create` does for
  recipient `i`.
- **The code generator** (nanoid). `codes[k]` is the code drawn for link `k`.
- **Authentication.** A boolean.

The modules follow the source files:
- `Text`: JavaScript's `\s`, `trim`, `indexOf`, `replace` with a string
  pattern, `split` and string `<`.
- `Records`: the row shapes.
- `Seqs`: filtering and counting over lists, shared by the modules below.
- `UrlShortener`: lib/url-shortener.ts.
- `Twilio`: lib/twilio.ts.
- `Placeholders`: both `{{…}}` dialects, that of lib/template.ts and that of
  the `replaceVariables`/`extractVariables` pair in lib/csv.ts.
- `Csv`: `parseCsv` and `parseCsvLine`.
- `SendRoute`: `POST` of app/api/send-sms/route.ts.
- `Analytics`: app/api/analytics/route.ts.
- `Contacts`: app/api/contacts/route.ts.
- `LogsTable`: `maskPhone`.

Code that changes state step by step is modelled as methods with loops or
class updates. Each such method is proved equal to a specification function,
and the lemmas state the properties of that function. Examples:
`ParseCsvLine` against `Run`, `SendEach` against `Outcomes`, `ShortenEach`
against `ReplaceEach` and `MintedRows`, and `TallyLoop`/`GroupLoop` against
`TallyClicks`/`Group`.

## Model

| member | source | states |
|---|---|---|
| Text.Trim | lib/csv.ts:52 | `String.prototype.trim`, front trim then back trim; `TrimStartShape`, `TrimEndShape`, `TrimIsTrimmed` and `TrimIdempotent` state what it removes and keeps |
| Text.TrimStartShape | lib/csv.ts:52 | `trim` removes only white space at the front and keeps a suffix that does not begin with white space |
| Text.TrimEndShape | lib/csv.ts:59 | `trim` removes only white space at the back and keeps a prefix that does not end with white space |
| Text.TrimIsTrimmed | lib/template.ts:3 | a trimmed string neither starts nor ends with a `\s` character |
| Text.TrimIdempotent | lib/template.ts:3 | trimming twice is trimming once |
| Text.IndexOf | lib/url-shortener.ts:96 | the search `replace` does for a string pattern; `IndexOfFirst` states what it finds |
| Text.IndexOfFirst | lib/url-shortener.ts:96 | the search yields the first position where the pattern occurs, and nothing when it occurs nowhere |
| Text.ReplaceFirst | lib/url-shortener.ts:96 | `replace` with a string pattern; `ReplaceFirstMeaning` states its result |
| Text.ReplaceFirstMeaning | lib/url-shortener.ts:96 | with the first occurrence at `p` the result is the text before `p`, the replacement, and the text after that occurrence; a text without the pattern comes back unchanged |
| Text.Split | lib/csv.ts:11 | `split('\n')` always yields at least one piece, and no piece holds the separator |
| Text.SplitJoin | lib/csv.ts:11 | joining the pieces with the separator gives the text back |
| Text.LessTrans | app/api/analytics/route.ts:243-246 | string `<` is transitive |
| Records.OrNull | lib/url-shortener.ts:34-35 | `v \|\| null` is null exactly for an absent or empty string and otherwise `v` |
| Seqs.Filter | app/api/analytics/route.ts:103-110 | `Array.prototype.filter` and the store's `.eq`/`.in`: never longer than the input, only satisfying elements, and nothing when none satisfies |
| Seqs.FilterKeepsAll | app/api/analytics/route.ts:103-110 | every satisfying element is kept exactly as often as it occurs, and no other element is kept |
| Seqs.FilterSingle | app/api/analytics/route.ts:162-166 | when exactly one element satisfies the test, the result is that element alone |
| UrlShortener.RunEnd | lib/url-shortener.ts:5 | the greedy `[^\s]+` stops at the first white space or at the end |
| UrlShortener.LinkSpans | lib/url-shortener.ts:5 | the matches of `/https?:\/\/[^\s]+/g`, left to right; `LinkSpansFacts` states their shape |
| UrlShortener.LinkSpansFacts | lib/url-shortener.ts:5 | the global scan yields maximal matches, left to right and non-overlapping, and no match starts in the text between or after them |
| UrlShortener.ExtractUrls | lib/url-shortener.ts:13-15 | one string per match, in order, each the message's text at that match |
| UrlShortener.ExtractUrlsShape | lib/url-shortener.ts:13-15 | every link occurs in the message, begins with `http://` or `https://`, holds no white space, and is followed by white space or the end |
| UrlShortener.NoUrlsIff | lib/url-shortener.ts:13-15 | a message yields `[]` exactly when no match starts anywhere in it |
| UrlShortener.LinkCovered | lib/url-shortener.ts:5 | every position where a match could start lies inside an extracted link |
| UrlShortener.LinkTextIsLink | lib/url-shortener.ts:5 | wherever a link's text occurs, a match starts there |
| UrlShortener.ShortForm | lib/url-shortener.ts:95 | `${base}/r/${code}` with a base, `/r/${code}` without |
| UrlShortener.ShortForms | lib/url-shortener.ts:95 | one short form per code, one for one |
| UrlShortener.NewShortUrl | lib/url-shortener.ts:29-36 | the inserted row holds the code and the original link, `contact_id`/`campaign_id` or null, no log id, and the store's id and time |
| UrlShortener.FirstRefused | lib/url-shortener.ts:44-47 | the index of the first refused insert: all before it succeed |
| UrlShortener.MintedRows | lib/url-shortener.ts:86-92 | row `j` is link `j`'s row with code `j`, so repeated links are not merged |
| UrlShortener.ReplaceEach | lib/url-shortener.ts:86-97 | the loop as written, one `replace` per link in order; `ReplaceEachIsSplice`, `ReplaceEachMisplaces` and `ReplaceEachMisplacesWithoutBase` relate it to `SpliceLinks` |
| UrlShortener.SpliceLinks | lib/url-shortener.ts:86-97 | every link replaced at its own position, the rest kept; `SpliceLinksIdentity` and `ReplaceEachIsSplice` state its properties |
| UrlShortener.ReplaceEachIsSplice | lib/url-shortener.ts:86-97 | when no link's text occurs in the part rewritten before it, the loop replaces every link at its own position and keeps every other character |
| UrlShortener.ColonFreeRewritesInPlace | lib/url-shortener.ts:95-96 | that condition holds when neither the short links nor the text before each link contains a `:` |
| UrlShortener.SpliceLinksIdentity | lib/url-shortener.ts:86-97 | the in-place rewrite with the links themselves as replacements gives the message back |
| UrlShortener.ReplaceEachMisplaces | lib/url-shortener.ts:95-96 | with base `http://x` and message `http://a http://x`, the loop writes the second short link into the first one |
| UrlShortener.ReplaceEachMisplacesWithoutBase | lib/url-shortener.ts:95-96 | with no base and message `http:/http://a http://r/0`, the first short link completes the text before it into a copy of the second link, which the second `replace` rewrites instead |
| UrlShortener.LinkRows | lib/url-shortener.ts:53-65 | the update sets `sms_log_id` on the rows with the id and leaves all other rows as they were |
| UrlShortener.WithCode | lib/url-shortener.ts:106-110 | the rows with the code, and only those |
| UrlShortener.ShortUrlStore.CreateShortUrl | lib/url-shortener.ts:23-50 | a successful insert appends exactly the new row and returns it; a refused one returns the error and stores nothing |
| UrlShortener.ShortUrlStore.ReplaceUrlsWithShortUrls | lib/url-shortener.ts:68-100 | a message without links comes back unchanged with no rows; otherwise one row per link in order, and on the first refused insert its error with the earlier rows kept |
| UrlShortener.ShortUrlStore.ShortenEach | lib/url-shortener.ts:86-97 | the loop's new store state, and its result: the rewritten message and the rows, or the first insert error |
| UrlShortener.ShortUrlStore.LinkShortUrlToSmsLog | lib/url-shortener.ts:53-65 | only `sms_log_id` of the rows with that id changes; a store error is passed on and changes nothing |
| UrlShortener.ShortUrlStore.GetShortUrlByCode | lib/url-shortener.ts:103-122 | the single row with the code; null for PGRST116 or when the code does not match exactly one row; any other error is passed on |
| UrlShortener.ShortUrlStore.RecordClick | lib/url-shortener.ts:125-144 | exactly one click row is appended, with an empty user agent or address as null; an insert error is passed on |
| UrlShortener.FreshCodeFound | lib/url-shortener.ts:103-122 | a row whose code no earlier row has is the only match for that code |
| UrlShortener.AbsentCodeNotFound | lib/url-shortener.ts:103-122 | a code held by no row matches nothing |
| UrlShortener.CreatedRowFound | lib/url-shortener.ts:103-122 | after creating a row with a fresh code, looking that code up returns the row |
| UrlShortener.LinkKeepsCodes | lib/url-shortener.ts:53-65 | linking never changes how many rows carry a code |
| Twilio.Digits | lib/twilio.ts:22 | the result holds only ASCII digits |
| Twilio.NormalizePhoneNumber | lib/twilio.ts:20-35 | the result is `+` followed only by digits |
| Twilio.NormalizeTrunkPrefix | lib/twilio.ts:25-27 | digits starting with `0` become `+81` and the rest |
| Twilio.NormalizeOtherPrefix | lib/twilio.ts:29-34 | any other digits are only prefixed with `+` |
| Twilio.NormalizeSeesOnlyDigits | lib/twilio.ts:22 | inputs with the same digits normalise alike |
| Twilio.NormalizeIgnoresPlus | lib/twilio.ts:29-34 | `81…` and `+81…` normalise alike |
| Twilio.NormalizeIdempotent | lib/twilio.ts:20-35 | normalising twice is normalising once |
| Twilio.ValidatePhoneNumber | lib/twilio.ts:37-41 | `validatePhoneNumber`: the normalised number matches `^\+81[789]0\d{8}$`; `ValidateIff` and `ValidateRefuses` state which inputs pass |
| Twilio.ValidateIff | lib/twilio.ts:37-41 | valid exactly when the digits are `0[789]0` plus 8 digits, or `81[789]0` plus 8 digits |
| Twilio.ValidateRefuses | lib/twilio.ts:37-41 | no digits, a national number of the wrong length, or a wrong second or third digit is refused |
| Twilio.SendSms | lib/twilio.ts:49-84 | a request is made exactly for a complete configuration and a valid number, with the message verbatim at the normalised number; success exactly when the carrier accepts it; the configuration error, the invalid-number text or the thrown text otherwise |
| Twilio.AfterSend | lib/twilio.ts:5-18 | the client exists after a call exactly when it existed before or the credentials are present |
| Twilio.AfterSendKeepsConfig | lib/twilio.ts:5-18 | creating the client never changes which configuration error a later call reports |
| Twilio.SendSmsSameConfig | lib/twilio.ts:49-56 | `sendSms` depends on the environment only through its configuration error and sender number |
| Placeholders.Scan | lib/template.ts:2 | the global scan for placeholders, left to right; `ScanRaw` states that it loses nothing |
| Placeholders.Fill | lib/csv.ts:63-67 | each placeholder replaced by its key's value when defined; `FillUndefined`, `FillAppend` and `SinglePlaceholder` state its behaviour |
| Placeholders.ReplaceVariables | lib/template.ts:1-6 | `replaceVariables` of either dialect (also lib/csv.ts:63-67); `NoDefinedKeyUnchanged` and `SinglePlaceholder` state its behaviour |
| Placeholders.ExtractVariables | lib/template.ts:8-11 | `extractVariables` of either dialect (also lib/csv.ts:69-72); `Keys`, `Dedup` and `KeysShape` state what it reports |
| Placeholders.KeyRun | lib/csv.ts:64 | the greedy key run: key characters only, stopped by the first non-key character |
| Placeholders.Keys | lib/template.ts:9-10 | a key is reported exactly when some placeholder names it |
| Placeholders.Dedup | lib/template.ts:10 | the same keys, each once, in order of first occurrence |
| Placeholders.ScanRaw | lib/template.ts:2 | the scan loses nothing: its pieces spell the template |
| Placeholders.FillUndefined | lib/csv.ts:63-67 | placeholders whose key is not defined are put back verbatim |
| Placeholders.NoDefinedKeyUnchanged | lib/template.ts:1-11 | if no key `extractVariables` reports is defined, `replaceVariables` returns the template unchanged |
| Placeholders.NoHoleNoKeys | lib/template.ts:8-11 | a template without placeholders has no variables |
| Placeholders.SinglePlaceholder | lib/template.ts:2-5 | a placeholder becomes its value verbatim and is not rescanned; an unknown key leaves its text |
| Placeholders.FillAppend | lib/template.ts:2 | the replacement works piece by piece, one pass from left to right |
| Placeholders.HoleKeyGood | lib/template.ts:2-3 | the key of a placeholder is trimmed and free of `}` (template), or a non-empty run of `\w` (csv) |
| Placeholders.KeysShape | lib/csv.ts:69-72 | every key `extractVariables` reports has its dialect's shape |
| Csv.Run | lib/csv.ts:41-60 | the character loop of `parseCsvLine` as a function of the rest of the line and its state; `RunCount`, `RunEscaped` and `RunQuoted` state its results |
| Csv.ParseLine | lib/csv.ts:36-61 | `parseCsvLine`; `ParseLineCount`, `ParseLineTrimmed`, `ParseLineUnquoted` and `ParseLineEncoded` state its results |
| Csv.Parse | lib/csv.ts:10-34 | `parseCsv`; `HeaderOnly`, `DataRowsCount`, `ParseRowCount` and `EmptyTextHeaders` state its results |
| Csv.ParseCsvLine | lib/csv.ts:36-61 | the character loop computes the line scanner's fields |
| Csv.ParseLineTrimmed | lib/csv.ts:52 | every field is trimmed, so a CRLF's `\r` is dropped |
| Csv.RunCount | lib/csv.ts:41-60 | the loop adds one field per comma it meets outside quotes, plus the last one |
| Csv.SeparatorsCommas | lib/csv.ts:44-51 | the field-ending commas are some of the commas, and all of them in a text without quotes |
| Csv.ParseLineCount | lib/csv.ts:36-61 | exactly one field more than there are commas outside quotes, so at least one and at most one more than the commas; a line without quotes has exactly one more |
| Csv.ParseLineUnquoted | lib/csv.ts:51-56 | a line without quotes is `split(',')` with each piece trimmed |
| Csv.RunEscaped | lib/csv.ts:44-50 | inside quotes `""` reads as one `"`, and the closing quote ends quoted mode |
| Csv.RunQuoted | lib/csv.ts:44-50 | a quoted field, its quotes doubled, is read back verbatim, commas included |
| Csv.ParseLineEncoded | lib/csv.ts:36-61 | quoting fields and joining them with commas, then parsing, gives the fields back trimmed |
| Csv.ValueAt | lib/csv.ts:28 | a missing value reads as `''` |
| Csv.Lines | lib/csv.ts:11 | the trimmed text has at least one line |
| Csv.ParseCsv | lib/csv.ts:10-34 | the loop computes the header line's fields and the rows of the non-blank data lines, in order |
| Csv.BuildRow | lib/csv.ts:26-29 | the `forEach` builds the row of the headers and values |
| Csv.RowOfKeys | lib/csv.ts:26-29 | a row's keys are exactly the header names |
| Csv.RowOfAt | lib/csv.ts:26-29 | the value under a header is the field in its column, or `''`; a repeated header takes its last column |
| Csv.DataRowsCount | lib/csv.ts:22-31 | one row at most per data line, and none from lines whose fields are all empty |
| Csv.ParseRowCount | lib/csv.ts:22-31 | there are never more rows than lines after the header line |
| Csv.HeaderOnly | lib/csv.ts:10-34 | a text without a line feed after trimming gives its header line and no rows |
| Csv.BlankTextHeaders | lib/csv.ts:11-15 | a text that trims to nothing gives the headers `['']` and no rows |
| Csv.EmptyTextHeaders | lib/csv.ts:11-15 | the empty text gives the headers `['']` |
| Csv.IntendedParse | lib/csv.ts:13-15 | the intended result: no headers and no rows for a blank text, otherwise as written |
| Csv.IntendedParseDiffers | lib/csv.ts:13-15 | the intended and as-written results differ exactly on texts that trim to nothing |
| SendRoute.OutcomeOf | app/api/send-sms/route.ts:45-109 | an incomplete recipient fails with the empty-field error (phone `不明` when empty) and no send or log; a dry run succeeds with no send or log; a live send reports the carrier's result and error and writes one log with the matching status, error and nullable ids |
| SendRoute.Outcomes | app/api/send-sms/route.ts:45 | one outcome per recipient |
| SendRoute.Entries | app/api/send-sms/route.ts:39-43 | one result entry per outcome, in order |
| SendRoute.Respond | app/api/send-sms/route.ts:12-126 | 401 when not signed in, 500 for an unreadable body, 400 without recipients; otherwise 200 with the total, the echoed `dryRun` and one result per recipient |
| SendRoute.SmsLogTable.Save | app/api/send-sms/route.ts:76-87 | a log insert that throws stores nothing and is swallowed |
| SendRoute.Post | app/api/send-sms/route.ts:12-126 | the response is `Respond`'s; only a 200 makes carrier requests and log rows, namely the batch's requests and saved logs |
| SendRoute.SendEach | app/api/send-sms/route.ts:37-110 | the loop's counts, results, carrier requests and log rows are those of the batch's outcomes taken in order |
| SendRoute.SendOne | app/api/send-sms/route.ts:46-109 | one pass of the loop body yields the recipient's outcome and appends its log unless the insert throws |
| SendRoute.CountsAddUp | app/api/send-sms/route.ts:37-118 | every recipient is counted once as a success or a failure |
| SendRoute.ResponseCountsAddUp | app/api/send-sms/route.ts:112-118 | in a 200, `success + failed == total` |
| SendRoute.SuccessCountIsSize | app/api/send-sms/route.ts:58-70 | `success` is the number of results reported successful |
| SendRoute.DryRunHasNoEffects | app/api/send-sms/route.ts:56-64 | a dry run makes no carrier request and writes no log, and a recipient succeeds exactly when it is complete |
| SendRoute.IncompleteNeverSent | app/api/send-sms/route.ts:46-54 | recipients with an empty phone or message never reach the carrier or the log, and none succeeds |
| SendRoute.LiveOutcome | app/api/send-sms/route.ts:66-94 | a live send succeeds exactly when the configuration is complete, the number valid and the carrier accepts; the carrier receives the message verbatim; an invalid number is never sent |
| SendRoute.OutcomesIndependent | app/api/send-sms/route.ts:45-110 | a recipient's outcome depends only on that recipient and its carrier reply |
| Analytics.RoundPercent | app/api/analytics/route.ts:123 | zero without successes; otherwise the integer nearest to `100 u / s`, halves rounded up |
| Analytics.RateAtMost100 | app/api/analytics/route.ts:123 | with no more unique clicks than successes the rate is at most 100 |
| Analytics.RateCanExceed100 | app/api/analytics/route.ts:123 | the rate is not capped: 2 unique clicks over 1 success give 200 |
| Analytics.LogsOf | app/api/analytics/route.ts:103 | only logs of the campaign, and each log of the campaign as often as it is stored |
| Analytics.UrlsOf | app/api/analytics/route.ts:109 | only short URLs of the campaign, and each of them as often as it is stored |
| Analytics.UrlIds | app/api/analytics/route.ts:92 | the ids of the short URLs, one for one |
| Analytics.ClicksOn | app/api/analytics/route.ts:110 | only clicks on the given short URLs, and each of them as often as it is stored |
| Analytics.ClickedIds | app/api/analytics/route.ts:112 | the clicked short-URL ids, one for one |
| Analytics.DistinctCard | app/api/analytics/route.ts:112 | a set of the elements is no larger than the list |
| Analytics.CountStatus | app/api/analytics/route.ts:104-105 | a status count never exceeds the number of logs |
| Analytics.StatusSplit | app/api/analytics/route.ts:104-106 | with the closed status column, success and failure counts add up to the logs |
| Analytics.StatsOf | app/api/analytics/route.ts:102-125 | one campaign's statistics; `StatsFacts` states how they relate |
| Analytics.StatsFacts | app/api/analytics/route.ts:102-125 | `total_sent == success + failed`; unique clicks are at most the clicks and at most the campaign's short URLs; the rate is computed from unique clicks over successes |
| Analytics.SentCampaigns | app/api/analytics/route.ts:58-62 | only campaigns with status `sent`, and each of them as often as it is stored |
| Analytics.AllStats | app/api/analytics/route.ts:102-125 | one statistics record per campaign, in order |
| Analytics.TotalSplit | app/api/analytics/route.ts:128-130 | the sum of a column that adds up per campaign adds up overall |
| Analytics.OverallStatsOf | app/api/analytics/route.ts:53-145 | `getOverallStats`; `OverviewTotals` and `NoSentCampaigns` state its results |
| Analytics.SummaryTotals | app/api/analytics/route.ts:127-144 | for campaigns that were sent, the overall totals add up and unique clicks never exceed clicks |
| Analytics.OverviewTotals | app/api/analytics/route.ts:53-145 | one record per sent campaign; the totals are sums of their fields and add up; the overall rate is summed unique clicks over summed successes, and 0 without successes |
| Analytics.NoSentCampaigns | app/api/analytics/route.ts:64-76 | without sent campaigns every total is zero and the list is empty |
| Analytics.TallyClicks | app/api/analytics/route.ts:208-221 | the per-short-URL tallies; `TallyFacts` states their keys and counts, `TallyFirstLast` and `TallyBounds` their times |
| Analytics.TallyFacts | app/api/analytics/route.ts:208-221 | the tallies are keyed by exactly the clicked links, and each count is that link's number of clicks |
| Analytics.TallyCoversClicks | app/api/analytics/route.ts:209-221 | every clicked link has a tally |
| Analytics.TallyFirstLast | app/api/analytics/route.ts:209-221 | a tally's `first` is the time of the first click on its own link, and its `last` the time of the last click on it |
| Analytics.TallyBounds | app/api/analytics/route.ts:195-221 | with the clicks ascending by time, every click on a link lies between its tally's `first` and `last` |
| Analytics.TallyOrdered | app/api/analytics/route.ts:195-221 | with clicks ascending by time, each tally has first <= last |
| Analytics.TallyLoop | app/api/analytics/route.ts:209-221 | the `forEach` builds the tallies |
| Analytics.KeyOf | app/api/analytics/route.ts:238 | the contact id, or `unknown_<id>` when there is none |
| Analytics.FindKey | app/api/analytics/route.ts:240 | the entry stored under a key, or none has it |
| Analytics.FindContact | app/api/analytics/route.ts:236 | the first contact with the id, or none has it |
| Analytics.FindLog | app/api/analytics/route.ts:237 | the first log with an equal contact id (null included), or none has it |
| Analytics.PhoneFor | app/api/analytics/route.ts:252 | the contact's phone, else the log's, else `不明`; never empty |
| Analytics.Group | app/api/analytics/route.ts:224-260 | the entries per contact; `GroupPerKey` states what each entry holds, and `GroupKeysDistinct`, `GroupEntriesStarted`, `GroupSum`, `GroupOrdered` and `GroupCountsPositive` state their shape |
| Analytics.GroupLoop | app/api/analytics/route.ts:233-260 | the `forEach` builds the contact entries |
| Analytics.GroupKeysDistinct | app/api/analytics/route.ts:224-260 | no two entries share a key |
| Analytics.GroupEntriesStarted | app/api/analytics/route.ts:233-258 | every entry was started by a clicked short URL and keeps its key, contact and phone |
| Analytics.MergeOrdered | app/api/analytics/route.ts:241-248 | merging a tally keeps first <= last |
| Analytics.GroupOrdered | app/api/analytics/route.ts:241-258 | when every tally has first <= last, so does every entry |
| Analytics.GroupSum | app/api/analytics/route.ts:233-260 | the entries' counts add up to the tallied clicks of the short URLs |
| Analytics.UrlClicksOfTally | app/api/analytics/route.ts:208-221 | the tallied clicks of the short URLs are their clicks in the list |
| Analytics.AllClicksCounted | app/api/analytics/route.ts:262 | with distinct short-URL ids, every click on them is counted once |
| Analytics.GroupCountsPositive | app/api/analytics/route.ts:233-258 | every entry has at least one click |
| Analytics.FirstUnder | app/api/analytics/route.ts:233-240 | the first clicked short URL whose key is the given one, or none has it |
| Analytics.GroupPerKey | app/api/analytics/route.ts:233-260 | a key has an entry exactly when some clicked short URL has that key; its entry carries the contact id, phone and name (`contact?.name \|\| null`) found for the first such URL, the sum of the key's tallied clicks, and the least `first` and greatest `last` of its tallies; a key without an entry has no clicks |
| Analytics.KeyFirstLeast | app/api/analytics/route.ts:243-245 | the key's first time is the `first` of one of its tallies and no later than any of them |
| Analytics.KeyLastGreatest | app/api/analytics/route.ts:246-248 | the key's last time is the `last` of one of its tallies and no earlier than any of them |
| Analytics.KeyClicksCounted | app/api/analytics/route.ts:209-242 | a key's tallied clicks are the clicks in the list on the short URLs with that key |
| Analytics.FindKeyAppend | app/api/analytics/route.ts:250 | a new entry is found under its key only when no earlier entry has that key |
| Analytics.FindKeyUpdate | app/api/analytics/route.ts:241-248 | updating an entry in place, key kept, changes no lookup |
| Analytics.CampaignsWithId | app/api/analytics/route.ts:162-166 | only campaigns with the id, each as often as it is stored, and none for an absent id |
| Analytics.ContactsIn | app/api/analytics/route.ts:199-205 | only contacts the campaign's short URLs name, and each of them as often as it is stored |
| Analytics.DetailOf | app/api/analytics/route.ts:147-279 | `getCampaignDetailStats`; `DetailFacts` (with `GroupPerKey` per contact), `DetailOrdered`, `UnknownCampaignFails` and `KnownCampaignSucceeds` state its results |
| Analytics.CampaignDetailStats | app/api/analytics/route.ts:147-279 | the detail view of one campaign, or the not-found error |
| Analytics.DetailFacts | app/api/analytics/route.ts:233-277 | the entries share out all the campaign's clicks, have distinct keys, each count at least one, and come from clicked short URLs; unique clicks are the distinct clicked links; `total_sent == success + failed`; and every key of a clicked short URL has exactly the entry `GroupPerKey` describes |
| Analytics.DetailOrdered | app/api/analytics/route.ts:195-248 | with clicks ascending by time, each entry has first <= last |
| Analytics.UnknownCampaignFails | app/api/analytics/route.ts:168-170 | an unknown campaign id is an error, not an empty report |
| Analytics.KnownCampaignSucceeds | app/api/analytics/route.ts:161-170 | a campaign id held by exactly one campaign gives a report with that campaign's id, name and `sent_at` |
| Analytics.Respond | app/api/analytics/route.ts:26-51 | 401 when not signed in; the overview without a campaign id; the detail, or a 500 on failure, with one |
| Analytics.Get | app/api/analytics/route.ts:26-51 | the handler answers as `Respond` says |
| Analytics.UnknownCampaignIs500 | app/api/analytics/route.ts:47-50 | an unknown campaign reaches the caller as the generic 500 |
| Contacts.Select | app/api/contacts/route.ts:34-40 | a contact is listed exactly when it is stored and passes the tag and opt-out filters |
| Contacts.DefaultListing | app/api/contacts/route.ts:26-40 | without parameters the listing is every contact that has not opted out |
| Contacts.BatchPhones | app/api/contacts/route.ts:74 | the non-empty phone numbers of the batch, and only those |
| Contacts.ExistingPhones | app/api/contacts/route.ts:75-80 | the batch's phone numbers the store holds, or none when the read fails |
| Contacts.NewContacts | app/api/contacts/route.ts:83-89 | never more rows to insert than entries |
| Contacts.NewContactsAre | app/api/contacts/route.ts:83-89 | a row is inserted exactly when it is the row of an entry with a non-empty phone the store lacks |
| Contacts.AddedPlusSkipped | app/api/contacts/route.ts:91 | every entry is added or skipped |
| Contacts.NewContactsAppend | app/api/contacts/route.ts:83-89 | the rows of two batches in a row are the rows of each, in order |
| Contacts.NewContactsOne | app/api/contacts/route.ts:83-89 | a single entry gives its row exactly when it is new, and nothing otherwise |
| Contacts.RepeatsWithinBatchAdded | app/api/contacts/route.ts:80-84 | in any batch, a new entry is added at least as often as it occurs, as the store is read only once before the insert |
| Contacts.StoredRows | app/api/contacts/route.ts:94 | inserted rows carry their generated ids, the given fields, and start opted in |
| Contacts.Updated | app/api/contacts/route.ts:129-132 | rows with the id are patched, all others kept |
| Contacts.Without | app/api/contacts/route.ts:162-165 | exactly the rows without the id remain |
| Contacts.ContactTable.Insert | app/api/contacts/route.ts:94-99 | the rows are stored with their ids, or, on an error, none |
| Contacts.ContactTable.Update | app/api/contacts/route.ts:129-137 | the rows are patched, or left alone on an error |
| Contacts.ContactTable.Delete | app/api/contacts/route.ts:162-170 | the rows with the id go, or all stay on an error |
| Contacts.Get | app/api/contacts/route.ts:17-54 | 401 when not signed in, 500 on a read error, otherwise the listed contacts |
| Contacts.Post | app/api/contacts/route.ts:57-111 | 401, 500 for an unreadable body, 400 without contacts; otherwise only new entries are inserted, the counts are `added`, `total - added` and `total`, and an insert error gives 500 with nothing stored |
| Contacts.PostCounts | app/api/contacts/route.ts:91-106 | `duplicates` is the number of skipped entries, so `added + duplicates == total` |
| Contacts.StoredPhoneSkipped | app/api/contacts/route.ts:75-84 | an entry whose phone the store holds is skipped when the lookup succeeds |
| Contacts.Patch | app/api/contacts/route.ts:114-144 | 401; 400 without an id before the store is touched; 500 on an error; otherwise the rows with the id patched |
| Contacts.Delete | app/api/contacts/route.ts:147-177 | 401; 400 without an id before the store is touched; 500 on an error; otherwise the rows with the id removed |
| Contacts.UpdateOnlyTouchesId | app/api/contacts/route.ts:129-132 | other rows are untouched, an empty update changes nothing, and a set `opted_out` is stored |
| Contacts.DeleteIdempotent | app/api/contacts/route.ts:162-165 | deleting twice is deleting once |
| LogsTable.MaskPhone | components/LogsTable.tsx:20-23 | at most four characters are shown as they are; otherwise the first four, `****` and the last two, ten in all |
| LogsTable.MaskHidesLength | components/LogsTable.tsx:22 | numbers with the same ends mask alike, whatever their lengths |
| LogsTable.FiveCharactersRepeatFourth | components/LogsTable.tsx:22 | for five characters the fourth is shown twice |
| LogsTable.MaskTwice | components/LogsTable.tsx:20-23 | masking a masked number changes nothing |

## Left out

- I/O: network, clocks, environment, `console.error` and JSON. The carrier's replies, the store's answers, the generated codes, the session and the environment variables are parameters.
- nanoid: the code generator can return anything, and uniqueness of codes is not assumed. The lookup lemmas state freshness as a precondition.
- The lazy carrier client: modelled as the `clientCreated` flag of the environment, which `AfterSend` sets.
- Strings are sequences of characters. JavaScript's UTF-16 code units, as seen by `length`, `slice` and indexing on characters beyond U+FFFF, are not modelled.
- UrlShortener.ColonFreeRewritesInPlace: its condition also asks for no `:` in the text between links. Without that, text ending in `http:/` just before a link can combine with a spliced `/r/…` into a later link's text, so it is not the general "no base, in place" claim; `ReplaceEachMisplacesWithoutBase` gives such a message.
- Text.ReplaceFirst: the `$` patterns `String.prototype.replace` interprets in a replacement string are not modelled. Short links are assumed free of `$`.
- Placeholders.Fill: a key naming an `Object.prototype` member (`constructor`, say) is treated as undefined, whereas `row[key]` in the source finds the inherited member.
- Csv.BuildRow: a header named `__proto__` becomes an ordinary key of the row. In the source, assigning a string to `row['__proto__']` is ignored, so the row lacks that key.
- Analytics.RoundPercent: exact rational rounding, halves up, stands for the floating-point `Math.round(u / s * 100)`.
- Analytics.TallyOrdered: the `clicked_at` ascending order the store returns is a precondition, not computed.
- Analytics.TallyBounds: the same ascending order is a precondition.
- Analytics.DetailFacts: assumes short-URL ids are distinct, as the table's primary key makes them.
- Store ordering: `ORDER BY sent_at` for campaigns and `ORDER BY created_at` for contacts are taken as the order of the given lists.
- Store read errors: read errors in the analytics route leave null data, which the code treats as empty lists. The model takes the lists as given.
- Contacts.Patch: `update(updates)` takes any columns. The model covers `phone_number`, `name`, `tags` and `opted_out`. `opted_out_at` and `updated_at` are not part of the row.
- The redirect handler app/r/[code]/route.ts, which looks up a code and records the click, is not part of this model: it is glue around `getShortUrlByCode` and `recordClick`. Neither is any rewriting of links on the send path.
- lib/supabase.ts, lib/auth.ts, app/api/auth, app/api/campaigns, app/api/logs, the scripts and every React component other than `maskPhone`: client set-up, cookie handling, pass-through queries and rendering.

## Findings

| source | as written | input that shows it | evidently intended | confidence | as-written member | corrected member |
|---|---|---|---|---|---|---|
| lib/url-shortener.ts:95-96 | each link is rewritten by `replace`, at the first place its text occurs in the message as rewritten so far | base `http://x`, message `http://a http://x`, codes `0`, `1`: the result is `http://x/r/1/r/0 http://x` | every link replaced at its own position: `http://x/r/0 http://x/r/1` | not executed; the loop does this whenever a short link contains a later link's text | UrlShortener.ReplaceEachMisplaces | UrlShortener.SpliceLinksIdentity |
| lib/url-shortener.ts:95-96 | the same, with no base configured | no base, message `http:/http://a http://r/0`, codes `0`, `1`: the result is `/r/1 http://r/0` | every link replaced at its own position: `http://r/0 /r/1` | not executed; the loop does this whenever the text before a link and the short link written there together hold a later link's text | UrlShortener.ReplaceEachMisplacesWithoutBase | UrlShortener.SpliceLinksIdentity |
| lib/csv.ts:11-15 | an empty text splits into one empty line, so the `lines.length === 0` branch never runs and the headers are `['']` | `parseCsv('')` | no headers and no rows for an empty text | not executed; the branch is evidently meant for this case | Csv.EmptyTextHeaders | Csv.IntendedParseDiffers |
