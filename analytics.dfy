/**
 * app/api/analytics/route.ts: the click and delivery statistics of sent
 * campaigns. The store is a record of its tables; every query is the
 * corresponding filter of a table, taken in the order the query returns.
 */
module Analytics {
  import opened Wrappers
  import opened Text
  import opened Records
  import opened Seqs

  const AuthRequired := "認証が必要です"
  const AnalyticsFailed := "分析データの取得に失敗しました"
  const CampaignNotFound := "Campaign not found"
  const UnknownPhone := "不明"
  const UnknownPrefix := "unknown_"

  /** The tables the route reads. */
  datatype Db = Db(
    campaigns: seq<Campaign>,
    smsLogs: seq<SmsLog>,
    shortUrls: seq<ShortUrl>,
    clickLogs: seq<ClickLog>,
    contacts: seq<Contact>)

  datatype CampaignStats = CampaignStats(
    campaignId: string,
    campaignName: string,
    sentAt: Option<string>,
    totalSent: nat,
    successCount: nat,
    failedCount: nat,
    clickCount: nat,
    uniqueClickCount: nat,
    clickRate: nat)

  datatype OverallStats = OverallStats(
    totalCampaigns: nat,
    totalSent: nat,
    totalSuccess: nat,
    totalFailed: nat,
    totalClicks: nat,
    overallClickRate: nat)

  datatype Overview = Overview(overall: OverallStats, campaigns: seq<CampaignStats>)

  // ---------------------------------------------------------------------------
  // Rates

  /**
   * `s > 0 ? Math.round((u / s) * 100) : 0` in exact arithmetic: the integer
   * nearest to `100 u / s`, halves rounded up.
   */
  function RoundPercent(u: nat, s: nat): (r: nat)
    ensures s == 0 ==> r == 0
    ensures s > 0 ==> 2 * s * r <= 200 * u + s < 2 * s * (r + 1)
  {
    if s > 0 then
      var r := (200 * u + s) / (2 * s);
      DivBounds(200 * u + s, 2 * s);
      r
    else 0
  }

  lemma DivBounds(a: nat, b: nat)
    requires b > 0
    ensures b * (a / b) <= a < b * (a / b + 1)
  {
  }

  /** As long as unique clicks do not outnumber successes the rate is a percentage. */
  lemma RateAtMost100(u: nat, s: nat)
    requires u <= s
    ensures RoundPercent(u, s) <= 100
  {
    if s > 0 {
      var r := RoundPercent(u, s);
      assert 2 * s * r <= 200 * u + s <= 200 * s + s;
      if r > 100 {
        assert 2 * s * r >= 2 * s * 101 by {
          MulMono(2 * s, 101, r);
        }
      }
    }
  }

  lemma MulMono(a: nat, x: nat, y: nat)
    requires x <= y
    ensures a * x <= a * y
  {
  }

  /** The rate is not capped: two clicked links after one successful send give 200. */
  lemma RateCanExceed100()
    ensures RoundPercent(2, 1) == 200
  {
  }

  // ---------------------------------------------------------------------------
  // Filters standing for the queries

  /** `sms_logs` with `.eq('campaign_id', campaignId)`. */
  function LogsOf(logs: seq<SmsLog>, campaignId: string): (r: seq<SmsLog>)
    ensures |r| <= |logs|
    ensures forall k :: 0 <= k < |r| ==> r[k].campaignId == Some(campaignId)
    ensures forall l :: Occurrences(r, l) == if l.campaignId == Some(campaignId) then Occurrences(logs, l) else 0
  {
    FilterKeepsAll(logs, (l: SmsLog) => l.campaignId == Some(campaignId));
    Filter(logs, (l: SmsLog) => l.campaignId == Some(campaignId))
  }

  /** `short_urls` with `.eq('campaign_id', campaignId)`. */
  function UrlsOf(urls: seq<ShortUrl>, campaignId: string): (r: seq<ShortUrl>)
    ensures |r| <= |urls|
    ensures forall k :: 0 <= k < |r| ==> r[k].campaignId == Some(campaignId)
    ensures forall u :: Occurrences(r, u) == if u.campaignId == Some(campaignId) then Occurrences(urls, u) else 0
  {
    FilterKeepsAll(urls, (u: ShortUrl) => u.campaignId == Some(campaignId));
    Filter(urls, (u: ShortUrl) => u.campaignId == Some(campaignId))
  }

  function UrlIds(urls: seq<ShortUrl>): (ids: seq<string>)
    ensures |ids| == |urls| && forall k :: 0 <= k < |urls| ==> ids[k] == urls[k].id
  {
    seq(|urls|, k requires 0 <= k < |urls| => urls[k].id)
  }

  /** The clicks on any of the short URLs `ids` (`.in('short_url_id', ids)`), in order. */
  function ClicksOn(clicks: seq<ClickLog>, ids: seq<string>): (r: seq<ClickLog>)
    ensures |r| <= |clicks|
    ensures forall k :: 0 <= k < |r| ==> r[k].shortUrlId in ids
    ensures forall c :: Occurrences(r, c) == if c.shortUrlId in ids then Occurrences(clicks, c) else 0
  {
    FilterKeepsAll(clicks, (c: ClickLog) => c.shortUrlId in ids);
    Filter(clicks, (c: ClickLog) => c.shortUrlId in ids)
  }

  function ClickedIds(clicks: seq<ClickLog>): (ids: seq<string>)
    ensures |ids| == |clicks| && forall k :: 0 <= k < |clicks| ==> ids[k] == clicks[k].shortUrlId
  {
    seq(|clicks|, k requires 0 <= k < |clicks| => clicks[k].shortUrlId)
  }

  /** The distinct elements of a sequence (`new Set(xs)`). */
  function Distinct(xs: seq<string>): set<string> {
    set k | 0 <= k < |xs| :: xs[k]
  }

  lemma {:induction false} DistinctCard(xs: seq<string>)
    ensures |Distinct(xs)| <= |xs|
  {
    if xs != [] {
      var init := xs[..|xs| - 1];
      DistinctCard(init);
      assert Distinct(xs) == Distinct(init) + {xs[|xs| - 1]} by {
        assert forall k :: 0 <= k < |init| ==> init[k] == xs[k];
      }
    }
  }

  lemma {:induction false} SubsetCard(a: set<string>, b: set<string>)
    requires a <= b
    ensures |a| <= |b|
    decreases |b|
  {
    if a != {} {
      var x :| x in a;
      SubsetCard(a - {x}, b - {x});
    }
  }

  function CountStatus(logs: seq<SmsLog>, status: SmsStatus): (n: nat)
    ensures n <= |logs|
  {
    if logs == [] then 0 else (if logs[0].status == status then 1 else 0) + CountStatus(logs[1..], status)
  }

  /** The status column is closed, so every log is counted as a success or as a failure. */
  lemma {:induction false} StatusSplit(logs: seq<SmsLog>)
    ensures CountStatus(logs, Succeeded) + CountStatus(logs, Failed) == |logs|
  {
    if logs != [] {
      StatusSplit(logs[1..]);
    }
  }

  // ---------------------------------------------------------------------------
  // Overview

  /** The `campaigns.map(...)` callback of `getOverallStats`. */
  function StatsOf(c: Campaign, db: Db): CampaignStats {
    var logs := LogsOf(db.smsLogs, c.id);
    var success := CountStatus(logs, Succeeded);
    var clicks := ClicksOn(db.clickLogs, UrlIds(UrlsOf(db.shortUrls, c.id)));
    var unique := |Distinct(ClickedIds(clicks))|;
    CampaignStats(c.id, c.name, c.sentAt, |logs|, success, CountStatus(logs, Failed),
                  |clicks|, unique, RoundPercent(unique, success))
  }

  /**
   * Sent, success and failure counts agree; there are no more distinct
   * clicked links than clicks, nor than the campaign has short URLs.
   */
  lemma StatsFacts(c: Campaign, db: Db)
    ensures var st := StatsOf(c, db);
      st.totalSent == st.successCount + st.failedCount
      && st.uniqueClickCount <= st.clickCount
      && st.uniqueClickCount <= |UrlsOf(db.shortUrls, c.id)|
      && st.clickRate == RoundPercent(st.uniqueClickCount, st.successCount)
      && st.clickCount <= |db.clickLogs|
  {
    var logs := LogsOf(db.smsLogs, c.id);
    StatusSplit(logs);
    var ids := UrlIds(UrlsOf(db.shortUrls, c.id));
    var clicks := ClicksOn(db.clickLogs, ids);
    DistinctCard(ClickedIds(clicks));
    assert Distinct(ClickedIds(clicks)) <= Distinct(ids) by {
      forall x | x in Distinct(ClickedIds(clicks)) ensures x in Distinct(ids) {
        var k :| 0 <= k < |clicks| && ClickedIds(clicks)[k] == x;
        assert clicks[k].shortUrlId in ids;
      }
    }
    SubsetCard(Distinct(ClickedIds(clicks)), Distinct(ids));
    DistinctCard(ids);
  }

  /** `campaigns` with `.eq('status', 'sent')`. */
  function SentCampaigns(cs: seq<Campaign>): (r: seq<Campaign>)
    ensures |r| <= |cs|
    ensures forall k :: 0 <= k < |r| ==> r[k].status == Sent
    ensures forall c :: Occurrences(r, c) == if c.status == Sent then Occurrences(cs, c) else 0
  {
    FilterKeepsAll(cs, (c: Campaign) => c.status == Sent);
    Filter(cs, (c: Campaign) => c.status == Sent)
  }

  function AllStats(cs: seq<Campaign>, db: Db): (r: seq<CampaignStats>)
    ensures |r| == |cs| && forall k :: 0 <= k < |cs| ==> r[k] == StatsOf(cs[k], db)
  {
    seq(|cs|, k requires 0 <= k < |cs| => StatsOf(cs[k], db))
  }

  /** The per-campaign columns the overview sums. */
  datatype Column = SentColumn | SuccessColumn | FailedColumn | ClickColumn | UniqueColumn

  function ColumnOf(s: CampaignStats, c: Column): nat {
    match c
    case SentColumn => s.totalSent
    case SuccessColumn => s.successCount
    case FailedColumn => s.failedCount
    case ClickColumn => s.clickCount
    case UniqueColumn => s.uniqueClickCount
  }

  /** `campaignStats.reduce((sum, c) => sum + c.<column>, 0)`. */
  function Total(xs: seq<CampaignStats>, c: Column): nat {
    if xs == [] then 0 else ColumnOf(xs[0], c) + Total(xs[1..], c)
  }

  const Zero := OverallStats(0, 0, 0, 0, 0, 0)

  /** `getOverallStats`. */
  function OverallStatsOf(db: Db): Overview {
    var sent := SentCampaigns(db.campaigns);
    if sent == [] then Overview(Zero, []) else Summary(sent, db)
  }

  /** The overview of a non-empty list of sent campaigns. */
  function Summary(sent: seq<Campaign>, db: Db): Overview {
    SummaryOf(|sent|, AllStats(sent, db))
  }

  /** The overall record and the list, from the statistics of `n` campaigns. */
  function SummaryOf(n: nat, stats: seq<CampaignStats>): Overview {
    var success := Total(stats, SuccessColumn);
    Overview(
      OverallStats(
        n,
        Total(stats, SentColumn),
        success,
        Total(stats, FailedColumn),
        Total(stats, ClickColumn),
        RoundPercent(Total(stats, UniqueColumn), success)),
      stats)
  }


  lemma {:induction false} TotalSplit(xs: seq<CampaignStats>, f: Column, g: Column, h: Column)
    requires forall k :: 0 <= k < |xs| ==> ColumnOf(xs[k], f) == ColumnOf(xs[k], g) + ColumnOf(xs[k], h)
    ensures Total(xs, f) == Total(xs, g) + Total(xs, h)
  {
    if xs != [] {
      assert forall k :: 0 <= k < |xs[1..]| ==> xs[1..][k] == xs[k + 1];
      TotalSplit(xs[1..], f, g, h);
    }
  }

  lemma {:induction false} TotalMono(xs: seq<CampaignStats>, f: Column, g: Column)
    requires forall k :: 0 <= k < |xs| ==> ColumnOf(xs[k], f) <= ColumnOf(xs[k], g)
    ensures Total(xs, f) <= Total(xs, g)
  {
    if xs != [] {
      assert forall k :: 0 <= k < |xs[1..]| ==> xs[1..][k] == xs[k + 1];
      TotalMono(xs[1..], f, g);
    }
  }

  /**
   * The overview covers the sent campaigns one by one; its totals add up, and the
   * overall rate is summed unique clicks over summed successes.
   */
  lemma OverviewTotals(db: Db)
    ensures var o := OverallStatsOf(db);
      |o.campaigns| == o.overall.totalCampaigns == |SentCampaigns(db.campaigns)|
      && (forall k :: 0 <= k < |o.campaigns| ==> o.campaigns[k] == StatsOf(SentCampaigns(db.campaigns)[k], db))
      && o.overall.totalSent == o.overall.totalSuccess + o.overall.totalFailed
      && o.overall.totalSuccess == Total(o.campaigns, SuccessColumn)
      && o.overall.overallClickRate == RoundPercent(Total(o.campaigns, UniqueColumn), o.overall.totalSuccess)
      && Total(o.campaigns, UniqueColumn) <= o.overall.totalClicks
      && (o.overall.totalSuccess == 0 ==> o.overall.overallClickRate == 0)
  {
    var sent := SentCampaigns(db.campaigns);
    if sent != [] {
      SummaryTotals(sent, db);
    }
  }

  lemma SummaryTotals(sent: seq<Campaign>, db: Db)
    ensures var o := Summary(sent, db);
      |o.campaigns| == o.overall.totalCampaigns == |sent|
      && (forall k :: 0 <= k < |o.campaigns| ==> o.campaigns[k] == StatsOf(sent[k], db))
      && o.overall.totalSent == o.overall.totalSuccess + o.overall.totalFailed
      && o.overall.totalSuccess == Total(o.campaigns, SuccessColumn)
      && o.overall.overallClickRate == RoundPercent(Total(o.campaigns, UniqueColumn), o.overall.totalSuccess)
      && Total(o.campaigns, UniqueColumn) <= o.overall.totalClicks
  {
    AllStatsAddUp(sent, db);
    SummaryOfTotals(|sent|, AllStats(sent, db));
  }

  lemma SummaryOfTotals(n: nat, stats: seq<CampaignStats>)
    requires forall k :: 0 <= k < |stats| ==>
      stats[k].totalSent == stats[k].successCount + stats[k].failedCount && stats[k].uniqueClickCount <= stats[k].clickCount
    ensures var o := SummaryOf(n, stats);
      o.overall.totalSent == o.overall.totalSuccess + o.overall.totalFailed
      && Total(o.campaigns, UniqueColumn) <= o.overall.totalClicks
  {
    TotalSplit(stats, SentColumn, SuccessColumn, FailedColumn);
    TotalMono(stats, UniqueColumn, ClickColumn);
  }


  lemma AllStatsAddUp(cs: seq<Campaign>, db: Db)
    ensures forall k :: 0 <= k < |cs| ==>
      AllStats(cs, db)[k].totalSent == AllStats(cs, db)[k].successCount + AllStats(cs, db)[k].failedCount
      && AllStats(cs, db)[k].uniqueClickCount <= AllStats(cs, db)[k].clickCount
  {
    forall k | 0 <= k < |cs|
      ensures AllStats(cs, db)[k].totalSent == AllStats(cs, db)[k].successCount + AllStats(cs, db)[k].failedCount
      ensures AllStats(cs, db)[k].uniqueClickCount <= AllStats(cs, db)[k].clickCount
    {
      StatsFacts(cs[k], db);
    }
  }

  /** With no sent campaign, every total is zero and the list is empty. */
  lemma NoSentCampaigns(db: Db)
    requires forall k :: 0 <= k < |db.campaigns| ==> db.campaigns[k].status != Sent
    ensures OverallStatsOf(db) == Overview(OverallStats(0, 0, 0, 0, 0, 0), [])
  {
  }

  // ---------------------------------------------------------------------------
  // Detail of one campaign

  /** The clicks on one short URL: how many, and the first and last `clicked_at` seen. */
  datatype Tally = Tally(count: nat, first: string, last: string)

  /** One element of `clicks_by_contact`, with the map key it is stored under. */
  datatype ContactClicks = ContactClicks(
    key: string,
    contactId: Option<string>,
    phoneNumber: string,
    contactName: Option<string>,
    clickCount: nat,
    firstClickedAt: string,
    lastClickedAt: string)

  datatype Detail = Detail(campaign: CampaignStats, clicksByContact: seq<ContactClicks>)

  /** The `clickLogs.forEach` step: count a click on a known link, or start its tally. */
  function AddClick(m: map<string, Tally>, c: ClickLog): map<string, Tally> {
    if c.shortUrlId in m then m[c.shortUrlId := Tally(m[c.shortUrlId].count + 1, m[c.shortUrlId].first, c.clickedAt)]
    else m[c.shortUrlId := Tally(1, c.clickedAt, c.clickedAt)]
  }

  /** `clicksByShortUrl` after all the clicks. */
  function TallyClicks(clicks: seq<ClickLog>): map<string, Tally> {
    if clicks == [] then map[] else AddClick(TallyClicks(clicks[..|clicks| - 1]), clicks[|clicks| - 1])
  }

  /** The number of clicks on the short URL `id`. */
  function CountId(clicks: seq<ClickLog>, id: string): nat {
    if clicks == [] then 0
    else CountId(clicks[..|clicks| - 1], id) + (if clicks[|clicks| - 1].shortUrlId == id then 1 else 0)
  }

  /**
   * The tallies are keyed by the clicked links, and each count is the number
   * of clicks on that link; `TallyFirstLast` states the times.
   */
  lemma {:induction false} TallyFacts(clicks: seq<ClickLog>)
    ensures TallyClicks(clicks).Keys == Distinct(ClickedIds(clicks))
    ensures forall id :: id in TallyClicks(clicks) ==> TallyClicks(clicks)[id].count == CountId(clicks, id) >= 1
    ensures forall id :: id !in TallyClicks(clicks) ==> CountId(clicks, id) == 0
  {
    if clicks != [] {
      var init := clicks[..|clicks| - 1];
      TallyFacts(init);
      assert forall k :: 0 <= k < |init| ==> init[k] == clicks[k];
      assert Distinct(ClickedIds(clicks)) == Distinct(ClickedIds(init)) + {clicks[|clicks| - 1].shortUrlId};
    }
  }

  /** The clicks come from the store in ascending `clicked_at` order. */
  predicate Ascending(clicks: seq<ClickLog>) {
    forall i, j :: 0 <= i <= j < |clicks| ==> LessEq(clicks[i].clickedAt, clicks[j].clickedAt)
  }

  /** Click `i` is the first click on the short URL `id`. */
  predicate FirstClickOn(clicks: seq<ClickLog>, id: string, i: nat) {
    i < |clicks| && clicks[i].shortUrlId == id && forall k :: 0 <= k < i ==> clicks[k].shortUrlId != id
  }

  /** Click `j` is the last click on the short URL `id`. */
  predicate LastClickOn(clicks: seq<ClickLog>, id: string, j: nat) {
    j < |clicks| && clicks[j].shortUrlId == id && forall k :: j < k < |clicks| ==> clicks[k].shortUrlId != id
  }

  /** Every clicked link has a tally. */
  lemma {:induction false} TallyCoversClicks(clicks: seq<ClickLog>, k: nat)
    requires k < |clicks|
    ensures clicks[k].shortUrlId in TallyClicks(clicks)
  {
    var n := |clicks| - 1;
    if k < n {
      assert clicks[..n][k] == clicks[k];
      TallyCoversClicks(clicks[..n], k);
    }
  }

  /**
   * A tally's `first` is the time of the first click on its own link, and its
   * `last` the time of the last click on it.
   */
  lemma {:induction false} TallyFirstLast(clicks: seq<ClickLog>, id: string)
    requires id in TallyClicks(clicks)
    ensures exists i: nat :: FirstClickOn(clicks, id, i) && TallyClicks(clicks)[id].first == clicks[i].clickedAt
    ensures exists j: nat :: LastClickOn(clicks, id, j) && TallyClicks(clicks)[id].last == clicks[j].clickedAt
  {
    var n := |clicks| - 1;
    var init := clicks[..n];
    assert forall k :: 0 <= k < n ==> init[k] == clicks[k];
    var m := TallyClicks(init);
    if clicks[n].shortUrlId == id {
      assert LastClickOn(clicks, id, n);
      if id in m {
        TallyFirstLast(init, id);
        var i: nat :| FirstClickOn(init, id, i) && m[id].first == init[i].clickedAt;
        assert FirstClickOn(clicks, id, i);
      } else {
        forall k | 0 <= k < n
          ensures clicks[k].shortUrlId != id
        {
          TallyCoversClicks(init, k);
        }
        assert FirstClickOn(clicks, id, n);
      }
    } else {
      TallyFirstLast(init, id);
      var i: nat :| FirstClickOn(init, id, i) && m[id].first == init[i].clickedAt;
      var j: nat :| LastClickOn(init, id, j) && m[id].last == init[j].clickedAt;
      assert FirstClickOn(clicks, id, i);
      assert LastClickOn(clicks, id, j);
    }
  }

  /** With the clicks in ascending order, every click on a link lies between its tally's times. */
  lemma TallyBounds(clicks: seq<ClickLog>, k: nat)
    requires Ascending(clicks) && k < |clicks|
    ensures var t := TallyClicks(clicks);
      var id := clicks[k].shortUrlId;
      id in t && LessEq(t[id].first, clicks[k].clickedAt) && LessEq(clicks[k].clickedAt, t[id].last)
  {
    var id := clicks[k].shortUrlId;
    TallyCoversClicks(clicks, k);
    TallyFirstLast(clicks, id);
    var i: nat :| FirstClickOn(clicks, id, i) && TallyClicks(clicks)[id].first == clicks[i].clickedAt;
    var j: nat :| LastClickOn(clicks, id, j) && TallyClicks(clicks)[id].last == clicks[j].clickedAt;
    assert i <= k <= j;
  }

  /** With the clicks in ascending order, every tally has `first <= last`. */
  lemma TallyOrdered(clicks: seq<ClickLog>)
    requires Ascending(clicks)
    ensures forall id :: id in TallyClicks(clicks) ==>
      LessEq(TallyClicks(clicks)[id].first, TallyClicks(clicks)[id].last)
  {
    forall id | id in TallyClicks(clicks)
      ensures LessEq(TallyClicks(clicks)[id].first, TallyClicks(clicks)[id].last)
    {
      TallyFirstLast(clicks, id);
      var i: nat :| FirstClickOn(clicks, id, i) && TallyClicks(clicks)[id].first == clicks[i].clickedAt;
      TallyBounds(clicks, i);
    }
  }

  /** `clickLogs?.forEach(...)`, filling `clicksByShortUrl`. */
  method TallyLoop(clicks: seq<ClickLog>) returns (m: map<string, Tally>)
    ensures m == TallyClicks(clicks)
  {
    m := map[];
    var i := 0;
    while i < |clicks|
      invariant 0 <= i <= |clicks|
      invariant m == TallyClicks(clicks[..i])
      decreases |clicks| - i
    {
      assert clicks[..i + 1][..i] == clicks[..i];
      var click := clicks[i];
      if click.shortUrlId in m {
        var existing := m[click.shortUrlId];
        m := m[click.shortUrlId := Tally(existing.count + 1, existing.first, click.clickedAt)];
      } else {
        m := m[click.shortUrlId := Tally(1, click.clickedAt, click.clickedAt)];
      }
      i := i + 1;
    }
    assert clicks[..i] == clicks;
  }

  /** `shortUrl.contact_id || \`unknown_${shortUrl.id}\``. */
  function KeyOf(u: ShortUrl): (key: string)
    ensures u.contactId.Some? && u.contactId.value != "" ==> key == u.contactId.value
    ensures (u.contactId.None? || u.contactId.value == "") ==> key == UnknownPrefix + u.id
  {
    if u.contactId.Some? && u.contactId.value != "" then u.contactId.value else UnknownPrefix + u.id
  }

  /** The first entry stored under `key`. */
  function FindKey(es: seq<ContactClicks>, key: string): (r: Option<nat>)
    ensures r.Some? ==> r.value < |es| && es[r.value].key == key
    ensures r.None? ==> forall k :: 0 <= k < |es| ==> es[k].key != key
  {
    if es == [] then None
    else if es[0].key == key then Some(0)
    else match FindKey(es[1..], key)
      case None => None
      case Some(k) => Some(k + 1)
  }

  /** `contacts?.find(c => c.id === contactId)`: the first contact with the id. */
  function FindContact(contacts: seq<Contact>, contactId: Option<string>): (r: Option<Contact>)
    ensures r.Some? ==> Some(r.value.id) == contactId
    ensures r.Some? ==>
      exists k :: 0 <= k < |contacts| && contacts[k] == r.value && forall j :: 0 <= j < k ==> Some(contacts[j].id) != contactId
    ensures r.None? ==> forall k :: 0 <= k < |contacts| ==> Some(contacts[k].id) != contactId
  {
    if contacts == [] then None
    else if Some(contacts[0].id) == contactId then Some(contacts[0])
    else FindContact(contacts[1..], contactId)
  }

  /**
   * `smsLogs?.find(l => l.contact_id === contactId)`: the first log with the
   * contact id; a null id finds the first log without contact.
   */
  function FindLog(logs: seq<SmsLog>, contactId: Option<string>): (r: Option<SmsLog>)
    ensures r.Some? ==> r.value.contactId == contactId
    ensures r.Some? ==>
      exists k :: 0 <= k < |logs| && logs[k] == r.value && forall j :: 0 <= j < k ==> logs[j].contactId != contactId
    ensures r.None? ==> forall k :: 0 <= k < |logs| ==> logs[k].contactId != contactId
  {
    if logs == [] then None
    else if logs[0].contactId == contactId then Some(logs[0])
    else FindLog(logs[1..], contactId)
  }

  /** `contact?.phone_number || smsLog?.phone_number || '不明'`. */
  function PhoneFor(contact: Option<Contact>, log: Option<SmsLog>): (phone: string)
    ensures phone != ""
    ensures contact.Some? && contact.value.phoneNumber != "" ==> phone == contact.value.phoneNumber
    ensures !(contact.Some? && contact.value.phoneNumber != "") && log.Some? && log.value.phoneNumber != "" ==>
      phone == log.value.phoneNumber
    ensures !(contact.Some? && contact.value.phoneNumber != "") && !(log.Some? && log.value.phoneNumber != "") ==>
      phone == UnknownPhone
  {
    if contact.Some? && contact.value.phoneNumber != "" then contact.value.phoneNumber
    else if log.Some? && log.value.phoneNumber != "" then log.value.phoneNumber
    else UnknownPhone
  }

  /** The entry a short URL starts when its key has none yet. */
  function NewEntry(u: ShortUrl, t: Tally, contacts: seq<Contact>, logs: seq<SmsLog>): ContactClicks {
    var contact := FindContact(contacts, u.contactId);
    ContactClicks(KeyOf(u), u.contactId, PhoneFor(contact, FindLog(logs, u.contactId)),
                  if contact.Some? then OrNull(contact.value.name) else None,
                  t.count, t.first, t.last)
  }

  /** Adding a further short URL's tally to an entry: counts add, times widen. */
  function Merge(e: ContactClicks, t: Tally): ContactClicks {
    e.(clickCount := e.clickCount + t.count,
       firstClickedAt := if Less(t.first, e.firstClickedAt) then t.first else e.firstClickedAt,
       lastClickedAt := if Less(e.lastClickedAt, t.last) then t.last else e.lastClickedAt)
  }

  /** The `shortUrls?.forEach` step. */
  function GroupStep(es: seq<ContactClicks>, u: ShortUrl, tallies: map<string, Tally>,
                     contacts: seq<Contact>, logs: seq<SmsLog>): seq<ContactClicks> {
    if u.id !in tallies then es
    else match FindKey(es, KeyOf(u))
      case None => es + [NewEntry(u, tallies[u.id], contacts, logs)]
      case Some(k) => es[k := Merge(es[k], tallies[u.id])]
  }

  /** `clicksByContactMap.values()`, in insertion order. */
  function Group(urls: seq<ShortUrl>, tallies: map<string, Tally>, contacts: seq<Contact>, logs: seq<SmsLog>): seq<ContactClicks> {
    if urls == [] then []
    else GroupStep(Group(urls[..|urls| - 1], tallies, contacts, logs), urls[|urls| - 1], tallies, contacts, logs)
  }

  /** `shortUrls?.forEach(...)`, filling `clicksByContactMap`. */
  method GroupLoop(urls: seq<ShortUrl>, tallies: map<string, Tally>, contacts: seq<Contact>, logs: seq<SmsLog>)
    returns (es: seq<ContactClicks>)
    ensures es == Group(urls, tallies, contacts, logs)
  {
    es := [];
    var i := 0;
    while i < |urls|
      invariant 0 <= i <= |urls|
      invariant es == Group(urls[..i], tallies, contacts, logs)
      decreases |urls| - i
    {
      assert urls[..i + 1][..i] == urls[..i];
      var u := urls[i];
      if u.id in tallies {
        var clickData := tallies[u.id];
        var key := KeyOf(u);
        var found := FindKey(es, key);
        if found.Some? {
          var existing := es[found.value];
          var first := existing.firstClickedAt;
          if Less(clickData.first, first) {
            first := clickData.first;
          }
          var last := existing.lastClickedAt;
          if Less(last, clickData.last) {
            last := clickData.last;
          }
          es := es[found.value := existing.(clickCount := existing.clickCount + clickData.count,
                                            firstClickedAt := first, lastClickedAt := last)];
        } else {
          var contact := FindContact(contacts, u.contactId);
          var smsLog := FindLog(logs, u.contactId);
          es := es + [ContactClicks(key, u.contactId, PhoneFor(contact, smsLog),
                                    if contact.Some? then OrNull(contact.value.name) else None,
                                    clickData.count, clickData.first, clickData.last)];
        }
      }
      i := i + 1;
    }
    assert urls[..i] == urls;
  }

  // Properties of the grouping

  /** Distinct entries have distinct keys, as the keys of a `Map` are. */
  predicate KeysDistinct(es: seq<ContactClicks>) {
    forall i, j :: 0 <= i < j < |es| ==> es[i].key != es[j].key
  }

  lemma {:induction false} GroupKeysDistinct(urls: seq<ShortUrl>, tallies: map<string, Tally>, contacts: seq<Contact>, logs: seq<SmsLog>)
    ensures KeysDistinct(Group(urls, tallies, contacts, logs))
  {
    if urls != [] {
      GroupKeysDistinct(urls[..|urls| - 1], tallies, contacts, logs);
    }
  }

  /**
   * Entry `e` was started by a clicked short URL of the campaign: it carries
   * that URL's key and contact id, and the phone found for that contact.
   */
  predicate StartedBy(e: ContactClicks, urls: seq<ShortUrl>, tallies: map<string, Tally>, contacts: seq<Contact>, logs: seq<SmsLog>) {
    exists k :: 0 <= k < |urls| && urls[k].id in tallies && e.key == KeyOf(urls[k]) && e.contactId == urls[k].contactId
      && e.phoneNumber == PhoneFor(FindContact(contacts, urls[k].contactId), FindLog(logs, urls[k].contactId))
  }

  lemma StartedByGrows(e: ContactClicks, urls: seq<ShortUrl>, n: nat, tallies: map<string, Tally>, contacts: seq<Contact>, logs: seq<SmsLog>)
    requires n <= |urls|
    requires StartedBy(e, urls[..n], tallies, contacts, logs)
    ensures StartedBy(e, urls, tallies, contacts, logs)
  {
    var k :| 0 <= k < n && urls[..n][k].id in tallies && e.key == KeyOf(urls[..n][k]) && e.contactId == urls[..n][k].contactId
      && e.phoneNumber == PhoneFor(FindContact(contacts, urls[..n][k].contactId), FindLog(logs, urls[..n][k].contactId));
    assert urls[..n][k] == urls[k];
  }

  /**
   * Only clicked short URLs produce entries, and an entry keeps the contact and
   * phone number of the URL that started it; merging never changes them.
   */
  lemma {:induction false} GroupEntriesStarted(urls: seq<ShortUrl>, tallies: map<string, Tally>, contacts: seq<Contact>, logs: seq<SmsLog>)
    ensures forall i :: 0 <= i < |Group(urls, tallies, contacts, logs)| ==>
      StartedBy(Group(urls, tallies, contacts, logs)[i], urls, tallies, contacts, logs)
  {
    if urls != [] {
      var n := |urls| - 1;
      var init := urls[..n];
      GroupEntriesStarted(init, tallies, contacts, logs);
      var es := Group(init, tallies, contacts, logs);
      var es' := Group(urls, tallies, contacts, logs);
      forall i | 0 <= i < |es'| ensures StartedBy(es'[i], urls, tallies, contacts, logs) {
        if i < |es| && (urls[n].id !in tallies || FindKey(es, KeyOf(urls[n])) != Some(i)) {
          StartedByGrows(es[i], urls, n, tallies, contacts, logs);
        } else if i < |es| {
          assert es'[i] == Merge(es[i], tallies[urls[n].id]);
          StartedByGrows(es[i], urls, n, tallies, contacts, logs);
        } else {
          assert es'[i] == NewEntry(urls[n], tallies[urls[n].id], contacts, logs);
        }
      }
    }
  }

  /** Merging keeps `first <= last`. */
  lemma MergeOrdered(e: ContactClicks, t: Tally)
    requires LessEq(e.firstClickedAt, e.lastClickedAt) && LessEq(t.first, t.last)
    ensures LessEq(Merge(e, t).firstClickedAt, Merge(e, t).lastClickedAt)
  {
    var m := Merge(e, t);
    if Less(t.first, e.firstClickedAt) {
      LessEqTrans(t.first, e.firstClickedAt, e.lastClickedAt);
      if Less(e.lastClickedAt, t.last) {
        LessEqTrans(t.first, e.lastClickedAt, t.last);
      }
    } else if Less(e.lastClickedAt, t.last) {
      LessEqTrans(e.firstClickedAt, e.lastClickedAt, t.last);
    }
  }

  predicate EntriesOrdered(es: seq<ContactClicks>) {
    forall i :: 0 <= i < |es| ==> LessEq(es[i].firstClickedAt, es[i].lastClickedAt)
  }

  lemma {:induction false} GroupOrdered(urls: seq<ShortUrl>, tallies: map<string, Tally>, contacts: seq<Contact>, logs: seq<SmsLog>)
    requires forall id :: id in tallies ==> LessEq(tallies[id].first, tallies[id].last)
    ensures EntriesOrdered(Group(urls, tallies, contacts, logs))
  {
    if urls != [] {
      var n := |urls| - 1;
      GroupOrdered(urls[..n], tallies, contacts, logs);
      var es := Group(urls[..n], tallies, contacts, logs);
      var u := urls[n];
      if u.id in tallies && FindKey(es, KeyOf(u)).Some? {
        MergeOrdered(es[FindKey(es, KeyOf(u)).value], tallies[u.id]);
      }
    }
  }

  function SumCounts(es: seq<ContactClicks>): nat {
    if es == [] then 0 else SumCounts(es[..|es| - 1]) + es[|es| - 1].clickCount
  }

  lemma SumAppend(es: seq<ContactClicks>, e: ContactClicks)
    ensures SumCounts(es + [e]) == SumCounts(es) + e.clickCount
  {
    assert (es + [e])[..|es|] == es;
  }

  lemma {:induction false} SumUpdate(es: seq<ContactClicks>, k: nat, e: ContactClicks)
    requires k < |es|
    ensures SumCounts(es[k := e]) + es[k].clickCount == SumCounts(es) + e.clickCount
  {
    var n := |es| - 1;
    if k == n {
      assert es[k := e][..n] == es[..n];
    } else {
      assert es[k := e][..n] == es[..n][k := e];
      SumUpdate(es[..n], k, e);
    }
  }

  /** The clicks on the given short URLs according to the tallies. */
  function UrlClicks(urls: seq<ShortUrl>, tallies: map<string, Tally>): nat {
    if urls == [] then 0
    else
      var u := urls[|urls| - 1];
      UrlClicks(urls[..|urls| - 1], tallies) + (if u.id in tallies then tallies[u.id].count else 0)
  }

  /** The entries share out exactly the clicks of the grouped short URLs. */
  lemma {:induction false} GroupSum(urls: seq<ShortUrl>, tallies: map<string, Tally>, contacts: seq<Contact>, logs: seq<SmsLog>)
    ensures SumCounts(Group(urls, tallies, contacts, logs)) == UrlClicks(urls, tallies)
  {
    if urls != [] {
      var n := |urls| - 1;
      GroupSum(urls[..n], tallies, contacts, logs);
      var es := Group(urls[..n], tallies, contacts, logs);
      var u := urls[n];
      if u.id in tallies {
        match FindKey(es, KeyOf(u))
        case None => SumAppend(es, NewEntry(u, tallies[u.id], contacts, logs));
        case Some(k) => SumUpdate(es, k, Merge(es[k], tallies[u.id]));
      }
    }
  }

  /** The clicks on the given short URLs, counted from the click list. */
  function ClicksPer(urls: seq<ShortUrl>, clicks: seq<ClickLog>): nat {
    if urls == [] then 0 else ClicksPer(urls[..|urls| - 1], clicks) + CountId(clicks, urls[|urls| - 1].id)
  }

  lemma {:induction false} UrlClicksOfTally(urls: seq<ShortUrl>, clicks: seq<ClickLog>)
    ensures UrlClicks(urls, TallyClicks(clicks)) == ClicksPer(urls, clicks)
  {
    if urls != [] {
      UrlClicksOfTally(urls[..|urls| - 1], clicks);
      TallyFacts(clicks);
    }
  }

  /** How many of the short URLs carry the id `id`. */
  function Hits(urls: seq<ShortUrl>, id: string): nat {
    if urls == [] then 0 else Hits(urls[..|urls| - 1], id) + (if urls[|urls| - 1].id == id then 1 else 0)
  }

  /** Short-URL ids are a primary key. */
  predicate IdsDistinct(urls: seq<ShortUrl>) {
    forall i, j :: 0 <= i < j < |urls| ==> urls[i].id != urls[j].id
  }

  lemma {:induction false} HitsOnce(urls: seq<ShortUrl>, id: string)
    requires IdsDistinct(urls)
    ensures Hits(urls, id) == if id in UrlIds(urls) then 1 else 0
  {
    if urls != [] {
      var n := |urls| - 1;
      var init := urls[..n];
      assert forall k :: 0 <= k < n ==> init[k] == urls[k];
      HitsOnce(init, id);
      assert UrlIds(urls) == UrlIds(init) + [urls[n].id];
    }
  }

  lemma {:induction false} ClicksPerSnoc(urls: seq<ShortUrl>, clicks: seq<ClickLog>, c: ClickLog)
    ensures ClicksPer(urls, clicks + [c]) == ClicksPer(urls, clicks) + Hits(urls, c.shortUrlId)
  {
    if urls != [] {
      ClicksPerSnoc(urls[..|urls| - 1], clicks, c);
      assert (clicks + [c])[..|clicks|] == clicks;
    }
  }

  /** With distinct ids, every click on one of the short URLs is counted exactly once. */
  lemma {:induction false} AllClicksCounted(urls: seq<ShortUrl>, clicks: seq<ClickLog>)
    requires IdsDistinct(urls)
    requires forall k :: 0 <= k < |clicks| ==> clicks[k].shortUrlId in UrlIds(urls)
    ensures ClicksPer(urls, clicks) == |clicks|
  {
    if clicks == [] {
      NoClicks(urls);
    } else {
      var n := |clicks| - 1;
      assert clicks[..n] + [clicks[n]] == clicks;
      AllClicksCounted(urls, clicks[..n]);
      ClicksPerSnoc(urls, clicks[..n], clicks[n]);
      HitsOnce(urls, clicks[n].shortUrlId);
    }
  }

  lemma {:induction false} NoClicks(urls: seq<ShortUrl>)
    ensures ClicksPer(urls, []) == 0
  {
    if urls != [] {
      NoClicks(urls[..|urls| - 1]);
    }
  }

  // ---------------------------------------------------------------------------
  // Each entry aggregates the clicked short URLs of its key

  /** Short URL `u` was clicked and groups under `key`. */
  predicate Under(u: ShortUrl, tallies: map<string, Tally>, key: string) {
    u.id in tallies && KeyOf(u) == key
  }

  /** The position of the first clicked short URL that groups under `key`. */
  function FirstUnder(urls: seq<ShortUrl>, tallies: map<string, Tally>, key: string): (r: Option<nat>)
    ensures r.Some? ==> r.value < |urls| && Under(urls[r.value], tallies, key)
    ensures r.Some? ==> forall j :: 0 <= j < r.value ==> !Under(urls[j], tallies, key)
    ensures r.None? ==> forall j :: 0 <= j < |urls| ==> !Under(urls[j], tallies, key)
  {
    if urls == [] then None
    else
      var n := |urls| - 1;
      assert forall j :: 0 <= j < n ==> urls[..n][j] == urls[j];
      match FirstUnder(urls[..n], tallies, key)
      case Some(j) => Some(j)
      case None => if Under(urls[n], tallies, key) then Some(n) else None
  }

  /** The clicks tallied for the short URLs under `key`. */
  function KeyClicks(urls: seq<ShortUrl>, tallies: map<string, Tally>, key: string): nat {
    if urls == [] then 0
    else
      var u := urls[|urls| - 1];
      KeyClicks(urls[..|urls| - 1], tallies, key) + (if Under(u, tallies, key) then tallies[u.id].count else 0)
  }

  /** The least `first` time of the tallies under `key`, by string `<`. */
  function KeyFirst(urls: seq<ShortUrl>, tallies: map<string, Tally>, key: string): Option<string> {
    if urls == [] then None
    else
      var u := urls[|urls| - 1];
      var f := KeyFirst(urls[..|urls| - 1], tallies, key);
      if !Under(u, tallies, key) then f
      else if f.None? || Less(tallies[u.id].first, f.value) then Some(tallies[u.id].first)
      else f
  }

  /** The greatest `last` time of the tallies under `key`, by string `<`. */
  function KeyLast(urls: seq<ShortUrl>, tallies: map<string, Tally>, key: string): Option<string> {
    if urls == [] then None
    else
      var u := urls[|urls| - 1];
      var l := KeyLast(urls[..|urls| - 1], tallies, key);
      if !Under(u, tallies, key) then l
      else if l.None? || Less(l.value, tallies[u.id].last) then Some(tallies[u.id].last)
      else l
  }

  /** `KeyFirst` is a `first` time of a tally under the key, and no such time is smaller. */
  lemma {:induction false} KeyFirstLeast(urls: seq<ShortUrl>, tallies: map<string, Tally>, key: string)
    ensures KeyFirst(urls, tallies, key).Some? <==> FirstUnder(urls, tallies, key).Some?
    ensures KeyFirst(urls, tallies, key).Some? ==>
      exists k :: 0 <= k < |urls| && Under(urls[k], tallies, key) && tallies[urls[k].id].first == KeyFirst(urls, tallies, key).value
    ensures KeyFirst(urls, tallies, key).Some? ==> forall k :: 0 <= k < |urls| && Under(urls[k], tallies, key) ==>
      LessEq(KeyFirst(urls, tallies, key).value, tallies[urls[k].id].first)
  {
    if urls != [] {
      var n := |urls| - 1;
      var init := urls[..n];
      KeyFirstLeast(init, tallies, key);
      assert forall k :: 0 <= k < n ==> init[k] == urls[k];
      var f := KeyFirst(init, tallies, key);
      var u := urls[n];
      if Under(u, tallies, key) && f.Some? {
        var x := tallies[u.id].first;
        LessTotal(x, f.value);
        forall k | 0 <= k < n && Under(urls[k], tallies, key)
          ensures LessEq(KeyFirst(urls, tallies, key).value, tallies[urls[k].id].first)
        {
          if Less(x, f.value) {
            LessEqTrans(x, f.value, tallies[urls[k].id].first);
          }
        }
      }
    }
  }

  /** `KeyLast` is a `last` time of a tally under the key, and no such time is greater. */
  lemma {:induction false} KeyLastGreatest(urls: seq<ShortUrl>, tallies: map<string, Tally>, key: string)
    ensures KeyLast(urls, tallies, key).Some? <==> FirstUnder(urls, tallies, key).Some?
    ensures KeyLast(urls, tallies, key).Some? ==>
      exists k :: 0 <= k < |urls| && Under(urls[k], tallies, key) && tallies[urls[k].id].last == KeyLast(urls, tallies, key).value
    ensures KeyLast(urls, tallies, key).Some? ==> forall k :: 0 <= k < |urls| && Under(urls[k], tallies, key) ==>
      LessEq(tallies[urls[k].id].last, KeyLast(urls, tallies, key).value)
  {
    if urls != [] {
      var n := |urls| - 1;
      var init := urls[..n];
      KeyLastGreatest(init, tallies, key);
      assert forall k :: 0 <= k < n ==> init[k] == urls[k];
      var l := KeyLast(init, tallies, key);
      var u := urls[n];
      if Under(u, tallies, key) && l.Some? {
        var x := tallies[u.id].last;
        LessTotal(l.value, x);
        forall k | 0 <= k < n && Under(urls[k], tallies, key)
          ensures LessEq(tallies[urls[k].id].last, KeyLast(urls, tallies, key).value)
        {
          if Less(l.value, x) {
            LessEqTrans(tallies[urls[k].id].last, l.value, x);
          }
        }
      }
    }
  }

  /** The clicks in the list on the short URLs whose key is `key`. */
  function ClicksUnder(urls: seq<ShortUrl>, clicks: seq<ClickLog>, key: string): nat {
    if urls == [] then 0
    else
      var u := urls[|urls| - 1];
      ClicksUnder(urls[..|urls| - 1], clicks, key) + (if KeyOf(u) == key then CountId(clicks, u.id) else 0)
  }

  /** Tallied per key, the clicks are those of the key's short URLs in the click list. */
  lemma {:induction false} KeyClicksCounted(urls: seq<ShortUrl>, clicks: seq<ClickLog>, key: string)
    ensures KeyClicks(urls, TallyClicks(clicks), key) == ClicksUnder(urls, clicks, key)
  {
    if urls != [] {
      KeyClicksCounted(urls[..|urls| - 1], clicks, key);
      TallyFacts(clicks);
    }
  }

  /**
   * `e` is the entry of `key`: it holds the contact, phone and name found for
   * the first clicked short URL under the key, the sum of the key's clicks,
   * and the earliest and latest of its times.
   */
  predicate Aggregates(e: ContactClicks, urls: seq<ShortUrl>, tallies: map<string, Tally>,
                       contacts: seq<Contact>, logs: seq<SmsLog>, key: string) {
    var f := FirstUnder(urls, tallies, key);
    f.Some? &&
    var start := NewEntry(urls[f.value], tallies[urls[f.value].id], contacts, logs);
    e.key == key && e.contactId == start.contactId && e.phoneNumber == start.phoneNumber
    && e.contactName == start.contactName
    && e.clickCount == KeyClicks(urls, tallies, key)
    && Some(e.firstClickedAt) == KeyFirst(urls, tallies, key)
    && Some(e.lastClickedAt) == KeyLast(urls, tallies, key)
  }

  lemma {:induction false} FindKeyAppend(es: seq<ContactClicks>, x: ContactClicks, key: string)
    ensures FindKey(es + [x], key) ==
      if FindKey(es, key).Some? then FindKey(es, key) else if x.key == key then Some(|es|) else None
  {
    if es != [] {
      assert (es + [x])[1..] == es[1..] + [x];
      FindKeyAppend(es[1..], x, key);
    }
  }

  lemma {:induction false} FindKeyUpdate(es: seq<ContactClicks>, k: nat, e: ContactClicks, key: string)
    requires k < |es| && e.key == es[k].key
    ensures FindKey(es[k := e], key) == FindKey(es, key)
  {
    if k > 0 {
      assert es[k := e][1..] == es[1..][k - 1 := e];
      FindKeyUpdate(es[1..], k - 1, e, key);
    }
  }

  /** What `GroupPerKey` states of the entries `es` grouped from `urls`, for one key. */
  predicate KeyGrouped(es: seq<ContactClicks>, urls: seq<ShortUrl>, tallies: map<string, Tally>,
                       contacts: seq<Contact>, logs: seq<SmsLog>, key: string) {
    var r := FindKey(es, key);
    && (r.Some? <==> FirstUnder(urls, tallies, key).Some?)
    && (r.None? ==> KeyClicks(urls, tallies, key) == 0 && KeyFirst(urls, tallies, key).None?
                    && KeyLast(urls, tallies, key).None?)
    && (r.Some? ==> Aggregates(es[r.value], urls, tallies, contacts, logs, key))
  }

  /**
   * Every key of a clicked short URL has an entry and no other key has one;
   * the entry of a key aggregates exactly the short URLs under it.
   */
  lemma {:induction false} GroupPerKey(urls: seq<ShortUrl>, tallies: map<string, Tally>,
                                       contacts: seq<Contact>, logs: seq<SmsLog>, key: string)
    ensures KeyGrouped(Group(urls, tallies, contacts, logs), urls, tallies, contacts, logs, key)
  {
    if urls != [] {
      var n := |urls| - 1;
      GroupPerKey(urls[..n], tallies, contacts, logs, key);
      GroupStepKey(Group(urls[..n], tallies, contacts, logs), urls, tallies, contacts, logs, key);
    }
  }

  /** One step of the `forEach` keeps `KeyGrouped` for every key. */
  lemma GroupStepKey(es: seq<ContactClicks>, urls: seq<ShortUrl>, tallies: map<string, Tally>,
                     contacts: seq<Contact>, logs: seq<SmsLog>, key: string)
    requires urls != []
    requires KeyGrouped(es, urls[..|urls| - 1], tallies, contacts, logs, key)
    ensures KeyGrouped(GroupStep(es, urls[|urls| - 1], tallies, contacts, logs), urls, tallies, contacts, logs, key)
  {
    var n := |urls| - 1;
    var u := urls[n];
    if !Under(u, tallies, key) {
      GroupStepOtherKey(es, urls, tallies, contacts, logs, key);
    } else {
      var t := tallies[u.id];
      match FindKey(es, key)
      case None =>
        FindKeyAppend(es, NewEntry(u, t, contacts, logs), key);
      case Some(k) =>
        FindKeyUpdate(es, k, Merge(es[k], t), key);
    }
  }

  /** A step for a short URL not under `key` leaves that key's entry as it was. */
  lemma GroupStepOtherKey(es: seq<ContactClicks>, urls: seq<ShortUrl>, tallies: map<string, Tally>,
                          contacts: seq<Contact>, logs: seq<SmsLog>, key: string)
    requires urls != [] && !Under(urls[|urls| - 1], tallies, key)
    requires KeyGrouped(es, urls[..|urls| - 1], tallies, contacts, logs, key)
    ensures KeyGrouped(GroupStep(es, urls[|urls| - 1], tallies, contacts, logs), urls, tallies, contacts, logs, key)
  {
    var n := |urls| - 1;
    var u := urls[n];
    var es' := GroupStep(es, u, tallies, contacts, logs);
    assert FirstUnder(urls, tallies, key) == FirstUnder(urls[..n], tallies, key);
    if u.id in tallies {
      var t := tallies[u.id];
      match FindKey(es, KeyOf(u))
      case None =>
        FindKeyAppend(es, NewEntry(u, t, contacts, logs), key);
      case Some(k) =>
        FindKeyUpdate(es, k, Merge(es[k], t), key);
        assert FindKey(es, key).Some? ==> FindKey(es, key).value != k;
    }
    var f := FirstUnder(urls, tallies, key);
    if f.Some? {
      assert urls[f.value] == urls[..n][f.value];
    }
  }

  // ---------------------------------------------------------------------------
  // The detail view and the route

  /** `campaigns` with `.eq('id', campaignId)`. */
  function CampaignsWithId(cs: seq<Campaign>, id: string): (r: seq<Campaign>)
    ensures forall k :: 0 <= k < |r| ==> r[k].id == id
    ensures forall c :: Occurrences(r, c) == if c.id == id then Occurrences(cs, c) else 0
    ensures (forall k :: 0 <= k < |cs| ==> cs[k].id != id) ==> r == []
  {
    FilterKeepsAll(cs, (c: Campaign) => c.id == id);
    Filter(cs, (c: Campaign) => c.id == id)
  }

  /** `shortUrls.map(s => s.contact_id).filter(Boolean)` as a set. */
  function ContactIdsOf(urls: seq<ShortUrl>): set<string> {
    set k | 0 <= k < |urls| && urls[k].contactId.Some? && urls[k].contactId.value != "" :: urls[k].contactId.value
  }

  /** `contacts` with `.in('id', ids)`. */
  function ContactsIn(contacts: seq<Contact>, ids: set<string>): (r: seq<Contact>)
    ensures forall k :: 0 <= k < |r| ==> r[k].id in ids
    ensures forall c :: Occurrences(r, c) == if c.id in ids then Occurrences(contacts, c) else 0
  {
    FilterKeepsAll(contacts, (c: Contact) => c.id in ids);
    Filter(contacts, (c: Contact) => c.id in ids)
  }

  /** `getCampaignDetailStats`; `.single()` fails unless exactly one campaign has the id. */
  function DetailOf(db: Db, campaignId: string): Result<Detail, string> {
    var rows := CampaignsWithId(db.campaigns, campaignId);
    if |rows| != 1 then Failure(CampaignNotFound)
    else
      var c := rows[0];
      var logs := LogsOf(db.smsLogs, campaignId);
      var success := CountStatus(logs, Succeeded);
      var urls := UrlsOf(db.shortUrls, campaignId);
      var clicks := ClicksOn(db.clickLogs, UrlIds(urls));
      var contacts := ContactsIn(db.contacts, ContactIdsOf(urls));
      var tallies := TallyClicks(clicks);
      Success(Detail(
        CampaignStats(c.id, c.name, c.sentAt, |logs|, success, CountStatus(logs, Failed),
                      |clicks|, |tallies|, RoundPercent(|tallies|, success)),
        Group(urls, tallies, contacts, logs)))
  }

  method CampaignDetailStats(db: Db, campaignId: string) returns (r: Result<Detail, string>)
    ensures r == DetailOf(db, campaignId)
  {
    var rows := CampaignsWithId(db.campaigns, campaignId);
    if |rows| != 1 {
      return Failure(CampaignNotFound);
    }
    var campaign := rows[0];
    var smsLogs := LogsOf(db.smsLogs, campaignId);
    var successCount := CountStatus(smsLogs, Succeeded);
    var failedCount := CountStatus(smsLogs, Failed);
    var shortUrls := UrlsOf(db.shortUrls, campaignId);
    var clickLogs := ClicksOn(db.clickLogs, UrlIds(shortUrls));
    var contacts := ContactsIn(db.contacts, ContactIdsOf(shortUrls));
    var clicksByShortUrl := TallyLoop(clickLogs);
    var clicksByContact := GroupLoop(shortUrls, clicksByShortUrl, contacts, smsLogs);
    var uniqueClickCount := |clicksByShortUrl|;
    r := Success(Detail(
      CampaignStats(campaign.id, campaign.name, campaign.sentAt, |smsLogs|, successCount, failedCount,
                    |clickLogs|, uniqueClickCount, RoundPercent(uniqueClickCount, successCount)),
      clicksByContact));
  }

  /**
   * In the detail view the entries share out all the campaign's clicks, have
   * distinct keys, and come from clicked short URLs only; the unique count is
   * the number of distinct clicked links; and every key of a clicked short URL
   * has exactly the entry aggregating that key's short URLs.
   */
  lemma DetailFacts(db: Db, campaignId: string)
    requires DetailOf(db, campaignId).Success?
    requires IdsDistinct(UrlsOf(db.shortUrls, campaignId))
    ensures var d := DetailOf(db, campaignId).value;
      var urls := UrlsOf(db.shortUrls, campaignId);
      var clicks := ClicksOn(db.clickLogs, UrlIds(urls));
      SumCounts(d.clicksByContact) == d.campaign.clickCount
      && KeysDistinct(d.clicksByContact)
      && d.campaign.uniqueClickCount == |Distinct(ClickedIds(clicks))|
      && d.campaign.totalSent == d.campaign.successCount + d.campaign.failedCount
      && (forall i :: 0 <= i < |d.clicksByContact| ==>
           d.clicksByContact[i].clickCount >= 1
           && StartedBy(d.clicksByContact[i], urls, TallyClicks(clicks),
                        ContactsIn(db.contacts, ContactIdsOf(urls)), LogsOf(db.smsLogs, campaignId)))
      && forall key :: KeyGrouped(d.clicksByContact, urls, TallyClicks(clicks),
                                  ContactsIn(db.contacts, ContactIdsOf(urls)), LogsOf(db.smsLogs, campaignId), key)
  {
    var logs := LogsOf(db.smsLogs, campaignId);
    var urls := UrlsOf(db.shortUrls, campaignId);
    var clicks := ClicksOn(db.clickLogs, UrlIds(urls));
    var contacts := ContactsIn(db.contacts, ContactIdsOf(urls));
    var tallies := TallyClicks(clicks);
    var es := Group(urls, tallies, contacts, logs);
    StatusSplit(logs);
    TallyFacts(clicks);
    assert |tallies| == |tallies.Keys|;
    GroupSum(urls, tallies, contacts, logs);
    UrlClicksOfTally(urls, clicks);
    AllClicksCounted(urls, clicks);
    GroupKeysDistinct(urls, tallies, contacts, logs);
    GroupEntriesStarted(urls, tallies, contacts, logs);
    GroupCountsPositive(urls, tallies, contacts, logs);
    forall key
      ensures KeyGrouped(es, urls, tallies, contacts, logs, key)
    {
      GroupPerKey(urls, tallies, contacts, logs, key);
    }
  }

  lemma {:induction false} GroupCountsPositive(urls: seq<ShortUrl>, tallies: map<string, Tally>, contacts: seq<Contact>, logs: seq<SmsLog>)
    requires forall id :: id in tallies ==> tallies[id].count >= 1
    ensures forall i :: 0 <= i < |Group(urls, tallies, contacts, logs)| ==> Group(urls, tallies, contacts, logs)[i].clickCount >= 1
  {
    if urls != [] {
      GroupCountsPositive(urls[..|urls| - 1], tallies, contacts, logs);
    }
  }

  /** With the clicks in ascending time order, every entry has `first_clicked_at <= last_clicked_at`. */
  lemma DetailOrdered(db: Db, campaignId: string)
    requires DetailOf(db, campaignId).Success?
    requires Ascending(ClicksOn(db.clickLogs, UrlIds(UrlsOf(db.shortUrls, campaignId))))
    ensures EntriesOrdered(DetailOf(db, campaignId).value.clicksByContact)
  {
    var urls := UrlsOf(db.shortUrls, campaignId);
    var clicks := ClicksOn(db.clickLogs, UrlIds(urls));
    TallyOrdered(clicks);
    GroupOrdered(urls, TallyClicks(clicks), ContactsIn(db.contacts, ContactIdsOf(urls)), LogsOf(db.smsLogs, campaignId));
  }

  /** An unknown campaign id is an error, not an empty report. */
  lemma UnknownCampaignFails(db: Db, campaignId: string)
    requires forall k :: 0 <= k < |db.campaigns| ==> db.campaigns[k].id != campaignId
    ensures DetailOf(db, campaignId) == Failure(CampaignNotFound)
  {
  }

  /**
   * A campaign stored exactly once under the id gives a successful detail,
   * headed by that campaign's id, name and `sent_at`.
   */
  lemma KnownCampaignSucceeds(db: Db, campaignId: string, k: nat)
    requires k < |db.campaigns| && db.campaigns[k].id == campaignId
    requires forall j :: 0 <= j < |db.campaigns| && j != k ==> db.campaigns[j].id != campaignId
    ensures DetailOf(db, campaignId).Success?
    ensures var st := DetailOf(db, campaignId).value.campaign;
      st.campaignId == campaignId && st.campaignName == db.campaigns[k].name && st.sentAt == db.campaigns[k].sentAt
  {
    FilterSingle(db.campaigns, (c: Campaign) => c.id == campaignId, k);
  }

  datatype Payload = ErrorPayload(error: string) | OverviewPayload(overview: Overview) | DetailPayload(detail: Detail)

  datatype Response = Response(status: int, payload: Payload)

  /** The response of `GET`; `campaignId` is the query parameter, `None` when absent. */
  function Respond(authenticated: bool, campaignId: Option<string>, db: Db): (resp: Response)
    ensures !authenticated ==> resp == Response(401, ErrorPayload(AuthRequired))
    ensures authenticated && (campaignId.None? || campaignId.value == "") ==>
      resp == Response(200, OverviewPayload(OverallStatsOf(db)))
    ensures authenticated && campaignId.Some? && campaignId.value != "" ==>
      match DetailOf(db, campaignId.value)
      case Failure(_) => resp == Response(500, ErrorPayload(AnalyticsFailed))
      case Success(d) => resp == Response(200, DetailPayload(d))
  {
    if !authenticated then Response(401, ErrorPayload(AuthRequired))
    else if campaignId.Some? && campaignId.value != "" then
      match DetailOf(db, campaignId.value)
      case Failure(_) => Response(500, ErrorPayload(AnalyticsFailed))
      case Success(d) => Response(200, DetailPayload(d))
    else Response(200, OverviewPayload(OverallStatsOf(db)))
  }

  /** `GET(request)`. */
  method Get(authenticated: bool, campaignId: Option<string>, db: Db) returns (resp: Response)
    ensures resp == Respond(authenticated, campaignId, db)
  {
    if !authenticated {
      return Response(401, ErrorPayload(AuthRequired));
    }
    if campaignId.Some? && campaignId.value != "" {
      var stats := CampaignDetailStats(db, campaignId.value);
      match stats
      case Failure(_) => resp := Response(500, ErrorPayload(AnalyticsFailed));
      case Success(d) => resp := Response(200, DetailPayload(d));
    } else {
      resp := Response(200, OverviewPayload(OverallStatsOf(db)));
    }
  }

  /** An unknown campaign reaches the caller as the generic 500, not as a not-found. */
  lemma UnknownCampaignIs500(db: Db, campaignId: string)
    requires campaignId != ""
    requires forall k :: 0 <= k < |db.campaigns| ==> db.campaigns[k].id != campaignId
    ensures Respond(true, Some(campaignId), db) == Response(500, ErrorPayload(AnalyticsFailed))
  {
    UnknownCampaignFails(db, campaignId);
  }
}
