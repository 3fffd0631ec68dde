/**
 * Link extraction and the short-URL registry: `extractUrls`, the short form
 * of a code, `replaceUrlsWithShortUrls`, and the single-row operations on the
 * `short_urls` and `click_logs` tables, modelled as a class holding both tables.
 */
module UrlShortener {
  import opened Wrappers
  import opened Text
  import opened Records

  // ---------------------------------------------------------------------------
  // The pattern /https?:\/\/[^\s]+/g

  /** `scheme` occurs at `i` and is followed by a character outside `\s`. */
  predicate SchemeAt(s: string, i: nat, scheme: string) {
    i + |scheme| < |s| && s[i..i + |scheme|] == scheme && !IsSpace(s[i + |scheme|])
  }

  /** A match of the pattern starts at `i`. */
  predicate LinkAt(s: string, i: nat) {
    SchemeAt(s, i, "https://") || SchemeAt(s, i, "http://")
  }

  /** The end of the run of non-`\s` characters starting at `i` (the greedy `[^\s]+`). */
  function RunEnd(s: string, i: nat): (j: nat)
    requires i <= |s|
    decreases |s| - i
    ensures i <= j <= |s|
    ensures forall p :: i <= p < j ==> !IsSpace(s[p])
    ensures j < |s| ==> IsSpace(s[j])
  {
    if i == |s| || IsSpace(s[i]) then i else RunEnd(s, i + 1)
  }

  lemma LinkAtNotSpace(s: string, i: nat)
    requires LinkAt(s, i)
    ensures i < |s| && !IsSpace(s[i]) && RunEnd(s, i) > i
  {
    assert s[i] == s[i..i + 7][0];
  }

  /** A match, as the positions of its first character and one past its last. */
  datatype Span = Span(start: nat, end: nat)

  /**
   * The matches a global scan finds in `s` from position `i` on: at each
   * position the pattern is tried; on failure the scan moves one character
   * on, on success it resumes after the match.
   */
  function SpansFrom(s: string, i: nat): (sps: seq<Span>)
    requires i <= |s|
    decreases |s| - i
    ensures forall k :: 0 <= k < |sps| ==> i <= sps[k].start < sps[k].end <= |s|
  {
    if i == |s| then []
    else if LinkAt(s, i) then
      LinkAtNotSpace(s, i);
      [Span(i, RunEnd(s, i))] + SpansFrom(s, RunEnd(s, i))
    else SpansFrom(s, i + 1)
  }

  function LinkSpans(s: string): seq<Span> {
    SpansFrom(s, 0)
  }

  /** Where the text before match `k` begins, for a scan started at `i`. */
  function Before(sps: seq<Span>, k: nat, i: nat): nat
    requires k <= |sps|
  {
    if k == 0 then i else sps[k - 1].end
  }

  predicate NoLinkIn(s: string, a: nat, b: nat) {
    forall p :: a <= p < b ==> !LinkAt(s, p)
  }

  /** Every span is a maximal match. */
  predicate Maximal(s: string, sps: seq<Span>) {
    forall k :: 0 <= k < |sps| ==> sps[k].end <= |s| && LinkAt(s, sps[k].start) && sps[k].end == RunEnd(s, sps[k].start)
  }

  /** Spans come in order and do not overlap. */
  predicate Ordered(sps: seq<Span>, i: nat) {
    forall k :: 0 <= k < |sps| ==> Before(sps, k, i) <= sps[k].start
  }

  /** No match starts in the text before, between or after the spans. */
  predicate GapsFree(s: string, sps: seq<Span>, i: nat) {
    && (forall k :: 0 <= k < |sps| ==> NoLinkIn(s, Before(sps, k, i), sps[k].start))
    && NoLinkIn(s, Before(sps, |sps|, i), |s|)
  }

  lemma {:induction false} SpansFromMaximal(s: string, i: nat)
    requires i <= |s|
    decreases |s| - i
    ensures Maximal(s, SpansFrom(s, i))
  {
    if i < |s| {
      if LinkAt(s, i) {
        LinkAtNotSpace(s, i);
        SpansFromMaximal(s, RunEnd(s, i));
      } else {
        SpansFromMaximal(s, i + 1);
      }
    }
  }

  lemma BeforeShift(sps: seq<Span>, sp: Span, i: nat)
    ensures forall k :: 1 <= k <= |sps| + 1 ==> Before([sp] + sps, k, i) == Before(sps, k - 1, sp.end)
  {
  }

  lemma {:induction false} SpansFromOrdered(s: string, i: nat)
    requires i <= |s|
    decreases |s| - i
    ensures Ordered(SpansFrom(s, i), i)
  {
    if i < |s| {
      if LinkAt(s, i) {
        LinkAtNotSpace(s, i);
        var j := RunEnd(s, i);
        SpansFromOrdered(s, j);
        BeforeShift(SpansFrom(s, j), Span(i, j), i);
      } else {
        SpansFromOrdered(s, i + 1);
      }
    }
  }

  lemma {:induction false} SpansFromGapsFree(s: string, i: nat)
    requires i <= |s|
    decreases |s| - i
    ensures GapsFree(s, SpansFrom(s, i), i)
  {
    if i < |s| {
      if LinkAt(s, i) {
        LinkAtNotSpace(s, i);
        var j := RunEnd(s, i);
        SpansFromGapsFree(s, j);
        TakeOne(s, i, j, SpansFrom(s, j));
      } else {
        SpansFromGapsFree(s, i + 1);
        SkipOne(s, i, SpansFrom(s, i + 1));
      }
    }
  }

  lemma TakeOne(s: string, i: nat, j: nat, sps: seq<Span>)
    requires GapsFree(s, sps, j)
    ensures GapsFree(s, [Span(i, j)] + sps, i)
  {
    var all := [Span(i, j)] + sps;
    BeforeShift(sps, Span(i, j), i);
    assert NoLinkIn(s, Before(all, 0, i), all[0].start);
    forall k | 1 <= k < |all|
      ensures NoLinkIn(s, Before(all, k, i), all[k].start)
    {
      assert all[k] == sps[k - 1];
    }
    assert Before(all, |all|, i) == Before(sps, |sps|, j);
  }

  lemma SkipOne(s: string, i: nat, sps: seq<Span>)
    requires i < |s| && !LinkAt(s, i)
    requires GapsFree(s, sps, i + 1)
    ensures GapsFree(s, sps, i)
  {
    if sps == [] {
      assert NoLinkIn(s, Before(sps, 0, i), |s|);
    } else {
      assert NoLinkIn(s, Before(sps, 0, i), sps[0].start);
      assert forall k :: 1 <= k <= |sps| ==> Before(sps, k, i) == Before(sps, k, i + 1);
    }
  }

  /** What the scan promises, for the whole message. */
  lemma LinkSpansFacts(s: string)
    ensures Maximal(s, LinkSpans(s)) && Ordered(LinkSpans(s), 0) && GapsFree(s, LinkSpans(s), 0)
  {
    SpansFromMaximal(s, 0);
    SpansFromOrdered(s, 0);
    SpansFromGapsFree(s, 0);
  }

  /** What the scan promises about match `k`. */
  lemma SpanFacts(s: string, k: nat)
    requires k < |LinkSpans(s)|
    ensures var sps := LinkSpans(s);
      && sps[k].end <= |s| && LinkAt(s, sps[k].start) && sps[k].end == RunEnd(s, sps[k].start)
      && Before(sps, k, 0) <= sps[k].start
      && NoLinkIn(s, Before(sps, k, 0), sps[k].start)
  {
    LinkSpansFacts(s);
  }

  /** What the scan promises about the text after the last match. */
  lemma TailFacts(s: string)
    ensures var sps := LinkSpans(s);
      Before(sps, |sps|, 0) <= |s| && NoLinkIn(s, Before(sps, |sps|, 0), |s|)
  {
    LinkSpansFacts(s);
    var sps := LinkSpans(s);
    if sps != [] {
      assert sps[|sps| - 1].end <= |s|;
    }
  }

  /** `extractUrls(message)`: the text of every match, left to right (`[]` when none). */
  function ExtractUrls(message: string): (urls: seq<string>)
    ensures |urls| == |LinkSpans(message)|
    ensures forall k :: 0 <= k < |urls| ==>
      var sp := LinkSpans(message)[k];
      sp.end <= |message| && urls[k] == message[sp.start..sp.end]
  {
    var sps := LinkSpans(message);
    seq(|sps|, k requires 0 <= k < |sps| => message[sps[k].start..sps[k].end])
  }

  /** The scheme each match begins with. */
  function SchemeOf(s: string, i: nat): string {
    if SchemeAt(s, i, "https://") then "https://" else "http://"
  }

  /** A match extends past its scheme and the character after it. */
  lemma LinkLength(s: string, st: nat)
    requires LinkAt(s, st)
    ensures SchemeAt(s, st, SchemeOf(s, st))
    ensures st + |SchemeOf(s, st)| < RunEnd(s, st)
  {
    var sch := SchemeOf(s, st);
    var e := RunEnd(s, st);
    assert forall j :: 0 <= j < |sch| ==> !IsSpace(sch[j]);
  }

  /** Wherever the text of a match occurs in the message, a match starts there. */
  lemma LinkTextIsLink(s: string, st: nat, p: nat)
    requires LinkAt(s, st)
    requires OccursAt(s, s[st..RunEnd(s, st)], p)
    ensures LinkAt(s, p)
  {
    LinkLength(s, st);
    var sch := SchemeOf(s, st);
    var c := |sch|;
    var e := RunEnd(s, st);
    var u, x, y := s[st..e], s[p..p + c], s[st..st + c];
    forall i | 0 <= i < c
      ensures x[i] == y[i]
    {
      OccursChar(s, u, p, i);
    }
    assert x == y;
    OccursChar(s, u, p, c);
    assert SchemeAt(s, p, sch);
  }

  lemma OccursChar(s: string, u: string, p: nat, i: nat)
    requires OccursAt(s, u, p) && i < |u|
    ensures s[p + i] == u[i]
  {
    assert s[p..p + |u|][i] == s[p + i];
  }

  /**
   * Every extracted link occurs in the message at its match position, begins
   * with a scheme, holds no white space, and is followed by white space or
   * the end of the message.
   */
  lemma ExtractUrlsShape(message: string, k: nat)
    requires k < |ExtractUrls(message)|
    ensures var sp := LinkSpans(message)[k];
      var u := ExtractUrls(message)[k];
      && OccursAt(message, u, sp.start)
      && (StartsWith(u, "http://") || StartsWith(u, "https://"))
      && NoSpace(u)
      && (sp.end == |message| || IsSpace(message[sp.end]))
  {
    var sp := LinkSpans(message)[k];
    var u := ExtractUrls(message)[k];
    SpanFacts(message, k);
    LinkLength(message, sp.start);
    var sch := SchemeOf(message, sp.start);
    assert u[..|sch|] == message[sp.start..sp.start + |sch|];
  }

  /** A message yields no link exactly when no match starts anywhere in it. */
  lemma NoUrlsIff(message: string)
    ensures ExtractUrls(message) == [] <==> NoLinkIn(message, 0, |message|)
  {
    LinkSpansFacts(message);
    var sps := LinkSpans(message);
    if sps != [] {
      assert LinkAt(message, sps[0].start);
    }
  }

  /** Every position where a match could start lies inside an extracted match. */
  lemma LinkCovered(s: string, p: nat)
    requires LinkAt(s, p)
    ensures exists k :: 0 <= k < |LinkSpans(s)| && LinkSpans(s)[k].start <= p < LinkSpans(s)[k].end
  {
    CoveredFrom(s, p, 0);
  }

  lemma {:induction false} CoveredFrom(s: string, p: nat, k: nat)
    requires k <= |LinkSpans(s)| && Before(LinkSpans(s), k, 0) <= p && LinkAt(s, p)
    decreases |LinkSpans(s)| - k
    ensures exists j :: k <= j < |LinkSpans(s)| && LinkSpans(s)[j].start <= p < LinkSpans(s)[j].end
  {
    var sps := LinkSpans(s);
    if k == |sps| {
      TailFacts(s);
      LinkAtNotSpace(s, p);
    } else {
      SpanFacts(s, k);
      if p >= sps[k].end {
        CoveredFrom(s, p, k + 1);
      }
    }
  }

  // ---------------------------------------------------------------------------
  // The rewrite

  /** The short form of a code: `${base}/r/${code}` when a base is set, else `/r/${code}`. */
  function ShortForm(base: string, code: string): (r: string)
    ensures base != "" ==> r == base + "/r/" + code
    ensures base == "" ==> r == "/r/" + code
  {
    (if base != "" then base else "") + "/r/" + code
  }

  /** The short forms of a sequence of codes, one for one. */
  function ShortForms(base: string, codes: seq<string>): (reps: seq<string>)
    ensures |reps| == |codes|
    ensures forall k :: 0 <= k < |codes| ==> reps[k] == ShortForm(base, codes[k])
  {
    seq(|codes|, k requires 0 <= k < |codes| => ShortForm(base, codes[k]))
  }

  /**
   * The text loop of `replaceUrlsWithShortUrls`: for each link in turn,
   * `processedMessage.replace(url, shortForm)`, which rewrites the FIRST place
   * the link's text occurs in the string as rewritten so far.
   */
  function ReplaceEach(message: string, urls: seq<string>, reps: seq<string>): string
    requires |reps| == |urls|
  {
    if urls == [] then message
    else
      var n := |urls| - 1;
      ReplaceFirst(ReplaceEach(message, urls[..n], reps[..n]), urls[n], reps[n])
  }

  /**
   * The message up to the end of match `k - 1`, each of the first `k` matches
   * replaced at its own position by its replacement text.
   */
  function SplicedPrefix(s: string, reps: seq<string>, k: nat): (r: string)
    requires |reps| == |LinkSpans(s)| && k <= |reps|
  {
    if k == 0 then [] else SplicedPrefix(s, reps, k - 1) + Gap(s, k - 1) + reps[k - 1]
  }

  /** The text between match `k - 1` (or the start) and match `k`. */
  function Gap(s: string, k: nat): (r: string)
    requires k < |LinkSpans(s)|
    ensures Before(LinkSpans(s), k, 0) <= LinkSpans(s)[k].start <= |s|
    ensures r == s[Before(LinkSpans(s), k, 0)..LinkSpans(s)[k].start]
  {
    SpanFacts(s, k);
    s[Before(LinkSpans(s), k, 0)..LinkSpans(s)[k].start]
  }

  /**
   * Every match replaced at its own position by `reps[k]`, every other
   * character kept: the rewrite the loop is evidently meant to perform.
   */
  function SpliceLinks(message: string, reps: seq<string>): string
    requires |reps| == |ExtractUrls(message)|
  {
    var sps := LinkSpans(message);
    TailFacts(message);
    SplicedPrefix(message, reps, |sps|) + message[Before(sps, |sps|, 0)..]
  }

  /** Putting every link text back at its own position gives the message itself. */
  lemma SpliceLinksIdentity(message: string)
    ensures SpliceLinks(message, ExtractUrls(message)) == message
  {
    var sps := LinkSpans(message);
    TailFacts(message);
    SplicedIdentityPrefix(message, |sps|);
    var g := Before(sps, |sps|, 0);
    assert message == message[..g] + message[g..];
  }

  lemma {:induction false} SplicedIdentityPrefix(message: string, k: nat)
    requires k <= |LinkSpans(message)|
    ensures Before(LinkSpans(message), k, 0) <= |message|
    ensures SplicedPrefix(message, ExtractUrls(message), k)
            == message[..Before(LinkSpans(message), k, 0)]
  {
    var sps := LinkSpans(message);
    var urls := ExtractUrls(message);
    if k > 0 {
      SpanFacts(message, k - 1);
      SplicedIdentityPrefix(message, k - 1);
      var a := Before(sps, k - 1, 0);
      var sp := sps[k - 1];
      var u := urls[k - 1];
      assert u == message[sp.start..sp.end];
      assert SplicedPrefix(message, urls, k) == SplicedPrefix(message, urls, k - 1) + message[a..sp.start] + u;
      SliceConcat(message, a, sp.start, sp.end);
    }
  }

  lemma SliceConcat(s: string, a: nat, b: nat, c: nat)
    requires a <= b <= c <= |s|
    ensures s[..a] + s[a..b] + s[b..c] == s[..c]
  {
  }

  /**
   * In the message with its first links already rewritten (`a` in front of
   * the untouched rest `s[g..]`), the match at `st` first occurs at its own
   * position, provided its text does not occur inside `a`: it cannot start in
   * the untouched text before it, where no match starts, nor run across the
   * end of `a`, which is followed by the white space that ended the previous
   * match.
   */
  lemma LinkFoundInPlace(s: string, a: string, g: nat, st: nat, e: nat)
    requires g <= st < e <= |s| && LinkAt(s, st) && e == RunEnd(s, st)
    requires NoLinkIn(s, g, st)
    requires Absent(a, s[st..e])
    requires a == [] || (g < |s| && IsSpace(s[g]))
    ensures IndexOf(a + s[g..], s[st..e]) == Some(|a| + st - g)
  {
    var u := s[st..e];
    var w := a + s[g..];
    var at := |a| + st - g;
    OccursShift(a, s, g, u, st);
    forall q | 0 <= q < at
      ensures !OccursAt(w, u, q)
    {
      NotEarlier(s, st, e, g, a, q);
    }
    IndexOfIs(w, u, at);
  }

  /** The case analysis behind `LinkFoundInPlace`, for one earlier position `q`. */
  lemma NotEarlier(s: string, st: nat, e: nat, g: nat, a: string, q: nat)
    requires g <= st < e <= |s| && LinkAt(s, st) && e == RunEnd(s, st)
    requires NoLinkIn(s, g, st)
    requires Absent(a, s[st..e])
    requires a == [] || (g < |s| && IsSpace(s[g]))
    requires q < |a| + st - g
    ensures !OccursAt(a + s[g..], s[st..e], q)
  {
    var u := s[st..e];
    var w := a + s[g..];
    if q + |u| <= |a| {
      if OccursAt(w, u, q) {
        OccursInPrefix(a, s[g..], u, q);
        assert false;
      }
    } else if q < |a| {
      // an occurrence here would cover the white space at `s[g]`
      assert w[|a|] == s[g];
      assert u[|a| - q] == s[st + |a| - q];
      assert w[q..q + |u|][|a| - q] != u[|a| - q];
    } else if OccursAt(w, u, q) {
      OccursBack(a, s, g, u, q);
      LinkTextIsLink(s, st, q - |a| + g);
      assert false;
    }
  }

  lemma OccursShift(a: string, s: string, g: nat, u: string, p: nat)
    requires g <= p && OccursAt(s, u, p)
    ensures OccursAt(a + s[g..], u, |a| + p - g)
  {
    assert (a + s[g..])[|a| + p - g..|a| + p - g + |u|] == s[p..p + |u|];
  }

  lemma OccursBack(a: string, s: string, g: nat, u: string, q: nat)
    requires g <= |s| && |a| <= q && OccursAt(a + s[g..], u, q)
    ensures OccursAt(s, u, q - |a| + g)
  {
    var p := q - |a| + g;
    assert (a + s[g..])[q..q + |u|] == s[p..p + |u|];
  }

  lemma OccursInPrefix(a: string, t: string, u: string, q: nat)
    requires q + |u| <= |a| && OccursAt(a + t, u, q)
    ensures OccursAt(a, u, q)
  {
    assert (a + t)[q..q + |u|] == a[q..q + |u|];
  }

  /** The first `k` rounds of the loop rewrite exactly the first `k` matches in place. */
  lemma {:induction false} ReplaceEachPrefix(s: string, reps: seq<string>, k: nat)
    requires |reps| == |ExtractUrls(s)| && k <= |reps|
    requires forall j :: 0 <= j < k ==> Absent(SplicedPrefix(s, reps, j), ExtractUrls(s)[j])
    ensures Before(LinkSpans(s), k, 0) <= |s|
    ensures ReplaceEach(s, ExtractUrls(s)[..k], reps[..k])
            == SplicedPrefix(s, reps, k) + s[Before(LinkSpans(s), k, 0)..]
  {
    var urls := ExtractUrls(s);
    if k == 0 {
      assert urls[..0] == [];
    } else {
      var j := k - 1;
      ReplaceEachPrefix(s, reps, j);
      ReplaceEachSnoc(s, urls, reps, j);
      ReplaceStep(s, reps, j);
    }
  }

  /** One round of the loop, on a message whose first `j` links are already rewritten in place. */
  lemma ReplaceStep(s: string, reps: seq<string>, j: nat)
    requires |reps| == |ExtractUrls(s)| && j < |reps|
    requires Absent(SplicedPrefix(s, reps, j), ExtractUrls(s)[j])
    ensures Before(LinkSpans(s), j, 0) <= |s|
    ensures ReplaceFirst(SplicedPrefix(s, reps, j) + s[Before(LinkSpans(s), j, 0)..], ExtractUrls(s)[j], reps[j])
            == SplicedPrefix(s, reps, j + 1) + s[Before(LinkSpans(s), j + 1, 0)..]
  {
    var a := SplicedPrefix(s, reps, j);
    var g, st, e := StepBounds(s, reps, j);
    LinkFoundInPlace(s, a, g, st, e);
    SpliceAt(a, s, g, st, e, reps[j]);
  }

  /** Where match `j` and the text before it lie, and what the rewritten prefix grows to. */
  lemma StepBounds(s: string, reps: seq<string>, j: nat) returns (g: nat, st: nat, e: nat)
    requires |reps| == |ExtractUrls(s)| && j < |reps|
    ensures g == Before(LinkSpans(s), j, 0) && st == LinkSpans(s)[j].start && e == LinkSpans(s)[j].end
    ensures g <= st < e <= |s| && e == Before(LinkSpans(s), j + 1, 0)
    ensures LinkAt(s, st) && e == RunEnd(s, st) && NoLinkIn(s, g, st)
    ensures ExtractUrls(s)[j] == s[st..e]
    ensures SplicedPrefix(s, reps, j + 1) == SplicedPrefix(s, reps, j) + s[g..st] + reps[j]
    ensures SplicedPrefix(s, reps, j) == [] || (g < |s| && IsSpace(s[g]))
  {
    var sps := LinkSpans(s);
    SpanFacts(s, j);
    g, st, e := Before(sps, j, 0), sps[j].start, sps[j].end;
    if j > 0 {
      SpanFacts(s, j - 1);
      assert g == RunEnd(s, sps[j - 1].start);
    }
  }

  /** Replacing the first occurrence, when it is at `st`, splices the replacement in there. */
  lemma SpliceAt(a: string, s: string, g: nat, st: nat, e: nat, r: string)
    requires g <= st <= e <= |s|
    requires IndexOf(a + s[g..], s[st..e]) == Some(|a| + st - g)
    ensures ReplaceFirst(a + s[g..], s[st..e], r) == a + s[g..st] + r + s[e..]
  {
    var w := a + s[g..];
    ReplaceFirstAt(w, s[st..e], r, |a| + st - g);
    SpliceSlices(a, s, g, st, e);
  }

  lemma SpliceSlices(a: string, s: string, g: nat, st: nat, e: nat)
    requires g <= st <= e <= |s|
    ensures (a + s[g..])[..|a| + st - g] == a + s[g..st]
    ensures (a + s[g..])[|a| + st - g + (e - st)..] == s[e..]
  {
  }

  /**
   * The loop as written agrees with the in-place rewrite whenever no link's
   * text already occurs in the part of the message rewritten before it.
   */
  lemma ReplaceEachIsSplice(s: string, reps: seq<string>)
    requires |reps| == |ExtractUrls(s)|
    requires forall j :: 0 <= j < |reps| ==> Absent(SplicedPrefix(s, reps, j), ExtractUrls(s)[j])
    ensures ReplaceEach(s, ExtractUrls(s), reps) == SpliceLinks(s, reps)
  {
    var n := |reps|;
    ReplaceEachPrefix(s, reps, n);
    assert ExtractUrls(s)[..n] == ExtractUrls(s) && reps[..n] == reps;
  }

  /** The condition of `ReplaceEachIsSplice`: no link's text occurs in the part rewritten before it. */
  predicate RewritesInPlace(s: string, reps: seq<string>)
    requires |reps| == |ExtractUrls(s)|
  {
    forall j :: 0 <= j < |reps| ==> Absent(SplicedPrefix(s, reps, j), ExtractUrls(s)[j])
  }

  /**
   * The condition holds when neither the replacements nor the text before each
   * link contain a `:`, e.g. with no base configured (`/r/` + a nanoid code)
   * and a message whose only colons are those of its links.
   */
  lemma {:induction false} ColonFreeRewritesInPlace(s: string, reps: seq<string>)
    requires |reps| == |ExtractUrls(s)|
    requires forall j :: 0 <= j < |reps| ==> ':' !in reps[j]
    requires forall j :: 0 <= j < |reps| ==> ':' !in Gap(s, j)
    ensures RewritesInPlace(s, reps)
  {
    forall j | 0 <= j < |reps|
      ensures Absent(SplicedPrefix(s, reps, j), ExtractUrls(s)[j])
    {
      SplicedPrefixColonFree(s, reps, j);
      var u := ExtractUrls(s)[j];
      ExtractUrlsShape(s, j);
      var c := if StartsWith(u, "https://") then 5 else 4;
      assert u[c] == u[..c + 1][c];
      ColonFreeAbsent(SplicedPrefix(s, reps, j), u, c);
    }
  }

  /** A text without `:` holds no occurrence of a string that has one. */
  lemma ColonFreeAbsent(w: string, u: string, c: nat)
    requires c < |u| && u[c] == ':' && ':' !in w
    ensures Absent(w, u)
  {
    forall q | 0 <= q <= |w|
      ensures !OccursAt(w, u, q)
    {
      if q + |u| <= |w| {
        assert w[q..q + |u|][c] == w[q + c];
        assert w[q + c] != ':';
      }
    }
  }

  lemma {:induction false} SplicedPrefixColonFree(s: string, reps: seq<string>, k: nat)
    requires |reps| == |ExtractUrls(s)| && k <= |reps|
    requires forall j :: 0 <= j < k ==> ':' !in reps[j]
    requires forall j :: 0 <= j < k ==> ':' !in Gap(s, j)
    ensures ':' !in SplicedPrefix(s, reps, k)
  {
    if k > 0 {
      SplicedPrefixColonFree(s, reps, k - 1);
    }
  }

  // ---------------------------------------------------------------------------
  // A message on which the loop as written does not rewrite in place

  /** Two links, the second of which is the configured base itself. */
  const SampleMessage: string := "http://a http://x"
  const SampleBase: string := "http://x"

  lemma SampleRunEnds()
    ensures RunEnd(SampleMessage, 0) == 8 && RunEnd(SampleMessage, 9) == 17
  {
    var m := SampleMessage;
    assert m[8] == ' ';
    RunEndIs(m, 0, 8);
    RunEndIs(m, 9, 17);
  }

  /** The run of non-`\s` characters from `i` ends at the first white space or the end. */
  lemma {:induction false} RunEndIs(s: string, i: nat, j: nat)
    requires i <= j <= |s|
    requires forall p :: i <= p < j ==> !IsSpace(s[p])
    requires j == |s| || IsSpace(s[j])
    decreases j - i
    ensures RunEnd(s, i) == j
  {
    if i < j {
      RunEndIs(s, i + 1, j);
    }
  }

  lemma SampleSpans()
    ensures LinkSpans(SampleMessage) == [Span(0, 8), Span(9, 17)]
    ensures ExtractUrls(SampleMessage) == ["http://a", "http://x"]
  {
    var m := SampleMessage;
    SampleRunEnds();
    assert SpansFrom(m, 17) == [];
    assert m[9..16] == "http://";
    assert SpansFrom(m, 9) == [Span(9, 17)];
    assert !LinkAt(m, 8);
    assert SpansFrom(m, 8) == [Span(9, 17)];
    assert m[0..7] == "http://";
    assert LinkAt(m, 0);
    assert SpansFrom(m, 0) == [Span(0, 8), Span(9, 17)];
    var urls := ExtractUrls(m);
    assert urls[0] == m[0..8] == "http://a";
    assert urls[1] == m[9..17] == "http://x";
  }

  /**
   * With codes "0" and "1" the loop first turns the message into
   * "http://x/r/0 http://x", then replaces the first "http://x" it finds,
   * which is the front of the short link just written: the result is
   * "http://x/r/1/r/0 http://x" where "http://x/r/0 http://x/r/1" is meant.
   */
  lemma ReplaceEachMisplaces()
    ensures var reps := ShortForms(SampleBase, ["0", "1"]);
      && |reps| == |ExtractUrls(SampleMessage)|
      && ReplaceEach(SampleMessage, ExtractUrls(SampleMessage), reps) == "http://x/r/1/r/0 http://x"
      && SpliceLinks(SampleMessage, reps) == "http://x/r/0 http://x/r/1"
      && !RewritesInPlace(SampleMessage, reps)
  {
    SampleSpans();
    SampleReps();
    SampleLoop();
    SampleSplice();
    var reps := ShortForms(SampleBase, ["0", "1"]);
    assert OccursAt(SplicedPrefix(SampleMessage, reps, 1), ExtractUrls(SampleMessage)[1], 0);
  }

  lemma SampleReps()
    ensures ShortForms(SampleBase, ["0", "1"]) == ["http://x/r/0", "http://x/r/1"]
  {
    ShortFormsTwo(SampleBase, "0", "1");
    assert ShortForm(SampleBase, "0") == "http://x/r/0";
    assert ShortForm(SampleBase, "1") == "http://x/r/1";
  }

  lemma ShortFormsTwo(base: string, c0: string, c1: string)
    ensures ShortForms(base, [c0, c1]) == [ShortForm(base, c0), ShortForm(base, c1)]
  {
  }

  /** Two rounds of the loop are two `replace` calls, in order. */
  lemma ReplaceEachTwo(m: string, u0: string, u1: string, r0: string, r1: string)
    ensures ReplaceEach(m, [u0, u1], [r0, r1]) == ReplaceFirst(ReplaceFirst(m, u0, r0), u1, r1)
  {
    ReplaceEachSnoc(m, [u0, u1], [r0, r1], 0);
    ReplaceEachSnoc(m, [u0, u1], [r0, r1], 1);
    assert [u0, u1][..2] == [u0, u1] && [r0, r1][..2] == [r0, r1];
    assert [u0, u1][..0] == [] && [r0, r1][..0] == [];
  }

  /** A `replace` whose pattern begins the text. */
  lemma ReplaceAtFront(w: string, u: string, r: string)
    requires OccursAt(w, u, 0)
    ensures ReplaceFirst(w, u, r) == r + w[|u|..]
  {
    IndexOfIs(w, u, 0);
    ReplaceFirstAt(w, u, r, 0);
    assert w[..0] == [];
  }

  lemma FrontSplice(w: string, u: string, r: string, tail: string)
    requires OccursAt(w, u, 0) && w[|u|..] == tail
    ensures ReplaceFirst(w, u, r) == r + tail
  {
    ReplaceAtFront(w, u, r);
  }

  lemma SampleFirstRound()
    ensures ReplaceFirst(SampleMessage, "http://a", "http://x/r/0") == "http://x/r/0 http://x"
  {
    var m := SampleMessage;
    assert m[..8] == "http://a";
    ReplaceAtFront(m, "http://a", "http://x/r/0");
    assert m[8..] == " http://x";
  }

  lemma SampleSecondRound()
    ensures ReplaceFirst("http://x/r/0 http://x", "http://x", "http://x/r/1") == "http://x/r/1/r/0 http://x"
  {
    var w := "http://x/r/0 http://x";
    var u := "http://x";
    assert w[..8] == u;
    assert w[8..] == "/r/0 http://x";
    FrontSplice(w, u, "http://x/r/1", "/r/0 http://x");
  }

  lemma SampleLoop()
    ensures ReplaceEach(SampleMessage, ["http://a", "http://x"], ["http://x/r/0", "http://x/r/1"])
            == "http://x/r/1/r/0 http://x"
  {
    ReplaceEachTwo(SampleMessage, "http://a", "http://x", "http://x/r/0", "http://x/r/1");
    SampleFirstRound();
    SampleSecondRound();
  }

  lemma SampleGaps()
    ensures |LinkSpans(SampleMessage)| == 2
    ensures Gap(SampleMessage, 0) == "" && Gap(SampleMessage, 1) == " "
    ensures Before(LinkSpans(SampleMessage), 2, 0) == 17
  {
    SampleSpans();
    var m := SampleMessage;
    assert Gap(m, 0) == m[0..0];
    assert Gap(m, 1) == m[8..9];
  }

  /** The in-place rewrite of a message with exactly two links, one gap before each and none after. */
  lemma SpliceTwo(m: string, reps: seq<string>)
    requires |LinkSpans(m)| == 2 && |reps| == 2
    requires Before(LinkSpans(m), 2, 0) == |m|
    ensures SplicedPrefix(m, reps, 1) == Gap(m, 0) + reps[0]
    ensures SpliceLinks(m, reps) == Gap(m, 0) + reps[0] + Gap(m, 1) + reps[1]
  {
    assert m[|m|..] == [];
  }

  lemma SampleSplice()
    ensures var reps := ["http://x/r/0", "http://x/r/1"];
      && |LinkSpans(SampleMessage)| == 2
      && SpliceLinks(SampleMessage, reps) == "http://x/r/0 http://x/r/1"
      && SplicedPrefix(SampleMessage, reps, 1) == "http://x/r/0"
  {
    SampleGaps();
    SpliceTwo(SampleMessage, ["http://x/r/0", "http://x/r/1"]);
    SampleJoin();
  }

  lemma SampleJoin()
    ensures [] + "http://x/r/0" == "http://x/r/0"
    ensures [] + "http://x/r/0" + " " + "http://x/r/1" == "http://x/r/0 http://x/r/1"
  {
  }

  /**
   * Without a base, a message whose text before a link ends in `http:/`:
   * the first short link `/r/0` completes `http:/` to a copy of the second
   * link, so the second `replace` rewrites that copy instead.
   */
  const GapMessage: string := "http:/http://a http://r/0"

  lemma GapRunEnds()
    ensures RunEnd(GapMessage, 6) == 14 && RunEnd(GapMessage, 15) == 25
  {
    var m := GapMessage;
    assert m[14] == ' ';
    RunEndIs(m, 6, 14);
    RunEndIs(m, 15, 25);
  }

  /** The scan from `i` skips a stretch where no link begins. */
  lemma {:induction false} SpansFromSkip(s: string, i: nat, j: nat)
    requires i <= j <= |s| && NoLinkIn(s, i, j)
    decreases j - i
    ensures SpansFrom(s, i) == SpansFrom(s, j)
  {
    if i < j {
      SpansFromSkip(s, i + 1, j);
    }
  }

  lemma GapHead()
    ensures NoLinkIn(GapMessage, 0, 6)
  {
    var m := GapMessage;
    forall i | 0 <= i < 6
      ensures !LinkAt(m, i)
    {
      if i == 0 {
        assert m[0..7][6] == m[6] == 'h';
      } else {
        assert m[i..i + 7][0] == m[i] != 'h';
        assert i + 8 <= |m| ==> m[i..i + 8][0] == m[i];
      }
    }
  }

  lemma GapLast()
    ensures SpansFrom(GapMessage, 14) == [Span(15, 25)]
  {
    var m := GapMessage;
    GapRunEnds();
    assert SpansFrom(m, 25) == [];
    assert m[15..22] == "http://";
    assert SpansFrom(m, 15) == [Span(15, 25)];
    assert !LinkAt(m, 14);
  }

  lemma GapTail()
    ensures SpansFrom(GapMessage, 6) == [Span(6, 14), Span(15, 25)]
  {
    var m := GapMessage;
    GapRunEnds();
    GapLast();
    assert m[6..13] == "http://";
  }

  lemma GapSpans()
    ensures LinkSpans(GapMessage) == [Span(6, 14), Span(15, 25)]
  {
    GapHead();
    SpansFromSkip(GapMessage, 0, 6);
    GapTail();
  }

  lemma GapUrls()
    ensures ExtractUrls(GapMessage) == ["http://a", "http://r/0"]
  {
    var m := GapMessage;
    GapSpans();
    GapSlices();
    var urls := ExtractUrls(m);
    assert urls[0] == m[6..14];
    assert urls[1] == m[15..25];
  }

  lemma GapSlices()
    ensures |GapMessage| == 25
    ensures GapMessage[0..6] == "http:/" && GapMessage[14..15] == " "
    ensures GapMessage[6..14] == "http://a" && GapMessage[15..25] == "http://r/0"
    ensures GapMessage[..6] == "http:/" && GapMessage[14..] == " http://r/0"
  {
  }

  /** The first link's text occurs nowhere before the link. */
  lemma GapFirstLinkFirst()
    ensures FirstOccurrence(GapMessage, "http://a", 6)
  {
    var m := GapMessage;
    var u := "http://a";
    GapSlices();
    forall q | 0 <= q < 6
      ensures !OccursAt(m, u, q)
    {
      if q == 0 {
        assert m[0..8][6] == m[6] == 'h';
      } else {
        assert m[q..q + 8][0] == m[q] != 'h';
      }
    }
  }

  lemma GapFirstRound()
    ensures ReplaceFirst(GapMessage, "http://a", "/r/0") == "http://r/0 http://r/0"
  {
    var m := GapMessage;
    GapFirstLinkFirst();
    GapSlices();
    ReplaceFirstMeaning(m, "http://a", "/r/0");
    GapJoin();
  }

  lemma GapSecondRound()
    ensures ReplaceFirst("http://r/0 http://r/0", "http://r/0", "/r/1") == "/r/1 http://r/0"
  {
    var w := "http://r/0 http://r/0";
    var u := "http://r/0";
    assert w[..10] == u;
    assert w[10..] == " http://r/0";
    FrontSplice(w, u, "/r/1", " http://r/0");
  }

  lemma GapGaps()
    ensures |LinkSpans(GapMessage)| == 2
    ensures Gap(GapMessage, 0) == "http:/" && Gap(GapMessage, 1) == " "
    ensures Before(LinkSpans(GapMessage), 2, 0) == |GapMessage|
  {
    GapSpans();
    GapSlices();
    var m := GapMessage;
    assert Gap(m, 0) == m[0..6];
    assert Gap(m, 1) == m[14..15];
  }

  lemma GapSplice()
    ensures var reps := ["/r/0", "/r/1"];
      && |LinkSpans(GapMessage)| == 2
      && SpliceLinks(GapMessage, reps) == "http://r/0 /r/1"
      && SplicedPrefix(GapMessage, reps, 1) == "http://r/0"
  {
    GapGaps();
    SpliceTwo(GapMessage, ["/r/0", "/r/1"]);
    GapJoin();
  }

  lemma GapJoin()
    ensures "http:/" + "/r/0" == "http://r/0"
    ensures "http:/" + "/r/0" + " http://r/0" == "http://r/0 http://r/0"
    ensures "http:/" + "/r/0" + " " + "/r/1" == "http://r/0 /r/1"
  {
  }

  /**
   * With no base and codes "0" and "1" the loop first turns the message into
   * "http://r/0 http://r/0" and then rewrites the first copy of "http://r/0":
   * the result is "/r/1 http://r/0" where "http://r/0 /r/1" is meant. The
   * replacements hold no `:`, but the text before the first link does.
   */
  lemma ReplaceEachMisplacesWithoutBase()
    ensures var reps := ShortForms("", ["0", "1"]);
      && |reps| == |ExtractUrls(GapMessage)|
      && ReplaceEach(GapMessage, ExtractUrls(GapMessage), reps) == "/r/1 http://r/0"
      && SpliceLinks(GapMessage, reps) == "http://r/0 /r/1"
      && !RewritesInPlace(GapMessage, reps)
      && ':' in Gap(GapMessage, 0)
  {
    GapUrls();
    GapReps();
    GapLoop();
    GapSplice();
    GapGaps();
    var reps := ShortForms("", ["0", "1"]);
    assert OccursAt(SplicedPrefix(GapMessage, reps, 1), ExtractUrls(GapMessage)[1], 0);
    assert Gap(GapMessage, 0)[4] == ':';
  }

  lemma GapReps()
    ensures ShortForms("", ["0", "1"]) == ["/r/0", "/r/1"]
  {
    ShortFormsTwo("", "0", "1");
    assert ShortForm("", "0") == "/r/0";
    assert ShortForm("", "1") == "/r/1";
  }

  lemma GapLoop()
    ensures ReplaceEach(GapMessage, ["http://a", "http://r/0"], ["/r/0", "/r/1"]) == "/r/1 http://r/0"
  {
    ReplaceEachTwo(GapMessage, "http://a", "http://r/0", "/r/0", "/r/1");
    GapFirstRound();
    GapSecondRound();
  }

  // ---------------------------------------------------------------------------
  // The short_urls and click_logs tables

  /** The row `createShortUrl` inserts, completed with the store's id and timestamp. */
  function NewShortUrl(originalUrl: string, contactId: Option<string>, campaignId: Option<string>,
                       code: string, id: string, createdAt: string): (row: ShortUrl)
    ensures row.code == code && row.originalUrl == originalUrl && row.smsLogId.None?
    ensures row.contactId == OrNull(contactId) && row.campaignId == OrNull(campaignId)
    ensures row.id == id && row.createdAt == createdAt
  {
    ShortUrl(id, code, originalUrl, OrNull(contactId), OrNull(campaignId), None, createdAt)
  }

  /** The index of the first refused insert, or `|replies|` when every insert succeeds. */
  function FirstRefused(replies: seq<InsertReply>): (n: nat)
    ensures n <= |replies|
    ensures forall j :: 0 <= j < n ==> replies[j].Inserted?
    ensures n < |replies| ==> replies[n].Refused?
  {
    if replies == [] then 0
    else if replies[0].Refused? then 0
    else 1 + FirstRefused(replies[1..])
  }

  /** The rows minted for the first `n` links, each with its own code and the store's reply. */
  function MintedRows(urls: seq<string>, contactId: Option<string>, campaignId: Option<string>,
                      codes: seq<string>, replies: seq<InsertReply>, n: nat): (rows: seq<ShortUrl>)
    requires n <= |urls| && n <= |codes| && n <= |replies|
    requires forall j :: 0 <= j < n ==> replies[j].Inserted?
    ensures |rows| == n
    ensures forall j :: 0 <= j < n ==>
      rows[j] == NewShortUrl(urls[j], contactId, campaignId, codes[j], replies[j].id, replies[j].createdAt)
  {
    seq(n, j requires 0 <= j < n =>
      NewShortUrl(urls[j], contactId, campaignId, codes[j], replies[j].id, replies[j].createdAt))
  }

  /** The table after `update({sms_log_id}).eq('id', id)`. */
  function LinkRows(rows: seq<ShortUrl>, id: string, smsLogId: string): (r: seq<ShortUrl>)
    ensures |r| == |rows|
    ensures forall j :: 0 <= j < |rows| && rows[j].id == id ==> r[j] == rows[j].(smsLogId := Some(smsLogId))
    ensures forall j :: 0 <= j < |rows| && rows[j].id != id ==> r[j] == rows[j]
  {
    seq(|rows|, j requires 0 <= j < |rows| =>
      if rows[j].id == id then rows[j].(smsLogId := Some(smsLogId)) else rows[j])
  }

  /** The rows whose code is `code`, in table order. */
  function WithCode(rows: seq<ShortUrl>, code: string): (r: seq<ShortUrl>)
    ensures forall x :: x in r <==> x in rows && x.code == code
    ensures |r| <= |rows|
  {
    if rows == [] then []
    else (if rows[0].code == code then [rows[0]] else []) + WithCode(rows[1..], code)
  }

  /** PostgREST's error code for `.single()` on a result that is not exactly one row. */
  const NotSingleRow: string := "PGRST116"

  lemma ReplaceEachSnoc(message: string, urls: seq<string>, reps: seq<string>, k: nat)
    requires |reps| == |urls| && k < |urls|
    ensures ReplaceEach(message, urls[..k + 1], reps[..k + 1])
            == ReplaceFirst(ReplaceEach(message, urls[..k], reps[..k]), urls[k], reps[k])
  {
    assert urls[..k + 1][..k] == urls[..k] && reps[..k + 1][..k] == reps[..k];
  }

  lemma MintedRowsSnoc(urls: seq<string>, contactId: Option<string>, campaignId: Option<string>,
                       codes: seq<string>, replies: seq<InsertReply>, k: nat)
    requires k < |urls| && k < |codes| && k < |replies|
    requires forall j :: 0 <= j <= k ==> replies[j].Inserted?
    ensures MintedRows(urls, contactId, campaignId, codes, replies, k + 1)
            == MintedRows(urls, contactId, campaignId, codes, replies, k)
               + [NewShortUrl(urls[k], contactId, campaignId, codes[k], replies[k].id, replies[k].createdAt)]
  {
  }

  lemma {:induction false} FirstRefusedIs(replies: seq<InsertReply>, k: nat)
    requires k <= |replies|
    requires forall j :: 0 <= j < k ==> replies[j].Inserted?
    requires k < |replies| ==> replies[k].Refused?
    ensures FirstRefused(replies) == k
  {
    if k > 0 {
      FirstRefusedIs(replies[1..], k - 1);
    }
  }

  /** The store holding both tables. */
  class ShortUrlStore {
    var shortUrls: seq<ShortUrl>
    var clickLogs: seq<ClickLog>

    constructor ()
      ensures shortUrls == [] && clickLogs == []
    {
      shortUrls := [];
      clickLogs := [];
    }

    /**
     * `createShortUrl`: inserts one row with the given code (nanoid's output)
     * and returns it as the store completed it; a refused insert is thrown.
     */
    method CreateShortUrl(originalUrl: string, contactId: Option<string>, campaignId: Option<string>,
                          code: string, reply: InsertReply) returns (r: Result<ShortUrl, DbError>)
      modifies this
      ensures reply.Refused? ==> r == Failure(reply.error) && shortUrls == old(shortUrls)
      ensures reply.Inserted? ==>
        var row := NewShortUrl(originalUrl, contactId, campaignId, code, reply.id, reply.createdAt);
        r == Success(row) && shortUrls == old(shortUrls) + [row]
      ensures clickLogs == old(clickLogs)
    {
      match reply
      case Refused(e) =>
        r := Failure(e);
      case Inserted(id, createdAt) =>
        var row := NewShortUrl(originalUrl, contactId, campaignId, code, id, createdAt);
        shortUrls := shortUrls + [row];
        r := Success(row);
    }

    /**
     * `replaceUrlsWithShortUrls`: one short URL per extracted link, in order,
     * each rewritten into the message by `replace`. `codes[k]` and `replies[k]`
     * are the code generated and the store's reply for link `k`. The first
     * refused insert ends the call with its error; rows inserted before it stay.
     */
    method ReplaceUrlsWithShortUrls(message: string, contactId: Option<string>, campaignId: Option<string>,
                                    base: string, codes: seq<string>, replies: seq<InsertReply>)
      returns (r: Result<(string, seq<ShortUrl>), DbError>)
      requires |codes| == |ExtractUrls(message)| && |replies| == |ExtractUrls(message)|
      modifies this
      ensures var urls := ExtractUrls(message);
        var n := FirstRefused(replies);
        var rows := MintedRows(urls, contactId, campaignId, codes, replies, n);
        && shortUrls == old(shortUrls) + rows
        && clickLogs == old(clickLogs)
        && (n < |urls| ==> r == Failure(replies[n].error))
        && (n == |urls| ==> r == Success((ReplaceEach(message, urls, ShortForms(base, codes)), rows)))
    {
      var urls := ExtractUrls(message);
      if |urls| == 0 {
        return Success((message, []));
      }
      r := ShortenEach(message, urls, contactId, campaignId, base, codes, replies);
    }

    /** The loop of `replaceUrlsWithShortUrls` over the extracted links `urls`. */
    method ShortenEach(message: string, urls: seq<string>, contactId: Option<string>, campaignId: Option<string>,
                       base: string, codes: seq<string>, replies: seq<InsertReply>)
      returns (r: Result<(string, seq<ShortUrl>), DbError>)
      requires |codes| == |urls| && |replies| == |urls|
      modifies this
      ensures var n := FirstRefused(replies);
        var rows := MintedRows(urls, contactId, campaignId, codes, replies, n);
        && shortUrls == old(shortUrls) + rows
        && clickLogs == old(clickLogs)
        && (n < |urls| ==> r == Failure(replies[n].error))
        && (n == |urls| ==> r == Success((ReplaceEach(message, urls, ShortForms(base, codes)), rows)))
    {
      var reps := ShortForms(base, codes);
      var minted: seq<ShortUrl> := [];
      var processed := message;
      var k := 0;
      assert urls[..0] == [] && reps[..0] == [];
      while k < |urls|
        invariant 0 <= k <= |urls|
        invariant forall j :: 0 <= j < k ==> replies[j].Inserted?
        invariant minted == MintedRows(urls, contactId, campaignId, codes, replies, k)
        invariant shortUrls == old(shortUrls) + minted
        invariant clickLogs == old(clickLogs)
        invariant processed == ReplaceEach(message, urls[..k], reps[..k])
      {
        var created := CreateShortUrl(urls[k], contactId, campaignId, codes[k], replies[k]);
        if created.Failure? {
          FirstRefusedIs(replies, k);
          assert shortUrls == old(shortUrls) + MintedRows(urls, contactId, campaignId, codes, replies, FirstRefused(replies));
          return Failure(created.error);
        }
        MintedRowsSnoc(urls, contactId, campaignId, codes, replies, k);
        minted := minted + [created.value];
        ReplaceEachSnoc(message, urls, reps, k);
        assert created.value.code == codes[k];
        assert ShortForm(base, created.value.code) == reps[k];
        processed := ReplaceFirst(processed, urls[k], ShortForm(base, created.value.code));
        k := k + 1;
      }
      FirstRefusedIs(replies, k);
      assert urls[..k] == urls && reps[..k] == reps;
      return Success((processed, minted));
    }

    /** `linkShortUrlToSmsLog`: records the log on every row with that id; a store error is thrown. */
    method LinkShortUrlToSmsLog(shortUrlId: string, smsLogId: string, fault: Option<DbError>)
      returns (e: Option<DbError>)
      modifies this
      ensures e == fault
      ensures fault.Some? ==> shortUrls == old(shortUrls)
      ensures fault.None? ==> shortUrls == LinkRows(old(shortUrls), shortUrlId, smsLogId)
      ensures clickLogs == old(clickLogs)
    {
      if fault.None? {
        shortUrls := LinkRows(shortUrls, shortUrlId, smsLogId);
      }
      e := fault;
    }

    /**
     * `getShortUrlByCode`: the one row with that code; `.single()` reports
     * any other number of rows as PGRST116, which becomes null. `fault` is an
     * error the store reports instead of answering; one with PGRST116 is also
     * null, any other is thrown.
     */
    function GetShortUrlByCode(code: string, fault: Option<DbError>): (r: Result<Option<ShortUrl>, DbError>)
      reads this
      ensures fault.Some? && fault.value.code != NotSingleRow ==> r == Failure(fault.value)
      ensures fault.Some? && fault.value.code == NotSingleRow ==> r == Success(None)
      ensures fault.None? ==> r.Success?
      ensures fault.None? ==> (r.value.Some? <==> |WithCode(shortUrls, code)| == 1)
      ensures r.Success? && r.value.Some? ==> r.value.value in shortUrls && r.value.value.code == code
    {
      if fault.Some? then
        if fault.value.code == NotSingleRow then Success(None) else Failure(fault.value)
      else
        var found := WithCode(shortUrls, code);
        if |found| == 1 then Success(Some(found[0])) else Success(None)
    }

    /** `recordClick`: appends one click row; empty user agent or address become null. */
    method RecordClick(shortUrlId: string, userAgent: Option<string>, ipAddress: Option<string>,
                       reply: InsertReply) returns (e: Option<DbError>)
      modifies this
      ensures reply.Refused? ==> e == Some(reply.error) && clickLogs == old(clickLogs)
      ensures reply.Inserted? ==>
        && e.None?
        && clickLogs == old(clickLogs) + [ClickLog(reply.id, shortUrlId, reply.createdAt, OrNull(userAgent), OrNull(ipAddress))]
      ensures shortUrls == old(shortUrls)
    {
      match reply
      case Refused(err) =>
        e := Some(err);
      case Inserted(id, at) =>
        clickLogs := clickLogs + [ClickLog(id, shortUrlId, at, OrNull(userAgent), OrNull(ipAddress))];
        e := None;
    }
  }

  /** A row created with a code no other row has is what a lookup of that code returns. */
  lemma {:induction false} FreshCodeFound(rows: seq<ShortUrl>, row: ShortUrl)
    requires forall x :: x in rows ==> x.code != row.code
    ensures WithCode(rows + [row], row.code) == [row]
  {
    if rows == [] {
      assert [row][1..] == [];
    } else {
      assert (rows + [row])[1..] == rows[1..] + [row];
      FreshCodeFound(rows[1..], row);
    }
  }

  /** A code that appears in no row is not found. */
  lemma {:induction false} AbsentCodeNotFound(rows: seq<ShortUrl>, code: string)
    requires forall x :: x in rows ==> x.code != code
    ensures WithCode(rows, code) == []
  {
    if rows != [] {
      AbsentCodeNotFound(rows[1..], code);
    }
  }

  /** Lookup after creation: with a fresh code, the created row is found by its code. */
  lemma CreatedRowFound(store: ShortUrlStore, row: ShortUrl)
    requires exists rows :: store.shortUrls == rows + [row] && forall x :: x in rows ==> x.code != row.code
    ensures store.GetShortUrlByCode(row.code, None) == Success(Some(row))
  {
    var rows :| store.shortUrls == rows + [row] && forall x :: x in rows ==> x.code != row.code;
    FreshCodeFound(rows, row);
  }

  /** Linking touches only `sms_log_id`: every row keeps its id and code. */
  lemma LinkKeepsCodes(rows: seq<ShortUrl>, id: string, smsLogId: string, code: string)
    ensures |WithCode(LinkRows(rows, id, smsLogId), code)| == |WithCode(rows, code)|
  {
    LinkKeepsCodesRec(rows, id, smsLogId, code);
  }

  lemma {:induction false} LinkKeepsCodesRec(rows: seq<ShortUrl>, id: string, smsLogId: string, code: string)
    ensures |WithCode(LinkRows(rows, id, smsLogId), code)| == |WithCode(rows, code)|
  {
    if rows != [] {
      assert LinkRows(rows, id, smsLogId)[1..] == LinkRows(rows[1..], id, smsLogId);
      LinkKeepsCodesRec(rows[1..], id, smsLogId, code);
    }
  }
}
