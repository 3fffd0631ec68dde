/**
 * `{{key}}` placeholders: the `replaceVariables`/`extractVariables` pair of
 * lib/template.ts (pattern /\{\{([^}]+)\}\}/g, key trimmed) and of lib/csv.ts
 * (pattern /\{\{(\w+)\}\}/g, key as written), as one scanner with two dialects.
 */
module Placeholders {
  import opened Wrappers
  import opened Text

  /** `AnyKey`: lib/template.ts, `[^}]+` then `trim`. `WordKey`: lib/csv.ts, `\w+`. */
  datatype Dialect = AnyKey | WordKey

  predicate InKey(d: Dialect, c: char) {
    match d
    case AnyKey => c != '}'
    case WordKey => IsWordChar(c)
  }

  /** The length of the longest prefix of `t` made of key characters (the greedy `+`). */
  function KeyRun(d: Dialect, t: string): (k: nat)
    ensures k <= |t|
    ensures forall j :: 0 <= j < k ==> InKey(d, t[j])
    ensures k < |t| ==> !InKey(d, t[k])
  {
    if t == [] || !InKey(d, t[0]) then 0 else 1 + KeyRun(d, t[1..])
  }

  /**
   * The length of the placeholder at the front of `s`, if one is there:
   * `{{`, at least one key character, `}}`. Backtracking the greedy run
   * cannot help, as the character after a shorter run is a key character
   * and not `}`.
   */
  function HoleLen(d: Dialect, s: string): (n: Option<nat>)
    ensures n.Some? ==> 5 <= n.value <= |s|
  {
    if |s| >= 2 && s[0] == '{' && s[1] == '{' then
      var k := KeyRun(d, s[2..]);
      if k >= 1 && k + 4 <= |s| && s[k + 2] == '}' && s[k + 3] == '}' then Some(k + 4) else None
    else None
  }

  /** The key a placeholder names: the text between the braces, trimmed in lib/template.ts. */
  function KeyOf(d: Dialect, inner: string): string {
    match d
    case AnyKey => Trim(inner)
    case WordKey => inner
  }

  /** A template as a sequence of plain characters and placeholders (their text, and the text between the braces). */
  datatype Piece = Plain(c: char) | Hole(raw: string, inner: string)

  /** The left-to-right scan of `replace`/`match` with the global flag. */
  function Scan(d: Dialect, s: string): seq<Piece>
    decreases |s|
  {
    if s == [] then []
    else match HoleLen(d, s)
      case Some(n) => [Hole(s[..n], s[2..n - 2])] + Scan(d, s[n..])
      case None => [Plain(s[0])] + Scan(d, s[1..])
  }

  /** The text the pieces were scanned from. */
  function Raw(ps: seq<Piece>): string {
    if ps == [] then []
    else (match ps[0] case Plain(c) => [c] case Hole(raw, _) => raw) + Raw(ps[1..])
  }

  /** The pieces with every placeholder whose key is defined replaced by its value. */
  function Fill(d: Dialect, ps: seq<Piece>, vars: map<string, string>): string {
    if ps == [] then []
    else
      (match ps[0]
       case Plain(c) => [c]
       case Hole(raw, inner) => if KeyOf(d, inner) in vars then vars[KeyOf(d, inner)] else raw)
      + Fill(d, ps[1..], vars)
  }

  /** The keys of the placeholders, in order, repeats included. */
  function Keys(d: Dialect, ps: seq<Piece>): (ks: seq<string>)
    ensures forall k :: k in ks <==> exists j :: 0 <= j < |ps| && ps[j].Hole? && KeyOf(d, ps[j].inner) == k
  {
    if ps == [] then []
    else
      var rest := Keys(d, ps[1..]);
      assert forall j :: 1 <= j < |ps| ==> ps[j] == ps[1..][j - 1];
      (if ps[0].Hole? then [KeyOf(d, ps[0].inner)] else []) + rest
  }

  /** `replaceVariables(template, variables)`. */
  function ReplaceVariables(d: Dialect, template: string, vars: map<string, string>): string {
    Fill(d, Scan(d, template), vars)
  }

  /** `extractVariables(template)`: the keys, each once, in order of first occurrence. */
  function ExtractVariables(d: Dialect, template: string): seq<string> {
    Dedup(Keys(d, Scan(d, template)))
  }

  // ---------------------------------------------------------------------------
  // De-duplication as a `Set` keeps it: insertion order, first occurrence wins

  predicate NoDup(xs: seq<string>) {
    forall i, j :: 0 <= i < j < |xs| ==> xs[i] != xs[j]
  }

  /** The index of the first occurrence of `x` in `xs`. */
  function FirstIndex(xs: seq<string>, x: string): (i: nat)
    requires x in xs
    ensures i < |xs| && xs[i] == x && x !in xs[..i]
  {
    if xs[0] == x then 0
    else
      var i := 1 + FirstIndex(xs[1..], x);
      assert xs[1..][..i - 1] == xs[1..i];
      i
  }

  function Dedup(xs: seq<string>): (r: seq<string>)
    ensures forall x :: x in r <==> x in xs
    ensures NoDup(r)
    ensures forall i, j :: 0 <= i < j < |r| ==> FirstIndex(xs, r[i]) < FirstIndex(xs, r[j])
  {
    if xs == [] then []
    else
      var n := |xs| - 1;
      var r := Dedup(xs[..n]);
      PrefixFirstIndex(xs, n);
      if xs[n] in r then r
      else
        assert FirstIndex(xs, xs[n]) == n by {
          FirstIndexIs(xs, xs[n], n);
        }
        r + [xs[n]]
  }

  lemma FirstIndexIs(xs: seq<string>, x: string, i: nat)
    requires i < |xs| && xs[i] == x && x !in xs[..i]
    ensures FirstIndex(xs, x) == i
  {
  }

  /** First occurrences in a prefix are first occurrences in the whole sequence. */
  lemma PrefixFirstIndex(xs: seq<string>, n: nat)
    requires n <= |xs|
    ensures forall x :: x in xs[..n] ==> x in xs && FirstIndex(xs, x) == FirstIndex(xs[..n], x) < n
  {
    forall x | x in xs[..n]
      ensures x in xs && FirstIndex(xs, x) == FirstIndex(xs[..n], x) < n
    {
      var f := FirstIndex(xs[..n], x);
      assert xs[..n][..f] == xs[..f];
      FirstIndexIs(xs, x, f);
    }
  }

  // ---------------------------------------------------------------------------
  // Properties

  /** Scanning loses nothing: the pieces spell the template. */
  lemma {:induction false} ScanRaw(d: Dialect, s: string)
    decreases |s|
    ensures Raw(Scan(d, s)) == s
  {
    if s != [] {
      match HoleLen(d, s)
      case Some(n) =>
        ScanRaw(d, s[n..]);
        ScanHole(d, s, n);
        RawHoleStep(s, n, s[2..n - 2], Scan(d, s[n..]));
      case None =>
        ScanRaw(d, s[1..]);
        ScanPlain(d, s);
        RawPlainStep(s, Scan(d, s[1..]));
    }
  }

  lemma RawHoleStep(s: string, n: nat, inner: string, ps: seq<Piece>)
    requires n <= |s| && Raw(ps) == s[n..]
    ensures Raw([Hole(s[..n], inner)] + ps) == s
  {
    RawCons(Hole(s[..n], inner), ps);
    assert s == s[..n] + s[n..];
  }

  lemma RawPlainStep(s: string, ps: seq<Piece>)
    requires s != [] && Raw(ps) == s[1..]
    ensures Raw([Plain(s[0])] + ps) == s
  {
    RawCons(Plain(s[0]), ps);
    assert s == [s[0]] + s[1..];
  }

  // One step of the scan, and of spelling a piece back, one lemma per kind of piece.

  lemma ScanHole(d: Dialect, s: string, n: nat)
    requires s != [] && HoleLen(d, s) == Some(n)
    ensures Scan(d, s) == [Hole(s[..n], s[2..n - 2])] + Scan(d, s[n..])
  {
  }

  lemma ScanPlain(d: Dialect, s: string)
    requires s != [] && HoleLen(d, s).None?
    ensures Scan(d, s) == [Plain(s[0])] + Scan(d, s[1..])
  {
  }

  lemma RawCons(p: Piece, ps: seq<Piece>)
    ensures Raw([p] + ps) == (match p case Plain(c) => [c] case Hole(raw, _) => raw) + Raw(ps)
  {
    assert ([p] + ps)[1..] == ps;
  }

  /** Placeholders with no defined key are put back as they were. */
  lemma {:induction false} FillUndefined(d: Dialect, ps: seq<Piece>, vars: map<string, string>)
    requires forall k :: k in Keys(d, ps) ==> k !in vars
    ensures Fill(d, ps, vars) == Raw(ps)
  {
    if ps != [] {
      assert forall k :: k in Keys(d, ps[1..]) ==> k in Keys(d, ps);
      FillUndefined(d, ps[1..], vars);
      if ps[0].Hole? {
        assert KeyOf(d, ps[0].inner) in Keys(d, ps);
      }
    }
  }

  /**
   * If no key that `extractVariables` reports is defined, `replaceVariables`
   * returns the template unchanged; in particular a template without
   * placeholders is returned as it is.
   */
  lemma NoDefinedKeyUnchanged(d: Dialect, template: string, vars: map<string, string>)
    requires forall k :: k in ExtractVariables(d, template) ==> k !in vars
    ensures ReplaceVariables(d, template, vars) == template
  {
    FillUndefined(d, Scan(d, template), vars);
    ScanRaw(d, template);
  }

  /** No placeholder starts anywhere in `t`. */
  predicate NoHole(d: Dialect, t: string) {
    forall i :: 0 <= i < |t| ==> HoleLen(d, t[i..]).None?
  }

  /** A template without placeholders has no variables and is never changed. */
  lemma {:induction false} NoHoleNoKeys(d: Dialect, t: string)
    requires NoHole(d, t)
    ensures Keys(d, Scan(d, t)) == [] && ExtractVariables(d, t) == []
  {
    if t != [] {
      assert HoleLen(d, t[0..]).None?;
      assert t[0..] == t;
      forall i | 0 <= i < |t[1..]|
        ensures HoleLen(d, t[1..][i..]).None?
      {
        assert t[1..][i..] == t[i + 1..];
      }
      NoHoleNoKeys(d, t[1..]);
    }
  }

  /** A well-formed key for the dialect, written between the braces. */
  predicate ValidKey(d: Dialect, key: string) {
    && |key| >= 1
    && (forall j :: 0 <= j < |key| ==> InKey(d, key[j]))
    && (d == AnyKey ==> IsTrimmed(key))
  }

  /**
   * One pass: a placeholder is replaced by its value verbatim, even when the
   * value itself looks like a placeholder, and an unknown key leaves the
   * placeholder text as it was.
   */
  lemma SinglePlaceholder(d: Dialect, key: string, vars: map<string, string>)
    requires ValidKey(d, key)
    ensures ReplaceVariables(d, "{{" + key + "}}", vars) == if key in vars then vars[key] else "{{" + key + "}}"
  {
    var t := "{{" + key + "}}";
    ScanSingle(d, key);
    KeyOfValid(d, key);
    FillKey(d, t, key, vars);
  }

  lemma FillKey(d: Dialect, raw: string, key: string, vars: map<string, string>)
    requires KeyOf(d, key) == key
    ensures Fill(d, [Hole(raw, key)], vars) == if key in vars then vars[key] else raw
  {
    FillOne(d, Hole(raw, key), vars);
  }

  /** A well-formed key names itself. */
  lemma KeyOfValid(d: Dialect, key: string)
    requires ValidKey(d, key)
    ensures KeyOf(d, key) == key
  {
    if d == AnyKey {
      TrimOfTrimmed(key);
    }
  }

  lemma FillOne(d: Dialect, p: Piece, vars: map<string, string>)
    ensures p.Hole? ==> Fill(d, [p], vars) == if KeyOf(d, p.inner) in vars then vars[KeyOf(d, p.inner)] else p.raw
  {
    assert [p][1..] == [];
  }

  lemma ScanSingle(d: Dialect, key: string)
    requires ValidKey(d, key)
    ensures Scan(d, "{{" + key + "}}") == [Hole("{{" + key + "}}", key)]
  {
    var t := "{{" + key + "}}";
    var n := |key| + 4;
    SingleHoleLen(d, key);
    ScanHole(d, t, n);
    assert t[n..] == [] && t[..n] == t;
  }

  lemma SingleHoleLen(d: Dialect, key: string)
    requires ValidKey(d, key)
    ensures |"{{" + key + "}}"| == |key| + 4
    ensures HoleLen(d, "{{" + key + "}}") == Some(|key| + 4)
    ensures ("{{" + key + "}}")[2..|key| + 2] == key
  {
    var t := "{{" + key + "}}";
    assert t[2..] == key + "}}";
    KeyRunOfKey(d, key, "}}");
    assert t[2..|key| + 2] == key;
  }

  lemma {:induction false} KeyRunOfKey(d: Dialect, key: string, rest: string)
    requires forall j :: 0 <= j < |key| ==> InKey(d, key[j])
    requires rest == [] || !InKey(d, rest[0])
    ensures KeyRun(d, key + rest) == |key|
  {
    if key != [] {
      assert (key + rest)[1..] == key[1..] + rest;
      KeyRunOfKey(d, key[1..], rest);
    }
  }

  /** Replacing distributes over pieces: each placeholder is filled on its own. */
  lemma {:induction false} FillAppend(d: Dialect, ps: seq<Piece>, qs: seq<Piece>, vars: map<string, string>)
    ensures Fill(d, ps + qs, vars) == Fill(d, ps, vars) + Fill(d, qs, vars)
  {
    if ps == [] {
      assert ps + qs == qs;
    } else {
      assert (ps + qs)[1..] == ps[1..] + qs;
      FillAppend(d, ps[1..], qs, vars);
    }
  }

  /** The keys each dialect can report: trimmed keys without `}`, or non-empty runs of `\w`. */
  predicate GoodKey(d: Dialect, k: string) {
    match d
    case AnyKey => IsTrimmed(k) && '}' !in k
    case WordKey => |k| >= 1 && forall j :: 0 <= j < |k| ==> IsWordChar(k[j])
  }

  lemma HoleKeyGood(d: Dialect, s: string, n: nat)
    requires HoleLen(d, s) == Some(n)
    ensures GoodKey(d, KeyOf(d, s[2..n - 2]))
  {
    var inner := s[2..n - 2];
    assert inner == s[2..][..n - 4];
    assert forall j :: 0 <= j < |inner| ==> InKey(d, inner[j]);
    if d == AnyKey {
      TrimIsTrimmed(inner);
      var k := Trim(inner);
      var i := TrimSlice(inner);
      assert forall j :: 0 <= j < |k| ==> k[j] == inner[i + j];
    }
  }

  predicate HolesGood(d: Dialect, ps: seq<Piece>) {
    forall j :: 0 <= j < |ps| && ps[j].Hole? ==> GoodKey(d, KeyOf(d, ps[j].inner))
  }

  lemma HolesGoodCons(d: Dialect, p: Piece, ps: seq<Piece>)
    requires p.Hole? ==> GoodKey(d, KeyOf(d, p.inner))
    requires HolesGood(d, ps)
    ensures HolesGood(d, [p] + ps)
  {
    assert forall j :: 1 <= j < |ps| + 1 ==> ([p] + ps)[j] == ps[j - 1];
  }

  lemma {:induction false} ScanHolesGood(d: Dialect, s: string)
    decreases |s|
    ensures HolesGood(d, Scan(d, s))
  {
    if s != [] {
      match HoleLen(d, s)
      case Some(n) =>
        ScanHolesGood(d, s[n..]);
        HoleKeyGood(d, s, n);
        ScanHole(d, s, n);
        HolesGoodCons(d, Hole(s[..n], s[2..n - 2]), Scan(d, s[n..]));
      case None =>
        ScanHolesGood(d, s[1..]);
        ScanPlain(d, s);
        HolesGoodCons(d, Plain(s[0]), Scan(d, s[1..]));
    }
  }

  /** Every key `extractVariables` reports has the shape of its dialect. */
  lemma KeysShape(d: Dialect, template: string)
    ensures forall k :: k in ExtractVariables(d, template) ==> GoodKey(d, k)
  {
    ScanHolesGood(d, template);
  }
}
