/**
 * String primitives of JavaScript that the modelled code relies on: the `\s`
 * character class, `trim`, `indexOf`, `replace` with a string pattern,
 * `split` on one character and the `<` order on strings.
 */
module Text {

  import opened Wrappers

  /** JavaScript's `\s` class; `String.prototype.trim` strips exactly this set. */
  predicate IsSpace(c: char) {
    c == '\t' || c == '\n' || c == '\U{000B}' || c == '\U{000C}' || c == '\r' || c == ' '
    || c == '\U{00A0}' || c == '\U{1680}' || ('\U{2000}' <= c <= '\U{200A}')
    || c == '\U{2028}' || c == '\U{2029}' || c == '\U{202F}' || c == '\U{205F}'
    || c == '\U{3000}' || c == '\U{FEFF}'
  }

  predicate NoSpace(s: string) {
    forall k :: 0 <= k < |s| ==> !IsSpace(s[k])
  }

  /** `\d` without the `u` flag: the ASCII digits only. */
  predicate IsAsciiDigit(c: char) {
    '0' <= c <= '9'
  }

  /** `\w`: ASCII letters, digits and the underscore. */
  predicate IsWordChar(c: char) {
    ('a' <= c <= 'z') || ('A' <= c <= 'Z') || IsAsciiDigit(c) || c == '_'
  }

  predicate StartsWith(s: string, prefix: string) {
    |prefix| <= |s| && s[..|prefix|] == prefix
  }

  function TrimStart(s: string): (r: string)
    ensures |r| <= |s|
  {
    if s != [] && IsSpace(s[0]) then TrimStart(s[1..]) else s
  }

  function TrimEnd(s: string): (r: string)
    ensures |r| <= |s|
  {
    if s != [] && IsSpace(s[|s| - 1]) then TrimEnd(s[..|s| - 1]) else s
  }

  /** `String.prototype.trim`: strip leading and trailing `\s` characters. */
  function Trim(s: string): string {
    TrimEnd(TrimStart(s))
  }

  /** What `TrimStart` removes is white space, and what it keeps is a suffix that does not start with any. */
  lemma {:induction false} TrimStartShape(s: string)
    ensures var r := TrimStart(s);
      && r == s[|s| - |r|..]
      && (forall k :: 0 <= k < |s| - |r| ==> IsSpace(s[k]))
      && (r == [] || !IsSpace(r[0]))
  {
    if s != [] && IsSpace(s[0]) {
      TrimStartShape(s[1..]);
      var r := TrimStart(s);
      assert s[1..][|s[1..]| - |r|..] == s[|s| - |r|..];
      forall k | 1 <= k < |s| - |r|
        ensures IsSpace(s[k])
      {
        assert s[k] == s[1..][k - 1];
      }
    }
  }

  /** What `TrimEnd` removes is white space, and what it keeps is a prefix that does not end with any. */
  lemma {:induction false} TrimEndShape(s: string)
    ensures var r := TrimEnd(s);
      && r == s[..|r|]
      && (forall k :: |r| <= k < |s| ==> IsSpace(s[k]))
      && (r == [] || !IsSpace(r[|r| - 1]))
  {
    if s != [] && IsSpace(s[|s| - 1]) {
      var t := s[..|s| - 1];
      TrimEndShape(t);
      var r := TrimEnd(s);
      assert t[..|r|] == s[..|r|];
      forall k | |r| <= k < |s| - 1
        ensures IsSpace(s[k])
      {
        assert s[k] == t[k];
      }
    }
  }

  /** `trim` keeps a contiguous part of the string. */
  lemma TrimSlice(s: string) returns (i: nat)
    ensures i + |Trim(s)| <= |s| && Trim(s) == s[i..i + |Trim(s)|]
  {
    var a := TrimStart(s);
    TrimStartShape(s);
    TrimEndShape(a);
    i := |s| - |a|;
    assert Trim(s) == a[..|Trim(s)|];
  }

  /** A trimmed string neither starts nor ends with white space. */
  predicate IsTrimmed(s: string) {
    s == [] || (!IsSpace(s[0]) && !IsSpace(s[|s| - 1]))
  }

  lemma TrimIsTrimmed(s: string)
    ensures IsTrimmed(Trim(s))
  {
    var a := TrimStart(s);
    var r := TrimEnd(a);
    TrimStartShape(s);
    TrimEndShape(a);
    if r != [] {
      assert r[0] == a[0];
    }
  }

  lemma {:induction false} TrimOfTrimmed(s: string)
    requires IsTrimmed(s)
    ensures Trim(s) == s
  {
  }

  lemma TrimIdempotent(s: string)
    ensures Trim(Trim(s)) == Trim(s)
  {
    TrimIsTrimmed(s);
    TrimOfTrimmed(Trim(s));
  }

  /** `u` occurs in `w` at position `p`. */
  predicate OccursAt(w: string, u: string, p: nat) {
    p + |u| <= |w| && w[p..p + |u|] == u
  }

  /** The first occurrence of `u` in `w` at or after `i` (the search of `indexOf`). */
  function FindFrom(w: string, u: string, i: nat): (r: Option<nat>)
    requires i <= |w|
    decreases |w| - i
    ensures r.Some? ==> i <= r.value && OccursAt(w, u, r.value)
    ensures r.Some? ==> forall q :: i <= q < r.value ==> !OccursAt(w, u, q)
    ensures r.None? ==> forall q :: i <= q ==> !OccursAt(w, u, q)
  {
    if OccursAt(w, u, i) then Some(i)
    else if i == |w| then None
    else FindFrom(w, u, i + 1)
  }

  /** `w.indexOf(u)`, with `None` for JavaScript's -1. */
  function IndexOf(w: string, u: string): Option<nat> {
    FindFrom(w, u, 0)
  }

  /** The first occurrence is the only one with no occurrence before it. */
  lemma IndexOfIs(w: string, u: string, p: nat)
    requires OccursAt(w, u, p)
    requires forall q :: 0 <= q < p ==> !OccursAt(w, u, q)
    ensures IndexOf(w, u) == Some(p)
  {
  }

  /** `p` is the position of the first occurrence of `u` in `w`. */
  predicate FirstOccurrence(w: string, u: string, p: nat) {
    OccursAt(w, u, p) && forall q :: 0 <= q < p ==> !OccursAt(w, u, q)
  }

  /** `u` occurs nowhere in `w`. */
  predicate Absent(w: string, u: string) {
    forall q :: 0 <= q <= |w| ==> !OccursAt(w, u, q)
  }

  /** `indexOf` finds the first occurrence, and nothing when there is none. */
  lemma IndexOfFirst(w: string, u: string)
    ensures Absent(w, u) ==> IndexOf(w, u).None?
    ensures forall p: nat :: FirstOccurrence(w, u, p) ==> IndexOf(w, u) == Some(p)
  {
    forall p: nat | FirstOccurrence(w, u, p)
      ensures IndexOf(w, u) == Some(p)
    {
      IndexOfIs(w, u, p);
    }
  }

  /** `w.replace(u, rep)` with a string pattern. */
  function ReplaceFirst(w: string, u: string, rep: string): string {
    match IndexOf(w, u)
    case None => w
    case Some(p) => w[..p] + rep + w[p + |u|..]
  }

  /**
   * `replace` with a string pattern rewrites only the first occurrence of the
   * pattern, and returns the text unchanged when the pattern does not occur.
   */
  lemma ReplaceFirstMeaning(w: string, u: string, rep: string)
    ensures Absent(w, u) ==> ReplaceFirst(w, u, rep) == w
    ensures forall p: nat :: FirstOccurrence(w, u, p) ==> ReplaceFirst(w, u, rep) == w[..p] + rep + w[p + |u|..]
  {
    IndexOfFirst(w, u);
  }

  /** `replace` rewrites at the first occurrence, wherever that is. */
  lemma ReplaceFirstAt(w: string, u: string, rep: string, p: nat)
    requires IndexOf(w, u) == Some(p)
    ensures p + |u| <= |w|
    ensures ReplaceFirst(w, u, rep) == w[..p] + rep + w[p + |u|..]
  {
  }

  /** `s.split(sep)` for a one-character separator: never empty. */
  function Split(s: string, sep: char): (r: seq<string>)
    ensures |r| >= 1
    ensures forall k :: 0 <= k < |r| ==> sep !in r[k]
  {
    if s == [] then [[]]
    else
      var rest := Split(s[1..], sep);
      if s[0] == sep then [[]] + rest
      else [[s[0]] + rest[0]] + rest[1..]
  }

  /** Joining the pieces of `Split` with the separator gives back the string. */
  function Join(parts: seq<string>, sep: char): string
    requires |parts| >= 1
  {
    if |parts| == 1 then parts[0] else parts[0] + [sep] + Join(parts[1..], sep)
  }

  lemma {:induction false} SplitJoin(s: string, sep: char)
    ensures Join(Split(s, sep), sep) == s
  {
    if s != [] {
      SplitJoin(s[1..], sep);
      var rest := Split(s[1..], sep);
      if s[0] != sep && |rest| > 1 {
        assert ([[s[0]] + rest[0]] + rest[1..])[1..] == rest[1..];
      }
    }
  }

  /** JavaScript's `a < b` on strings: lexicographic by character code. */
  predicate Less(a: string, b: string) {
    if a == [] then b != []
    else if b == [] then false
    else a[0] < b[0] || (a[0] == b[0] && Less(a[1..], b[1..]))
  }

  predicate LessEq(a: string, b: string) {
    Less(a, b) || a == b
  }

  lemma {:induction false} LessTotal(a: string, b: string)
    ensures Less(a, b) || a == b || Less(b, a)
  {
    if a != [] && b != [] && a[0] == b[0] {
      LessTotal(a[1..], b[1..]);
      if a[1..] == b[1..] {
        assert a == [a[0]] + a[1..] && b == [b[0]] + b[1..];
      }
    }
  }

  lemma {:induction false} LessTrans(a: string, b: string, c: string)
    requires Less(a, b) && Less(b, c)
    ensures Less(a, c)
  {
    if a != [] && a[0] == b[0] && b[0] == c[0] {
      LessTrans(a[1..], b[1..], c[1..]);
    }
  }

  lemma LessEqTrans(a: string, b: string, c: string)
    requires LessEq(a, b) && LessEq(b, c)
    ensures LessEq(a, c)
  {
    if Less(a, b) && Less(b, c) {
      LessTrans(a, b, c);
    }
  }
}
