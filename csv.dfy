/**
 * lib/csv.ts: `parseCsvLine`, a character loop over one line that splits at
 * commas outside double quotes, and `parseCsv`, which takes the first line of
 * the trimmed text as headers and maps every later non-blank line onto them.
 */
module Csv {
  import opened Text
  import opened Seqs

  // ---------------------------------------------------------------------------
  // One line

  /**
   * The line scanner as a state machine over the unread rest of the line:
   * `cur` is the field read so far, `inQ` the quote state, `acc` the fields
   * already finished (each trimmed). A `"` toggles the quote state and is
   * dropped, except that `""` inside quotes stands for one `"`; a comma
   * outside quotes ends the field.
   */
  function Run(rest: string, cur: string, inQ: bool, acc: seq<string>): seq<string>
    decreases |rest|
  {
    if rest == [] then acc + [Trim(cur)]
    else if rest[0] == '"' then
      if inQ && |rest| > 1 && rest[1] == '"' then Run(rest[2..], cur + ['"'], inQ, acc)
      else Run(rest[1..], cur, !inQ, acc)
    else if rest[0] == ',' && !inQ then Run(rest[1..], "", inQ, acc + [Trim(cur)])
    else Run(rest[1..], cur + [rest[0]], inQ, acc)
  }

  /** The fields of a line. */
  function ParseLine(line: string): seq<string> {
    Run(line, "", false, [])
  }

  /** `parseCsvLine(line)`. */
  method ParseCsvLine(line: string) returns (result: seq<string>)
    ensures result == ParseLine(line)
  {
    result := [];
    var current := "";
    var inQuotes := false;
    var i := 0;
    while i < |line|
      invariant 0 <= i <= |line|
      invariant Run(line[i..], current, inQuotes, result) == ParseLine(line)
      decreases |line| - i
    {
      var c := line[i];
      assert line[i..][0] == c && line[i..][1..] == line[i + 1..];
      if c == '"' {
        if inQuotes && i + 1 < |line| && line[i + 1] == '"' {
          assert line[i..][1] == line[i + 1] && line[i..][2..] == line[i + 2..];
          current := current + ['"'];
          i := i + 1;
        } else {
          inQuotes := !inQuotes;
        }
      } else if c == ',' && !inQuotes {
        result := result + [Trim(current)];
        current := "";
      } else {
        current := current + [c];
      }
      i := i + 1;
    }
    assert line[i..] == [];
    result := result + [Trim(current)];
  }

  /** Every field trimmed. */
  function Trims(fields: seq<string>): seq<string> {
    if fields == [] then [] else [Trim(fields[0])] + Trims(fields[1..])
  }

  /** Every field is trimmed; in particular the `\r` of a CRLF line ending is gone. */
  lemma {:induction false} RunTrimmed(rest: string, cur: string, inQ: bool, acc: seq<string>)
    requires forall k :: 0 <= k < |acc| ==> IsTrimmed(acc[k])
    decreases |rest|
    ensures forall k :: 0 <= k < |Run(rest, cur, inQ, acc)| ==> IsTrimmed(Run(rest, cur, inQ, acc)[k])
  {
    if rest == [] {
      TrimIsTrimmed(cur);
    } else if rest[0] == '"' {
      if inQ && |rest| > 1 && rest[1] == '"' {
        RunTrimmed(rest[2..], cur + ['"'], inQ, acc);
      } else {
        RunTrimmed(rest[1..], cur, !inQ, acc);
      }
    } else if rest[0] == ',' && !inQ {
      TrimIsTrimmed(cur);
      RunTrimmed(rest[1..], "", inQ, acc + [Trim(cur)]);
    } else {
      RunTrimmed(rest[1..], cur + [rest[0]], inQ, acc);
    }
  }

  lemma ParseLineTrimmed(line: string)
    ensures forall k :: 0 <= k < |ParseLine(line)| ==> IsTrimmed(ParseLine(line)[k])
  {
    RunTrimmed(line, "", false, []);
  }

  /**
   * The commas that separate fields: those read outside quotes, following the
   * scanner's quote state (a `""` inside quotes neither toggles nor separates).
   */
  function Separators(rest: string, inQ: bool): nat
    decreases |rest|
  {
    if rest == [] then 0
    else if rest[0] == '"' then
      if inQ && |rest| > 1 && rest[1] == '"' then Separators(rest[2..], inQ)
      else Separators(rest[1..], !inQ)
    else if rest[0] == ',' && !inQ then 1 + Separators(rest[1..], inQ)
    else Separators(rest[1..], inQ)
  }

  /** A line has exactly one field more than it has commas outside quotes. */
  lemma {:induction false} RunCount(rest: string, cur: string, inQ: bool, acc: seq<string>)
    decreases |rest|
    ensures |Run(rest, cur, inQ, acc)| == |acc| + 1 + Separators(rest, inQ)
  {
    if rest == [] {
    } else if rest[0] == '"' {
      if inQ && |rest| > 1 && rest[1] == '"' {
        RunCount(rest[2..], cur + ['"'], inQ, acc);
      } else {
        RunCount(rest[1..], cur, !inQ, acc);
      }
    } else if rest[0] == ',' && !inQ {
      RunCount(rest[1..], "", inQ, acc + [Trim(cur)]);
    } else {
      RunCount(rest[1..], cur + [rest[0]], inQ, acc);
    }
  }

  /** Separating commas are among the commas of the line; without quotes they are all of them. */
  lemma {:induction false} SeparatorsCommas(rest: string, inQ: bool)
    decreases |rest|
    ensures Separators(rest, inQ) <= Occurrences(rest, ',')
    ensures '"' !in rest && !inQ ==> Separators(rest, inQ) == Occurrences(rest, ',')
  {
    if rest != [] {
      if rest[0] == '"' {
        if inQ && |rest| > 1 && rest[1] == '"' {
          SeparatorsCommas(rest[2..], inQ);
          assert rest[1..][1..] == rest[2..];
        } else {
          SeparatorsCommas(rest[1..], !inQ);
        }
      } else {
        assert '"' !in rest ==> '"' !in rest[1..] by {
          assert forall k :: 0 <= k < |rest[1..]| ==> rest[1..][k] == rest[k + 1];
        }
        SeparatorsCommas(rest[1..], inQ);
      }
    }
  }

  /** `parseCsvLine` yields the commas outside quotes plus one fields, never more than all commas plus one. */
  lemma ParseLineCount(line: string)
    ensures |ParseLine(line)| == 1 + Separators(line, false)
    ensures 1 <= |ParseLine(line)| <= 1 + Occurrences(line, ',')
    ensures '"' !in line ==> |ParseLine(line)| == 1 + Occurrences(line, ',')
  {
    RunCount(line, "", false, []);
    SeparatorsCommas(line, false);
  }

  // One step of the scanner, one lemma per kind of character.

  lemma RunComma(rest: string, cur: string, acc: seq<string>)
    requires rest != [] && rest[0] == ','
    ensures Run(rest, cur, false, acc) == Run(rest[1..], "", false, acc + [Trim(cur)])
  {
  }

  lemma RunOther(rest: string, cur: string, inQ: bool, acc: seq<string>)
    requires rest != [] && rest[0] != '"' && (rest[0] == ',' ==> inQ)
    ensures Run(rest, cur, inQ, acc) == Run(rest[1..], cur + [rest[0]], inQ, acc)
  {
  }

  lemma RunToggle(rest: string, cur: string, inQ: bool, acc: seq<string>)
    requires rest != [] && rest[0] == '"' && !(inQ && |rest| > 1 && rest[1] == '"')
    ensures Run(rest, cur, inQ, acc) == Run(rest[1..], cur, !inQ, acc)
  {
  }

  lemma RunDoubled(rest: string, cur: string, acc: seq<string>)
    requires |rest| > 1 && rest[0] == '"' && rest[1] == '"'
    ensures Run(rest, cur, true, acc) == Run(rest[2..], cur + ['"'], true, acc)
  {
  }

  lemma ConsTail(x: string, xs: seq<string>)
    ensures ([x] + xs)[1..] == xs && ([x] + xs)[0] == x
    ensures xs != [] ==> xs == [xs[0]] + xs[1..]
  {
  }

  lemma AppendEmpty(a: string, b: string)
    requires b == []
    ensures a + b == a
  {
  }

  lemma EmptyAppend(a: string)
    ensures "" + a == a
  {
  }

  lemma NoneBefore(x: string, xs: seq<string>)
    ensures [] + [x] + xs == [x] + xs
  {
  }

  lemma Assoc(a: seq<string>, b: seq<string>, c: seq<string>)
    ensures a + b + c == a + (b + c)
  {
  }

  lemma TrimsOf(xs: seq<string>)
    requires xs != []
    ensures Trims(xs) == [Trim(xs[0])] + Trims(xs[1..])
  {
  }

  lemma TrimsCons(x: string, xs: seq<string>)
    ensures Trims([x] + xs) == [Trim(x)] + Trims(xs)
  {
    assert ([x] + xs)[1..] == xs;
  }

  // The two inductive steps of `RunUnquoted`, over abstract pieces.

  lemma UnquotedComma(acc: seq<string>, cur: string, tail: seq<string>, sp: seq<string>, r: seq<string>)
    requires |tail| >= 1 && sp == [[]] + tail
    requires r == acc + [Trim(cur)] + [Trim("" + tail[0])] + Trims(tail[1..])
    ensures r == acc + [Trim(cur + sp[0])] + Trims(sp[1..])
  {
    ConsTail([], tail);
    assert sp[0] == [] && sp[1..] == tail;
    AppendEmpty(cur, sp[0]);
    EmptyAppend(tail[0]);
    TrimsOf(tail);
    Assoc(acc + [Trim(cur)], [Trim(tail[0])], Trims(tail[1..]));
  }

  lemma UnquotedOther(acc: seq<string>, cur: string, c: char, tail: seq<string>, sp: seq<string>, r: seq<string>)
    requires |tail| >= 1 && sp == [[c] + tail[0]] + tail[1..]
    requires r == acc + [Trim(cur + [c] + tail[0])] + Trims(tail[1..])
    ensures r == acc + [Trim(cur + sp[0])] + Trims(sp[1..])
  {
    var head := [c] + tail[0];
    ConsTail(head, tail[1..]);
    assert sp[0] == head && sp[1..] == tail[1..];
    StrAssoc(cur, [c], tail[0]);
  }

  lemma StrAssoc(a: string, b: string, c: string)
    ensures a + b + c == a + (b + c)
  {
  }

  /** Without quotes a line is exactly `split(',')` with every piece trimmed. */
  lemma {:induction false} RunUnquoted(rest: string, cur: string, acc: seq<string>)
    requires '"' !in rest
    decreases |rest|
    ensures Run(rest, cur, false, acc)
            == acc + [Trim(cur + Split(rest, ',')[0])] + Trims(Split(rest, ',')[1..])
  {
    if rest == [] {
      assert cur + [] == cur;
    } else {
      assert '"' !in rest[1..] by {
        assert forall k :: 0 <= k < |rest[1..]| ==> rest[1..][k] == rest[k + 1];
      }
      var tail := Split(rest[1..], ',');
      if rest[0] == ',' {
        RunComma(rest, cur, acc);
        RunUnquoted(rest[1..], "", acc + [Trim(cur)]);
        assert Split(rest, ',') == [[]] + tail;
        UnquotedComma(acc, cur, tail, Split(rest, ','), Run(rest, cur, false, acc));
      } else {
        RunOther(rest, cur, false, acc);
        RunUnquoted(rest[1..], cur + [rest[0]], acc);
        assert Split(rest, ',') == [[rest[0]] + tail[0]] + tail[1..];
        UnquotedOther(acc, cur, rest[0], tail, Split(rest, ','), Run(rest, cur, false, acc));
      }
    }
  }

  lemma ParseLineUnquoted(line: string)
    requires '"' !in line
    ensures ParseLine(line) == Trims(Split(line, ','))
  {
    RunUnquoted(line, "", []);
    var parts := Split(line, ',');
    EmptyAppend(parts[0]);
    TrimsOf(parts);
    NoneBefore(Trim(parts[0]), Trims(parts[1..]));
  }

  // ---------------------------------------------------------------------------
  // Quoting round trip

  /** A field written between quotes, each `"` in it doubled. */
  function Quote(f: string): string {
    "\"" + Escape(f) + "\""
  }

  function Escape(f: string): string {
    if f == [] then [] else (if f[0] == '"' then "\"\"" else [f[0]]) + Escape(f[1..])
  }

  /** Fields written as quoted fields separated by commas. */
  function Encode(fields: seq<string>): string
    requires |fields| >= 1
  {
    if |fields| == 1 then Quote(fields[0]) else Quote(fields[0]) + "," + Encode(fields[1..])
  }

  lemma EncodeOne(fields: seq<string>)
    requires |fields| == 1
    ensures Encode(fields) == Quote(fields[0]) + []
  {
  }

  lemma EncodeMore(fields: seq<string>)
    requires |fields| > 1
    ensures Encode(fields) == Quote(fields[0]) + ("," + Encode(fields[1..]))
  {
  }

  /** Inside quotes, an escaped field is read back verbatim up to its closing quote. */
  lemma {:induction false} RunEscaped(f: string, rest: string, cur: string, acc: seq<string>)
    requires rest == [] || rest[0] != '"'
    decreases |f|
    ensures Run(Escape(f) + "\"" + rest, cur, true, acc) == Run(rest, cur + f, false, acc)
  {
    var w := Escape(f) + "\"" + rest;
    if f == [] {
      assert w == "\"" + rest;
      assert w[1..] == rest;
      RunToggle(w, cur, true, acc);
      assert cur + f == cur;
    } else {
      var tail := Escape(f[1..]) + "\"" + rest;
      RunEscaped(f[1..], rest, cur + [f[0]], acc);
      StrAssoc(cur, [f[0]], f[1..]);
      assert [f[0]] + f[1..] == f;
      if f[0] == '"' {
        EscapeQuoteFirst(f, rest, w, tail);
        RunDoubled(w, cur, acc);
      } else {
        EscapeOtherFirst(f, rest, w, tail);
        RunOther(w, cur, true, acc);
      }
    }
  }

  lemma EscapeQuoteFirst(f: string, rest: string, w: string, tail: string)
    requires f != [] && f[0] == '"'
    requires tail == Escape(f[1..]) + "\"" + rest && w == Escape(f) + "\"" + rest
    ensures |w| > 1 && w[0] == '"' && w[1] == '"' && w[2..] == tail
  {
    var e := Escape(f[1..]);
    assert Escape(f) == "\"\"" + e;
    Regroup("\"\"", e, "\"", rest);
    DropPrefix("\"\"", tail);
  }

  lemma EscapeOtherFirst(f: string, rest: string, w: string, tail: string)
    requires f != [] && f[0] != '"'
    requires tail == Escape(f[1..]) + "\"" + rest && w == Escape(f) + "\"" + rest
    ensures w != [] && w[0] == f[0] && w[1..] == tail
  {
    var e := Escape(f[1..]);
    assert Escape(f) == [f[0]] + e;
    Regroup([f[0]], e, "\"", rest);
    DropPrefix([f[0]], tail);
  }

  lemma Regroup(p: string, e: string, q: string, r: string)
    ensures p + e + q + r == p + (e + q + r)
  {
  }

  lemma DropPrefix(p: string, t: string)
    ensures (p + t)[..|p|] == p && (p + t)[|p|..] == t
    ensures forall k :: 0 <= k < |p| ==> (p + t)[k] == p[k]
  {
  }

  /** A quoted field is read back verbatim, and the scanner is outside quotes after it. */
  lemma RunQuoted(f: string, rest: string, acc: seq<string>)
    requires rest == [] || rest[0] != '"'
    ensures Run(Quote(f) + rest, "", false, acc) == Run(rest, f, false, acc)
  {
    var w := Quote(f) + rest;
    assert w == "\"" + (Escape(f) + "\"" + rest);
    assert w[1..] == Escape(f) + "\"" + rest;
    RunToggle(w, "", false, acc);
    RunEscaped(f, rest, "", acc);
    EmptyAppend(f);
  }

  /** Quoting fields and joining them with commas, then parsing, gives the fields back trimmed. */
  lemma {:induction false} RunEncoded(fields: seq<string>, acc: seq<string>)
    requires |fields| >= 1
    decreases |fields|
    ensures Run(Encode(fields), "", false, acc) == acc + Trims(fields)
  {
    TrimsOf(fields);
    if |fields| == 1 {
      EncodeOne(fields);
      RunQuoted(fields[0], [], acc);
      assert Trims(fields[1..]) == [];
    } else {
      var e := Encode(fields[1..]);
      EncodeMore(fields);
      RunQuoted(fields[0], "," + e, acc);
      assert ("," + e)[1..] == e;
      RunComma("," + e, fields[0], acc);
      RunEncoded(fields[1..], acc + [Trim(fields[0])]);
      Assoc(acc, [Trim(fields[0])], Trims(fields[1..]));
    }
  }

  lemma ParseLineEncoded(fields: seq<string>)
    requires |fields| >= 1
    ensures ParseLine(Encode(fields)) == Trims(fields)
  {
    RunEncoded(fields, []);
  }

  // ---------------------------------------------------------------------------
  // Whole text

  /** One parsed row: a value per header name. */
  type Row = map<string, string>

  datatype ParsedCsv = ParsedCsv(headers: seq<string>, rows: seq<Row>)

  /** `values[index] || ''`: a missing value reads as the empty string. */
  function ValueAt(values: seq<string>, i: nat): (v: string)
    ensures i < |values| ==> v == values[i]
    ensures i >= |values| ==> v == ""
  {
    if i < |values| && values[i] != "" then values[i] else ""
  }

  /** A line whose fields are all empty is skipped. */
  predicate Blank(values: seq<string>) {
    |values| == 0 || forall k :: 0 <= k < |values| ==> values[k] == ""
  }

  /** The row after the first `n` headers have been assigned, in order. */
  function RowPrefix(headers: seq<string>, values: seq<string>, n: nat): Row
    requires n <= |headers|
  {
    if n == 0 then map[] else RowPrefix(headers, values, n - 1)[headers[n - 1] := ValueAt(values, n - 1)]
  }

  function RowOf(headers: seq<string>, values: seq<string>): Row {
    RowPrefix(headers, values, |headers|)
  }

  /** The rows of the data lines, in order, blank lines left out. */
  function DataRows(headers: seq<string>, lines: seq<string>): seq<Row> {
    if lines == [] then []
    else
      var values := ParseLine(lines[|lines| - 1]);
      DataRows(headers, lines[..|lines| - 1]) + (if Blank(values) then [] else [RowOf(headers, values)])
  }

  /** The lines of the text: trimmed as a whole, then split at line feeds. */
  function Lines(csvText: string): (lines: seq<string>)
    ensures |lines| >= 1
  {
    Split(Trim(csvText), '\n')
  }

  /** What `parseCsv` returns. */
  function Parse(csvText: string): ParsedCsv {
    var lines := Lines(csvText);
    var headers := ParseLine(lines[0]);
    ParsedCsv(headers, DataRows(headers, lines[1..]))
  }

  /** `parseCsv(csvText)`. */
  method ParseCsv(csvText: string) returns (r: ParsedCsv)
    ensures r == Parse(csvText)
  {
    var lines := Lines(csvText);
    var headers := ParseCsvLine(lines[0]);
    var rows: seq<Row> := [];
    var i := 1;
    while i < |lines|
      invariant 1 <= i <= |lines|
      invariant rows == DataRows(headers, lines[1..i])
      decreases |lines| - i
    {
      assert lines[1..i + 1] == lines[1..i] + [lines[i]];
      DataRowsSnoc(headers, lines[1..i], lines[i]);
      var values := ParseCsvLine(lines[i]);
      if !Blank(values) {
        var row := BuildRow(headers, values);
        rows := rows + [row];
      }
      i := i + 1;
    }
    assert lines[1..i] == lines[1..];
    r := ParsedCsv(headers, rows);
  }

  lemma DataRowsSnoc(headers: seq<string>, lines: seq<string>, line: string)
    ensures DataRows(headers, lines + [line])
            == DataRows(headers, lines)
               + (if Blank(ParseLine(line)) then [] else [RowOf(headers, ParseLine(line))])
  {
    var all := lines + [line];
    assert all != [] && all[|all| - 1] == line && all[..|all| - 1] == lines;
  }

  /** `headers.forEach((header, index) => { row[header] = values[index] || '' })`. */
  method BuildRow(headers: seq<string>, values: seq<string>) returns (row: Row)
    ensures row == RowOf(headers, values)
  {
    row := map[];
    var j := 0;
    while j < |headers|
      invariant 0 <= j <= |headers|
      invariant row == RowPrefix(headers, values, j)
      decreases |headers| - j
    {
      row := row[headers[j] := ValueAt(values, j)];
      j := j + 1;
    }
  }

  /** A row has exactly the header names as keys. */
  lemma {:induction false} RowPrefixKeys(headers: seq<string>, values: seq<string>, n: nat)
    requires n <= |headers|
    ensures forall key :: key in RowPrefix(headers, values, n) <==> key in headers[..n]
  {
    if n > 0 {
      RowPrefixKeys(headers, values, n - 1);
      assert headers[..n] == headers[..n - 1] + [headers[n - 1]];
    }
  }

  /**
   * The value under a header is the field in that header's column; when a
   * header name repeats, the last column with that name wins.
   */
  lemma {:induction false} RowPrefixAt(headers: seq<string>, values: seq<string>, n: nat, j: nat)
    requires j < n <= |headers|
    requires forall k :: j < k < n ==> headers[k] != headers[j]
    ensures headers[j] in RowPrefix(headers, values, n)
    ensures RowPrefix(headers, values, n)[headers[j]] == ValueAt(values, j)
  {
    if j < n - 1 {
      RowPrefixAt(headers, values, n - 1, j);
    }
  }

  lemma RowOfAt(headers: seq<string>, values: seq<string>, j: nat)
    requires j < |headers|
    requires forall k :: j < k < |headers| ==> headers[k] != headers[j]
    ensures headers[j] in RowOf(headers, values)
    ensures RowOf(headers, values)[headers[j]] == ValueAt(values, j)
  {
    RowPrefixAt(headers, values, |headers|, j);
  }

  lemma RowOfKeys(headers: seq<string>, values: seq<string>)
    ensures forall key :: key in RowOf(headers, values) <==> key in headers
  {
    RowPrefixKeys(headers, values, |headers|);
    assert headers[..|headers|] == headers;
  }

  /** Every data line yields at most one row, and a line of empty fields yields none. */
  lemma {:induction false} DataRowsCount(headers: seq<string>, lines: seq<string>)
    ensures |DataRows(headers, lines)| <= |lines|
    ensures (forall k :: 0 <= k < |lines| ==> Blank(ParseLine(lines[k]))) ==> DataRows(headers, lines) == []
  {
    if lines != [] {
      var init := lines[..|lines| - 1];
      DataRowsCount(headers, init);
      assert forall k :: 0 <= k < |init| ==> init[k] == lines[k];
    }
  }

  /** There are never more rows than lines after the header line. */
  lemma ParseRowCount(csvText: string)
    ensures |Parse(csvText).rows| <= |Lines(csvText)| - 1
  {
    DataRowsCount(ParseLine(Lines(csvText)[0]), Lines(csvText)[1..]);
  }

  /** A text with no line feed after trimming is a header line only. */
  lemma HeaderOnly(csvText: string)
    requires '\n' !in Trim(csvText)
    ensures Parse(csvText).rows == []
    ensures Parse(csvText).headers == ParseLine(Trim(csvText))
  {
    SplitNoSep(Trim(csvText), '\n');
  }

  lemma {:induction false} SplitNoSep(s: string, sep: char)
    requires sep !in s
    ensures Split(s, sep) == [s]
  {
    if s != [] {
      assert sep !in s[1..] by {
        assert forall k :: 0 <= k < |s[1..]| ==> s[1..][k] == s[k + 1];
      }
      SplitNoSep(s[1..], sep);
      assert [s[0]] + s[1..] == s;
    }
  }

  /** As written, a text that trims to nothing has one empty header rather than none. */
  lemma BlankTextHeaders(csvText: string)
    requires Trim(csvText) == ""
    ensures Parse(csvText).headers == [""]
    ensures Parse(csvText).rows == []
  {
    assert Lines(csvText) == [""];
    assert ParseLine("") == [""];
  }

  /** The empty text, in particular, parses to the headers `[""]`. */
  lemma EmptyTextHeaders()
    ensures Parse("").headers == [""]
    ensures Parse("").rows == []
  {
    assert Trim("") == "";
    BlankTextHeaders("");
  }

  /** Intended: an empty (or all white space) text has no headers and no rows. */
  function IntendedParse(csvText: string): (r: ParsedCsv)
    ensures Trim(csvText) == "" ==> r.headers == [] && r.rows == []
    ensures Trim(csvText) != "" ==> r == Parse(csvText)
  {
    if Trim(csvText) == "" then ParsedCsv([], []) else Parse(csvText)
  }

  /** Intended and as-written parsing differ exactly on texts that trim to nothing. */
  lemma IntendedParseDiffers(csvText: string)
    ensures IntendedParse(csvText) != Parse(csvText) <==> Trim(csvText) == ""
  {
    if Trim(csvText) == "" {
      BlankTextHeaders(csvText);
    }
  }
}
