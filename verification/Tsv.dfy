/**
 The TSV writer and the reader it is written for: a value that contains a tab, a line break, a
 backslash or a quote is quoted, with its quotes doubled (rule 7 in section 2 of RFC 4180, with
 a tab as the separator).
 */
module Tsv {
  import opened Basics

  type Rows = seq<seq<string>>

  /** `strings.ContainsAny` with the characters that need quoting. */
  predicate NeedsQuote(v: string) {
    '\n' in v || '\t' in v || '\r' in v || '\\' in v || '"' in v
  }

  /** How a character is written inside quotes. */
  function InQuotes(c: char): string {
    if c == '"' then "\"\"" else [c]
  }

  /** `strings.ReplaceAll` of a quote by two. */
  function Doubled(v: string): string {
    if v == "" then "" else InQuotes(v[0]) + Doubled(v[1..])
  }

  function Encoded(v: string): string {
    if NeedsQuote(v) then "\"" + Doubled(v) + "\"" else v
  }

  function EncodedAll(values: seq<string>): seq<string> {
    seq(|values|, i requires 0 <= i < |values| => Encoded(values[i]))
  }

  /** `strings.Join` with tabs. */
  function Join(values: seq<string>): string {
    if values == [] then "" else if |values| == 1 then values[0] else values[0] + "\t" + Join(values[1..])
  }

  /** The bytes of one row. */
  function Line(values: seq<string>): string {
    Join(EncodedAll(values)) + "\n"
  }

  /** The bytes of all rows. */
  function Stream(rows: Rows): string {
    if rows == [] then "" else Line(rows[0]) + Stream(rows[1..])
  }

  class Encoder {
    /** What was written so far. */
    var output: string

    constructor ()
      ensures output == ""
    {
      output := "";
    }

    /** Encodes the caller's values in place. */
    method EncodeValues(values: array<string>)
      modifies values
      ensures values[..] == EncodedAll(old(values[..]))
    {
      for i := 0 to values.Length
        invariant values[..i] == EncodedAll(old(values[..]))[..i]
        invariant values[i..] == old(values[..])[i..]
      {
        var v := values[i];
        assert v == old(values[..])[i];
        if NeedsQuote(v) {
          values[i] := "\"" + Doubled(v) + "\"";
        }
        assert values[i] == EncodedAll(old(values[..]))[i];
        assert values[i + 1..] == old(values[..])[i..][1..];
      }
    }

    /** The writer takes the whole line, or fails after the first `failsAfter` bytes of it. */
    method WriteRow(values: array<string>, failsAfter: Option<nat>) returns (error: bool)
      modifies this, values
      ensures error == failsAfter.Some?
      ensures var line := Line(old(values[..]));
        output == old(output) + (if error && failsAfter.value < |line| then line[..failsAfter.value] else line)
      ensures values[..] == EncodedAll(old(values[..]))
    {
      EncodeValues(values);
      var tsv := Join(values[..]) + "\n";
      if failsAfter.Some? && failsAfter.value < |tsv| {
        output := output + tsv[..failsAfter.value];
      } else {
        output := output + tsv;
      }
      return failsAfter.Some?;
    }

    /** All rows in order, each from a slice of its own, to a writer that does not fail. */
    method WriteRows(rows: Rows)
      modifies this
      ensures output == old(output) + Stream(rows)
    {
      for i := 0 to |rows|
        invariant output + Stream(rows[i..]) == old(output) + Stream(rows)
      {
        var values := new string[|rows[i]|](j requires 0 <= j < |rows[i]| => rows[i][j]);
        assert values[..] == rows[i];
        ghost var before := output;
        var error := WriteRow(values, None);
        assert rows[i..][1..] == rows[i + 1..];
        assert before + (Line(rows[i]) + Stream(rows[i + 1..])) == output + Stream(rows[i + 1..]);
      }
    }
  }

  // ---------------------------------------------------------------------------------------
  // The reader

  /** A value, the character that ends it, and the rest; None when the text does not scan. */
  datatype Scan = Scan(value: string, end: char, rest: string)

  /** The rest of a quoted value. */
  function ScanQuoted(s: string): (r: Option<Scan>)
    ensures r.Some? ==> |r.value.rest| < |s|
    decreases |s|
  {
    if s == "" then None
    else if s[0] != '"' then
      match ScanQuoted(s[1..])
      case Some(scan) => Some(scan.(value := [s[0]] + scan.value))
      case None => None
    else if |s| >= 2 && s[1] == '"' then
      match ScanQuoted(s[2..])
      case Some(scan) => Some(scan.(value := "\"" + scan.value))
      case None => None
    else if |s| >= 2 && (s[1] == '\t' || s[1] == '\n') then Some(Scan("", s[1], s[2..]))
    else None
  }

  /** The rest of a plain value. */
  function ScanPlain(s: string): (r: Option<Scan>)
    ensures r.Some? ==> |r.value.rest| < |s|
    decreases |s|
  {
    if s == "" then None
    else if s[0] == '\t' || s[0] == '\n' then Some(Scan("", s[0], s[1..]))
    else
      match ScanPlain(s[1..])
      case Some(scan) => Some(scan.(value := [s[0]] + scan.value))
      case None => None
  }

  function ScanValue(s: string): (r: Option<Scan>)
    ensures r.Some? ==> |r.value.rest| < |s|
  {
    if s != "" && s[0] == '"' then ScanQuoted(s[1..]) else ScanPlain(s)
  }

  /** The rows of a text, given the values already read of the first row. */
  function Read(s: string, row: seq<string>): Option<Rows>
    decreases |s|
  {
    if s == "" then (if row == [] then Some([]) else None)
    else
      match ScanValue(s)
      case None => None
      case Some(scan) =>
        if scan.end == '\t' then Read(scan.rest, row + [scan.value])
        else
          match Read(scan.rest, [])
          case None => None
          case Some(rows) => Some([row + [scan.value]] + rows)
  }

  // ---------------------------------------------------------------------------------------
  // Reading back

  predicate EndsValue(c: char) {
    c == '\t' || c == '\n'
  }

  lemma Regroup(a: string, b: string, c: string)
    ensures a + b + c == a + (b + c)
  {
  }

  /** One more character inside quotes. */
  lemma ScanOneMore(c: char, rest: string)
    requires ScanQuoted(rest).Some?
    ensures ScanQuoted(InQuotes(c) + rest) ==
      Some(ScanQuoted(rest).value.(value := [c] + ScanQuoted(rest).value.value))
  {
    var s := InQuotes(c) + rest;
    if c == '"' {
      assert s[2..] == rest;
    } else {
      assert s[1..] == rest;
    }
  }

  lemma {:induction false} ScanDoubled(v: string, tail: string)
    requires |tail| >= 2 && tail[0] == '"' && EndsValue(tail[1])
    ensures ScanQuoted(Doubled(v) + tail) == Some(Scan(v, tail[1], tail[2..]))
    decreases |v|
  {
    if v == "" {
      assert Doubled(v) + tail == tail;
    } else {
      ScanDoubled(v[1..], tail);
      ScanOneMore(v[0], Doubled(v[1..]) + tail);
      Regroup(InQuotes(v[0]), Doubled(v[1..]), tail);
      assert [v[0]] + v[1..] == v;
    }
  }

  lemma {:induction false} ScanUnquoted(v: string, tail: string)
    requires tail != "" && EndsValue(tail[0]) && '\t' !in v && '\n' !in v
    ensures ScanPlain(v + tail) == Some(Scan(v, tail[0], tail[1..]))
    decreases |v|
  {
    var s := v + tail;
    if v == "" {
      assert s == tail;
    } else {
      assert s[1..] == v[1..] + tail;
      assert v[0] in v && forall c :: c in v[1..] ==> c in v;
      ScanUnquoted(v[1..], tail);
      assert [v[0]] + v[1..] == v;
    }
  }

  /** An encoded value with its end scans as the value, whatever it contains. */
  lemma ScanEncoded(v: string, end: char, rest: string)
    requires EndsValue(end)
    ensures ScanValue(Encoded(v) + ([end] + rest)) == Some(Scan(v, end, rest))
  {
    var tail := [end] + rest;
    assert tail[1..] == rest;
    if NeedsQuote(v) {
      ScanQuotedValue(v, end, rest);
    } else {
      if v != "" {
        assert (v + tail)[0] == v[0] && v[0] in v;
      }
      ScanUnquoted(v, tail);
    }
  }

  lemma ScanQuotedValue(v: string, end: char, rest: string)
    requires EndsValue(end)
    ensures ScanValue("\"" + Doubled(v) + "\"" + ([end] + rest)) == Some(Scan(v, end, rest))
  {
    var tail := "\"" + ([end] + rest);
    assert tail[2..] == rest;
    var s := "\"" + Doubled(v) + "\"" + ([end] + rest);
    assert s == "\"" + (Doubled(v) + tail);
    assert s[1..] == Doubled(v) + tail;
    ScanDoubled(v, tail);
  }

  /** A row without values is written like a row with one empty value. */
  function AsRead(row: seq<string>): seq<string> {
    if row == [] then [""] else row
  }

  function AllAsRead(rows: Rows): Rows {
    seq(|rows|, i requires 0 <= i < |rows| => AsRead(rows[i]))
  }

  /** A line as its first value, what ends it, and the rest. */
  lemma LineSplits(values: seq<string>, rest: string)
    ensures |values| <= 1 ==>
      Line(values) + rest == Encoded(if values == [] then "" else values[0]) + (['\n'] + rest)
    ensures |values| > 1 ==> Line(values) + rest == Encoded(values[0]) + (['\t'] + (Line(values[1..]) + rest))
  {
    if |values| > 1 {
      var first, others := Encoded(values[0]), Join(EncodedAll(values[1..]));
      assert EncodedAll(values)[1..] == EncodedAll(values[1..]);
      Regroup(first + "\t", others, "\n");
      Regroup(first + "\t", others + "\n", rest);
      Regroup(first, "\t", others + "\n" + rest);
    } else {
      Regroup(Encoded(if values == [] then "" else values[0]), "\n", rest);
    }
  }

  lemma {:induction false} ReadLine(values: seq<string>, row: seq<string>, rest: string)
    requires Read(rest, []).Some?
    ensures Read(Line(values) + rest, row) == Some([row + AsRead(values)] + Read(rest, []).value)
    decreases |values|
  {
    LineSplits(values, rest);
    if |values| <= 1 {
      var v := if values == [] then "" else values[0];
      ScanEncoded(v, '\n', rest);
      assert AsRead(values) == [v];
    } else {
      ScanEncoded(values[0], '\t', Line(values[1..]) + rest);
      ReadLine(values[1..], row + [values[0]], rest);
      assert row + [values[0]] + AsRead(values[1..]) == row + AsRead(values);
    }
  }

  lemma AllAsReadCons(rows: Rows)
    requires rows != []
    ensures AllAsRead(rows) == [[] + AsRead(rows[0])] + AllAsRead(rows[1..])
  {
    assert [] + AsRead(rows[0]) == AsRead(rows[0]);
  }

  /** The reader recovers every stream of rows, a row without values as one with an empty value. */
  lemma {:induction false} ReadsBack(rows: Rows)
    ensures Read(Stream(rows), []) == Some(AllAsRead(rows))
  {
    if rows == [] {
      assert AllAsRead(rows) == [];
    } else {
      ReadsBack(rows[1..]);
      ReadLine(rows[0], [], Stream(rows[1..]));
      AllAsReadCons(rows);
    }
  }

  /** For non-empty rows, over arbitrary strings, the reader recovers exactly the rows written. */
  lemma NonEmptyRowsReadBack(rows: Rows)
    requires forall i :: 0 <= i < |rows| ==> rows[i] != []
    ensures Read(Stream(rows), []) == Some(rows)
  {
    ReadsBack(rows);
    assert AllAsRead(rows) == rows;
  }

  /** Two lists of rows give the same bytes exactly when they differ at most in empty rows written as [""]. */
  lemma SameBytesSameRows(a: Rows, b: Rows)
    ensures Stream(a) == Stream(b) <==> AllAsRead(a) == AllAsRead(b)
  {
    ReadsBack(a);
    ReadsBack(b);
    StreamAsRead(a);
    StreamAsRead(b);
  }

  /** The shortest such lists. */
  lemma EmptyRowIsWrittenAsEmptyValue()
    ensures Stream([[]]) == Stream([[""]]) == "\n"
  {
    assert EncodedAll([]) == [] && EncodedAll([""]) == [""];
    assert Line([]) == "\n" && Line([""]) == "\n";
  }

  lemma {:induction false} StreamAsRead(rows: Rows)
    ensures Stream(AllAsRead(rows)) == Stream(rows)
  {
    if rows != [] {
      StreamAsRead(rows[1..]);
      assert AllAsRead(rows)[1..] == AllAsRead(rows[1..]);
      if rows[0] == [] {
        assert EncodedAll([""]) == [""] && EncodedAll([]) == [];
      }
    }
  }

  // ---------------------------------------------------------------------------------------
  // The format, character by character

  /** A value is written unchanged exactly when it has none of the five characters, and else in quotes. */
  lemma QuotedOnlyWhereNeeded(v: string)
    ensures '\n' !in v && '\t' !in v && '\r' !in v && '\\' !in v && '"' !in v ==> Encoded(v) == v
    ensures '\n' in v || '\t' in v || '\r' in v || '\\' in v || '"' in v ==>
      |Encoded(v)| >= |v| + 2 && Encoded(v)[0] == '"' && Encoded(v)[|Encoded(v)| - 1] == '"'
      && Encoded(v)[1..|Encoded(v)| - 1] == Doubled(v)
  {
    DoubledIsNoShorter(v);
  }

  lemma {:induction false} DoubledIsNoShorter(v: string)
    ensures |Doubled(v)| >= |v|
  {
    if v != "" {
      DoubledIsNoShorter(v[1..]);
    }
  }

  /** Doubling works character by character: a quote becomes two, any other character stays. */
  lemma {:induction false} DoubledAppends(a: string, b: string)
    ensures Doubled(a + b) == Doubled(a) + Doubled(b)
  {
    if a == "" {
      assert a + b == b;
    } else {
      assert (a + b)[0] == a[0] && (a + b)[1..] == a[1..] + b;
      DoubledAppends(a[1..], b);
      Regroup(InQuotes(a[0]), Doubled(a[1..]), Doubled(b));
    }
  }

  lemma DoubledCharacter(c: char)
    ensures Doubled([c]) == if c == '"' then ['"', '"'] else [c]
  {
    assert [c][1..] == "";
    assert Doubled([c]) == InQuotes(c) + "";
  }

  /** Values are separated by tabs and rows end with a line feed. */
  lemma LinesHaveTabs(values: seq<string>, v: string)
    ensures Line([v]) == Encoded(v) + ['\n']
    ensures values != [] ==> Line([v] + values) == Encoded(v) + ['\t'] + Line(values)
  {
    assert EncodedAll([v]) == [Encoded(v)];
    if values != [] {
      assert EncodedAll([v] + values)[0] == Encoded(v);
      assert EncodedAll([v] + values)[1..] == EncodedAll(values);
    }
  }
}
