/** The content of the CSV export (`exportAnnotationsToCSV`, utils/csv.ts):
    a fixed header line, then one line per annotation with its start and end as
    seconds to three decimals and as `MM:SS.mmm`, and its text quoted as
    section 2, rule 7 of RFC 4180 asks (double quotes around the field, every
    inner double quote doubled). */
module Csv {
  import opened Types
  import opened Decimal
  import opened Strings
  import opened Time
  import opened FileName

  const HeaderFields: seq<string> :=
    ["start_time_seconds", "start_time_formatted", "end_time_seconds", "end_time_formatted", "annotation_text"]

  /** `headers.join(',')`. */
  const Header: string := Join(HeaderFields, ",")

  const Mime: string := "text/csv;charset=utf-8;"

  // ---------------------------------------------------------------------------
  // Seconds with three decimals: `t.toFixed(3)` for a time in whole milliseconds

  function UnsignedFixed3(n: nat): string {
    NatToString(n / 1000) + "." + PadStart(NatToString(n % 1000), 3, '0')
  }

  function ToFixed3(t: int): string {
    if t < 0 then "-" + UnsignedFixed3(-t) else UnsignedFixed3(t)
  }

  function ParseUnsignedFixed3(s: string): Option<nat> {
    if |s| < 5 || s[|s| - 4] != '.' then None
    else
      var whole, frac := s[..|s| - 4], s[|s| - 3..];
      if AllDigits(whole) && AllDigits(frac) then Some(Value(whole) * 1000 + Value(frac)) else None
  }

  /** Reads seconds with three decimals back into milliseconds. */
  function ParseFixed3(s: string): Option<int> {
    if |s| >= 1 && s[0] == '-' then
      match ParseUnsignedFixed3(s[1..])
      case Some(n) => Some(0 - n)
      case None => None
    else
      match ParseUnsignedFixed3(s)
      case Some(n) => Some(n as int)
      case None => None
  }

  predicate IsFixedChar(c: char) {
    IsDigit(c) || c == '.' || c == '-'
  }

  lemma UnsignedFixed3Layout(n: nat)
    ensures var s := UnsignedFixed3(n);
      && |s| >= 5 && s[|s| - 4] == '.' && s[0] != '-'
      && AllDigits(s[..|s| - 4]) && AllDigits(s[|s| - 3..])
      && Value(s[..|s| - 4]) * 1000 + Value(s[|s| - 3..]) == n
  {
    var w := NatToString(n / 1000);
    var f := PadStart(NatToString(n % 1000), 3, '0');
    ValueOfNatToString(n / 1000);
    PaddedValue(n % 1000, 3);
    var s := UnsignedFixed3(n);
    assert s == w + "." + f;
    assert s[..|s| - 4] == w;
    assert s[|s| - 3..] == f;
    assert s[0] == w[0];
  }

  lemma ParseUnsignedFixed3Back(n: nat)
    ensures ParseUnsignedFixed3(UnsignedFixed3(n)) == Some(n)
    ensures UnsignedFixed3(n)[0] != '-'
  {
    UnsignedFixed3Layout(n);
  }

  /** An unsigned rendering that reads back as n, and does not start with
      '-', reads back as n alone and as -n after a minus sign. */
  lemma ParseSigned(u: string, n: nat)
    requires |u| >= 1 && u[0] != '-' && ParseUnsignedFixed3(u) == Some(n)
    ensures ParseFixed3(u) == Some(n as int) && ParseFixed3("-" + u) == Some(-(n as int))
  {
    assert ("-" + u)[0] == '-' && ("-" + u)[1..] == u;
  }

  /** The three-decimal rendering of a time reads back as that time. */
  lemma ParseToFixed3(t: int)
    ensures ParseFixed3(ToFixed3(t)) == Some(t)
  {
    var n := if t < 0 then -t else t;
    UnsignedFixed3Layout(n);
    ParseUnsignedFixed3Back(n);
    ParseSigned(UnsignedFixed3(n), n);
  }

  lemma DigitsDotDigits(w: string, f: string)
    requires AllDigits(w) && AllDigits(f)
    ensures forall i :: 0 <= i < |w + "." + f| ==> IsFixedChar((w + "." + f)[i])
  {
    var s := w + "." + f;
    forall i | 0 <= i < |s| ensures IsFixedChar(s[i]) {
      if i < |w| {
        assert s[i] == w[i];
      } else if i > |w| {
        assert s[i] == f[i - |w| - 1];
      }
    }
  }

  /** The seconds field holds digits, '.' and '-' only. */
  lemma FixedChars(t: int)
    ensures forall i :: 0 <= i < |ToFixed3(t)| ==> IsFixedChar(ToFixed3(t)[i])
  {
    var n := if t < 0 then -t else t;
    var w := NatToString(n / 1000);
    var f := PadStart(NatToString(n % 1000), 3, '0');
    PaddedValue(n % 1000, 3);
    DigitsDotDigits(w, f);
    var s := UnsignedFixed3(n);
    assert s == w + "." + f;
    if t < 0 {
      assert forall i :: 1 <= i < |ToFixed3(t)| ==> ToFixed3(t)[i] == s[i - 1];
    }
  }

  // ---------------------------------------------------------------------------
  // Quoting the text field: `"${text.replace(/"/g, '""')}"`

  function CountQuotes(t: string): nat {
    if t == [] then 0 else (if t[0] == '"' then 1 else 0) + CountQuotes(t[1..])
  }

  /** `text.replace(/"/g, '""')`: one character more for every double quote. */
  function EscapeQuotes(t: string): (r: string)
    ensures |r| == |t| + CountQuotes(t)
  {
    if t == [] then [] else (if t[0] == '"' then "\"\"" else [t[0]]) + EscapeQuotes(t[1..])
  }

  function QuoteField(t: string): string {
    "\"" + EscapeQuotes(t) + "\""
  }

  /** Undoes the doubling; a double quote that is not doubled is malformed. */
  function UnescapeQuotes(s: string): Option<string>
    decreases |s|
  {
    if s == [] then Some([])
    else if s[0] == '"' then
      if |s| >= 2 && s[1] == '"' then
        match UnescapeQuotes(s[2..])
        case Some(r) => Some("\"" + r)
        case None => None
      else None
    else
      match UnescapeQuotes(s[1..])
      case Some(r) => Some([s[0]] + r)
      case None => None
  }

  /** Strips the outer quotes of a quoted field and undoes the doubling. */
  function UnquoteField(f: string): Option<string> {
    if |f| >= 2 && f[0] == '"' && f[|f| - 1] == '"' then UnescapeQuotes(f[1..|f| - 1]) else None
  }

  lemma {:induction false} UnescapeEscape(t: string)
    ensures UnescapeQuotes(EscapeQuotes(t)) == Some(t)
  {
    if t != [] {
      UnescapeEscape(t[1..]);
      var e := EscapeQuotes(t);
      if t[0] == '"' {
        assert e[2..] == EscapeQuotes(t[1..]);
      } else {
        assert e[1..] == EscapeQuotes(t[1..]);
      }
      assert [t[0]] + t[1..] == t;
    }
  }

  /** The quoted field starts and ends with a double quote, is longer than the
      text by two plus its number of double quotes, has every inner double
      quote doubled, and unquoting it gives the text back. */
  lemma QuoteRoundTrip(t: string)
    ensures var q := QuoteField(t);
      && |q| == |t| + 2 + CountQuotes(t)
      && q[0] == '"' && q[|q| - 1] == '"'
      && UnquoteField(q) == Some(t)
  {
    var q := QuoteField(t);
    assert q[1..|q| - 1] == EscapeQuotes(t);
    UnescapeEscape(t);
  }

  lemma {:induction false} EscapeAvoids(t: string, c: char)
    requires c !in t && c != '"'
    ensures c !in EscapeQuotes(t)
  {
    if t != [] {
      EscapeAvoids(t[1..], c);
    }
  }

  // ---------------------------------------------------------------------------
  // Rows and content

  function CsvRow(a: Annotation): string {
    Join([ToFixed3(a.startTime), FormatTimestamp(a.startTime), ToFixed3(a.endTime),
          FormatTimestamp(a.endTime), QuoteField(a.text)], ",")
  }

  /** One row per annotation, in list order; each row reads back as its
      annotation's start, end and text. */
  function CsvRows(anns: seq<Annotation>): (rows: seq<string>)
    ensures |rows| == |anns| && forall k :: 0 <= k < |anns| ==> rows[k] == CsvRow(anns[k])
    ensures forall k :: 0 <= k < |anns| ==> DecodeRow(rows[k]) == Some((anns[k].startTime, anns[k].endTime, anns[k].text))
  {
    assert forall k :: 0 <= k < |anns| ==> DecodeRow(CsvRow(anns[k])) == Some((anns[k].startTime, anns[k].endTime, anns[k].text)) by {
      forall k | 0 <= k < |anns|
        ensures DecodeRow(CsvRow(anns[k])) == Some((anns[k].startTime, anns[k].endTime, anns[k].text))
      {
        RowRoundTrip(anns[k]);
      }
    }
    seq(|anns|, k requires 0 <= k < |anns| => CsvRow(anns[k]))
  }

  /** `[headers.join(','), ...rows].join('\n')`. */
  function CsvContent(anns: seq<Annotation>): string {
    Join([Header] + CsvRows(anns), "\n")
  }

  /** The file the export offers: nothing for an empty list; otherwise named
      from the sanitised video name, typed `text/csv`, and holding the header
      line, a line break and the rows joined by line breaks (so no trailing
      line break), whatever the texts hold. */
  function ExportCsv(anns: seq<Annotation>, videoName: string): (r: Option<Download>)
    ensures r.None? <==> |anns| == 0
    ensures r.Some? ==> r.value.fileName == SafeFileName(videoName) + "_annotations.csv"
    ensures r.Some? ==> r.value.mimeType == Mime
    ensures r.Some? ==> r.value.content == Header + "\n" + Join(CsvRows(anns), "\n")
  {
    if |anns| == 0 then None
    else
      assert CsvContent(anns) == Header + "\n" + Join(CsvRows(anns), "\n") by {
        JoinAppend([Header], CsvRows(anns), "\n");
      }
      Some(Download(SafeFileName(videoName) + "_annotations.csv", Mime, CsvContent(anns)))
  }

  /** A reader for one exported line, used to state what a line holds: split at
      commas, seconds from fields 0 and 2, text from everything after the
      fourth comma, unquoted. The application itself has no CSV reader. */
  function DecodeRow(line: string): Option<(int, int, string)> {
    var parts := Split(line, ',');
    if |parts| < 5 then None
    else
      match (ParseFixed3(parts[0]), ParseFixed3(parts[2]), UnquoteField(Join(parts[4..], ",")))
      case (Some(s), Some(e), Some(t)) => Some((s, e, t))
      case _ => None
  }

  lemma NoCommaInFields(t: int)
    ensures ',' !in ToFixed3(t) && ',' !in FormatTimestamp(t)
    ensures '\n' !in ToFixed3(t) && '\n' !in FormatTimestamp(t)
  {
    FixedChars(t);
    FormatChars(t);
  }

  /** A row's comma-separated fields are, in order, the start in seconds, the
      formatted start, the end in seconds, the formatted end, and (rejoined
      from the rest, as the text may hold commas) the quoted text; reading the
      row gives back the annotation's start, end and text. */
  lemma RowRoundTrip(a: Annotation)
    ensures var parts := Split(CsvRow(a), ',');
      && |parts| >= 5
      && parts[..4] == [ToFixed3(a.startTime), FormatTimestamp(a.startTime),
                        ToFixed3(a.endTime), FormatTimestamp(a.endTime)]
      && Join(parts[4..], ",") == QuoteField(a.text)
    ensures DecodeRow(CsvRow(a)) == Some((a.startTime, a.endTime, a.text))
  {
    var f0, f1, f2, f3, f4 := ToFixed3(a.startTime), FormatTimestamp(a.startTime),
                              ToFixed3(a.endTime), FormatTimestamp(a.endTime), QuoteField(a.text);
    NoCommaInFields(a.startTime);
    NoCommaInFields(a.endTime);
    JoinFive(f0, f1, f2, f3, f4);
    SplitFive(f0, f1, f2, f3, f4);
    var parts := Split(CsvRow(a), ',');
    assert parts[..4] == [f0, f1, f2, f3];
    assert parts[4..] == Split(f4, ',');
    JoinSplit(f4, ',');
    ParseToFixed3(a.startTime);
    ParseToFixed3(a.endTime);
    QuoteRoundTrip(a.text);
  }

  lemma JoinFive(f0: string, f1: string, f2: string, f3: string, f4: string)
    ensures Join([f0, f1, f2, f3, f4], ",") == f0 + "," + (f1 + "," + (f2 + "," + (f3 + "," + f4)))
  {
    assert [f0, f1, f2, f3, f4][1..] == [f1, f2, f3, f4];
    assert [f1, f2, f3, f4][1..] == [f2, f3, f4];
    assert [f2, f3, f4][1..] == [f3, f4];
    assert [f3, f4][1..] == [f4];
    assert Join([f3, f4], ",") == f3 + "," + f4;
    assert Join([f2, f3, f4], ",") == f2 + "," + (f3 + "," + f4);
    assert Join([f1, f2, f3, f4], ",") == f1 + "," + (f2 + "," + (f3 + "," + f4));
  }

  lemma SplitFive(f0: string, f1: string, f2: string, f3: string, f4: string)
    requires ',' !in f0 && ',' !in f1 && ',' !in f2 && ',' !in f3
    ensures Split(f0 + "," + (f1 + "," + (f2 + "," + (f3 + "," + f4))), ',')
         == [f0, f1, f2, f3] + Split(f4, ',')
  {
    SplitPiece(f3, ',', f4);
    SplitPiece(f2, ',', f3 + "," + f4);
    SplitPiece(f1, ',', f2 + "," + (f3 + "," + f4));
    SplitPiece(f0, ',', f1 + "," + (f2 + "," + (f3 + "," + f4)));
  }

  lemma RowAvoidsNewline(a: Annotation)
    requires '\n' !in a.text
    ensures '\n' !in CsvRow(a)
  {
    NoCommaInFields(a.startTime);
    NoCommaInFields(a.endTime);
    EscapeAvoids(a.text, '\n');
    var fields := [ToFixed3(a.startTime), FormatTimestamp(a.startTime), ToFixed3(a.endTime),
                   FormatTimestamp(a.endTime), QuoteField(a.text)];
    assert NoneContains(fields, '\n');
    JoinAvoids(fields, ",", '\n');
  }

  lemma HeaderAvoidsNewline()
    ensures '\n' !in Header
  {
    assert '\n' !in HeaderFields[0] && '\n' !in HeaderFields[1] && '\n' !in HeaderFields[2];
    assert '\n' !in HeaderFields[3] && '\n' !in HeaderFields[4];
    JoinAvoids(HeaderFields, ",", '\n');
  }

  /** When no text holds a line break, the exported content splits into exactly
      the header line followed by one line per annotation, in list order (so
      there is no trailing line break), and each line reads back as its
      annotation's start, end and text. */
  lemma ExportLines(anns: seq<Annotation>, videoName: string)
    requires |anns| >= 1
    requires forall k :: 0 <= k < |anns| ==> '\n' !in anns[k].text
    ensures var lines := Split(ExportCsv(anns, videoName).value.content, '\n');
      && |lines| == |anns| + 1
      && lines[0] == Header
      && forall k :: 0 <= k < |anns| ==>
           lines[k + 1] == CsvRow(anns[k])
           && DecodeRow(lines[k + 1]) == Some((anns[k].startTime, anns[k].endTime, anns[k].text))
  {
    var all := [Header] + CsvRows(anns);
    assert ExportCsv(anns, videoName).value.content == Join(all, "\n");
    forall i | 0 <= i < |all| ensures '\n' !in all[i] {
      if i == 0 {
        HeaderAvoidsNewline();
      } else {
        assert all[i] == CsvRow(anns[i - 1]);
        RowAvoidsNewline(anns[i - 1]);
      }
    }
    SplitJoin(all, '\n');
    forall k | 0 <= k < |anns|
      ensures DecodeRow(all[k + 1]) == Some((anns[k].startTime, anns[k].endTime, anns[k].text))
    {
      RowRoundTrip(anns[k]);
    }
  }
}
