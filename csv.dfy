/**
 * The text of a CSV export (client/src/App.tsx:1357-1361): a header line
 * of bare labels joined by commas behind a byte-order mark, then one line
 * per row whose cells are each wrapped in double quotes with every inner
 * double quote doubled, fields joined by `,` and lines by CRLF. A reader
 * of that format is defined beside the writer, and the two are shown to
 * be inverse.
 */
module Csv {
  import opened Wrappers
  import opened Text

  const Bom: char := '\U{FEFF}'
  const Crlf: string := "\r\n"

  /** `cell.replace(/"/g, '""')`. */
  function EscapeQuotes(s: string): (r: string)
    ensures |r| >= |s|
    ensures '"' !in s ==> r == s
  {
    if s == [] then []
    else (if s[0] == '"' then "\"\"" else [s[0]]) + EscapeQuotes(s[1..])
  }

  /** One quoted cell. */
  function QuoteCell(cell: string): string {
    "\"" + EscapeQuotes(cell) + "\""
  }

  function Quoted(row: seq<string>): seq<string> {
    seq(|row|, i requires 0 <= i < |row| => QuoteCell(row[i]))
  }

  /** One data line. */
  function RowLine(row: seq<string>): string {
    Join(Quoted(row), ",")
  }

  function RowLines(rows: seq<seq<string>>): seq<string> {
    seq(|rows|, i requires 0 <= i < |rows| => RowLine(rows[i]))
  }

  /** The header line: the byte-order mark, then the bare labels. */
  function HeaderLine(headers: seq<string>): (r: string)
    ensures |r| >= 1 && r[0] == Bom
  {
    [Bom] + Join(headers, ",")
  }

  /** `csvContent`. */
  function CsvText(headers: seq<string>, rows: seq<seq<string>>): (r: string)
    ensures |r| >= 1 && r[0] == Bom
  {
    Join([HeaderLine(headers)] + RowLines(rows), Crlf)
  }

  // ------------------------------------------------------------- the reader

  /**
   * The rest of a quoted cell after its opening quote: the cell's text up to
   * the closing quote, a doubled quote standing for one, and what follows
   * the closing quote; `None` when the closing quote is missing.
   */
  function Unescape(s: string): (r: Option<(string, string)>)
    ensures r.Some? ==> |r.value.1| < |s|
    decreases |s|
  {
    if s == [] then None
    else if s[0] == '"' then
      if |s| >= 2 && s[1] == '"' then
        match Unescape(s[2..])
        case None => None
        case Some(p) => Some(("\"" + p.0, p.1))
      else Some(("", s[1..]))
    else
      match Unescape(s[1..])
      case None => None
      case Some(p) => Some(([s[0]] + p.0, p.1))
  }

  /** One quoted cell at the start of `s`, and what follows it. */
  function ReadCell(s: string): (r: Option<(string, string)>)
    ensures r.Some? ==> |r.value.1| < |s|
  {
    if s != [] && s[0] == '"' then Unescape(s[1..]) else None
  }

  /** The cells of a non-empty line: quoted cells separated by commas, up to the first thing that is not a comma. */
  function ReadCells(s: string): (r: Option<(seq<string>, string)>)
    ensures r.Some? ==> |r.value.1| < |s|
    decreases |s|
  {
    match ReadCell(s)
    case None => None
    case Some(p) =>
      if p.1 != [] && p.1[0] == ',' then
        match ReadCells(p.1[1..])
        case None => None
        case Some(q) => Some(([p.0] + q.0, q.1))
      else Some(([p.0], p.1))
  }

  predicate AtLineEnd(s: string) {
    s == [] || (|s| >= 2 && s[..2] == Crlf)
  }

  /** One data line; an empty line is a row without cells. */
  function ReadRow(s: string): (r: Option<(seq<string>, string)>)
    ensures r.Some? ==> |r.value.1| <= |s|
  {
    if AtLineEnd(s) then Some(([], s))
    else
      match ReadCells(s)
      case None => None
      case Some(p) => if AtLineEnd(p.1) then Some(p) else None
  }

  /** The data lines: rows separated by CRLF up to the end of the text. */
  function ReadRows(s: string): Option<seq<seq<string>>>
    decreases |s|
  {
    match ReadRow(s)
    case None => None
    case Some(p) =>
      if p.1 == [] then Some([p.0])
      else
        match ReadRows(p.1[2..])
        case None => None
        case Some(rest) => Some([p.0] + rest)
  }

  /** The labels of the header line: the text split at every comma. */
  function SplitCommas(s: string): (r: seq<string>)
    ensures |r| >= 1
    decreases |s|
  {
    if s == [] then [""]
    else
      var rest := SplitCommas(s[1..]);
      if s[0] == ',' then [""] + rest else [[s[0]] + rest[0]] + rest[1..]
  }

  /** The header line, which runs up to the first carriage return. */
  function LineLength(s: string): (n: nat)
    ensures n <= |s|
    ensures forall i :: 0 <= i < n ==> s[i] != '\r'
    ensures n < |s| ==> s[n] == '\r'
  {
    if s == [] || s[0] == '\r' then 0 else 1 + LineLength(s[1..])
  }

  /** Reads an export back into its labels and its rows. */
  function ReadCsv(text: string): Option<(seq<string>, seq<seq<string>>)> {
    if text == [] || text[0] != Bom then None
    else
      var body := text[1..];
      var n := LineLength(body);
      var headers := SplitCommas(body[..n]);
      if n == |body| then Some((headers, []))
      else if AtLineEnd(body[n..]) then
        match ReadRows(body[n + 2..])
        case None => None
        case Some(rows) => Some((headers, rows))
      else None
  }

  // ------------------------------------------------------------ round trips

  /** Reading a quoted cell gives back the cell and leaves what follows, unless that starts with a quote. */
  lemma {:induction false} UnescapeEscaped(cell: string, rest: string)
    requires rest == [] || rest[0] != '"'
    ensures Unescape(EscapeQuotes(cell) + "\"" + rest) == Some((cell, rest))
    decreases |cell|
  {
    if cell == [] {
      assert EscapeQuotes(cell) + "\"" + rest == "\"" + rest;
      assert ("\"" + rest)[1..] == rest;
    } else {
      UnescapeEscaped(cell[1..], rest);
      UnescapeEscapedCons(cell[0], cell[1..], rest);
      assert [cell[0]] + cell[1..] == cell;
    }
  }

  /** One more character in front of the cell is read back in front of it. */
  lemma UnescapeEscapedCons(x: char, c: string, rest: string)
    requires Unescape(EscapeQuotes(c) + "\"" + rest) == Some((c, rest))
    ensures Unescape(EscapeQuotes([x] + c) + "\"" + rest) == Some(([x] + c, rest))
  {
    var tail := EscapeQuotes(c) + "\"" + rest;
    assert ([x] + c)[1..] == c;
    if x == '"' {
      assert EscapeQuotes([x] + c) + "\"" + rest == "\"\"" + tail;
      UnescapeDoubled(tail, c, rest);
    } else {
      assert EscapeQuotes([x] + c) + "\"" + rest == [x] + tail;
      UnescapeOther(x, tail, c, rest);
    }
  }

  /** A doubled quote reads as one quote of the cell. */
  lemma UnescapeDoubled(tail: string, c: string, r: string)
    requires Unescape(tail) == Some((c, r))
    ensures Unescape("\"\"" + tail) == Some(("\"" + c, r))
  {
    assert ("\"\"" + tail)[2..] == tail;
  }

  /** Any other character reads as itself. */
  lemma UnescapeOther(x: char, tail: string, c: string, r: string)
    requires x != '"' && Unescape(tail) == Some((c, r))
    ensures Unescape([x] + tail) == Some(([x] + c, r))
  {
    assert ([x] + tail)[1..] == tail;
  }

  /** Unquoting a quoted cell returns `String(cell)`. */
  lemma ReadQuotedCell(cell: string, rest: string)
    requires rest == [] || rest[0] != '"'
    ensures ReadCell(QuoteCell(cell) + rest) == Some((cell, rest))
  {
    assert (QuoteCell(cell) + rest)[1..] == EscapeQuotes(cell) + "\"" + rest;
    UnescapeEscaped(cell, rest);
  }

  /** Reading the cells of a non-empty line gives back the row, when what follows starts with neither a comma nor a quote. */
  lemma {:induction false} ReadCellsOfLine(row: seq<string>, rest: string)
    requires row != []
    requires rest == [] || (rest[0] != ',' && rest[0] != '"')
    ensures ReadCells(RowLine(row) + rest) == Some((row, rest))
    decreases |row|
  {
    var q := Quoted(row);
    if |row| == 1 {
      assert q[0] == QuoteCell(row[0]);
      assert RowLine(row) == QuoteCell(row[0]);
      ReadQuotedCell(row[0], rest);
      assert [row[0]] == row;
    } else {
      assert q[1..] == Quoted(row[1..]);
      assert RowLine(row) == QuoteCell(row[0]) + "," + RowLine(row[1..]);
      assert RowLine(row) + rest == QuoteCell(row[0]) + ("," + (RowLine(row[1..]) + rest));
      ReadCellsOfLine(row[1..], rest);
      ReadCellsCons(row[0], RowLine(row[1..]) + rest, row[1..], rest);
      assert [row[0]] + row[1..] == row;
    }
  }

  /** A quoted cell, a comma, and cells that read back as `more` read back as the cell followed by `more`. */
  lemma ReadCellsCons(cell: string, tail: string, more: seq<string>, rest: string)
    requires ReadCells(tail) == Some((more, rest))
    ensures ReadCells(QuoteCell(cell) + ("," + tail)) == Some(([cell] + more, rest))
  {
    ReadQuotedCell(cell, "," + tail);
    assert ("," + tail)[1..] == tail;
  }

  /** Reading a data line gives back its row, for any row, when the line ends there. */
  lemma ReadRowOfLine(row: seq<string>, rest: string)
    requires AtLineEnd(rest)
    ensures ReadRow(RowLine(row) + rest) == Some((row, rest))
  {
    if row == [] {
      assert RowLine(row) + rest == rest;
    } else {
      assert QuoteCell(row[0])[0] == '"';
      assert Quoted(row)[0] == QuoteCell(row[0]);
      JoinStartsWithFirst(Quoted(row), ",");
      assert (RowLine(row) + rest)[0] == '"';
      ReadCellsOfLine(row, rest);
    }
  }

  lemma {:induction false} JoinStartsWithFirst(parts: seq<string>, sep: string)
    requires parts != []
    ensures |Join(parts, sep)| >= |parts[0]| && Join(parts, sep)[..|parts[0]|] == parts[0]
  {
    if |parts| > 1 {
      assert Join(parts, sep) == parts[0] + (sep + Join(parts[1..], sep));
    }
  }

  /** The data lines read back into the rows, for every non-empty list of rows. */
  lemma {:induction false} ReadRowsOfLines(rows: seq<seq<string>>)
    requires rows != []
    ensures ReadRows(Join(RowLines(rows), Crlf)) == Some(rows)
    decreases |rows|
  {
    var lines := RowLines(rows);
    if |rows| == 1 {
      assert lines[0] == RowLine(rows[0]);
      assert Join(lines, Crlf) == RowLine(rows[0]) + "";
      ReadRowOfLine(rows[0], "");
      assert [rows[0]] == rows;
    } else {
      assert lines[1..] == RowLines(rows[1..]);
      var tail := Join(RowLines(rows[1..]), Crlf);
      assert Join(lines, Crlf) == RowLine(rows[0]) + (Crlf + tail);
      ReadRowsOfLines(rows[1..]);
      ReadRowsCons(rows[0], tail, rows[1..]);
      assert [rows[0]] + rows[1..] == rows;
    }
  }

  /** A data line, a CRLF, and lines that read back as `more` read back as the row followed by `more`. */
  lemma ReadRowsCons(row: seq<string>, tail: string, more: seq<seq<string>>)
    requires ReadRows(tail) == Some(more)
    ensures ReadRows(RowLine(row) + (Crlf + tail)) == Some([row] + more)
  {
    assert (Crlf + tail)[..2] == Crlf;
    ReadRowOfLine(row, Crlf + tail);
    assert (Crlf + tail)[2..] == tail;
  }

  /** Splitting a comma-joined list of comma-free labels gives back the labels. */
  lemma {:induction false} SplitJoined(headers: seq<string>)
    requires headers != []
    requires forall i :: 0 <= i < |headers| ==> ',' !in headers[i]
    ensures SplitCommas(Join(headers, ",")) == headers
    decreases |headers|
  {
    if |headers| == 1 {
      SplitPlain(headers[0], "");
      assert headers[0] + "" == headers[0];
    } else {
      SplitJoined(headers[1..]);
      var tail := Join(headers[1..], ",");
      assert Join(headers, ",") == headers[0] + ("," + tail);
      SplitPlain(headers[0], "," + tail);
      assert SplitCommas("," + tail) == [""] + headers[1..] by {
        assert ("," + tail)[1..] == tail;
      }
      assert headers[0] + "" == headers[0];
      assert [headers[0]] + headers[1..] == headers;
    }
  }

  /** Splitting a comma-free word followed by more text extends the first piece by the word. */
  lemma {:induction false} SplitPlain(word: string, rest: string)
    requires ',' !in word
    ensures var r := SplitCommas(word + rest);
      r == [word + SplitCommas(rest)[0]] + SplitCommas(rest)[1..]
    decreases |word|
  {
    var tail := SplitCommas(rest);
    if word == [] {
      assert word + rest == rest;
      assert tail == [tail[0]] + tail[1..];
      assert word + tail[0] == tail[0];
    } else {
      assert (word + rest)[0] == word[0] != ',';
      assert (word + rest)[1..] == word[1..] + rest;
      SplitPlain(word[1..], rest);
      var r1 := SplitCommas(word[1..] + rest);
      assert r1[0] == word[1..] + tail[0];
      assert r1[1..] == tail[1..];
      assert [word[0]] + (word[1..] + tail[0]) == word + tail[0];
    }
  }

  /** A CR-free text is one line. */
  lemma {:induction false} LineLengthOfLine(line: string, rest: string)
    requires '\r' !in line
    requires rest == [] || rest[0] == '\r'
    ensures LineLength(line + rest) == |line|
    decreases |line|
  {
    if line != [] {
      assert (line + rest)[1..] == line[1..] + rest;
      LineLengthOfLine(line[1..], rest);
    }
  }

  /**
   * An export reads back into its labels and rows, provided there is at
   * least one word and no word has a comma or a carriage return in it
   * (the labels are written bare, so those would split them).
   */
  lemma ReadWrittenCsv(headers: seq<string>, rows: seq<seq<string>>)
    requires headers != []
    requires forall i :: 0 <= i < |headers| ==> ',' !in headers[i] && '\r' !in headers[i]
    ensures ReadCsv(CsvText(headers, rows)) == Some((headers, rows))
  {
    var text := CsvText(headers, rows);
    var head := Join(headers, ",");
    JoinNoChar(headers, ",", '\r');
    SplitJoined(headers);
    var body := text[1..];
    if rows == [] {
      assert text == HeaderLine(headers);
      assert body == head;
      LineLengthOfLine(head, "");
      assert head + "" == head;
    } else {
      var tail := Join(RowLines(rows), Crlf);
      assert [HeaderLine(headers)] + RowLines(rows) == [HeaderLine(headers)] + RowLines(rows);
      assert ([HeaderLine(headers)] + RowLines(rows))[1..] == RowLines(rows);
      assert text == HeaderLine(headers) + Crlf + tail;
      assert body == head + (Crlf + tail);
      LineLengthOfLine(head, Crlf + tail);
      assert body[|head|..] == Crlf + tail;
      assert (Crlf + tail)[..2] == Crlf;
      assert body[|head| + 2..] == tail;
      ReadRowsOfLines(rows);
    }
    assert body[..LineLength(body)] == head;
  }

  /** Joining texts that lack a character with a separator that lacks it gives a text that lacks it. */
  lemma {:induction false} JoinNoChar(parts: seq<string>, sep: string, c: char)
    requires c !in sep
    requires forall i :: 0 <= i < |parts| ==> c !in parts[i]
    ensures c !in Join(parts, sep)
    decreases |parts|
  {
    if |parts| > 1 {
      JoinNoChar(parts[1..], sep, c);
    }
  }
}
