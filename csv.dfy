/**
 * The row serialiser of scraper/csv.py: to_csv wraps every column in single
 * quotes, joins them with commas and ends the row with a newline; item_to_csv
 * lays out the eight columns of a decoded item.
 */
module Csv {
  import opened Wrappers
  import opened Text
  import opened Codes
  import CodesProperties

  const QUOTE: char := '\''

  /** "'%s'" % s */
  function Quote(s: string): (r: string)
    ensures |r| == |s| + 2 && r[0] == QUOTE && r[|r| - 1] == QUOTE && r[1..|r| - 1] == s
  {
    [QUOTE] + s + [QUOTE]
  }

  /** ','.join(map(quote, columns)): the empty string for no columns. */
  function JoinQuoted(columns: seq<string>): string {
    if columns == [] then ""
    else if |columns| == 1 then Quote(columns[0])
    else Quote(columns[0]) + "," + JoinQuoted(columns[1..])
  }

  /**
   * to_csv: the quoted, comma-joined columns and one newline. Round trip: when
   * no column contains a quote, the row reads back as exactly its columns.
   */
  function ToCsv(columns: seq<string>): (r: string)
    ensures |r| >= 1 && r[|r| - 1] == '\n'
    ensures r[..|r| - 1] == JoinQuoted(columns)
    ensures (forall k :: 0 <= k < |columns| ==> NoQuote(columns[k])) ==> ParseRow(r) == Some(columns)
  {
    var r := JoinQuoted(columns) + "\n";
    assert r[..|r| - 1] == JoinQuoted(columns);
    if columns != [] && forall k :: 0 <= k < |columns| ==> NoQuote(columns[k]) then
      ParseFieldsJoin(columns);
      assert JoinQuoted(columns) != [];
      r
    else
      r
  }

  /** The header row written before the items. */
  const HEADERS: seq<string> := ["raw_code", "item_line", "item_gender", "item_season", "item_year", "item_code", "item_fabric", "item_colour"]

  /** The columns of item_to_csv, in the order of HEADERS; the season is the registry's stored token. */
  function ItemColumns(rawCode: string, d: Decoded): (cols: seq<string>)
    ensures |cols| == |HEADERS|
  {
    [rawCode, d.line, d.gender, d.collection.season, d.collection.year, d.itemCode, d.fabricCode, d.colourCode]
  }

  /** item_to_csv on the raw code and the decoded attributes of an item. */
  function ItemToCsv(rawCode: string, d: Decoded): string {
    ToCsv(ItemColumns(rawCode, d))
  }

  /** item_to_csv on an ItemCode object: defined once decode has filled its attributes in. */
  function ItemRow(item: ItemCode): string
    reads item
    requires item.Record().Some?
  {
    ItemToCsv(item.rawCode, item.Record().value)
  }

  // ---------------------------------------------------------------------------
  // Reading a row back

  predicate NoQuote(s: string) {
    forall i :: 0 <= i < |s| ==> s[i] != QUOTE
  }

  /** The position of the first quote in s, or |s| when there is none. */
  function QuoteIndex(s: string): (n: nat)
    ensures n <= |s|
    ensures forall i :: 0 <= i < n ==> s[i] != QUOTE
    ensures n < |s| ==> s[n] == QUOTE
  {
    if s == [] || s[0] == QUOTE then 0 else 1 + QuoteIndex(s[1..])
  }

  /** Parse "'f1','f2',...,'fn'" (n >= 1), each field running to the next quote. */
  function ParseFields(s: string): Option<seq<string>>
    decreases |s|
  {
    if s == [] || s[0] != QUOTE then None
    else
      var body := s[1..];
      var n := QuoteIndex(body);
      if n == |body| then None
      else
        var rest := body[n + 1..];
        if rest == [] then Some([body[..n]])
        else if rest[0] != ',' then None
        else match ParseFields(rest[1..])
          case None => None
          case Some(fields) => Some([body[..n]] + fields)
  }

  /** Read a row written by to_csv back into its columns. */
  function ParseRow(line: string): Option<seq<string>> {
    if line == [] || line[|line| - 1] != '\n' then None
    else if line[..|line| - 1] == [] then Some([])
    else ParseFields(line[..|line| - 1])
  }

  // ---------------------------------------------------------------------------
  // Properties

  /** No columns give just the newline. */
  lemma ToCsvEmpty()
    ensures ToCsv([]) == "\n"
  {
  }

  /** A single value is written verbatim between quotes, whatever it contains. */
  lemma ToCsvSingle(v: string)
    ensures ToCsv([v]) == [QUOTE] + v + [QUOTE, '\n']
  {
  }

  /** Columns are written in order: the first, quoted, then a comma and the rest. */
  lemma ToCsvCons(c: string, rest: seq<string>)
    requires rest != []
    ensures ToCsv([c] + rest) == Quote(c) + "," + ToCsv(rest)
  {
    assert ([c] + rest)[1..] == rest;
  }

  /** A quoted value followed by x: a quote, then the value, its closing quote and x. */
  lemma QuotedThen(v: string, x: string)
    ensures (Quote(v) + x)[0] == QUOTE && (Quote(v) + x)[1..] == v + [QUOTE] + x
  {
  }

  /** A quote-free value, a quote and a tail: the first quote closes the value. */
  lemma CutAtQuote(v: string, tail: string)
    requires NoQuote(v)
    ensures var b := v + [QUOTE] + tail;
      QuoteIndex(b) == |v| && b[..|v|] == v && b[|v| + 1..] == tail
  {
    var b := v + [QUOTE] + tail;
    assert b[|v|] == QUOTE;
    assert forall i :: 0 <= i < |v| ==> b[i] == v[i];
  }

  /** The last field: a quoted quote-free value alone is read as that one value. */
  lemma ParseFieldsLast(c: string)
    requires NoQuote(c)
    ensures ParseFields(Quote(c)) == Some([c])
  {
    QuotedThen(c, []);
    CutAtQuote(c, []);
    assert Quote(c) + [] == Quote(c);
  }

  /** A quoted quote-free value, a comma and a readable rest are read as the value followed by the rest's fields. */
  lemma ParseFieldsCons(c: string, tail: string)
    requires NoQuote(c)
    requires ParseFields(tail).Some?
    ensures ParseFields(Quote(c) + "," + tail) == Some([c] + ParseFields(tail).value)
  {
    var x := "," + tail;
    QuotedThen(c, x);
    CutAtQuote(c, x);
    assert Quote(c) + "," + tail == Quote(c) + x;
    assert x[0] == ',' && x[1..] == tail;
  }

  /** A single quote-free column is read back as itself. */
  lemma ParseFieldsJoinOne(columns: seq<string>)
    requires |columns| == 1 && NoQuote(columns[0])
    ensures ParseFields(JoinQuoted(columns)) == Some(columns)
  {
    ParseFieldsLast(columns[0]);
    assert columns == [columns[0]];
  }

  /** A quote-free first column in front of columns that read back: the whole row reads back. */
  lemma ParseFieldsJoinCons(columns: seq<string>)
    requires |columns| >= 2 && NoQuote(columns[0])
    requires ParseFields(JoinQuoted(columns[1..])) == Some(columns[1..])
    ensures ParseFields(JoinQuoted(columns)) == Some(columns)
  {
    var c, rest := columns[0], columns[1..];
    assert [c] + rest == columns;
    ParseFieldsCons(c, JoinQuoted(rest));
    JoinQuotedCons(columns);
  }

  /** The join of two or more columns: the first quoted, a comma, then the join of the rest. */
  lemma JoinQuotedCons(columns: seq<string>)
    requires |columns| >= 2
    ensures JoinQuoted(columns) == Quote(columns[0]) + "," + JoinQuoted(columns[1..])
  {
  }

  /** The columns after the first of quote-free columns are quote-free. */
  lemma QuoteFreeRest(columns: seq<string>)
    requires columns != []
    requires forall k :: 0 <= k < |columns| ==> NoQuote(columns[k])
    ensures forall k :: 0 <= k < |columns[1..]| ==> NoQuote(columns[1..][k])
  {
    forall k | 0 <= k < |columns[1..]|
      ensures NoQuote(columns[1..][k])
    {
      assert columns[1..][k] == columns[k + 1];
    }
  }

  /** The fields of a non-empty list of quote-free columns are read back as they were written. */
  lemma {:induction false} ParseFieldsJoin(columns: seq<string>)
    requires columns != []
    requires forall k :: 0 <= k < |columns| ==> NoQuote(columns[k])
    ensures ParseFields(JoinQuoted(columns)) == Some(columns)
    decreases |columns|
  {
    if |columns| == 1 {
      ParseFieldsJoinOne(columns);
    } else {
      QuoteFreeRest(columns);
      ParseFieldsJoin(columns[1..]);
      ParseFieldsJoinCons(columns);
    }
  }

  /** to_csv does no escaping: a quote and a comma inside one value make it read as two columns. */
  lemma ToCsvIsAmbiguous(a: string, b: string)
    ensures ToCsv([a + "','" + b]) == ToCsv([a, b])
  {
    assert [a, b][1..] == [b];
    assert JoinQuoted([a, b]) == Quote(a) + "," + Quote(b);
    assert Quote(a + "','" + b) == Quote(a) + "," + Quote(b);
  }

  /** The item row has one column per header, with the header names in item_to_csv's order. */
  lemma ItemColumnsMatchHeaders(rawCode: string, d: Decoded)
    ensures var cols := ItemColumns(rawCode, d);
      cols[0] == rawCode && HEADERS[0] == "raw_code" &&
      cols[1] == d.line && HEADERS[1] == "item_line" &&
      cols[2] == d.gender && HEADERS[2] == "item_gender" &&
      cols[3] == d.collection.season && HEADERS[3] == "item_season" &&
      cols[4] == d.collection.year && HEADERS[4] == "item_year" &&
      cols[5] == d.itemCode && HEADERS[5] == "item_code" &&
      cols[6] == d.fabricCode && HEADERS[6] == "item_fabric" &&
      cols[7] == d.colourCode && HEADERS[7] == "item_colour"
  {
  }

  /** The season column of a decoded item is the stored token "FW" or "SS", never the canonical "F" or "S". */
  lemma ItemSeasonIsStoredToken(rawCode: string)
    requires Decoding(rawCode).Ok?
    ensures var season := ItemColumns(rawCode, Decoding(rawCode).value)[3]; season == "FW" || season == "SS"
  {
    var d := Decoding(rawCode).value;
    CodesProperties.DecodedSeasonIsToken(rawCode);
    ItemColumnsMatchHeaders(rawCode, d);
  }

  /** An item row of quote-free columns reads back to the eight columns. */
  lemma ParseItemRow(rawCode: string, d: Decoded)
    requires forall k :: 0 <= k < |HEADERS| ==> NoQuote(ItemColumns(rawCode, d)[k])
    ensures ParseRow(ItemToCsv(rawCode, d)) == Some(ItemColumns(rawCode, d))
  {
    var cols := ItemColumns(rawCode, d);
    assert forall k :: 0 <= k < |cols| ==> NoQuote(cols[k]);
  }
}
