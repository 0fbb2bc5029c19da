/**
 * The product-code decoder of owenscrape/codes.py: the line and collection
 * registries, season canonicalisation, the collection search, and NewCode's
 * decode, which reads a label code such as "DU15F5152-R 09" as
 * line (2) | year (2) | season (1) | item digits | fabric letters | colour digits.
 */
module Codes {
  import opened Wrappers
  import opened Text

  // ---------------------------------------------------------------------------
  // Line registry

  /** A LINES value: the product line's display name and its target gender. */
  datatype LineEntry = LineEntry(line: string, gender: string)

  /** LINES. The source lists "RW" twice with the same value; a map display keeps the last, as a dict literal does. */
  const LINES: map<string, LineEntry> := map[
    "BK" := LineEntry("Books", "N/A"),
    "BM" := LineEntry("Birkenstock", "Unisex"),
    "BW" := LineEntry("Birkenstock", "Women"),
    "CM" := LineEntry("Champion", "Men"),
    "CW" := LineEntry("Champion", "Women"),
    "DL" := LineEntry("DRKSHDW MiJ Capsule", "Unisex"),
    "DS" := LineEntry("DRKSHDW", "Women"),
    "DU" := LineEntry("DRKSHDW", "Men"),
    "HD" := LineEntry("Hunrod", "Women"),
    "HU" := LineEntry("Hunrod", "Unisex"),
    "LI" := LineEntry("Lilies", "Women"),
    "NX" := LineEntry("DRKSHDW Unknown", "Unisex"),
    "PM" := LineEntry("Palais Royale", "Men"),
    "PR" := LineEntry("Palais Royale", "Women"),
    "RA" := LineEntry("Accessories", "Unisex"),
    "RB" := LineEntry("Accessories", "Unisex"),
    "RF" := LineEntry("Forever", "Unisex"),
    "RM" := LineEntry("Precollection Adidas", "Unisex"),
    "RO" := LineEntry("Runway", "Women"),
    "RP" := LineEntry("Precollection", "Women"),
    "RR" := LineEntry("Runway", "Men"),
    "RU" := LineEntry("Precollection", "Men"),
    "RV" := LineEntry("Collectables", "Unisex"),
    "RW" := LineEntry("Runway Adidas", "Unisex"),
    "RW" := LineEntry("Runway Adidas", "Unisex"),
    "VM" := LineEntry("Veja", "Men"),
    "VW" := LineEntry("Veja", "Women")
  ]

  // ---------------------------------------------------------------------------
  // Collection registry

  /** A release: two-digit year, name, and the season token as stored ("FW" or "SS"). */
  datatype Collection = Collection(year: string, name: string, season: string)

  /** COLLECTIONS, in declaration order (the order the search scans), as five runs of consecutive years. */
  const COLLECTIONS: seq<Collection> :=
    COLLECTIONS_2020_2016 + COLLECTIONS_2015_2011 + COLLECTIONS_2010_2006 + COLLECTIONS_2005_2003 + COLLECTIONS_2002

  /** The entries of 2020 to 2016. */
  const COLLECTIONS_2020_2016: seq<Collection> := [
    Collection("20", "PERFORMA", "FW"),
    Collection("20", "TECUATL", "SS"),
    Collection("19", "LARRY", "FW"),
    Collection("19", "BABEL", "SS"),
    Collection("18", "SISYPHUS", "FW"),
    Collection("18", "DIRT", "SS"),
    Collection("17", "GLITTER", "FW"),
    Collection("17", "WALRUS", "SS"),
    Collection("16", "MASTODON", "FW"),
    Collection("16", "CYCLOPS", "SS")
  ]

  /** The entries of 2015 to 2011. */
  const COLLECTIONS_2015_2011: seq<Collection> := [
    Collection("15", "SPHINX", "FW"),
    Collection("15", "FAUN", "SS"),
    Collection("14", "MOODY", "FW"),
    Collection("14", "VICIOUS", "SS"),
    Collection("13", "PLINTH", "FW"),
    Collection("13", "ISLAND", "SS"),
    Collection("12", "MOUNTAIN", "FW"),
    Collection("12", "NASKA", "SS"),
    Collection("11", "LIMO", "FW"),
    Collection("11", "ANTHEM", "SS")
  ]

  /** The entries of 2010 to 2006. */
  const COLLECTIONS_2010_2006: seq<Collection> := [
    Collection("10", "GLEAM", "FW"),
    Collection("10", "RELEASE", "SS"),
    Collection("09", "CRUST", "FW"),
    Collection("09", "STRUTTER", "SS"),
    Collection("08", "STAG", "FW"),
    Collection("08", "CREATCH", "SS"),
    Collection("07", "EXPLODER", "FW"),
    Collection("07", "WISHBONE", "SS"),
    Collection("06", "REVILLON", "FW"),
    Collection("06", "DUSTULATOR", "FW"),
    Collection("06", "TUNGSTEN", "SS")
  ]

  /** The entries of 2005 to 2003. */
  const COLLECTIONS_2005_2003: seq<Collection> := [
    Collection("05", "MOOG", "FW"),
    Collection("05", "SCORPIO", "SS"),
    Collection("04", "REVILLON", "FW"),
    Collection("04", "QUEEN", "FW"),
    Collection("04", "CITROEN", "SS"),
    Collection("03", "REVILLON", "FW"),
    Collection("03", "TRUCKER", "FW"),
    Collection("03", "SUKERBALL", "SS")
  ]

  /** The one entry of 2002. */
  const COLLECTIONS_2002: seq<Collection> := [
    Collection("02", "SPARROWS", "FW")
  ]

  // ---------------------------------------------------------------------------
  // Errors

  /** The component a ParseCodeFailedException names. */
  datatype Component = Line | Year | Season

  datatype CodeError =
    /** ParseCodeFailedException(raw_code, component) */
    | ParseCodeFailed(rawCode: string, component: Component)
    /** The bare ValueError of find_collection: a well-formed (year, season) the registry lacks. */
    | CollectionNotFound(year: string, season: string)

  // ---------------------------------------------------------------------------
  // Seasons and the collection search

  /** canonicalise_season: "FW", "AW", "F" give "F"; "SS", "S" give "S", ignoring case. */
  function CanonicaliseSeason(season: string): (r: Result<string, CodeError>)
    ensures r.Ok? ==> r.value == "F" || r.value == "S"
    ensures r.Err? ==> r.error == ParseCodeFailed(Upper(season), Season)
  {
    var s := Upper(season);
    if s in {"FW", "AW", "F"} then Ok("F")
    else if s in {"SS", "S"} then Ok("S")
    else Err(ParseCodeFailed(s, Season))
  }

  /** The test find_collection applies to an entry: same year, and its stored season canonicalises to `canon`. */
  predicate Matches(c: Collection, year: string, canon: string) {
    c.year == year && CanonicaliseSeason(c.season) == Ok(canon)
  }

  /** Entry k is the first entry of the registry, in order, that matches. */
  predicate IsFirstMatch(registry: seq<Collection>, k: int, year: string, canon: string) {
    0 <= k < |registry| && Matches(registry[k], year, canon) &&
    forall j :: 0 <= j < k ==> !Matches(registry[j], year, canon)
  }

  /**
   * The scan of find_collection over a registry from entry i on, as written:
   * the stored season is canonicalised only for an entry of the right year.
   */
  function ScanFrom(registry: seq<Collection>, year: string, canon: string, i: nat): Result<Collection, CodeError>
    requires i <= |registry|
    decreases |registry| - i
  {
    if i == |registry| then Err(CollectionNotFound(year, canon))
    else if registry[i].year != year then ScanFrom(registry, year, canon, i + 1)
    else match CanonicaliseSeason(registry[i].season)
      case Err(e) => Err(e)
      case Ok(s) => if s == canon then Ok(registry[i]) else ScanFrom(registry, year, canon, i + 1)
  }

  /** find_collection as a function: the query season is validated before anything is scanned. */
  function CollectionFor(year: string, season: string): Result<Collection, CodeError> {
    match CanonicaliseSeason(season)
    case Err(e) => Err(e)
    case Ok(canon) => ScanFrom(COLLECTIONS, year, canon, 0)
  }

  /** find_collection: canonicalise the query, then a linear scan with early return. */
  method FindCollection(year: string, season: string) returns (r: Result<Collection, CodeError>)
    ensures r == CollectionFor(year, season)
  {
    var canon :- CanonicaliseSeason(season);
    var i := 0;
    while i < |COLLECTIONS|
      invariant 0 <= i <= |COLLECTIONS|
      invariant ScanFrom(COLLECTIONS, year, canon, i) == ScanFrom(COLLECTIONS, year, canon, 0)
    {
      var c := COLLECTIONS[i];
      if c.year == year {
        var stored :- CanonicaliseSeason(c.season);
        if stored == canon {
          return Ok(c);
        }
      }
      i := i + 1;
    }
    return Err(CollectionNotFound(year, canon));
  }

  /** valid_years in decode: every year some collection has. */
  function ValidYears(): set<string> {
    set i | 0 <= i < |COLLECTIONS| :: COLLECTIONS[i].year
  }

  // ---------------------------------------------------------------------------
  // Segmenting the free-form remainder

  /** The regular expressions of component_sequence: "\\d" and "[A-Z]". */
  datatype CharClass = Digit | Letter

  predicate InClass(c: char, k: CharClass) {
    match k
    case Digit => IsDigit(c)
    case Letter => IsUpperLetter(c)
  }

  /** The keys of the `codes` dict. */
  datatype Field = Item | Fabric | Colour

  /** component_sequence: item digits, fabric letters, colour digits, in this order. */
  const COMPONENT_SEQUENCE: seq<(Field, CharClass)> := [(Item, Digit), (Fabric, Letter), (Colour, Digit)]

  /** codes before the loops: every field empty. */
  const EMPTY_CODES: map<Field, string> := map[Item := "", Fabric := "", Colour := ""]

  /** The number of leading characters of s in class k. */
  function RunLength(s: string, k: CharClass): (n: nat)
    ensures n <= |s|
    ensures forall i :: 0 <= i < n ==> InClass(s[i], k)
    ensures n < |s| ==> !InClass(s[n], k)
  {
    if s == [] || !InClass(s[0], k) then 0 else 1 + RunLength(s[1..], k)
  }

  /** The `codes` dict and the local `code` between two passes of the outer loop. */
  datatype SplitState = SplitState(codes: map<Field, string>, code: string)

  /**
   * One pass of the inner `for i, c in enumerate(code)` loop: the matching run
   * is appended to the field, and `code` is cut at the first non-matching
   * character, or left as it was when no character failed to match.
   */
  function Step(st: SplitState, component: Field, pattern: CharClass): SplitState
    requires component in st.codes
  {
    var n := RunLength(st.code, pattern);
    SplitState(st.codes[component := st.codes[component] + st.code[..n]],
               if n < |st.code| then st.code[n..] else st.code)
  }

  /** The state after the first k passes of the outer loop over component_sequence. */
  function AfterPasses(code: string, k: nat): (st: SplitState)
    requires k <= |COMPONENT_SEQUENCE|
    ensures st.codes.Keys == EMPTY_CODES.Keys
  {
    if k == 0 then SplitState(EMPTY_CODES, code)
    else Step(AfterPasses(code, k - 1), COMPONENT_SEQUENCE[k - 1].0, COMPONENT_SEQUENCE[k - 1].1)
  }

  /** The three sub-codes decode assigns to item_code, fabric_code and colour_code. */
  datatype Segments = Segments(item: string, fabric: string, colour: string)

  /** The segmentation of the remainder, as the loops compute it. */
  function Segment(code: string): Segments {
    var st := AfterPasses(code, |COMPONENT_SEQUENCE|);
    Segments(st.codes[Item], st.codes[Fabric], st.codes[Colour])
  }

  /** The segmentation loops of decode: one pass per entry of component_sequence, in order. */
  method SplitComponents(code0: string) returns (codes: map<Field, string>)
    ensures codes == AfterPasses(code0, |COMPONENT_SEQUENCE|).codes
  {
    var code := code0;
    codes := EMPTY_CODES;
    for k := 0 to |COMPONENT_SEQUENCE|
      invariant SplitState(codes, code) == AfterPasses(code0, k)
    {
      var (component, pattern) := COMPONENT_SEQUENCE[k];
      codes, code := FilterPass(codes, code, component, pattern);
    }
  }

  /**
   * The inner loop `for i, c in enumerate(code)`: append each matching
   * character to codes[component]; at the first miss cut `code` there and stop.
   */
  method FilterPass(codes0: map<Field, string>, code0: string, component: Field, pattern: CharClass)
    returns (codes: map<Field, string>, code: string)
    requires component in codes0
    ensures SplitState(codes, code) == Step(SplitState(codes0, code0), component, pattern)
  {
    ghost var n := RunLength(code0, pattern);
    codes, code := codes0, code0;
    var taken0 := codes0[component];
    assert taken0 + code0[..0] == taken0;
    assert codes0[component := taken0] == codes0;
    var i := 0;
    while i < |code|
      invariant 0 <= i <= n
      invariant code == code0
      invariant codes == codes0[component := taken0 + code0[..i]]
    {
      var c := code[i];
      if InClass(c, pattern) {
        assert taken0 + code0[..i + 1] == (taken0 + code0[..i]) + [c];
        codes := codes[component := codes[component] + [c]];
      } else {
        code := code[i..];
        break;
      }
      i := i + 1;
    }
  }

  // ---------------------------------------------------------------------------
  // Decoding

  /** The normalisation of decode: upper-case, then delete every non-word character. */
  function Normalise(rawCode: string): string {
    RemoveNonWord(Upper(rawCode))
  }

  /** A decoded code: what decode assigns to the ItemCode's attributes. */
  datatype Decoded = Decoded(line: string, gender: string, collection: Collection,
                             itemCode: string, fabricCode: string, colourCode: string)

  /** NewCode.decode on the stored (stripped) raw code, as a function: the record, or the first failure. */
  function Decoding(rawCode: string): Result<Decoded, CodeError> {
    DecodeLine(rawCode, Normalise(rawCode))
  }

  /** Stage 1: the first two characters must be a LINES key. */
  function DecodeLine(rawCode: string, code: string): Result<Decoded, CodeError> {
    var line := Head(code, 2);
    if line !in LINES then Err(ParseCodeFailed(rawCode, Line))
    else DecodeYear(rawCode, LINES[line], Tail(code, 2))
  }

  /** Stage 2: the next two characters must be the year of some collection; the next one is the season to search for. */
  function DecodeYear(rawCode: string, entry: LineEntry, code: string): Result<Decoded, CodeError> {
    var year, rest := Head(code, 2), Tail(code, 2);
    if year !in ValidYears() then Err(ParseCodeFailed(rawCode, Year))
    else DecodeSeason(entry, CollectionFor(year, Head(rest, 1)), Tail(rest, 1))
  }

  /** Stage 3: the collection search decides; on success the rest of the code is segmented. */
  function DecodeSeason(entry: LineEntry, found: Result<Collection, CodeError>, code: string): Result<Decoded, CodeError> {
    match found
    case Err(e) => Err(e)
    case Ok(collection) =>
      var s := Segment(code);
      Ok(Decoded(entry.line, entry.gender, collection, s.item, s.fabric, s.colour))
  }

  /**
   * The body of NewCode.decode with its attribute assignments kept in locals:
   * normalise, take the line, year and season prefixes in turn (failing at the
   * first bad one), then split what is left.
   */
  method DecodeCode(rawCode: string) returns (r: Result<Decoded, CodeError>)
    ensures r == Decoding(rawCode)
  {
    var code := Normalise(rawCode);
    var prefix;
    prefix, code := Head(code, 2), Tail(code, 2);
    if prefix !in LINES {
      return Err(ParseCodeFailed(rawCode, Line));
    }
    var entry := LINES[prefix];
    var line, gender := entry.line, entry.gender;

    var validYears := ValidYears();
    var year;
    year, code := Head(code, 2), Tail(code, 2);
    if year !in validYears {
      return Err(ParseCodeFailed(rawCode, Year));
    }

    var found := FindCollection(year, Head(code, 1));
    if found.Err? {
      return Err(found.error);
    }
    var collection;
    collection, code := found.value, Tail(code, 1);

    var codes := SplitComponents(code);
    return Ok(Decoded(line, gender, collection, codes[Item], codes[Fabric], codes[Colour]));
  }

  /** ItemCode and its subclass NewCode: the raw code and the attributes decode fills in. */
  class ItemCode {
    var rawCode: string
    var collection: Option<Collection>
    var line: Option<string>
    var gender: Option<string>
    var itemCode: Option<string>
    var fabricCode: Option<string>
    var colourCode: Option<string>

    /** ItemCode.__init__: keep the stripped input; every decoded attribute is None. */
    constructor (code: string)
      ensures rawCode == Strip(code)
      ensures collection == None && line == None && gender == None
      ensures itemCode == None && fabricCode == None && colourCode == None
    {
      rawCode := Strip(code);
      collection, line, gender := None, None, None;
      itemCode, fabricCode, colourCode := None, None, None;
    }

    /** The decoded record, once every attribute is set. */
    function Record(): Option<Decoded>
      reads this
    {
      if line.Some? && gender.Some? && collection.Some? && itemCode.Some? && fabricCode.Some? && colourCode.Some?
      then Some(Decoded(line.value, gender.value, collection.value, itemCode.value, fabricCode.value, colourCode.value))
      else None
    }

    /** NewCode.decode: on success every decoded attribute is set; a failure changes nothing and is returned. */
    method Decode() returns (failure: Option<CodeError>)
      modifies this
      ensures rawCode == old(rawCode)
      ensures failure.None? <==> Decoding(rawCode).Ok?
      ensures failure.None? ==> Record() == Some(Decoding(rawCode).value)
      ensures failure.Some? ==> Decoding(rawCode) == Err(failure.value) && unchanged(this)
    {
      var r := DecodeCode(rawCode);
      if r.Err? {
        return Some(r.error);
      }
      SetAttributes(r.value);
      return None;
    }

    /** The closing setattr loop, with line, gender and collection assigned alongside. */
    method SetAttributes(d: Decoded)
      modifies this
      ensures rawCode == old(rawCode) && Record() == Some(d)
    {
      line, gender, collection := Some(d.line), Some(d.gender), Some(d.collection);
      itemCode, fabricCode, colourCode := Some(d.itemCode), Some(d.fabricCode), Some(d.colourCode);
    }
  }

  /** NewCode(code): construct, then decode; a failure propagates out of the constructor, so no object is returned. */
  method NewCode(code: string) returns (r: Result<ItemCode, CodeError>)
    ensures r.Ok? ==> fresh(r.value) && r.value.rawCode == Strip(code)
    ensures r.Ok? ==> Decoding(Strip(code)).Ok? && r.value.Record() == Some(Decoding(Strip(code)).value)
    ensures r.Err? ==> Decoding(Strip(code)) == Err(r.error)
  {
    var item := new ItemCode(code);
    var failure := item.Decode();
    if failure.Some? {
      return Err(failure.value);
    }
    return Ok(item);
  }
}
