/**
 * Properties of the decoder model: the registries, canonicalise_season,
 * find_collection, the segmentation of the remainder and decode as a whole.
 *
 * The lemmas about particular codes and tokens take the literal as a
 * parameter with a `requires x == "..."` rather than naming it in the
 * ensures: the solver then reasons about one variable fixed to the literal,
 * and each lemma that needs the literal's characters or slices unfolds them
 * once, instead of every caller doing so again.
 */
module CodesProperties {
  import opened Wrappers
  import opened Text
  import opened Codes

  // ---------------------------------------------------------------------------
  // The registries

  /** The number a two-digit year string stands for. */
  function YearNumber(year: string): int {
    if |year| == 2 then 10 * (year[0] as int - '0' as int) + (year[1] as int - '0' as int) else -1
  }

  /** A stored season: the token "FW" or "SS". */
  predicate StoredSeason(c: Collection) {
    c.season == "FW" || c.season == "SS"
  }

  /** A stored year: two digits, standing for a year between lo and hi. */
  predicate StoredYear(c: Collection, lo: int, hi: int) {
    |c.year| == 2 && IsDigit(c.year[0]) && IsDigit(c.year[1]) && lo <= YearNumber(c.year) <= hi
  }

  /** A stored entry: a stored season, and a two-digit year between lo and hi. */
  predicate StoredEntry(c: Collection, lo: int, hi: int) {
    StoredSeason(c) && StoredYear(c, lo, hi)
  }

  lemma Run2020To2016Seasons()
    ensures forall c | c in COLLECTIONS_2020_2016 :: StoredSeason(c)
  {
  }

  lemma Run2020To2016Years()
    ensures forall c | c in COLLECTIONS_2020_2016 :: StoredYear(c, 16, 20)
  {
  }

  lemma Run2020To2016()
    ensures |COLLECTIONS_2020_2016| == 10
    ensures forall c | c in COLLECTIONS_2020_2016 :: StoredEntry(c, 16, 20)
  {
    Run2020To2016Seasons();
    Run2020To2016Years();
  }

  lemma Run2015To2011Seasons()
    ensures forall c | c in COLLECTIONS_2015_2011 :: StoredSeason(c)
  {
  }

  lemma Run2015To2011Years()
    ensures forall c | c in COLLECTIONS_2015_2011 :: StoredYear(c, 11, 15)
  {
  }

  lemma Run2015To2011()
    ensures |COLLECTIONS_2015_2011| == 10
    ensures forall c | c in COLLECTIONS_2015_2011 :: StoredEntry(c, 11, 15)
  {
    Run2015To2011Seasons();
    Run2015To2011Years();
  }

  lemma Run2010To2006Seasons()
    ensures forall c | c in COLLECTIONS_2010_2006 :: StoredSeason(c)
  {
  }

  lemma Run2010To2006Years()
    ensures forall c | c in COLLECTIONS_2010_2006 :: StoredYear(c, 6, 10)
  {
  }

  lemma Run2010To2006()
    ensures |COLLECTIONS_2010_2006| == 11
    ensures forall c | c in COLLECTIONS_2010_2006 :: StoredEntry(c, 6, 10)
  {
    Run2010To2006Seasons();
    Run2010To2006Years();
  }

  lemma Run2005To2003Seasons()
    ensures forall c | c in COLLECTIONS_2005_2003 :: StoredSeason(c)
  {
  }

  lemma Run2005To2003Years()
    ensures forall c | c in COLLECTIONS_2005_2003 :: StoredYear(c, 3, 5)
  {
  }

  lemma Run2005To2003()
    ensures |COLLECTIONS_2005_2003| == 8
    ensures forall c | c in COLLECTIONS_2005_2003 :: StoredEntry(c, 3, 5)
  {
    Run2005To2003Seasons();
    Run2005To2003Years();
  }

  /** Entry i of a + b, for i inside a. */
  lemma EntryOfPrefix<T>(a: seq<T>, b: seq<T>, i: int)
    requires 0 <= i < |a|
    ensures (a + b)[i] == a[i] && a[i] in a
  {
  }

  /** Entry i of a + b, for i inside b. */
  lemma EntryOfSuffix<T>(a: seq<T>, b: seq<T>, i: int)
    requires |a| <= i < |a| + |b|
    ensures (a + b)[i] == b[i - |a|] && b[i - |a|] in b
  {
  }

  /** Positions in COLLECTIONS: the 2020-2016 run comes first, the 2005-2003 run from entry 31, SPARROWS last. */
  lemma RegistryIndex()
    ensures |COLLECTIONS| == 40
    ensures forall i | 0 <= i < 10 :: COLLECTIONS[i] == COLLECTIONS_2020_2016[i]
    ensures forall i | 31 <= i < 39 :: COLLECTIONS[i] == COLLECTIONS_2005_2003[i - 31]
    ensures COLLECTIONS[39] == Collection("02", "SPARROWS", "FW")
  {
    Run2020To2016();
    Run2015To2011();
    Run2010To2006();
    Run2005To2003();
    var p := COLLECTIONS_2020_2016 + COLLECTIONS_2015_2011 + COLLECTIONS_2010_2006;
    var d := COLLECTIONS_2005_2003;
    var e := COLLECTIONS_2002;
    assert COLLECTIONS == p + d + e;
    forall i | 0 <= i < 10
      ensures COLLECTIONS[i] == COLLECTIONS_2020_2016[i]
    {
      EntryOfPrefix(p + d, e, i);
      EntryOfPrefix(p, d, i);
      EntryOfPrefix(COLLECTIONS_2020_2016 + COLLECTIONS_2015_2011, COLLECTIONS_2010_2006, i);
      EntryOfPrefix(COLLECTIONS_2020_2016, COLLECTIONS_2015_2011, i);
    }
    forall i | 31 <= i < 39
      ensures COLLECTIONS[i] == d[i - 31]
    {
      EntryOfPrefix(p + d, e, i);
      EntryOfSuffix(p, d, i);
    }
    EntryOfSuffix(p + d, e, 39);
  }

  /**
   * The registry runs from 2020 down to 2002: the first 31 entries are of 2006
   * or later, the next eight of 2003 to 2005, and the last is SPARROWS (autumn 2002).
   */
  lemma RegistryYears()
    ensures |COLLECTIONS| == 40
    ensures forall i | 0 <= i < 31 :: StoredEntry(COLLECTIONS[i], 6, 20)
    ensures forall i | 31 <= i < 39 :: StoredEntry(COLLECTIONS[i], 3, 5)
    ensures COLLECTIONS[39] == Collection("02", "SPARROWS", "FW")
  {
    Run2020To2016();
    Run2015To2011();
    Run2010To2006();
    Run2005To2003();
    var p := COLLECTIONS_2020_2016 + COLLECTIONS_2015_2011 + COLLECTIONS_2010_2006;
    var d := COLLECTIONS_2005_2003;
    var e := COLLECTIONS_2002;
    assert COLLECTIONS == p + d + e;
    forall i | 0 <= i < 31
      ensures StoredEntry(COLLECTIONS[i], 6, 20)
    {
      EntryOfPrefix(p + d, e, i);
      EntryOfPrefix(p, d, i);
    }
    forall i | 31 <= i < 39
      ensures StoredEntry(COLLECTIONS[i], 3, 5)
    {
      EntryOfPrefix(p + d, e, i);
      EntryOfSuffix(p, d, i);
    }
    EntryOfSuffix(p + d, e, 39);
  }

  /** Every stored season token is "FW" or "SS", and every year is two digits between 02 and 20. */
  lemma StoredEntries()
    ensures forall i | 0 <= i < |COLLECTIONS| :: StoredEntry(COLLECTIONS[i], 2, 20)
  {
    RegistryYears();
    assert StoredEntry(COLLECTIONS[39], 2, 20);
  }

  /** Every stored season token is "FW" or "SS". */
  lemma StoredSeasonsAreTokens()
    ensures forall i | 0 <= i < |COLLECTIONS| :: COLLECTIONS[i].season == "FW" || COLLECTIONS[i].season == "SS"
  {
    StoredEntries();
  }

  /** Every year is a two-digit string. */
  lemma YearsAreTwoDigits()
    ensures forall i | 0 <= i < |COLLECTIONS| ::
      |COLLECTIONS[i].year| == 2 && IsDigit(COLLECTIONS[i].year[0]) && IsDigit(COLLECTIONS[i].year[1])
  {
    StoredEntries();
  }

  /** The two stored tokens canonicalise: "FW" (autumn) to "F" and "SS" (spring) to "S". */
  lemma StoredTokensCanonicalise()
    ensures CanonicaliseSeason("FW") == Ok("F")
    ensures CanonicaliseSeason("SS") == Ok("S")
  {
    assert Upper("FW") == "FW" by { assert Upper("W") == "W"; }
    assert Upper("SS") == "SS" by { assert Upper("S") == "S"; }
  }

  /** So canonicalise_season never fails on a stored season: "FW" is autumn, "SS" spring. */
  lemma StoredSeasonsCanonicalise()
    ensures forall i | 0 <= i < |COLLECTIONS| ::
      CanonicaliseSeason(COLLECTIONS[i].season) == Ok(if COLLECTIONS[i].season == "FW" then "F" else "S")
  {
    StoredSeasonsAreTokens();
    StoredTokensCanonicalise();
  }

  // ---------------------------------------------------------------------------
  // canonicalise_season

  /** The spellings of each alias canonicalise_season accepts: the alias in any case. */
  const FW_SPELLINGS: set<string> := {"FW", "Fw", "fW", "fw"}
  const AW_SPELLINGS: set<string> := {"AW", "Aw", "aW", "aw"}
  const F_SPELLINGS: set<string> := {"F", "f"}
  const SS_SPELLINGS: set<string> := {"SS", "Ss", "sS", "ss"}
  const S_SPELLINGS: set<string> := {"S", "s"}

  /** The spellings canonicalise_season accepts for autumn: "FW", "AW", "F" in any case. */
  const FALL_SPELLINGS: set<string> := FW_SPELLINGS + AW_SPELLINGS + F_SPELLINGS

  /** The spellings canonicalise_season accepts for spring: "SS", "S" in any case. */
  const SPRING_SPELLINGS: set<string> := SS_SPELLINGS + S_SPELLINGS

  /** A character upper-cases to the letter u exactly when it is u or its lower-case form l. */
  lemma UpperCharIs(c: char, u: char, l: char)
    requires IsUpperLetter(u) && l as int == u as int + 32
    ensures UpperChar(c) == u <==> c == u || c == l
  {
  }

  lemma UpperIsOneChar(s: string, u: char, l: char)
    requires IsUpperLetter(u) && l as int == u as int + 32
    ensures Upper(s) == [u] <==> s == [u] || s == [l]
  {
    if |s| == 1 {
      UpperCharIs(s[0], u, l);
      assert Upper(s) == [UpperChar(s[0])];
      assert s == [s[0]];
    }
  }

  lemma UpperIsTwoChars(s: string, u: char, l: char, v: char, w: char)
    requires IsUpperLetter(u) && l as int == u as int + 32
    requires IsUpperLetter(v) && w as int == v as int + 32
    ensures Upper(s) == [u, v] <==> s == [u, v] || s == [u, w] || s == [l, v] || s == [l, w]
  {
    if |s| == 2 {
      UpperCharIs(s[0], u, l);
      UpperCharIs(s[1], v, w);
      assert Upper(s) == [UpperChar(s[0]), UpperChar(s[1])];
      assert s == [s[0], s[1]];
    }
  }

  lemma UpperIsFW(s: string)
    ensures Upper(s) == "FW" <==> s in FW_SPELLINGS
  {
    UpperIsTwoChars(s, 'F', 'f', 'W', 'w');
  }

  lemma UpperIsAW(s: string)
    ensures Upper(s) == "AW" <==> s in AW_SPELLINGS
  {
    UpperIsTwoChars(s, 'A', 'a', 'W', 'w');
  }

  lemma UpperIsF(s: string)
    ensures Upper(s) == "F" <==> s in F_SPELLINGS
  {
    UpperIsOneChar(s, 'F', 'f');
  }

  lemma UpperIsSS(s: string)
    ensures Upper(s) == "SS" <==> s in SS_SPELLINGS
  {
    UpperIsTwoChars(s, 'S', 's', 'S', 's');
  }

  lemma UpperIsS(s: string)
    ensures Upper(s) == "S" <==> s in S_SPELLINGS
  {
    UpperIsOneChar(s, 'S', 's');
  }

  /** The upper-cased token is an autumn alias exactly for the autumn spellings. */
  lemma FallSpellings(season: string)
    ensures Upper(season) in {"FW", "AW", "F"} <==> season in FALL_SPELLINGS
  {
    UpperIsFW(season);
    UpperIsAW(season);
    UpperIsF(season);
  }

  /** The upper-cased token is a spring alias exactly for the spring spellings. */
  lemma SpringSpellings(season: string)
    ensures Upper(season) in {"SS", "S"} <==> season in SPRING_SPELLINGS
  {
    UpperIsSS(season);
    UpperIsS(season);
  }

  /**
   * canonicalise_season, case by case: the autumn spellings give "F", the
   * spring spellings give "S", and every other token is a Season failure
   * carrying the upper-cased token itself (not the code it came from).
   */
  lemma CanonicaliseSeasonCases(season: string)
    ensures CanonicaliseSeason(season) == Ok("F") <==> season in FALL_SPELLINGS
    ensures CanonicaliseSeason(season) == Ok("S") <==> season in SPRING_SPELLINGS
    ensures season !in FALL_SPELLINGS && season !in SPRING_SPELLINGS <==>
      CanonicaliseSeason(season) == Err(ParseCodeFailed(Upper(season), Season))
  {
    FallSpellings(season);
    SpringSpellings(season);
    DisjointAliases(Upper(season));
  }

  /** No token is both an autumn and a spring alias. */
  lemma DisjointAliases(u: string)
    ensures u in {"SS", "S"} ==> u !in {"FW", "AW", "F"}
  {
    if u == "SS" {
      assert u[0] == 'S';
    } else if u == "S" {
      assert u[0] == 'S';
    }
  }

  /** canonicalise_season is idempotent: its answer is itself an accepted spelling of the same season. */
  lemma CanonicaliseSeasonIdempotent(season: string)
    requires CanonicaliseSeason(season).Ok?
    ensures CanonicaliseSeason(CanonicaliseSeason(season).value) == CanonicaliseSeason(season)
  {
    assert Upper("F") == "F";
    assert Upper("S") == "S";
  }

  /** "as" is not a season: the failure names the upper-cased token. */
  lemma CanonicaliseSeasonRejectsAS()
    ensures CanonicaliseSeason("as") == Err(ParseCodeFailed("AS", Season))
  {
    assert Upper("as") == "AS";
  }

  // ---------------------------------------------------------------------------
  // find_collection

  /**
   * The scan from entry i returns the first matching entry at or after i, and
   * the registry miss when there is none, provided every stored season is valid.
   */
  lemma ScanFromFirstMatch(registry: seq<Collection>, year: string, canon: string, i: nat)
    requires i <= |registry|
    requires forall k | i <= k < |registry| :: CanonicaliseSeason(registry[k].season).Ok?
    ensures forall k | i <= k < |registry| && Matches(registry[k], year, canon) &&
        (forall j | i <= j < k :: !Matches(registry[j], year, canon)) ::
      ScanFrom(registry, year, canon, i) == Ok(registry[k])
    ensures (forall k | i <= k < |registry| :: !Matches(registry[k], year, canon)) ==>
      ScanFrom(registry, year, canon, i) == Err(CollectionNotFound(year, canon))
  {
    forall k | i <= k < |registry| && Matches(registry[k], year, canon) &&
        (forall j | i <= j < k :: !Matches(registry[j], year, canon))
      ensures ScanFrom(registry, year, canon, i) == Ok(registry[k])
    {
      ScanSkipsTo(registry, year, canon, i, k);
    }
    if forall k | i <= k < |registry| :: !Matches(registry[k], year, canon) {
      ScanRunsOut(registry, year, canon, i);
    }
  }

  /**
   * find_collection: an invalid query season fails before the scan; otherwise
   * the answer is the first entry in declaration order whose year is the query
   * year and whose stored season canonicalises to the query's, and the
   * registry miss (not a parse failure) when no entry does.
   */
  lemma CollectionForFirstMatch(year: string, season: string)
    ensures CanonicaliseSeason(season).Err? ==> CollectionFor(year, season) == Err(CanonicaliseSeason(season).error)
    ensures CanonicaliseSeason(season).Ok? ==>
      var canon := CanonicaliseSeason(season).value;
      (forall k | IsFirstMatch(COLLECTIONS, k, year, canon) :: CollectionFor(year, season) == Ok(COLLECTIONS[k])) &&
      ((forall k | 0 <= k < |COLLECTIONS| :: !Matches(COLLECTIONS[k], year, canon)) ==>
        CollectionFor(year, season) == Err(CollectionNotFound(year, canon)))
  {
    match CanonicaliseSeason(season)
    case Err(_) =>
    case Ok(canon) =>
      assert CollectionFor(year, season) == ScanFrom(COLLECTIONS, year, canon, 0);
      StoredSeasonsCanonicalise();
      ScanFromFirstMatch(COLLECTIONS, year, canon, 0);
  }

  /** Whatever find_collection returns is the first registry entry k of the query year and season. */
  lemma CollectionForSound(year: string, season: string) returns (k: nat)
    requires CollectionFor(year, season).Ok?
    ensures IsFirstMatch(COLLECTIONS, k, year, CanonicaliseSeason(season).value)
    ensures CollectionFor(year, season).value == COLLECTIONS[k]
  {
    var canon := CanonicaliseSeason(season).value;
    CollectionForFirstMatch(year, season);
    if forall j | 0 <= j < |COLLECTIONS| :: !Matches(COLLECTIONS[j], year, canon) {
      assert false;
    } else {
      var j :| 0 <= j < |COLLECTIONS| && Matches(COLLECTIONS[j], year, canon);
      k := FirstMatchAtOrBefore(COLLECTIONS, j, year, canon);
    }
  }

  /** A matching entry k has a first matching entry at or before it. */
  lemma {:induction false} FirstMatchAtOrBefore(registry: seq<Collection>, k: nat, year: string, canon: string) returns (first: nat)
    requires k < |registry| && Matches(registry[k], year, canon)
    ensures first <= k && IsFirstMatch(registry, first, year, canon)
  {
    if forall j | 0 <= j < k :: !Matches(registry[j], year, canon) {
      first := k;
    } else {
      var j :| 0 <= j < k && Matches(registry[j], year, canon);
      first := FirstMatchAtOrBefore(registry, j, year, canon);
    }
  }

  /** The scan moves on past entry c: it is of another year, or its valid stored season is not the one sought. */
  predicate ScanPasses(c: Collection, year: string, canon: string) {
    c.year != year || (CanonicaliseSeason(c.season).Ok? && CanonicaliseSeason(c.season).value != canon)
  }

  /** One step of the scan: an entry it passes hands over to the next. */
  lemma ScanStep(registry: seq<Collection>, year: string, canon: string, i: nat)
    requires i < |registry| && ScanPasses(registry[i], year, canon)
    ensures ScanFrom(registry, year, canon, i) == ScanFrom(registry, year, canon, i + 1)
  {
  }

  /** A scan that passes entries i up to k continues from entry k. */
  lemma {:induction false} ScanPassesTo(registry: seq<Collection>, year: string, canon: string, i: nat, k: nat)
    requires i <= k <= |registry|
    requires forall j | i <= j < k :: ScanPasses(registry[j], year, canon)
    ensures ScanFrom(registry, year, canon, i) == ScanFrom(registry, year, canon, k)
    decreases k - i
  {
    if i < k {
      ScanStep(registry, year, canon, i);
      ScanPassesTo(registry, year, canon, i + 1, k);
    }
  }

  /** A year before 2006 is the year of none of the first 31 entries. */
  lemma BeforeRecentRuns(year: string)
    requires YearNumber(year) < 6
    ensures forall j | 0 <= j < 31 :: COLLECTIONS[j].year != year
  {
    RegistryYears();
  }

  /** A year before 2003 is the year of none of entries 31 to 38. */
  lemma BeforeRun2005To2003(year: string)
    requires YearNumber(year) < 3
    ensures forall j | 31 <= j < 39 :: COLLECTIONS[j].year != year
  {
    RegistryYears();
  }

  /** A scan that reaches a matching entry returns it. */
  lemma ScanHit(registry: seq<Collection>, year: string, canon: string, k: nat)
    requires k < |registry| && Matches(registry[k], year, canon)
    ensures ScanFrom(registry, year, canon, k) == Ok(registry[k])
  {
  }

  /** A scan that passes entries i up to k and matches entry k returns entry k. */
  lemma ScanSkipsTo(registry: seq<Collection>, year: string, canon: string, i: nat, k: nat)
    requires i <= k < |registry|
    requires forall j | i <= j < k :: ScanPasses(registry[j], year, canon)
    requires Matches(registry[k], year, canon)
    ensures ScanFrom(registry, year, canon, i) == Ok(registry[k])
  {
    ScanPassesTo(registry, year, canon, i, k);
    ScanHit(registry, year, canon, k);
  }

  /** A scan that passes every entry from i on is the registry miss. */
  lemma {:induction false} ScanRunsOut(registry: seq<Collection>, year: string, canon: string, i: nat)
    requires i <= |registry|
    requires forall j | i <= j < |registry| :: ScanPasses(registry[j], year, canon)
    ensures ScanFrom(registry, year, canon, i) == Err(CollectionNotFound(year, canon))
    decreases |registry| - i
  {
    if i < |registry| {
      ScanStep(registry, year, canon, i);
      ScanRunsOut(registry, year, canon, i + 1);
    }
  }

  /** For a valid query season, find_collection is the scan for its canonical form. */
  lemma CollectionForIsScan(year: string, season: string)
    requires CanonicaliseSeason(season).Ok?
    ensures CollectionFor(year, season) == ScanFrom(COLLECTIONS, year, CanonicaliseSeason(season).value, 0)
  {
  }

  /** ("04", "F") - in any accepted spelling - finds REVILLON: QUEEN, later in the registry, is never reached. */
  lemma AutumnOf04IsRevillon(year: string, season: string)
    requires year == "04" && CanonicaliseSeason(season) == Ok("F")
    ensures CollectionFor(year, season) == Ok(Collection("04", "REVILLON", "FW"))
    ensures Matches(COLLECTIONS[34], year, "F") && COLLECTIONS[34].name == "QUEEN"
  {
    CollectionForIsScan(year, season);
    Autumn04Scan(year);
  }

  lemma Autumn04Scan(year: string)
    requires year == "04"
    ensures ScanFrom(COLLECTIONS, year, "F", 0) == Ok(Collection("04", "REVILLON", "FW"))
    ensures Matches(COLLECTIONS[34], year, "F") && COLLECTIONS[34].name == "QUEEN"
  {
    RegistryIndex();
    var d := COLLECTIONS_2005_2003;
    assert d[0].year == "05" && d[1].year == "05";
    assert d[2] == Collection("04", "REVILLON", "FW") && d[3] == Collection("04", "QUEEN", "FW");
    BeforeRecentRuns(year);
    ScanPassesTo(COLLECTIONS, year, "F", 0, 31);
    StoredTokensCanonicalise();
    ScanSkipsTo(COLLECTIONS, year, "F", 31, 33);
  }

  /** ("19", "F") finds LARRY, whose stored season is "FW". */
  lemma AutumnOf19IsLarry(year: string, season: string)
    requires year == "19" && CanonicaliseSeason(season) == Ok("F")
    ensures CollectionFor(year, season) == Ok(Collection("19", "LARRY", "FW"))
  {
    CollectionForIsScan(year, season);
    Autumn19Scan(year);
  }

  lemma Autumn19Scan(year: string)
    requires year == "19"
    ensures ScanFrom(COLLECTIONS, year, "F", 0) == Ok(Collection("19", "LARRY", "FW"))
  {
    RegistryHead();
    StoredTokensCanonicalise();
    ScanSkipsTo(COLLECTIONS, year, "F", 0, 2);
  }

  /** ("20", "S") finds TECUATL: PERFORMA, the first entry of 2020, is autumn. */
  lemma SpringOf20IsTecuatl(year: string, season: string)
    requires year == "20" && CanonicaliseSeason(season) == Ok("S")
    ensures CollectionFor(year, season) == Ok(Collection("20", "TECUATL", "SS"))
  {
    CollectionForIsScan(year, season);
    Spring20Scan(year);
  }

  lemma Spring20Scan(year: string)
    requires year == "20"
    ensures ScanFrom(COLLECTIONS, year, "S", 0) == Ok(Collection("20", "TECUATL", "SS"))
  {
    RegistryHead();
    StoredTokensCanonicalise();
    ScanSkipsTo(COLLECTIONS, year, "S", 0, 1);
  }

  /** ("15", "F") finds SPHINX, the first entry after the ten of 2020-2016. */
  lemma AutumnOf15IsSphinx(year: string, season: string)
    requires year == "15" && CanonicaliseSeason(season) == Ok("F")
    ensures CollectionFor(year, season) == Ok(Collection("15", "SPHINX", "FW"))
  {
    CollectionForIsScan(year, season);
    Autumn15Scan(year);
  }

  lemma Autumn15Scan(year: string)
    requires year == "15"
    ensures ScanFrom(COLLECTIONS, year, "F", 0) == Ok(Collection("15", "SPHINX", "FW"))
  {
    RegistryIndex();
    Run2020To2016();
    forall j | 0 <= j < 10
      ensures ScanPasses(COLLECTIONS[j], year, "F")
    {
      assert COLLECTIONS_2020_2016[j] in COLLECTIONS_2020_2016;
    }
    Sphinx();
    StoredTokensCanonicalise();
    ScanSkipsTo(COLLECTIONS, year, "F", 0, 10);
  }

  /** Entry 10, the first of 2015-2011, is SPHINX. */
  lemma Sphinx()
    ensures |COLLECTIONS| == 40 && COLLECTIONS[10] == Collection("15", "SPHINX", "FW")
  {
    Run2020To2016();
    Run2015To2011();
    Run2010To2006();
    var p, q := COLLECTIONS_2020_2016, COLLECTIONS_2015_2011;
    var r := p + q + COLLECTIONS_2010_2006;
    assert COLLECTIONS == r + COLLECTIONS_2005_2003 + COLLECTIONS_2002;
    EntryOfPrefix(r + COLLECTIONS_2005_2003, COLLECTIONS_2002, 10);
    EntryOfPrefix(r, COLLECTIONS_2005_2003, 10);
    EntryOfPrefix(p + q, COLLECTIONS_2010_2006, 10);
    assert (p + q)[10] == q[0];
  }

  /** The first three entries of the registry. */
  lemma RegistryHead()
    ensures |COLLECTIONS| == 40
    ensures COLLECTIONS[0] == Collection("20", "PERFORMA", "FW")
    ensures COLLECTIONS[1] == Collection("20", "TECUATL", "SS")
    ensures COLLECTIONS[2] == Collection("19", "LARRY", "FW")
  {
    RegistryIndex();
    var a := COLLECTIONS_2020_2016;
    assert a[0] == Collection("20", "PERFORMA", "FW");
    assert a[1] == Collection("20", "TECUATL", "SS");
    assert a[2] == Collection("19", "LARRY", "FW");
  }

  /** A well-formed query the registry lacks is the registry miss: spring 2002 and any season of 2000. */
  lemma RegistryMisses(year: string, season: string)
    requires CanonicaliseSeason(season).Ok?
    requires year == "00" || (year == "02" && CanonicaliseSeason(season) == Ok("S"))
    ensures CollectionFor(year, season) == Err(CollectionNotFound(year, CanonicaliseSeason(season).value))
  {
    CollectionForIsScan(year, season);
    MissingScan(year, CanonicaliseSeason(season).value);
  }

  lemma MissingScan(year: string, canon: string)
    requires canon == "F" || canon == "S"
    requires year == "00" || (year == "02" && canon == "S")
    ensures ScanFrom(COLLECTIONS, year, canon, 0) == Err(CollectionNotFound(year, canon))
  {
    BeforeRecentRuns(year);
    BeforeRun2005To2003(year);
    RegistryIndex();
    StoredTokensCanonicalise();
    assert ScanPasses(COLLECTIONS[39], year, canon);
    ScanRunsOut(COLLECTIONS, year, canon, 0);
  }

  /** An invalid season is a Season failure whatever the year, even one the registry lacks. */
  lemma InvalidSeasonFailsFirst(year: string, season: string)
    requires season !in FALL_SPELLINGS && season !in SPRING_SPELLINGS
    ensures CollectionFor(year, season) == Err(ParseCodeFailed(Upper(season), Season))
  {
    CanonicaliseSeasonCases(season);
  }

  // ---------------------------------------------------------------------------
  // Segmenting the remainder

  /** RunLength is determined by its contract: n is the length of the longest run of class k at the front of s. */
  lemma RunLengthIs(s: string, k: CharClass, n: nat)
    requires n <= |s|
    requires forall i :: 0 <= i < n ==> InClass(s[i], k)
    requires n < |s| ==> !InClass(s[n], k)
    ensures RunLength(s, k) == n
  {
  }

  /**
   * The split the loops are evidently meant to compute: the longest digit
   * prefix, then the longest run of letters after it, then the longest run of
   * digits after that, each pass starting where the previous one stopped.
   */
  function GreedySegment(r: string): (g: Segments)
    ensures |g.item + g.fabric + g.colour| <= |r|
    ensures g.item + g.fabric + g.colour == r[..|g.item + g.fabric + g.colour|]
  {
    var a := RunLength(r, Digit);
    var r1 := r[a..];
    var b := RunLength(r1, Letter);
    var r2 := r1[b..];
    var c := RunLength(r2, Digit);
    ConsecutiveSlices(r, a, b, c);
    Segments(r[..a], r1[..b], r2[..c])
  }

  /** Three consecutive slices, each taken from where the previous one stopped, make one prefix. */
  lemma ConsecutiveSlices(r: string, a: nat, b: nat, c: nat)
    requires a + b + c <= |r|
    ensures r[..a] + r[a..][..b] + r[a..][b..][..c] == r[..a + b + c]
  {
    assert r[a..][b..] == r[a + b..];
    assert r[..a] + r[a..][..b] == r[..a + b];
  }

  /** Each field of the greedy split is a maximal run of its class: leftover text is ignored. */
  lemma GreedySegmentRuns(r: string)
    ensures var g := GreedySegment(r); var i, f := |g.item|, |g.item| + |g.fabric|;
      (forall j :: 0 <= j < |g.item| ==> IsDigit(g.item[j])) && (i < |r| ==> !IsDigit(r[i])) &&
      (forall j :: 0 <= j < |g.fabric| ==> IsUpperLetter(g.fabric[j])) && (f < |r| ==> !IsUpperLetter(r[f])) &&
      (forall j :: 0 <= j < |g.colour| ==> IsDigit(g.colour[j])) && (f + |g.colour| < |r| ==> !IsDigit(r[f + |g.colour|]))
  {
    var a := RunLength(r, Digit);
    var r1 := r[a..];
    var b := RunLength(r1, Letter);
    var r2 := r1[b..];
    var c := RunLength(r2, Digit);
    assert b < |r1| ==> r[a + b] == r1[b];
    assert c < |r2| ==> r[a + b + c] == r2[c];
  }

  /** The position each pass leaves `code` at: cut after the run, or unchanged when the run reaches the end. */
  function Rest(code: string, n: nat): string
    requires n <= |code|
  {
    if n < |code| then code[n..] else code
  }

  /**
   * The segmentation loops in closed form: each field is the run of its class
   * at the front of what the previous pass left, and a pass whose run reaches
   * the end leaves the text as it was.
   */
  lemma SegmentClosedForm(r: string)
    ensures var n1 := RunLength(r, Digit); var c1 := Rest(r, n1);
      var n2 := RunLength(c1, Letter); var c2 := Rest(c1, n2);
      Segment(r) == Segments(r[..n1], c1[..n2], c2[..RunLength(c2, Digit)])
  {
    assert COMPONENT_SEQUENCE[0] == (Item, Digit);
    assert COMPONENT_SEQUENCE[1] == (Fabric, Letter);
    assert COMPONENT_SEQUENCE[2] == (Colour, Digit);
    var st0 := AfterPasses(r, 0);
    assert st0 == SplitState(EMPTY_CODES, r);
    var st1 := AfterPasses(r, 1);
    assert st1 == Step(st0, Item, Digit);
    var st2 := AfterPasses(r, 2);
    assert st2 == Step(st1, Fabric, Letter);
    var st3 := AfterPasses(r, 3);
    assert st3 == Step(st2, Colour, Digit);
    var n1 := RunLength(r, Digit);
    assert st1.codes[Item] == r[..n1] && st1.codes[Fabric] == "" && st1.codes[Colour] == "";
    assert st1.code == Rest(r, n1);
  }

  /**
   * The code as written, when the item digits run to the end: the fabric pass
   * and the colour pass both rescan the whole remainder, so the fabric is empty
   * and the colour repeats the item digits.
   */
  lemma SegmentOfAllDigits(r: string)
    requires forall i :: 0 <= i < |r| ==> IsDigit(r[i])
    ensures Segment(r) == Segments(r, "", r)
  {
    SegmentClosedForm(r);
    RunLengthIs(r, Digit, |r|);
    RunLengthIs(r, Letter, 0);
    assert r[..|r|] == r;
  }

  /** When the item digits stop before the end, the loops do compute the greedy split. */
  lemma SegmentIsGreedyAfterEarlyStop(r: string)
    requires RunLength(r, Digit) < |r|
    ensures Segment(r) == GreedySegment(r)
  {
    SegmentClosedForm(r);
    var a := RunLength(r, Digit);
    var r1 := r[a..];
    var b := RunLength(r1, Letter);
    if b == |r1| {
      assert !IsDigit(r1[0]);
      RunLengthIs(r1, Digit, 0);
      RunLengthIs(r1[b..], Digit, 0);
    }
  }

  /**
   * The segmentation as written agrees with the greedy split exactly when the
   * remainder is not a non-empty run of digits.
   */
  lemma SegmentIsGreedyIff(r: string)
    ensures Segment(r) == GreedySegment(r) <==> !(r != [] && forall i :: 0 <= i < |r| ==> IsDigit(r[i]))
  {
    if r != [] && forall i :: 0 <= i < |r| ==> IsDigit(r[i]) {
      SegmentOfAllDigits(r);
      RunLengthIs(r, Digit, |r|);
      assert GreedySegment(r).colour == "";
    } else if r == [] {
      SegmentOfAllDigits(r);
    } else {
      var a := RunLength(r, Digit);
      assert a < |r|;
      SegmentIsGreedyAfterEarlyStop(r);
    }
  }

  /** The remainder "1704LLP54" splits into item 1704, fabric LLP and colour 54. */
  lemma SegmentExample(r: string)
    requires r == "1704LLP54"
    ensures Segment(r) == Segments("1704", "LLP", "54")
  {
    RunLengthIs(r, Digit, 4);
    var r1 := r[4..];
    assert r1 == "LLP54";
    RunLengthIs(r1, Letter, 3);
    var r2 := r1[3..];
    assert r2 == "54";
    RunLengthIs(r2, Digit, 2);
    SegmentIsGreedyAfterEarlyStop(r);
  }

  // ---------------------------------------------------------------------------
  // Normalisation

  /** upper() leaves no lower-case letter behind. */
  lemma UpperHasNoLowerCase(s: string)
    ensures forall i :: 0 <= i < |Upper(s)| ==> !IsLowerLetter(Upper(s)[i])
  {
  }

  /** A normalised code consists of upper-case letters, digits and underscores. */
  lemma NormalisedChars(raw: string)
    ensures forall i :: 0 <= i < |Normalise(raw)| ==>
      IsWordChar(Normalise(raw)[i]) && !IsLowerLetter(Normalise(raw)[i])
  {
    UpperHasNoLowerCase(raw);
    RemoveNonWordKeepsUpperCase(Upper(raw));
  }

  /** A code already in normal form is left as it is. */
  lemma NormaliseFixesNormalForm(s: string)
    requires forall i :: 0 <= i < |s| ==> IsWordChar(s[i]) && !IsLowerLetter(s[i])
    ensures Normalise(s) == s
  {
    UpperOfUpperCase(s);
    RemoveNonWordKeepsWords(s);
  }

  /** Normalising twice is normalising once. */
  lemma NormaliseIdempotent(raw: string)
    ensures Normalise(Normalise(raw)) == Normalise(raw)
  {
    NormalisedChars(raw);
    NormaliseFixesNormalForm(Normalise(raw));
  }

  /** Case does not matter. */
  lemma NormaliseIgnoresCase(raw: string)
    ensures Normalise(Upper(raw)) == Normalise(raw)
  {
    UpperIdempotent(raw);
  }

  /** Surrounding whitespace does not matter: strip() in the constructor changes nothing decode sees. */
  lemma NormaliseIgnoresPadding(raw: string)
    ensures Normalise(Strip(raw)) == Normalise(raw)
  {
    StripThenRemoveNonWord(raw);
  }

  /** A separator - any character outside "\\w", such as a space or a hyphen - does not matter wherever it stands. */
  lemma NormaliseIgnoresSeparator(a: string, c: char, b: string)
    requires !IsWordChar(c)
    ensures Normalise(a + [c] + b) == Normalise(a + b)
  {
    assert Upper([c]) == [c];
    assert RemoveNonWord([c]) == [];
    UpperRemoveAppend(a + [c], b);
    UpperRemoveAppend(a, [c]);
    UpperRemoveAppend(a, b);
  }

  // ---------------------------------------------------------------------------
  // decode

  /** find_collection fails only with a Season failure or the registry miss. */
  lemma CollectionForErrors(year: string, season: string)
    ensures CollectionFor(year, season).Err? ==>
      CollectionFor(year, season).error.CollectionNotFound? || CollectionFor(year, season).error.component == Season
  {
    if CanonicaliseSeason(season).Ok? {
      var canon := CanonicaliseSeason(season).value;
      CollectionForFirstMatch(year, season);
      if exists k :: 0 <= k < |COLLECTIONS| && Matches(COLLECTIONS[k], year, canon) {
        var k :| 0 <= k < |COLLECTIONS| && Matches(COLLECTIONS[k], year, canon);
        var first := FirstMatchAtOrBefore(COLLECTIONS, k, year, canon);
      }
    }
  }

  /** The positions decode reads, as Python slices of the normalised code. */
  lemma PrefixSlices(s: string)
    ensures Head(s, 2) == Slice(s, 0, 2)
    ensures Head(Tail(s, 2), 2) == Slice(s, 2, 4)
    ensures Head(Tail(Tail(s, 2), 2), 1) == Slice(s, 4, 5)
    ensures Tail(Tail(Tail(s, 2), 2), 1) == Tail(s, 5)
  {
    HeadOfTail(s, 0, 2);
    assert Tail(s, 0) == s;
    HeadOfTail(s, 2, 2);
    TailOfTail(s, 2, 2);
    HeadOfTail(s, 4, 1);
    TailOfTail(s, 4, 1);
  }

  // The three stages one at a time.

  lemma LineStage(rawCode: string, code: string)
    ensures Head(code, 2) !in LINES ==> DecodeLine(rawCode, code) == Err(ParseCodeFailed(rawCode, Line))
    ensures Head(code, 2) in LINES ==> DecodeLine(rawCode, code) == DecodeYear(rawCode, LINES[Head(code, 2)], Tail(code, 2))
  {
  }

  lemma YearStage(rawCode: string, entry: LineEntry, code: string)
    ensures Head(code, 2) !in ValidYears() ==> DecodeYear(rawCode, entry, code) == Err(ParseCodeFailed(rawCode, Year))
    ensures Head(code, 2) in ValidYears() ==>
      DecodeYear(rawCode, entry, code) ==
      DecodeSeason(entry, CollectionFor(Head(code, 2), Head(Tail(code, 2), 1)), Tail(Tail(code, 2), 1))
  {
  }

  lemma SeasonStage(entry: LineEntry, found: Result<Collection, CodeError>, code: string)
    ensures found.Err? ==> DecodeSeason(entry, found, code) == Err(found.error)
    ensures found.Ok? ==>
      DecodeSeason(entry, found, code) ==
      Ok(Decoded(entry.line, entry.gender, found.value, Segment(code).item, Segment(code).fabric, Segment(code).colour))
  {
  }

  /** Past the line, decode fails only with a Year or Season failure or the registry miss. */
  lemma YearStageErrors(rawCode: string, entry: LineEntry, code: string)
    ensures DecodeYear(rawCode, entry, code).Err? ==>
      DecodeYear(rawCode, entry, code).error.CollectionNotFound? ||
      DecodeYear(rawCode, entry, code).error.component != Line
  {
    YearStage(rawCode, entry, code);
    if Head(code, 2) in ValidYears() {
      var found := CollectionFor(Head(code, 2), Head(Tail(code, 2), 1));
      SeasonStage(entry, found, Tail(Tail(code, 2), 1));
      CollectionForErrors(Head(code, 2), Head(Tail(code, 2), 1));
    }
  }

  /** Past the year, decode fails only with a Season failure or the registry miss. */
  lemma SeasonStageErrors(entry: LineEntry, year: string, code: string)
    requires year in ValidYears()
    ensures var found := CollectionFor(year, Head(code, 1)); DecodeSeason(entry, found, Tail(code, 1)).Err? ==>
      DecodeSeason(entry, found, Tail(code, 1)).error.CollectionNotFound? ||
      DecodeSeason(entry, found, Tail(code, 1)).error.component == Season
  {
    var found := CollectionFor(year, Head(code, 1));
    SeasonStage(entry, found, Tail(code, 1));
    CollectionForErrors(year, Head(code, 1));
  }

  /** decode checks the line first: a Line failure, carrying the raw code, exactly when s[0:2] is not a line. */
  lemma DecodingLineFailure(raw: string)
    ensures Decoding(raw) == Err(ParseCodeFailed(raw, Line)) <==> Slice(Normalise(raw), 0, 2) !in LINES
  {
    var s := Normalise(raw);
    PrefixSlices(s);
    LineStage(raw, s);
    if Head(s, 2) in LINES {
      YearStageErrors(raw, LINES[Head(s, 2)], Tail(s, 2));
    }
  }

  /** decode checks the year second: a Year failure exactly when the line is known and s[2:4] is no collection's year. */
  lemma DecodingYearFailure(raw: string)
    ensures Decoding(raw) == Err(ParseCodeFailed(raw, Year)) <==>
      Slice(Normalise(raw), 0, 2) in LINES && Slice(Normalise(raw), 2, 4) !in ValidYears()
  {
    var s := Normalise(raw);
    PrefixSlices(s);
    LineStage(raw, s);
    if Head(s, 2) in LINES {
      var entry, code := LINES[Head(s, 2)], Tail(s, 2);
      YearStage(raw, entry, code);
      if Head(code, 2) in ValidYears() {
        SeasonStageErrors(entry, Head(code, 2), Tail(code, 2));
      }
    }
  }

  /**
   * Once line and year are known, the collection search for (s[2:4], s[4:5])
   * decides: its failure is decode's failure, and its entry is decoded with the
   * line's name and gender and the segmentation of the remainder s[5:].
   */
  lemma DecodingAfterPrefix(raw: string)
    requires Slice(Normalise(raw), 0, 2) in LINES && Slice(Normalise(raw), 2, 4) in ValidYears()
    ensures var s := Normalise(raw); var found := CollectionFor(Slice(s, 2, 4), Slice(s, 4, 5));
      (found.Err? ==> Decoding(raw) == Err(found.error)) &&
      (found.Ok? ==> Decoding(raw) == Ok(Decoded(LINES[Slice(s, 0, 2)].line, LINES[Slice(s, 0, 2)].gender, found.value,
         Segment(Tail(s, 5)).item, Segment(Tail(s, 5)).fabric, Segment(Tail(s, 5)).colour)))
  {
    var s := Normalise(raw);
    PrefixSlices(s);
    LineStage(raw, s);
    var entry, code := LINES[Head(s, 2)], Tail(s, 2);
    YearStage(raw, entry, code);
    SeasonStage(entry, CollectionFor(Head(code, 2), Head(Tail(code, 2), 1)), Tail(Tail(code, 2), 1));
  }

  /**
   * A season slot s[4:5] other than "F" or "S" - including an empty one when
   * the code is too short - is a Season failure naming that slot.
   */
  lemma DecodingSeasonFailure(raw: string)
    requires Slice(Normalise(raw), 0, 2) in LINES && Slice(Normalise(raw), 2, 4) in ValidYears()
    requires Slice(Normalise(raw), 4, 5) != "F" && Slice(Normalise(raw), 4, 5) != "S"
    ensures Decoding(raw) == Err(ParseCodeFailed(Slice(Normalise(raw), 4, 5), Season))
  {
    var s := Normalise(raw);
    var t := Slice(s, 4, 5);
    NormalisedChars(raw);
    assert forall i :: 0 <= i < |t| ==> !IsLowerLetter(t[i]);
    UpperOfUpperCase(t);
    assert t != "f" && t != "s";
    CanonicaliseSeasonCases(t);
    DecodingAfterPrefix(raw);
  }

  /** A successful decode passed every stage: its record is built from the line entry, the search result and the segments. */
  lemma DecodingSuccessStages(raw: string)
    requires Decoding(raw).Ok?
    ensures var s := Normalise(raw);
      Slice(s, 0, 2) in LINES && Slice(s, 2, 4) in ValidYears() &&
      (Slice(s, 4, 5) == "F" || Slice(s, 4, 5) == "S") &&
      CollectionFor(Slice(s, 2, 4), Slice(s, 4, 5)).Ok? &&
      Decoding(raw).value == Decoded(LINES[Slice(s, 0, 2)].line, LINES[Slice(s, 0, 2)].gender,
        CollectionFor(Slice(s, 2, 4), Slice(s, 4, 5)).value,
        Segment(Tail(s, 5)).item, Segment(Tail(s, 5)).fabric, Segment(Tail(s, 5)).colour)
  {
    var s := Normalise(raw);
    DecodingLineFailure(raw);
    DecodingYearFailure(raw);
    if Slice(s, 4, 5) != "F" && Slice(s, 4, 5) != "S" {
      DecodingSeasonFailure(raw);
    }
    DecodingAfterPrefix(raw);
  }

  /** The canonical seasons canonicalise to themselves. */
  lemma CanonicalSeasonsAreFixed(season: string)
    requires season == "F" || season == "S"
    ensures CanonicaliseSeason(season) == Ok(season)
  {
    assert Upper("F") == "F";
    assert Upper("S") == "S";
  }

  /**
   * What a successful decode delivers: the line and gender of the LINES entry
   * for s[0:2]; a season slot s[4:5] that is "F" or "S"; and the segmentation
   * of the remainder s[5:]. In particular the normalised code has at least five characters.
   */
  lemma DecodingSuccess(raw: string)
    requires Decoding(raw).Ok?
    ensures var s, d := Normalise(raw), Decoding(raw).value;
      |s| >= 5 && Slice(s, 0, 2) in LINES && d.line == LINES[Slice(s, 0, 2)].line && d.gender == LINES[Slice(s, 0, 2)].gender &&
      (Slice(s, 4, 5) == "F" || Slice(s, 4, 5) == "S") &&
      Segments(d.itemCode, d.fabricCode, d.colourCode) == Segment(Tail(s, 5))
  {
    DecodingSuccessStages(raw);
  }

  /**
   * The collection of a successful decode is the first registry entry, in
   * declaration order, whose year is s[2:4] and whose season is s[4:5].
   */
  lemma DecodingCollection(raw: string) returns (k: nat)
    requires Decoding(raw).Ok?
    ensures var s := Normalise(raw);
      IsFirstMatch(COLLECTIONS, k, Slice(s, 2, 4), Slice(s, 4, 5)) && Decoding(raw).value.collection == COLLECTIONS[k]
    ensures Decoding(raw).value.collection.year == Slice(Normalise(raw), 2, 4)
  {
    var s := Normalise(raw);
    DecodingSuccessStages(raw);
    var year, season := Slice(s, 2, 4), Slice(s, 4, 5);
    CanonicalSeasonsAreFixed(season);
    k := CollectionForSound(year, season);
  }

  /** The collection a successful decode finds carries a stored season token, "FW" or "SS". */
  lemma DecodedSeasonIsToken(raw: string)
    requires Decoding(raw).Ok?
    ensures var season := Decoding(raw).value.collection.season; season == "FW" || season == "SS"
  {
    var k := DecodingCollection(raw);
    StoredSeasonIsToken(k);
  }

  /** Entry k's season is "FW" or "SS". */
  lemma StoredSeasonIsToken(k: nat)
    requires k < |COLLECTIONS|
    ensures COLLECTIONS[k].season == "FW" || COLLECTIONS[k].season == "SS"
  {
    StoredSeasonsAreTokens();
  }

  /** Every collection's year is a valid year. */
  lemma YearOfEntryIsValid(k: nat)
    requires k < |COLLECTIONS|
    ensures COLLECTIONS[k].year in ValidYears()
  {
    assert COLLECTIONS[k] in COLLECTIONS;
  }

  /** 2020 is a collection year. */
  lemma Year20IsValid(year: string)
    requires year == "20"
    ensures year in ValidYears()
  {
    RegistryIndex();
    assert COLLECTIONS_2020_2016[0].year == "20";
    YearOfEntryIsValid(0);
  }

  /** "RP" is the Precollection line for women. */
  lemma LineRP(line: string)
    requires line == "RP"
    ensures line in LINES && LINES[line] == LineEntry("Precollection", "Women")
  {
  }

  /** "DU" is the DRKSHDW line for men. */
  lemma LineDU(line: string)
    requires line == "DU"
    ensures line in LINES && LINES[line] == LineEntry("DRKSHDW", "Men")
  {
  }

  /** "RR" is the Runway line for men. */
  lemma LineRR(line: string)
    requires line == "RR"
    ensures line in LINES && LINES[line] == LineEntry("Runway", "Men")
  {
  }

  /** "RA" is the unisex Accessories line. */
  lemma LineRA(line: string)
    requires line == "RA"
    ensures line in LINES && LINES[line] == LineEntry("Accessories", "Unisex")
  {
  }

  /** "CW" is the Champion line for women. */
  lemma LineCW(line: string)
    requires line == "CW"
    ensures line in LINES && LINES[line] == LineEntry("Champion", "Women")
  {
  }

  /** "RP20S1704LLP54" is already in normal form. */
  lemma ExampleNormalForm(w: string)
    requires w == "RP20S1704LLP54"
    ensures Normalise(w) == w
  {
    NormaliseFixesNormalForm(w);
  }

  /** "RP20S1704LLP54" cut into line, year, season and remainder. */
  lemma ExampleParts(raw: string)
    requires raw == "RP20S1704LLP54"
    ensures raw == raw[..2] + raw[2..4] + raw[4..5] + raw[5..]
    ensures raw[..2] == "RP" && raw[2..4] == "20" && raw[4..5] == "S" && raw[5..] == "1704LLP54"
  {
  }

  /** "RP20S1704LLP54" is Precollection, Women, TECUATL (spring 2020), item 1704, fabric LLP, colour 54. */
  lemma DecodingExample(raw: string)
    requires raw == "RP20S1704LLP54"
    ensures Decoding(raw) == Ok(Decoded("Precollection", "Women", Collection("20", "TECUATL", "SS"), "1704", "LLP", "54"))
  {
    ExampleNormalForm(raw);
    ExampleParts(raw);
    var line, year, season, rest := raw[..2], raw[2..4], raw[4..5], raw[5..];
    LineRP(line);
    Year20IsValid(year);
    CanonicalSeasonsAreFixed(season);
    SpringOf20IsTecuatl(year, season);
    SegmentExample(rest);
    DecodingOfParts(raw, line, year, season, rest);
  }

  /** The slices decode reads of a code assembled from its parts are those parts. */
  lemma PartsSlices(s: string, line: string, year: string, season: string, rest: string)
    requires |line| == 2 && |year| == 2 && |season| == 1
    requires s == line + year + season + rest
    ensures Slice(s, 0, 2) == line && Slice(s, 2, 4) == year && Slice(s, 4, 5) == season && Tail(s, 5) == rest
  {
    assert s[..2] == line;
    assert s[2..4] == year;
    assert s[4..5] == season;
    assert s[5..] == rest;
  }

  /**
   * A code whose normal form is a known line, a valid year, a season letter and
   * a remainder decodes to the search result for that year and season, and on
   * success to the line's entry, the collection and the segments of the remainder.
   */
  lemma DecodingOfParts(raw: string, line: string, year: string, season: string, rest: string)
    requires |line| == 2 && |year| == 2 && |season| == 1
    requires Normalise(raw) == line + year + season + rest
    requires line in LINES && year in ValidYears()
    ensures var found := CollectionFor(year, season);
      (found.Err? ==> Decoding(raw) == Err(found.error)) &&
      (found.Ok? ==>
        Decoding(raw) == Ok(Decoded(LINES[line].line, LINES[line].gender, found.value, Segment(rest).item, Segment(rest).fabric, Segment(rest).colour)))
  {
    PartsSlices(Normalise(raw), line, year, season, rest);
    DecodingAfterPrefix(raw);
  }

  /** decode sees only the normal form: two codes with the same normal form succeed or fail together, with the same record. */
  lemma DecodingOnlySeesNormalForm(a: string, b: string)
    requires Normalise(a) == Normalise(b)
    ensures Decoding(a).Ok? <==> Decoding(b).Ok?
    ensures Decoding(a).Ok? ==> Decoding(a) == Decoding(b)
  {
    var s := Normalise(a);
    DecodingLineFailure(a);
    DecodingLineFailure(b);
    DecodingYearFailure(a);
    DecodingYearFailure(b);
    if Slice(s, 0, 2) in LINES && Slice(s, 2, 4) in ValidYears() {
      DecodingAfterPrefix(a);
      DecodingAfterPrefix(b);
    }
  }

  /** A separated spelling decodes as the code without the separator. */
  lemma SeparatedSpelling(a: string, c: char, b: string)
    requires !IsWordChar(c)
    ensures Normalise(Strip(a + [c] + b)) == Normalise(a + b)
  {
    NormaliseIgnoresPadding(a + [c] + b);
    NormaliseIgnoresSeparator(a, c, b);
  }

  /** "rp20s1704llp54" upper-cases character by character to "RP20S1704LLP54". */
  lemma LowerCaseUpper(lower: string, w: string)
    requires lower == "rp20s1704llp54" && w == "RP20S1704LLP54"
    ensures Upper(lower) == w
  {
    assert |lower| == 14;
    assert forall i | 0 <= i < 14 :: UpperChar(lower[i]) == w[i];
  }

  /** "rp20s1704llp54" normalises to "RP20S1704LLP54". */
  lemma LowerCaseSpelling(lower: string, w: string)
    requires lower == "rp20s1704llp54" && w == "RP20S1704LLP54"
    ensures Normalise(lower) == w
  {
    LowerCaseUpper(lower, w);
    RemoveNonWordKeepsWords(w);
  }

  /** "  rp20s1704llp54  " is two spaces, the lower-case code and two spaces. */
  lemma PaddedParts(z: string)
    requires z == "  rp20s1704llp54  "
    ensures |z| == 18 && z == z[..2] + z[2..16] + z[16..]
    ensures z[..2] == z[16..] == "  " && z[2..16] == "rp20s1704llp54"
  {
  }

  /** "  rp20s1704llp54  " has the normal form "RP20S1704LLP54". */
  lemma LowerPaddedSpelling(z: string, w: string)
    requires z == "  rp20s1704llp54  " && w == "RP20S1704LLP54"
    ensures Normalise(Strip(z)) == w
  {
    PaddedParts(z);
    var front, lower, back := z[..2], z[2..16], z[16..];
    SpacesVanish(front);
    SpacesVanish(back);
    UpperRemoveIgnoresPadding(front, lower, back);
    LowerCaseSpelling(lower, w);
    NormaliseIgnoresPadding(z);
  }

  /** "RP20S1704LLP 54" and "RP20S1704LLP-54" have the normal form "RP20S1704LLP54". */
  lemma SeparatedSpellings(x: string, y: string, w: string)
    requires x == "RP20S1704LLP 54" && y == "RP20S1704LLP-54" && w == "RP20S1704LLP54"
    ensures Normalise(Strip(x)) == Normalise(Strip(y)) == w
  {
    ExampleNormalForm(w);
    var a, b := w[..12], w[12..];
    assert x == a + [' '] + b && y == a + ['-'] + b && a + b == w;
    SeparatedSpelling(a, ' ', b);
    SeparatedSpelling(a, '-', b);
  }

  /** A space or a hyphen inside the code, lower case and surrounding whitespace all leave the decoded record unchanged. */
  lemma SpellingsDecodeAlike(x: string, y: string, z: string, w: string)
    requires x == "RP20S1704LLP 54" && y == "RP20S1704LLP-54" && z == "  rp20s1704llp54  " && w == "RP20S1704LLP54"
    ensures Decoding(Strip(x)) == Decoding(Strip(y)) == Decoding(Strip(z)) == Decoding(w)
    ensures Decoding(w).Ok?
  {
    ExampleNormalForm(w);
    DecodingExample(w);
    SeparatedSpellings(x, y, w);
    LowerPaddedSpelling(z, w);
    DecodingOnlySeesNormalForm(Strip(x), w);
    DecodingOnlySeesNormalForm(Strip(y), w);
    DecodingOnlySeesNormalForm(Strip(z), w);
  }

  /** Dropping one separator character anywhere leaves the normal form unchanged. */
  lemma DropSeparator(s: string, cut: nat)
    requires cut < |s| && !IsWordChar(s[cut])
    ensures Normalise(s) == Normalise(s[..cut] + s[cut + 1..])
  {
    assert s == s[..cut] + [s[cut]] + s[cut + 1..];
    NormaliseIgnoresSeparator(s[..cut], s[cut], s[cut + 1..]);
  }

  /** Three runs in the shape the decode docstring describes: item digits, a non-empty run of capitals, colour digits. */
  predicate Runs(item: string, fabric: string, colour: string) {
    && (forall i :: 0 <= i < |item| ==> IsDigit(item[i]))
    && fabric != [] && (forall i :: 0 <= i < |fabric| ==> IsUpperLetter(fabric[i]))
    && (forall i :: 0 <= i < |colour| ==> IsDigit(colour[i]))
  }

  /**
   * A remainder made of three such runs splits into exactly those runs.
   */
  lemma SegmentOfRuns(item: string, fabric: string, colour: string)
    requires Runs(item, fabric, colour)
    ensures Segment(item + fabric + colour) == Segments(item, fabric, colour)
  {
    var r := item + fabric + colour;
    var r1 := r[|item|..];
    assert r[..|item|] == item && r1 == fabric + colour;
    assert r[|item|] == fabric[0];
    RunLengthIs(r, Digit, |item|);
    var r2 := r1[|fabric|..];
    assert r1[..|fabric|] == fabric && r2 == colour;
    RunLengthIs(r1, Letter, |fabric|);
    RunLengthIs(r2, Digit, |colour|);
    assert r2[..|colour|] == colour;
    SegmentIsGreedyAfterEarlyStop(r);
  }

  /**
   * A code whose normal form is a known line, a valid year, a season letter
   * the registry has a collection for, item digits, a run of capitals and
   * colour digits decodes to the line's entry, that collection and those runs.
   */
  lemma DecodingOfRuns(raw: string, line: string, year: string, season: string, item: string, fabric: string, colour: string)
    requires |line| == 2 && |year| == 2 && |season| == 1
    requires Normalise(raw) == line + year + season + (item + fabric + colour)
    requires line in LINES && year in ValidYears() && CollectionFor(year, season).Ok?
    requires Runs(item, fabric, colour)
    ensures Decoding(raw) == Ok(Decoded(LINES[line].line, LINES[line].gender, CollectionFor(year, season).value, item, fabric, colour))
  {
    SegmentOfRuns(item, fabric, colour);
    DecodingOfParts(raw, line, year, season, item + fabric + colour);
  }

  /** "DU15F5152-R 09" has the normal form "DU15F5152R09": the hyphen and the space go. */
  lemma DocstringNormalForm(raw: string, w: string)
    requires raw == "DU15F5152-R 09" && w == "DU15F5152R09"
    ensures Normalise(Strip(raw)) == w
  {
    var s := raw[..11] + raw[12..];
    assert s == "DU15F5152-R09" && s[..9] + s[10..] == w;
    NormaliseIgnoresPadding(raw);
    DropSeparator(raw, 11);
    DropSeparator(s, 9);
    NormaliseFixesNormalForm(w);
  }

  /** "DU15F5152R09" is line DU, year 15, season F, and the runs 5152, R and 09. */
  lemma DocstringParts(w: string)
    requires w == "DU15F5152R09"
    ensures w == "DU" + "15" + "F" + ("5152" + "R" + "09") && Runs("5152", "R", "09")
  {
  }

  /** The docstring's example "DU15F5152-R 09": DRKSHDW, Men, SPHINX (autumn 2015), item 5152, fabric R (the "-R" section), colour 09. */
  lemma DocstringExample(raw: string)
    requires raw == "DU15F5152-R 09"
    ensures Decoding(Strip(raw)) == Ok(Decoded("DRKSHDW", "Men", Collection("15", "SPHINX", "FW"), "5152", "R", "09"))
  {
    DocstringNormalForm(raw, "DU15F5152R09");
    DocstringParts("DU15F5152R09");
    LineDU("DU");
    Sphinx();
    YearOfEntryIsValid(10);
    CanonicalSeasonsAreFixed("F");
    AutumnOf15IsSphinx("15", "F");
    DecodingOfRuns(Strip(raw), "DU", "15", "F", "5152", "R", "09");
  }

  /** "RP20S1704LSN 09" has the normal form "RP20S1704LSN09". */
  lemma SampleLSNNormalForm(raw: string, w: string)
    requires raw == "RP20S1704LSN 09" && w == "RP20S1704LSN09"
    ensures Normalise(Strip(raw)) == w
  {
    assert raw[..12] + raw[13..] == w;
    NormaliseIgnoresPadding(raw);
    DropSeparator(raw, 12);
    NormaliseFixesNormalForm(w);
  }

  /** "RP20S1704LSN09" is line RP, year 20, season S, and the runs 1704, LSN and 09. */
  lemma SampleLSNParts(w: string)
    requires w == "RP20S1704LSN09"
    ensures w == "RP" + "20" + "S" + ("1704" + "LSN" + "09") && Runs("1704", "LSN", "09")
  {
  }

  /** "RP20S1704LSN 09", the second sample code of the parse test, decodes: Precollection, Women, TECUATL, 1704, LSN, 09. */
  lemma SampleLSN(raw: string)
    requires raw == "RP20S1704LSN 09"
    ensures Decoding(Strip(raw)) == Ok(Decoded("Precollection", "Women", Collection("20", "TECUATL", "SS"), "1704", "LSN", "09"))
  {
    SampleLSNNormalForm(raw, "RP20S1704LSN09");
    SampleLSNParts("RP20S1704LSN09");
    LineRP("RP");
    Year20IsValid("20");
    CanonicalSeasonsAreFixed("S");
    SpringOf20IsTecuatl("20", "S");
    DecodingOfRuns(Strip(raw), "RP", "20", "S", "1704", "LSN", "09");
  }

  /** "RR20S7424LTY 2208" has the normal form "RR20S7424LTY2208". */
  lemma SampleLTYNormalForm(raw: string, w: string)
    requires raw == "RR20S7424LTY 2208" && w == "RR20S7424LTY2208"
    ensures Normalise(Strip(raw)) == w
  {
    assert raw[..12] + raw[13..] == w;
    NormaliseIgnoresPadding(raw);
    DropSeparator(raw, 12);
    NormaliseFixesNormalForm(w);
  }

  /** "RR20S7424LTY2208" is line RR, year 20, season S, and the runs 7424, LTY and 2208. */
  lemma SampleLTYParts(w: string)
    requires w == "RR20S7424LTY2208"
    ensures w == "RR" + "20" + "S" + ("7424" + "LTY" + "2208") && Runs("7424", "LTY", "2208")
  {
  }

  /** "RR20S7424LTY 2208", the third sample code of the parse test, decodes: Runway, Men, TECUATL, 7424, LTY, 2208. */
  lemma SampleLTY(raw: string)
    requires raw == "RR20S7424LTY 2208"
    ensures Decoding(Strip(raw)) == Ok(Decoded("Runway", "Men", Collection("20", "TECUATL", "SS"), "7424", "LTY", "2208"))
  {
    SampleLTYNormalForm(raw, "RR20S7424LTY2208");
    SampleLTYParts("RR20S7424LTY2208");
    LineRR("RR");
    Year20IsValid("20");
    CanonicalSeasonsAreFixed("S");
    SpringOf20IsTecuatl("20", "S");
    DecodingOfRuns(Strip(raw), "RR", "20", "S", "7424", "LTY", "2208");
  }

  /** "RA19F0493GDSTB-3409" has the normal form "RA19F0493GDSTB3409". */
  lemma SampleGDSTBNormalForm(raw: string, w: string)
    requires raw == "RA19F0493GDSTB-3409" && w == "RA19F0493GDSTB3409"
    ensures Normalise(Strip(raw)) == w
  {
    assert raw[..14] + raw[15..] == w;
    NormaliseIgnoresPadding(raw);
    DropSeparator(raw, 14);
    NormaliseFixesNormalForm(w);
  }

  /** "RA19F0493GDSTB3409" is line RA, year 19, season F, and the runs 0493, GDSTB and 3409. */
  lemma SampleGDSTBParts(w: string)
    requires w == "RA19F0493GDSTB3409"
    ensures w == "RA" + "19" + "F" + ("0493" + "GDSTB" + "3409") && Runs("0493", "GDSTB", "3409")
  {
  }

  /** "RA19F0493GDSTB-3409", the fourth sample code of the parse test, decodes: Accessories, Unisex, LARRY, 0493, GDSTB, 3409. */
  lemma SampleGDSTB(raw: string)
    requires raw == "RA19F0493GDSTB-3409"
    ensures Decoding(Strip(raw)) == Ok(Decoded("Accessories", "Unisex", Collection("19", "LARRY", "FW"), "0493", "GDSTB", "3409"))
  {
    SampleGDSTBNormalForm(raw, "RA19F0493GDSTB3409");
    SampleGDSTBParts("RA19F0493GDSTB3409");
    LineRA("RA");
    RegistryHead();
    YearOfEntryIsValid(2);
    CanonicalSeasonsAreFixed("F");
    AutumnOf19IsLarry("19", "F");
    DecodingOfRuns(Strip(raw), "RA", "19", "F", "0493", "GDSTB", "3409");
  }

  /** Years outside 2002-2020 are not collection years, so decode rejects them as a Year failure before any search. */
  lemma YearsOutsideRegistry(year: string)
    requires year == "00" || year == "01" || year == "21"
    ensures year !in ValidYears()
  {
    StoredEntries();
    assert forall i | 0 <= i < |COLLECTIONS| :: YearNumber(COLLECTIONS[i].year) != YearNumber(year);
  }

  /** A known line, year 02 and season S pass every check of decode but the search: the registry miss, not a parse failure. */
  lemma DecodingRegistryMiss(raw: string)
    requires Slice(Normalise(raw), 0, 2) in LINES
    requires Slice(Normalise(raw), 2, 4) == "02" && Slice(Normalise(raw), 4, 5) == "S"
    ensures Decoding(raw) == Err(CollectionNotFound("02", "S"))
  {
    var s := Normalise(raw);
    YearOfEntryIsValid(39);
    CanonicalSeasonsAreFixed(Slice(s, 4, 5));
    RegistryMisses(Slice(s, 2, 4), Slice(s, 4, 5));
    DecodingAfterPrefix(raw);
  }

  /** "cw20s000411368809" upper-cases character by character to "CW20S000411368809". */
  lemma ChampionUpper(lower: string, w: string)
    requires lower == "cw20s000411368809" && w == "CW20S000411368809"
    ensures Upper(lower) == w
  {
    assert |lower| == 17;
    assert forall i | 0 <= i < 17 :: UpperChar(lower[i]) == w[i];
  }

  /** "cw20s000411368809" normalises to "CW20S000411368809". */
  lemma ChampionLowerCase(lower: string, w: string)
    requires lower == "cw20s000411368809" && w == "CW20S000411368809"
    ensures Normalise(lower) == w
  {
    ChampionUpper(lower, w);
    RemoveNonWordKeepsWords(w);
  }

  /** The normal form of "cw20s0004113688-09". */
  lemma ChampionSpelling(raw: string, lower: string, w: string)
    requires raw == "cw20s0004113688-09" && lower == "cw20s000411368809" && w == "CW20S000411368809"
    ensures Normalise(Strip(raw)) == w
  {
    var a, b := lower[..15], lower[15..];
    assert raw == a + ['-'] + b && a + b == lower;
    SeparatedSpelling(a, '-', b);
    ChampionLowerCase(lower, w);
  }

  /** The all-digit remainder "000411368809" is taken whole as the item and again as the colour. */
  lemma ChampionSegment(r: string)
    requires r == "000411368809"
    ensures Segment(r) == Segments("000411368809", "", "000411368809")
  {
    SegmentOfAllDigits(r);
  }

  /** "CW20S000411368809" cut into line, year, season and remainder. */
  lemma ChampionParts(w: string)
    requires w == "CW20S000411368809"
    ensures w == w[..2] + w[2..4] + w[4..5] + w[5..]
    ensures w[..2] == "CW" && w[2..4] == "20" && w[4..5] == "S" && w[5..] == "000411368809"
  {
  }

  /**
   * "cw20s0004113688-09" as the code is written: the remainder after the
   * season is all digits, so the item digits run to the end and the colour
   * repeats them, where tests/test_codes.py expects ("0004", "113688", "09").
   */
  lemma ChampionCodeAsWritten(raw: string, lower: string, w: string)
    requires raw == "cw20s0004113688-09" && lower == "cw20s000411368809" && w == "CW20S000411368809"
    ensures Decoding(Strip(raw)) ==
      Ok(Decoded("Champion", "Women", Collection("20", "TECUATL", "SS"), "000411368809", "", "000411368809"))
  {
    ChampionSpelling(raw, lower, w);
    ChampionParts(w);
    var line, year, season, rest := w[..2], w[2..4], w[4..5], w[5..];
    LineCW(line);
    Year20IsValid(year);
    CanonicalSeasonsAreFixed(season);
    SpringOf20IsTecuatl(year, season);
    ChampionSegment(rest);
    DecodingOfParts(Strip(raw), line, year, season, rest);
  }
}
