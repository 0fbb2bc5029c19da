# owenscrape product codes in Dafny

owenscrape scrapes product pages of a fashion retailer and decodes the
retailer's item codes. A code such as `RP20S1704LLP54` contains these parts, in order:

- a two-letter **line** ("RP" is the Precollection line for women);
- a two-digit **year**;
- a one-letter **season**;
- a free-form remainder: digits for the item, capital letters for the fabric and digits for the colour.

This project models three pieces of the repository and proves properties of each:

- **the decoder** (`owenscrape/codes.py`):
  - the two registries, `LINES` and `COLLECTIONS`;
  - `canonicalise_season` and `find_collection`;
  - `ItemCode`, which strips its input;
  - `NewCode`, whose `decode` normalises the code, then reads the line, year and season and segments the rest.
- **the CSV row writer** (`scraper/csv.py`): `to_csv`, `item_to_csv` and the header row.
- **the fetch planner** (`product_codes/fetch.py`):
  - `get_code`;
  - the skip/fetch decision of `check`;
  - `Fetcher.fill_queue`.

Modules:

- `Wrappers` (`wrappers.dfy`): `Option` and `Result`.
- `Text` (`text.dfy`): ASCII versions of the primitives the core relies on, with their properties:
  - `str.strip`, `str.upper` and `str.split`;
  - `re.sub("\\W", "", s)`;
  - the classes `\d` and `[A-Z]`;
  - Python's forgiving slices.
- `Codes` (`codes.dfy`):
  - the registries and the error type;
  - `canonicalise_season`, and `find_collection` as a method with its loop;
  - the segmentation loops as methods;
  - `decode` as a method, with the specification functions `CollectionFor`, `Segment` and `Decoding`;
  - the class `ItemCode` with one `Option` field per attribute;
  - `NewCode`.
- `CodesProperties` (`codes_properties.dfy`): lemmas about the decoder model.
- `Csv` (`csv.dfy`):
  - the row writer;
  - a reader for rows, used to state the round trip;
  - lemmas.
- `Fetch` (`fetch.dfy`):
  - `get_code` and `check`;
  - the class `Fetcher`, whose `FillQueue` method is proved against the function `Accepted`.

In the model:

- A `ParseCodeFailedException` is `ParseCodeFailed(rawCode, component)`.
- The bare `ValueError` of `find_collection` is `CollectionNotFound(year, season)`.
- A raised exception is an `Err` result. In `ItemCode.Decode` it is an `Option<CodeError>` returned with the object unchanged.

### Where the code disagrees with its test (the model follows the code)

- **Segmentation.** The inner loop of `decode` (owenscrape/codes.py:169-175) cuts `code` only at a character that misses the pattern. When a run reaches the end of the remaining text, `code` is not advanced. The next pass then sees the same text again.
  - For an all-digit remainder the item and the colour are therefore both the whole remainder. `SegmentIsGreedyIff` proves this is the only case where the segments differ from the greedy split.
  - So the champion codes of tests/test_codes.py:49-58 do not decode to the components the test lists. For example, `cw20s0004113688-09` gives item `000411368809`, no fabric and colour `000411368809`; see `ChampionCodeAsWritten`.

### Behaviour of the code worth knowing (the model follows the code)

- **Normalisation.** `re.sub("\\W", "", ...)` keeps the underscore, so `_` survives normalisation.
- **Season column.** The `item_season` column of the CSV is the registry's stored token ("FW"/"SS"). It is never the canonical "F"/"S" (`ItemSeasonIsStoredToken`).
- **Spring 2002.** `find_collection("00", "S")` is the registry miss (a `ValueError`). Inside `decode`, year "00" fails earlier, as a Year parse failure (`YearsOutsideRegistry`). The registry miss arises in `decode` only for a year that does exist with the other season, such as spring 2002 (`DecodingRegistryMiss`).
- **Quoting.** `to_csv` does not escape quotes. A value containing `','` reads as two columns (`ToCsvIsAmbiguous`).
- **`recent_mtime`.** The lambda is true when the failure marker is MORE than a day old, as the comment at product_codes/fetch.py:53 says; that is exactly when a failed URL is retried, although the name suggests the opposite (`CheckIff`).
- **Docstring sections.** The `-R` section of the docstring's example `DU15F5152-R 09` is the fabric `R`: the hyphen is dropped with every other non-word character before segmentation (`DocstringExample`).

## Model

| member | source | states |
|---|---|---|
| Text.StripLeftSpec | owenscrape/codes.py:123 | `strip()`'s left half keeps a suffix that does not start with whitespace and drops only whitespace |
| Text.StripRightSpec | owenscrape/codes.py:123 | the right half keeps a prefix that does not end with whitespace and drops only whitespace |
| Text.Upper | owenscrape/codes.py:101 | `upper()` keeps the length and maps each character through the ASCII case map |
| Text.UpperIdempotent | owenscrape/codes.py:101 | upper-casing twice is upper-casing once |
| Text.RemoveNonWord | owenscrape/codes.py:153 | the result of `re.sub("\\W", "", s)` is no longer than s and holds only word characters |
| Text.RemoveNonWordAppend | owenscrape/codes.py:153 | the substitution works character by character: it distributes over concatenation |
| Text.RemoveNonWordKeepsWords | owenscrape/codes.py:153 | a string of word characters is left unchanged |
| Text.RemoveNonWordDropsNonWords | owenscrape/codes.py:153 | a string without word characters vanishes |
| Text.StripThenRemoveNonWord | owenscrape/codes.py:153 | normalising the stripped code equals normalising the unstripped one: whitespace is non-word |
| Text.Strip | owenscrape/codes.py:123 | `strip()` as lstrip then rstrip; what it keeps and drops is stated by StripLeftSpec, StripRightSpec, StripTrims and StripParts |
| Text.StripTrims | owenscrape/codes.py:123 | a stripped string is empty or neither starts nor ends with whitespace |
| Text.StripParts | owenscrape/codes.py:123 | every string is whitespace, then its stripped form, then whitespace |
| Text.Split | product_codes/fetch.py:21 | `url.split("/")`; JoinSplit shows it loses nothing, SplitPartsLackSeparator that no part holds the separator |
| Text.SplitPartsLackSeparator | product_codes/fetch.py:21 | no part of `url.split("/")` contains "/" |
| Text.JoinSplit | product_codes/fetch.py:21 | joining the parts of a split with the separator gives the string back |
| Text.SplitLast | product_codes/fetch.py:21 | the last part of a split is a suffix, the whole string or one preceded by the separator |
| Codes.CanonicaliseSeason | owenscrape/codes.py:99-107 | the answer is "F" or "S"; a failure is a Season failure carrying the upper-cased token |
| Codes.ScanFrom | owenscrape/codes.py:113-118 | the scan of the registry from entry i: the first match, or the ValueError when it runs out; ScanFromFirstMatch proves it first-match |
| Codes.CollectionFor | owenscrape/codes.py:110-118 | find_collection as a function: canonicalise the query, then scan; CollectionForFirstMatch and CollectionForSound state its answer |
| Codes.ValidYears | owenscrape/codes.py:160 | valid_years, the set of every collection year; YearOfEntryIsValid and YearsOutsideRegistry say which years are in it |
| Codes.Normalise | owenscrape/codes.py:153 | upper-case, then delete every non-word character; NormalisedChars, NormaliseIdempotent and NormaliseIgnoresCase state what it does |
| Codes.FindCollection | owenscrape/codes.py:110-118 | the loop with early return computes `CollectionFor`, the scan specification proved first-match in CodesProperties |
| Codes.RunLength | owenscrape/codes.py:170-171 | the run of a class at the front: every character before it matches, the one at it does not |
| Codes.FilterPass | owenscrape/codes.py:170-175 | the inner loop appends the matching run to its field and cuts `code` at the first miss, leaving it whole when nothing misses |
| Codes.Step | owenscrape/codes.py:170-175 | one pass of the inner loop; FilterPass is proved to compute it and SegmentClosedForm gives its result in closed form |
| Codes.AfterPasses | owenscrape/codes.py:167-175 | the passes of the outer loop over component_sequence in order; the codes dict always has exactly the three keys |
| Codes.Segment | owenscrape/codes.py:167-177 | the three sub-codes the loops leave; SegmentIsGreedyIff compares them with the greedy split |
| Codes.SplitComponents | owenscrape/codes.py:167-175 | the loops over component_sequence compute the passes of `Segment` in order |
| Codes.DecodeLine | owenscrape/codes.py:154-158 | the line stage; LineStage and DecodingLineFailure state when it fails |
| Codes.DecodeYear | owenscrape/codes.py:160-165 | the year stage; YearStage and DecodingYearFailure state when it fails |
| Codes.DecodeSeason | owenscrape/codes.py:165-177 | the season stage and the segmentation; SeasonStage and SeasonStageErrors state its outcomes |
| Codes.Decoding | owenscrape/codes.py:153-177 | decode as a function of the raw code; DecodingSuccess, DecodingCollection and DecodingAfterPrefix state its result |
| Codes.DecodeCode | owenscrape/codes.py:153-177 | the body of decode returns exactly `Decoding` of the raw code, its record or its first failure |
| Codes.ItemCode.constructor | owenscrape/codes.py:122-129 | the stored raw code is the stripped input and every decoded attribute is unset |
| Codes.ItemCode.Decode | owenscrape/codes.py:145-178 | success iff `Decoding` succeeds; then every attribute holds the decoded record; a failure is returned and leaves the object unchanged |
| Codes.ItemCode.SetAttributes | owenscrape/codes.py:176-177 | after the assignments the object's attributes form exactly the given record |
| Codes.NewCode | owenscrape/codes.py:180-182 | a new object whose raw code is the stripped input and whose attributes are the decoded record, or the decoding failure |
| CodesProperties.StoredSeasonsAreTokens | owenscrape/codes.py:40-79 | every stored season is "FW" or "SS" |
| CodesProperties.YearsAreTwoDigits | owenscrape/codes.py:40-79 | every collection year is two digits |
| CodesProperties.Run2020To2016 | owenscrape/codes.py:40-49 | the ten entries of 2020 down to 2016 each have season token FW or SS and a two-digit year from 16 to 20 |
| CodesProperties.Run2015To2011 | owenscrape/codes.py:50-59 | the ten entries of 2015 down to 2011 each have season token FW or SS and a two-digit year from 11 to 15 |
| CodesProperties.Run2010To2006 | owenscrape/codes.py:60-70 | the eleven entries of 2010 down to 2006 (2006 has three) each have season token FW or SS and a two-digit year from 06 to 10 |
| CodesProperties.Run2005To2003 | owenscrape/codes.py:71-78 | the eight entries of 2005 down to 2003 each have season token FW or SS and a two-digit year from 03 to 05 |
| CodesProperties.RegistryIndex | owenscrape/codes.py:37-81 | the registry has forty entries: entries 0-9 are the 2020-2016 run, entries 31-38 the 2005-2003 run, and the last is SPARROWS, autumn 2002 |
| CodesProperties.RegistryYears | owenscrape/codes.py:40-79 | entries 0-30 are of 2006 to 2020, entries 31-38 of 2003 to 2005, and entry 39 is SPARROWS of 2002 |
| CodesProperties.StoredEntries | owenscrape/codes.py:40-79 | every entry has season token FW or SS and a two-digit year from 02 to 20 |
| CodesProperties.RegistryHead | owenscrape/codes.py:40-42 | the registry opens with PERFORMA (autumn 2020), TECUATL (spring 2020) and LARRY (autumn 2019) |
| CodesProperties.StoredSeasonIsToken | owenscrape/codes.py:40-79 | the season of any entry k is "FW" or "SS" |
| CodesProperties.StoredTokensCanonicalise | owenscrape/codes.py:101-105 | the stored autumn token "FW" canonicalises to "F" and the stored spring token "SS" to "S" |
| CodesProperties.StoredSeasonsCanonicalise | owenscrape/codes.py:114 | canonicalising a stored season never fails: "FW" is "F" and "SS" is "S" |
| CodesProperties.UpperIsFW | owenscrape/codes.py:101-102 | a token upper-cases to "FW" iff it is one of its four case spellings |
| CodesProperties.UpperIsAW | owenscrape/codes.py:101-102 | a token upper-cases to "AW" iff it is one of its four case spellings |
| CodesProperties.UpperIsF | owenscrape/codes.py:101-102 | a token upper-cases to "F" iff it is "F" or "f" |
| CodesProperties.UpperIsSS | owenscrape/codes.py:101-104 | a token upper-cases to "SS" iff it is one of its four case spellings |
| CodesProperties.UpperIsS | owenscrape/codes.py:101-104 | a token upper-cases to "S" iff it is "S" or "s" |
| CodesProperties.DisjointAliases | owenscrape/codes.py:102-104 | no spring alias is also an autumn alias, so the order of the two tests does not matter |
| CodesProperties.FallSpellings | owenscrape/codes.py:101-102 | the upper-cased token is FW, AW or F exactly for the ten case spellings of those |
| CodesProperties.SpringSpellings | owenscrape/codes.py:104 | the upper-cased token is SS or S exactly for the six case spellings of those |
| CodesProperties.CanonicaliseSeasonCases | owenscrape/codes.py:99-107 | "F" iff an autumn spelling, "S" iff a spring spelling, else exactly the Season failure on the upper-cased token |
| CodesProperties.CanonicaliseSeasonIdempotent | owenscrape/codes.py:99-107 | a canonical season canonicalises to itself |
| CodesProperties.CanonicaliseSeasonRejectsAS | tests/test_codes.py:27-28 | "as" is a Season failure naming "AS" |
| CodesProperties.ScanFromFirstMatch | owenscrape/codes.py:113-118 | the scan from entry i returns the first matching entry at or after i, or the registry miss when none matches |
| CodesProperties.CollectionForFirstMatch | owenscrape/codes.py:110-118 | an invalid query fails before the scan; otherwise the first match in declaration order, or the registry miss when there is none |
| CodesProperties.CollectionForSound | owenscrape/codes.py:113-115 | every found collection is some first-matching registry entry |
| CodesProperties.FirstMatchAtOrBefore | owenscrape/codes.py:113-115 | a matching entry has a first matching entry at or before it |
| CodesProperties.ScanStep | owenscrape/codes.py:113-114 | an entry of another year, or whose stored season is another season, hands the scan to the next entry |
| CodesProperties.ScanPassesTo | owenscrape/codes.py:113-114 | a scan that passes entries i to k-1 continues as the scan from k |
| CodesProperties.ScanHit | owenscrape/codes.py:114-115 | a scan that reaches a matching entry returns it |
| CodesProperties.ScanSkipsTo | owenscrape/codes.py:113-115 | a scan that passes entries i to k-1 and matches entry k returns entry k |
| CodesProperties.ScanRunsOut | owenscrape/codes.py:113-118 | a scan that passes every remaining entry is the registry miss for the year and canonical season |
| CodesProperties.CollectionForIsScan | owenscrape/codes.py:112-113 | for a valid query season, find_collection is the scan of the registry for its canonical form |
| CodesProperties.BeforeRecentRuns | owenscrape/codes.py:40-70 | a year before 2006 is the year of none of the first 31 entries |
| CodesProperties.BeforeRun2005To2003 | owenscrape/codes.py:71-78 | a year before 2003 is the year of none of entries 31 to 38 |
| CodesProperties.AutumnOf04IsRevillon | owenscrape/codes.py:73-74 | autumn 2004 finds REVILLON; QUEEN, which also matches, is shadowed |
| CodesProperties.Autumn04Scan | owenscrape/codes.py:73-74 | the scan for autumn 2004 returns REVILLON, entry 33, although entry 34 (QUEEN) matches too |
| CodesProperties.AutumnOf19IsLarry | tests/test_codes.py:17-22 | ("19", autumn) finds LARRY with stored season "FW" |
| CodesProperties.Autumn19Scan | owenscrape/codes.py:42 | the scan for autumn 2019 returns LARRY |
| CodesProperties.AutumnOf15IsSphinx | owenscrape/codes.py:50 | ("15", autumn) finds SPHINX |
| CodesProperties.Autumn15Scan | owenscrape/codes.py:40-50 | the scan for autumn 2015 passes the ten entries of 2020-2016 and returns SPHINX |
| CodesProperties.Sphinx | owenscrape/codes.py:50 | entry 10 of the registry is SPHINX, autumn 2015 |
| CodesProperties.SpringOf20IsTecuatl | tests/test_codes.py:33 | ("20", spring) finds TECUATL |
| CodesProperties.Spring20Scan | owenscrape/codes.py:40-41 | the scan for spring 2020 passes PERFORMA and returns TECUATL |
| CodesProperties.RegistryMisses | tests/test_codes.py:24-25 | any season of 2000 and spring 2002 are the registry miss |
| CodesProperties.MissingScan | owenscrape/codes.py:116-118 | the scan for year 00 in either season, or for spring 2002, is the registry miss |
| CodesProperties.InvalidSeasonFailsFirst | owenscrape/codes.py:112 | an invalid season fails as a Season failure whatever the year |
| CodesProperties.CollectionForErrors | owenscrape/codes.py:110-118 | find_collection fails only as a Season failure or the registry miss |
| CodesProperties.RunLengthIs | owenscrape/codes.py:170-175 | the run length is fixed by its contract |
| CodesProperties.GreedySegment | owenscrape/codes.py:147-149 | the independent reference split: its three fields, concatenated, are a prefix of the remainder |
| CodesProperties.ConsecutiveSlices | owenscrape/codes.py:174 | three slices, each cut from where the previous one stopped, make one prefix |
| CodesProperties.GreedySegmentRuns | owenscrape/codes.py:168 | each greedy field is a maximal run of digits, capitals, digits |
| CodesProperties.SegmentClosedForm | owenscrape/codes.py:169-175 | each field is the run of its class at the front of what the previous pass left, whole when the run reached the end |
| CodesProperties.SegmentOfAllDigits | owenscrape/codes.py:169-175 | an all-digit remainder is both the item and the colour, with no fabric |
| CodesProperties.SegmentIsGreedyAfterEarlyStop | owenscrape/codes.py:169-175 | when the item digits stop before the end, the loops compute the greedy split |
| CodesProperties.SegmentIsGreedyIff | owenscrape/codes.py:169-175 | the loops agree with the greedy split iff the remainder is not a non-empty all-digit string |
| CodesProperties.SegmentExample | tests/test_codes.py:34-35 | "1704LLP54" splits into 1704, LLP, 54 |
| CodesProperties.UpperHasNoLowerCase | owenscrape/codes.py:153 | nothing lower-case survives upper() |
| CodesProperties.NormalisedChars | owenscrape/codes.py:153 | a normalised code holds only capitals, digits and underscores |
| CodesProperties.NormaliseFixesNormalForm | owenscrape/codes.py:153 | normalisation leaves a normal-form code as it is |
| CodesProperties.NormaliseIdempotent | owenscrape/codes.py:153 | normalising twice is normalising once |
| CodesProperties.NormaliseIgnoresCase | owenscrape/codes.py:153 | case does not affect the normal form |
| CodesProperties.NormaliseIgnoresPadding | owenscrape/codes.py:123 | stripping before normalising changes nothing |
| CodesProperties.NormaliseIgnoresSeparator | owenscrape/codes.py:153 | a non-word character anywhere does not affect the normal form |
| CodesProperties.PrefixSlices | owenscrape/codes.py:154-165 | the successive `[:2]`/`[2:]` cuts read s[0:2], s[2:4], s[4:5] and leave s[5:] |
| CodesProperties.PartsSlices | owenscrape/codes.py:154-165 | for a code assembled from a two-character line, a two-character year, a season character and a rest, the cuts read back exactly those parts |
| CodesProperties.DecodingOfParts | owenscrape/codes.py:153-177 | with a known line and a valid year, decode is the collection search on the season character, and on success the record of the line entry, the collection and the segments of the rest |
| CodesProperties.LineStage | owenscrape/codes.py:154-158 | an unknown line fails as a Line failure carrying the raw code; a known one proceeds with its entry |
| CodesProperties.YearStage | owenscrape/codes.py:160-165 | a year no collection has fails as a Year failure; otherwise the collection search on the next character decides |
| CodesProperties.SeasonStage | owenscrape/codes.py:165-177 | a search failure propagates; a found collection yields the record with the segments of the rest |
| CodesProperties.YearStageErrors | owenscrape/codes.py:160-165 | past the line, no failure is a Line failure |
| CodesProperties.SeasonStageErrors | owenscrape/codes.py:165 | past the year, failures are Season failures or the registry miss |
| CodesProperties.DecodingLineFailure | owenscrape/codes.py:154-158 | decode is the Line failure iff s[0:2] is not a LINES key |
| CodesProperties.DecodingYearFailure | owenscrape/codes.py:160-163 | decode is the Year failure iff the line is known and s[2:4] is no collection's year |
| CodesProperties.DecodingAfterPrefix | owenscrape/codes.py:165-177 | with a known line and year, decode is the search failure or the record of line entry, collection and segments |
| CodesProperties.DecodingSeasonFailure | owenscrape/codes.py:165 | with a known line and year and a season char other than F/S, decode is the Season failure carrying that character |
| CodesProperties.DecodingSuccessStages | owenscrape/codes.py:153-177 | a successful decode passed every stage, and its record is built from them |
| CodesProperties.CanonicalSeasonsAreFixed | owenscrape/codes.py:102-105 | "F" and "S" canonicalise to themselves |
| CodesProperties.DecodingSuccess | owenscrape/codes.py:153-177 | a success has the line and gender of LINES[s[0:2]], season char F or S, and segments equal to those of s[5:] |
| CodesProperties.DecodingCollection | owenscrape/codes.py:165 | a success's collection is the first registry entry of year s[2:4] and season s[4:5] |
| CodesProperties.DecodedSeasonIsToken | owenscrape/codes.py:165 | the collection of a successful decode carries the stored token "FW" or "SS", never "F" or "S" |
| CodesProperties.YearOfEntryIsValid | owenscrape/codes.py:160 | every collection's year is in valid_years |
| CodesProperties.Year20IsValid | owenscrape/codes.py:160 | "20" is in valid_years |
| CodesProperties.LineRP | owenscrape/codes.py:5-33 | "RP" is the Precollection line for women |
| CodesProperties.LineCW | owenscrape/codes.py:5-33 | "CW" is the Champion line for women |
| CodesProperties.ExampleNormalForm | owenscrape/codes.py:153 | "RP20S1704LLP54" is already in normal form |
| CodesProperties.ExampleParts | owenscrape/codes.py:154-165 | "RP20S1704LLP54" is the line RP, the year 20, the season S and the rest 1704LLP54 |
| CodesProperties.DecodingExample | tests/test_codes.py:31-37 | "RP20S1704LLP54" is Precollection, Women, TECUATL, 1704, LLP, 54 |
| CodesProperties.DecodingOnlySeesNormalForm | owenscrape/codes.py:153 | codes with the same normal form decode alike |
| CodesProperties.SeparatedSpelling | owenscrape/codes.py:153 | a separator inside a stripped code does not change the normal form |
| CodesProperties.LowerCaseUpper | owenscrape/codes.py:153 | "rp20s1704llp54" upper-cases to "RP20S1704LLP54" |
| CodesProperties.LowerCaseSpelling | owenscrape/codes.py:153 | the lower-case spelling has the upper-case normal form |
| CodesProperties.PaddedParts | owenscrape/codes.py:123 | "  rp20s1704llp54  " is two spaces, the lower-case code and two spaces |
| CodesProperties.LowerPaddedSpelling | owenscrape/codes.py:123 | a padded lower-case spelling has the same normal form |
| CodesProperties.SeparatedSpellings | owenscrape/codes.py:153 | the parse test's spelling "RP20S1704LLP 54" and the hyphenated "RP20S1704LLP-54" have the plain normal form |
| CodesProperties.SpellingsDecodeAlike | owenscrape/codes.py:153 | a code written with a space, with a hyphen, or in lower case between spaces decodes, to the same record as its normal form |
| CodesProperties.SegmentOfRuns | owenscrape/codes.py:166-175 | a remainder of that shape splits into exactly its three runs |
| CodesProperties.DecodingOfRuns | owenscrape/codes.py:153-177 | a known line, a valid year, a season with a collection and a remainder of that shape decode to the line entry, the collection and the three runs |
| CodesProperties.DropSeparator | owenscrape/codes.py:153 | deleting one non-word character anywhere keeps the normal form |
| CodesProperties.LineDU | owenscrape/codes.py:13 | "DU" is the DRKSHDW line for men |
| CodesProperties.LineRR | owenscrape/codes.py:26 | "RR" is the Runway line for men |
| CodesProperties.LineRA | owenscrape/codes.py:20 | "RA" is the unisex Accessories line |
| CodesProperties.DocstringNormalForm | owenscrape/codes.py:153 | "DU15F5152-R 09" normalises to "DU15F5152R09" |
| CodesProperties.DocstringParts | owenscrape/codes.py:147-149 | "DU15F5152R09" is DU, 15, F and the runs 5152, R, 09 |
| CodesProperties.DocstringExample | owenscrape/codes.py:147-149 | the docstring's example decodes as its six sections say: DRKSHDW, Men, SPHINX (autumn 2015), 5152, R, 09 |
| CodesProperties.SampleLSNNormalForm | tests/test_codes.py:42 | "RP20S1704LSN 09" normalises to "RP20S1704LSN09" |
| CodesProperties.SampleLSNParts | tests/test_codes.py:42 | its parts: RP, 20, S and the runs 1704, LSN, 09 |
| CodesProperties.SampleLSN | tests/test_codes.py:42 | the second sample code decodes without raising: Precollection, Women, TECUATL, 1704, LSN, 09 |
| CodesProperties.SampleLTYNormalForm | tests/test_codes.py:43 | "RR20S7424LTY 2208" normalises to "RR20S7424LTY2208" |
| CodesProperties.SampleLTYParts | tests/test_codes.py:43 | its parts: RR, 20, S and the runs 7424, LTY, 2208 |
| CodesProperties.SampleLTY | tests/test_codes.py:43 | the third sample code decodes without raising: Runway, Men, TECUATL, 7424, LTY, 2208 |
| CodesProperties.SampleGDSTBNormalForm | tests/test_codes.py:44 | "RA19F0493GDSTB-3409" normalises to "RA19F0493GDSTB3409" |
| CodesProperties.SampleGDSTBParts | tests/test_codes.py:44 | its parts: RA, 19, F and the runs 0493, GDSTB, 3409 |
| CodesProperties.SampleGDSTB | tests/test_codes.py:44 | the fourth sample code decodes without raising: Accessories, Unisex, LARRY, 0493, GDSTB, 3409 |
| CodesProperties.YearsOutsideRegistry | owenscrape/codes.py:160-163 | years 00, 01 and 21 are not valid years |
| CodesProperties.DecodingRegistryMiss | owenscrape/codes.py:165 | known line, year 02, season S: decode is the registry miss, not a parse failure |
| CodesProperties.ChampionSpelling | tests/test_codes.py:51 | the normal form of "cw20s0004113688-09" is "CW20S000411368809" |
| CodesProperties.ChampionUpper | owenscrape/codes.py:153 | "cw20s000411368809" upper-cases to "CW20S000411368809" |
| CodesProperties.ChampionLowerCase | owenscrape/codes.py:153 | "cw20s000411368809" normalises to "CW20S000411368809" |
| CodesProperties.ChampionParts | owenscrape/codes.py:154-165 | "CW20S000411368809" is the line CW, the year 20, the season S and the rest 000411368809 |
| CodesProperties.ChampionSegment | owenscrape/codes.py:169-175 | the all-digit remainder is taken whole as item and again as colour |
| CodesProperties.ChampionCodeAsWritten | tests/test_codes.py:49-58 | the champion code decodes, as the code is written, to item = colour = "000411368809", not the components the test lists |
| Csv.Quote | scraper/csv.py:22 | a value written between single quotes, unchanged inside |
| Csv.JoinQuoted | scraper/csv.py:22 | the quoted columns joined with commas; ParseFieldsJoin reads it back |
| Csv.ToCsv | scraper/csv.py:21-22 | a row ends in its one newline, and when no column contains a quote it reads back as exactly its columns (round trip with ParseRow) |
| Csv.ToCsvEmpty | scraper/csv.py:21-22 | no columns give the bare newline |
| Csv.ToCsvSingle | scraper/csv.py:21-22 | one column is written verbatim between quotes |
| Csv.ToCsvCons | scraper/csv.py:21-22 | columns are written in order, comma-separated |
| Csv.QuoteIndex | scraper/csv.py:22 | the first quote: none before it, a quote at it |
| Csv.ParseFieldsLast | scraper/csv.py:22 | one quoted quote-free value is read back as that value |
| Csv.ParseFieldsCons | scraper/csv.py:22 | a quoted quote-free value, a comma and a readable rest are read back as the value followed by the rest |
| Csv.ParseFieldsJoinOne | scraper/csv.py:22 | a single quote-free column reads back as itself |
| Csv.ParseFieldsJoinCons | scraper/csv.py:22 | a quote-free first column in front of columns that read back: the whole join reads back |
| Csv.ParseFieldsJoin | scraper/csv.py:22 | the joined fields of quote-free columns are read back as the columns |
| Csv.ToCsvIsAmbiguous | scraper/csv.py:21-22 | without escaping, one value containing `','` is written exactly as two columns |
| Csv.ItemColumns | scraper/csv.py:24-27 | an item row has as many columns as the header |
| Csv.ItemToCsv | scraper/csv.py:24-27 | item_to_csv on a raw code and its decoded record; ParseItemRow reads it back to the eight columns |
| Csv.ItemRow | scraper/csv.py:24-27 | item_to_csv on an ItemCode object whose attributes decode has set |
| Csv.ItemColumnsMatchHeaders | scraper/csv.py:30 | column i of an item row holds the attribute header i names |
| Csv.ItemSeasonIsStoredToken | scraper/csv.py:25 | the season column of a decoded item is "FW" or "SS" |
| Csv.ParseItemRow | scraper/csv.py:24-27 | an item row of quote-free values reads back to its eight columns |
| Fetch.GetCode | product_codes/fetch.py:20-21 | the code has no "/", is a suffix of the url, and is the whole url or preceded by "/" |
| Fetch.GetCodeAfterSlash | product_codes/fetch.py:20-21 | get_code recovers any slash-free code put after a "/" |
| Fetch.GetCodeWithoutSlash | product_codes/fetch.py:20-21 | a url without "/" is its own code |
| Fetch.GetCodeOfTrailingSlash | product_codes/fetch.py:20-21 | a url ending in "/" has the empty code |
| Fetch.RecentMtime | product_codes/fetch.py:55 | the lambda recent_mtime: more than 86400 seconds since the path was modified |
| Fetch.Check | product_codes/fetch.py:51-60 | check on the file system and the time it reads; CheckIff states both directions of its answer |
| Fetch.FetchedIsSkipped | product_codes/fetch.py:56-57 | a fetched page means the url is skipped, whatever the failure marker |
| Fetch.FreshFailureIsSkipped | product_codes/fetch.py:58-59 | a failure marker at most a day old means the url is skipped |
| Fetch.CheckIff | product_codes/fetch.py:51-60 | check holds iff no page was fetched and the marker is absent or over 86400 seconds old |
| Fetch.CheckMonotoneInTime | product_codes/fetch.py:55 | a url check accepts stays accepted at every later time |
| Fetch.CheckSeesOnlyTheCode | product_codes/fetch.py:52 | urls with the same code get the same answer |
| Fetch.Filter | product_codes/fetch.py:34-37 | the urls accepted at their own positions, in order; FilterAppend and FilterMembers state what it keeps |
| Fetch.Keep | product_codes/fetch.py:36 | the test fill_queue applies to the line at position i: check at the time read for that line |
| Fetch.Accepted | product_codes/fetch.py:33-37 | the queue fill_queue builds: the stripped lines check accepts, each at the time read for its line; AcceptedMembers and AcceptedAppend state it |
| Fetch.FilterAppend | product_codes/fetch.py:34-37 | filtering keeps order piece by piece, the second piece counted from where the first ends |
| Fetch.FilterMembers | product_codes/fetch.py:36 | a url passes iff it stands at some position where it is accepted |
| Fetch.FilterSound | product_codes/fetch.py:36-37 | every url that passes was accepted at its own position |
| Fetch.FilterComplete | product_codes/fetch.py:36-37 | every url accepted at its own position passes |
| Fetch.StripAllAppend | product_codes/fetch.py:34-35 | stripping two pieces of the file is stripping each |
| Fetch.AcceptedAppend | product_codes/fetch.py:34-37 | the queue of a file in two pieces is the queue of the first, then of the second |
| Fetch.AcceptedMembers | product_codes/fetch.py:34-37 | a url is queued iff it is the stripped form of some line that check accepts at the time read for that line |
| Fetch.AcceptedLater | product_codes/fetch.py:55 | while the clock moves forward, a url check accepts at one line is accepted again at a later line with the same url |
| Fetch.Fetcher.constructor | product_codes/fetch.py:25-28 | every line of the file unread and an empty queue |
| Fetch.Fetcher.FillQueue | product_codes/fetch.py:33-38 | all lines are consumed and the queue grows by exactly the stripped lines check accepts, each checked at its own time reading, in file order |

## Left out

- Worker threads, `requests`, the `headers` dict and the main block of product_codes/fetch.py (lines 15-17 and 63-91) are left out: they are network I/O and concurrency. `queue.Queue` is modelled as a sequence that only grows.
- `mark_failed` (product_codes/fetch.py:46-48) is left out: it only writes the marker file whose age `check` reads. The file system is a parameter of `check`.
- Fetch.Check: `os.path.exists`, `os.path.getmtime` and `time()` become the parameters `fs` (a map from path to modification time) and `now`. Times are integer seconds where Python uses floats.
- Fetch.Fetcher.FillQueue: the file handle is modelled as the sequence of its unread lines, and the closing `print` of the queue size is left out. `time()` is read afresh by every call of check; the model takes those readings as a parameter `clock`, where `clock(i)` is the time read while checking the i-th line. Nothing forces the readings to increase, except where a lemma (AcceptedLater) asks for it. The file system is taken to stay the same while the loop runs, because nothing in fill_queue writes to it.
- `Fetcher.__iter__`/`__next__` (product_codes/fetch.py:30-43) are left out: they are plain queue access around `Queue.get`.
- `parse_codes_from_file` and the module-level script of scraper/csv.py (lines 4-16 and 29-33) are file I/O and printing, and are left out. `HEADERS` and `ItemRow` model what that script writes for each item.
- `ItemCode.__str__` and `__repr__` (owenscrape/codes.py:131-136) are display only and are left out. So is `OldCode`, which adds nothing.
- The message text of `ParseCodeFailedException` and of the `ValueError` is left out. The model keeps the raw code (or token), the component and the year and season of the miss.
- Codes.ItemCode.Decode: the Python assigns line and gender before the year is checked, so a failed decode leaves them half set. Because `NewCode` raises out of the constructor, no caller can observe that object. The model therefore sets every attribute at once on success and leaves the object unchanged on failure.
- Text: only ASCII semantics are modelled. `upper()` changes only a-z, and every non-ASCII character counts as non-word, so normalisation deletes it. Python's Unicode case mapping and Unicode `\w` are not modelled.
- The `LINES` registry is modelled as a map in which the duplicated "RW" key (owenscrape/codes.py:29-30) collapses, as in Python. No lemma states how many line codes there are.
- setup.py and the packaging are not part of this model.
