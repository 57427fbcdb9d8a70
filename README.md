# Ward-spending location parsing and geocoding, modelled in Dafny

The ward-wise data-analysis project reads the menu-spending PDFs that Chicago's aldermen
publish, turns each spending row into a category and a geometry, and geocodes street
resurfacing from the city's moratorium list.  This project models the core of that
pipeline and proves properties of the model:

- **Location parsing.**  A location text such as `1200 W MADISON ST` or
  `N CLARK ST & W DIVERSEY PKWY` is classified by a table of regular expressions, tried in
  order, and then taken apart by the extractor of its format.  Four revisions of this
  parser are modelled, each from its own file:
  - the class-based `ward_spending` parser (`location_format.dfy`);
  - the older `src` parser (`src_location_format.dfy`);
  - the `src/ward_spending` copy with its own pattern table (`ward_location_format.dfy`);
  - the token-count classifier of `address_processing.py` (`address_processing.dfy`).

  The regular expressions run on a small backtracking matcher (`regex.dfy`) that follows
  Python's `re.match`: leftmost alternatives first, greedy and lazy repetition, captures,
  and `$` that also matches before a final newline.  The street-name grammar is in
  `streets.dfy`, the patterns are in `patterns.dfy`, and the location values of both
  revisions are in `locations.dfy`.
- **Geocoding.**  The three assemblers split a location text on `;`, geocode each piece
  by its format, and union the pieces' shapes (`location_geocoding.dfy`,
  `src_address_geocoding.dfy`, `ward_address_geocoding.dfy`).  The shared shapes, the
  union fold and the clockwise ordering of alley corners are in `geometry.dfy`.  The
  local address-point geocoder is in `address_points.dfy`.
- **Categorisation.**  The keyword chain that files a menu item under one of twelve
  categories, or "Misc.", is in `categorization.dfy`.
- **The PDF table reader.**  The visitor that rebuilds table rows from positioned text
  fragments, and the writer's row filter, are in `pdf_table.dfy`.
- **Street resurfacing.**  Centre-line preparation and the in-place stamping of
  moratoriums onto street segments are in `resurfacing.dfy`.

Python exceptions are modelled as values (`Outcome`: `Raised` or `Returned`), so every
error path of the source is part of a contract.  The geocoders, atan2 and the files are
parameters.

## Model

| member | source | states |
|---|---|---|
| Locations.StreetStr | chicago_participatory_urbanism/location_structures.py:10-11 | the rendering is direction, space, name, space, type, with each field at its place |
| Locations.StreetStrSplit | chicago_participatory_urbanism/location_structures.py:10-11 | a street whose direction and type are single words renders to words that split back into direction, the name's words and type |
| Locations.StreetStrInjective | chicago_participatory_urbanism/location_structures.py:4-11 | two such streets with the same rendering are equal |
| Locations.AddressStrInjective | chicago_participatory_urbanism/location_structures.py:23-29 | two addresses on such streets with the same rendering are equal |
| Locations.IntersectionStrSplit | chicago_participatory_urbanism/location_structures.py:19-20 | an intersection of streets without '&' renders to exactly two '&'-separated parts, the two streets |
| Locations.IntersectionStrInjective | chicago_participatory_urbanism/location_structures.py:14-20 | two such intersections with the same rendering are equal |
| SrcLocations.FromStreet | src/chicago_participatory_urbanism/location_structures.py:4-11 | moving a street to the src field order keeps its rendering |
| SrcLocations.EqualImpliesSame | src/chicago_participatory_urbanism/location_structures.py:4-8 | equal streets compare equal under the src equality |
| SrcLocations.SameIgnoresDirectionAndType | src/chicago_participatory_urbanism/location_structures.py:4-8 | the src equality (`compare=False` on direction and type) identifies streets that differ only there, which the first revision does not |
| SrcLocations.SwapSameIff | src/chicago_participatory_urbanism/location_structures.py:14-17 | an intersection equals its swap exactly when both streets have the same name |
| SrcLocations.SameIsEquivalence | src/chicago_participatory_urbanism/location_structures.py:4-8 | the src street equality is reflexive, symmetric and transitive |
| SrcLocations.EmptyFieldsLeaveSpaces | src/chicago_participatory_urbanism/location_structures.py:10-11 | a street with an empty direction (type) renders with a leading (trailing) space |
| Regex.FirstParseSound | chicago_participatory_urbanism/ward_spending/location_format_processing.py:69 | the backtracking matcher only returns a parse that is valid for the pattern |
| Regex.FirstParseComplete | chicago_participatory_urbanism/ward_spending/location_format_processing.py:69 | if any valid parse exists, the matcher finds one |
| Regex.MatchesIffParse | chicago_participatory_urbanism/ward_spending/location_format_processing.py:69 | `re.match` succeeds exactly when a valid parse exists |
| Regex.MatchCovers | chicago_participatory_urbanism/ward_spending/location_format_processing.py:36 | a pattern ending in `$` consumes the whole text or all of it but a final newline |
| Regex.MatchGroup | chicago_participatory_urbanism/ward_spending/location_format_processing.py:244-247 | a group is only available on a match |
| Regex.MatchedText | src/chicago_participatory_urbanism/address_format_processing.py:113-117 | `match.group(0)` is a prefix of the text, and only exists on a match |
| Regex.TooShort | chicago_participatory_urbanism/ward_spending/location_format_processing.py:69 | a text shorter than the pattern's minimum length does not match |
| Regex.RunEnd | chicago_participatory_urbanism/ward_spending/location_format_processing.py:27 | a greedy run of a class stops at the first character outside the class |
| Text.StripLeft | chicago_participatory_urbanism/ward_spending/location_format_processing.py:57 | removes exactly the leading whitespace |
| Text.StripRight | chicago_participatory_urbanism/ward_spending/location_format_processing.py:57 | removes exactly the trailing whitespace and keeps a prefix |
| Text.Strip | chicago_participatory_urbanism/ward_spending/location_format_processing.py:57 | the result neither starts nor ends with whitespace |
| Text.StripIsStrip | chicago_participatory_urbanism/ward_spending/location_format_processing.py:57 | the result is the text with its maximal whitespace margins cut (independent definition) |
| Text.StripUnique | chicago_participatory_urbanism/ward_spending/location_format_processing.py:57 | that cut is unique, so it is the result |
| Text.StripIdempotent | chicago_participatory_urbanism/ward_spending/location_format_processing.py:67-69 | stripping twice equals stripping once (the second `strip` at line 69 changes nothing) |
| Text.Split | chicago_participatory_urbanism/ward_spending/location_format_processing.py:58 | at least one part, none containing the separator |
| Text.JoinSplit | chicago_participatory_urbanism/ward_spending/location_format_processing.py:58 | joining the parts with the separator gives the text back |
| Text.SplitJoin | chicago_participatory_urbanism/ward_spending/location_format_processing.py:150 | splitting a join of separator-free parts gives the parts back |
| Text.SplitCount | chicago_participatory_urbanism/ward_spending/location_format_processing.py:58 | there is one more part than separators |
| Text.SplitConcat | chicago_participatory_urbanism/ward_spending/location_format_processing.py:58 | splitting a text glued at a separator is the concatenation of the two splits |
| Text.Lower | src/chicago_participatory_urbanism/ward_spending/categorization.py:32 | `lower()` maps each character and keeps the length |
| Text.LowerIdempotent | src/chicago_participatory_urbanism/ward_spending/categorization.py:32 | lower-casing twice equals once |
| Text.Upper | src/chicago_participatory_urbanism/geocoder.py:18 | `upper()` maps each character and keeps the length |
| Text.NatDigits | chicago_participatory_urbanism/location_structures.py:28-29 | the decimal rendering of a natural is non-empty digits that read back to it, without a leading zero |
| Text.IntToString | chicago_participatory_urbanism/location_structures.py:28-29 | the rendering of an integer has no space, ';' or '&' and starts with a digit or '-' |
| Text.ParseIntToString | chicago_participatory_urbanism/ward_spending/location_format_processing.py:147 | `int(str(n)) == n` |
| Text.ParseDigits | chicago_participatory_urbanism/ward_spending/location_format_processing.py:147 | `int()` of an ASCII digit string is its decimal value |
| Text.DropUnderscores | chicago_participatory_urbanism/ward_spending/location_format_processing.py:147 | dropping the underscores Python's `int()` allows leaves only digits |
| Streets.SuffixFacts | chicago_participatory_urbanism/ward_spending/location_format_processing.py:26 | the 22 street suffixes, their upper-case letters, and that "PL" is the only one that is a prefix of another ("PLZ") |
| Streets.GreedyPhrase | chicago_participatory_urbanism/ward_spending/location_format_processing.py:27 | the greedy `(.*)` of a street phrase backtracks to the last good suffix; the phrase then parses with the given name capture |
| Streets.InnerPhrase | chicago_participatory_urbanism/ward_spending/location_format_processing.py:27 | a street phrase followed by more text captures exactly its own name when a later literal is missing from the rest |
| Streets.LastPhrase | chicago_participatory_urbanism/ward_spending/location_format_processing.py:27 | a street phrase at the end of the text parses through `$` |
| LocationPatterns.IntersectionMatch | chicago_participatory_urbanism/ward_spending/location_format_processing.py:49 | the rendered text of an intersection of well-formed streets matches the INTERSECTION pattern at the expected positions |
| LocationPatterns.IntersectionGroups | chicago_participatory_urbanism/ward_spending/location_format_processing.py:49 | its two groups are the two street names |
| Classify.FirstMatch | chicago_participatory_urbanism/ward_spending/location_format_processing.py:291-297 | Some exactly when some table pattern matches, and then the format of the first one that matches |
| Classify.FirstIndex | chicago_participatory_urbanism/ward_spending/location_format_processing.py:68-74 | the index where the loop breaks: it matches, and no earlier entry does |
| Classify.NoMatchGivesDefault | src/chicago_participatory_urbanism/address_format_processing.py:106-112 | when no entry carries the default, the default comes back exactly when nothing matches |
| Classify.CollectAtMostOne | chicago_participatory_urbanism/ward_spending/location_format_processing.py:65-75 | a loop appending at most one item per input keeps count and order, and every item comes from some input |
| Classify.CollectAllReturned | chicago_participatory_urbanism/ward_spending/location_format_processing.py:78-131 | a loop appending one result per input returns exactly when no step raises, with the results in order |
| Classify.CollectAllRaised | chicago_participatory_urbanism/ward_spending/location_format_processing.py:78-131 | one raising step makes the whole loop raise |
| Classify.RenderAllChunks | src/chicago_participatory_urbanism/address_format_processing.py:155-161 | when every piece renders without ';', the output ends in ';' and its ';'-split is the rendered pieces plus an empty tail |
| Classify.RenderAllRaises | src/chicago_participatory_urbanism/address_format_processing.py:155-161 | one failing piece makes the whole rendering raise |
| Classify.TextFormatLoop | src/chicago_participatory_urbanism/address_format_processing.py:155-161 | the concatenating loop computes that rendering |
| LocationFormatProcessing.GetLocationFormat | chicago_participatory_urbanism/ward_spending/location_format_processing.py:291-297 | the result is Some exactly when one of the seven table patterns matches the stripped text, and it is never UNIDENTIFIED |
| LocationFormatProcessing.ShortTextUnidentified | chicago_participatory_urbanism/ward_spending/location_format_processing.py:34-50 | every pattern needs at least two characters, so a text of length 0 or 1 gets no format |
| LocationFormatProcessing.PatternsNeedTwo | chicago_participatory_urbanism/ward_spending/location_format_processing.py:34-50 | each of the seven patterns has a minimum match length of at least 2 |
| LocationFormatProcessing.IntersectionClassified | chicago_participatory_urbanism/ward_spending/location_format_processing.py:41-49 | a text the INTERSECTION pattern matches always gets a format (some earlier pattern, or INTERSECTION itself) |
| LocationFormatProcessing.ExtractStreetAddress | chicago_participatory_urbanism/ward_spending/location_format_processing.py:144-154 | a returned address has a tokenised street (direction and type are single words); the call raises when the first word is not a number or there is no second word |
| LocationFormatProcessing.SingleWordRaises | chicago_participatory_urbanism/ward_spending/location_format_processing.py:146-148 | a stripped text without a space raises (the direction `address_parts[1]` is missing) |
| LocationFormatProcessing.ExtractRenderedAddress | chicago_participatory_urbanism/ward_spending/location_format_processing.py:144-154 | parsing the rendered text of a street address gives back the same address (round trip with `StreetAddress.__str__`) |
| LocationFormatProcessing.RenderedParts | chicago_participatory_urbanism/ward_spending/location_format_processing.py:146-151 | the space-split words of a rendered address are the number, the direction, the name's words and the type |
| LocationFormatProcessing.ExtractedAddressRenders | chicago_participatory_urbanism/ward_spending/location_format_processing.py:144-154 | the other direction of the round trip: when the text has at least four words and a canonical number, rendering the parsed address gives the stripped text back |
| LocationFormatProcessing.ExtractNumbered | chicago_participatory_urbanism/ward_spending/location_format_processing.py:144-154 | for "digits street" the number is the digits' value and the street comes from the words of the street text |
| LocationFormatProcessing.AddressRangeRaises | chicago_participatory_urbanism/ward_spending/location_format_processing.py:241-252 | the range extractor raises exactly when the STREET_ADDRESS_RANGE pattern does not match (the `match.group` on None) |
| LocationFormatProcessing.AddressRangeOutcome | chicago_participatory_urbanism/ward_spending/location_format_processing.py:241-252 | on a match, groups 1 and 2 are the digits before and after the '-', and the result is the two addresses "n1 street" and "n2 street" |
| LocationFormatProcessing.Nameless | chicago_participatory_urbanism/ward_spending/location_format_processing.py:188-190 | a street built from a captured name has that name and empty direction and type |
| LocationFormatProcessing.SegmentIntersectionsOutcome | chicago_participatory_urbanism/ward_spending/location_format_processing.py:176-197 | the result is a pair exactly when the pattern matches (otherwise `(None, None)`); both intersections share the primary street of group 1, crossed with groups 2 and 3 |
| LocationFormatProcessing.SegmentIntersectionsGroups | chicago_participatory_urbanism/ward_spending/location_format_processing.py:43 | on a match, the three captured street names exist and hold no newline |
| LocationFormatProcessing.IntersectionOutcome | chicago_participatory_urbanism/ward_spending/location_format_processing.py:227-238 | the result is returned exactly when the INTERSECTION pattern matches, and it is the intersection of the two captured names |
| LocationFormatProcessing.IntersectionRoundTrip | chicago_participatory_urbanism/ward_spending/location_format_processing.py:227-238 | the rendered text of an intersection of two well-formed streets parses back to the intersection of their names |
| LocationFormatProcessing.SegmentAddressIntersectionOutcome | chicago_participatory_urbanism/ward_spending/location_format_processing.py:255-270 | on a match the result is (address of group 3 on the street of group 1, intersection of groups 2 and 4) |
| LocationFormatProcessing.SegmentAddressIntersectionRaises | chicago_participatory_urbanism/ward_spending/location_format_processing.py:255-270 | the extractor raises exactly when its pattern does not match |
| LocationFormatProcessing.SegmentIntersectionAddressOutcome | chicago_participatory_urbanism/ward_spending/location_format_processing.py:273-288 | on a match the result is (intersection of groups 2 and 3, address of group 4 on the street of group 1) |
| LocationFormatProcessing.SegmentIntersectionAddressRaises | chicago_participatory_urbanism/ward_spending/location_format_processing.py:273-288 | the extractor raises exactly when its pattern does not match |
| LocationFormatProcessing.AlleyPairsCover | chicago_participatory_urbanism/ward_spending/location_format_processing.py:214-224 | the alley list has seven entries, the first pair twice, and every pair of the four streets occurs in it |
| LocationFormatProcessing.AlleyPairsOnly | chicago_participatory_urbanism/ward_spending/location_format_processing.py:214-224 | every entry of the alley list is the intersection of two distinct streets, in their textual order |
| LocationFormatProcessing.AlleyIntersectionsList | chicago_participatory_urbanism/ward_spending/location_format_processing.py:215-224 | the appending steps build exactly the seven-pair list |
| LocationFormatProcessing.AlleyOutcome | chicago_participatory_urbanism/ward_spending/location_format_processing.py:200-224 | the alley extractor returns exactly when the ALLEY pattern matches; the four groups then exist, hold no newline and give the pair list |
| LocationFormatProcessing.SegmentAddressRangeOutcome | chicago_participatory_urbanism/ward_spending/location_format_processing.py:157-173 | on a match of the word pattern, the result is the two addresses built from groups 2 and 3 on the street of group 1 |
| LocationFormatProcessing.SegmentAddressRangeNone | chicago_participatory_urbanism/ward_spending/location_format_processing.py:157-173 | the extractor never raises on a non-match: it returns `(None, None)` exactly when its pattern does not match |
| LocationFormatProcessing.EntryOf | chicago_participatory_urbanism/ward_spending/location_format_processing.py:66-74 | a piece gives at most one entry; it gives one exactly when some pattern matches, and the entry holds the stripped piece and its format |
| LocationFormatProcessing.ClassifiedCount | chicago_participatory_urbanism/ward_spending/location_format_processing.py:61-75 | the entries are at most as many as the pieces, and as many exactly when every piece is classified |
| LocationFormatProcessing.ClassifiedSound | chicago_participatory_urbanism/ward_spending/location_format_processing.py:61-75 | every entry is the strip of some piece, is itself stripped, and carries the format that piece gets, never UNIDENTIFIED |
| LocationFormatProcessing.ClassifiedAppend | chicago_participatory_urbanism/ward_spending/location_format_processing.py:61-75 | classification distributes over concatenation of the piece lists, so it keeps the pieces' order |
| LocationFormatProcessing.EntryOfFormat | chicago_participatory_urbanism/ward_spending/location_format_processing.py:66-74 | a piece whose stripped text gets format f gives the entry (stripped piece, f) |
| LocationFormatProcessing.OutputOf | chicago_participatory_urbanism/ward_spending/location_format_processing.py:80-129 | an output keeps its entry's format |
| LocationFormatProcessing.ClassifiedOutput | chicago_participatory_urbanism/ward_spending/location_format_processing.py:80-129 | for a classified entry, producing its output succeeds unless the entry is a STREET_ADDRESS whose address extraction raises (every other extractor succeeds on text its own pattern matched) |
| LocationFormatProcessing.RunOnClassified | chicago_participatory_urbanism/ward_spending/location_format_processing.py:77-131 | `run` succeeds exactly when no STREET_ADDRESS entry raises; it then gives one output per entry, in order, with the entry's format |
| LocationFormatProcessing.ShortPiecesUnclassified | chicago_participatory_urbanism/ward_spending/location_format_processing.py:61-75 | pieces of length at most 1 are all dropped |
| LocationFormatProcessing.LocationStringProcessor.constructor | chicago_participatory_urbanism/ward_spending/location_format_processing.py:55-59 | the pieces are the ';'-split of the stripped text, and the formats are their classification |
| LocationFormatProcessing.LocationStringProcessor.GetLocationFormat | chicago_participatory_urbanism/ward_spending/location_format_processing.py:61-75 | the loop computes the classified entries of the pieces |
| LocationFormatProcessing.LocationStringProcessor.Run | chicago_participatory_urbanism/ward_spending/location_format_processing.py:77-131 | the loop computes the outputs of the entries, raising on the first failing extractor |
| LocationFormatProcessing.LocationStringProcessor.GetLocationTextFormat | chicago_participatory_urbanism/ward_spending/location_format_processing.py:133-141 | as written: each piece, a string, is classified character by character |
| LocationFormatProcessing.TextChunksAsWrittenEmpty | chicago_participatory_urbanism/ward_spending/location_format_processing.py:133-141 | as written, every chunk is empty: there is one per piece, and each holds no entry |
| LocationFormatProcessing.TextFormatLosesLocation | chicago_participatory_urbanism/ward_spending/location_format_processing.py:133-141 | a one-piece text that has a format is reported empty as written, but is classified by the corrected version |
| LocationFormatProcessing.IntersectionIsLost | chicago_participatory_urbanism/ward_spending/location_format_processing.py:48-49 | the sample "N ASHLAND AVE & W CHESTNUT ST" has no ';' and matches INTERSECTION, so it is such a text |
| LocationFormatProcessing.IntersectionKept | chicago_participatory_urbanism/ward_spending/location_format_processing.py:48-49 | every rendered intersection of well-formed streets matches INTERSECTION and has a format |
| LocationFormatProcessing.LocationStringProcessor.GetLocationTextFormatFixed | chicago_participatory_urbanism/ward_spending/location_format_processing.py:133-141 | corrected: each piece is classified as a one-element list |
| LocationFormatProcessing.TextChunksClassify | chicago_participatory_urbanism/ward_spending/location_format_processing.py:133-141 | corrected: one chunk per piece, equal to the piece's entry, non-empty exactly when the piece has a format |
| SrcLocationFormat.UnidentifyIffNoMatch | src/chicago_participatory_urbanism/address_format_processing.py:54-59 | the format is UNIDENTIFY exactly when none of the seven patterns matches the stripped text |
| SrcLocationFormat.AlleyBeforeIntersection | src/chicago_participatory_urbanism/address_format_processing.py:28-44 | a text the ALLEY pattern matches gets STREET_ADDRESS, STREET_ADDRESS_RANGE or ALLEY, never INTERSECTION, because ALLEY comes before it in the table |
| SrcLocationFormat.AlleyWithinFirstThree | src/chicago_participatory_urbanism/address_format_processing.py:28-44 | the same, stated on the table itself |
| SrcLocationFormat.StreetNameAndNumberIsWhole | src/chicago_participatory_urbanism/address_format_processing.py:110-119 | the result is Some exactly when the STREET_ADDRESS pattern matches the stripped text, and it is then the whole stripped text (`group(0)` of a pattern anchored at both ends); otherwise the pair (None, None) |
| SrcLocationFormat.AddressRangeStrings | src/chicago_participatory_urbanism/address_format_processing.py:188-198 | on a match, the two results are "n1 street" and "n2 street" for the captured digits n1, n2 and street; the copy at src/chicago_participatory_urbanism/ward_spending/address_format_processing.py:116-126 is the same function |
| SrcLocationFormat.AddressRangeAgreement | src/chicago_participatory_urbanism/address_format_processing.py:188-198 | these strings parse, with the later extractor, to exactly the two addresses that the later revision returns |
| SrcLocationFormat.AddressRangeRaises | src/chicago_participatory_urbanism/address_format_processing.py:188-198 | the extractor raises exactly when the pattern does not match |
| SrcLocationFormat.AlleyNames | src/chicago_participatory_urbanism/address_format_processing.py:166-175 | the extractor returns exactly when the greedy ALLEY pattern matches, giving the four captured names, none holding a newline; the copy at src/chicago_participatory_urbanism/ward_spending/address_format_processing.py:94-103 is the same function |
| SrcLocationFormat.IntersectionNames | src/chicago_participatory_urbanism/address_format_processing.py:178-185 | returns exactly when INTERSECTION matches; the two names are those the later revision wraps in streets; the copy at src/chicago_participatory_urbanism/ward_spending/address_format_processing.py:106-113 is the same function |
| SrcLocationFormat.IntersectionNamesRoundTrip | src/chicago_participatory_urbanism/address_format_processing.py:178-185 | the rendered text of an intersection of well-formed streets gives back their two names |
| SrcLocationFormat.SegmentIntersectionsNames | src/chicago_participatory_urbanism/address_format_processing.py:140-152 | a triple exactly when the pattern matches; the triple is the primary and two cross streets the later revision pairs up; the copy at src/chicago_participatory_urbanism/ward_spending/address_format_processing.py:69-81 is the same function |
| SrcLocationFormat.SegmentAddressRangeStrings | src/chicago_participatory_urbanism/address_format_processing.py:122-137 | on a match, the start and end address strings, which parse to two addresses on the same street with the captured numbers; the copy at src/chicago_participatory_urbanism/ward_spending/address_format_processing.py:51-66 is the same function |
| SrcLocationFormat.SegmentAddressRangeNone | src/chicago_participatory_urbanism/address_format_processing.py:122-137 | (None, None) exactly when the word pattern does not match |
| SrcLocationFormat.SegmentAddressIntersectionRaises | src/chicago_participatory_urbanism/address_format_processing.py:201-210 | raises exactly when its pattern does not match |
| SrcLocationFormat.SegmentAddressIntersectionAgreement | src/chicago_participatory_urbanism/address_format_processing.py:201-210 | on a match, the triple (address string, primary name, cross name), which agrees with the later revision's (address, intersection) |
| SrcLocationFormat.SegmentIntersectionAddressRaises | src/chicago_participatory_urbanism/address_format_processing.py:213-222 | raises exactly when its pattern does not match |
| SrcLocationFormat.SegmentIntersectionAddressAgreement | src/chicago_participatory_urbanism/address_format_processing.py:213-222 | on a match, the triple (primary name, cross name, address string), which agrees with the later revision's (intersection, address) |
| SrcLocationFormat.GetLocationTextFormat | src/chicago_participatory_urbanism/address_format_processing.py:155-163 | as written: the call of the undefined module-level `get_location_format` raises NameError on every input |
| SrcLocationFormat.GetLocationTextFormatFixed | src/chicago_participatory_urbanism/address_format_processing.py:155-163 | corrected: the output splits at ';' into one format name per piece, in order, plus an empty tail |
| SrcLocationFormat.FormatName | src/chicago_participatory_urbanism/address_format_processing.py:10-18 | the printed name of a format holds no ';', so the chunks stay separable |
| SrcLocationFormat.OutputOf | src/chicago_participatory_urbanism/address_format_processing.py:61-107 | the output keeps the processor's format |
| SrcLocationFormat.RunNeverRaises | src/chicago_participatory_urbanism/address_format_processing.py:61-107 | on a stripped, classified text `run` never raises: STREET_ADDRESS gives the whole text, UNIDENTIFY exactly gives None, and no extractor falls into its (None, None, None) branch |
| SrcLocationFormat.OutputReturns | src/chicago_participatory_urbanism/address_format_processing.py:61-107 | each extractor succeeds on a text its own pattern matches |
| SrcLocationFormat.TableEntry | src/chicago_participatory_urbanism/address_format_processing.py:28-44 | no table entry is UNIDENTIFY, and each entry carries its format's pattern |
| SrcLocationFormat.LocationStringProcessor.constructor | src/chicago_participatory_urbanism/address_format_processing.py:49-52 | the stored text is the stripped input, and the format is its classification |
| SrcLocationFormat.LocationStringProcessor.GetLocationFormat | src/chicago_participatory_urbanism/address_format_processing.py:54-59 | the loop returns the first matching format, or UNIDENTIFY |
| SrcLocationFormat.LocationStringProcessor.Run | src/chicago_participatory_urbanism/address_format_processing.py:61-107 | `run` gives the output for the stored format and never raises |
| WardLocationFormat.GetLocationFormat | src/chicago_participatory_urbanism/ward_spending/address_format_processing.py:41-48 | Some exactly when one of the seven patterns matches the stripped text; None otherwise (this revision has no UNIDENTIFIED) |
| WardLocationFormat.AlleyBeforeIntersection | src/chicago_participatory_urbanism/ward_spending/address_format_processing.py:22-38 | a text ALLEY matches gets STREET_ADDRESS, STREET_ADDRESS_RANGE or ALLEY, never INTERSECTION |
| WardLocationFormat.AlleyWithinFirstThree | src/chicago_participatory_urbanism/ward_spending/address_format_processing.py:22-38 | the same, on the table itself |
| WardLocationFormat.AddressIntersectionNumberParenthesised | src/chicago_participatory_urbanism/ward_spending/address_format_processing.py:35 | in this revision the captured number of STREET_SEGMENT_ADDRESS_INTERSECTION is the digits inside the cross street's parentheses, not the FROM number |
| WardLocationFormat.IntersectionAddressNumberParenthesised | src/chicago_participatory_urbanism/ward_spending/address_format_processing.py:37 | likewise, STREET_SEGMENT_INTERSECTION_ADDRESS captures the parenthesised number of the FROM street, not the TO number |
| WardLocationFormat.FormatText | src/chicago_participatory_urbanism/ward_spending/address_format_processing.py:84-92 | the printed form of a format, or "None", holds no ';' |
| WardLocationFormat.GetLocationTextFormat | src/chicago_participatory_urbanism/ward_spending/address_format_processing.py:84-92 | the output splits at ';' into one printed format per piece, in order, plus an empty tail |
| AddressProcessing.GetAddressFormat | src/chicago_participatory_urbanism/ward_spending/address_processing.py:32-38 | Some exactly when one of the seven patterns matches the (unstripped) address, and then the first such format |
| AddressProcessing.FormatPatternTokens | src/chicago_participatory_urbanism/ward_spending/address_processing.py:15-30 | a text matched by a format's pattern has exactly that format's number of whitespace-separated words (4, 4, 7, 15, 16, 13, 13) |
| AddressProcessing.FormatPatternCounts | src/chicago_participatory_urbanism/ward_spending/address_processing.py:15-30 | each pattern spells out that word count |
| AddressProcessing.FormatFixesTokens | src/chicago_participatory_urbanism/ward_spending/address_processing.py:32-38 | a classified address has the word count of its format |
| AddressProcessing.WordCountDecides | src/chicago_participatory_urbanism/ward_spending/address_processing.py:32-38 | for words joined by single spaces, the format (if any) is one whose word count is the number of words |
| AddressProcessing.JoinTokens | src/chicago_participatory_urbanism/ward_spending/address_processing.py:15-30 | words joined by single spaces count as that many words |
| AddressProcessing.IntersectionExcludesAlley | src/chicago_participatory_urbanism/ward_spending/address_processing.py:21-23 | no text matches both the INTERSECTION and the ALLEY pattern (7 words against 15), so the order of the two entries does not matter here |
| AddressProcessing.AlleyIsAlley | src/chicago_participatory_urbanism/ward_spending/address_processing.py:23 | a text the ALLEY pattern matches is classified ALLEY |
| AddressProcessing.IntersectionIsIntersection | src/chicago_participatory_urbanism/ward_spending/address_processing.py:21 | a text the INTERSECTION pattern matches is classified INTERSECTION |
| AddressProcessing.LeadingSpaceUnclassified | src/chicago_participatory_urbanism/ward_spending/address_processing.py:32-38 | no pattern accepts a leading space (this revision does not strip), so such an address gets None |
| AddressProcessing.SegmentIntersectionsIff | src/chicago_participatory_urbanism/ward_spending/address_processing.py:25 | the format is STREET_SEGMENT_INTERSECTIONS exactly when its pattern matches |
| AddressProcessing.ExtractAddressRange | src/chicago_participatory_urbanism/ward_spending/address_processing.py:41-56 | Some exactly when the address is classified STREET_SEGMENT_INTERSECTIONS; (None, None) otherwise |
| AddressProcessing.PatternEndsInEnd | src/chicago_participatory_urbanism/ward_spending/address_processing.py:15-30 | every pattern is anchored with `$` |
| Geometry.Segment | src/chicago_participatory_urbanism/ward_spending/location_geocoding.py:44 | `LineString([p1, p2])` is built exactly when both points are there (shapely 2 raises on None), and then holds the two points in order |
| Geometry.MakePolygon | src/chicago_participatory_urbanism/ward_spending/location_geocoding.py:91 | `Polygon(coordinates)` closes the ring when its last point differs from its first and raises when the closed ring has fewer than four coordinates: it is built exactly for no point, at least four points, or three points whose first and last differ, and holds the points |
| Geometry.UnionWith | src/chicago_participatory_urbanism/ward_spending/location_geocoding.py:26 | `geometry.union(g)` is None exactly when g is None, and otherwise covers the points of both |
| Geometry.FoldNoneIff | src/chicago_participatory_urbanism/ward_spending/location_geocoding.py:16-28 | the folded geometry is None exactly when there are no pieces or the last piece has no geometry |
| Geometry.FoldAfterNone | src/chicago_participatory_urbanism/ward_spending/location_geocoding.py:20-26 | a piece without geometry discards everything folded before it |
| Geometry.FoldFromNone | src/chicago_participatory_urbanism/ward_spending/location_geocoding.py:20-26 | the fold equals the fold of the pieces after the last failed one |
| Geometry.FoldSingle | src/chicago_participatory_urbanism/ward_spending/location_geocoding.py:18-24 | a single piece folds to its own geometry |
| Geometry.FoldUpToFirst | src/chicago_participatory_urbanism/ward_spending/location_geocoding.py:23-24 | up to the first piece with a geometry, the fold is that geometry |
| Geometry.FoldPoints | src/chicago_participatory_urbanism/ward_spending/location_geocoding.py:16-28 | when every piece is a point, the fold covers exactly those points, in order |
| Geometry.FailureDiscards | src/chicago_participatory_urbanism/ward_spending/location_geocoding.py:16-28 | for any per-piece geometry: text a;b folds like b when the last piece of a fails |
| Geometry.PresentMembers | src/chicago_participatory_urbanism/ward_spending/location_geocoding.py:86 | dropping the Nones keeps exactly the present values, in order |
| Geometry.PresentAll | src/chicago_participatory_urbanism/ward_spending/location_geocoding.py:86 | when all are present, nothing is dropped |
| Geometry.Angles | src/chicago_participatory_urbanism/ward_spending/location_geocoding.py:108-113 | the per-point angle `atan2(dy, dx)` about the centroid |
| Geometry.Zip | src/chicago_participatory_urbanism/ward_spending/location_geocoding.py:115 | `zip(angles, points)` pairs them index by index |
| Geometry.SortByAngleOrdered | src/chicago_participatory_urbanism/ward_spending/location_geocoding.py:115 | sorting by angle gives a permutation of the points in non-decreasing angle |
| Geometry.InsertByAngleOrdered | src/chicago_participatory_urbanism/ward_spending/location_geocoding.py:115 | one insertion step keeps the order and adds exactly the new point |
| Geometry.ClockwiseRaisesIff | src/chicago_participatory_urbanism/ward_spending/location_geocoding.py:105-117 | `get_clockwise_sequence` returns exactly when there is at least one point (the centroid divides by `len(points)`) and no two different points have the same angle (the tuple sort would then compare shapely Points and raise); the copy at src/chicago_participatory_urbanism/address_geocoding.py:112-124 is the same function |
| Geometry.ClockwiseIsSortedPermutation | src/chicago_participatory_urbanism/ward_spending/location_geocoding.py:105-117 | when it returns, the result is a permutation of the input sorted by angle about the centroid; the copy at src/chicago_participatory_urbanism/address_geocoding.py:112-124 is the same function |
| Geometry.ClockwiseSequence | src/chicago_participatory_urbanism/ward_spending/location_geocoding.py:105-117 | the loop over the points computes that result |
| Geometry.ClockwisePolygonIff | src/chicago_participatory_urbanism/ward_spending/location_geocoding.py:85-92 | the alley polygon exists exactly when at least three corners resolved, they are not three times the same point, and no two different corners share an angle about their centroid |
| Geometry.ClockwisePolygonRing | src/chicago_participatory_urbanism/ward_spending/location_geocoding.py:85-92 | the polygon is a ring of exactly the resolved corners, in angle order |
| LocationGeocoding.CornerQueries | src/chicago_participatory_urbanism/ward_spending/location_geocoding.py:82-83 | one intersection query per alley corner, in order |
| LocationGeocoding.CornerAnswers | src/chicago_participatory_urbanism/ward_spending/location_geocoding.py:82-83 | one geocoder answer per corner, in order |
| LocationGeocoding.PieceGeometries | src/chicago_participatory_urbanism/ward_spending/location_geocoding.py:20-21 | one geometry per piece, each that of `get_geometry_from_location` |
| LocationGeocoding.GeometryOf | src/chicago_participatory_urbanism/ward_spending/location_geocoding.py:30-102 | the per-piece geometry as a function of the piece |
| LocationGeocoding.PiecesAgree | src/chicago_participatory_urbanism/ward_spending/location_geocoding.py:20-21 | the pieces' geometries are those of that function |
| LocationGeocoding.LocationGeocoder.constructor | src/chicago_participatory_urbanism/ward_spending/location_geocoding.py:7-8 | the injected geocoder (and the format module and `atan2`) are stored |
| LocationGeocoding.LocationGeocoder.ProcessLocationText | src/chicago_participatory_urbanism/ward_spending/location_geocoding.py:10-28 | the loop computes the fold of the pieces' geometries |
| LocationGeocoding.LocationGeocoder.GetGeometryFromLocation | src/chicago_participatory_urbanism/ward_spending/location_geocoding.py:30-102 | the method computes the geometry of one piece |
| LocationGeocoding.SinglePiece | src/chicago_participatory_urbanism/ward_spending/location_geocoding.py:16-28 | a text without ';' has the geometry of its one piece |
| LocationGeocoding.NoGeometryIff | src/chicago_participatory_urbanism/ward_spending/location_geocoding.py:16-28 | the text has no geometry exactly when its last piece has none |
| LocationGeocoding.FailureDiscardsEarlier | src/chicago_participatory_urbanism/ward_spending/location_geocoding.py:16-28 | a failing piece discards the geometry of the pieces before it |
| LocationGeocoding.PiecesOfPoints | src/chicago_participatory_urbanism/ward_spending/location_geocoding.py:16-28 | when every piece is a point, the text's geometry covers exactly those points in order |
| LocationGeocoding.FailureGivesNone | src/chicago_participatory_urbanism/ward_spending/location_geocoding.py:31-34 | a piece with no format, or whose extractor raises, yields None and makes no geocoder call |
| LocationGeocoding.StreetAddressCall | src/chicago_participatory_urbanism/ward_spending/location_geocoding.py:35-37 | STREET_ADDRESS: one address query, whose answer is the geometry |
| LocationGeocoding.AddressRangeCalls | src/chicago_participatory_urbanism/ward_spending/location_geocoding.py:39-45 | STREET_ADDRESS_RANGE: two address queries in order; a line between their answers exactly when both resolved |
| LocationGeocoding.SegmentIntersectionFirst | src/chicago_participatory_urbanism/ward_spending/location_geocoding.py:60-75 | both segment-with-address formats query the intersection first, then the address, and give the line between them exactly when both resolved |
| LocationGeocoding.AlleyQueries | src/chicago_participatory_urbanism/ward_spending/location_geocoding.py:77-83 | ALLEY: one intersection query per corner |
| LocationGeocoding.AlleyPolygonIff | src/chicago_participatory_urbanism/ward_spending/location_geocoding.py:77-92 | ALLEY: a geometry exactly when at least three corners resolved, they are not three times the same point, and no two different corners share an angle about their centroid |
| LocationGeocoding.AlleyRing | src/chicago_participatory_urbanism/ward_spending/location_geocoding.py:85-92 | an ALLEY geometry is a polygon over exactly the resolved corners, in angle order |
| LocationGeocoding.AlleyWithoutCorners | src/chicago_participatory_urbanism/ward_spending/location_geocoding.py:85-92 | an alley with no resolved corner yields None (the centroid divides by zero) |
| LocationGeocoding.PointsAreAnswers | src/chicago_participatory_urbanism/ward_spending/location_geocoding.py:30-102 | every point of a piece's geometry is the geocoder's answer to one of the piece's queries |
| SrcAddressGeocoding.AddressQueryOf | src/chicago_participatory_urbanism/address_geocoding.py:103-110 | a parsed address becomes an address query with fuzziness 20; the parse raises like `extract_street_address` |
| SrcAddressGeocoding.AddressQueryRoundTrip | src/chicago_participatory_urbanism/address_geocoding.py:103-110 | the rendered text of an address becomes the query of exactly its number, direction, name and type |
| SrcAddressGeocoding.SingleWordNoQuery | src/chicago_participatory_urbanism/address_geocoding.py:104-106 | a text without a space raises (no direction word) |
| SrcAddressGeocoding.Answers | src/chicago_participatory_urbanism/address_geocoding.py:77-85 | one geocoder answer per query, in order |
| SrcAddressGeocoding.PieceOutcomes | src/chicago_participatory_urbanism/address_geocoding.py:14-15 | one outcome per piece, each that of `get_geometry_from_location` |
| SrcAddressGeocoding.FoldOutcomesRaisedIff | src/chicago_participatory_urbanism/address_geocoding.py:13-27 | the loop is aborted exactly when some piece raises outside its own try |
| SrcAddressGeocoding.FoldOutcomesReturned | src/chicago_participatory_urbanism/address_geocoding.py:14-20 | when no piece raises, the loop folds the pieces' geometries like the other assemblers |
| SrcAddressGeocoding.FoldOutcomesNoneIff | src/chicago_participatory_urbanism/address_geocoding.py:13-27 | the loop returns None exactly when no piece raises and the last geometry is None (or there are no pieces) |
| SrcAddressGeocoding.FoldOutcomesStep | src/chicago_participatory_urbanism/address_geocoding.py:14-20 | one step of the loop: a raising piece aborts, otherwise the piece is united in |
| SrcAddressGeocoding.ProcessLocationText | src/chicago_participatory_urbanism/address_geocoding.py:7-27 | the loop with its outer try computes the text's geometry, None on any escaped exception |
| SrcAddressGeocoding.GetGeometryFromLocation | src/chicago_participatory_urbanism/address_geocoding.py:31-100 | computes one piece's outcome: the classifier call outside the try may raise, everything inside is caught |
| SrcAddressGeocoding.AsWrittenAlwaysNone | src/chicago_participatory_urbanism/address_geocoding.py:33 | as written, `afp.get_location_format` does not exist (AttributeError outside the piece's try), so every text gives None |
| SrcAddressGeocoding.FixedShapes | src/chicago_participatory_urbanism/address_geocoding.py:31-100 | corrected: one geometry per piece from the processor's `get_location_format` |
| SrcAddressGeocoding.FixedFormatFolds | src/chicago_participatory_urbanism/address_geocoding.py:7-27 | corrected: the text's geometry is the fold of those per-piece geometries |
| SrcAddressGeocoding.NoGeometryIff | src/chicago_participatory_urbanism/address_geocoding.py:7-27 | None exactly when some piece raises outside its try, or the last piece gives None |
| SrcAddressGeocoding.PieceTrimmed | src/chicago_participatory_urbanism/address_geocoding.py:32 | the piece is stripped first, so surrounding spaces do not matter |
| SrcAddressGeocoding.UnidentifiedGivesNone | src/chicago_participatory_urbanism/address_geocoding.py:92-95 | corrected: an UNIDENTIFY piece gives None and makes no call |
| SrcAddressGeocoding.SrcFuzzyAddresses | src/chicago_participatory_urbanism/address_geocoding.py:109 | the address parser always asks for fuzziness 20 |
| SrcAddressGeocoding.FuzzinessTwenty | src/chicago_participatory_urbanism/address_geocoding.py:109 | every address query a piece makes has fuzziness 20 |
| SrcAddressGeocoding.FormatFuzzy | src/chicago_participatory_urbanism/address_geocoding.py:36-70 | the same, for every format but the range |
| SrcAddressGeocoding.RangeFuzzy | src/chicago_participatory_urbanism/address_geocoding.py:39-44 | the same, for the range's two addresses |
| SrcAddressGeocoding.StreetAddressCall | src/chicago_participatory_urbanism/address_geocoding.py:36-37 | STREET_ADDRESS: one query, whose answer is the geometry |
| SrcAddressGeocoding.AddressRangeCalls | src/chicago_participatory_urbanism/address_geocoding.py:39-44 | STREET_ADDRESS_RANGE: the two address queries in order; a line exactly when both resolved |
| SrcAddressGeocoding.SegmentIntersectionFirst | src/chicago_participatory_urbanism/address_geocoding.py:58-70 | both segment-with-address formats query the intersection of primary and cross street first, then the address; a line exactly when both resolved |
| SrcAddressGeocoding.SegmentIntersectionsCalls | src/chicago_participatory_urbanism/address_geocoding.py:51-56 | STREET_SEGMENT_INTERSECTIONS: the primary street crossed with each cross street; a line exactly when both resolved |
| SrcAddressGeocoding.SegmentIntersectionsUnnamed | src/chicago_participatory_urbanism/address_geocoding.py:51-56 | when the extractor returns (None, None, None), both queries are the (None, None) intersection, and the line joins its answer to itself |
| SrcAddressGeocoding.AlleyEveryPair | src/chicago_participatory_urbanism/address_geocoding.py:76-82 | the six alley queries are exactly the six pairs of the four streets |
| SrcAddressGeocoding.AlleyCalls | src/chicago_participatory_urbanism/address_geocoding.py:72-82 | ALLEY: the piece makes those six queries |
| SrcAddressGeocoding.AlleyPolygonIff | src/chicago_participatory_urbanism/address_geocoding.py:72-90 | ALLEY: a geometry exactly when at least three corners resolved, they are not three times the same point, and no two different corners share an angle about their centroid |
| SrcAddressGeocoding.AlleyRing | src/chicago_participatory_urbanism/address_geocoding.py:84-90 | the alley geometry is a polygon over exactly the resolved corners, in angle order |
| SrcAddressGeocoding.PointsAreAnswers | src/chicago_participatory_urbanism/address_geocoding.py:31-100 | every point of a piece's geometry is an answer to one of its queries |
| WardAddressGeocoding.PieceGeometries | src/chicago_participatory_urbanism/ward_spending/address_geocoding.py:13-14 | one geometry per piece, each that of `get_geometry_from_location` |
| WardAddressGeocoding.GeometryOf | src/chicago_participatory_urbanism/ward_spending/address_geocoding.py:25-76 | the per-piece geometry as a function of the piece |
| WardAddressGeocoding.PiecesAgree | src/chicago_participatory_urbanism/ward_spending/address_geocoding.py:13-14 | the pieces' geometries are those of that function |
| WardAddressGeocoding.ProcessLocationText | src/chicago_participatory_urbanism/ward_spending/address_geocoding.py:7-21 | the loop computes the fold of the pieces' geometries |
| WardAddressGeocoding.GetGeometryFromLocation | src/chicago_participatory_urbanism/ward_spending/address_geocoding.py:25-76 | computes one piece's geometry |
| WardAddressGeocoding.NoGeometryIff | src/chicago_participatory_urbanism/ward_spending/address_geocoding.py:7-21 | the text has no geometry exactly when its last piece has none |
| WardAddressGeocoding.FailureDiscardsEarlier | src/chicago_participatory_urbanism/ward_spending/address_geocoding.py:7-21 | a failing piece discards the geometry of the pieces before it |
| WardAddressGeocoding.NoFormatGivesNone | src/chicago_participatory_urbanism/ward_spending/address_geocoding.py:68-71 | a piece with no format gives None and makes no call |
| WardAddressGeocoding.AddressSegmentsUnhandled | src/chicago_participatory_urbanism/ward_spending/address_geocoding.py:51-57 | both segment-with-address formats give None and make no call |
| WardAddressGeocoding.FuzzinessTwenty | src/chicago_participatory_urbanism/ward_spending/address_geocoding.py:85 | every address query has fuzziness 20 |
| WardAddressGeocoding.StreetAddressCall | src/chicago_participatory_urbanism/ward_spending/address_geocoding.py:29-30 | STREET_ADDRESS: one query, whose answer is the geometry |
| WardAddressGeocoding.AddressRangeCalls | src/chicago_participatory_urbanism/ward_spending/address_geocoding.py:32-37 | STREET_ADDRESS_RANGE: the two queries in order; a line exactly when both resolved |
| WardAddressGeocoding.SegmentIntersectionsCalls | src/chicago_participatory_urbanism/ward_spending/address_geocoding.py:44-49 | STREET_SEGMENT_INTERSECTIONS: the primary street crossed with each cross street; a line exactly when both resolved |
| WardAddressGeocoding.AlleyCyclicPairs | src/chicago_participatory_urbanism/ward_spending/address_geocoding.py:61-64 | the four alley queries are the cyclic pairs (1,2), (2,3), (3,4), (4,1) |
| WardAddressGeocoding.AlleyCalls | src/chicago_participatory_urbanism/ward_spending/address_geocoding.py:59-64 | ALLEY: the piece makes those four queries |
| WardAddressGeocoding.AlleyPolygonIff | src/chicago_participatory_urbanism/ward_spending/address_geocoding.py:59-66 | ALLEY: a polygon exactly when all four corners resolved, over the four answers in query order, without sorting |
| AddressPoints.FirstFullName | src/chicago_participatory_urbanism/geocoder.py:18-21 | the first row from index i on whose CMPADDABRV equals the key, or None when no later row has it |
| AddressPoints.FullNameCoordinates | src/chicago_participatory_urbanism/geocoder.py:8-26 | (Long, Lat) of the first row whose CMPADDABRV equals the upper-cased address; (0, 0) when no row does |
| AddressPoints.StreetAddressCoordinates | src/chicago_participatory_urbanism/geocoder.py:30-69 | no candidate within fuzziness on the upper-cased direction, name and type gives (0, 0); otherwise the first candidate with exactly the number; otherwise a candidate at least as close to the number as every other, the earliest of the closest |
| AddressPoints.IntersectionCoordinates | src/chicago_participatory_urbanism/geocoder.py:72-85 | always (0, 0) |
| Categorization.GetMenuCategory | src/chicago_participatory_urbanism/ward_spending/categorization.py:31-69 | the answer is one of the thirteen labels |
| Categorization.CategoryFromNone | src/chicago_participatory_urbanism/ward_spending/categorization.py:31-69 | the first-match search answers "Misc." when no group from index i on has a keyword in the item |
| Categorization.CategoryFromFirst | src/chicago_participatory_urbanism/ward_spending/categorization.py:31-69 | the search answers the label of the first group with a keyword in the item |
| Categorization.CategoryFromHit | src/chicago_participatory_urbanism/ward_spending/categorization.py:31-69 | when some group has a keyword in the item, the answer is the label of the first such group |
| Categorization.ChainIsTable | src/chicago_participatory_urbanism/ward_spending/categorization.py:31-69 | the if/elif chain on the lower-cased item is the first-match search over the twelve keyword groups in order |
| Categorization.LabelsDistinct | src/chicago_participatory_urbanism/ward_spending/categorization.py:33-69 | the twelve group labels are distinct and none is "Misc." |
| Categorization.MiscIffNoKeyword | src/chicago_participatory_urbanism/ward_spending/categorization.py:68-69 | "Misc." exactly when no keyword of any group occurs in the lower-cased item |
| Categorization.FirstGroupWins | src/chicago_participatory_urbanism/ward_spending/categorization.py:33-67 | the label of group k exactly when a keyword of group k occurs and none of an earlier group does (both directions) |
| Categorization.CaseInsensitive | src/chicago_participatory_urbanism/ward_spending/categorization.py:32 | classifying the lower-cased item gives the same label as the item |
| Categorization.ParkLighting | src/chicago_participatory_urbanism/ward_spending/categorization.py:37-38 | "park lighting" contains "park" but is Lighting, the earlier group |
| Categorization.DiagnolParking | src/chicago_participatory_urbanism/ward_spending/categorization.py:51-59 | "diagnol parking" contains "park" but is Street Redesign, the earlier group |
| Categorization.StandardCategoryAgrees | src/chicago_participatory_urbanism/ward_spending/categorization.py:1-28 | every key of STANDARD_CATEGORY is classified by get_menu_category as the label the map gives it |
| Categorization.LoweredCategory | src/chicago_participatory_urbanism/ward_spending/categorization.py:32 | the category of an item is the chain's answer on its lower-cased text |
| Categorization.BicycleGroup | src/chicago_participatory_urbanism/ward_spending/categorization.py:35-36 | an item that misses the first group and hits the second is Bicycle Infrastructure |
| Categorization.ResurfacingGroup | src/chicago_participatory_urbanism/ward_spending/categorization.py:39-44 | an item that misses the first three groups and hits the fourth is Street Resurfacing |
| Categorization.PedestrianKey | src/chicago_participatory_urbanism/ward_spending/categorization.py:33-34 | "pedestrian" is Pedestrian Infrastructure |
| Categorization.BumpOutsKey | src/chicago_participatory_urbanism/ward_spending/categorization.py:33-34 | "bump outs" is Pedestrian Infrastructure |
| Categorization.BicycleKey | src/chicago_participatory_urbanism/ward_spending/categorization.py:35-36 | "bicycle" is Bicycle Infrastructure |
| Categorization.BikeKey | src/chicago_participatory_urbanism/ward_spending/categorization.py:35-36 | "bike" is Bicycle Infrastructure |
| Categorization.NeighborhoodGreenwayKey | src/chicago_participatory_urbanism/ward_spending/categorization.py:35-36 | "neighborhood greenway" is Bicycle Infrastructure |
| Categorization.LightKey | src/chicago_participatory_urbanism/ward_spending/categorization.py:37-38 | "light" is Lighting |
| Categorization.StreetResurfacingKey | src/chicago_participatory_urbanism/ward_spending/categorization.py:39-44 | "street resurfacing" is Street Resurfacing |
| Categorization.StreetSpeedHumpReplacementKey | src/chicago_participatory_urbanism/ward_spending/categorization.py:39-44 | "street speed hump replacement" is Street Resurfacing |
| Categorization.CurbGutterKey | src/chicago_participatory_urbanism/ward_spending/categorization.py:39-44 | "curb & gutter" is Street Resurfacing |
| Categorization.AlleyKey | src/chicago_participatory_urbanism/ward_spending/categorization.py:45-46 | "alley" is Alleys |
| Categorization.MiscellaneousCdotProjectsKey | src/chicago_participatory_urbanism/ward_spending/categorization.py:47-48 | "miscellaneous cdot projects" is Misc. CDOT |
| Categorization.MuralKey | src/chicago_participatory_urbanism/ward_spending/categorization.py:49-50 | "mural" is Beautification |
| Categorization.PublicArtKey | src/chicago_participatory_urbanism/ward_spending/categorization.py:49-50 | "public art" is Beautification |
| Categorization.TreePlantingKey | src/chicago_participatory_urbanism/ward_spending/categorization.py:49-50 | "tree planting" is Beautification |
| Categorization.TurnArrowKey | src/chicago_participatory_urbanism/ward_spending/categorization.py:51-59 | "turn arrow" is Street Redesign |
| Categorization.StreetSpeedHumpMenuKey | src/chicago_participatory_urbanism/ward_spending/categorization.py:51-59 | "street speed hump menu" is Street Redesign |
| Categorization.PavementMarkingsKey | src/chicago_participatory_urbanism/ward_spending/categorization.py:51-59 | "pavement markings" is Street Redesign |
| Categorization.TrafficCircleKey | src/chicago_participatory_urbanism/ward_spending/categorization.py:51-59 | "traffic circle" is Street Redesign |
| Categorization.CulDeSacKey | src/chicago_participatory_urbanism/ward_spending/categorization.py:51-59 | "cul-de-sac" is Street Redesign |
| Categorization.DiagnolParkingKey | src/chicago_participatory_urbanism/ward_spending/categorization.py:51-59 | "diagnol parking" is Street Redesign |
| Categorization.SidewalkKey | src/chicago_participatory_urbanism/ward_spending/categorization.py:60-61 | "sidewalk" is Sidewalk Repair |
| Categorization.PodCameraKey | src/chicago_participatory_urbanism/ward_spending/categorization.py:62-63 | "pod camera" is Police Cameras |
| Categorization.ParkKey | src/chicago_participatory_urbanism/ward_spending/categorization.py:64-65 | "park" is Parks |
| Categorization.PlaygroundKey | src/chicago_participatory_urbanism/ward_spending/categorization.py:64-65 | "playground" is Parks |
| Categorization.GardenKey | src/chicago_participatory_urbanism/ward_spending/categorization.py:64-65 | "garden" is Parks |
| Categorization.ViaductKey | src/chicago_participatory_urbanism/ward_spending/categorization.py:66-67 | "viaduct" is Viaducts |
| PdfTable.WardAboveTable | src/chicago_participatory_urbanism/ward_spending/extract_text_from_pdf.py:22-27 | no fragment position is both in the ward header and in the table |
| PdfTable.ColumnsDisjoint | src/chicago_participatory_urbanism/ward_spending/extract_text_from_pdf.py:10-19 | the item, location and cost columns do not overlap |
| PdfTable.RemoveNewlines | src/chicago_participatory_urbanism/ward_spending/extract_text_from_pdf.py:50 | the result has no newline, only characters of the input, and is the input when it had none |
| PdfTable.ExtractWardNumber | src/chicago_participatory_urbanism/ward_spending/extract_text_from_pdf.py:30-31 | the ward number holds no ':' and has no surrounding white space |
| PdfTable.WardNumberAfterLastColon | src/chicago_participatory_urbanism/ward_spending/extract_text_from_pdf.py:30-31 | the ward number is the stripped text after the last ':', whatever precedes it |
| PdfTable.WardNumberWithoutColon | src/chicago_participatory_urbanism/ward_spending/extract_text_from_pdf.py:30-31 | a header without ':' is its own stripped ward number |
| PdfTable.AddToRow | src/chicago_participatory_urbanism/ward_spending/extract_text_from_pdf.py:62-79 | a table fragment's text goes to exactly one column, chosen by x, with a space first for a second line at the same position; the ward is kept |
| PdfTable.Step | src/chicago_participatory_urbanism/ward_spending/extract_text_from_pdf.py:45-82 | a blank fragment changes nothing; a header sets only the ward; a table fragment more than 15 below or more than 50 above the last one closes the current row, which is appended to the data, and starts a new one with the current ward; a table fragment moves the last position |
| PdfTable.SamePlaceContinues | src/chicago_participatory_urbanism/ward_spending/extract_text_from_pdf.py:64-66 | a fragment at exactly the last position continues the row in progress, after a space |
| PdfTable.StartPage | src/chicago_participatory_urbanism/ward_spending/extract_text_from_pdf.py:95-96 | a new page resets the last position to (0, 0) and keeps everything else |
| PdfTable.RunSnoc | src/chicago_participatory_urbanism/ward_spending/extract_text_from_pdf.py:99 | reading one more fragment is one more visitor step |
| PdfTable.RunPagesSnoc | src/chicago_participatory_urbanism/ward_spending/extract_text_from_pdf.py:92-99 | reading one more page resets the position and runs its fragments |
| PdfTable.RunKeepsRows | src/chicago_participatory_urbanism/ward_spending/extract_text_from_pdf.py:59 | finished rows are only ever appended, at most one per fragment |
| PdfTable.RunPagesKeepsRows | src/chicago_participatory_urbanism/ward_spending/extract_text_from_pdf.py:86-99 | across pages, finished rows are only ever appended |
| PdfTable.WardOnlyFromHeaders | src/chicago_participatory_urbanism/ward_spending/extract_text_from_pdf.py:52-53 | only a header fragment changes the ward |
| PdfTable.FirstRowNeverWritten | src/chicago_participatory_urbanism/ward_spending/extract_text_from_pdf.py:39-115 | the first finished row of a document is the constructor's row, which has ward 0 and is never written |
| PdfTable.WardWhileNoRows | src/chicago_participatory_urbanism/ward_spending/extract_text_from_pdf.py:59-60 | while no row has been closed the row in progress keeps its ward |
| PdfTable.Written | src/chicago_participatory_urbanism/ward_spending/extract_text_from_pdf.py:108-115 | the written rows are exactly the kept rows of the data, each from the data |
| PdfTable.WrittenSnoc | src/chicago_participatory_urbanism/ward_spending/extract_text_from_pdf.py:108-115 | the rows are written in data order |
| PdfTable.NoWardDropped | src/chicago_participatory_urbanism/ward_spending/extract_text_from_pdf.py:113 | a row with no ward read is never written |
| PdfTable.PlainItemKept | src/chicago_participatory_urbanism/ward_spending/extract_text_from_pdf.py:109-114 | an item other than MENU BUDGET without a 'W' is written once a ward has been read |
| PdfTable.CommittedTotalDropped | src/chicago_participatory_urbanism/ward_spending/extract_text_from_pdf.py:111 | a 'WARD COMMITTED 20dd TOTAL' item is dropped for every pair of digits |
| PdfTable.BalanceDropped | src/chicago_participatory_urbanism/ward_spending/extract_text_from_pdf.py:112 | a 'WARD 20dd BALANCE' item is dropped for every pair of digits |
| PdfTable.WardSpendingPdfTextExtractor.constructor | src/chicago_participatory_urbanism/ward_spending/extract_text_from_pdf.py:35-43 | stores the paths; last position (0, 0), ward 0, no data, an empty current row with ward 0 |
| PdfTable.WardSpendingPdfTextExtractor.GetTableData | src/chicago_participatory_urbanism/ward_spending/extract_text_from_pdf.py:45-82 | the fields after the call are the visitor step applied to the fields before |
| PdfTable.WardSpendingPdfTextExtractor.ReadPage | src/chicago_participatory_urbanism/ward_spending/extract_text_from_pdf.py:93-99 | the fields after a page are the page's fragments run from the reset position |
| PdfTable.WardSpendingPdfTextExtractor.WriteRows | src/chicago_participatory_urbanism/ward_spending/extract_text_from_pdf.py:101-115 | the rows written after the header are the kept rows of the data, in order |
| PdfTable.WardSpendingPdfTextExtractor.ExtractPdfData | src/chicago_participatory_urbanism/ward_spending/extract_text_from_pdf.py:86-115 | the fields after extraction are every page run in order, and the rows written are the kept finished rows |
| Resurfacing.NonzeroMinFAdd | chicago_participatory_urbanism/street_resurfacing/geocoder.py:35-42 | a side with from-address 0 is ignored: the other side's when one is 0, the smaller of two non-zero ones, 0 only when both are |
| Resurfacing.MaxTAdd | chicago_participatory_urbanism/street_resurfacing/geocoder.py:52 | the larger of the two to-addresses |
| Resurfacing.Prepare | chicago_participatory_urbanism/street_resurfacing/geocoder.py:58-62 | the new columns start at 0 and "" |
| Resurfacing.PrepareAll | chicago_participatory_urbanism/street_resurfacing/geocoder.py:45-62 | every prepared segment comes from a named centre line and every named centre line is prepared; unnamed ones are dropped |
| Resurfacing.ResurfacingOnly | chicago_participatory_urbanism/street_resurfacing/geocoder.py:65 | exactly the records of the two resurfacing types, a sub-multiset of the file |
| Resurfacing.Insert | chicago_participatory_urbanism/street_resurfacing/geocoder.py:67 | inserting into an ordered sequence keeps it ordered by start time and adds exactly the record |
| Resurfacing.SortByStart | chicago_participatory_urbanism/street_resurfacing/geocoder.py:67 | an ordering by start time that is a permutation of its input |
| Resurfacing.StartSortExists | chicago_participatory_urbanism/street_resurfacing/geocoder.py:65-67 | some visiting order satisfies the sort's contract |
| Resurfacing.StartSortRecords | chicago_participatory_urbanism/street_resurfacing/geocoder.py:65-71 | the records visited are exactly the resurfacing records of the file |
| Resurfacing.Stamp | chicago_participatory_urbanism/street_resurfacing/geocoder.py:95-99 | a stamped row gets the year, one more count, the date and ';' appended, and the moratorium's range; street and range columns are kept |
| Resurfacing.Apply | chicago_participatory_urbanism/street_resurfacing/geocoder.py:83-99 | applying a record never changes whether that record matches the row |
| Resurfacing.AllSome | chicago_participatory_urbanism/street_resurfacing/geocoder.py:79 | all years read, else the position of one that could not be read |
| Resurfacing.YearsOf | chicago_participatory_urbanism/street_resurfacing/geocoder.py:79 | the year of each record, as `int(start_date.split("/")[-1])` reads it |
| Resurfacing.ApplyAllKeepsKey | chicago_participatory_urbanism/street_resurfacing/geocoder.py:94-99 | stamping never changes a row's street or address range |
| Resurfacing.ApplyAllSnoc | chicago_participatory_urbanism/street_resurfacing/geocoder.py:71-99 | one more record is one more masked update |
| Resurfacing.SameKeySameMatches | chicago_participatory_urbanism/street_resurfacing/geocoder.py:83-92 | rows with the same street and range match the same records |
| Resurfacing.ApplyAllCounts | chicago_participatory_urbanism/street_resurfacing/geocoder.py:96-97 | after all records, the count grew by the number of matching records and the dates by their dates, in order |
| Resurfacing.ApplyKeepsCount | chicago_participatory_urbanism/street_resurfacing/geocoder.py:96-97 | one record keeps the count equal to the number of ';' in the dates |
| Resurfacing.CountAppendedDate | chicago_participatory_urbanism/street_resurfacing/geocoder.py:97 | appending a date and ';' adds one ';' |
| Resurfacing.CountIsNumberOfDates | chicago_participatory_urbanism/street_resurfacing/geocoder.py:58-97 | resurf_count is the number of dates in resurf_dates after any sequence of records whose dates hold no ';' |
| Resurfacing.PreparedCountsNoDates | chicago_participatory_urbanism/street_resurfacing/geocoder.py:59-60 | a prepared row has count 0 and no dates |
| Resurfacing.NoMatchKeeps | chicago_participatory_urbanism/street_resurfacing/geocoder.py:95-99 | with no matching record the row keeps last_resurf, m_f_add and m_t_add |
| Resurfacing.LastMatchDecides | chicago_participatory_urbanism/street_resurfacing/geocoder.py:95-99 | the last matching record decides last_resurf, m_f_add and m_t_add |
| Resurfacing.LastResurfIsLatest | chicago_participatory_urbanism/street_resurfacing/geocoder.py:67-99 | with records oldest first, last_resurf is the year of a matching record that starts no earlier than any other matching one |
| Resurfacing.OverlapMatches | chicago_participatory_urbanism/street_resurfacing/geocoder.py:88-92 | ranges that overlap in more than a point always match |
| Resurfacing.MatchMeansShared | chicago_participatory_urbanism/street_resurfacing/geocoder.py:88-92 | a match means the closed ranges share an address |
| Resurfacing.TouchingDoesNotMatch | chicago_participatory_urbanism/street_resurfacing/geocoder.py:88-92 | ranges that only touch at one end, with the moratorium running on past it, do not match |
| Resurfacing.ApplyAllSnocEach | chicago_participatory_urbanism/street_resurfacing/geocoder.py:94-99 | a masked update on the whole table is one more record on each row |
| Resurfacing.StampMatching | chicago_participatory_urbanism/street_resurfacing/geocoder.py:83-99 | every row of the table becomes the record applied to it |
| Resurfacing.ApplyYears | chicago_participatory_urbanism/street_resurfacing/geocoder.py:71-99 | succeeds exactly when every year can be read; then each row is every record applied to it in order |
| Resurfacing.ApplyMoratoriums | chicago_participatory_urbanism/street_resurfacing/geocoder.py:71-99 | the same, with the years read from the START DATE |
| Resurfacing.GeocodeMoratoriums | chicago_participatory_urbanism/street_resurfacing/geocoder.py:45-99 | a new table of the prepared segments; succeeds exactly when every year can be read, and then each segment is every record applied in the sort's order |

## Left out

- Text.Lower: only A-Z are lower-cased.  Python's `str.lower()` is Unicode-aware, so `"PAR\u212A"` (ending in U+212A KELVIN SIGN) becomes "park" in Python and the item is filed under Parks, while the model leaves the character alone and gives "Misc.".
- Text.Upper: only a-z are upper-cased; Python's `str.upper()` also maps non-ASCII letters.
- Regex.IsDigit: `\d` is the ASCII digits only; Python's `\d` also matches every Unicode decimal digit.
- Regex.IsWordChar: `\w` is ASCII letters, digits and `_` only; Python's `\w` is Unicode-aware.
- Text.ParseInt: `int()` is modelled on ASCII digits with an optional sign, `_` between digits and surrounding white space; Python also accepts other Unicode decimal digits.
- PdfTable.Step: PDF coordinates are floats in the source.  Here they are exact reals, so `last_y - y`, its comparison with 15 and -50, and the equality test for a second line carry no rounding.
- Geometry.Angles: the centroid is computed in exact real arithmetic, and `math.atan2` is an unconstrained parameter.  Float rounding of the centroid and of the angles, which can reorder nearly collinear corners or create ties, is not modelled.
- AddressPoints.StreetAddressCoordinates: the longitude, latitude and distances of the address-point file are floats and integers read by pandas.  Here they are exact reals and integers, and NaN cells (`Add_Number` and the text columns), which compare unequal to everything, are not modelled.
- AddressPoints.StreetAddressCoordinates: the default `fuzziness=10` is not modelled; the fuzziness is always an argument here (the two `src` assemblers pass 20).
- AddressPoints.FullNameCoordinates: the address-point CSV is read once at import time with `pd.read_csv`; here the table is a parameter.
- SrcLocationFormat.ExtractStreetNameAndNumber: its `print(match)` is not modelled.
- WardLocationFormat.GetLocationFormat: its `print(location)` for an unmatched text is not modelled.
- LocationGeocoding.LocationGeocoder.ProcessLocationText: the messages printed for an unmatched format or an exception are not modelled; only the returned geometry is.
- SrcAddressGeocoding.ProcessLocationText: the printed error messages are not modelled.
- WardAddressGeocoding.ProcessLocationText: the printed error messages are not modelled.
- Resurfacing.GeocodeMoratoriums: the logging calls are not modelled.  The files are parameters: the package-metadata lookup of the CSV and GeoJSON paths, `pd.read_csv`, `gpd.read_file` and the GeoJSON export at the end.  The centre-line geometries are carried along unread.
- Resurfacing.GeocodeMoratoriums: `pd.to_datetime` is a parameter, the `startTime` field of each record.  `sort_values` with its default quicksort is not stable, so the visiting order is a parameter constrained only to be ordered by start time and a permutation of the resurfacing records (IsStartSort).  Every property is proved for any such order.
- Resurfacing.PrepareAll: `dropna` removes only rows without a street name.  NaN in the address columns, where `astype(int)` raises, and NaN in `pre_dir` or `street_typ`, which never equals a moratorium's value, are not modelled; those columns are plain strings and integers here.
- Resurfacing.SegmentMatches: `mask_street` is modelled as string equality.  A NaN in the moratorium's prefix or suffix, which matches no row in pandas, has no counterpart.
- Resurfacing.YearsOf: the begin and end addresses are read with `int()` in the source; here they are already integers, and only the year's `int()` can fail.
- PdfTable.WardSpendingPdfTextExtractor.ExtractPdfData: opening the PDF with PyPDF2 and the callbacks of `extract_text` are replaced by the pages' fragments, given in order.  The CSV writer is replaced by the returned rows; the header line `ward, item, location, cost` is not part of them.
- LocationGeocoding.LocationGeocoder.GetGeometryFromLocation: the geocoder is an unconstrained function from a query to an optional point.  The one the script injects (src/scripts/ward_spending_geocoding.py:16-20) is the API client, which answers a Point or None and can also raise on an HTTP error status; the raise is not modelled.  In every branch but ALLEY a raising lookup and a None answer both leave the piece without geometry, but the recorded calls stop at the raise.
- LocationGeocoding.AlleyPolygonIff: a raising corner lookup is not modelled.  The source then returns None for the whole piece, while the model only drops that corner as unresolved.
- SrcAddressGeocoding.GetGeometryFromLocation: the same geocoder abstraction.  The module it imports (src/chicago_participatory_urbanism/geocoder.py) answers a (longitude, latitude) tuple, (0, 0) when nothing is found, and never None; the model does not capture that a tuple has no `.union`, or that None never occurs.
- SrcAddressGeocoding.AlleyPolygonIff: a raising corner lookup is not modelled.  The source then returns None for the whole piece, while the model only drops that corner; with the tuple geocoder, `point.x` in `get_clockwise_sequence` raises AttributeError on the six tuples, so the source returns None for every alley.
- WardAddressGeocoding.GetGeometryFromLocation: the same geocoder abstraction, over the same tuple geocoder as the src assembler, so the None answers the model allows never occur there.
- LocationGeocoding.LocationGeocoder.constructor: the format module the class imports (`lfp`, the `src/ward_spending` location_format_processing) is not part of this model, so its classifier and extractors are a FormatProcessing parameter over values of any type.
- WardAddressGeocoding.PieceGeometries: the classifier and the extractors are parameters.  The extractors of the `src/ward_spending` parser are the `src` parser's, over the same four patterns.
- Geometry.UnionWith: shapely's `union` is a constructor here, so shapes are compared by how they were built, not as point sets.  Only the shapely 2 behaviour the assemblers reach is modelled: `LineString` with a None point raises, `Polygon` over a ring that closes into fewer than four coordinates raises, and `union(None)` is None.
- Geometry.MakePolygon: shapely's validity of a polygon (self-intersection, a ring with no area) is not modelled, as shapely builds invalid polygons without raising; only the length of the closed ring decides whether it raises.
- Categorization.GetMenuCategory: the `in` tests are substring tests on `str`; `lower()` is ASCII only (see Text.Lower).

## Findings

| source | as written | input that shows it | evidently intended | confidence | as-written member | corrected member |
|---|---|---|---|---|---|---|
| chicago_participatory_urbanism/ward_spending/location_format_processing.py:133-141 | `_get_location_text_format` passes each piece, a `str`, to `get_location_format`, which iterates over its argument as a list of locations; each character is classified on its own, and every chunk is `[]` | `"N ASHLAND AVE & W CHESTNUT ST"`: one intersection piece, with a format, whose chunk is `[]` (IntersectionIsLost) | classify each piece as a one-element list `[location]` | not executed | LocationFormatProcessing.TextChunksAsWrittenEmpty | LocationFormatProcessing.TextChunksClassify |
| src/chicago_participatory_urbanism/address_format_processing.py:155-163 | the module-level `get_location_text_format` calls `get_location_format`, which is not defined at module level (it is a method of `LocationStringProcessor`), so every call raises NameError | any text, for example `""` | classify each piece with `LocationStringProcessor(location).get_location_format()` and print its name | not executed | SrcLocationFormat.GetLocationTextFormat | SrcLocationFormat.GetLocationTextFormatFixed |
| src/chicago_participatory_urbanism/address_geocoding.py:33 | `afp.get_location_format(location)` names an attribute the imported module does not have, so each piece raises AttributeError; the outer try catches it and the whole text gives None | `"1200 W MADISON ST"`, whatever the geocoder answers | classify the piece with the parser's `LocationStringProcessor` | not executed | SrcAddressGeocoding.AsWrittenAlwaysNone | SrcAddressGeocoding.FixedFormatFolds |
