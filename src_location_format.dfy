/**
 * The location parser of the `src` package.  A processor keeps its location text
 * stripped but whole (it does not cut it at ';'), classifies it by the first of seven
 * patterns that matches, UNIDENTIFY when none does, and reads it into a tuple of the
 * strings the pattern captures.
 */
module SrcLocationFormat {
  import opened Regex
  import opened Text
  import opened Streets
  import opened LocationPatterns
  import opened Classify
  import C = LocationFormatProcessing
  import L = Locations

  datatype LocationFormat =
    | StreetAddress
    | StreetAddressRange
    | Intersection
    | StreetSegmentIntersections
    | StreetSegmentAddressIntersection
    | StreetSegmentIntersectionAddress
    | Alley
    | Unidentify

  /** `location_patterns` in insertion order: the greedy alley pattern comes before the intersection pattern. */
  function LocationPatternTable(): seq<(LocationFormat, seq<Seg>)> {
    [(StreetAddress, StreetAddressPattern()), (StreetAddressRange, AddressRangePattern()), (Alley, AlleyPattern()),
     (Intersection, IntersectionPattern()), (StreetSegmentIntersections, SegmentIntersectionsPattern()),
     (StreetSegmentAddressIntersection, SegmentAddressIntersectionPattern()),
     (StreetSegmentIntersectionAddress, SegmentIntersectionAddressPattern())]
  }

  /**
   * What `get_location_format(location)` returns: the format of the first pattern that
   * matches the stripped text, and UNIDENTIFY exactly when none does.
   */
  function LocationFormatOf(location: string): LocationFormat {
    FormatOrUnidentify(FirstMatch(LocationPatternTable(), Strip(location)))
  }

  function FormatOrUnidentify(o: Option<LocationFormat>): LocationFormat {
    if o.Some? then o.value else Unidentify
  }

  /** UNIDENTIFY is the answer exactly when none of the seven patterns matches the stripped text. */
  lemma {:induction false} UnidentifyIffNoMatch(location: string)
    ensures LocationFormatOf(location) == Unidentify <==>
      forall k | 0 <= k < |LocationPatternTable()| :: !Matches(LocationPatternTable()[k].1, Strip(location))
  {
    var table := LocationPatternTable();
    assert forall k | 0 <= k < |table| :: table[k].0 != Unidentify;
    NoMatchGivesDefault(table, Strip(location), Unidentify);
  }

  /**
   * A text the alley pattern matches is never taken for an intersection: only the two
   * address patterns, tried before it, can claim it first.
   */
  lemma {:induction false} AlleyBeforeIntersection(location: string)
    requires Matches(AlleyPattern(), Strip(location))
    ensures var f := LocationFormatOf(location); f == StreetAddress || f == StreetAddressRange || f == Alley
  {
    AlleyWithinFirstThree(LocationPatternTable(), Strip(location));
  }

  lemma {:induction false} AlleyWithinFirstThree(table: seq<(LocationFormat, seq<Seg>)>, s: string)
    requires table == LocationPatternTable() && Matches(AlleyPattern(), s)
    ensures var f := FirstMatch(table, s); f.Some? && (f.value == StreetAddress || f.value == StreetAddressRange || f.value == Alley)
  {
    FirstIndexAtMost(table, s, 2);
  }

  // ---------------------------------------------------------------------------------
  // extract_street_name_and_number

  /**
   * `extract_street_name_and_number(text)`: `match.group(0)` of the street-address
   * pattern on the stripped text.  None stands for the `(None, None)` returned without
   * a match.
   */
  function ExtractStreetNameAndNumber(streetString: string): Option<string> {
    MatchedText(StreetAddressPattern(), Strip(streetString))
  }

  /** The call gives back the whole stripped text, not its name and number apart, iff that text is a street address. */
  lemma {:induction false} StreetNameAndNumberIsWhole(text: string)
    ensures ExtractStreetNameAndNumber(text).Some? <==> Matches(StreetAddressPattern(), Strip(text))
    ensures ExtractStreetNameAndNumber(text).Some? ==> ExtractStreetNameAndNumber(text).value == Strip(text)
  {
    var p, s := StreetAddressPattern(), Strip(text);
    if Matches(p, s) {
      assert p[|p| - 1] == End;
      MatchCovers(p, s);
      assert IsSpace('\n');
    }
  }

  // ---------------------------------------------------------------------------------
  // extract_address_range_street_addresses

  /**
   * `extract_address_range_street_addresses(location)`: "<n1> <street>" and
   * "<n2> <street>" from groups 1, 2 and 3 of the range pattern.  Without a match
   * `match.group` raises AttributeError.
   */
  function ExtractAddressRangeStreetAddresses(location: string): Outcome<(string, string)> {
    var p := AddressRangePattern();
    match (MatchGroup(p, location, 1), MatchGroup(p, location, 2), MatchGroup(p, location, 3))
    case (Some(number1), Some(number2), Some(street)) => Returned((number1 + " " + street, number2 + " " + street))
    case _ => Raised
  }

  /** On a match with numbers n1 and n2 and street phrase street, the two strings put n1 and then n2 before that phrase. */
  lemma {:induction false} AddressRangeStrings(text: string, n1: string, n2: string, street: string)
    requires MatchGroup(AddressRangePattern(), text, 1) == Some(n1)
    requires MatchGroup(AddressRangePattern(), text, 2) == Some(n2)
    requires MatchGroup(AddressRangePattern(), text, 3) == Some(street)
    ensures C.AllDigits(n1) && C.AllDigits(n2)
    ensures ExtractAddressRangeStreetAddresses(text) == Returned((n1 + " " + street, n2 + " " + street))
  {
    C.RangeGroups(text);
  }

  /**
   * Read as street addresses, the two strings are the two addresses the entity version
   * of the call builds from the same text.
   */
  lemma {:induction false} AddressRangeAgreement(text: string, n1: string, n2: string, street: string)
    requires MatchGroup(AddressRangePattern(), text, 1) == Some(n1)
    requires MatchGroup(AddressRangePattern(), text, 2) == Some(n2)
    requires MatchGroup(AddressRangePattern(), text, 3) == Some(street)
    ensures var a1, a2 := C.ExtractStreetAddress(n1 + " " + street), C.ExtractStreetAddress(n2 + " " + street);
      a1.Returned? && a2.Returned? && C.ExtractAddressRangeStreetAddresses(text) == Returned((a1.value, a2.value))
  {
    C.AddressRangeOutcome(text, n1, n2, street);
  }

  /** The call raises iff the text does not match the range pattern. */
  lemma {:induction false} AddressRangeRaises(text: string)
    ensures ExtractAddressRangeStreetAddresses(text).Raised? <==> !Matches(AddressRangePattern(), text)
  {
    if Matches(AddressRangePattern(), text) {
      C.RangeGroups(text);
    }
  }

  // ---------------------------------------------------------------------------------
  // extract_alley_street_names and extract_intersection_street_names

  /** `extract_alley_street_names(location)`: groups 1 to 4 of the greedy alley pattern; AttributeError without a match. */
  function ExtractAlleyStreetNames(location: string): Outcome<(string, string, string, string)> {
    var p := AlleyPattern();
    match (MatchGroup(p, location, 1), MatchGroup(p, location, 2), MatchGroup(p, location, 3), MatchGroup(p, location, 4))
    case (Some(n1), Some(n2), Some(n3), Some(n4)) => Returned((n1, n2, n3, n4))
    case _ => Raised
  }

  /** Group g of a greedy alley match is a name without a newline. */
  lemma {:induction false} AlleyGroup(text: string, g: nat)
    requires Matches(AlleyPattern(), text) && 1 <= g <= 4
    ensures MatchGroup(AlleyPattern(), text, g).Some? && '\n' !in MatchGroup(AlleyPattern(), text, g).value
  {
    var p := AlleyPattern();
    var o := 11 * (g - 1) + 2;
    AlleyMarkers(g);
    AlleyGroupSegs(g);
    ClassGroup(p, text, g, o);
    C.NoNewline(MatchGroup(p, text, g).value);
  }

  lemma {:induction false} AlleyGroupSegs(g: nat)
    requires 1 <= g <= 4
    ensures var p, o := AlleyPattern(), 11 * (g - 1) + 2;
      o + 2 < |p| && p[o] == Open(g) && p[o + 1] == Rep(NotNewline, 0, true) && p[o + 2] == Close(g)
  {
  }

  /** The four names come back, in the order of the text, iff the text matches; none holds a newline. */
  lemma {:induction false} AlleyNames(text: string)
    ensures var r, p := ExtractAlleyStreetNames(text), AlleyPattern();
      && (r.Returned? <==> Matches(p, text))
      && (r.Returned? ==>
        && r.value.0 == MatchGroup(p, text, 1).value && r.value.1 == MatchGroup(p, text, 2).value
        && r.value.2 == MatchGroup(p, text, 3).value && r.value.3 == MatchGroup(p, text, 4).value
        && '\n' !in r.value.0 && '\n' !in r.value.1 && '\n' !in r.value.2 && '\n' !in r.value.3)
  {
    if Matches(AlleyPattern(), text) {
      AlleyGroup(text, 1);
      AlleyGroup(text, 2);
      AlleyGroup(text, 3);
      AlleyGroup(text, 4);
    }
  }

  /** `extract_intersection_street_names(location)`: groups 1 and 2 of the intersection pattern; AttributeError without a match. */
  function ExtractIntersectionStreetNames(location: string): Outcome<(string, string)> {
    var p := IntersectionPattern();
    match (MatchGroup(p, location, 1), MatchGroup(p, location, 2))
    case (Some(n1), Some(n2)) => Returned((n1, n2))
    case _ => Raised
  }

  /** The two names come back iff the text matches, as the names of the entity version of the call. */
  lemma {:induction false} IntersectionNames(text: string)
    ensures var r := ExtractIntersectionStreetNames(text);
      && (r.Returned? <==> Matches(IntersectionPattern(), text))
      && (r.Returned? ==>
            C.ExtractIntersectionStreetNames(text) == Returned(L.Intersection(C.Nameless(r.value.0), C.Nameless(r.value.1))))
  {
    C.IntersectionOutcome(text);
  }

  /** Reading back the rendering of an intersection of two valid streets gives their names in order. */
  lemma {:induction false} IntersectionNamesRoundTrip(d1: char, n1: string, j1: nat, d2: char, n2: string, j2: nat)
    requires ValidStreet(d1, n1, j1) && ValidStreet(d2, n2, j2) && '&' !in n2
    ensures ExtractIntersectionStreetNames(
      L.IntersectionStr(L.Intersection(L.Street([d1], n1, Suffixes[j1]), L.Street([d2], n2, Suffixes[j2])))) == Returned((n1, n2))
  {
    C.IntersectionRoundTrip(d1, n1, j1, d2, n2, j2);
    IntersectionGroups(d1, n1, j1, d2, n2, j2);
  }

  // ---------------------------------------------------------------------------------
  // the segment extractors

  /**
   * `extract_segment_intersections_street_names(s)`: (primary, cross1, cross2) from
   * groups 1 to 3.  None stands for the `(None, None, None)` returned without a match.
   */
  function ExtractSegmentIntersectionsStreetNames(streetSegmentIntersections: string): Option<(string, string, string)> {
    var p := SegmentIntersectionsPattern();
    match (MatchGroup(p, streetSegmentIntersections, 1), MatchGroup(p, streetSegmentIntersections, 2),
           MatchGroup(p, streetSegmentIntersections, 3))
    case (Some(primary), Some(cross1), Some(cross2)) => Some((primary, cross1, cross2))
    case _ => None
  }

  /**
   * The triple is there iff the text matches; its names are those the entity version of
   * the call puts into its two intersections, the primary name first in both.
   */
  lemma {:induction false} SegmentIntersectionsNames(text: string)
    ensures var r, e := ExtractSegmentIntersectionsStreetNames(text), C.ExtractSegmentIntersections(text);
      && (r.Some? <==> Matches(SegmentIntersectionsPattern(), text))
      && (r.Some? ==> e == Some((L.Intersection(C.Nameless(r.value.0), C.Nameless(r.value.1)),
                                 L.Intersection(C.Nameless(r.value.0), C.Nameless(r.value.2)))))
  {
    if Matches(SegmentIntersectionsPattern(), text) {
      C.SegmentIntersectionsGroups(text);
    }
  }

  /**
   * `extract_segment_intersections_address_range(s)`: over two-word streets only, the
   * FROM number (group 2) and the TO number (group 3) each followed by a space and the
   * primary street (group 1).  None stands for `(None, None)`.
   */
  function ExtractSegmentIntersectionsAddressRange(streetSegmentIntersections: string): Option<(string, string)> {
    var p := WordSegmentPattern();
    match (MatchGroup(p, streetSegmentIntersections, 1), MatchGroup(p, streetSegmentIntersections, 2),
           MatchGroup(p, streetSegmentIntersections, 3))
    case (Some(street), Some(startNumber), Some(endNumber)) => Some((startNumber + " " + street, endNumber + " " + street))
    case _ => None
  }

  /**
   * On a match with street, FROM number and TO number: both numbers are digits, the
   * pair is (FROM on street, TO on street), and read as street addresses the two strings
   * carry the values of the two numbers on one street.
   */
  lemma {:induction false} SegmentAddressRangeStrings(text: string, street: string, startNumber: string, endNumber: string)
    requires MatchGroup(WordSegmentPattern(), text, 1) == Some(street)
    requires MatchGroup(WordSegmentPattern(), text, 2) == Some(startNumber)
    requires MatchGroup(WordSegmentPattern(), text, 3) == Some(endNumber)
    ensures C.AllDigits(startNumber) && C.AllDigits(endNumber)
    ensures ExtractSegmentIntersectionsAddressRange(text) == Some((startNumber + " " + street, endNumber + " " + street))
    ensures var a, b := C.ExtractStreetAddress(startNumber + " " + street), C.ExtractStreetAddress(endNumber + " " + street);
      a.Returned? && b.Returned? && a.value.number == DigitsValue(startNumber) && b.value.number == DigitsValue(endNumber) &&
      a.value.street == b.value.street
  {
    C.WordSegmentGroups(text);
    C.ExtractNumbered(startNumber, street);
    C.ExtractNumbered(endNumber, street);
  }

  /** The pair is (None, None) iff the text is not a segment over two-word streets. */
  lemma {:induction false} SegmentAddressRangeNone(text: string)
    ensures ExtractSegmentIntersectionsAddressRange(text).None? <==> !Matches(WordSegmentPattern(), text)
  {
    if Matches(WordSegmentPattern(), text) {
      C.WordSegmentGroups(text);
    }
  }

  /**
   * `extract_segment_address_intersection_info(location)`: ("<FROM number> <primary
   * phrase>", primary name, cross name) from groups 3, 1, 2 and 4; AttributeError without
   * a match.
   */
  function ExtractSegmentAddressIntersectionInfo(location: string): Outcome<(string, string, string)> {
    var p := SegmentAddressIntersectionPattern();
    match (MatchGroup(p, location, 1), MatchGroup(p, location, 2), MatchGroup(p, location, 3), MatchGroup(p, location, 4))
    case (Some(primary), Some(primaryName), Some(number), Some(crossName)) => Returned((number + " " + primary, primaryName, crossName))
    case _ => Raised
  }

  /** The call raises iff the text does not match. */
  lemma {:induction false} SegmentAddressIntersectionRaises(text: string)
    ensures ExtractSegmentAddressIntersectionInfo(text).Raised? <==> !Matches(SegmentAddressIntersectionPattern(), text)
  {
    if Matches(SegmentAddressIntersectionPattern(), text) {
      C.SegmentAddressIntersectionGroups(text);
    }
  }

  /**
   * On a match with primary phrase, primary name, FROM number and cross name: the triple
   * puts the number before the phrase, and it holds what the entity version reads, the
   * address string being read as that version's address and the two names being its
   * intersection's streets.
   */
  lemma {:induction false} SegmentAddressIntersectionAgreement(text: string, primary: string, primaryName: string, number: string, crossName: string)
    requires MatchGroup(SegmentAddressIntersectionPattern(), text, 1) == Some(primary)
    requires MatchGroup(SegmentAddressIntersectionPattern(), text, 2) == Some(primaryName)
    requires MatchGroup(SegmentAddressIntersectionPattern(), text, 3) == Some(number)
    requires MatchGroup(SegmentAddressIntersectionPattern(), text, 4) == Some(crossName)
    ensures ExtractSegmentAddressIntersectionInfo(text) == Returned((number + " " + primary, primaryName, crossName))
    ensures var a := C.ExtractStreetAddress(number + " " + primary);
      a.Returned? && C.ExtractSegmentAddressIntersectionInfo(text) ==
        Returned((a.value, L.Intersection(C.Nameless(primaryName), C.Nameless(crossName))))
  {
    C.SegmentAddressIntersectionOutcome(text, primary, primaryName, number, crossName);
  }

  /**
   * `extract_segment_intersection_address_info(location)`: (primary name, cross name,
   * "<TO number> <primary phrase>") from groups 2, 3, 4 and 1; AttributeError without a
   * match.
   */
  function ExtractSegmentIntersectionAddressInfo(location: string): Outcome<(string, string, string)> {
    var p := SegmentIntersectionAddressPattern();
    match (MatchGroup(p, location, 1), MatchGroup(p, location, 2), MatchGroup(p, location, 3), MatchGroup(p, location, 4))
    case (Some(primary), Some(primaryName), Some(crossName), Some(number)) => Returned((primaryName, crossName, number + " " + primary))
    case _ => Raised
  }

  /** The call raises iff the text does not match. */
  lemma {:induction false} SegmentIntersectionAddressRaises(text: string)
    ensures ExtractSegmentIntersectionAddressInfo(text).Raised? <==> !Matches(SegmentIntersectionAddressPattern(), text)
  {
    if Matches(SegmentIntersectionAddressPattern(), text) {
      C.SegmentIntersectionAddressGroups(text);
    }
  }

  /** The same agreement with the entity version for the intersection-address format, the TO number taking the address. */
  lemma {:induction false} SegmentIntersectionAddressAgreement(text: string, primary: string, primaryName: string, crossName: string, number: string)
    requires MatchGroup(SegmentIntersectionAddressPattern(), text, 1) == Some(primary)
    requires MatchGroup(SegmentIntersectionAddressPattern(), text, 2) == Some(primaryName)
    requires MatchGroup(SegmentIntersectionAddressPattern(), text, 3) == Some(crossName)
    requires MatchGroup(SegmentIntersectionAddressPattern(), text, 4) == Some(number)
    ensures ExtractSegmentIntersectionAddressInfo(text) == Returned((primaryName, crossName, number + " " + primary))
    ensures var a := C.ExtractStreetAddress(number + " " + primary);
      a.Returned? && C.ExtractSegmentIntersectionAddressInfo(text) ==
        Returned((L.Intersection(C.Nameless(primaryName), C.Nameless(crossName)), a.value))
  {
    C.SegmentIntersectionAddressOutcome(text, primary, primaryName, crossName, number);
  }

  // ---------------------------------------------------------------------------------
  // get_location_text_format

  /**
   * The name `get_location_format` the module-level loop calls: the module defines it
   * only as a method of the processor, so looking it up raises NameError.
   */
  function UndefinedLookup(location: string): Outcome<string> {
    Raised
  }

  /** `get_location_text_format(text)` as written: every text has a piece, so the first lookup raises. */
  method GetLocationTextFormat(text: string) returns (r: Outcome<string>)
    ensures r == Raised
  {
    r := TextFormatLoop(text, UndefinedLookup);
    RenderAllRaises(UndefinedLookup, Split(text, ';'), 0);
  }

  /** What `str()` writes for a member of the enumeration. */
  function FormatName(f: LocationFormat): (r: string)
    ensures ';' !in r
  {
    "LocationFormat." + MemberName(f)
  }

  /** The name of a member of the enumeration. */
  function MemberName(f: LocationFormat): (r: string)
    ensures ';' !in r
  {
    match f
    case StreetAddress => "STREET_ADDRESS"
    case StreetAddressRange => "STREET_ADDRESS_RANGE"
    case Intersection => "INTERSECTION"
    case StreetSegmentIntersections => "STREET_SEGMENT_INTERSECTIONS"
    case StreetSegmentAddressIntersection => "STREET_SEGMENT_ADDRESS_INTERSECTION"
    case StreetSegmentIntersectionAddress => "STREET_SEGMENT_INTERSECTION_ADDRESS"
    case Alley => "ALLEY"
    case Unidentify => "UNIDENTIFY"
  }

  /** The lookup the loop evidently means: the processor's classification of the piece, written by `str()`. */
  function FormatLookup(location: string): Outcome<string> {
    Returned(FormatName(LocationFormatOf(location)))
  }

  /**
   * `get_location_text_format(text)` with the lookup resolved to the processor's
   * classification: cutting the result at ';' gives one format name per piece, in the
   * order of the pieces, and an empty text after the final ';'.
   */
  method GetLocationTextFormatFixed(text: string) returns (r: string)
    ensures var pieces, cs := Split(text, ';'), Split(r, ';');
      |cs| == |pieces| + 1 && cs[|pieces|] == [] &&
      forall k | 0 <= k < |pieces| :: cs[k] == FormatName(LocationFormatOf(pieces[k]))
  {
    var o := TextFormatLoop(text, FormatLookup);
    RenderAllChunks(FormatLookup, Split(text, ';'));
    r := o.value;
  }

  // ---------------------------------------------------------------------------------
  // the processor

  /** The `proc_string` entry of the dictionary `run` returns. */
  datatype ProcString =
    | Whole(text: string)                                                    // the stripped text itself
    | Pair(first: string, second: string)
    | Triple(first: string, second: string, third: string)
    | Quadruple(first: string, second: string, third: string, fourth: string)
    | NoneTriple                                                             // (None, None, None)
    | NoProcString                                                           // None

  /** `{'format': format, 'proc_string': proc}`. */
  datatype Output = Output(format: LocationFormat, procString: ProcString)

  /** What `run` returns for the stripped text and its format, or Raised when the extractor raises. */
  function OutputOf(locString: string, format: LocationFormat): (r: Outcome<Output>)
    ensures r.Returned? ==> r.value.format == format
  {
    match format
    case StreetAddress => Returned(Output(format, Whole(locString)))
    case StreetAddressRange =>
      (match ExtractAddressRangeStreetAddresses(locString)
       case Returned((a1, a2)) => Returned(Output(format, Pair(a1, a2)))
       case Raised => Raised)
    case Alley =>
      (match ExtractAlleyStreetNames(locString)
       case Returned((n1, n2, n3, n4)) => Returned(Output(format, Quadruple(n1, n2, n3, n4)))
       case Raised => Raised)
    case Intersection =>
      (match ExtractIntersectionStreetNames(locString)
       case Returned((n1, n2)) => Returned(Output(format, Pair(n1, n2)))
       case Raised => Raised)
    case StreetSegmentIntersections =>
      (match ExtractSegmentIntersectionsStreetNames(locString)
       case Some((p, c1, c2)) => Returned(Output(format, Triple(p, c1, c2)))
       case None => Returned(Output(format, NoneTriple)))
    case StreetSegmentAddressIntersection =>
      (match ExtractSegmentAddressIntersectionInfo(locString)
       case Returned((a, p, c)) => Returned(Output(format, Triple(a, p, c)))
       case Raised => Raised)
    case StreetSegmentIntersectionAddress =>
      (match ExtractSegmentIntersectionAddressInfo(locString)
       case Returned((p, c, a)) => Returned(Output(format, Triple(p, c, a)))
       case Raised => Raised)
    case Unidentify => Returned(Output(format, NoProcString))
  }

  /**
   * `run` never raises on a stripped text with its own format: the format's pattern
   * matched, so its extractor finds its groups.  A street address comes back whole, an
   * unidentified text with no proc string, and no segment comes back as a triple of None.
   */
  lemma {:induction false} RunNeverRaises(loc: string)
    requires Strip(loc) == loc
    ensures var f := LocationFormatOf(loc); var r := OutputOf(loc, f);
      && r.Returned?
      && (f == StreetAddress ==> r.value.procString == Whole(loc))
      && (f == Unidentify <==> r.value.procString == NoProcString)
      && r.value.procString != NoneTriple
  {
    RunOnTable(LocationPatternTable(), loc);
  }

  lemma {:induction false} RunOnTable(table: seq<(LocationFormat, seq<Seg>)>, loc: string)
    requires table == LocationPatternTable()
    ensures var f := FormatOrUnidentify(FirstMatch(table, loc)); var r := OutputOf(loc, f);
      && r.Returned?
      && (f == StreetAddress ==> r.value.procString == Whole(loc))
      && (f == Unidentify <==> r.value.procString == NoProcString)
      && r.value.procString != NoneTriple
  {
    var k := FirstIndex(table, loc);
    FirstIndexBounded(table, loc);
    if k < |table| {
      TableEntry(table, k);
      OutputReturns(loc, table[k].0);
    }
  }

  /** The pattern the table pairs with a format other than UNIDENTIFY. */
  function PatternFor(f: LocationFormat): seq<Seg>
    requires f != Unidentify
  {
    match f
    case StreetAddress => StreetAddressPattern()
    case StreetAddressRange => AddressRangePattern()
    case Alley => AlleyPattern()
    case Intersection => IntersectionPattern()
    case StreetSegmentIntersections => SegmentIntersectionsPattern()
    case StreetSegmentAddressIntersection => SegmentAddressIntersectionPattern()
    case StreetSegmentIntersectionAddress => SegmentIntersectionAddressPattern()
  }

  lemma {:induction false} TableEntry(table: seq<(LocationFormat, seq<Seg>)>, k: nat)
    requires table == LocationPatternTable() && k < |table|
    ensures table[k].0 != Unidentify && table[k].1 == PatternFor(table[k].0)
  {
  }

  /** A text its format's pattern matches is read without an exception. */
  lemma {:induction false} OutputReturns(loc: string, f: LocationFormat)
    requires f != Unidentify && Matches(PatternFor(f), loc)
    ensures var r := OutputOf(loc, f);
      && r.Returned?
      && (f == StreetAddress ==> r.value.procString == Whole(loc))
      && r.value.procString != NoProcString && r.value.procString != NoneTriple
  {
    match f
    case StreetAddress =>
    case StreetAddressRange => AddressRangeRaises(loc);
    case Alley => AlleyNames(loc);
    case Intersection => IntersectionNames(loc);
    case StreetSegmentIntersections => SegmentIntersectionsNames(loc);
    case StreetSegmentAddressIntersection => SegmentAddressIntersectionRaises(loc);
    case StreetSegmentIntersectionAddress => SegmentIntersectionAddressRaises(loc);
  }

  class LocationStringProcessor {
    var locString: string
    var format: LocationFormat

    /** The fields as `__init__` leaves them: the stripped text and its format. */
    predicate Valid()
      reads this
    {
      Strip(locString) == locString && format == LocationFormatOf(locString)
    }

    /** `__init__`: strip the text, keep it whole, and classify it. */
    constructor(locationString: string)
      ensures locString == Strip(locationString) && format == LocationFormatOf(locString)
      ensures Valid()
    {
      locString := Strip(locationString);
      new;
      StripPlain(locString);
      format := GetLocationFormat(locString);
    }

    /** `get_location_format(location)`: try the patterns in order on the stripped text; UNIDENTIFY after the last. */
    method GetLocationFormat(location: string) returns (f: LocationFormat)
      ensures f == LocationFormatOf(location)
    {
      var table := LocationPatternTable();
      var s := Strip(location);
      var k := 0;
      while k < |table|
        invariant 0 <= k <= |table| && k <= FirstIndex(table, s)
      {
        if Matches(table[k].1, s) {
          FirstIndexHit(table, s, k);
          return table[k].0;
        }
        FirstIndexSkip(table, s, k);
        k := k + 1;
      }
      FirstIndexNone(table, s);
      return Unidentify;
    }

    /**
     * `run()`: the format with what its extractor reads from the stripped text.  On a
     * processor the constructor built it never raises.
     */
    method Run() returns (r: Outcome<Output>)
      requires Valid()
      ensures r == OutputOf(locString, format) && r.Returned?
    {
      RunNeverRaises(locString);
      match format
      case StreetAddress =>
        r := Returned(Output(format, Whole(locString)));
      case StreetAddressRange =>
        var (a1, a2) := ExtractAddressRangeStreetAddresses(locString).value;
        r := Returned(Output(format, Pair(a1, a2)));
      case Alley =>
        var (n1, n2, n3, n4) := ExtractAlleyStreetNames(locString).value;
        r := Returned(Output(format, Quadruple(n1, n2, n3, n4)));
      case Intersection =>
        var (n1, n2) := ExtractIntersectionStreetNames(locString).value;
        r := Returned(Output(format, Pair(n1, n2)));
      case StreetSegmentIntersections =>
        var (p, c1, c2) := ExtractSegmentIntersectionsStreetNames(locString).value;
        r := Returned(Output(format, Triple(p, c1, c2)));
      case StreetSegmentAddressIntersection =>
        var (a, p, c) := ExtractSegmentAddressIntersectionInfo(locString).value;
        r := Returned(Output(format, Triple(a, p, c)));
      case StreetSegmentIntersectionAddress =>
        var (p, c, a) := ExtractSegmentIntersectionAddressInfo(locString).value;
        r := Returned(Output(format, Triple(p, c, a)));
      case Unidentify =>
        r := Returned(Output(format, NoProcString));
    }
  }
}
