/**
 * The location text parser of the ward spending package.  A location description is
 * stripped and cut at ';'; each stripped piece is classified by the first of seven
 * anchored patterns that matches it (pieces no pattern matches are dropped), and each
 * classified piece is read into street addresses and intersections.
 */
module LocationFormatProcessing {
  import opened Regex
  import opened Text
  import opened LocationPatterns
  import opened Classify
  import opened Streets
  import L = Locations

  datatype LocationFormat =
    | StreetAddress
    | StreetAddressRange
    | Intersection
    | StreetSegmentIntersections
    | StreetSegmentAddressIntersection
    | StreetSegmentIntersectionAddress
    | Alley
    | Unidentified

  /** `location_patterns`, in the insertion order of the dictionary: the alley pattern comes before the intersection pattern. */
  function LocationPatternTable(): seq<(LocationFormat, seq<Seg>)> {
    [(StreetAddress, StreetAddressPattern()), (StreetAddressRange, AddressRangePattern()), (Alley, LazyAlleyPattern()),
     (StreetSegmentIntersections, SegmentIntersectionsPattern()),
     (StreetSegmentAddressIntersection, SegmentAddressIntersectionPattern()),
     (StreetSegmentIntersectionAddress, SegmentIntersectionAddressPattern()), (Intersection, IntersectionPattern())]
  }

  /**
   * `get_location_format(location)`: the format of the first pattern that matches the
   * stripped text, None when no pattern does.  UNIDENTIFIED is never the answer.
   */
  function GetLocationFormat(location: string): (r: Option<LocationFormat>)
    ensures r.Some? <==> exists k | 0 <= k < |LocationPatternTable()| :: Matches(LocationPatternTable()[k].1, Strip(location))
    ensures r != Some(Unidentified)
  {
    FirstMatch(LocationPatternTable(), Strip(location))
  }

  // ---------------------------------------------------------------------------------
  // extract_street_address

  /**
   * The street of `address_parts[1]`, `" ".join(address_parts[2:-1])` and
   * `address_parts[-1]`, given the parts after the number.  With only one part the
   * direction and the type are both that part and the name is empty.
   */
  function StreetOfParts(ws: seq<string>): L.Street
    requires |ws| >= 1
  {
    L.Street(ws[0], Join(if |ws| >= 2 then ws[1..|ws| - 1] else [], ' '), ws[|ws| - 1])
  }

  /**
   * `extract_street_address(text)`: split the stripped text at single spaces, read the
   * first part with `int()` and the rest as a street.  `int()` raises ValueError on a
   * first part that is not a number, and `address_parts[1]` raises IndexError on a
   * single part.
   */
  function ExtractStreetAddress(streetAddressText: string): (r: Outcome<L.StreetAddress>)
    ensures r.Returned? ==> L.Tokenised(r.value.street)
  {
    var parts := Split(Strip(streetAddressText), ' ');
    match ParseInt(parts[0])
    case None => Raised
    case Some(number) =>
      if |parts| < 2 then Raised
      else
        assert ' ' !in parts[1] && ' ' !in parts[|parts| - 1];
        Returned(L.StreetAddress(number, StreetOfParts(parts[1..])))
  }

  /** A text without an inner space is one part, and one part is never an address. */
  lemma {:induction false} SingleWordRaises(text: string)
    requires ' ' !in Strip(text)
    ensures ExtractStreetAddress(text) == Raised
  {
    SplitFree(Strip(text), ' ');
  }

  /** Reading back the rendering of an address on a street whose type ends in a visible character gives the address. */
  lemma {:induction false} ExtractRenderedAddress(a: L.StreetAddress)
    requires L.Tokenised(a.street) && a.street.streetType != [] && !IsSpace(a.street.streetType[|a.street.streetType| - 1])
    ensures ExtractStreetAddress(L.AddressStr(a)) == Returned(a)
  {
    var ws := [a.street.direction] + Split(a.street.name, ' ') + [a.street.streetType];
    RenderedParts(a);
    ParseIntToString(a.number);
    assert ws[1..|ws| - 1] == Split(a.street.name, ' ');
    JoinSplit(a.street.name, ' ');
    assert StreetOfParts(ws) == a.street;
  }

  /** The parts of the rendering of an address: its number, its direction, the words of its name and its type. */
  lemma {:induction false} RenderedParts(a: L.StreetAddress)
    requires L.Tokenised(a.street) && a.street.streetType != [] && !IsSpace(a.street.streetType[|a.street.streetType| - 1])
    ensures var ws := [a.street.direction] + Split(a.street.name, ' ') + [a.street.streetType];
      var parts := Split(Strip(L.AddressStr(a)), ' ');
      parts[0] == IntToString(a.number) && parts[1..] == ws
  {
    var n, st := IntToString(a.number), L.StreetStr(a.street);
    var text := L.AddressStr(a);
    assert text == n + [' '] + st;
    assert text[0] == n[0] && text[|text| - 1] == st[|st| - 1];
    StripPlain(text);
    SplitAppend(n, st, ' ');
    L.StreetStrSplit(a.street);
    var ws := [a.street.direction] + Split(a.street.name, ' ') + [a.street.streetType];
    assert ([n] + ws)[0] == n && ([n] + ws)[1..] == ws;
  }

  /**
   * Conversely, a text of at least four parts whose number is written the way `str()`
   * writes it is the rendering of the address read from it, up to surrounding whitespace.
   */
  lemma {:induction false} ExtractedAddressRenders(text: string)
    requires ExtractStreetAddress(text).Returned?
    requires var parts := Split(Strip(text), ' ');
      |parts| >= 4 && parts[0] == IntToString(ExtractStreetAddress(text).value.number)
    ensures L.AddressStr(ExtractStreetAddress(text).value) == Strip(text)
  {
    var parts := Split(Strip(text), ' ');
    assert ExtractStreetAddress(text).value.street == StreetOfParts(parts[1..]);
    JoinSplit(Strip(text), ' ');
    PartsRender(parts);
  }

  /** The number part, a space and the rendering of the street of the other parts join the parts. */
  lemma {:induction false} PartsRender(parts: seq<string>)
    requires |parts| >= 4
    ensures parts[0] + " " + L.StreetStr(StreetOfParts(parts[1..])) == Join(parts, ' ')
  {
    var ws := parts[1..];
    var mid := ws[1..|ws| - 1];
    assert Join(parts, ' ') == parts[0] + " " + Join(ws, ' ');
    assert Join(ws, ' ') == ws[0] + " " + Join(ws[1..], ' ');
    assert ws[1..] == mid + [ws[|ws| - 1]];
    JoinSnoc(mid, ws[|ws| - 1], ' ');
  }

  /** A number in digits, a space and a text that starts with a visible character: the street is read from that text. */
  lemma {:induction false} ExtractNumbered(number: string, street: string)
    requires number != [] && forall k | 0 <= k < |number| :: IsDigit(number[k])
    requires street != [] && !IsSpace(street[0])
    ensures ExtractStreetAddress(number + " " + street) ==
      Returned(L.StreetAddress(DigitsValue(number), StreetOfParts(Split(StripRight(street), ' '))))
  {
    var text := number + " " + street;
    assert text[0] == number[0];
    StripFromStart(text);
    assert text == (number + " ") + street;
    StripRightAppend(number + " ", street);
    assert StripRight(text) == number + [' '] + StripRight(street);
    assert ' ' !in number;
    SplitAppend(number, StripRight(street), ' ');
    ParseDigits(number);
    var parts := [number] + Split(StripRight(street), ' ');
    assert parts[0] == number && parts[1..] == Split(StripRight(street), ' ');
  }

  // ---------------------------------------------------------------------------------
  // extract_address_range_street_addresses

  /** All characters of d are decimal digits. */
  predicate AllDigits(d: string) {
    forall k | 0 <= k < |d| :: IsDigit(d[k])
  }

  /**
   * `extract_address_range_street_addresses(text)`: groups 1 and 2 of the range pattern
   * are the numbers, group 3 the street phrase, and each address is read by
   * `extract_street_address(f"{number} {street}")`.  Without a match `match.group`
   * raises AttributeError.
   */
  function ExtractAddressRangeStreetAddresses(locationText: string): (r: Outcome<(L.StreetAddress, L.StreetAddress)>)
  {
    var p := AddressRangePattern();
    match (MatchGroup(p, locationText, 1), MatchGroup(p, locationText, 2), MatchGroup(p, locationText, 3))
    case (Some(number1), Some(number2), Some(street)) =>
      (match (ExtractStreetAddress(number1 + " " + street), ExtractStreetAddress(number2 + " " + street))
       case (Returned(address1), Returned(address2)) => Returned((address1, address2))
       case _ => Raised)
    case _ => Raised
  }

  /** A group holding `\d+`: present, not empty, all digits. */
  lemma {:induction false} DigitsGroup(p: seq<Seg>, s: string, g: nat, o: nat)
    requires Matches(p, s) && o + 2 < |p|
    requires p[o] == Open(g) && p[o + 1] == Digits && p[o + 2] == Close(g)
    requires Find(p, Open(g)) == o && Find(p, Close(g)) == o + 2
    ensures MatchGroup(p, s, g).Some? && MatchGroup(p, s, g).value != [] && AllDigits(MatchGroup(p, s, g).value)
  {
    ClassGroup(p, s, g, o);
  }

  /** A group opening on `[NWES]`: present, and its first character a direction. */
  lemma {:induction false} DirectionGroup(p: seq<Seg>, s: string, g: nat, o: nat, c: nat)
    requires Matches(p, s) && o + 1 < c < |p|
    requires p[o] == Open(g) && p[o + 1] == One(Direction)
    requires Find(p, Open(g)) == o && Find(p, Close(g)) == c
    ensures MatchGroup(p, s, g).Some? && MatchGroup(p, s, g).value != [] && IsDirection(MatchGroup(p, s, g).value[0])
  {
    GroupStart(p, s, Match(p, s).value, g, o, c);
  }

  /** The three groups of a range match: two runs of digits and a phrase that starts with a direction letter. */
  lemma {:induction false} RangeGroups(text: string)
    requires Matches(AddressRangePattern(), text)
    ensures var p := AddressRangePattern();
      MatchGroup(p, text, 1).Some? && MatchGroup(p, text, 2).Some? && MatchGroup(p, text, 3).Some? &&
      MatchGroup(p, text, 1).value != [] && AllDigits(MatchGroup(p, text, 1).value) &&
      MatchGroup(p, text, 2).value != [] && AllDigits(MatchGroup(p, text, 2).value) &&
      MatchGroup(p, text, 3).value != [] && IsDirection(MatchGroup(p, text, 3).value[0])
  {
    var p := AddressRangePattern();
    RangeMarkers();
    AddressRangeLayout();
    DigitsGroup(p, text, 1, 0);
    DigitsGroup(p, text, 2, 4);
    DirectionGroup(p, text, 3, 8, 17);
  }

  /** Without a match the call raises; with one it returns. */
  lemma {:induction false} AddressRangeRaises(text: string)
    ensures ExtractAddressRangeStreetAddresses(text).Raised? <==> !Matches(AddressRangePattern(), text)
  {
    if Matches(AddressRangePattern(), text) {
      RangeGroups(text);
      var p := AddressRangePattern();
      AddressRangeOutcome(text, MatchGroup(p, text, 1).value, MatchGroup(p, text, 2).value, MatchGroup(p, text, 3).value);
    }
  }

  /**
   * On a match with numbers n1 and n2 and street phrase street, the two numbers are
   * written before and after the hyphen that opens the text, and both addresses are on
   * the street read from the phrase.
   */
  lemma {:induction false} AddressRangeOutcome(text: string, n1: string, n2: string, street: string)
    requires MatchGroup(AddressRangePattern(), text, 1) == Some(n1)
    requires MatchGroup(AddressRangePattern(), text, 2) == Some(n2)
    requires MatchGroup(AddressRangePattern(), text, 3) == Some(street)
    ensures AllDigits(n1) && AllDigits(n2) && |n1| + 1 + |n2| <= |text| && text[..|n1|] == n1 && text[|n1|] == '-' && text[|n1| + 1..|n1| + 1 + |n2|] == n2
    ensures ExtractAddressRangeStreetAddresses(text) == Returned((
      L.StreetAddress(DigitsValue(n1), StreetOfParts(Split(StripRight(street), ' '))),
      L.StreetAddress(DigitsValue(n2), StreetOfParts(Split(StripRight(street), ' ')))))
    ensures ExtractStreetAddress(n1 + " " + street) == Returned(L.StreetAddress(DigitsValue(n1), StreetOfParts(Split(StripRight(street), ' '))))
    ensures ExtractStreetAddress(n2 + " " + street) == Returned(L.StreetAddress(DigitsValue(n2), StreetOfParts(Split(StripRight(street), ' '))))
  {
    RangeGroups(text);
    ExtractNumbered(n1, street);
    ExtractNumbered(n2, street);
    RangeLayout(text, n1, n2);
  }

  /** A range match opens with its first number, the hyphen and its second number. */
  lemma {:induction false} RangeLayout(text: string, n1: string, n2: string)
    requires MatchGroup(AddressRangePattern(), text, 1) == Some(n1)
    requires MatchGroup(AddressRangePattern(), text, 2) == Some(n2)
    ensures |n1| + 1 + |n2| <= |text| && text[..|n1|] == n1 && text[|n1|] == '-' && text[|n1| + 1..|n1| + 1 + |n2|] == n2
  {
    var p := AddressRangePattern();
    RangeMarkers();
    assert p[0] == Open(1) && p[2] == Close(1) && p[3] == Text("-") && p[4] == Open(2) && p[6] == Close(2);
    MatchCovers(p, text);
    HyphenLayout(p, text, Match(p, text).value, n1, n2);
  }

  /** The layout of two groups around a hyphen at the start of a pattern, read off its first parse. */
  lemma {:induction false} HyphenLayout(p: seq<Seg>, s: string, q: seq<nat>, n1: string, n2: string)
    requires Match(p, s) == Some(q) && |q| == |p| + 1 && 6 < |p|
    requires MatchGroup(p, s, 1) == Some(n1) && MatchGroup(p, s, 2) == Some(n2)
    requires p[0] == Open(1) && p[2] == Close(1) && p[3] == Text("-") && p[4] == Open(2) && p[6] == Close(2)
    requires Find(p, Open(1)) == 0 && Find(p, Close(1)) == 2 && Find(p, Open(2)) == 4 && Find(p, Close(2)) == 6
    ensures |n1| + 1 + |n2| <= |s| && s[..|n1|] == n1 && s[|n1|] == '-' && s[|n1| + 1..|n1| + 1 + |n2|] == n2
  {
    FirstParseSound(p, s, 0);
    HyphenAt(p, s, q);
    ParseMonotone(p, s, 0, q, 5, 6);
    GroupOf(p, s, q, 1, 0, 2);
    GroupOf(p, s, q, 2, 4, 6);
  }

  lemma {:induction false} HyphenAt(p: seq<Seg>, s: string, q: seq<nat>)
    requires IsParse(p, s, 0, q) && 6 < |p|
    requires p[0] == Open(1) && p[2] == Close(1) && p[3] == Text("-") && p[4] == Open(2)
    ensures q[0] == q[1] == 0 && q[3] == q[2] < |s| && s[q[2]] == '-' && q[5] == q[4] == q[2] + 1
  {
    ParseSegment(p, s, 0, q, 0);
    ParseSegment(p, s, 0, q, 2);
    ParseSegment(p, s, 0, q, 3);
    ParseSegment(p, s, 0, q, 4);
    assert s[q[3]..q[4]] == "-";
    assert s[q[3]] == s[q[3]..q[4]][0];
  }

  // ---------------------------------------------------------------------------------
  // the intersection extractors

  /** `Street(direction="", name=name, street_type="")`. */
  function Nameless(name: string): (r: L.Street)
    ensures r.name == name && r.direction == [] && r.streetType == []
  {
    L.Street("", name, "")
  }

  /**
   * `extract_segment_intersections(text)`: the primary street (group 1) meets the FROM
   * cross street (group 2) and the TO cross street (group 3).  None stands for the
   * `(None, None)` returned without a match.
   */
  function ExtractSegmentIntersections(locationText: string): (r: Option<(L.Intersection, L.Intersection)>)
  {
    var p := SegmentIntersectionsPattern();
    match (MatchGroup(p, locationText, 1), MatchGroup(p, locationText, 2), MatchGroup(p, locationText, 3))
    case (Some(primary), Some(cross1), Some(cross2)) =>
      Some((L.Intersection(Nameless(primary), Nameless(cross1)), L.Intersection(Nameless(primary), Nameless(cross2))))
    case _ => None
  }

  /** In a segment-intersections match the three names are present and hold no newline. */
  lemma {:induction false} SegmentIntersectionsGroups(text: string)
    requires Matches(SegmentIntersectionsPattern(), text)
    ensures var p := SegmentIntersectionsPattern();
      MatchGroup(p, text, 1).Some? && MatchGroup(p, text, 2).Some? && MatchGroup(p, text, 3).Some? &&
      '\n' !in MatchGroup(p, text, 1).value && '\n' !in MatchGroup(p, text, 2).value && '\n' !in MatchGroup(p, text, 3).value
  {
    var p := SegmentIntersectionsPattern();
    SegmentIntersectionsMarkers();
    assert p[4] == Open(1) && p[5] == Rep(NotNewline, 0, true) && p[6] == Close(1);
    assert p[15] == Open(2) && p[16] == Rep(NotNewline, 0, true) && p[17] == Close(2);
    assert p[32] == Open(3) && p[33] == Rep(NotNewline, 0, true) && p[34] == Close(3);
    ClassGroup(p, text, 1, 4);
    ClassGroup(p, text, 2, 15);
    ClassGroup(p, text, 3, 32);
    NoNewline(MatchGroup(p, text, 1).value);
    NoNewline(MatchGroup(p, text, 2).value);
    NoNewline(MatchGroup(p, text, 3).value);
  }

  /** A text whose characters are all not newlines holds no newline. */
  lemma {:induction false} NoNewline(t: string)
    requires forall c | 0 <= c < |t| :: InClass(NotNewline, t[c])
    ensures '\n' !in t
  {
  }

  /**
   * The primary street is the first street of both intersections, the FROM street the
   * second of the first and the TO street the second of the second; every street carries
   * only its name.  Without a match the result is (None, None).
   */
  lemma {:induction false} SegmentIntersectionsOutcome(text: string)
    ensures var r := ExtractSegmentIntersections(text); var p := SegmentIntersectionsPattern();
      && (r.Some? <==> Matches(p, text))
      && (r.Some? ==>
        && r.value.0.street1 == r.value.1.street1 == Nameless(MatchGroup(p, text, 1).value)
        && r.value.0.street2 == Nameless(MatchGroup(p, text, 2).value)
        && r.value.1.street2 == Nameless(MatchGroup(p, text, 3).value))
  {
    if Matches(SegmentIntersectionsPattern(), text) {
      SegmentIntersectionsGroups(text);
    }
  }

  /** `extract_intersection_street_names(text)`: the two names of the intersection pattern; AttributeError without a match. */
  function ExtractIntersectionStreetNames(locationText: string): (r: Outcome<L.Intersection>)
  {
    var p := IntersectionPattern();
    match (MatchGroup(p, locationText, 1), MatchGroup(p, locationText, 2))
    case (Some(name1), Some(name2)) => Returned(L.Intersection(Nameless(name1), Nameless(name2)))
    case _ => Raised
  }

  /** The intersection is read iff the text matches, and it joins the two captured names in order. */
  lemma {:induction false} IntersectionOutcome(text: string)
    ensures var r := ExtractIntersectionStreetNames(text); var p := IntersectionPattern();
      && (r.Returned? <==> Matches(p, text))
      && (r.Returned? ==> r.value == L.Intersection(Nameless(MatchGroup(p, text, 1).value), Nameless(MatchGroup(p, text, 2).value)))
  {
    var p := IntersectionPattern();
    if Matches(p, text) {
      IntersectionMarkers();
      assert p[2] == Open(1) && p[3] == Rep(NotNewline, 0, true) && p[4] == Close(1);
      assert p[13] == Open(2) && p[14] == Rep(NotNewline, 0, true) && p[15] == Close(2);
      ClassGroup(p, text, 1, 2);
      ClassGroup(p, text, 2, 13);
    }
  }

  /**
   * Reading back the rendering of an intersection of two valid streets gives their two
   * names, the second street's name being free of ampersands.
   */
  lemma {:induction false} IntersectionRoundTrip(d1: char, n1: string, j1: nat, d2: char, n2: string, j2: nat)
    requires ValidStreet(d1, n1, j1) && ValidStreet(d2, n2, j2) && '&' !in n2
    ensures IntersectionText(d1, n1, j1, d2, n2, j2) ==
      L.IntersectionStr(L.Intersection(L.Street([d1], n1, Suffixes[j1]), L.Street([d2], n2, Suffixes[j2])))
    ensures ExtractIntersectionStreetNames(IntersectionText(d1, n1, j1, d2, n2, j2)) ==
      Returned(L.Intersection(Nameless(n1), Nameless(n2)))
  {
    IntersectionGroups(d1, n1, j1, d2, n2, j2);
  }

  /**
   * `extract_segment_address_intersection_info(text)`: the address is read from the FROM
   * number (group 3) and the primary phrase (group 1); the intersection joins the primary
   * name (group 2) and the cross name (group 4).  AttributeError without a match.
   */
  function ExtractSegmentAddressIntersectionInfo(locationText: string): (r: Outcome<(L.StreetAddress, L.Intersection)>)
  {
    var p := SegmentAddressIntersectionPattern();
    match (MatchGroup(p, locationText, 1), MatchGroup(p, locationText, 2), MatchGroup(p, locationText, 3), MatchGroup(p, locationText, 4))
    case (Some(primary), Some(primaryName), Some(number), Some(crossName)) =>
      (match ExtractStreetAddress(number + " " + primary)
       case Returned(address) => Returned((address, L.Intersection(Nameless(primaryName), Nameless(crossName))))
       case Raised => Raised)
    case _ => Raised
  }

  /** The groups of a segment address-intersection match. */
  lemma {:induction false} SegmentAddressIntersectionGroups(text: string)
    requires Matches(SegmentAddressIntersectionPattern(), text)
    ensures var p := SegmentAddressIntersectionPattern();
      MatchGroup(p, text, 1).Some? && MatchGroup(p, text, 2).Some? && MatchGroup(p, text, 3).Some? && MatchGroup(p, text, 4).Some? &&
      MatchGroup(p, text, 1).value != [] && IsDirection(MatchGroup(p, text, 1).value[0]) &&
      MatchGroup(p, text, 3).value != [] && AllDigits(MatchGroup(p, text, 3).value)
  {
    var p := SegmentAddressIntersectionPattern();
    SegmentAddressIntersectionMarkers();
    SegmentAddressIntersectionLayout();
    DirectionGroup(p, text, 1, 2, 11);
    ClassGroup(p, text, 2, 5);
    DigitsGroup(p, text, 3, 15);
    ClassGroup(p, text, 4, 25);
  }

  /**
   * On a match with primary phrase, primary name, FROM number and cross name, the address
   * is the FROM number on the street read from the primary phrase and the intersection
   * joins the two names.
   */
  lemma {:induction false} SegmentAddressIntersectionOutcome(text: string, primary: string, primaryName: string, number: string, crossName: string)
    requires MatchGroup(SegmentAddressIntersectionPattern(), text, 1) == Some(primary)
    requires MatchGroup(SegmentAddressIntersectionPattern(), text, 2) == Some(primaryName)
    requires MatchGroup(SegmentAddressIntersectionPattern(), text, 3) == Some(number)
    requires MatchGroup(SegmentAddressIntersectionPattern(), text, 4) == Some(crossName)
    ensures AllDigits(number)
    ensures ExtractSegmentAddressIntersectionInfo(text) == Returned((
      L.StreetAddress(DigitsValue(number), StreetOfParts(Split(StripRight(primary), ' '))),
      L.Intersection(Nameless(primaryName), Nameless(crossName))))
    ensures ExtractStreetAddress(number + " " + primary) ==
      Returned(L.StreetAddress(DigitsValue(number), StreetOfParts(Split(StripRight(primary), ' '))))
  {
    SegmentAddressIntersectionGroups(text);
    ExtractNumbered(number, primary);
  }

  /** The call raises iff the text does not match. */
  lemma {:induction false} SegmentAddressIntersectionRaises(text: string)
    ensures ExtractSegmentAddressIntersectionInfo(text).Raised? <==> !Matches(SegmentAddressIntersectionPattern(), text)
  {
    var p := SegmentAddressIntersectionPattern();
    if Matches(p, text) {
      SegmentAddressIntersectionGroups(text);
      SegmentAddressIntersectionOutcome(text, MatchGroup(p, text, 1).value, MatchGroup(p, text, 2).value,
        MatchGroup(p, text, 3).value, MatchGroup(p, text, 4).value);
    }
  }

  /**
   * `extract_segment_intersection_address_info(text)`: the intersection joins the primary
   * name (group 2) and the cross name (group 3); the address is read from the TO number
   * (group 4) and the primary phrase (group 1).  AttributeError without a match.
   */
  function ExtractSegmentIntersectionAddressInfo(locationText: string): (r: Outcome<(L.Intersection, L.StreetAddress)>)
  {
    var p := SegmentIntersectionAddressPattern();
    match (MatchGroup(p, locationText, 1), MatchGroup(p, locationText, 2), MatchGroup(p, locationText, 3), MatchGroup(p, locationText, 4))
    case (Some(primary), Some(primaryName), Some(crossName), Some(number)) =>
      (match ExtractStreetAddress(number + " " + primary)
       case Returned(address) => Returned((L.Intersection(Nameless(primaryName), Nameless(crossName)), address))
       case Raised => Raised)
    case _ => Raised
  }

  /** The groups of a segment intersection-address match. */
  lemma {:induction false} SegmentIntersectionAddressGroups(text: string)
    requires Matches(SegmentIntersectionAddressPattern(), text)
    ensures var p := SegmentIntersectionAddressPattern();
      MatchGroup(p, text, 1).Some? && MatchGroup(p, text, 2).Some? && MatchGroup(p, text, 3).Some? && MatchGroup(p, text, 4).Some? &&
      MatchGroup(p, text, 1).value != [] && IsDirection(MatchGroup(p, text, 1).value[0]) &&
      MatchGroup(p, text, 4).value != [] && AllDigits(MatchGroup(p, text, 4).value)
  {
    var p := SegmentIntersectionAddressPattern();
    SegmentIntersectionAddressMarkers();
    SegmentIntersectionAddressLayout();
    DirectionGroup(p, text, 1, 2, 11);
    ClassGroup(p, text, 2, 5);
    ClassGroup(p, text, 3, 17);
    DigitsGroup(p, text, 4, 32);
  }

  /**
   * On a match with primary phrase, primary name, cross name and TO number, the
   * intersection joins the two names and the address is the TO number on the street read
   * from the primary phrase.
   */
  lemma {:induction false} SegmentIntersectionAddressOutcome(text: string, primary: string, primaryName: string, crossName: string, number: string)
    requires MatchGroup(SegmentIntersectionAddressPattern(), text, 1) == Some(primary)
    requires MatchGroup(SegmentIntersectionAddressPattern(), text, 2) == Some(primaryName)
    requires MatchGroup(SegmentIntersectionAddressPattern(), text, 3) == Some(crossName)
    requires MatchGroup(SegmentIntersectionAddressPattern(), text, 4) == Some(number)
    ensures AllDigits(number)
    ensures ExtractSegmentIntersectionAddressInfo(text) == Returned((
      L.Intersection(Nameless(primaryName), Nameless(crossName)),
      L.StreetAddress(DigitsValue(number), StreetOfParts(Split(StripRight(primary), ' ')))))
    ensures ExtractStreetAddress(number + " " + primary) ==
      Returned(L.StreetAddress(DigitsValue(number), StreetOfParts(Split(StripRight(primary), ' '))))
  {
    SegmentIntersectionAddressGroups(text);
    ExtractNumbered(number, primary);
  }

  /** The call raises iff the text does not match. */
  lemma {:induction false} SegmentIntersectionAddressRaises(text: string)
    ensures ExtractSegmentIntersectionAddressInfo(text).Raised? <==> !Matches(SegmentIntersectionAddressPattern(), text)
  {
    var p := SegmentIntersectionAddressPattern();
    if Matches(p, text) {
      SegmentIntersectionAddressGroups(text);
      SegmentIntersectionAddressOutcome(text, MatchGroup(p, text, 1).value, MatchGroup(p, text, 2).value,
        MatchGroup(p, text, 3).value, MatchGroup(p, text, 4).value);
    }
  }

  // ---------------------------------------------------------------------------------
  // extract_alley_intersections

  /**
   * The intersections `extract_alley_intersections` appends, in order: streets 1 and 2
   * twice, then 1-3, 1-4, 2-3, 2-4 and 3-4.
   */
  function AlleyPairs(s1: L.Street, s2: L.Street, s3: L.Street, s4: L.Street): seq<L.Intersection> {
    [L.Intersection(s1, s2), L.Intersection(s1, s2), L.Intersection(s1, s3), L.Intersection(s1, s4),
     L.Intersection(s2, s3), L.Intersection(s2, s4), L.Intersection(s3, s4)]
  }

  /** Seven intersections, the first two alike, taking the streets of every pair i < j in that orientation. */
  lemma {:induction false} AlleyPairsCover(s1: L.Street, s2: L.Street, s3: L.Street, s4: L.Street)
    ensures var r, st := AlleyPairs(s1, s2, s3, s4), [s1, s2, s3, s4];
      && |r| == 7 && r[0] == r[1]
      && (forall i, j | 0 <= i < j < 4 :: L.Intersection(st[i], st[j]) in r)
  {
    var r, st := AlleyPairs(s1, s2, s3, s4), [s1, s2, s3, s4];
    forall i, j | 0 <= i < j < 4 ensures L.Intersection(st[i], st[j]) in r {
      if i == 0 { assert r[j] == L.Intersection(st[i], st[j]); }
      else { assert r[i + j + 1] == L.Intersection(st[i], st[j]); }
    }
  }

  /** Every intersection of AlleyPairs is a pair i < j of the four streets, in that orientation. */
  lemma {:induction false} AlleyPairsOnly(s1: L.Street, s2: L.Street, s3: L.Street, s4: L.Street, k: nat)
    requires k < 7
    ensures var r, st := AlleyPairs(s1, s2, s3, s4), [s1, s2, s3, s4];
      exists i, j | 0 <= i < j < 4 :: r[k] == L.Intersection(st[i], st[j])
  {
    var r, st := AlleyPairs(s1, s2, s3, s4), [s1, s2, s3, s4];
    var i := if k <= 3 then 0 else if k <= 5 then 1 else 2;
    var j := if k <= 1 then 1 else if k <= 3 then k else if k <= 5 then k - 2 else 3;
    assert r[k] == L.Intersection(st[i], st[j]);
  }

  /** The list `extract_alley_intersections` builds by appending the pairs of four streets one by one. */
  method AlleyIntersectionsList(street1: L.Street, street2: L.Street, street3: L.Street, street4: L.Street)
    returns (intersections: seq<L.Intersection>)
    ensures intersections == AlleyPairs(street1, street2, street3, street4)
  {
    intersections := [];
    intersections := intersections + [L.Intersection(street1, street2)];
    intersections := intersections + [L.Intersection(street1, street2)];
    intersections := intersections + [L.Intersection(street1, street3)];
    intersections := intersections + [L.Intersection(street1, street4)];
    intersections := intersections + [L.Intersection(street2, street3)];
    intersections := intersections + [L.Intersection(street2, street4)];
    intersections := intersections + [L.Intersection(street3, street4)];
  }

  /**
   * `extract_alley_intersections(text)`: the four names of the lazy alley pattern, each
   * as a street with only a name, paired by AlleyPairs.  AttributeError without a match.
   */
  function ExtractAlleyIntersections(locationText: string): (r: Outcome<seq<L.Intersection>>)
  {
    var p := LazyAlleyPattern();
    match (MatchGroup(p, locationText, 1), MatchGroup(p, locationText, 2), MatchGroup(p, locationText, 3), MatchGroup(p, locationText, 4))
    case (Some(n1), Some(n2), Some(n3), Some(n4)) => Returned(AlleyPairs(Nameless(n1), Nameless(n2), Nameless(n3), Nameless(n4)))
    case _ => Raised
  }

  /**
   * The call returns iff the text matches the lazy alley pattern, and then the
   * intersections pair the four captured names, each free of newlines.
   */
  lemma {:induction false} AlleyOutcome(text: string)
    ensures var r := ExtractAlleyIntersections(text); var p := LazyAlleyPattern();
      && (r.Returned? <==> Matches(p, text))
      && (r.Returned? ==>
        && (forall g | 1 <= g <= 4 :: MatchGroup(p, text, g).Some? && '\n' !in MatchGroup(p, text, g).value)
        && r.value == AlleyPairs(Nameless(MatchGroup(p, text, 1).value), Nameless(MatchGroup(p, text, 2).value),
                                 Nameless(MatchGroup(p, text, 3).value), Nameless(MatchGroup(p, text, 4).value)))
  {
    var p := LazyAlleyPattern();
    if Matches(p, text) {
      forall g | 1 <= g <= 4 ensures MatchGroup(p, text, g).Some? && '\n' !in MatchGroup(p, text, g).value {
        AlleyGroup(text, g);
      }
    }
  }

  /** Group g of a lazy alley match is a name without a newline. */
  lemma {:induction false} AlleyGroup(text: string, g: nat)
    requires Matches(LazyAlleyPattern(), text) && 1 <= g <= 4
    ensures MatchGroup(LazyAlleyPattern(), text, g).Some? && '\n' !in MatchGroup(LazyAlleyPattern(), text, g).value
  {
    var p := LazyAlleyPattern();
    var o := 10 * (g - 1) + 2;
    LazyAlleyMarkers(g);
    LazyAlleyGroupSegs(g);
    ClassGroup(p, text, g, o);
    NoNewline(MatchGroup(p, text, g).value);
  }

  lemma {:induction false} LazyAlleyGroupSegs(g: nat)
    requires 1 <= g <= 4
    ensures var p, o := LazyAlleyPattern(), 10 * (g - 1) + 2;
      o + 2 < |p| && p[o] == Open(g) && p[o + 1] == Rep(NotNewline, 0, false) && p[o + 2] == Close(g)
  {
    if g == 1 {
    } else if g == 2 {
    } else if g == 3 {
    } else {
    }
  }

  // ---------------------------------------------------------------------------------
  // extract_segment_intersections_address_range

  /**
   * `extract_segment_intersections_address_range(text)`: over two-word streets only, the
   * FROM number (group 2) and the TO number (group 3) on the primary street (group 1).
   * Returned(None) stands for the `(None, None)` returned without a match.
   */
  function ExtractSegmentIntersectionsAddressRange(locationText: string): (r: Outcome<Option<(L.StreetAddress, L.StreetAddress)>>)
  {
    var p := WordSegmentPattern();
    match (MatchGroup(p, locationText, 1), MatchGroup(p, locationText, 2), MatchGroup(p, locationText, 3))
    case (Some(street), Some(startNumber), Some(endNumber)) =>
      (match (ExtractStreetAddress(startNumber + " " + street), ExtractStreetAddress(endNumber + " " + street))
       case (Returned(startAddress), Returned(endAddress)) => Returned(Some((startAddress, endAddress)))
       case _ => Raised)
    case _ => Returned(None)
  }

  /** The groups of a two-word segment match. */
  lemma {:induction false} WordSegmentGroups(text: string)
    requires Matches(WordSegmentPattern(), text)
    ensures var p := WordSegmentPattern();
      MatchGroup(p, text, 1).Some? && MatchGroup(p, text, 2).Some? && MatchGroup(p, text, 3).Some? &&
      MatchGroup(p, text, 1).value != [] && IsDirection(MatchGroup(p, text, 1).value[0]) &&
      MatchGroup(p, text, 2).value != [] && AllDigits(MatchGroup(p, text, 2).value) &&
      MatchGroup(p, text, 3).value != [] && AllDigits(MatchGroup(p, text, 3).value)
  {
    var p := WordSegmentPattern();
    WordSegmentMarkers();
    WordSegmentLayout();
    DirectionGroup(p, text, 1, 2, 8);
    DigitsGroup(p, text, 2, 19);
    DigitsGroup(p, text, 3, 35);
  }

  /** On a match with street, FROM and TO numbers, both addresses are on the street read from group 1. */
  lemma {:induction false} SegmentAddressRangeOutcome(text: string, street: string, startNumber: string, endNumber: string)
    requires MatchGroup(WordSegmentPattern(), text, 1) == Some(street)
    requires MatchGroup(WordSegmentPattern(), text, 2) == Some(startNumber)
    requires MatchGroup(WordSegmentPattern(), text, 3) == Some(endNumber)
    ensures AllDigits(startNumber) && AllDigits(endNumber)
    ensures ExtractSegmentIntersectionsAddressRange(text) == Returned(Some((
      L.StreetAddress(DigitsValue(startNumber), StreetOfParts(Split(StripRight(street), ' '))),
      L.StreetAddress(DigitsValue(endNumber), StreetOfParts(Split(StripRight(street), ' '))))))
  {
    WordSegmentGroups(text);
    ExtractNumbered(startNumber, street);
    ExtractNumbered(endNumber, street);
  }

  /** The call never raises, and it gives (None, None) iff the text does not match. */
  lemma {:induction false} SegmentAddressRangeNone(text: string)
    ensures ExtractSegmentIntersectionsAddressRange(text).Returned?
    ensures ExtractSegmentIntersectionsAddressRange(text).value.None? <==> !Matches(WordSegmentPattern(), text)
  {
    var p := WordSegmentPattern();
    if Matches(p, text) {
      WordSegmentGroups(text);
      SegmentAddressRangeOutcome(text, MatchGroup(p, text, 1).value, MatchGroup(p, text, 2).value, MatchGroup(p, text, 3).value);
    }
  }

  // ---------------------------------------------------------------------------------
  // the processor: classification of the pieces and the text data of each

  /** One element of `self.format`: `{'address': address, 'format': format}`. */
  datatype Entry = Entry(address: string, format: LocationFormat)

  /** The entry a piece contributes: its stripped text with its format, or nothing when no pattern matches. */
  function EntryOf(piece: string): (r: seq<Entry>)
    ensures |r| <= 1
    ensures r != [] <==> GetLocationFormat(Strip(piece)).Some?
    ensures r != [] ==> r[0].address == Strip(piece) && GetLocationFormat(Strip(piece)) == Some(r[0].format)
  {
    match GetLocationFormat(Strip(piece))
    case Some(f) => [Entry(Strip(piece), f)]
    case None => []
  }

  /** The entries of the pieces, in order, the unmatched pieces dropped. */
  function Classified(locations: seq<string>): seq<Entry> {
    Collect(EntryOf, locations)
  }

  /** There is at most one entry per piece, and exactly one per piece iff every piece matches a pattern. */
  lemma {:induction false} ClassifiedCount(locations: seq<string>)
    ensures |Classified(locations)| <= |locations|
    ensures |Classified(locations)| == |locations| <==> forall k | 0 <= k < |locations| :: GetLocationFormat(Strip(locations[k])).Some?
  {
    CollectAtMostOne(EntryOf, locations);
    forall k | 0 <= k < |locations| ensures |EntryOf(locations[k])| == 1 <==> GetLocationFormat(Strip(locations[k])).Some? {
    }
  }

  /** The entry of a piece holds its stripped text, which stripping leaves unchanged. */
  lemma {:induction false} EntryStripped(piece: string, e: Entry)
    requires EntryOf(piece) == [e]
    ensures e.address == Strip(piece) && Strip(e.address) == e.address
  {
    StripIdempotent(piece);
  }

  /** The entry of a piece holds the format `get_location_format` gives its text, never UNIDENTIFIED. */
  lemma {:induction false} EntryFormat(piece: string, e: Entry)
    requires EntryOf(piece) == [e]
    ensures GetLocationFormat(e.address) == Some(e.format) && e.format != Unidentified
  {
    assert e.address == Strip(piece);
  }

  /**
   * Every entry holds the stripped text of one of the pieces together with the format
   * `get_location_format` gives that text, never UNIDENTIFIED.
   */
  lemma {:induction false} ClassifiedSound(locations: seq<string>, k: nat)
    requires k < |Classified(locations)|
    ensures var e := Classified(locations)[k];
      && (exists i | 0 <= i < |locations| :: e.address == Strip(locations[i]))
      && Strip(e.address) == e.address && GetLocationFormat(e.address) == Some(e.format) && e.format != Unidentified
  {
    var c := Classified(locations);
    CollectAtMostOne(EntryOf, locations);
    var i :| 0 <= i < |locations| && EntryOf(locations[i]) == [c[k]];
    EntryStripped(locations[i], c[k]);
    EntryFormat(locations[i], c[k]);
  }

  /** Classification works piece by piece: the entries of a concatenation are the concatenated entries. */
  lemma {:induction false} ClassifiedAppend(a: seq<string>, b: seq<string>)
    ensures Classified(a + b) == Classified(a) + Classified(b)
  {
    CollectAppend(EntryOf, a, b);
  }

  /** The entry of a piece no pattern matches: none. */
  lemma {:induction false} NoEntry(piece: string)
    requires GetLocationFormat(Strip(piece)) == None
    ensures EntryOf(piece) == []
  {
  }

  /** A piece whose stripped text has a format gives the one entry of that format. */
  lemma {:induction false} EntryOfFormat(piece: string, f: LocationFormat)
    requires GetLocationFormat(Strip(piece)) == Some(f)
    ensures EntryOf(piece) != [] && EntryOf(piece)[0] == Entry(Strip(piece), f)
  {
  }

  /** What `run` records as `location_text_data` for one entry. */
  datatype LocationTextData =
    | AddressData(address: L.StreetAddress)
    | AddressRangeData(addresses: (L.StreetAddress, L.StreetAddress))
    | AlleyData(intersections: seq<L.Intersection>)
    | IntersectionData(intersection: L.Intersection)
    | SegmentData(segment: Option<(L.Intersection, L.Intersection)>)
    | AddressIntersectionData(addressIntersection: (L.StreetAddress, L.Intersection))
    | IntersectionAddressData(intersectionAddress: (L.Intersection, L.StreetAddress))
    | NoData

  /** One element of the list `run` returns: `{'format': format, 'location_text_data': data}`. */
  datatype Output = Output(format: LocationFormat, data: LocationTextData)

  /** The `match` of `run` on one entry: the extractor of its format applied to its text. */
  function OutputOf(e: Entry): (r: Outcome<Output>)
    ensures r.Returned? ==> r.value.format == e.format
  {
    match e.format
    case StreetAddress =>
      (match ExtractStreetAddress(e.address) case Raised => Raised case Returned(a) => Returned(Output(e.format, AddressData(a))))
    case StreetAddressRange =>
      (match ExtractAddressRangeStreetAddresses(e.address)
       case Raised => Raised case Returned(a) => Returned(Output(e.format, AddressRangeData(a))))
    case Alley =>
      (match ExtractAlleyIntersections(e.address) case Raised => Raised case Returned(a) => Returned(Output(e.format, AlleyData(a))))
    case Intersection =>
      (match ExtractIntersectionStreetNames(e.address)
       case Raised => Raised case Returned(a) => Returned(Output(e.format, IntersectionData(a))))
    case StreetSegmentIntersections => Returned(Output(e.format, SegmentData(ExtractSegmentIntersections(e.address))))
    case StreetSegmentAddressIntersection =>
      (match ExtractSegmentAddressIntersectionInfo(e.address)
       case Raised => Raised case Returned(a) => Returned(Output(e.format, AddressIntersectionData(a))))
    case StreetSegmentIntersectionAddress =>
      (match ExtractSegmentIntersectionAddressInfo(e.address)
       case Raised => Raised case Returned(a) => Returned(Output(e.format, IntersectionAddressData(a))))
    case Unidentified => Returned(Output(e.format, NoData))
  }

  /** `run()` on a list of entries: one output per entry in order, or the exception of the first extractor that raises. */
  function RunSpec(entries: seq<Entry>): Outcome<seq<Output>> {
    CollectAll(OutputOf, entries)
  }

  /**
   * The extractor of a classified entry's format raises only for STREET_ADDRESS: the
   * text matched that format's pattern, and every other extractor reads the groups of a
   * match.  A street address can still raise, as the pattern allows any whitespace after
   * the number while the text is split at single spaces.
   */
  lemma {:induction false} ClassifiedOutput(e: Entry)
    requires Strip(e.address) == e.address && GetLocationFormat(e.address) == Some(e.format)
    ensures OutputOf(e).Returned? <==> (e.format == StreetAddress ==> ExtractStreetAddress(e.address).Returned?)
  {
    var t := e.address;
    var table := LocationPatternTable();
    var k :| 0 <= k < |table| && table[k].0 == e.format && Matches(table[k].1, t);
    match e.format
    case StreetAddress =>
    case StreetAddressRange => assert k == 1; AddressRangeRaises(t);
    case Alley => assert k == 2; AlleyOutcome(t);
    case StreetSegmentIntersections =>
    case StreetSegmentAddressIntersection => assert k == 4; SegmentAddressIntersectionRaises(t);
    case StreetSegmentIntersectionAddress => assert k == 5; SegmentIntersectionAddressRaises(t);
    case Intersection => assert k == 6; IntersectionOutcome(t);
  }

  /**
   * `run()` on the entries of a processor returns iff every STREET_ADDRESS entry is read
   * by `extract_street_address`, and then it yields one output per entry, in order, with
   * the entry's format.
   */
  lemma {:induction false} RunOnClassified(locations: seq<string>)
    ensures var entries := Classified(locations);
      && (RunSpec(entries).Returned? <==>
           forall k | 0 <= k < |entries| :: entries[k].format == StreetAddress ==> ExtractStreetAddress(entries[k].address).Returned?)
      && (RunSpec(entries).Returned? ==>
           |RunSpec(entries).value| == |entries| &&
           forall k | 0 <= k < |entries| :: RunSpec(entries).value[k].format == entries[k].format)
  {
    var entries := Classified(locations);
    CollectAllReturned(OutputOf, entries);
    forall k | 0 <= k < |entries|
      ensures OutputOf(entries[k]).Returned? <==> (entries[k].format == StreetAddress ==> ExtractStreetAddress(entries[k].address).Returned?)
    {
      ClassifiedSound(locations, k);
      ClassifiedOutput(entries[k]);
    }
  }

  // ---------------------------------------------------------------------------------
  // _get_location_text_format

  /** The one-character strings a loop over a Python string visits. */
  function Characters(location: string): (r: seq<string>)
    ensures |r| == |location| && forall k | 0 <= k < |r| :: |r[k]| == 1
  {
    seq(|location|, k requires 0 <= k < |location| => [location[k]])
  }

  /** A suffix of a pattern consumes at least as much as it. */
  lemma {:induction false} HeadMinLength(p: seq<Seg>, n: nat)
    requires n <= |p|
    ensures MinLength(p[..n]) <= MinLength(p)
  {
    assert p == p[..n] + p[n..];
    MinLengthAppend(p[..n], p[n..]);
  }

  /** Every pattern of the table needs at least two characters. */
  lemma {:induction false} PatternsNeedTwo()
    ensures forall j | 0 <= j < |LocationPatternTable()| :: MinLength(LocationPatternTable()[j].1) >= 2
  {
    var table := LocationPatternTable();
    forall j | 0 <= j < |table| ensures MinLength(table[j].1) >= 2 {
      if j == 0 { StreetAddressNeedsTwo(); }
      else if j == 1 { AddressRangeNeedsTwo(); }
      else if j == 2 { LazyAlleyNeedsTwo(); }
      else if j == 3 { SegmentIntersectionsNeedsTwo(); }
      else if j == 4 { SegmentAddressIntersectionNeedsTwo(); }
      else if j == 5 { SegmentIntersectionAddressNeedsTwo(); }
      else { IntersectionNeedsTwo(); }
    }
  }

  lemma {:induction false} StreetAddressNeedsTwo()
    ensures MinLength(StreetAddressPattern()) >= 2
  {
    var a := NumberHead();
    FirstTwoMinLength(a);
    AppendKeepsMin(a, StreetPhrase(1));
    AppendKeepsMin(a + StreetPhrase(1), [End]);
  }

  lemma {:induction false} AddressRangeNeedsTwo()
    ensures MinLength(AddressRangePattern()) >= 2
  {
    var a, b := RangeHead(), StreetPhrase(4);
    FirstTwoMinLength(b);
    AppendKeepsMin(b, RangeTail());
    MinLengthAppend(a, b + RangeTail());
    assert a + b + RangeTail() == a + (b + RangeTail());
  }

  lemma {:induction false} IntersectionNeedsTwo()
    ensures MinLength(IntersectionPattern()) >= 2
  {
    var a := StreetPhrase(1);
    FirstTwoMinLength(a);
    AppendKeepsMin(a, Amp());
    AppendKeepsMin(a + Amp(), StreetPhrase(2));
    AppendKeepsMin(a + Amp() + StreetPhrase(2), [End]);
  }

  /** Appending to a pattern never lowers what it consumes. */
  lemma {:induction false} AppendKeepsMin(a: seq<Seg>, b: seq<Seg>)
    ensures MinLength(a + b) >= MinLength(a)
  {
    MinLengthAppend(a, b);
  }

  /** A pattern needs at least what its first two segments consume. */
  lemma {:induction false} FirstTwoMinLength(p: seq<Seg>)
    requires |p| >= 2
    ensures MinLength(p) >= SegMin(p[0]) + SegMin(p[1])
  {
    assert p[1..][0] == p[1];
  }

  lemma {:induction false} LazyAlleyNeedsTwo()
    ensures MinLength(LazyAlleyPattern()) >= 2
  {
    var p := LazyAlleyPattern();
    assert p[0] == One(Direction) && p[1] == One(Space);
    FirstTwoMinLength(p);
  }

  lemma {:induction false} SegmentIntersectionsNeedsTwo()
    ensures MinLength(SegmentIntersectionsPattern()) >= 2
  {
    var p := SegmentIntersectionsPattern();
    assert p[0] == Text("ON");
    FirstTwoMinLength(p);
  }

  lemma {:induction false} SegmentAddressIntersectionNeedsTwo()
    ensures MinLength(SegmentAddressIntersectionPattern()) >= 2
  {
    var p := SegmentAddressIntersectionPattern();
    assert p[0] == Text("ON");
    FirstTwoMinLength(p);
  }

  lemma {:induction false} SegmentIntersectionAddressNeedsTwo()
    ensures MinLength(SegmentIntersectionAddressPattern()) >= 2
  {
    var p := SegmentIntersectionAddressPattern();
    assert p[0] == Text("ON");
    FirstTwoMinLength(p);
  }

  /** No text of fewer than two characters has a format. */
  lemma {:induction false} ShortTextUnidentified(t: string)
    requires |t| <= 1
    ensures GetLocationFormat(t) == None
  {
    PatternsNeedTwo();
    forall j | 0 <= j < |LocationPatternTable()| ensures !Matches(LocationPatternTable()[j].1, Strip(t)) {
      TooShort(LocationPatternTable()[j].1, Strip(t));
    }
  }

  /** Pieces of at most one character give no entry. */
  lemma {:induction false} ShortPiecesUnclassified(pieces: seq<string>)
    requires forall k | 0 <= k < |pieces| :: |pieces[k]| <= 1
    ensures Classified(pieces) == []
  {
    forall k | 0 <= k < |pieces| ensures EntryOf(pieces[k]) == [] {
      ShortTextUnidentified(Strip(pieces[k]));
      NoEntry(pieces[k]);
    }
    CollectNone(EntryOf, pieces);
  }

  /**
   * What `_get_location_text_format` classifies, as written: each piece between the
   * semicolons is passed to `get_location_format` as a string, whose loop then visits
   * its characters one by one.
   */
  function TextChunksAsWritten(text: string): seq<seq<Entry>> {
    Collect(CharactersChunk, Split(text, ';'))
  }

  /** The chunk of one piece as written: the entries of its characters. */
  function CharactersChunk(location: string): seq<seq<Entry>> {
    [Classified(Characters(location))]
  }

  /** The same with each piece passed as the one-element list the loop expects. */
  function TextChunks(text: string): seq<seq<Entry>> {
    Collect(PieceChunk, Split(text, ';'))
  }

  /** The chunk of one piece, corrected: the entries of the piece itself. */
  function PieceChunk(location: string): seq<seq<Entry>> {
    [Classified([location])]
  }

  /**
   * As written, every chunk is empty whatever the text, so the debug string is `[];`
   * once per piece.
   */
  lemma {:induction false} TextChunksAsWrittenEmpty(text: string)
    ensures |TextChunksAsWritten(text)| == |Split(text, ';')|
    ensures forall k | 0 <= k < |TextChunksAsWritten(text)| :: TextChunksAsWritten(text)[k] == []
  {
    var pieces := Split(text, ';');
    CollectSingles(CharactersChunk, pieces);
    forall k | 0 <= k < |pieces| ensures Classified(Characters(pieces[k])) == [] {
      ShortPiecesUnclassified(Characters(pieces[k]));
    }
  }

  /**
   * Corrected, each chunk holds the entry of its piece: one entry, with the stripped
   * piece and its format, exactly when some pattern matches the piece.
   */
  lemma {:induction false} TextChunksClassify(text: string)
    ensures |TextChunks(text)| == |Split(text, ';')|
    ensures forall k | 0 <= k < |TextChunks(text)| ::
      TextChunks(text)[k] == EntryOf(Split(text, ';')[k]) &&
      (TextChunks(text)[k] != [] <==> GetLocationFormat(Strip(Split(text, ';')[k])).Some?)
  {
    var pieces := Split(text, ';');
    var chunks := TextChunks(text);
    CollectSingles(PieceChunk, pieces);
    forall k | 0 <= k < |chunks|
      ensures chunks[k] == EntryOf(pieces[k]) && (chunks[k] != [] <==> GetLocationFormat(Strip(pieces[k])).Some?)
    {
      assert chunks[k] == Classified([pieces[k]]);
      ClassifiedSingle(pieces[k]);
    }
  }

  /** The entries of a one-piece list are the entry of the piece. */
  lemma {:induction false} ClassifiedSingle(piece: string)
    ensures Classified([piece]) == EntryOf(piece)
  {
    CollectSnoc(EntryOf, [], piece);
    assert [] + [piece] == [piece];
  }

  /**
   * A one-piece text the classifier recognises is lost by the text format as written
   * and kept by the corrected one.
   */
  lemma {:induction false} TextFormatLosesLocation(text: string)
    requires ';' !in text && GetLocationFormat(Strip(text)).Some?
    ensures |TextChunksAsWritten(text)| == |TextChunks(text)| == 1
    ensures TextChunksAsWritten(text)[0] == [] && TextChunks(text)[0] != []
  {
    SplitFree(text, ';');
    TextChunksAsWrittenEmpty(text);
    TextChunksClassify(text);
  }

  /** "N ASHLAND AVE & W CHESTNUT ST" is such a text: an intersection. */
  lemma {:induction false} IntersectionIsLost()
    ensures var text := IntersectionText('N', "ASHLAND", 0, 'W', "CHESTNUT", 17);
      ';' !in text && Matches(IntersectionPattern(), text) && GetLocationFormat(Strip(text)).Some?
  {
    SampleHasNoSemicolon();
    IntersectionKept('N', "ASHLAND", 0, 'W', "CHESTNUT", 17);
  }

  /** The text of two valid streets joined by " & " matches the intersection pattern and has a format. */
  lemma {:induction false} IntersectionKept(d1: char, n1: string, j1: nat, d2: char, n2: string, j2: nat)
    requires ValidStreet(d1, n1, j1) && ValidStreet(d2, n2, j2) && '&' !in n2
    ensures var text := IntersectionText(d1, n1, j1, d2, n2, j2);
      Matches(IntersectionPattern(), text) && GetLocationFormat(Strip(text)).Some?
  {
    var text := IntersectionText(d1, n1, j1, d2, n2, j2);
    IntersectionMatch(d1, n1, j1, d2, n2, j2);
    IntersectionTextFacts(d1, n1, j1, d2, n2, j2);
    var e1 := PhraseEnd(0, n1, Suffixes[j1]);
    PhraseAtEnd(text, e1 + 3, n2, Suffixes[j2]);
    StripPlain(text);
    IntersectionClassified(text);
  }

  lemma {:induction false} SampleHasNoSemicolon()
    ensures ';' !in IntersectionText('N', "ASHLAND", 0, 'W', "CHESTNUT", 17)
  {
    var t1, t2 := StreetText('N', "ASHLAND", Suffixes[0]), StreetText('W', "CHESTNUT", Suffixes[17]);
    assert t1 == "N ASHLAND AVE" && t2 == "W CHESTNUT ST";
    assert IntersectionText('N', "ASHLAND", 0, 'W', "CHESTNUT", 17) == t1 + " & " + t2;
  }

  /** A text the intersection pattern matches has a format. */
  lemma {:induction false} IntersectionClassified(t: string)
    requires Matches(IntersectionPattern(), Strip(t))
    ensures GetLocationFormat(t).Some?
  {
    assert LocationPatternTable()[6].1 == IntersectionPattern();
  }

  // ---------------------------------------------------------------------------------
  // LocationStringProcessor

  /**
   * The processor of one location string: the pieces between its semicolons and the
   * entries classified from them, computed when the processor is built.
   */
  class LocationStringProcessor {
    var locString: seq<string>
    var format: seq<Entry>

    /** `__init__`: strip the text, split it at semicolons and classify the pieces. */
    constructor (locationString: string)
      ensures locString == Split(Strip(locationString), ';')
      ensures format == Classified(locString)
    {
      locString := Split(Strip(locationString), ';');
      new;
      format := GetLocationFormat(locString);
    }

    /**
     * `get_location_format`: for each piece, stripped, the format of the first pattern
     * that matches it, the pieces no pattern matches being dropped.
     */
    method GetLocationFormat(location: seq<string>) returns (addressFormats: seq<Entry>)
      ensures addressFormats == Classified(location)
    {
      addressFormats := [];
      for i := 0 to |location|
        invariant addressFormats == Classified(location[..i])
      {
        CollectPrefix(EntryOf, location, i);
        var address := Strip(location[i]);
        var table := LocationPatternTable();
        var k := 0;
        while k < |table|
          invariant 0 <= k <= |table|
          invariant k <= FirstIndex(table, Strip(address))
          invariant addressFormats == Classified(location[..i])
        {
          if Matches(table[k].1, Strip(address)) {
            FirstIndexHit(table, Strip(address), k);
            EntryOfFormat(location[i], table[k].0);
            addressFormats := addressFormats + [Entry(address, table[k].0)];
            break;
          }
          FirstIndexSkip(table, Strip(address), k);
          k := k + 1;
        }
        if k == |table| {
          FirstIndexNone(table, Strip(address));
          NoEntry(location[i]);
        }
      }
      assert location[..|location|] == location;
    }

    /**
     * `run()`: the data its format's extractor reads from each entry, in order, or the
     * exception of the first extractor that raises.
     */
    method Run() returns (r: Outcome<seq<Output>>)
      ensures r == RunSpec(format)
    {
      var addresses: seq<Output> := [];
      for i := 0 to |format|
        invariant RunSpec(format[..i]) == Returned(addresses)
      {
        var f := format[i];
        var data: Outcome<LocationTextData>;
        match f.format {
          case StreetAddress =>
            var a := ExtractStreetAddress(f.address);
            data := if a.Raised? then Raised else Returned(AddressData(a.value));
          case StreetAddressRange =>
            var a := ExtractAddressRangeStreetAddresses(f.address);
            data := if a.Raised? then Raised else Returned(AddressRangeData(a.value));
          case Alley =>
            var a := ExtractAlleyIntersections(f.address);
            data := if a.Raised? then Raised else Returned(AlleyData(a.value));
          case Intersection =>
            var a := ExtractIntersectionStreetNames(f.address);
            data := if a.Raised? then Raised else Returned(IntersectionData(a.value));
          case StreetSegmentIntersections =>
            data := Returned(SegmentData(ExtractSegmentIntersections(f.address)));
          case StreetSegmentAddressIntersection =>
            var a := ExtractSegmentAddressIntersectionInfo(f.address);
            data := if a.Raised? then Raised else Returned(AddressIntersectionData(a.value));
          case StreetSegmentIntersectionAddress =>
            var a := ExtractSegmentIntersectionAddressInfo(f.address);
            data := if a.Raised? then Raised else Returned(IntersectionAddressData(a.value));
          case Unidentified =>
            data := Returned(NoData);
        }
        if data.Raised? {
          CollectAllRaised(OutputOf, format, i);
          return Raised;
        }
        CollectAllSnoc(OutputOf, format, i, addresses);
        addresses := addresses + [Output(f.format, data.value)];
      }
      assert format[..|format|] == format;
      return Returned(addresses);
    }

    /**
     * `_get_location_text_format(text)` as written, up to the rendering of each chunk
     * with `str`: each piece between the semicolons is handed to `get_location_format`
     * as a string, so the loop classifies its characters.
     */
    method GetLocationTextFormat(text: string) returns (chunks: seq<seq<Entry>>)
      ensures chunks == TextChunksAsWritten(text)
    {
      var locations := Split(text, ';');
      chunks := [];
      for i := 0 to |locations|
        invariant chunks == Collect(CharactersChunk, locations[..i])
      {
        CollectPrefix(CharactersChunk, locations, i);
        var chunk := GetLocationFormat(Characters(locations[i]));
        chunks := chunks + [chunk];
      }
      assert locations[..|locations|] == locations;
    }

    /** The same with each piece handed over as a one-element list. */
    method GetLocationTextFormatFixed(text: string) returns (chunks: seq<seq<Entry>>)
      ensures chunks == TextChunks(text)
    {
      var locations := Split(text, ';');
      chunks := [];
      for i := 0 to |locations|
        invariant chunks == Collect(PieceChunk, locations[..i])
      {
        CollectPrefix(PieceChunk, locations, i);
        var piece := [locations[i]];
        var chunk := GetLocationFormat(piece);
        assert PieceChunk(locations[i]) == [chunk];
        chunks := chunks + [chunk];
      }
      assert locations[..|locations|] == locations;
    }
  }
}
