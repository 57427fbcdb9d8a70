/**
 * The location classifier of the `ward_spending` package: a module-level first-match
 * search over seven patterns that answers None (there is no UNIDENTIFY member) and a
 * debugging helper that writes one format name per `;`-separated piece.  Its string
 * extractors are those of SrcLocationFormat, over the same patterns.
 */
module WardLocationFormat {
  import opened Regex
  import opened Text
  import opened LocationPatterns
  import opened Classify
  import C = LocationFormatProcessing

  datatype LocationFormat =
    | StreetAddress
    | StreetAddressRange
    | Intersection
    | StreetSegmentIntersections
    | StreetSegmentAddressIntersection
    | StreetSegmentIntersectionAddress
    | Alley

  /**
   * `location_patterns` in insertion order.  The two segment patterns with an address
   * capture the parenthesised number, not the number written after FROM or TO.
   */
  function LocationPatternTable(): seq<(LocationFormat, seq<Seg>)> {
    [(StreetAddress, StreetAddressPattern()), (StreetAddressRange, AddressRangePattern()), (Alley, AlleyPattern()),
     (Intersection, IntersectionPattern()), (StreetSegmentIntersections, SegmentIntersectionsPattern()),
     (StreetSegmentAddressIntersection, SegmentAddressIntersectionPatternB()),
     (StreetSegmentIntersectionAddress, SegmentIntersectionAddressPatternB())]
  }

  /** `get_location_format(location)`: the format of the first pattern that matches the stripped text; None when none does. */
  function GetLocationFormat(location: string): (r: Option<LocationFormat>)
    ensures r.Some? <==> exists k | 0 <= k < |LocationPatternTable()| :: Matches(LocationPatternTable()[k].1, Strip(location))
  {
    FirstMatch(LocationPatternTable(), Strip(location))
  }

  /** A text the alley pattern matches is classified as an address, an address range or an alley, never as an intersection. */
  lemma {:induction false} AlleyBeforeIntersection(location: string)
    requires Matches(AlleyPattern(), Strip(location))
    ensures var f := GetLocationFormat(location);
      f == Some(StreetAddress) || f == Some(StreetAddressRange) || f == Some(Alley)
  {
    AlleyWithinFirstThree(LocationPatternTable(), Strip(location));
  }

  lemma {:induction false} AlleyWithinFirstThree(table: seq<(LocationFormat, seq<Seg>)>, s: string)
    requires table == LocationPatternTable() && Matches(AlleyPattern(), s)
    ensures var f := FirstMatch(table, s); f == Some(StreetAddress) || f == Some(StreetAddressRange) || f == Some(Alley)
  {
    FirstIndexAtMost(table, s, 2);
  }

  /**
   * In a segment address-intersection match, group 4 is a run of digits that the text
   * writes right after a `(`: the number in parentheses after the cross street.
   */
  lemma {:induction false} AddressIntersectionNumberParenthesised(text: string)
    requires Matches(SegmentAddressIntersectionPatternB(), text)
    ensures var p := SegmentAddressIntersectionPatternB(); var q := Match(p, text).value; var n := MatchGroup(p, text, 4);
      && |q| == |p| + 1 && n.Some? && n.value != [] && C.AllDigits(n.value)
      && 1 <= q[31] && q[31] + |n.value| <= |text| && text[q[31] - 1] == '(' && text[q[31]..q[31] + |n.value|] == n.value
  {
    var p := SegmentAddressIntersectionPatternB();
    SegmentAddressIntersectionBMarkers();
    ClassGroup(p, text, 4, 31);
    GroupAfterText(p, text, 4, 31, "(");
  }

  /**
   * In a segment intersection-address match, group 4 is a run of digits that the text
   * writes right after a `(`: the number in parentheses after the FROM street.
   */
  lemma {:induction false} IntersectionAddressNumberParenthesised(text: string)
    requires Matches(SegmentIntersectionAddressPatternB(), text)
    ensures var p := SegmentIntersectionAddressPatternB(); var q := Match(p, text).value; var n := MatchGroup(p, text, 4);
      && |q| == |p| + 1 && n.Some? && n.value != [] && C.AllDigits(n.value)
      && 1 <= q[25] && q[25] + |n.value| <= |text| && text[q[25] - 1] == '(' && text[q[25]..q[25] + |n.value|] == n.value
  {
    var p := SegmentIntersectionAddressPatternB();
    SegmentIntersectionAddressBMarkers();
    ClassGroup(p, text, 4, 25);
    GroupAfterText(p, text, 4, 25, "(");
  }

  // ---------------------------------------------------------------------------------
  // get_location_text_format

  /** What `str()` writes for the result of `get_location_format`: a member of the enumeration, or None. */
  function FormatText(r: Option<LocationFormat>): (t: string)
    ensures ';' !in t
  {
    match r
    case None => "None"
    case Some(f) => "LocationFormat." + MemberName(f)
  }

  /** The name of a member of the enumeration. */
  function MemberName(f: LocationFormat): (t: string)
    ensures ';' !in t
  {
    match f
    case StreetAddress => "STREET_ADDRESS"
    case StreetAddressRange => "STREET_ADDRESS_RANGE"
    case Intersection => "INTERSECTION"
    case StreetSegmentIntersections => "STREET_SEGMENT_INTERSECTIONS"
    case StreetSegmentAddressIntersection => "STREET_SEGMENT_ADDRESS_INTERSECTION"
    case StreetSegmentIntersectionAddress => "STREET_SEGMENT_INTERSECTION_ADDRESS"
    case Alley => "ALLEY"
  }

  function TextLookup(location: string): Outcome<string> {
    Returned(FormatText(GetLocationFormat(location)))
  }

  /**
   * `get_location_text_format(text)`: cutting the result at ';' gives, piece by piece in
   * order, the format of each `;`-separated piece of the text, and an empty text after
   * the final ';'.
   */
  method GetLocationTextFormat(text: string) returns (r: string)
    ensures var pieces, cs := Split(text, ';'), Split(r, ';');
      |cs| == |pieces| + 1 && cs[|pieces|] == [] &&
      forall k | 0 <= k < |pieces| :: cs[k] == FormatText(GetLocationFormat(pieces[k]))
  {
    var o := TextFormatLoop(text, TextLookup);
    RenderAllChunks(TextLookup, Split(text, ';'));
    r := o.value;
  }
}
