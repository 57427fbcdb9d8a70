/**
 * The module-level geocoding of the `src` package: a location text is split on `;`,
 * every piece is trimmed, classified by the `src` location parser, taken apart by its
 * extractors and geocoded; the pieces' shapes are folded together with `union`.  An
 * exception inside a piece's dispatch yields None for that piece; one that escapes a
 * piece (the classification is outside the piece's try) makes the whole text None.
 *
 * The geocoder, the classifier and atan2 are parameters.  The classifier the module
 * calls, `afp.get_location_format`, is not defined at module level in the parser it
 * imports (there it is a method of `LocationStringProcessor`), so as written the lookup
 * always raises; `AsWrittenFormat` is that lookup and `FixedFormat` the intended one.
 */
module SrcAddressGeocoding {
  import opened Regex
  import opened Text
  import opened Classify
  import opened Geometry
  import A = SrcLocationFormat
  import C = LocationFormatProcessing
  import L = Locations

  /** The fuzziness every street-address lookup passes to the geocoder. */
  const AddressFuzziness := 20

  /** One geocoder call, in the order the piece makes them. */
  datatype Query =
    | AddressQuery(number: int, direction: string, name: string, streetType: string, fuzziness: int)
    | IntersectionQuery(street1: string, street2: string)
      /** `get_intersection_coordinates(None, None)`, made when the segment extractor finds no match. */
    | UnnamedIntersectionQuery

  // ---------------------------------------------------------------------------------
  // get_geometry_from_street_address

  /**
   * The geocoder call of `get_geometry_from_street_address(s)`: the stripped text split
   * at single spaces into number, direction, the words of the name and the type, with
   * fuzziness 20.  Raised when `int()` or the indexing raises.
   */
  function AddressQueryOf(streetAddress: string): (r: Outcome<Query>)
    ensures r.Returned? ==> r.value.AddressQuery? && r.value.fuzziness == AddressFuzziness
  {
    match C.ExtractStreetAddress(streetAddress)
    case Raised => Raised
    case Returned(a) => Returned(AddressQuery(a.number, a.street.direction, a.street.name, a.street.streetType, AddressFuzziness))
  }

  /** The query for a rendered address asks for exactly that address's parts. */
  lemma {:induction false} AddressQueryRoundTrip(a: L.StreetAddress)
    requires L.Tokenised(a.street) && a.street.streetType != [] && !IsSpace(a.street.streetType[|a.street.streetType| - 1])
    ensures AddressQueryOf(L.AddressStr(a))
      == Returned(AddressQuery(a.number, a.street.direction, a.street.name, a.street.streetType, AddressFuzziness))
  {
    C.ExtractRenderedAddress(a);
  }

  /** A single word is never an address: the direction's index raises. */
  lemma {:induction false} SingleWordNoQuery(streetAddress: string)
    requires ' ' !in Strip(streetAddress)
    ensures AddressQueryOf(streetAddress) == Raised
  {
    C.SingleWordRaises(streetAddress);
  }

  // ---------------------------------------------------------------------------------
  // The classifier

  /** `afp.get_location_format` as written: the parser has no such module attribute, so the lookup raises. */
  function AsWrittenFormat(location: string): Outcome<A.LocationFormat> {
    Raised
  }

  /** The intended classifier: the parser's first-match format, UNIDENTIFY when nothing matches. */
  function FixedFormat(location: string): Outcome<A.LocationFormat> {
    Returned(A.LocationFormatOf(location))
  }

  // ---------------------------------------------------------------------------------
  // get_geometry_from_location

  /**
   * The extractors the dispatch calls, one per format, Raised where the call raises
   * (AttributeError on `match.group` without a match); the segment-intersections one
   * answers None for its `(None, None, None)`.
   */
  datatype Extractors = Extractors(
    streetAddress: string -> Outcome<Query>,
    addressRange: string -> Outcome<(string, string)>,
    intersection: string -> Outcome<(string, string)>,
    segmentIntersections: string -> Option<(string, string, string)>,
    segmentAddressIntersection: string -> Outcome<(string, string, string)>,
    segmentIntersectionAddress: string -> Outcome<(string, string, string)>,
    alley: string -> Outcome<(string, string, string, string)>)

  /** The extractors of the `src` location parser. */
  const SrcExtractors := Extractors(
    AddressQueryOf, A.ExtractAddressRangeStreetAddresses, A.ExtractIntersectionStreetNames, A.ExtractSegmentIntersectionsStreetNames,
    A.ExtractSegmentAddressIntersectionInfo, A.ExtractSegmentIntersectionAddressInfo, A.ExtractAlleyStreetNames)

  /** The geocoder's answers to a list of queries, in order. */
  function Answers(geocode: Query -> Option<Point>, queries: seq<Query>): (r: seq<Option<Point>>)
    ensures |r| == |queries| && forall k | 0 <= k < |queries| :: r[k] == geocode(queries[k])
  {
    seq(|queries|, k requires 0 <= k < |queries| => geocode(queries[k]))
  }

  /** The six alley calls: every pair of the four names, in the order (1,2), (1,3), (1,4), (2,3), (2,4), (3,4). */
  function AlleyQueries(s1: string, s2: string, s3: string, s4: string): seq<Query> {
    [IntersectionQuery(s1, s2), IntersectionQuery(s1, s3), IntersectionQuery(s1, s4),
     IntersectionQuery(s2, s3), IntersectionQuery(s2, s4), IntersectionQuery(s3, s4)]
  }

  /** The two segment calls: primary with each cross street, or two unnamed calls when the extractor found nothing. */
  function SegmentQueries(names: Option<(string, string, string)>): (Query, Query) {
    match names
    case None => (UnnamedIntersectionQuery, UnnamedIntersectionQuery)
    case Some((primary, cross1, cross2)) => (IntersectionQuery(primary, cross1), IntersectionQuery(primary, cross2))
  }

  /** A segment from an intersection to an address: the intersection is geocoded before the address is parsed. */
  function AddressSegment(x: Extractors, geocode: Query -> Option<Point>, intersection: Query, address: string): Geocoded<Query> {
    match x.streetAddress(address)
    case Raised => Geocoded(None, [intersection])
    case Returned(q) => Geocoded(Caught(Segment(geocode(intersection), geocode(q))), [intersection, q])
  }

  /** The shape of a trimmed piece of a given format, and the calls made for it; an exception in the dispatch yields None. */
  function FormatGeometry(x: Extractors, geocode: Query -> Option<Point>, atan2: (real, real) -> real, loc: string, f: A.LocationFormat)
    : Geocoded<Query>
  {
    match f
    case StreetAddress =>
      (match x.streetAddress(loc)
       case Raised => Geocoded(None, [])
       case Returned(q) => Geocoded(AsShape(geocode(q)), [q]))
    case StreetAddressRange =>
      (match x.addressRange(loc)
       case Raised => Geocoded(None, [])
       case Returned((s1, s2)) =>
         match x.streetAddress(s1)
         case Raised => Geocoded(None, [])
         case Returned(q1) =>
           match x.streetAddress(s2)
           case Raised => Geocoded(None, [q1])
           case Returned(q2) => Geocoded(Caught(Segment(geocode(q1), geocode(q2))), [q1, q2]))
    case Intersection =>
      (match x.intersection(loc)
       case Raised => Geocoded(None, [])
       case Returned((n1, n2)) => Geocoded(AsShape(geocode(IntersectionQuery(n1, n2))), [IntersectionQuery(n1, n2)]))
    case StreetSegmentIntersections =>
      var (q1, q2) := SegmentQueries(x.segmentIntersections(loc));
      Geocoded(Caught(Segment(geocode(q1), geocode(q2))), [q1, q2])
    case StreetSegmentAddressIntersection =>
      (match x.segmentAddressIntersection(loc)
       case Raised => Geocoded(None, [])
       case Returned((address, primary, cross)) => AddressSegment(x, geocode, IntersectionQuery(primary, cross), address))
    case StreetSegmentIntersectionAddress =>
      (match x.segmentIntersectionAddress(loc)
       case Raised => Geocoded(None, [])
       case Returned((primary, cross, address)) => AddressSegment(x, geocode, IntersectionQuery(primary, cross), address))
    case Alley =>
      (match x.alley(loc)
       case Raised => Geocoded(None, [])
       case Returned((s1, s2, s3, s4)) =>
         var queries := AlleyQueries(s1, s2, s3, s4);
         Geocoded(ClockwisePolygon(Present(Answers(geocode, queries)), atan2), queries))
    case Unidentify => Geocoded(None, [])
  }

  /**
   * `get_geometry_from_location(location)`: the piece is trimmed and classified outside
   * the try, so a classifier that raises makes the piece raise.
   */
  function PieceGeometry(classify: string -> Outcome<A.LocationFormat>, x: Extractors, geocode: Query -> Option<Point>,
                         atan2: (real, real) -> real, location: string): Outcome<Geocoded<Query>> {
    var loc := Strip(location);
    match classify(loc)
    case Raised => Raised
    case Returned(f) => Returned(FormatGeometry(x, geocode, atan2, loc, f))
  }

  /** What a piece hands to the text's loop: its shape, or the exception that escaped it. */
  function PieceOutcome(classify: string -> Outcome<A.LocationFormat>, x: Extractors, geocode: Query -> Option<Point>,
                        atan2: (real, real) -> real, location: string): Outcome<Option<Shape>> {
    match PieceGeometry(classify, x, geocode, atan2, location)
    case Raised => Raised
    case Returned(g) => Returned(g.geometry)
  }

  /** The outcomes of the pieces, in order. */
  function PieceOutcomes(classify: string -> Outcome<A.LocationFormat>, x: Extractors, geocode: Query -> Option<Point>,
                         atan2: (real, real) -> real, pieces: seq<string>): (r: seq<Outcome<Option<Shape>>>)
    ensures |r| == |pieces| && forall k | 0 <= k < |pieces| :: r[k] == PieceOutcome(classify, x, geocode, atan2, pieces[k])
  {
    seq(|pieces|, k requires 0 <= k < |pieces| => PieceOutcome(classify, x, geocode, atan2, pieces[k]))
  }

  /** The accumulator of the text's loop: the first piece that raises ends it with the exception. */
  function FoldOutcomes(os: seq<Outcome<Option<Shape>>>): Outcome<Option<Shape>>
    decreases |os|
  {
    if os == [] then Returned(None)
    else
      match FoldOutcomes(os[..|os| - 1])
      case Raised => Raised
      case Returned(g) => if os[|os| - 1].Raised? then Raised else Returned(Accumulate(g, os[|os| - 1].value))
  }

  /** The loop raises exactly when some piece does. */
  lemma {:induction false} FoldOutcomesRaisedIff(os: seq<Outcome<Option<Shape>>>)
    ensures FoldOutcomes(os).Raised? <==> exists k | 0 <= k < |os| :: os[k].Raised?
    decreases |os|
  {
    if os != [] {
      var init := os[..|os| - 1];
      FoldOutcomesRaisedIff(init);
      if FoldOutcomes(init).Raised? {
        var k :| 0 <= k < |init| && init[k].Raised?;
        assert os[k].Raised?;
      }
      if exists k | 0 <= k < |os| :: os[k].Raised? {
        var k :| 0 <= k < |os| && os[k].Raised?;
        if k < |init| {
          assert init[k].Raised?;
        }
      }
    }
  }

  /** When no piece raises, the loop is the fold of the pieces' shapes. */
  lemma {:induction false} FoldOutcomesReturned(os: seq<Outcome<Option<Shape>>>, gs: seq<Option<Shape>>)
    requires |os| == |gs| && forall k | 0 <= k < |os| :: os[k] == Returned(gs[k])
    ensures FoldOutcomes(os) == Returned(Fold(gs))
    decreases |os|
  {
    if os != [] {
      FoldOutcomesReturned(os[..|os| - 1], gs[..|gs| - 1]);
    }
  }

  /**
   * The loop ends with no geometry and no exception exactly when no piece raises and
   * the last piece answers None.
   */
  lemma {:induction false} FoldOutcomesNoneIff(os: seq<Outcome<Option<Shape>>>)
    ensures FoldOutcomes(os) == Returned(None) <==>
      (forall k | 0 <= k < |os| :: os[k].Returned?) && (os == [] || os[|os| - 1] == Returned(None))
  {
    FoldOutcomesRaisedIff(os);
    if forall k | 0 <= k < |os| :: os[k].Returned? {
      var gs := seq(|os|, k requires 0 <= k < |os| => os[k].value);
      FoldOutcomesReturned(os, gs);
      FoldNoneIff(gs);
    }
  }

  /** `process_location_text(text)`: the try around the loop turns an escaped exception into None. */
  function TextGeometry(classify: string -> Outcome<A.LocationFormat>, x: Extractors, geocode: Query -> Option<Point>,
                        atan2: (real, real) -> real, text: string): Option<Shape> {
    match FoldOutcomes(PieceOutcomes(classify, x, geocode, atan2, Split(text, ';')))
    case Raised => None
    case Returned(g) => g
  }

  /** The accumulator loop over the pieces, inside one try. */
  method ProcessLocationText(classify: string -> Outcome<A.LocationFormat>, x: Extractors, geocode: Query -> Option<Point>,
                             atan2: (real, real) -> real, text: string) returns (geometry: Option<Shape>)
    ensures geometry == TextGeometry(classify, x, geocode, atan2, text)
  {
    var locations := Split(text, ';');
    ghost var os := PieceOutcomes(classify, x, geocode, atan2, locations);
    geometry := None;
    for i := 0 to |locations|
      invariant FoldOutcomes(os[..i]) == Returned(geometry)
    {
      var locationGeometry := GetGeometryFromLocation(classify, x, geocode, atan2, locations[i]);
      FoldOutcomesStep(os, i, geometry, locationGeometry);
      if locationGeometry.Raised? {
        FoldOutcomesPrefixRaised(os, i + 1);
        return None;
      }
      if geometry.None? {
        geometry := locationGeometry.value;
      } else {
        geometry := UnionWith(geometry.value, locationGeometry.value);
      }
    }
    assert os[..|locations|] == os;
  }

  /** One turn of the loop: the next piece's outcome either raises or joins the accumulator. */
  lemma {:induction false} FoldOutcomesStep(os: seq<Outcome<Option<Shape>>>, i: nat, g: Option<Shape>, o: Outcome<Option<Shape>>)
    requires i < |os| && FoldOutcomes(os[..i]) == Returned(g) && os[i] == o
    ensures FoldOutcomes(os[..i + 1]) == if o.Raised? then Raised else Returned(Accumulate(g, o.value))
  {
    assert os[..i + 1][..i] == os[..i];
  }

  /** Once the loop has raised, it stays raised. */
  lemma {:induction false} FoldOutcomesPrefixRaised(os: seq<Outcome<Option<Shape>>>, i: nat)
    requires i <= |os| && FoldOutcomes(os[..i]).Raised?
    ensures FoldOutcomes(os).Raised?
  {
    FoldOutcomesRaisedIff(os[..i]);
    var k :| 0 <= k < i && os[..i][k].Raised?;
    FoldOutcomesRaisedIff(os);
  }

  /** One piece: the dispatch on its format; the six alley corners are appended one by one. */
  method GetGeometryFromLocation(classify: string -> Outcome<A.LocationFormat>, x: Extractors, geocode: Query -> Option<Point>,
                                 atan2: (real, real) -> real, location: string) returns (r: Outcome<Option<Shape>>)
    ensures r == PieceOutcome(classify, x, geocode, atan2, location)
  {
    var loc := Strip(location);
    var format := classify(loc);
    if format.Raised? {
      return Raised;
    }
    assert PieceOutcome(classify, x, geocode, atan2, location) == Returned(FormatGeometry(x, geocode, atan2, loc, format.value).geometry);
    if format.value != A.Alley {
      return Returned(FormatGeometry(x, geocode, atan2, loc, format.value).geometry);
    }
    var names := x.alley(loc);
    if names.Raised? {
      return Returned(None);
    }
    var (s1, s2, s3, s4) := names.value;
    var points: seq<Option<Point>> := [];
    points := points + [geocode(IntersectionQuery(s1, s2))];
    points := points + [geocode(IntersectionQuery(s1, s3))];
    points := points + [geocode(IntersectionQuery(s1, s4))];
    points := points + [geocode(IntersectionQuery(s2, s3))];
    points := points + [geocode(IntersectionQuery(s2, s4))];
    points := points + [geocode(IntersectionQuery(s3, s4))];
    assert points == Answers(geocode, AlleyQueries(s1, s2, s3, s4));
    var sorted := ClockwiseSequence(Present(points), atan2);
    if sorted.Raised? {
      return Returned(None);
    }
    r := Returned(Caught(MakePolygon(sorted.value)));
  }

  // ---------------------------------------------------------------------------------
  // Properties of the text fold

  /** As written the classifier lookup raises in the first piece, so every text has no geometry. */
  lemma {:induction false} AsWrittenAlwaysNone(x: Extractors, geocode: Query -> Option<Point>, atan2: (real, real) -> real, text: string)
    ensures TextGeometry(AsWrittenFormat, x, geocode, atan2, text) == None
  {
    var os := PieceOutcomes(AsWrittenFormat, x, geocode, atan2, Split(text, ';'));
    assert os[0].Raised?;
    FoldOutcomesRaisedIff(os);
  }

  /** The shape each piece gets from the format the intended classifier gives it. */
  function FixedShapes(x: Extractors, geocode: Query -> Option<Point>, atan2: (real, real) -> real, pieces: seq<string>): (r: seq<Option<Shape>>)
    ensures |r| == |pieces|
    ensures forall k | 0 <= k < |pieces| ::
      r[k] == FormatGeometry(x, geocode, atan2, Strip(pieces[k]), A.LocationFormatOf(Strip(pieces[k]))).geometry
  {
    seq(|pieces|, k requires 0 <= k < |pieces| =>
      FormatGeometry(x, geocode, atan2, Strip(pieces[k]), A.LocationFormatOf(Strip(pieces[k]))).geometry)
  }

  /** With the intended classifier no piece raises, and the text's geometry is the fold of its pieces' shapes. */
  lemma {:induction false} FixedFormatFolds(x: Extractors, geocode: Query -> Option<Point>, atan2: (real, real) -> real,
                                            text: string, pieces: seq<string>)
    requires pieces == Split(text, ';')
    ensures TextGeometry(FixedFormat, x, geocode, atan2, text) == Fold(FixedShapes(x, geocode, atan2, pieces))
  {
    var os := PieceOutcomes(FixedFormat, x, geocode, atan2, pieces);
    var gs := FixedShapes(x, geocode, atan2, pieces);
    forall k | 0 <= k < |os|
      ensures os[k] == Returned(gs[k])
    {
      assert PieceGeometry(FixedFormat, x, geocode, atan2, pieces[k]) ==
        Returned(FormatGeometry(x, geocode, atan2, Strip(pieces[k]), A.LocationFormatOf(Strip(pieces[k]))));
    }
    FoldOutcomesReturned(os, gs);
  }

  /**
   * The text has no geometry exactly when a piece raises or the last piece answers None:
   * the union with None is None, whatever the earlier pieces gave.
   */
  lemma {:induction false} NoGeometryIff(classify: string -> Outcome<A.LocationFormat>, x: Extractors, geocode: Query -> Option<Point>,
                                         atan2: (real, real) -> real, text: string, pieces: seq<string>)
    requires pieces == Split(text, ';')
    ensures TextGeometry(classify, x, geocode, atan2, text).None? <==>
      (exists k | 0 <= k < |pieces| :: PieceOutcome(classify, x, geocode, atan2, pieces[k]).Raised?)
      || PieceOutcome(classify, x, geocode, atan2, pieces[|pieces| - 1]) == Returned(None)
  {
    var os := PieceOutcomes(classify, x, geocode, atan2, pieces);
    FoldOutcomesRaisedIff(os);
    FoldOutcomesNoneIff(os);
  }

  // ---------------------------------------------------------------------------------
  // Properties of one piece

  /** A piece is trimmed before anything else, so surrounding whitespace changes nothing. */
  lemma {:induction false} PieceTrimmed(classify: string -> Outcome<A.LocationFormat>, x: Extractors, geocode: Query -> Option<Point>,
                                        atan2: (real, real) -> real, location: string)
    ensures PieceGeometry(classify, x, geocode, atan2, location) == PieceGeometry(classify, x, geocode, atan2, Strip(location))
  {
    StripIdempotent(location);
  }

  /** No format, or unreadable text for its format's extractor, gives no geometry and no geocoder call. */
  lemma {:induction false} UnidentifiedGivesNone(x: Extractors, geocode: Query -> Option<Point>, atan2: (real, real) -> real, location: string)
    requires A.LocationFormatOf(Strip(location)) == A.Unidentify
    ensures PieceGeometry(FixedFormat, x, geocode, atan2, location) == Returned(Geocoded(None, []))
  {
  }

  /** Every address query the address parse makes asks with fuzziness 20. */
  ghost predicate FuzzyAddresses(x: Extractors) {
    forall s :: x.streetAddress(s).Returned? ==>
      x.streetAddress(s).value.AddressQuery? && x.streetAddress(s).value.fuzziness == AddressFuzziness
  }

  lemma {:induction false} SrcFuzzyAddresses()
    ensures FuzzyAddresses(SrcExtractors)
  {
    forall s | SrcExtractors.streetAddress(s).Returned?
      ensures SrcExtractors.streetAddress(s).value.fuzziness == AddressFuzziness
    {
      assert SrcExtractors.streetAddress(s) == AddressQueryOf(s);
    }
  }

  /** Every address the piece geocodes is looked up with fuzziness 20. */
  lemma {:induction false} FuzzinessTwenty(classify: string -> Outcome<A.LocationFormat>, x: Extractors, geocode: Query -> Option<Point>,
                                           atan2: (real, real) -> real, location: string)
    requires FuzzyAddresses(x)
    requires PieceGeometry(classify, x, geocode, atan2, location).Returned?
    ensures forall k | 0 <= k < |PieceGeometry(classify, x, geocode, atan2, location).value.queries| ::
      PieceGeometry(classify, x, geocode, atan2, location).value.queries[k].AddressQuery? ==>
      PieceGeometry(classify, x, geocode, atan2, location).value.queries[k].fuzziness == AddressFuzziness
  {
    var loc := Strip(location);
    var f := classify(loc).value;
    assert PieceGeometry(classify, x, geocode, atan2, location).value == FormatGeometry(x, geocode, atan2, loc, f);
    if f == A.StreetAddressRange {
      RangeFuzzy(x, geocode, atan2, loc);
    } else {
      FormatFuzzy(x, geocode, atan2, loc, f);
    }
  }

  /** Address lookups made by any format but an address range carry fuzziness 20. */
  lemma {:induction false} FormatFuzzy(x: Extractors, geocode: Query -> Option<Point>, atan2: (real, real) -> real,
                                       loc: string, f: A.LocationFormat)
    requires FuzzyAddresses(x) && f != A.StreetAddressRange
    ensures forall k | 0 <= k < |FormatGeometry(x, geocode, atan2, loc, f).queries| ::
      FormatGeometry(x, geocode, atan2, loc, f).queries[k].AddressQuery? ==>
      FormatGeometry(x, geocode, atan2, loc, f).queries[k].fuzziness == AddressFuzziness
  {
  }

  /** Both address lookups of an address range carry fuzziness 20. */
  lemma {:induction false} RangeFuzzy(x: Extractors, geocode: Query -> Option<Point>, atan2: (real, real) -> real, loc: string)
    requires FuzzyAddresses(x)
    ensures var qs := FormatGeometry(x, geocode, atan2, loc, A.StreetAddressRange).queries;
      forall k | 0 <= k < |qs| :: qs[k].AddressQuery? ==> qs[k].fuzziness == AddressFuzziness
  {
    if x.addressRange(loc).Returned? {
      var (s1, s2) := x.addressRange(loc).value;
      assert x.streetAddress(s1).Returned? ==> x.streetAddress(s1).value.fuzziness == AddressFuzziness;
      assert x.streetAddress(s2).Returned? ==> x.streetAddress(s2).value.fuzziness == AddressFuzziness;
    }
  }

  /** A street address is geocoded by exactly one call, the parse's query, and the answer is the geometry. */
  lemma {:induction false} StreetAddressCall(classify: string -> Outcome<A.LocationFormat>, x: Extractors, geocode: Query -> Option<Point>,
                                             atan2: (real, real) -> real, location: string, q: Query)
    requires classify(Strip(location)) == Returned(A.StreetAddress) && x.streetAddress(Strip(location)) == Returned(q)
    ensures PieceGeometry(classify, x, geocode, atan2, location).value.queries == [q]
    ensures PieceGeometry(classify, x, geocode, atan2, location).value.geometry == AsShape(geocode(q))
  {
  }

  /**
   * An address range geocodes its start address, then its end address; the segment runs
   * between their answers, and there is none when either answer is None.
   */
  lemma {:induction false} AddressRangeCalls(classify: string -> Outcome<A.LocationFormat>, x: Extractors, geocode: Query -> Option<Point>,
                                             atan2: (real, real) -> real, location: string, s1: string, s2: string,
                                             q1: Query, q2: Query)
    requires classify(Strip(location)) == Returned(A.StreetAddressRange)
    requires x.addressRange(Strip(location)) == Returned((s1, s2))
    requires x.streetAddress(s1) == Returned(q1) && x.streetAddress(s2) == Returned(q2)
    ensures var r := PieceGeometry(classify, x, geocode, atan2, location).value;
      && r.queries == [q1, q2]
      && (r.geometry.Some? <==> geocode(q1).Some? && geocode(q2).Some?)
      && (r.geometry.Some? ==> r.geometry.value == LineString([geocode(q1).value, geocode(q2).value]))
  {
  }

  /**
   * In both segment formats with an address the intersection of the primary and cross
   * street names is geocoded first and is the segment's first point; there is no
   * segment when either answer is None.
   */
  lemma {:induction false} SegmentIntersectionFirst(classify: string -> Outcome<A.LocationFormat>, x: Extractors, geocode: Query -> Option<Point>,
                                                    atan2: (real, real) -> real, location: string,
                                                    address: string, primary: string, cross: string, q: Query)
    requires
      || (classify(Strip(location)) == Returned(A.StreetSegmentAddressIntersection)
          && x.segmentAddressIntersection(Strip(location)) == Returned((address, primary, cross)))
      || (classify(Strip(location)) == Returned(A.StreetSegmentIntersectionAddress)
          && x.segmentIntersectionAddress(Strip(location)) == Returned((primary, cross, address)))
    requires x.streetAddress(address) == Returned(q)
    ensures var r := PieceGeometry(classify, x, geocode, atan2, location).value; var p := geocode(IntersectionQuery(primary, cross));
      && r.queries == [IntersectionQuery(primary, cross), q]
      && (r.geometry.Some? <==> p.Some? && geocode(q).Some?)
      && (r.geometry.Some? ==> r.geometry.value == LineString([p.value, geocode(q).value]))
  {
    var loc := Strip(location);
    if classify(loc) == Returned(A.StreetSegmentAddressIntersection) {
      assert PieceGeometry(classify, x, geocode, atan2, location).value
        == FormatGeometry(x, geocode, atan2, loc, A.StreetSegmentAddressIntersection);
    } else {
      assert PieceGeometry(classify, x, geocode, atan2, location).value
        == FormatGeometry(x, geocode, atan2, loc, A.StreetSegmentIntersectionAddress);
    }
  }

  /** A segment between two intersections geocodes the primary street with each cross street, in order. */
  lemma {:induction false} SegmentIntersectionsCalls(classify: string -> Outcome<A.LocationFormat>, x: Extractors, geocode: Query -> Option<Point>,
                                                     atan2: (real, real) -> real, location: string,
                                                     primary: string, cross1: string, cross2: string)
    requires classify(Strip(location)) == Returned(A.StreetSegmentIntersections)
    requires x.segmentIntersections(Strip(location)) == Some((primary, cross1, cross2))
    ensures var r := PieceGeometry(classify, x, geocode, atan2, location).value;
      var p1, p2 := geocode(IntersectionQuery(primary, cross1)), geocode(IntersectionQuery(primary, cross2));
      && r.queries == [IntersectionQuery(primary, cross1), IntersectionQuery(primary, cross2)]
      && (r.geometry.Some? <==> p1.Some? && p2.Some?)
      && (r.geometry.Some? ==> r.geometry.value == LineString([p1.value, p2.value]))
  {
    var loc := Strip(location);
    assert PieceGeometry(classify, x, geocode, atan2, location).value
      == FormatGeometry(x, geocode, atan2, loc, A.StreetSegmentIntersections);
    assert SegmentQueries(x.segmentIntersections(loc)) == (IntersectionQuery(primary, cross1), IntersectionQuery(primary, cross2));
  }

  /**
   * Without a match the segment extractor's Nones are geocoded twice, and the piece has
   * a segment only if the geocoder answers that query.
   */
  lemma {:induction false} SegmentIntersectionsUnnamed(classify: string -> Outcome<A.LocationFormat>, x: Extractors, geocode: Query -> Option<Point>,
                                                       atan2: (real, real) -> real, location: string)
    requires classify(Strip(location)) == Returned(A.StreetSegmentIntersections)
    requires x.segmentIntersections(Strip(location)).None?
    ensures var r := PieceGeometry(classify, x, geocode, atan2, location).value; var p := geocode(UnnamedIntersectionQuery);
      && r.queries == [UnnamedIntersectionQuery, UnnamedIntersectionQuery]
      && (r.geometry.Some? <==> p.Some?)
      && (r.geometry.Some? ==> r.geometry.value == LineString([p.value, p.value]))
  {
    var loc := Strip(location);
    assert PieceGeometry(classify, x, geocode, atan2, location).value
      == FormatGeometry(x, geocode, atan2, loc, A.StreetSegmentIntersections);
    assert SegmentQueries(x.segmentIntersections(loc)) == (UnnamedIntersectionQuery, UnnamedIntersectionQuery);
  }

  /** The six alley calls name every pair of the four streets once, the earlier street first. */
  lemma {:induction false} AlleyEveryPair(s1: string, s2: string, s3: string, s4: string)
    ensures |AlleyQueries(s1, s2, s3, s4)| == 6
    ensures forall i, j | 0 <= i < j < 4 :: exists k | 0 <= k < 6 ::
      AlleyQueries(s1, s2, s3, s4)[k] == IntersectionQuery([s1, s2, s3, s4][i], [s1, s2, s3, s4][j])
    ensures forall k | 0 <= k < 6 :: exists i, j | 0 <= i < j < 4 ::
      AlleyQueries(s1, s2, s3, s4)[k] == IntersectionQuery([s1, s2, s3, s4][i], [s1, s2, s3, s4][j])
  {
    var ns := [s1, s2, s3, s4];
    var qs := AlleyQueries(s1, s2, s3, s4);
    assert qs[0] == IntersectionQuery(ns[0], ns[1]) && qs[1] == IntersectionQuery(ns[0], ns[2]);
    assert qs[2] == IntersectionQuery(ns[0], ns[3]) && qs[3] == IntersectionQuery(ns[1], ns[2]);
    assert qs[4] == IntersectionQuery(ns[1], ns[3]) && qs[5] == IntersectionQuery(ns[2], ns[3]);
  }

  /** An alley makes the six pair calls, whatever the geocoder answers. */
  lemma {:induction false} AlleyCalls(classify: string -> Outcome<A.LocationFormat>, x: Extractors, geocode: Query -> Option<Point>,
                                      atan2: (real, real) -> real, location: string,
                                      s1: string, s2: string, s3: string, s4: string)
    requires classify(Strip(location)) == Returned(A.Alley)
    requires x.alley(Strip(location)) == Returned((s1, s2, s3, s4))
    ensures PieceGeometry(classify, x, geocode, atan2, location).value.queries == AlleyQueries(s1, s2, s3, s4)
  {
    var loc := Strip(location);
    assert PieceGeometry(classify, x, geocode, atan2, location).value == FormatGeometry(x, geocode, atan2, loc, A.Alley);
  }

  /**
   * An alley has a polygon exactly when the corners that resolve can be ordered and make
   * a ring: at least three resolve, they are not three times the same point, and no two
   * different ones share an angle about their centroid.
   */
  lemma {:induction false} AlleyPolygonIff(classify: string -> Outcome<A.LocationFormat>, x: Extractors, geocode: Query -> Option<Point>,
                                           atan2: (real, real) -> real, location: string,
                                           s1: string, s2: string, s3: string, s4: string)
    requires classify(Strip(location)) == Returned(A.Alley)
    requires x.alley(Strip(location)) == Returned((s1, s2, s3, s4))
    ensures var resolved := Present(Answers(geocode, AlleyQueries(s1, s2, s3, s4)));
      PieceGeometry(classify, x, geocode, atan2, location).value.geometry.Some? <==>
      3 <= |resolved| && !OnePointThrice(resolved) &&
      forall i, j | 0 <= i < |resolved| && 0 <= j < |resolved| && resolved[i] != resolved[j] ::
        Angle(Centroid(resolved), resolved[i], atan2) != Angle(Centroid(resolved), resolved[j], atan2)
  {
    assert PieceGeometry(classify, x, geocode, atan2, location).value == FormatGeometry(x, geocode, atan2, Strip(location), A.Alley);
    ClockwisePolygonIff(Present(Answers(geocode, AlleyQueries(s1, s2, s3, s4))), atan2);
  }

  /**
   * The alley's polygon is a ring over the corners that resolved, each as often as it
   * resolved, in non-decreasing angle about their centroid.
   */
  lemma {:induction false} AlleyRing(classify: string -> Outcome<A.LocationFormat>, x: Extractors, geocode: Query -> Option<Point>,
                                     atan2: (real, real) -> real, location: string,
                                     s1: string, s2: string, s3: string, s4: string)
    requires classify(Strip(location)) == Returned(A.Alley)
    requires x.alley(Strip(location)) == Returned((s1, s2, s3, s4))
    requires PieceGeometry(classify, x, geocode, atan2, location).value.geometry.Some?
    ensures PieceGeometry(classify, x, geocode, atan2, location).value.geometry.value.Polygon?
    ensures Present(Answers(geocode, AlleyQueries(s1, s2, s3, s4))) != []
    ensures multiset(PointsOf(PieceGeometry(classify, x, geocode, atan2, location).value.geometry.value))
      == multiset(Present(Answers(geocode, AlleyQueries(s1, s2, s3, s4))))
    ensures AngleOrdered(PointsOf(PieceGeometry(classify, x, geocode, atan2, location).value.geometry.value),
                         Centroid(Present(Answers(geocode, AlleyQueries(s1, s2, s3, s4)))), atan2)
  {
    assert PieceGeometry(classify, x, geocode, atan2, location).value == FormatGeometry(x, geocode, atan2, Strip(location), A.Alley);
    ClockwisePolygonRing(Present(Answers(geocode, AlleyQueries(s1, s2, s3, s4))), atan2);
  }

  /** Every point a shape covers is the geocoder's answer to one of the queries. */
  predicate AnswersCover(geocode: Query -> Option<Point>, shape: Shape, queries: seq<Query>) {
    forall p | p in PointsOf(shape) :: exists k | 0 <= k < |queries| :: geocode(queries[k]) == Some(p)
  }

  lemma {:induction false} PointCovered(geocode: Query -> Option<Point>, q: Query)
    requires geocode(q).Some?
    ensures AnswersCover(geocode, PointShape(geocode(q).value), [q])
  {
    assert geocode([q][0]) == Some(geocode(q).value);
  }

  lemma {:induction false} LineCovered(geocode: Query -> Option<Point>, q1: Query, q2: Query)
    requires Segment(geocode(q1), geocode(q2)).Returned?
    ensures AnswersCover(geocode, Segment(geocode(q1), geocode(q2)).value, [q1, q2])
  {
    var qs := [q1, q2];
    assert geocode(qs[0]) == geocode(q1) && geocode(qs[1]) == geocode(q2);
  }

  lemma {:induction false} AlleyCovered(geocode: Query -> Option<Point>, atan2: (real, real) -> real,
                                        queries: seq<Query>, shape: Shape)
    requires ClockwisePolygon(Present(Answers(geocode, queries)), atan2) == Some(shape)
    ensures AnswersCover(geocode, shape, queries)
  {
    var answers := Answers(geocode, queries);
    var resolved := Present(answers);
    ClockwisePolygonRing(resolved, atan2);
    forall p | p in PointsOf(shape) ensures exists k | 0 <= k < |queries| :: geocode(queries[k]) == Some(p) {
      assert p in multiset(resolved) by {
        assert p in multiset(PointsOf(shape));
      }
      PresentSource(answers, p);
      var k :| 0 <= k < |answers| && answers[k] == Some(p);
      assert geocode(queries[k]) == Some(p);
    }
  }

  /** Every point of a piece's geometry is the geocoder's answer to one of the calls the piece made. */
  lemma {:induction false} PointsAreAnswers(classify: string -> Outcome<A.LocationFormat>, x: Extractors, geocode: Query -> Option<Point>,
                                            atan2: (real, real) -> real, location: string)
    requires PieceGeometry(classify, x, geocode, atan2, location).Returned?
    requires PieceGeometry(classify, x, geocode, atan2, location).value.geometry.Some?
    ensures AnswersCover(geocode, PieceGeometry(classify, x, geocode, atan2, location).value.geometry.value,
                         PieceGeometry(classify, x, geocode, atan2, location).value.queries)
  {
    var loc := Strip(location);
    var f := classify(loc).value;
    assert PieceGeometry(classify, x, geocode, atan2, location).value == FormatGeometry(x, geocode, atan2, loc, f);
    match f
    case StreetAddress =>
      PointCovered(geocode, x.streetAddress(loc).value);
    case StreetAddressRange =>
      var (s1, s2) := x.addressRange(loc).value;
      LineCovered(geocode, x.streetAddress(s1).value, x.streetAddress(s2).value);
    case Intersection =>
      var (n1, n2) := x.intersection(loc).value;
      PointCovered(geocode, IntersectionQuery(n1, n2));
    case StreetSegmentIntersections =>
      var (q1, q2) := SegmentQueries(x.segmentIntersections(loc));
      LineCovered(geocode, q1, q2);
    case StreetSegmentAddressIntersection =>
      var (address, primary, cross) := x.segmentAddressIntersection(loc).value;
      LineCovered(geocode, IntersectionQuery(primary, cross), x.streetAddress(address).value);
    case StreetSegmentIntersectionAddress =>
      var (primary, cross, address) := x.segmentIntersectionAddress(loc).value;
      LineCovered(geocode, IntersectionQuery(primary, cross), x.streetAddress(address).value);
    case Alley =>
      var (s1, s2, s3, s4) := x.alley(loc).value;
      var queries := AlleyQueries(s1, s2, s3, s4);
      AlleyCovered(geocode, atan2, queries, ClockwisePolygon(Present(Answers(geocode, queries)), atan2).value);
  }
}
