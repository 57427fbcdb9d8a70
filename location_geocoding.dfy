/**
 * `LocationGeocoder`: the geometry of a ward-spending location text.  The text is split
 * on `;`; every piece is trimmed, classified, taken apart by the format's extractor and
 * geocoded through the injected geocoder; the pieces' shapes are folded together with
 * `union`.  A piece whose extractor or shape constructor raises, or that has no format,
 * yields None.
 *
 * The format module the class reads is not part of this model, so its classifier and
 * extractors are a parameter, over address and intersection values of any type.
 */
module LocationGeocoding {
  import opened Regex
  import opened Text
  import opened Classify
  import opened Geometry
  import W = WardLocationFormat

  /** The injected geocoder's two calls; an answer is a point or None. */
  datatype Geocoder<!A, !I> = Geocoder(streetAddress: A -> Option<Point>, intersection: I -> Option<Point>)

  /** One geocoder call, in the order the piece makes them. */
  datatype Query<A, I> = AddressQuery(address: A) | IntersectionQuery(intersection: I)

  /**
   * The format module: the classifier (None when no pattern matches) and one extractor
   * per format.  An extractor that raises, or returns a value that does not unpack into
   * the expected tuple, is Raised.
   */
  datatype FormatProcessing<A, I> = FormatProcessing(
    format: string -> Option<W.LocationFormat>,
    streetAddress: string -> Outcome<A>,
    addressRange: string -> Outcome<(A, A)>,
    intersection: string -> Outcome<I>,
    segmentIntersections: string -> Outcome<(I, I)>,
    segmentAddressIntersection: string -> Outcome<(A, I)>,
    segmentIntersectionAddress: string -> Outcome<(I, A)>,
    alleyIntersections: string -> Outcome<seq<I>>)

  /** What the geocoder answers to a query. */
  function Answer<A, I>(g: Geocoder<A, I>, q: Query<A, I>): Option<Point> {
    match q
    case AddressQuery(a) => g.streetAddress(a)
    case IntersectionQuery(i) => g.intersection(i)
  }

  /** One intersection query per alley corner, in the extractor's order. */
  function CornerQueries<A, I>(corners: seq<I>): (r: seq<Query<A, I>>)
    ensures |r| == |corners| && forall k | 0 <= k < |corners| :: r[k] == IntersectionQuery(corners[k])
  {
    seq(|corners|, k requires 0 <= k < |corners| => IntersectionQuery(corners[k]))
  }

  /** The geocoder's answers for the alley corners, in order. */
  function CornerAnswers<A, I>(g: Geocoder<A, I>, corners: seq<I>): (r: seq<Option<Point>>)
    ensures |r| == |corners| && forall k | 0 <= k < |corners| :: r[k] == g.intersection(corners[k])
  {
    seq(|corners|, k requires 0 <= k < |corners| => g.intersection(corners[k]))
  }

  /** The shape of a trimmed piece of a given format, and the calls made for it. */
  function FormatGeometry<A, I>(lfp: FormatProcessing<A, I>, g: Geocoder<A, I>, atan2: (real, real) -> real,
                                loc: string, f: W.LocationFormat): Geocoded<Query<A, I>> {
    match f
    case StreetAddress =>
      (match lfp.streetAddress(loc)
       case Raised => Geocoded(None, [])
       case Returned(a) => Geocoded(AsShape(g.streetAddress(a)), [AddressQuery(a)]))
    case StreetAddressRange =>
      (match lfp.addressRange(loc)
       case Raised => Geocoded(None, [])
       case Returned((a1, a2)) =>
         Geocoded(Caught(Segment(g.streetAddress(a1), g.streetAddress(a2))), [AddressQuery(a1), AddressQuery(a2)]))
    case Intersection =>
      (match lfp.intersection(loc)
       case Raised => Geocoded(None, [])
       case Returned(i) => Geocoded(AsShape(g.intersection(i)), [IntersectionQuery(i)]))
    case StreetSegmentIntersections =>
      (match lfp.segmentIntersections(loc)
       case Raised => Geocoded(None, [])
       case Returned((i1, i2)) =>
         Geocoded(Caught(Segment(g.intersection(i1), g.intersection(i2))), [IntersectionQuery(i1), IntersectionQuery(i2)]))
    case StreetSegmentAddressIntersection =>
      (match lfp.segmentAddressIntersection(loc)
       case Raised => Geocoded(None, [])
       case Returned((a, i)) =>
         Geocoded(Caught(Segment(g.intersection(i), g.streetAddress(a))), [IntersectionQuery(i), AddressQuery(a)]))
    case StreetSegmentIntersectionAddress =>
      (match lfp.segmentIntersectionAddress(loc)
       case Raised => Geocoded(None, [])
       case Returned((i, a)) =>
         Geocoded(Caught(Segment(g.intersection(i), g.streetAddress(a))), [IntersectionQuery(i), AddressQuery(a)]))
    case Alley =>
      (match lfp.alleyIntersections(loc)
       case Raised => Geocoded(None, [])
       case Returned(corners) =>
         var queries := CornerQueries(corners);
         Geocoded(ClockwisePolygon(Present(CornerAnswers(g, corners)), atan2), queries))
  }

  /** `get_geometry_from_location(location)`: the piece is trimmed, then classified; no format yields None. */
  function PieceGeometry<A, I>(lfp: FormatProcessing<A, I>, g: Geocoder<A, I>, atan2: (real, real) -> real,
                               location: string): Geocoded<Query<A, I>> {
    var loc := Strip(location);
    match lfp.format(loc)
    case None => Geocoded(None, [])
    case Some(f) => FormatGeometry(lfp, g, atan2, loc, f)
  }

  /** The geometries of the pieces, in order. */
  function PieceGeometries<A, I>(lfp: FormatProcessing<A, I>, g: Geocoder<A, I>, atan2: (real, real) -> real,
                                 pieces: seq<string>): (r: seq<Option<Shape>>)
    ensures |r| == |pieces| && forall k | 0 <= k < |pieces| :: r[k] == PieceGeometry(lfp, g, atan2, pieces[k]).geometry
  {
    seq(|pieces|, k requires 0 <= k < |pieces| => PieceGeometry(lfp, g, atan2, pieces[k]).geometry)
  }

  /** The geometry of a piece, as a function of the piece. */
  function GeometryOf<A, I>(lfp: FormatProcessing<A, I>, g: Geocoder<A, I>, atan2: (real, real) -> real): (r: string -> Option<Shape>)
    ensures forall location :: r(location) == PieceGeometry(lfp, g, atan2, location).geometry
  {
    location => PieceGeometry(lfp, g, atan2, location).geometry
  }

  /** `process_location_text(text)`: the fold of the geometries of the `;`-separated pieces. */
  function TextGeometry<A, I>(lfp: FormatProcessing<A, I>, g: Geocoder<A, I>, atan2: (real, real) -> real,
                              text: string): Option<Shape> {
    Fold(PieceGeometries(lfp, g, atan2, Split(text, ';')))
  }

  class LocationGeocoder<A, I> {
    const geocoder: Geocoder<A, I>
    const lfp: FormatProcessing<A, I>
    const atan2: (real, real) -> real

    constructor(geocoder: Geocoder<A, I>, lfp: FormatProcessing<A, I>, atan2: (real, real) -> real)
      ensures this.geocoder == geocoder && this.lfp == lfp && this.atan2 == atan2
    {
      this.geocoder := geocoder;
      this.lfp := lfp;
      this.atan2 := atan2;
    }

    /** The accumulator loop over the pieces. */
    method ProcessLocationText(text: string) returns (geometry: Option<Shape>)
      ensures geometry == TextGeometry(lfp, geocoder, atan2, text)
    {
      var locations := Split(text, ';');
      ghost var gs := PieceGeometries(lfp, geocoder, atan2, locations);
      geometry := None;
      for i := 0 to |locations|
        invariant geometry == Fold(gs[..i])
      {
        var locationGeometry := GetGeometryFromLocation(locations[i]);
        assert gs[..i + 1][..i] == gs[..i];
        if geometry.None? {
          geometry := locationGeometry;
        } else {
          geometry := UnionWith(geometry.value, locationGeometry);
        }
      }
      assert gs[..|locations|] == gs;
    }

    /** One piece: the dispatch on its format; the alley corners are geocoded one by one. */
    method GetGeometryFromLocation(location: string) returns (r: Option<Shape>)
      ensures r == PieceGeometry(lfp, geocoder, atan2, location).geometry
    {
      var loc := Strip(location);
      var format := lfp.format(loc);
      if format.None? {
        return None;
      }
      if format.value != W.Alley {
        return FormatGeometry(lfp, geocoder, atan2, loc, format.value).geometry;
      }
      var intersections := lfp.alleyIntersections(loc);
      if intersections.Raised? {
        return None;
      }
      var corners := intersections.value;
      var points: seq<Option<Point>> := [];
      for i := 0 to |corners|
        invariant |points| == i && forall k | 0 <= k < i :: points[k] == geocoder.intersection(corners[k])
      {
        points := points + [geocoder.intersection(corners[i])];
      }
      assert points == CornerAnswers(geocoder, corners);
      var sorted := ClockwiseSequence(Present(points), atan2);
      if sorted.Raised? {
        return None;
      }
      r := Caught(MakePolygon(sorted.value));
    }
  }

  // ---------------------------------------------------------------------------------
  // Properties of the text fold

  /** A text without `;` is one piece, and its geometry is that piece's. */
  lemma {:induction false} SinglePiece<A, I>(lfp: FormatProcessing<A, I>, g: Geocoder<A, I>, atan2: (real, real) -> real,
                                             text: string)
    requires ';' !in text
    ensures TextGeometry(lfp, g, atan2, text) == PieceGeometry(lfp, g, atan2, text).geometry
  {
    SplitFree(text, ';');
    FoldSingle(PieceGeometries(lfp, g, atan2, Split(text, ';')));
  }

  /**
   * The text has no geometry exactly when its last piece has none: the union with None
   * is None, whatever the earlier pieces gave.
   */
  lemma {:induction false} NoGeometryIff<A, I>(lfp: FormatProcessing<A, I>, g: Geocoder<A, I>, atan2: (real, real) -> real,
                                               text: string)
    ensures TextGeometry(lfp, g, atan2, text).None? <==> PieceGeometry(lfp, g, atan2, LastPiece(text, ';')).geometry.None?
  {
    FoldNoneIff(PieceGeometries(lfp, g, atan2, Split(text, ';')));
  }

  /** A piece without geometry discards the pieces before it: the text's geometry is that of the text after its `;`. */
  lemma {:induction false} FailureDiscardsEarlier<A, I>(lfp: FormatProcessing<A, I>, g: Geocoder<A, I>,
                                                        atan2: (real, real) -> real, a: string, b: string)
    requires PieceGeometry(lfp, g, atan2, LastPiece(a, ';')).geometry.None?
    ensures TextGeometry(lfp, g, atan2, a + ";" + b) == TextGeometry(lfp, g, atan2, b)
  {
    FailureDiscards(GeometryOf(lfp, g, atan2), a, b);
    PiecesAgree(lfp, g, atan2, Split(a + ";" + b, ';'));
    PiecesAgree(lfp, g, atan2, Split(b, ';'));
  }

  /** The geometries of the pieces are those the shared fold lemmas speak of. */
  lemma {:induction false} PiecesAgree<A, I>(lfp: FormatProcessing<A, I>, g: Geocoder<A, I>, atan2: (real, real) -> real, pieces: seq<string>)
    ensures PieceGeometries(lfp, g, atan2, pieces) == Pieces(GeometryOf(lfp, g, atan2), pieces)
  {
  }

  /** Pieces that all yield Points give a shape covering exactly those points, in the order of the text. */
  lemma {:induction false} PiecesOfPoints<A, I>(lfp: FormatProcessing<A, I>, g: Geocoder<A, I>, atan2: (real, real) -> real,
                                                text: string, ps: seq<Point>)
    requires var pieces := Split(text, ';');
      |pieces| == |ps| && forall k | 0 <= k < |pieces| :: PieceGeometry(lfp, g, atan2, pieces[k]).geometry == Some(PointShape(ps[k]))
    ensures TextGeometry(lfp, g, atan2, text).Some? && PointsOf(TextGeometry(lfp, g, atan2, text).value) == ps
  {
    FoldPoints(PieceGeometries(lfp, g, atan2, Split(text, ';')), ps);
  }

  // ---------------------------------------------------------------------------------
  // Properties of one piece

  /** The extractor for format f raises on the trimmed piece. */
  predicate ExtractorRaises<A, I>(lfp: FormatProcessing<A, I>, loc: string, f: W.LocationFormat) {
    match f
    case StreetAddress => lfp.streetAddress(loc).Raised?
    case StreetAddressRange => lfp.addressRange(loc).Raised?
    case Intersection => lfp.intersection(loc).Raised?
    case StreetSegmentIntersections => lfp.segmentIntersections(loc).Raised?
    case StreetSegmentAddressIntersection => lfp.segmentAddressIntersection(loc).Raised?
    case StreetSegmentIntersectionAddress => lfp.segmentIntersectionAddress(loc).Raised?
    case Alley => lfp.alleyIntersections(loc).Raised?
  }

  /** No format, or an extractor that raises, gives no geometry and no geocoder call: the error stays inside the piece. */
  lemma {:induction false} FailureGivesNone<A, I>(lfp: FormatProcessing<A, I>, g: Geocoder<A, I>, atan2: (real, real) -> real,
                                                  location: string)
    ensures var loc := Strip(location);
      (lfp.format(loc).None? || ExtractorRaises(lfp, loc, lfp.format(loc).value)) ==>
      PieceGeometry(lfp, g, atan2, location) == Geocoded(None, [])
  {
  }

  /** A street address is geocoded by exactly one call, with the extracted address, and the answer is the geometry. */
  lemma {:induction false} StreetAddressCall<A, I>(lfp: FormatProcessing<A, I>, g: Geocoder<A, I>, atan2: (real, real) -> real,
                                                   location: string, a: A)
    requires lfp.format(Strip(location)) == Some(W.StreetAddress) && lfp.streetAddress(Strip(location)) == Returned(a)
    ensures var r := PieceGeometry(lfp, g, atan2, location);
      r.queries == [AddressQuery(a)] && r.geometry == AsShape(Answer(g, r.queries[0]))
  {
  }

  /**
   * An address range is geocoded start address first; the segment runs from its answer
   * to the end address's, and there is none when either answer is None.
   */
  lemma {:induction false} AddressRangeCalls<A, I>(lfp: FormatProcessing<A, I>, g: Geocoder<A, I>, atan2: (real, real) -> real,
                                                   location: string, a1: A, a2: A)
    requires lfp.format(Strip(location)) == Some(W.StreetAddressRange) && lfp.addressRange(Strip(location)) == Returned((a1, a2))
    ensures var r := PieceGeometry(lfp, g, atan2, location);
      && r.queries == [AddressQuery(a1), AddressQuery(a2)]
      && (r.geometry.Some? <==> Answer(g, r.queries[0]).Some? && Answer(g, r.queries[1]).Some?)
      && (r.geometry.Some? ==> r.geometry.value == LineString([Answer(g, r.queries[0]).value, Answer(g, r.queries[1]).value]))
  {
  }

  /**
   * In both segment formats with an address the intersection is geocoded first and is
   * the segment's first point, whichever order the extractor's tuple has; there is no
   * segment when either answer is None.
   */
  lemma {:induction false} SegmentIntersectionFirst<A, I>(lfp: FormatProcessing<A, I>, g: Geocoder<A, I>,
                                                          atan2: (real, real) -> real, location: string, a: A, i: I)
    requires
      || (lfp.format(Strip(location)) == Some(W.StreetSegmentAddressIntersection)
          && lfp.segmentAddressIntersection(Strip(location)) == Returned((a, i)))
      || (lfp.format(Strip(location)) == Some(W.StreetSegmentIntersectionAddress)
          && lfp.segmentIntersectionAddress(Strip(location)) == Returned((i, a)))
    ensures PieceGeometry(lfp, g, atan2, location).queries == [IntersectionQuery(i), AddressQuery(a)]
    ensures PieceGeometry(lfp, g, atan2, location).geometry.Some? <==> g.intersection(i).Some? && g.streetAddress(a).Some?
    ensures PieceGeometry(lfp, g, atan2, location).geometry.Some? ==>
      PieceGeometry(lfp, g, atan2, location).geometry.value == LineString([g.intersection(i).value, g.streetAddress(a).value])
  {
    var loc := Strip(location);
    if lfp.format(loc) == Some(W.StreetSegmentAddressIntersection) {
      assert PieceGeometry(lfp, g, atan2, location) == FormatGeometry(lfp, g, atan2, loc, W.StreetSegmentAddressIntersection);
    } else {
      assert PieceGeometry(lfp, g, atan2, location) == FormatGeometry(lfp, g, atan2, loc, W.StreetSegmentIntersectionAddress);
    }
  }

  /** An alley geocodes every extracted corner, once each and in the extractor's order. */
  lemma {:induction false} AlleyQueries<A, I>(lfp: FormatProcessing<A, I>, g: Geocoder<A, I>, atan2: (real, real) -> real,
                                              location: string, corners: seq<I>)
    requires lfp.format(Strip(location)) == Some(W.Alley) && lfp.alleyIntersections(Strip(location)) == Returned(corners)
    ensures PieceGeometry(lfp, g, atan2, location).queries == CornerQueries(corners)
  {
    var loc := Strip(location);
    assert PieceGeometry(lfp, g, atan2, location) == FormatGeometry(lfp, g, atan2, loc, W.Alley);
    assert FormatGeometry(lfp, g, atan2, loc, W.Alley).queries == CornerQueries(corners);
  }

  /**
   * An alley has a polygon exactly when the corners that resolve can be ordered and make
   * a ring: at least three resolve, they are not three times the same point, and no two
   * different ones share an angle about their centroid.
   */
  lemma {:induction false} AlleyPolygonIff<A, I>(lfp: FormatProcessing<A, I>, g: Geocoder<A, I>, atan2: (real, real) -> real,
                                                 location: string, corners: seq<I>)
    requires lfp.format(Strip(location)) == Some(W.Alley) && lfp.alleyIntersections(Strip(location)) == Returned(corners)
    ensures var resolved := Present(CornerAnswers(g, corners));
      PieceGeometry(lfp, g, atan2, location).geometry.Some? <==>
      3 <= |resolved| && !OnePointThrice(resolved) &&
      forall i, j | 0 <= i < |resolved| && 0 <= j < |resolved| && resolved[i] != resolved[j] ::
        Angle(Centroid(resolved), resolved[i], atan2) != Angle(Centroid(resolved), resolved[j], atan2)
  {
    assert PieceGeometry(lfp, g, atan2, location) == FormatGeometry(lfp, g, atan2, Strip(location), W.Alley);
    ClockwisePolygonIff(Present(CornerAnswers(g, corners)), atan2);
  }

  /**
   * The alley's polygon is a ring over the corners that resolved, each as often as it
   * resolved, in non-decreasing angle about their centroid.
   */
  lemma {:induction false} AlleyRing<A, I>(lfp: FormatProcessing<A, I>, g: Geocoder<A, I>, atan2: (real, real) -> real,
                                           location: string, corners: seq<I>)
    requires lfp.format(Strip(location)) == Some(W.Alley) && lfp.alleyIntersections(Strip(location)) == Returned(corners)
    requires PieceGeometry(lfp, g, atan2, location).geometry.Some?
    ensures PieceGeometry(lfp, g, atan2, location).geometry.value.Polygon?
    ensures Present(CornerAnswers(g, corners)) != []
    ensures multiset(PointsOf(PieceGeometry(lfp, g, atan2, location).geometry.value))
      == multiset(Present(CornerAnswers(g, corners)))
    ensures AngleOrdered(PointsOf(PieceGeometry(lfp, g, atan2, location).geometry.value),
                         Centroid(Present(CornerAnswers(g, corners))), atan2)
  {
    assert PieceGeometry(lfp, g, atan2, location) == FormatGeometry(lfp, g, atan2, Strip(location), W.Alley);
    ClockwisePolygonRing(Present(CornerAnswers(g, corners)), atan2);
  }

  /** When no alley corner resolves, the centroid divides by zero and the piece has no geometry. */
  lemma {:induction false} AlleyWithoutCorners<A, I>(lfp: FormatProcessing<A, I>, g: Geocoder<A, I>,
                                                     atan2: (real, real) -> real, location: string, corners: seq<I>)
    requires lfp.format(Strip(location)) == Some(W.Alley) && lfp.alleyIntersections(Strip(location)) == Returned(corners)
    requires forall k | 0 <= k < |corners| :: g.intersection(corners[k]).None?
    ensures PieceGeometry(lfp, g, atan2, location).geometry.None?
  {
    var answers := CornerAnswers(g, corners);
    PresentMembers(answers);
    assert forall k | 0 <= k < |answers| :: answers[k].None?;
  }

  /** Every point a shape covers is the geocoder's answer to one of the queries. */
  predicate AnswersCover<A, I>(g: Geocoder<A, I>, shape: Shape, queries: seq<Query<A, I>>) {
    forall p | p in PointsOf(shape) :: exists k | 0 <= k < |queries| :: Answer(g, queries[k]) == Some(p)
  }

  lemma {:induction false} PointCovered<A, I>(g: Geocoder<A, I>, q: Query<A, I>)
    requires Answer(g, q).Some?
    ensures AnswersCover(g, PointShape(Answer(g, q).value), [q])
  {
    assert Answer(g, [q][0]) == Some(Answer(g, q).value);
  }

  lemma {:induction false} LineCovered<A, I>(g: Geocoder<A, I>, q1: Query<A, I>, q2: Query<A, I>)
    requires Segment(Answer(g, q1), Answer(g, q2)).Returned?
    ensures AnswersCover(g, Segment(Answer(g, q1), Answer(g, q2)).value, [q1, q2])
  {
    var qs := [q1, q2];
    assert Answer(g, qs[0]) == Answer(g, q1) && Answer(g, qs[1]) == Answer(g, q2);
  }

  lemma {:induction false} AlleyCovered<A, I>(g: Geocoder<A, I>, atan2: (real, real) -> real, corners: seq<I>, shape: Shape)
    requires ClockwisePolygon(Present(CornerAnswers(g, corners)), atan2) == Some(shape)
    ensures AnswersCover(g, shape, CornerQueries(corners))
  {
    var answers := CornerAnswers(g, corners);
    var resolved := Present(answers);
    var queries: seq<Query<A, I>> := CornerQueries(corners);
    ClockwisePolygonRing(resolved, atan2);
    forall p | p in PointsOf(shape) ensures exists k | 0 <= k < |queries| :: Answer(g, queries[k]) == Some(p) {
      assert p in multiset(resolved) by {
        assert p in multiset(PointsOf(shape));
      }
      PresentSource(answers, p);
      var k :| 0 <= k < |answers| && answers[k] == Some(p);
      assert Answer(g, queries[k]) == Some(p);
    }
  }

  /** Every point of a piece's geometry is the geocoder's answer to one of the calls the piece made. */
  lemma {:induction false} PointsAreAnswers<A, I>(lfp: FormatProcessing<A, I>, g: Geocoder<A, I>, atan2: (real, real) -> real,
                                                  location: string)
    requires PieceGeometry(lfp, g, atan2, location).geometry.Some?
    ensures AnswersCover(g, PieceGeometry(lfp, g, atan2, location).geometry.value, PieceGeometry(lfp, g, atan2, location).queries)
  {
    var loc := Strip(location);
    var f := lfp.format(loc).value;
    assert PieceGeometry(lfp, g, atan2, location) == FormatGeometry(lfp, g, atan2, loc, f);
    match f
    case StreetAddress =>
      PointCovered(g, AddressQuery(lfp.streetAddress(loc).value));
    case StreetAddressRange =>
      var (a1, a2) := lfp.addressRange(loc).value;
      LineCovered(g, AddressQuery(a1), AddressQuery(a2));
    case Intersection =>
      PointCovered(g, IntersectionQuery(lfp.intersection(loc).value));
    case StreetSegmentIntersections =>
      var (i1, i2) := lfp.segmentIntersections(loc).value;
      LineCovered(g, IntersectionQuery(i1), IntersectionQuery(i2));
    case StreetSegmentAddressIntersection =>
      var (a, i) := lfp.segmentAddressIntersection(loc).value;
      LineCovered(g, IntersectionQuery(i), AddressQuery(a));
    case StreetSegmentIntersectionAddress =>
      var (i, a) := lfp.segmentIntersectionAddress(loc).value;
      LineCovered(g, IntersectionQuery(i), AddressQuery(a));
    case Alley =>
      var corners := lfp.alleyIntersections(loc).value;
      AlleyCovered(g, atan2, corners, ClockwisePolygon(Present(CornerAnswers(g, corners)), atan2).value);
  }
}
