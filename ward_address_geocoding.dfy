/**
 * The module-level geocoding of the `ward_spending` package: a location text is split on
 * `;`, every piece is classified by the `ward_spending` location parser (which strips the
 * piece for its own matching only), taken apart by that parser's extractors on the piece
 * as given, and geocoded; the pieces' shapes are folded together with `union`, with no
 * try around the loop.  The classifier answers None rather than raising, and the
 * exceptions of a piece's dispatch yield None for that piece.
 *
 * Unlike the other two assemblers, the alley is the polygon of the four intersections of
 * consecutive streets, in the order the text names them, with no sorting and no removal
 * of None, and both segment formats with an address give no geometry.
 *
 * The geocoder, the classifier and the extractors are parameters; the parser's
 * extractors are those of the `src` parser, over the same four patterns.
 */
module WardAddressGeocoding {
  import opened Regex
  import opened Text
  import opened Classify
  import opened Geometry
  import W = WardLocationFormat
  import S = SrcAddressGeocoding

  /** The four alley calls: each street with the next, and the last with the first. */
  function AlleyQueries(s1: string, s2: string, s3: string, s4: string): seq<S.Query> {
    [S.IntersectionQuery(s1, s2), S.IntersectionQuery(s2, s3), S.IntersectionQuery(s3, s4), S.IntersectionQuery(s4, s1)]
  }

  /** The shape of a piece of a given format, and the calls made for it; an exception in the dispatch yields None. */
  function FormatGeometry(x: S.Extractors, geocode: S.Query -> Option<Point>, location: string, f: W.LocationFormat)
    : Geocoded<S.Query>
  {
    match f
    case StreetAddress =>
      (match x.streetAddress(location)
       case Raised => Geocoded(None, [])
       case Returned(q) => Geocoded(AsShape(geocode(q)), [q]))
    case StreetAddressRange =>
      (match x.addressRange(location)
       case Raised => Geocoded(None, [])
       case Returned((s1, s2)) =>
         match x.streetAddress(s1)
         case Raised => Geocoded(None, [])
         case Returned(q1) =>
           match x.streetAddress(s2)
           case Raised => Geocoded(None, [q1])
           case Returned(q2) => Geocoded(Caught(Segment(geocode(q1), geocode(q2))), [q1, q2]))
    case Intersection =>
      (match x.intersection(location)
       case Raised => Geocoded(None, [])
       case Returned((n1, n2)) => Geocoded(AsShape(geocode(S.IntersectionQuery(n1, n2))), [S.IntersectionQuery(n1, n2)]))
    case StreetSegmentIntersections =>
      var (q1, q2) := S.SegmentQueries(x.segmentIntersections(location));
      Geocoded(Caught(Segment(geocode(q1), geocode(q2))), [q1, q2])
    case StreetSegmentAddressIntersection => Geocoded(None, [])
    case StreetSegmentIntersectionAddress => Geocoded(None, [])
    case Alley =>
      (match x.alley(location)
       case Raised => Geocoded(None, [])
       case Returned((s1, s2, s3, s4)) =>
         var queries := AlleyQueries(s1, s2, s3, s4);
         Geocoded(Caught(PolygonOfAnswers(S.Answers(geocode, queries))), queries))
  }

  /** `get_geometry_from_location(location)`: the piece is classified, then dispatched on; no format yields None. */
  function PieceGeometry(classify: string -> Option<W.LocationFormat>, x: S.Extractors, geocode: S.Query -> Option<Point>,
                         location: string): Geocoded<S.Query> {
    match classify(location)
    case None => Geocoded(None, [])
    case Some(f) => FormatGeometry(x, geocode, location, f)
  }

  /** The geometries of the pieces, in order. */
  function PieceGeometries(classify: string -> Option<W.LocationFormat>, x: S.Extractors, geocode: S.Query -> Option<Point>,
                           pieces: seq<string>): (r: seq<Option<Shape>>)
    ensures |r| == |pieces| && forall k | 0 <= k < |pieces| :: r[k] == PieceGeometry(classify, x, geocode, pieces[k]).geometry
  {
    seq(|pieces|, k requires 0 <= k < |pieces| => PieceGeometry(classify, x, geocode, pieces[k]).geometry)
  }

  /** The geometry of a piece, as a function of the piece. */
  function GeometryOf(classify: string -> Option<W.LocationFormat>, x: S.Extractors, geocode: S.Query -> Option<Point>): (r: string -> Option<Shape>)
    ensures forall location :: r(location) == PieceGeometry(classify, x, geocode, location).geometry
  {
    location => PieceGeometry(classify, x, geocode, location).geometry
  }

  /** `process_location_text(text)`: the fold of the geometries of the `;`-separated pieces. */
  function TextGeometry(classify: string -> Option<W.LocationFormat>, x: S.Extractors, geocode: S.Query -> Option<Point>,
                        text: string): Option<Shape> {
    Fold(PieceGeometries(classify, x, geocode, Split(text, ';')))
  }

  /** The accumulator loop over the pieces. */
  method ProcessLocationText(classify: string -> Option<W.LocationFormat>, x: S.Extractors, geocode: S.Query -> Option<Point>,
                             text: string) returns (geometry: Option<Shape>)
    ensures geometry == TextGeometry(classify, x, geocode, text)
  {
    var locations := Split(text, ';');
    ghost var gs := PieceGeometries(classify, x, geocode, locations);
    geometry := None;
    for i := 0 to |locations|
      invariant geometry == Fold(gs[..i])
    {
      var locationGeometry := GetGeometryFromLocation(classify, x, geocode, locations[i]);
      assert gs[..i + 1][..i] == gs[..i];
      if geometry.None? {
        geometry := locationGeometry;
      } else {
        geometry := UnionWith(geometry.value, locationGeometry);
      }
    }
    assert gs[..|locations|] == gs;
  }

  /** One piece: the dispatch on its format; the four alley corners are geocoded one by one. */
  method GetGeometryFromLocation(classify: string -> Option<W.LocationFormat>, x: S.Extractors, geocode: S.Query -> Option<Point>,
                                 location: string) returns (r: Option<Shape>)
    ensures r == PieceGeometry(classify, x, geocode, location).geometry
  {
    var format := classify(location);
    if format.None? {
      return None;
    }
    if format.value != W.Alley {
      return FormatGeometry(x, geocode, location, format.value).geometry;
    }
    var names := x.alley(location);
    if names.Raised? {
      return None;
    }
    var (s1, s2, s3, s4) := names.value;
    var point1 := geocode(S.IntersectionQuery(s1, s2));
    var point2 := geocode(S.IntersectionQuery(s2, s3));
    var point3 := geocode(S.IntersectionQuery(s3, s4));
    var point4 := geocode(S.IntersectionQuery(s4, s1));
    assert [point1, point2, point3, point4] == S.Answers(geocode, AlleyQueries(s1, s2, s3, s4));
    r := Caught(PolygonOfAnswers([point1, point2, point3, point4]));
  }

  // ---------------------------------------------------------------------------------
  // Properties of the text fold

  /**
   * The text has no geometry exactly when its last piece has none: the union with None
   * is None, whatever the earlier pieces gave.
   */
  lemma {:induction false} NoGeometryIff(classify: string -> Option<W.LocationFormat>, x: S.Extractors,
                                         geocode: S.Query -> Option<Point>, text: string)
    ensures TextGeometry(classify, x, geocode, text).None? <==> PieceGeometry(classify, x, geocode, LastPiece(text, ';')).geometry.None?
  {
    FoldNoneIff(PieceGeometries(classify, x, geocode, Split(text, ';')));
  }

  /** A piece without geometry discards the pieces before it: the text's geometry is that of the text after its `;`. */
  lemma {:induction false} FailureDiscardsEarlier(classify: string -> Option<W.LocationFormat>, x: S.Extractors,
                                                  geocode: S.Query -> Option<Point>, a: string, b: string)
    requires PieceGeometry(classify, x, geocode, LastPiece(a, ';')).geometry.None?
    ensures TextGeometry(classify, x, geocode, a + ";" + b) == TextGeometry(classify, x, geocode, b)
  {
    FailureDiscards(GeometryOf(classify, x, geocode), a, b);
    PiecesAgree(classify, x, geocode, Split(a + ";" + b, ';'));
    PiecesAgree(classify, x, geocode, Split(b, ';'));
  }

  /** The geometries of the pieces are those the shared fold lemmas speak of. */
  lemma {:induction false} PiecesAgree(classify: string -> Option<W.LocationFormat>, x: S.Extractors, geocode: S.Query -> Option<Point>,
                           pieces: seq<string>)
    ensures PieceGeometries(classify, x, geocode, pieces) == Pieces(GeometryOf(classify, x, geocode), pieces)
  {
  }

  // ---------------------------------------------------------------------------------
  // Properties of one piece

  /** No format gives no geometry and no geocoder call. */
  lemma {:induction false} NoFormatGivesNone(classify: string -> Option<W.LocationFormat>, x: S.Extractors,
                                             geocode: S.Query -> Option<Point>, location: string)
    requires classify(location).None?
    ensures PieceGeometry(classify, x, geocode, location) == Geocoded(None, [])
  {
  }

  /** Neither segment format with an address is handled: no geometry and no geocoder call, whatever the text says. */
  lemma {:induction false} AddressSegmentsUnhandled(classify: string -> Option<W.LocationFormat>, x: S.Extractors,
                                                    geocode: S.Query -> Option<Point>, location: string)
    requires classify(location) == Some(W.StreetSegmentAddressIntersection)
          || classify(location) == Some(W.StreetSegmentIntersectionAddress)
    ensures PieceGeometry(classify, x, geocode, location) == Geocoded(None, [])
  {
  }

  /** Every address the piece geocodes is looked up with fuzziness 20. */
  lemma {:induction false} FuzzinessTwenty(classify: string -> Option<W.LocationFormat>, x: S.Extractors,
                                           geocode: S.Query -> Option<Point>, location: string)
    requires S.FuzzyAddresses(x)
    ensures forall k | 0 <= k < |PieceGeometry(classify, x, geocode, location).queries| ::
      PieceGeometry(classify, x, geocode, location).queries[k].AddressQuery? ==>
      PieceGeometry(classify, x, geocode, location).queries[k].fuzziness == S.AddressFuzziness
  {
    if classify(location).Some? {
      var f := classify(location).value;
      assert PieceGeometry(classify, x, geocode, location) == FormatGeometry(x, geocode, location, f);
      if f == W.StreetAddressRange && x.addressRange(location).Returned? {
        var (s1, s2) := x.addressRange(location).value;
        assert x.streetAddress(s1).Returned? ==> x.streetAddress(s1).value.fuzziness == S.AddressFuzziness;
        assert x.streetAddress(s2).Returned? ==> x.streetAddress(s2).value.fuzziness == S.AddressFuzziness;
      }
    }
  }

  /** A street address is geocoded by exactly one call, the parse's query, and the answer is the geometry. */
  lemma {:induction false} StreetAddressCall(classify: string -> Option<W.LocationFormat>, x: S.Extractors,
                                             geocode: S.Query -> Option<Point>, location: string, q: S.Query)
    requires classify(location) == Some(W.StreetAddress) && x.streetAddress(location) == Returned(q)
    ensures PieceGeometry(classify, x, geocode, location).queries == [q]
    ensures PieceGeometry(classify, x, geocode, location).geometry == AsShape(geocode(q))
  {
  }

  /**
   * An address range geocodes its start address, then its end address; the segment runs
   * between their answers, and there is none when either answer is None.
   */
  lemma {:induction false} AddressRangeCalls(classify: string -> Option<W.LocationFormat>, x: S.Extractors,
                                             geocode: S.Query -> Option<Point>, location: string, s1: string, s2: string,
                                             q1: S.Query, q2: S.Query)
    requires classify(location) == Some(W.StreetAddressRange) && x.addressRange(location) == Returned((s1, s2))
    requires x.streetAddress(s1) == Returned(q1) && x.streetAddress(s2) == Returned(q2)
    ensures var r := PieceGeometry(classify, x, geocode, location);
      && r.queries == [q1, q2]
      && (r.geometry.Some? <==> geocode(q1).Some? && geocode(q2).Some?)
      && (r.geometry.Some? ==> r.geometry.value == LineString([geocode(q1).value, geocode(q2).value]))
  {
  }

  /** A segment between two intersections geocodes the primary street with each cross street, in order. */
  lemma {:induction false} SegmentIntersectionsCalls(classify: string -> Option<W.LocationFormat>, x: S.Extractors,
                                                     geocode: S.Query -> Option<Point>, location: string,
                                                     primary: string, cross1: string, cross2: string)
    requires classify(location) == Some(W.StreetSegmentIntersections)
    requires x.segmentIntersections(location) == Some((primary, cross1, cross2))
    ensures var r := PieceGeometry(classify, x, geocode, location);
      var p1, p2 := geocode(S.IntersectionQuery(primary, cross1)), geocode(S.IntersectionQuery(primary, cross2));
      && r.queries == [S.IntersectionQuery(primary, cross1), S.IntersectionQuery(primary, cross2)]
      && (r.geometry.Some? <==> p1.Some? && p2.Some?)
      && (r.geometry.Some? ==> r.geometry.value == LineString([p1.value, p2.value]))
  {
    assert PieceGeometry(classify, x, geocode, location) == FormatGeometry(x, geocode, location, W.StreetSegmentIntersections);
    assert S.SegmentQueries(x.segmentIntersections(location)) ==
      (S.IntersectionQuery(primary, cross1), S.IntersectionQuery(primary, cross2));
  }

  /** The four alley calls pair each named street with the next one, the fourth with the first. */
  lemma {:induction false} AlleyCyclicPairs(s1: string, s2: string, s3: string, s4: string)
    ensures var ns, qs := [s1, s2, s3, s4], AlleyQueries(s1, s2, s3, s4);
      |qs| == 4 && forall k | 0 <= k < 4 :: qs[k] == S.IntersectionQuery(ns[k], ns[(k + 1) % 4])
  {
    var ns, qs := [s1, s2, s3, s4], AlleyQueries(s1, s2, s3, s4);
    assert qs[0] == S.IntersectionQuery(ns[0], ns[1]) && qs[1] == S.IntersectionQuery(ns[1], ns[2]);
    assert qs[2] == S.IntersectionQuery(ns[2], ns[3]) && qs[3] == S.IntersectionQuery(ns[3], ns[0]);
  }

  /** An alley makes the four calls, whatever the geocoder answers. */
  lemma {:induction false} AlleyCalls(classify: string -> Option<W.LocationFormat>, x: S.Extractors,
                                      geocode: S.Query -> Option<Point>, location: string,
                                      s1: string, s2: string, s3: string, s4: string)
    requires classify(location) == Some(W.Alley) && x.alley(location) == Returned((s1, s2, s3, s4))
    ensures PieceGeometry(classify, x, geocode, location).queries == AlleyQueries(s1, s2, s3, s4)
  {
    assert PieceGeometry(classify, x, geocode, location) == FormatGeometry(x, geocode, location, W.Alley);
  }

  /**
   * An alley has a polygon exactly when all four corners resolve, and its ring is then
   * the four answers in the order of the calls, unsorted.
   */
  lemma {:induction false} AlleyPolygonIff(classify: string -> Option<W.LocationFormat>, x: S.Extractors,
                                           geocode: S.Query -> Option<Point>, location: string,
                                           s1: string, s2: string, s3: string, s4: string)
    requires classify(location) == Some(W.Alley) && x.alley(location) == Returned((s1, s2, s3, s4))
    ensures var answers, r := S.Answers(geocode, AlleyQueries(s1, s2, s3, s4)), PieceGeometry(classify, x, geocode, location).geometry;
      && (r.Some? <==> forall k | 0 <= k < 4 :: answers[k].Some?)
      && (r.Some? ==> r.value == Polygon([answers[0].value, answers[1].value, answers[2].value, answers[3].value]))
  {
    var answers := S.Answers(geocode, AlleyQueries(s1, s2, s3, s4));
    assert PieceGeometry(classify, x, geocode, location) == FormatGeometry(x, geocode, location, W.Alley);
    if forall k | 0 <= k < 4 :: answers[k].Some? {
      PresentAll(answers);
      assert Present(answers) == [answers[0].value, answers[1].value, answers[2].value, answers[3].value];
    }
  }
}
