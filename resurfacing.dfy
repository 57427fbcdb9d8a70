/**
 * The street-resurfacing geocoder: the street centre lines get one address range per
 * segment, unnamed segments are dropped, and every resurfacing moratorium, oldest
 * first, is stamped onto the segments of its street whose range it overlaps.  The
 * centre-line table is updated in place, so here it is an array of records.
 */
module Resurfacing {
  import opened Regex
  import opened Text

  // ---------------------------------------------------------------------------------
  // Centre lines

  /** A row of the centre-line file, with the columns the geocoder uses (the geometry is carried along unread). */
  datatype CenterLine = CenterLine(
    preDir: string, streetNam: Option<string>, streetTyp: string, sufDir: string, roadClass: string,
    lFAdd: int, rFAdd: int, lTAdd: int, rTAdd: int)

  /** A prepared segment: one address range and the five columns the moratoriums fill in. */
  datatype Segment = Segment(
    preDir: string, streetNam: string, streetTyp: string, sufDir: string, roadClass: string,
    fAdd: int, tAdd: int, lastResurf: int, resurfCount: int, resurfDates: string, mFAdd: int, mTAdd: int)

  /**
   * `nonzero_min_f_add`: a side without addresses has from-address 0 and is ignored;
   * otherwise the smaller from-address.
   */
  function NonzeroMinFAdd(rFAdd: int, lFAdd: int): (m: int)
    ensures m == 0 <==> rFAdd == 0 && lFAdd == 0
    ensures m == rFAdd || m == lFAdd
    ensures rFAdd != 0 && lFAdd != 0 ==> m <= rFAdd && m <= lFAdd
    ensures rFAdd == 0 ==> m == lFAdd
    ensures lFAdd == 0 ==> m == rFAdd
  {
    if rFAdd == 0 then lFAdd else if lFAdd == 0 then rFAdd else if rFAdd <= lFAdd then rFAdd else lFAdd
  }

  /** `t_add`: the larger to-address of the two sides. */
  function MaxTAdd(rTAdd: int, lTAdd: int): (m: int)
    ensures m >= rTAdd && m >= lTAdd && (m == rTAdd || m == lTAdd)
  {
    if rTAdd >= lTAdd then rTAdd else lTAdd
  }

  /** A named centre line as a segment, with the new columns at 0 and "". */
  function Prepare(c: CenterLine): (s: Segment)
    requires c.streetNam.Some?
    ensures s.lastResurf == 0 && s.resurfCount == 0 && s.resurfDates == "" && s.mFAdd == 0 && s.mTAdd == 0
  {
    Segment(c.preDir, c.streetNam.value, c.streetTyp, c.sufDir, c.roadClass,
            NonzeroMinFAdd(c.rFAdd, c.lFAdd), MaxTAdd(c.rTAdd, c.lTAdd), 0, 0, "", 0, 0)
  }

  /** The centre lines, in order, without the unnamed ones. */
  function PrepareAll(lines: seq<CenterLine>): (r: seq<Segment>)
    ensures |r| <= |lines|
    ensures forall s | s in r :: exists c | c in lines :: c.streetNam.Some? && s == Prepare(c)
    ensures forall i | 0 <= i < |lines| :: lines[i].streetNam.Some? ==> Prepare(lines[i]) in r
  {
    if lines == [] then []
    else
      assert forall c | c in lines[1..] :: c in lines;
      (if lines[0].streetNam.Some? then [Prepare(lines[0])] else []) + PrepareAll(lines[1..])
  }

  // ---------------------------------------------------------------------------------
  // Moratoriums

  /** A row of the moratorium file; `startTime` is the parsed START DATE, which orders the records. */
  datatype Moratorium = Moratorium(
    prefix: string, name: string, suffix: string, begin: int, end: int, moratoriumType: string,
    startDate: string, startTime: int)

  /** Only the two street-resurfacing types are applied. */
  predicate IsResurfacing(m: Moratorium) {
    m.moratoriumType == "Street Resurfacing" || m.moratoriumType == "Planned Street Resurfacing"
  }

  function ResurfacingOnly(data: seq<Moratorium>): (r: seq<Moratorium>)
    ensures forall k | 0 <= k < |r| :: IsResurfacing(r[k])
    ensures multiset(r) <= multiset(data)
    ensures forall k | 0 <= k < |data| :: IsResurfacing(data[k]) ==> data[k] in r
  {
    if data == [] then []
    else
      assert data == [data[0]] + data[1..];
      (if IsResurfacing(data[0]) then [data[0]] else []) + ResurfacingOnly(data[1..])
  }

  predicate StartOrdered(ms: seq<Moratorium>) {
    forall i, j | 0 <= i < j < |ms| :: ms[i].startTime <= ms[j].startTime
  }

  /** m placed into an ordered sequence after every record that does not start later. */
  function Insert(m: Moratorium, ms: seq<Moratorium>): (r: seq<Moratorium>)
    requires StartOrdered(ms)
    ensures StartOrdered(r) && multiset(r) == multiset(ms) + multiset{m} && |r| == |ms| + 1
  {
    if ms == [] then [m]
    else if m.startTime < ms[0].startTime then
      InsertFront(m, ms);
      [m] + ms
    else
      var t := Insert(m, ms[1..]);
      InsertBehind(m, ms, t);
      [ms[0]] + t
  }

  lemma {:induction false} InsertFront(m: Moratorium, ms: seq<Moratorium>)
    requires StartOrdered(ms) && ms != [] && m.startTime < ms[0].startTime
    ensures StartOrdered([m] + ms) && multiset([m] + ms) == multiset(ms) + multiset{m}
  {
    var r := [m] + ms;
    forall i, j | 0 <= i < j < |r| ensures r[i].startTime <= r[j].startTime {
      if i == 0 {
        assert r[j] == ms[j - 1];
        assert ms[0].startTime <= ms[j - 1].startTime;
      } else {
        assert r[i] == ms[i - 1] && r[j] == ms[j - 1];
      }
    }
  }

  lemma {:induction false} InsertBehind(m: Moratorium, ms: seq<Moratorium>, t: seq<Moratorium>)
    requires StartOrdered(ms) && ms != [] && ms[0].startTime <= m.startTime
    requires StartOrdered(t) && multiset(t) == multiset(ms[1..]) + multiset{m}
    ensures StartOrdered([ms[0]] + t) && multiset([ms[0]] + t) == multiset(ms) + multiset{m}
  {
    assert ms == [ms[0]] + ms[1..];
    forall k | 0 <= k < |t| ensures ms[0].startTime <= t[k].startTime {
      assert t[k] in multiset(t);
      if t[k] != m {
        assert t[k] in multiset(ms[1..]);
        var j :| 0 <= j < |ms[1..]| && ms[1..][j] == t[k];
        assert ms[j + 1] == t[k];
      }
    }
    var r := [ms[0]] + t;
    forall i, j | 0 <= i < j < |r| ensures r[i].startTime <= r[j].startTime {
      if i == 0 {
        assert r[j] == t[j - 1];
      } else {
        assert r[i] == t[i - 1] && r[j] == t[j - 1];
      }
    }
  }

  /** An insertion sort by start time: one of the orders a sort by start time may give. */
  function SortByStart(ms: seq<Moratorium>): (r: seq<Moratorium>)
    ensures StartOrdered(r) && multiset(r) == multiset(ms)
  {
    if ms == [] then []
    else
      assert ms == [ms[0]] + ms[1..];
      Insert(ms[0], SortByStart(ms[1..]))
  }

  /**
   * `data[mask].sort_values(by='START DATE timestamp', ascending=True)`: the resurfacing
   * records in ascending start time.  The sort pandas uses by default is not stable, so
   * records that start at the same time may come in any order; `order` is whichever one
   * the sort gave.
   */
  predicate IsStartSort(data: seq<Moratorium>, order: seq<Moratorium>) {
    StartOrdered(order) && multiset(order) == multiset(ResurfacingOnly(data))
  }

  /** Some order always qualifies. */
  lemma {:induction false} StartSortExists(data: seq<Moratorium>)
    ensures IsStartSort(data, SortByStart(ResurfacingOnly(data)))
  {
  }

  /** The records visited are exactly the resurfacing ones, oldest first, each from the file. */
  lemma {:induction false} StartSortRecords(data: seq<Moratorium>, order: seq<Moratorium>)
    requires IsStartSort(data, order)
    ensures forall k | 0 <= k < |order| :: IsResurfacing(order[k]) && order[k] in data
    ensures forall k | 0 <= k < |data| && IsResurfacing(data[k]) :: data[k] in order
  {
    var f := ResurfacingOnly(data);
    forall k | 0 <= k < |order| ensures IsResurfacing(order[k]) && order[k] in data {
      assert order[k] in multiset(order);
      assert order[k] in multiset(f);
      var j :| 0 <= j < |f| && f[j] == order[k];
      assert f[j] in multiset(data);
    }
    forall k | 0 <= k < |data| && IsResurfacing(data[k]) ensures data[k] in order {
      assert data[k] in f;
      assert data[k] in multiset(f);
      assert data[k] in multiset(order);
    }
  }

  /** `int(start_date.split("/")[-1])`; None when int() raises. */
  function Year(startDate: string): Option<int> {
    ParseInt(LastPiece(startDate, '/'))
  }

  // ---------------------------------------------------------------------------------
  // Matching and stamping

  /** `mask_segment` for one row: the same street, and the moratorium's range reaches into the segment's. */
  predicate SegmentMatches(s: Segment, m: Moratorium) {
    s.preDir == m.prefix && s.streetNam == m.name && s.streetTyp == m.suffix &&
    ((m.begin >= s.fAdd && m.begin < s.tAdd) || (m.end > s.fAdd && m.end <= s.tAdd) || (s.fAdd >= m.begin && s.tAdd <= m.end))
  }

  /** The update of a matching row: the year, one more count, the date and ";", and the moratorium's range. */
  function Stamp(s: Segment, m: Moratorium, year: int): (r: Segment)
    ensures r.preDir == s.preDir && r.streetNam == s.streetNam && r.streetTyp == s.streetTyp
    ensures r.fAdd == s.fAdd && r.tAdd == s.tAdd && r.sufDir == s.sufDir && r.roadClass == s.roadClass
    ensures r.lastResurf == year && r.resurfCount == s.resurfCount + 1 && r.resurfDates == s.resurfDates + m.startDate + ";"
    ensures r.mFAdd == m.begin && r.mTAdd == m.end
  {
    s.(lastResurf := year, resurfCount := s.resurfCount + 1, resurfDates := s.resurfDates + m.startDate + ";",
       mFAdd := m.begin, mTAdd := m.end)
  }

  /** One moratorium applied to one row: stamped if it matches, unchanged otherwise. */
  function Apply(s: Segment, m: Moratorium, year: int): (r: Segment)
    ensures SegmentMatches(r, m) == SegmentMatches(s, m)
  {
    if SegmentMatches(s, m) then Stamp(s, m, year) else s
  }

  /** The values of a sequence of options, or None when one of them is None. */
  function AllSome<T>(xs: seq<Option<T>>): (r: Option<seq<T>>)
    ensures r.Some? ==> |r.value| == |xs| && forall k | 0 <= k < |xs| :: xs[k] == Some(r.value[k])
    ensures r.None? ==> exists k | 0 <= k < |xs| :: xs[k].None?
  {
    if xs == [] then Some([])
    else
      match xs[0]
      case None => None
      case Some(y) =>
        match AllSome(xs[1..])
        case None => None
        case Some(ys) => Some([y] + ys)
  }

  /** AllSome is determined by the values: it is Some(ys) when every entry is Some of the matching ys. */
  lemma {:induction false} AllSomeFromEach<T>(xs: seq<Option<T>>, ys: seq<T>)
    requires |ys| == |xs| && forall k | 0 <= k < |xs| :: xs[k] == Some(ys[k])
    ensures AllSome(xs) == Some(ys)
    decreases |xs|
  {
    if xs != [] {
      assert forall k | 0 <= k < |xs[1..]| :: xs[1..][k] == xs[k + 1] && ys[1..][k] == ys[k + 1];
      AllSomeFromEach(xs[1..], ys[1..]);
      assert [ys[0]] + ys[1..] == ys;
    }
  }

  /** One None entry makes AllSome None. */
  lemma {:induction false} AllNoneAt<T>(xs: seq<Option<T>>, j: nat)
    requires j < |xs| && xs[j].None?
    ensures AllSome(xs).None?
  {
  }

  /** The year of each record, as `int()` reads it. */
  function YearsOf(ms: seq<Moratorium>): (r: seq<Option<int>>)
    ensures |r| == |ms| && forall k | 0 <= k < |ms| :: r[k] == Year(ms[k].startDate)
  {
    seq(|ms|, k requires 0 <= k < |ms| => Year(ms[k].startDate))
  }

  /** The years of all records, or None when some record's year is unreadable. */
  function Years(ms: seq<Moratorium>): Option<seq<int>> {
    AllSome(YearsOf(ms))
  }

  /** Every record, in order, applied to one row with its year. */
  function ApplyAll(s: Segment, ms: seq<Moratorium>, ys: seq<int>): Segment
    requires |ys| == |ms|
    decreases |ms|
  {
    if ms == [] then s else ApplyAll(Apply(s, ms[0], ys[0]), ms[1..], ys[1..])
  }

  /** Stamping never moves a row onto or off a street or range, so whether a record matches is decided by the prepared row. */
  lemma {:induction false} ApplyAllKeepsKey(s: Segment, ms: seq<Moratorium>, ys: seq<int>)
    requires |ys| == |ms|
    ensures var r := ApplyAll(s, ms, ys);
      r.preDir == s.preDir && r.streetNam == s.streetNam && r.streetTyp == s.streetTyp && r.fAdd == s.fAdd && r.tAdd == s.tAdd
    decreases |ms|
  {
    if ms != [] {
      ApplyAllKeepsKey(Apply(s, ms[0], ys[0]), ms[1..], ys[1..]);
    }
  }

  lemma {:induction false} ApplyAllSnoc(s: Segment, ms: seq<Moratorium>, ys: seq<int>, m: Moratorium, y: int)
    requires |ys| == |ms|
    ensures ApplyAll(s, ms + [m], ys + [y]) == Apply(ApplyAll(s, ms, ys), m, y)
    decreases |ms|
  {
    if ms == [] {
      assert [m][1..] == [] && [y][1..] == [];
    } else {
      assert (ms + [m])[1..] == ms[1..] + [m] && (ys + [y])[1..] == ys[1..] + [y];
      ApplyAllSnoc(Apply(s, ms[0], ys[0]), ms[1..], ys[1..], m, y);
    }
  }

  /** The number of records that match the row. */
  function MatchCount(s: Segment, ms: seq<Moratorium>): nat {
    if ms == [] then 0 else (if SegmentMatches(s, ms[0]) then 1 else 0) + MatchCount(s, ms[1..])
  }

  /** The dates of the records that match the row, each followed by ';'. */
  function MatchDates(s: Segment, ms: seq<Moratorium>): string {
    if ms == [] then [] else (if SegmentMatches(s, ms[0]) then ms[0].startDate + ";" else []) + MatchDates(s, ms[1..])
  }

  /** Two rows on the same street and range are matched by the same records. */
  lemma {:induction false} SameKeySameMatches(s: Segment, t: Segment, ms: seq<Moratorium>)
    requires s.preDir == t.preDir && s.streetNam == t.streetNam && s.streetTyp == t.streetTyp && s.fAdd == t.fAdd && s.tAdd == t.tAdd
    ensures MatchCount(s, ms) == MatchCount(t, ms) && MatchDates(s, ms) == MatchDates(t, ms)
    decreases |ms|
  {
    if ms != [] {
      SameKeySameMatches(s, t, ms[1..]);
    }
  }

  /**
   * After all records, the count has grown by the number of matching records and the
   * dates by their dates, in order.
   */
  lemma {:induction false} ApplyAllCounts(s: Segment, ms: seq<Moratorium>, ys: seq<int>)
    requires |ys| == |ms|
    ensures ApplyAll(s, ms, ys).resurfCount == s.resurfCount + MatchCount(s, ms)
    ensures ApplyAll(s, ms, ys).resurfDates == s.resurfDates + MatchDates(s, ms)
    decreases |ms|
  {
    if ms != [] {
      var s1 := Apply(s, ms[0], ys[0]);
      ApplyAllCounts(s1, ms[1..], ys[1..]);
      SameKeySameMatches(s, s1, ms[1..]);
    }
  }

  /** One record keeps `resurf_count` equal to the number of ';' in `resurf_dates`. */
  lemma {:induction false} ApplyKeepsCount(s: Segment, m: Moratorium, y: int)
    requires ';' !in m.startDate && CountFrom(s.resurfDates, 0, ';') == s.resurfCount
    ensures CountFrom(Apply(s, m, y).resurfDates, 0, ';') == Apply(s, m, y).resurfCount
  {
    if SegmentMatches(s, m) {
      assert Apply(s, m, y).resurfDates == s.resurfDates + (m.startDate + ";");
      CountAppendedDate(s.resurfDates, m.startDate);
    }
  }

  /** Appending a date without ';' and its ';' adds one ';'. */
  lemma {:induction false} CountAppendedDate(d: string, date: string)
    requires ';' !in date
    ensures CountFrom(d + (date + ";"), 0, ';') == CountFrom(d, 0, ';') + 1
  {
    var e := date + ";";
    CountFromIsCount(d, 0, ';');
    CountFromIsCount(d + e, 0, ';');
    assert d[0..] == d && (d + e)[0..] == d + e;
    assert multiset(d + e) == multiset(d) + multiset(date) + multiset(";");
  }

  /**
   * `resurf_count` is the number of dates in `resurf_dates`: it holds for a prepared row
   * and every matching record adds one to each, as long as no date holds a ';'.
   */
  lemma {:induction false} CountIsNumberOfDates(s: Segment, ms: seq<Moratorium>, ys: seq<int>)
    requires |ys| == |ms| && forall k | 0 <= k < |ms| :: ';' !in ms[k].startDate
    requires CountFrom(s.resurfDates, 0, ';') == s.resurfCount
    ensures CountFrom(ApplyAll(s, ms, ys).resurfDates, 0, ';') == ApplyAll(s, ms, ys).resurfCount
    decreases |ms|
  {
    if ms != [] {
      var s1 := Apply(s, ms[0], ys[0]);
      ApplyKeepsCount(s, ms[0], ys[0]);
      assert forall k | 0 <= k < |ms[1..]| :: ms[1..][k] == ms[k + 1];
      CountIsNumberOfDates(s1, ms[1..], ys[1..]);
    }
  }

  /** A prepared row starts with as many dates as its count, none. */
  lemma {:induction false} PreparedCountsNoDates(c: CenterLine)
    requires c.streetNam.Some?
    ensures CountFrom(Prepare(c).resurfDates, 0, ';') == Prepare(c).resurfCount
  {
  }

  /** With no matching record the row keeps `last_resurf`, `m_f_add` and `m_t_add`. */
  lemma {:induction false} NoMatchKeeps(s: Segment, ms: seq<Moratorium>, ys: seq<int>)
    requires |ys| == |ms| && forall k | 0 <= k < |ms| :: !SegmentMatches(s, ms[k])
    ensures var r := ApplyAll(s, ms, ys); r.lastResurf == s.lastResurf && r.mFAdd == s.mFAdd && r.mTAdd == s.mTAdd
    decreases |ms|
  {
    if ms != [] {
      assert !SegmentMatches(s, ms[0]);
      assert forall k | 0 <= k < |ms[1..]| :: ms[1..][k] == ms[k + 1];
      NoMatchKeeps(s, ms[1..], ys[1..]);
    }
  }

  /** The last matching record decides `last_resurf`, `m_f_add` and `m_t_add`. */
  lemma {:induction false} LastMatchDecides(s: Segment, ms: seq<Moratorium>, ys: seq<int>, j: nat)
    requires |ys| == |ms| && j < |ms| && SegmentMatches(s, ms[j]) && forall k | j < k < |ms| :: !SegmentMatches(s, ms[k])
    ensures var r := ApplyAll(s, ms, ys); r.lastResurf == ys[j] && r.mFAdd == ms[j].begin && r.mTAdd == ms[j].end
    decreases |ms|
  {
    var s1 := Apply(s, ms[0], ys[0]);
    assert forall k | 0 <= k < |ms[1..]| :: ms[1..][k] == ms[k + 1];
    if j == 0 {
      NoMatchKeeps(s1, ms[1..], ys[1..]);
    } else {
      LastMatchDecides(s1, ms[1..], ys[1..], j - 1);
    }
  }

  /**
   * So, with the records oldest first, a row's `last_resurf` is the year of a matching
   * record that starts no earlier than any other matching record.
   */
  lemma {:induction false} LastResurfIsLatest(s: Segment, ms: seq<Moratorium>, ys: seq<int>, j: nat)
    requires |ys| == |ms| && StartOrdered(ms)
    requires j < |ms| && SegmentMatches(s, ms[j]) && forall k | j < k < |ms| :: !SegmentMatches(s, ms[k])
    ensures ApplyAll(s, ms, ys).lastResurf == ys[j]
    ensures forall k | 0 <= k < |ms| && SegmentMatches(s, ms[k]) :: ms[k].startTime <= ms[j].startTime
  {
    LastMatchDecides(s, ms, ys, j);
  }

  // ---------------------------------------------------------------------------------
  // The overlap rule

  /** Two ranges that overlap in more than a point always match, whichever of the three cases applies. */
  lemma {:induction false} OverlapMatches(s: Segment, m: Moratorium)
    requires s.preDir == m.prefix && s.streetNam == m.name && s.streetTyp == m.suffix
    requires (if s.fAdd >= m.begin then s.fAdd else m.begin) < (if s.tAdd <= m.end then s.tAdd else m.end)
    ensures SegmentMatches(s, m)
  {
  }

  /** A match means the closed ranges share an address, for well-formed ranges. */
  lemma {:induction false} MatchMeansShared(s: Segment, m: Moratorium)
    requires s.fAdd <= s.tAdd && m.begin <= m.end && SegmentMatches(s, m)
    ensures m.begin <= s.tAdd && s.fAdd <= m.end
  {
  }

  /** Ranges that only touch at an end, with the moratorium running on past it, do not match. */
  lemma {:induction false} TouchingDoesNotMatch(s: Segment, m: Moratorium)
    requires s.fAdd < s.tAdd
    requires (m.begin == s.tAdd && m.end > s.tAdd) || (m.end == s.fAdd && m.begin < s.fAdd)
    ensures !SegmentMatches(s, m)
  {
  }

  // ---------------------------------------------------------------------------------
  // The script

  /** ApplyAllSnoc for every row of a table at once. */
  lemma {:induction false} ApplyAllSnocEach(start: seq<Segment>, before: seq<Segment>, after: seq<Segment>,
                                            ms: seq<Moratorium>, ys: seq<int>, m: Moratorium, y: int)
    requires |ys| == |ms| && |start| == |before| == |after|
    requires forall k | 0 <= k < |before| :: before[k] == ApplyAll(start[k], ms, ys)
    requires forall k | 0 <= k < |after| :: after[k] == Apply(before[k], m, y)
    ensures forall k | 0 <= k < |after| :: after[k] == ApplyAll(start[k], ms + [m], ys + [y])
  {
    forall k | 0 <= k < |after| ensures after[k] == ApplyAll(start[k], ms + [m], ys + [y]) {
      ApplyAllSnoc(start[k], ms, ys, m, y);
    }
  }

  /** The masked update for one record: every matching row of the table is stamped, the others are left alone. */
  method StampMatching(gdf: array<Segment>, m: Moratorium, y: int)
    modifies gdf
    ensures forall k | 0 <= k < gdf.Length :: gdf[k] == Apply(old(gdf[k]), m, y)
  {
    for i := 0 to gdf.Length
      invariant forall k | 0 <= k < i :: gdf[k] == Apply(old(gdf[k]), m, y)
      invariant forall k | i <= k < gdf.Length :: gdf[k] == old(gdf[k])
    {
      if SegmentMatches(gdf[i], m) {
        gdf[i] := gdf[i].(lastResurf := y, resurfCount := gdf[i].resurfCount + 1,
                          resurfDates := gdf[i].resurfDates + m.startDate + ";", mFAdd := m.begin, mTAdd := m.end);
      }
    }
  }

  /**
   * The loop over the moratorium records, updating the matching rows of the table in
   * place, given the year read from each record (None where `int()` raises).  The first
   * unreadable year stops the script (`ok` false).
   */
  method ApplyYears(gdf: array<Segment>, records: seq<Moratorium>, years: seq<Option<int>>) returns (ok: bool)
    requires |years| == |records|
    modifies gdf
    ensures ok <==> AllSome(years).Some?
    ensures ok ==> forall i | 0 <= i < gdf.Length :: gdf[i] == ApplyAll(old(gdf[i]), records, AllSome(years).value)
  {
    ghost var start := gdf[..];
    ghost var ys: seq<int> := [];
    for r := 0 to |records|
      invariant |ys| == r && forall k | 0 <= k < r :: years[k] == Some(ys[k])
      invariant forall i | 0 <= i < gdf.Length :: gdf[i] == ApplyAll(start[i], records[..r], ys)
    {
      var m := records[r];
      var year := years[r];
      if year.None? {
        AllNoneAt(years, r);
        return false;
      }
      var y := year.value;
      assert records[..r + 1] == records[..r] + [m];
      ghost var before := gdf[..];
      StampMatching(gdf, m, y);
      ApplyAllSnocEach(start, before, gdf[..], records[..r], ys, m, y);
      ys := ys + [y];
    }
    assert records[..|records|] == records;
    AllSomeFromEach(years, ys);
    return true;
  }

  /** The stamping with the year of each record read from its `START_DATE`. */
  method ApplyMoratoriums(gdf: array<Segment>, records: seq<Moratorium>) returns (ok: bool)
    modifies gdf
    ensures ok <==> Years(records).Some?
    ensures ok ==> forall i | 0 <= i < gdf.Length :: gdf[i] == ApplyAll(old(gdf[i]), records, Years(records).value)
  {
    ok := ApplyYears(gdf, records, YearsOf(records));
  }

  /**
   * The geocoding script without its file I/O: prepare the centre lines, then stamp the
   * resurfacing moratoriums onto the table in the order the sort by start time gave.
   */
  method GeocodeMoratoriums(lines: seq<CenterLine>, data: seq<Moratorium>, order: seq<Moratorium>)
      returns (gdf: array<Segment>, ok: bool)
    requires IsStartSort(data, order)
    ensures fresh(gdf)
    ensures ok <==> Years(order).Some?
    ensures ok ==> (gdf.Length == |PrepareAll(lines)| &&
      forall i | 0 <= i < gdf.Length :: gdf[i] == ApplyAll(PrepareAll(lines)[i], order, Years(order).value))
  {
    var prepared := PrepareAll(lines);
    gdf := new Segment[|prepared|](i requires 0 <= i < |prepared| => prepared[i]);
    ok := ApplyMoratoriums(gdf, order);
  }
}
