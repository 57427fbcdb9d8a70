/**
 * The fixed-word-count address classifier of the `ward_spending` package: seven
 * anchored patterns in which every street is a direction letter followed by exactly
 * two `\w+` words, tried in table order on the text as given (no trimming), and the
 * range extractor for segments between two parenthesised numbers.
 *
 * Every pattern is a sequence of non-space runs separated by `\s+`, so each format
 * fixes the number of whitespace-separated tokens of the texts it accepts; that is
 * what rules out multi-word street names and keeps INTERSECTION and ALLEY apart.
 */
module AddressProcessing {
  import opened Regex
  import opened Text
  import opened LocationPatterns
  import opened Classify
  import A = SrcLocationFormat

  datatype AddressFormat =
    | StreetAddress
    | StreetAddressRange
    | Intersection
    | StreetSegmentIntersections
    | StreetSegmentAddressIntersection
    | StreetSegmentIntersectionAddress
    | Alley

  /** `\s+&\s+` */
  function AmpGap(): seq<Seg> { [Spaces1, Text("&"), Spaces1] }

  /** `^\d+\s+[NWES]\s+\w+\s+\w+$` */
  function FixedAddressPattern(): seq<Seg> {
    NumberHead() + WordStreet() + [End]
  }

  /** `^\d+-\d+\s+[NWES]\s+\w+\s+\w+$` */
  function FixedRangePattern(): seq<Seg> {
    [Digits, Text("-"), Digits, Spaces1] + WordStreet() + [End]
  }

  /** `\s+[NWES]+\s+\w+\s+\w+$`: the second street, whose direction may be several letters. */
  function SecondStreetTail(): seq<Seg> {
    [Rep(Direction, 1, true), Spaces1, Rep(Word, 1, true), Spaces1, Rep(Word, 1, true), End]
  }

  /** `^[NWES]\s+\w+\s+\w+\s+&\s+[NWES]+\s+\w+\s+\w+$` */
  function FixedIntersectionPattern(): seq<Seg> {
    WordStreet() + AmpGap() + SecondStreetTail()
  }

  /** Four two-word streets joined by `\s+&\s+`. */
  function FixedAlleyPattern(): seq<Seg> {
    WordStreet() + AmpGap() + WordStreet() + AmpGap() + WordStreet() + AmpGap() + WordStreet() + [End]
  }

  /** `\s+FROM\s+\d+\s+[NWES]\s+TO\s+` */
  function FromAddressTo(): seq<Seg> {
    [Spaces1, Text("FROM"), Spaces1, Digits, Spaces1, One(Direction), Spaces1, Text("TO"), Spaces1]
  }

  /** `\s+\(\d+\s+[NWES]\)$` */
  function ParenEnd(): seq<Seg> {
    [Spaces1, Text("("), Digits, Spaces1, One(Direction), Text(")"), End]
  }

  /** `^ON\s+[NWES]\s+\w+\s+\w+\s+FROM\s+\d+\s+[NWES]\s+TO\s+[NWES]\s+\w+\s+\w+\s+\(\d+\s+[NWES]\)$` */
  function FixedSegmentAddressIntersectionPattern(): seq<Seg> {
    OnHead() + WordStreet() + FromAddressTo() + WordStreet() + ParenEnd()
  }

  /** `\s+FROM\s+` */
  function FromGap(): seq<Seg> { [Spaces1, Text("FROM"), Spaces1] }

  /** `\s+\(\d+\s+[NWES]\)\s+TO\s+\d+\s+[NWES]$` */
  function ParenToAddress(): seq<Seg> {
    [Spaces1, Text("("), Digits, Spaces1, One(Direction), Text(")"), Spaces1, Text("TO"), Spaces1, Digits, Spaces1,
     One(Direction), End]
  }

  /** `^ON\s+[NWES]\s+\w+\s+\w+\s+FROM\s+[NWES]\s+\w+\s+\w+\s+\(\d+\s+[NWES]\)\s+TO\s+\d+\s+[NWES]$` */
  function FixedSegmentIntersectionAddressPattern(): seq<Seg> {
    OnHead() + WordStreet() + FromGap() + WordStreet() + ParenToAddress()
  }

  /** `address_patterns` in insertion order: INTERSECTION is tried before ALLEY. */
  function AddressPatternTable(): seq<(AddressFormat, seq<Seg>)> {
    [(StreetAddress, FixedAddressPattern()), (StreetAddressRange, FixedRangePattern()),
     (Intersection, FixedIntersectionPattern()), (Alley, FixedAlleyPattern()),
     (StreetSegmentIntersections, WordSegmentPattern()),
     (StreetSegmentAddressIntersection, FixedSegmentAddressIntersectionPattern()),
     (StreetSegmentIntersectionAddress, FixedSegmentIntersectionAddressPattern())]
  }

  /** `get_address_format(address)`: the format of the first pattern that matches the text as given; None when none does. */
  function GetAddressFormat(address: string): (r: Option<AddressFormat>)
    ensures r.Some? <==> exists k | 0 <= k < |AddressPatternTable()| :: Matches(AddressPatternTable()[k].1, address)
  {
    FirstMatch(AddressPatternTable(), address)
  }

  // ---------------------------------------------------------------------------------
  // Token counts

  /** The number of whitespace-separated tokens of every text of a format. */
  function FormatTokens(f: AddressFormat): nat {
    match f
    case StreetAddress => 4
    case StreetAddressRange => 4
    case Intersection => 7
    case Alley => 15
    case StreetSegmentIntersections => 16
    case StreetSegmentAddressIntersection => 13
    case StreetSegmentIntersectionAddress => 13
  }

  // Runs of at most four segments whose counts Dafny computes directly.

  function NumberRange(): seq<Seg> { [Digits, Text("-"), Digits, Spaces1] }
  function ToGap(): seq<Seg> { [Spaces1, Text("TO"), Spaces1] }
  function NumberDirection(): seq<Seg> { [Digits, Spaces1, One(Direction)] }
  function ParenNumber(): seq<Seg> { [Spaces1, Text("("), Digits] }
  function DirectionParen(): seq<Seg> { [Spaces1, One(Direction), Text(")")] }
  function ParenOpenNumber(g: nat): seq<Seg> { [Spaces1, Text("("), Open(g), Digits] }
  function CloseDirectionParen(g: nat): seq<Seg> { [Close(g), Spaces1, One(Direction), Text(")")] }
  function DirectionsWord(): seq<Seg> { [Rep(Direction, 1, true), Spaces1, Rep(Word, 1, true)] }
  function WordEnd(): seq<Seg> { [Spaces1, Rep(Word, 1, true), End] }

  /** The same patterns cut into those runs. */
  lemma {:induction false} PiecesSplit()
    ensures WordParenTo() == ParenOpenNumber(2) + CloseDirectionParen(2) + ToGap()
    ensures WordParenEnd() == ParenOpenNumber(3) + CloseDirectionParen(3) + [End]
    ensures FromAddressTo() == FromGap() + NumberDirection() + ToGap()
    ensures ParenEnd() == ParenNumber() + DirectionParen() + [End]
    ensures ParenToAddress() == ParenNumber() + DirectionParen() + ToGap() + NumberDirection() + [End]
    ensures FixedRangePattern() == NumberRange() + WordStreet() + [End]
    ensures SecondStreetTail() == DirectionsWord() + WordEnd()
  {
  }

  lemma {:induction false} EndTokens()
    ensures Tokenised([End]) && PToks([End], true) == 0 && PLast([End], true)
  {
  }

  lemma {:induction false} NumberHeadTokens()
    ensures Tokenised(NumberHead()) && PToks(NumberHead(), false) == 1 && !PLast(NumberHead(), false)
  {    TwoSegs(Digits, Spaces1, false);
  }

  lemma {:induction false} NumberRangeTokens()
    ensures Tokenised(NumberRange()) && PToks(NumberRange(), false) == 1 && !PLast(NumberRange(), false)
  {    FourSegs(Digits, Text("-"), Digits, Spaces1, false);
  }

  lemma {:induction false} ToGapTokens()
    ensures Tokenised(ToGap()) && PToks(ToGap(), true) == 1 && !PLast(ToGap(), true)
  {    ThreeSegs(Spaces1, Text("TO"), Spaces1, true);
  }

  lemma {:induction false} FromGapTokens()
    ensures Tokenised(FromGap()) && PToks(FromGap(), true) == 1 && !PLast(FromGap(), true)
  {    ThreeSegs(Spaces1, Text("FROM"), Spaces1, true);
  }

  lemma {:induction false} CloseFromTokens()
    ensures Tokenised(CloseFrom()) && PToks(CloseFrom(), true) == 1 && !PLast(CloseFrom(), true)
  {    FourSegs(Close(1), Spaces1, Text("FROM"), Spaces1, true);
  }

  lemma {:induction false} NumberDirectionTokens()
    ensures Tokenised(NumberDirection()) && PToks(NumberDirection(), false) == 2 && PLast(NumberDirection(), false)
  {    ThreeSegs(Digits, Spaces1, One(Direction), false);
  }

  lemma {:induction false} ParenNumberTokens()
    ensures Tokenised(ParenNumber()) && PToks(ParenNumber(), true) == 1 && PLast(ParenNumber(), true)
  {    ThreeSegs(Spaces1, Text("("), Digits, true);
  }

  lemma {:induction false} DirectionParenTokens()
    ensures Tokenised(DirectionParen()) && PToks(DirectionParen(), true) == 1 && PLast(DirectionParen(), true)
  {    ThreeSegs(Spaces1, One(Direction), Text(")"), true);
  }

  lemma {:induction false} ParenOpenNumberTokens(g: nat)
    ensures Tokenised(ParenOpenNumber(g)) && PToks(ParenOpenNumber(g), true) == 1 && PLast(ParenOpenNumber(g), true)
  {
    FourSegs(Spaces1, Text("("), Open(g), Digits, true);
  }

  lemma {:induction false} CloseDirectionParenTokens(g: nat)
    ensures Tokenised(CloseDirectionParen(g)) && PToks(CloseDirectionParen(g), true) == 1 && PLast(CloseDirectionParen(g), true)
  {
    FourSegs(Close(g), Spaces1, One(Direction), Text(")"), true);
  }

  /** `ON\s+(` and `ON\s+`: one token, then a gap. */
  lemma {:induction false} OnTokens()
    ensures Tokenised(OnOpen()) && PToks(OnOpen(), false) == 1 && !PLast(OnOpen(), false)
    ensures Tokenised(OnHead()) && PToks(OnHead(), false) == 1 && !PLast(OnHead(), false)
  {    TwoSegs(Text("ON"), Spaces1, false);
    ThreeSegs(Text("ON"), Spaces1, Open(1), false);
  }

  /** `\s+&\s+`: one token between two gaps. */
  lemma {:induction false} AmpGapTokens()
    ensures Tokenised(AmpGap()) && PToks(AmpGap(), true) == 1 && !PLast(AmpGap(), true)
  {    ThreeSegs(Spaces1, Text("&"), Spaces1, true);
  }

  lemma {:induction false} SecondStreetTailTokens()
    ensures Tokenised(SecondStreetTail()) && PToks(SecondStreetTail(), false) == 3 && PLast(SecondStreetTail(), false)
  {
    PiecesSplit();
    DirectionsWordTokens();
    ChainToks(DirectionsWord(), WordEnd(), false, true, true, 2, 1);
  }

  lemma {:induction false} DirectionsWordTokens()
    ensures Tokenised(DirectionsWord()) && PToks(DirectionsWord(), false) == 2 && PLast(DirectionsWord(), false)
    ensures Tokenised(WordEnd()) && PToks(WordEnd(), true) == 1 && PLast(WordEnd(), true)
  {    ThreeSegs(Rep(Direction, 1, true), Spaces1, Rep(Word, 1, true), false);
    ThreeSegs(Spaces1, Rep(Word, 1, true), End, true);
  }

  // The pieces between the streets.

  lemma {:induction false} WordParenToTokens()
    ensures Tokenised(WordParenTo()) && PToks(WordParenTo(), true) == 3 && !PLast(WordParenTo(), true)
  {
    PiecesSplit();
    ParenOpenNumberTokens(2);
    CloseDirectionParenTokens(2);
    ToGapTokens();
    ChainToks(ParenOpenNumber(2), CloseDirectionParen(2), true, true, true, 1, 1);
    ChainToks(ParenOpenNumber(2) + CloseDirectionParen(2), ToGap(), true, true, false, 2, 1);
  }

  lemma {:induction false} WordParenEndTokens()
    ensures Tokenised(WordParenEnd()) && PToks(WordParenEnd(), true) == 2 && PLast(WordParenEnd(), true)
  {
    PiecesSplit();
    ParenOpenNumberTokens(3);
    CloseDirectionParenTokens(3);
    EndTokens();
    ChainToks(ParenOpenNumber(3), CloseDirectionParen(3), true, true, true, 1, 1);
    ChainToks(ParenOpenNumber(3) + CloseDirectionParen(3), [End], true, true, true, 2, 0);
  }

  lemma {:induction false} FromAddressToTokens()
    ensures Tokenised(FromAddressTo()) && PToks(FromAddressTo(), true) == 4 && !PLast(FromAddressTo(), true)
  {
    PiecesSplit();
    FromGapTokens();
    NumberDirectionTokens();
    ToGapTokens();
    ChainToks(FromGap(), NumberDirection(), true, false, true, 1, 2);
    ChainToks(FromGap() + NumberDirection(), ToGap(), true, true, false, 3, 1);
  }

  lemma {:induction false} ParenEndTokens()
    ensures Tokenised(ParenEnd()) && PToks(ParenEnd(), true) == 2 && PLast(ParenEnd(), true)
  {
    PiecesSplit();
    ParenNumberTokens();
    DirectionParenTokens();
    EndTokens();
    ChainToks(ParenNumber(), DirectionParen(), true, true, true, 1, 1);
    ChainToks(ParenNumber() + DirectionParen(), [End], true, true, true, 2, 0);
  }

  lemma {:induction false} ParenToAddressTokens()
    ensures Tokenised(ParenToAddress()) && PToks(ParenToAddress(), true) == 5 && PLast(ParenToAddress(), true)
  {
    PiecesSplit();
    ParenNumberTokens();
    DirectionParenTokens();
    ToGapTokens();
    NumberDirectionTokens();
    EndTokens();
    var a, b, c, d := ParenNumber(), DirectionParen(), ToGap(), NumberDirection();
    ChainToks(a, b, true, true, true, 1, 1);
    ChainToks(a + b, c, true, true, false, 2, 1);
    ChainToks(a + b + c, d, true, false, true, 3, 2);
    ChainToks(a + b + c + d, [End], true, true, true, 5, 0);
  }

  // Whole patterns.

  /** A two-word street after a gap: three tokens, ending on a non-space. */
  lemma {:induction false} WordStreetTokens()
    ensures Tokenised(WordStreet()) && PToks(WordStreet(), false) == 3 && PLast(WordStreet(), false)
  {
  }

  lemma {:induction false} AddressTokens()
    ensures Tokenised(FixedAddressPattern()) && PToks(FixedAddressPattern(), false) == 4
  {
    WordStreetTokens();
    NumberHeadTokens();
    EndTokens();
    ChainToks(NumberHead(), WordStreet(), false, false, true, 1, 3);
    ChainToks(NumberHead() + WordStreet(), [End], false, true, true, 4, 0);
  }

  lemma {:induction false} RangeTokens()
    ensures Tokenised(FixedRangePattern()) && PToks(FixedRangePattern(), false) == 4
  {
    PiecesSplit();
    WordStreetTokens();
    NumberRangeTokens();
    EndTokens();
    ChainToks(NumberRange(), WordStreet(), false, false, true, 1, 3);
    ChainToks(NumberRange() + WordStreet(), [End], false, true, true, 4, 0);
  }

  lemma {:induction false} IntersectionTokens()
    ensures Tokenised(FixedIntersectionPattern()) && PToks(FixedIntersectionPattern(), false) == 7
  {
    WordStreetTokens();
    AmpGapTokens();
    SecondStreetTailTokens();
    ChainToks(WordStreet(), AmpGap(), false, true, false, 3, 1);
    ChainToks(WordStreet() + AmpGap(), SecondStreetTail(), false, false, true, 4, 3);
  }

  /** One more `\s+&\s+` and two-word street after a tokenised prefix ending on a non-space. */
  lemma {:induction false} AmpStreetTokens(a: seq<Seg>, n: nat)
    requires Tokenised(a) && PToks(a, false) == n && PLast(a, false)
    ensures Tokenised(a + AmpGap() + WordStreet())
    ensures PToks(a + AmpGap() + WordStreet(), false) == n + 4 && PLast(a + AmpGap() + WordStreet(), false)
  {
    WordStreetTokens();
    AmpGapTokens();
    ChainToks(a, AmpGap(), false, true, false, n, 1);
    ChainToks(a + AmpGap(), WordStreet(), false, false, true, n + 1, 3);
  }

  lemma {:induction false} AlleyTokens()
    ensures Tokenised(FixedAlleyPattern()) && PToks(FixedAlleyPattern(), false) == 15
  {
    var w := WordStreet();
    WordStreetTokens();
    AmpStreetTokens(w, 3);
    AmpStreetTokens(w + AmpGap() + w, 7);
    AmpStreetTokens(w + AmpGap() + w + AmpGap() + w, 11);
    EndTokens();
    ChainToks(w + AmpGap() + w + AmpGap() + w + AmpGap() + w, [End], false, true, true, 15, 0);
  }

  lemma {:induction false} SegmentIntersectionsTokens()
    ensures Tokenised(WordSegmentPattern()) && PToks(WordSegmentPattern(), false) == 16
  {
    var w := WordStreet();
    WordStreetTokens();
    OnTokens();
    CloseFromTokens();
    WordParenToTokens();
    WordParenEndTokens();
    var a, b, c, d := OnOpen(), CloseFrom(), WordParenTo(), WordParenEnd();
    ChainFour(a, w, b, w, false, false, true, false, true, 1, 3, 1, 3);
    ChainFour(a + w + b + w, c, w, d, false, true, false, true, true, 8, 3, 3, 2);
  }

  lemma {:induction false} SegmentAddressIntersectionTokens()
    ensures Tokenised(FixedSegmentAddressIntersectionPattern()) && PToks(FixedSegmentAddressIntersectionPattern(), false) == 13
  {
    var w := WordStreet();
    WordStreetTokens();
    OnTokens();
    FromAddressToTokens();
    ParenEndTokens();
    var a, b, d := OnHead(), FromAddressTo(), ParenEnd();
    ChainToks(a, w, false, false, true, 1, 3);
    ChainToks(a + w, b, false, true, false, 4, 4);
    ChainToks(a + w + b, w, false, false, true, 8, 3);
    ChainToks(a + w + b + w, d, false, true, true, 11, 2);
  }

  lemma {:induction false} SegmentIntersectionAddressTokens()
    ensures Tokenised(FixedSegmentIntersectionAddressPattern()) && PToks(FixedSegmentIntersectionAddressPattern(), false) == 13
  {
    var w := WordStreet();
    WordStreetTokens();
    OnTokens();
    FromGapTokens();
    ParenToAddressTokens();
    var a, b, d := OnHead(), FromGap(), ParenToAddress();
    ChainToks(a, w, false, false, true, 1, 3);
    ChainToks(a + w, b, false, true, false, 4, 1);
    ChainToks(a + w + b, w, false, false, true, 5, 3);
    ChainToks(a + w + b + w, d, false, true, true, 8, 5);
  }

  /** The pattern of each format. */
  function FormatPattern(f: AddressFormat): seq<Seg> {
    match f
    case StreetAddress => FixedAddressPattern()
    case StreetAddressRange => FixedRangePattern()
    case Intersection => FixedIntersectionPattern()
    case Alley => FixedAlleyPattern()
    case StreetSegmentIntersections => WordSegmentPattern()
    case StreetSegmentAddressIntersection => FixedSegmentAddressIntersectionPattern()
    case StreetSegmentIntersectionAddress => FixedSegmentIntersectionAddressPattern()
  }

  /** A text the pattern of a format matches has the format's token count. */
  lemma {:induction false} FormatPatternTokens(f: AddressFormat, s: string)
    requires Matches(FormatPattern(f), s)
    ensures Tokens(s) == FormatTokens(f)
  {
    FormatPatternCounts(f);
    PatternEndsInEnd(f);
    MatchTokens(FormatPattern(f), s);
  }

  /** Every format's pattern is tokenised into the format's token count. */
  lemma {:induction false} FormatPatternCounts(f: AddressFormat)
    ensures Tokenised(FormatPattern(f)) && PToks(FormatPattern(f), false) == FormatTokens(f)
  {
    match f
    case StreetAddress => AddressTokens();
    case StreetAddressRange => RangeTokens();
    case Intersection => IntersectionTokens();
    case Alley => AlleyTokens();
    case StreetSegmentIntersections => SegmentIntersectionsTokens();
    case StreetSegmentAddressIntersection => SegmentAddressIntersectionTokens();
    case StreetSegmentIntersectionAddress => SegmentIntersectionAddressTokens();
  }

  lemma {:induction false} PatternEndsInEnd(f: AddressFormat)
    ensures FormatPattern(f) != [] && FormatPattern(f)[|FormatPattern(f)| - 1] == End
  {
  }

  /** Each table entry pairs a format with that format's pattern. */
  lemma {:induction false} TableEntry(table: seq<(AddressFormat, seq<Seg>)>, k: nat)
    requires table == AddressPatternTable() && k < |table|
    ensures table[k].1 == FormatPattern(table[k].0)
  {
  }

  /** The entry at index k: a text its pattern matches has the format's token count. */
  lemma {:induction false} EntryTokens(table: seq<(AddressFormat, seq<Seg>)>, s: string, k: nat)
    requires table == AddressPatternTable() && k < |table| && Matches(table[k].1, s)
    ensures Tokens(s) == FormatTokens(table[k].0)
  {
    TableEntry(table, k);
    FormatPatternTokens(table[k].0, s);
  }

  /** A text whose token count is not that of entry k's format does not match entry k's pattern. */
  lemma {:induction false} NotEntry(table: seq<(AddressFormat, seq<Seg>)>, s: string, k: nat)
    requires table == AddressPatternTable() && k < |table| && Tokens(s) != FormatTokens(table[k].0)
    ensures !Matches(table[k].1, s)
  {
    if Matches(table[k].1, s) {
      EntryTokens(table, s, k);
    }
  }

  /**
   * Each format fixes the number of whitespace-separated tokens: a street is always a
   * direction and two words, so a street with a longer name changes the count and the
   * text is no longer classified as that format.
   */
  lemma {:induction false} FormatFixesTokens(address: string)
    requires GetAddressFormat(address).Some?
    ensures Tokens(address) == FormatTokens(GetAddressFormat(address).value)
  {
    var table := AddressPatternTable();
    var k := FirstIndex(table, address);
    FirstIndexBounded(table, address);
    EntryTokens(table, address, k);
  }

  /**
   * Words joined by single spaces, such as "1640 N COTTAGE GROVE AVE": a format is
   * reported only for its own number of words (four for an address, so the five-word
   * address with a two-word name is not one).
   */
  lemma {:induction false} WordCountDecides(ws: seq<string>)
    requires forall k | 0 <= k < |ws| :: ws[k] != [] && forall c | 0 <= c < |ws[k]| :: !IsSpace(ws[k][c])
    ensures GetAddressFormat(Join(ws, ' ')).Some? ==> |ws| == FormatTokens(GetAddressFormat(Join(ws, ' ')).value)
  {
    JoinTokens(ws);
    if GetAddressFormat(Join(ws, ' ')).Some? {
      FormatFixesTokens(Join(ws, ' '));
    }
  }

  /** Single-space joined non-empty words without spaces make as many tokens as there are words. */
  lemma {:induction false} JoinTokens(ws: seq<string>)
    requires forall k | 0 <= k < |ws| :: ws[k] != [] && forall c | 0 <= c < |ws[k]| :: !IsSpace(ws[k][c])
    ensures Tokens(Join(ws, ' ')) == |ws|
  {
    if |ws| == 1 {
      ToksSolid(ws[0], false);
    } else if |ws| > 1 {
      var rest := Join(ws[1..], ' ');
      assert Join(ws, ' ') == ws[0] + ([' '] + rest);
      JoinTokens(ws[1..]);
      ToksSolid(ws[0], false);
      ToksAppend(ws[0], [' '] + rest, false);
      ToksAppend([' '], rest, true);
    }
  }

  /** No text matches both INTERSECTION (seven tokens) and ALLEY (fifteen). */
  lemma {:induction false} IntersectionExcludesAlley(address: string)
    ensures !(Matches(FixedIntersectionPattern(), address) && Matches(FixedAlleyPattern(), address))
  {
    if Matches(FixedIntersectionPattern(), address) && Matches(FixedAlleyPattern(), address) {
      IntersectionTokens();
      AlleyTokens();
      MatchTokens(FixedIntersectionPattern(), address);
      MatchTokens(FixedAlleyPattern(), address);
    }
  }

  /** So testing INTERSECTION first is harmless: an alley text is classified ALLEY. */
  lemma {:induction false} AlleyIsAlley(address: string)
    requires Matches(FixedAlleyPattern(), address)
    ensures GetAddressFormat(address) == Some(Alley)
  {
    FormatPatternTokens(Alley, address);
    AlleyFirst(AddressPatternTable(), address);
  }

  lemma {:induction false} AlleyFirst(table: seq<(AddressFormat, seq<Seg>)>, s: string)
    requires table == AddressPatternTable() && Matches(table[3].1, s) && Tokens(s) == 15
    ensures FirstMatch(table, s) == Some(Alley)
  {
    NotEntry(table, s, 0);
    NotEntry(table, s, 1);
    NotEntry(table, s, 2);
    FirstMatchAt(table, s, 3);
  }

  /** An intersection text is classified INTERSECTION. */
  lemma {:induction false} IntersectionIsIntersection(address: string)
    requires Matches(FixedIntersectionPattern(), address)
    ensures GetAddressFormat(address) == Some(Intersection)
  {
    FormatPatternTokens(Intersection, address);
    IntersectionFirst(AddressPatternTable(), address);
  }

  lemma {:induction false} IntersectionFirst(table: seq<(AddressFormat, seq<Seg>)>, s: string)
    requires table == AddressPatternTable() && Matches(table[2].1, s) && Tokens(s) == 7
    ensures FirstMatch(table, s) == Some(Intersection)
  {
    NotEntry(table, s, 0);
    NotEntry(table, s, 1);
    FirstMatchAt(table, s, 2);
  }

  /** No trimming: a text that starts with white space has no format. */
  lemma {:induction false} LeadingSpaceUnclassified(address: string)
    requires address != [] && IsSpace(address[0])
    ensures GetAddressFormat(address) == None
  {
    NoneStartsWithSpace(AddressPatternTable(), address);
  }

  lemma {:induction false} NoneStartsWithSpace(table: seq<(AddressFormat, seq<Seg>)>, s: string)
    requires table == AddressPatternTable() && s != [] && IsSpace(s[0])
    ensures FirstMatch(table, s) == None
  {
    forall k | 0 <= k < |table| ensures !Matches(table[k].1, s) {
      if Matches(table[k].1, s) {
        EntryStartsSolid(table, k);
        MatchStartsSolid(table[k].1, s);
      }
    }
  }

  /** Every pattern starts with a digit, a direction letter or "ON". */
  lemma {:induction false} EntryStartsSolid(table: seq<(AddressFormat, seq<Seg>)>, k: nat)
    requires table == AddressPatternTable() && k < |table|
    ensures table[k].1 != [] && Solid(table[k].1[0])
  {
  }

  // ---------------------------------------------------------------------------------
  // extract_address_range

  /** A text is classified STREET_SEGMENT_INTERSECTIONS exactly when the segment pattern matches it. */
  lemma {:induction false} SegmentIntersectionsIff(address: string)
    ensures GetAddressFormat(address) == Some(StreetSegmentIntersections) <==> Matches(WordSegmentPattern(), address)
  {
    if Matches(WordSegmentPattern(), address) {
      FormatPatternTokens(StreetSegmentIntersections, address);
      SegmentIntersectionsFirst(AddressPatternTable(), address);
    }
    SegmentIntersectionsOnly(AddressPatternTable(), address);
  }

  lemma {:induction false} SegmentIntersectionsFirst(table: seq<(AddressFormat, seq<Seg>)>, s: string)
    requires table == AddressPatternTable() && Matches(table[4].1, s) && Tokens(s) == 16
    ensures FirstMatch(table, s) == Some(StreetSegmentIntersections)
  {
    NotEntry(table, s, 0);
    NotEntry(table, s, 1);
    NotEntry(table, s, 2);
    NotEntry(table, s, 3);
    FirstMatchAt(table, s, 4);
  }

  /** Only the segment pattern's entry reports STREET_SEGMENT_INTERSECTIONS. */
  lemma {:induction false} SegmentIntersectionsOnly(table: seq<(AddressFormat, seq<Seg>)>, s: string)
    requires table == AddressPatternTable()
    ensures FirstMatch(table, s) == Some(StreetSegmentIntersections) ==> Matches(WordSegmentPattern(), s)
  {
    var k := FirstIndex(table, s);
    FirstIndexBounded(table, s);
    if k < |table| {
      TableEntry(table, k);
    } else {
      FirstIndexNone(table, s);
    }
  }

  /**
   * `extract_address_range(address)`: the regular expression and the strings of the
   * range extractor of the `src` classifier; (None, None) exactly when the text is not
   * classified STREET_SEGMENT_INTERSECTIONS.
   */
  function ExtractAddressRange(address: string): (r: Option<(string, string)>)
    ensures r.Some? <==> GetAddressFormat(address) == Some(StreetSegmentIntersections)
  {
    A.SegmentAddressRangeNone(address);
    SegmentIntersectionsIff(address);
    A.ExtractSegmentIntersectionsAddressRange(address)
  }
}
