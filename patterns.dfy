/**
 * The anchored location patterns of the format classifiers, written as segment
 * sequences over the street-phrase grammar, and the first parses of the texts each
 * pattern is written for.  A pattern is matched from position 0 (`^` is implicit in
 * `re.match`); group numbers are those of the Python pattern.
 */
module LocationPatterns {
  import opened Regex
  import opened Streets

  const Spaces0 := Rep(Space, 0, true)   // \s*
  const Spaces1 := Rep(Space, 1, true)   // \s+
  const Digits := Rep(Digit, 1, true)    // \d+

  /** `\s*&\s*` */
  function Amp(): seq<Seg> { [Spaces0, Text("&"), Spaces0] }

  /** `\s*\(\d+\s+[NWES]\)` */
  function Paren(): seq<Seg> { [Spaces0, Text("("), Digits, Spaces1, One(Direction), Text(")")] }

  /** `^\d+\s+{street_pattern}$`; group 1 is the name. */
  function StreetAddressPattern(): seq<Seg> {
    NumberHead() + StreetPhrase(1) + [End]
  }

  /** `\d+\s+` */
  function NumberHead(): seq<Seg> { [Digits, Spaces1] }

  /** `^(\d+)-(\d+)\s+({street_pattern})$`; groups 1 and 2 the numbers, 3 the phrase, 4 the name. */
  function AddressRangePattern(): seq<Seg> {
    RangeHead() + StreetPhrase(4) + RangeTail()
  }

  /** `(\d+)-(\d+)\s+(` */
  function RangeHead(): seq<Seg> { [Open(1), Digits, Close(1), Text("-"), Open(2), Digits, Close(2), Spaces1, Open(3)] }

  /** `)$` */
  function RangeTail(): seq<Seg> { [Close(3), End] }

  /** `^{street_pattern}\s*&\s*{street_pattern}$`; groups 1 and 2 the names. */
  function IntersectionPattern(): seq<Seg> {
    StreetPhrase(1) + Amp() + StreetPhrase(2) + [End]
  }

  /** Four street phrases joined by `\s*&\s*`; groups 1 to 4 the names. */
  function AlleyPattern(): seq<Seg> {
    StreetPhrase(1) + Amp() + StreetPhrase(2) + Amp() + StreetPhrase(3) + Amp() + StreetPhrase(4) + [End]
  }

  /** The same with lazy names and optional abbreviations. */
  function LazyAlleyPattern(): seq<Seg> {
    OptionalSuffixPhrase(1) + Amp() + OptionalSuffixPhrase(2) + Amp() + OptionalSuffixPhrase(3) + Amp()
    + OptionalSuffixPhrase(4) + [End]
  }

  /** `ON\s+` */
  function OnHead(): seq<Seg> { [Text("ON"), Spaces1] }

  /** `ON\s+(` */
  function OnOpen(): seq<Seg> { [Text("ON"), Spaces1, Open(1)] }

  /** `\s+FROM\s+` */
  function FromWord(): seq<Seg> { [Spaces1, Text("FROM"), Spaces1] }

  /** `)\s+FROM\s+` */
  function CloseFrom(): seq<Seg> { [Close(1), Spaces1, Text("FROM"), Spaces1] }

  /** `\s*TO\s+` */
  function ToWord(): seq<Seg> { [Spaces0, Text("TO"), Spaces1] }

  /**
   * `^ON\s+{sp}\s+FROM\s+{sp}\s*\(\d+\s+[NWES]\)\s*TO\s+{sp}\s*\(\d+\s+[NWES]\)$`;
   * groups 1 to 3 the primary and the two cross names.
   */
  function SegmentIntersectionsPattern(): seq<Seg> {
    OnHead() + StreetPhrase(1) + FromWord() + StreetPhrase(2) + Paren() + ToWord() + StreetPhrase(3) + Paren() + [End]
  }

  /** `)\s+FROM\s+(\d+)\s+[NWES]\s+TO\s+`, the FROM number being group 3. */
  function FromNumberTo(): seq<Seg> {
    [Close(1), Spaces1, Text("FROM"), Spaces1, Open(3), Digits, Close(3), Spaces1, One(Direction), Spaces1, Text("TO"), Spaces1]
  }

  /**
   * `^ON\s+({sp})\s+FROM\s+(\d+)\s+[NWES]\s+TO\s+{sp}\s*\(\d+\s+[NWES]\)$`; group 1 the
   * primary phrase, 2 its name, 3 the FROM number, 4 the cross name.
   */
  function SegmentAddressIntersectionPattern(): seq<Seg> {
    OnOpen() + StreetPhrase(2) + FromNumberTo() + StreetPhrase(4) + Paren() + [End]
  }

  /** `)\s+FROM\s+\d+\s+[NWES]\s+TO\s+` */
  function FromAnyNumberTo(): seq<Seg> {
    [Close(1), Spaces1, Text("FROM"), Spaces1, Digits, Spaces1, One(Direction), Spaces1, Text("TO"), Spaces1]
  }

  /** `\s*\((\d+)\s+[NWES]\)`, the number being group g. */
  function ParenGroup(g: nat): seq<Seg> {
    [Spaces0, Text("("), Open(g), Digits, Close(g), Spaces1, One(Direction), Text(")")]
  }

  /**
   * `^ON\s+({sp})\s+FROM\s+\d+\s+[NWES]\s+TO\s+{sp}\s*\((\d+)\s+[NWES]\)$`; group 1 the
   * primary phrase, 2 its name, 3 the cross name, 4 the parenthesised number.
   */
  function SegmentAddressIntersectionPatternB(): seq<Seg> {
    OnOpen() + StreetPhrase(2) + FromAnyNumberTo() + StreetPhrase(3) + ParenGroup(4) + [End]
  }

  /** `\s+TO\s+(\d+)\s+[NWES]$`, the TO number being group 4. */
  function ToNumber(): seq<Seg> {
    [Spaces1, Text("TO"), Spaces1, Open(4), Digits, Close(4), Spaces1, One(Direction), End]
  }

  /**
   * `^ON\s+({sp})\s+FROM\s+{sp}\s*\(\d+\s+[NWES]\)\s+TO\s+(\d+)\s+[NWES]$`; group 1 the
   * primary phrase, 2 its name, 3 the cross name, 4 the TO number.
   */
  function SegmentIntersectionAddressPattern(): seq<Seg> {
    OnOpen() + StreetPhrase(2) + CloseFrom() + StreetPhrase(3) + Paren() + ToNumber()
  }

  /** `\s+TO\s+\d+\s+[NWES]$` */
  function ToAnyNumber(): seq<Seg> {
    [Spaces1, Text("TO"), Spaces1, Digits, Spaces1, One(Direction), End]
  }

  /**
   * `^ON\s+({sp})\s+FROM\s+{sp}\s*\((\d+)\s+[NWES]\)\s+TO\s+\d+\s+[NWES]$`; group 1 the
   * primary phrase, 2 its name, 3 the cross name, 4 the parenthesised number.
   */
  function SegmentIntersectionAddressPatternB(): seq<Seg> {
    OnOpen() + StreetPhrase(2) + CloseFrom() + StreetPhrase(3) + ParenGroup(4) + ToAnyNumber()
  }

  /** `[NWES]\s+\w+\s+\w+`: a street of exactly two words. */
  function WordStreet(): seq<Seg> {
    [One(Direction), Spaces1, Rep(Word, 1, true), Spaces1, Rep(Word, 1, true)]
  }

  /** `\s+\((\d+)\s+[NWES]\)\s+TO\s+`, the number being group 2. */
  function WordParenTo(): seq<Seg> {
    [Spaces1, Text("("), Open(2), Digits, Close(2), Spaces1, One(Direction), Text(")"), Spaces1, Text("TO"), Spaces1]
  }

  /** `\s+\((\d+)\s+[NWES]\)$`, the number being group 3. */
  function WordParenEnd(): seq<Seg> {
    [Spaces1, Text("("), Open(3), Digits, Close(3), Spaces1, One(Direction), Text(")"), End]
  }

  /**
   * `^ON\s+([NWES]\s+\w+\s+\w+)\s+FROM\s+[NWES]\s+\w+\s+\w+\s+\((\d+)\s+[NWES]\)\s+TO\s+[NWES]\s+\w+\s+\w+\s+\((\d+)\s+[NWES]\)$`;
   * group 1 the primary street, 2 and 3 the parenthesised numbers.
   */
  function WordSegmentPattern(): seq<Seg> {
    OnOpen() + WordStreet() + CloseFrom() + WordStreet() + WordParenTo() + WordStreet() + WordParenEnd()
  }

  /** A street this grammar reads back: direction letter, name without a newline, abbreviation j (not PLZ). */
  predicate ValidStreet(d: char, name: string, j: nat) {
    IsDirection(d) && j < |Suffixes| && j != 11 && '\n' !in name
  }

  function IntersectionText(d1: char, n1: string, j1: nat, d2: char, n2: string, j2: nat): string
    requires j1 < |Suffixes| && j2 < |Suffixes|
  {
    StreetText(d1, n1, Suffixes[j1]) + " & " + StreetText(d2, n2, Suffixes[j2])
  }

  /** `\s*&\s*` over a single space, the ampersand and a single space. */
  lemma {:induction false} AmpStep(p: seq<Seg>, k: nat, s: string, e: nat, r: seq<nat>)
    requires k + 3 <= |p| && p[k] == Spaces0 && p[k + 1] == Text("&") && p[k + 2] == Spaces0
    requires e + 3 < |s| && s[e] == ' ' && s[e + 1] == '&' && s[e + 2] == ' ' && !IsSpace(s[e + 3])
    requires FirstParse(p[k + 3..], s, e + 3) == Some(r)
    ensures FirstParse(p[k..], s, e) == Some([e, e + 1, e + 2] + r)
  {
    AmpRest(p, k + 1, s, e + 1, r);
    RunStep(p, k, s, e, e + 1, [e + 1, e + 2] + r);
    PrependPair(e, e + 1, e + 2, r);
  }

  /** `&\s*` over the ampersand and a single space. */
  lemma {:induction false} AmpRest(p: seq<Seg>, k: nat, s: string, e: nat, r: seq<nat>)
    requires k + 2 <= |p| && p[k] == Text("&") && p[k + 1] == Spaces0
    requires e + 2 < |s| && s[e] == '&' && s[e + 1] == ' ' && !IsSpace(s[e + 2])
    requires FirstParse(p[k + 2..], s, e + 2) == Some(r)
    ensures FirstParse(p[k..], s, e) == Some([e, e + 1] + r)
  {
    RunStep(p, k + 1, s, e + 1, e + 2, r);
    assert s[e..e + 1] == [s[e]];
    TextStep(p, k, s, e, [e + 1] + r);
    Prepend2(e, e + 1, r);
  }

  lemma {:induction false} IntersectionShape()
    ensures IsIntersectionShape(IntersectionPattern())
  {
    var p := IntersectionPattern();
    PhraseIn([], 1, Amp() + StreetPhrase(2) + [End]);
    assert [] + StreetPhrase(1) + (Amp() + StreetPhrase(2) + [End]) == p;
    PhraseIn(StreetPhrase(1) + Amp(), 2, [End]);
  }

  /** The characters of the " & " between two texts. */
  lemma {:induction false} JoinChars(s: string, t1: string, t2: string)
    requires s == t1 + " & " + t2
    ensures s[|t1|] == ' ' && s[|t1| + 1] == '&' && s[|t1| + 2] == ' '
  {
    var pre := t1 + " & ";
    assert s[|t1|] == pre[|t1|] && s[|t1| + 1] == pre[|t1| + 1] && s[|t1| + 2] == pre[|t1| + 2];
  }

  /** What follows the '&' of " & " holds as many x as the second text, for x other than a space. */
  lemma {:induction false} JoinCount(s: string, t1: string, t2: string, x: char)
    requires s == t1 + " & " + t2 && x != ' '
    ensures CountFrom(s, |t1| + 2, x) == CountFrom(t2, 0, x)
  {
    JoinChars(s, t1, t2);
    CountFromAppend(t1 + " & ", t2, 0, x);
  }

  /** The facts of a street written after a first one t1 and " & ". */
  lemma {:induction false} SecondStreetFacts(s: string, t1: string, d2: char, n2: string, j2: nat)
    requires ValidStreet(d2, n2, j2) && '&' !in n2 && s == t1 + " & " + StreetText(d2, n2, Suffixes[j2])
    ensures var st2 := |t1| + 3;
      PhraseAt(s, st2, n2, Suffixes[j2]) && PhraseEnd(st2, n2, Suffixes[j2]) == |s| &&
      s[|t1|] == ' ' && s[|t1| + 1] == '&' && s[|t1| + 2] == ' ' && CountFrom(s, |t1| + 2, '&') == 0
  {
    var t2 := StreetText(d2, n2, Suffixes[j2]);
    StreetTextAt(s, t1 + " & ", |t1| + 3, d2, n2, j2, []);
    JoinChars(s, t1, t2);
    StreetTextChars(d2, n2, j2, '&');
    JoinCount(s, t1, t2, '&');
  }

  /** The facts of the text of two streets joined by " & ". */
  lemma {:induction false} IntersectionTextFacts(d1: char, n1: string, j1: nat, d2: char, n2: string, j2: nat)
    requires ValidStreet(d1, n1, j1) && ValidStreet(d2, n2, j2) && '&' !in n2
    ensures var s := IntersectionText(d1, n1, j1, d2, n2, j2);
      var e1 := PhraseEnd(0, n1, Suffixes[j1]);
      PhraseAt(s, 0, n1, Suffixes[j1]) && PhraseAt(s, e1 + 3, n2, Suffixes[j2]) &&
      PhraseEnd(e1 + 3, n2, Suffixes[j2]) == |s| &&
      s[e1] == ' ' && s[e1 + 1] == '&' && s[e1 + 2] == ' ' && CountFrom(s, e1 + 2, '&') == 0
  {
    var t1, t2 := StreetText(d1, n1, Suffixes[j1]), StreetText(d2, n2, Suffixes[j2]);
    var s := IntersectionText(d1, n1, j1, d2, n2, j2);
    assert s == [] + t1 + (" & " + t2);
    StreetTextAt(s, [], 0, d1, n1, j1, " & " + t2);
    SecondStreetFacts(s, t1, d2, n2, j2);
  }

  /** The layout of the intersection pattern, as the parse steps use it. */
  predicate IsIntersectionShape(p: seq<Seg>) {
    |p| == 20 && IsPhraseAt(p, 0, 1) && IsPhraseAt(p, 11, 2) && p[8] == Spaces0 && p[9] == Text("&") &&
    p[10] == Spaces0 && p[19] == End
  }

  /** `\s*&\s*` and the second street phrase, from the end e1 of the first. */
  lemma {:induction false} IntersectionTail(p: seq<Seg>, s: string, e1: nat, n2: string, w2: string)
    requires IsIntersectionShape(p)
    requires PhraseAt(s, e1 + 3, n2, w2) && PhraseEnd(e1 + 3, n2, w2) == |s|
    requires s[e1] == ' ' && s[e1 + 1] == '&' && s[e1 + 2] == ' '
    ensures FirstParse(p[8..], s, e1) == Some([e1, e1 + 1, e1 + 2] + (PhraseSpan(e1 + 3, n2, w2) + [|s|, |s|]))
  {
    AmpLast(p, 8, s, e1, n2, w2);
  }

  /** `\s*&\s*` at k and the street phrase (group 2) that closes the pattern. */
  lemma {:induction false} AmpLast(p: seq<Seg>, k: nat, s: string, e1: nat, n2: string, w2: string)
    requires k + 12 == |p| && p[k] == Spaces0 && p[k + 1] == Text("&") && p[k + 2] == Spaces0
    requires IsPhraseAt(p, k + 3, 2) && p[k + 11] == End
    requires PhraseAt(s, e1 + 3, n2, w2) && PhraseEnd(e1 + 3, n2, w2) == |s|
    requires s[e1] == ' ' && s[e1 + 1] == '&' && s[e1 + 2] == ' '
    ensures FirstParse(p[k..], s, e1) == Some([e1, e1 + 1, e1 + 2] + (PhraseSpan(e1 + 3, n2, w2) + [|s|, |s|]))
  {
    var st2, e2 := e1 + 3, |s|;
    LastPhrase(p, k + 3, 2, s, st2, n2, w2);
    AmpStep(p, k, s, e1, PhraseSpan(st2, n2, w2) + [e2, e2]);
  }

  /** The first street phrase of the intersection pattern, when the rest parses from its end e1 as r. */
  lemma {:induction false} IntersectionHead(p: seq<Seg>, s: string, n1: string, w1: string, r: seq<nat>)
    requires IsIntersectionShape(p) && PhraseAt(s, 0, n1, w1)
    requires var e1 := PhraseEnd(0, n1, w1);
      e1 + 3 < |s| && s[e1] == ' ' && s[e1 + 1] == '&' && CountFrom(s, e1 + 2, '&') == 0 &&
      FirstParse(p[8..], s, e1) == Some(r)
    ensures FirstParse(p, s, 0) == Some(PhraseSpan(0, n1, w1) + r)
  {
    assert p[0..] == p;
    PhraseBeforeAmp(p, 0, 1, s, 0, n1, w1, r);
  }

  /** A street phrase (group g) at k, followed in the pattern by `\s*&` and in the text by " &" and no further '&'. */
  lemma {:induction false} PhraseBeforeAmp(p: seq<Seg>, k: nat, g: nat, s: string, st: nat, n1: string, w1: string, r: seq<nat>)
    requires IsPhraseAt(p, k, g) && k + 9 < |p| && p[k + 9] == Text("&") && PhraseAt(s, st, n1, w1)
    requires var e1 := PhraseEnd(st, n1, w1);
      e1 + 3 < |s| && s[e1] == ' ' && s[e1 + 1] == '&' && CountFrom(s, e1 + 2, '&') == 0 &&
      FirstParse(p[k + 8..], s, e1) == Some(r)
    ensures FirstParse(p[k..], s, st) == Some(PhraseSpan(st, n1, w1) + r)
  {
    LitAt(p, k + 4, k + 9, '&');
    InnerPhrase(p, k, g, s, st, n1, w1, r, '&');
  }

  /** The first parse of the intersection pattern on a text laid out as two street phrases. */
  lemma {:induction false} IntersectionParseAt(p: seq<Seg>, s: string, n1: string, w1: string, n2: string, w2: string)
    requires IsIntersectionShape(p)
    requires var e1 := PhraseEnd(0, n1, w1);
      PhraseAt(s, 0, n1, w1) && PhraseAt(s, e1 + 3, n2, w2) && PhraseEnd(e1 + 3, n2, w2) == |s| &&
      s[e1] == ' ' && s[e1 + 1] == '&' && s[e1 + 2] == ' ' && CountFrom(s, e1 + 2, '&') == 0
    ensures var e1 := PhraseEnd(0, n1, w1);
      FirstParse(p, s, 0) == Some(PhraseSpan(0, n1, w1) + ([e1, e1 + 1, e1 + 2] + (PhraseSpan(e1 + 3, n2, w2) + [|s|, |s|])))
  {
    var e1 := PhraseEnd(0, n1, w1);
    IntersectionTail(p, s, e1, n2, w2);
    IntersectionHead(p, s, n1, w1, [e1, e1 + 1, e1 + 2] + (PhraseSpan(e1 + 3, n2, w2) + [|s|, |s|]));
  }

  /** The name of a street phrase is the text between its two spaces. */
  lemma {:induction false} PhraseName(s: string, st: nat, name: string, w: string)
    requires PhraseAt(s, st, name, w)
    ensures st + 2 <= NameEnd(st, name) <= |s| && s[st + 2..NameEnd(st, name)] == name
  {
    PhraseAtParts(s, st, name, w);
  }

  /** `\s*&\s*` holds no group marker. */
  lemma {:induction false} AmpMarkers(g: nat)
    ensures Find(Amp(), Open(g)) == 3 && Find(Amp(), Close(g)) == 3
  {
    var m := Amp();
    assert m[0].Rep? && m[1].Text? && m[2].Rep?;
    FindAbsent(m, Open(g));
    FindAbsent(m, Close(g));
  }

  /** Where the group markers of the intersection pattern sit. */
  lemma {:induction false} IntersectionMarkers()
    ensures var p := IntersectionPattern();
      Find(p, Open(1)) == 2 && Find(p, Close(1)) == 4 && Find(p, Open(2)) == 13 && Find(p, Close(2)) == 15
  {
    var a, m, b, e := StreetPhrase(1), Amp(), StreetPhrase(2), [End];
    PhraseMarkers(1, 2);
    PhraseMarkers(2, 1);
    AmpMarkers(2);
    FindIn4(a, m, b, e, Open(1));
    FindIn4(a, m, b, e, Close(1));
    FindIn4(a, m, b, e, Open(2));
    FindIn4(a, m, b, e, Close(2));
  }

  /** The positions of the first parse of the intersection pattern on two street phrases. */
  function IntersectionSpan(n1: string, w1: string, n2: string, w2: string, len: nat): seq<nat> {
    var e1 := PhraseEnd(0, n1, w1);
    PhraseSpan(0, n1, w1) + ([e1, e1 + 1, e1 + 2] + (PhraseSpan(e1 + 3, n2, w2) + [len, len]))
  }

  /** `re.match` of the intersection pattern on two canonical streets joined by " & ". */
  lemma {:induction false} IntersectionMatch(d1: char, n1: string, j1: nat, d2: char, n2: string, j2: nat)
    requires ValidStreet(d1, n1, j1) && ValidStreet(d2, n2, j2) && '&' !in n2
    ensures var s := IntersectionText(d1, n1, j1, d2, n2, j2);
      Match(IntersectionPattern(), s) == Some(IntersectionSpan(n1, Suffixes[j1], n2, Suffixes[j2], |s|)) &&
      PhraseAt(s, 0, n1, Suffixes[j1]) && PhraseAt(s, PhraseEnd(0, n1, Suffixes[j1]) + 3, n2, Suffixes[j2])
  {
    var p, s := IntersectionPattern(), IntersectionText(d1, n1, j1, d2, n2, j2);
    IntersectionShape();
    IntersectionTextFacts(d1, n1, j1, d2, n2, j2);
    IntersectionParseAt(p, s, n1, Suffixes[j1], n2, Suffixes[j2]);
  }

  /**
   * Two canonical streets joined by " & ", the second without an ampersand in its name:
   * `match.group(1)` and `match.group(2)` of the intersection pattern are the two names.
   */
  lemma {:induction false} IntersectionGroups(d1: char, n1: string, j1: nat, d2: char, n2: string, j2: nat)
    requires ValidStreet(d1, n1, j1) && ValidStreet(d2, n2, j2) && '&' !in n2
    ensures var s := IntersectionText(d1, n1, j1, d2, n2, j2);
      MatchGroup(IntersectionPattern(), s, 1) == Some(n1) && MatchGroup(IntersectionPattern(), s, 2) == Some(n2)
  {
    var p, s := IntersectionPattern(), IntersectionText(d1, n1, j1, d2, n2, j2);
    var w1, w2 := Suffixes[j1], Suffixes[j2];
    var e1 := PhraseEnd(0, n1, w1);
    var q := IntersectionSpan(n1, w1, n2, w2, |s|);
    IntersectionMatch(d1, n1, j1, d2, n2, j2);
    IntersectionMarkers();
    IntersectionSpanAt(n1, w1, n2, w2, |s|);
    NameGroup(p, s, q, 1, 2, 4, 0, n1, w1);
    NameGroup(p, s, q, 2, 13, 15, e1 + 3, n2, w2);
  }

  /** The positions of the intersection span that bound the two names. */
  lemma {:induction false} IntersectionSpanAt(n1: string, w1: string, n2: string, w2: string, len: nat)
    ensures var q := IntersectionSpan(n1, w1, n2, w2, len); var e1 := PhraseEnd(0, n1, w1);
      |q| == 21 && q[2] == 2 && q[4] == NameEnd(0, n1) && q[13] == e1 + 5 && q[15] == NameEnd(e1 + 3, n2)
  {
  }

  /** The group bounded by the name of a street phrase is that name. */
  lemma {:induction false} NameGroup(p: seq<Seg>, s: string, q: seq<nat>, g: nat, o: nat, c: nat, st: nat, name: string, w: string)
    requires Match(p, s) == Some(q) && |q| == |p| + 1 && PhraseAt(s, st, name, w)
    requires Find(p, Open(g)) == o < |p| && Find(p, Close(g)) == c < |p|
    requires q[o] == st + 2 && q[c] == NameEnd(st, name)
    ensures MatchGroup(p, s, g) == Some(name)
  {
    PhraseName(s, st, name, w);
    GroupOf(p, s, q, g, o, c);
  }

  // ---------------------------------------------------------------------------------
  // Where the group markers sit.  Each piece is searched directly; a pattern is
  // searched piece by piece.

  lemma {:induction false} OnOpenMarkers()
    ensures var a := OnOpen();
      Find(a, Open(1)) == 2 && Find(a, Close(1)) == 3 && Find(a, Open(2)) == 3 && Find(a, Close(2)) == 3 &&
      Find(a, Open(3)) == 3 && Find(a, Close(3)) == 3 && Find(a, Open(4)) == 3 && Find(a, Close(4)) == 3
  {
  }

  lemma {:induction false} OnHeadMarkers()
    ensures var a := OnHead();
      Find(a, Open(1)) == 2 && Find(a, Close(1)) == 2 && Find(a, Open(2)) == 2 && Find(a, Close(2)) == 2 &&
      Find(a, Open(3)) == 2 && Find(a, Close(3)) == 2
  {
  }

  lemma {:induction false} WordMarkers()
    ensures Find(FromWord(), Open(2)) == 3 && Find(FromWord(), Close(2)) == 3
    ensures Find(FromWord(), Open(3)) == 3 && Find(FromWord(), Close(3)) == 3
    ensures Find(ToWord(), Open(3)) == 3 && Find(ToWord(), Close(3)) == 3
  {
  }

  lemma {:induction false} ParenMarkers()
    ensures Find(Paren(), Open(3)) == 6 && Find(Paren(), Close(3)) == 6
    ensures Find(Paren(), Open(4)) == 6 && Find(Paren(), Close(4)) == 6
  {
  }

  lemma {:induction false} FromNumberToMarkers()
    ensures var c := FromNumberTo();
      Find(c, Close(1)) == 0 && Find(c, Open(3)) == 4 && Find(c, Close(3)) == 6 &&
      Find(c, Open(4)) == 12 && Find(c, Close(4)) == 12
  {
  }

  lemma {:induction false} CloseFromMarkers()
    ensures var c := CloseFrom();
      Find(c, Close(1)) == 0 && Find(c, Open(2)) == 4 && Find(c, Close(2)) == 4 &&
      Find(c, Open(3)) == 4 && Find(c, Close(3)) == 4 && Find(c, Open(4)) == 4 && Find(c, Close(4)) == 4
  {
  }

  lemma {:induction false} ToNumberMarkers()
    ensures Find(ToNumber(), Open(4)) == 3 && Find(ToNumber(), Close(4)) == 5
  {
  }

  lemma {:induction false} RangeHeadMarkers()
    ensures var a := RangeHead();
      Find(a, Open(1)) == 0 && Find(a, Close(1)) == 2 && Find(a, Open(2)) == 4 && Find(a, Close(2)) == 6 &&
      Find(a, Open(3)) == 8 && Find(a, Close(3)) == 9 && Find(a, Open(4)) == 9 && Find(a, Close(4)) == 9
  {
  }

  lemma {:induction false} WordStreetMarkers()
    ensures var w := WordStreet();
      Find(w, Close(1)) == 5 && Find(w, Open(2)) == 5 && Find(w, Close(2)) == 5 && Find(w, Open(3)) == 5 && Find(w, Close(3)) == 5
  {
  }

  lemma {:induction false} WordParenMarkers()
    ensures Find(WordParenTo(), Open(2)) == 2 && Find(WordParenTo(), Close(2)) == 4
    ensures Find(WordParenTo(), Open(3)) == 11 && Find(WordParenTo(), Close(3)) == 11
    ensures Find(WordParenEnd(), Open(3)) == 2 && Find(WordParenEnd(), Close(3)) == 4
  {
  }

  /** Where the markers of the address range pattern sit. */
  lemma {:induction false} RangeMarkers()
    ensures var p := AddressRangePattern();
      Find(p, Open(1)) == 0 && Find(p, Close(1)) == 2 && Find(p, Open(2)) == 4 && Find(p, Close(2)) == 6 &&
      Find(p, Open(3)) == 8 && Find(p, Close(3)) == 17 && Find(p, Open(4)) == 11 && Find(p, Close(4)) == 13
  {
    var a, b, c := RangeHead(), StreetPhrase(4), RangeTail();
    RangeHeadMarkers();
    PhraseMarkers(4, 3);
    assert Find(c, Close(3)) == 0;
    FindIn4(a, b, c, [], Open(1));
    FindIn4(a, b, c, [], Close(1));
    FindIn4(a, b, c, [], Open(2));
    FindIn4(a, b, c, [], Close(2));
    FindIn4(a, b, c, [], Open(3));
    FindIn4(a, b, c, [], Close(3));
    FindIn4(a, b, c, [], Open(4));
    FindIn4(a, b, c, [], Close(4));
    assert a + b + c + [] == a + b + c;
  }

  /** Where the markers of group g of the greedy alley pattern sit. */
  lemma {:induction false} AlleyMarkers(g: nat)
    requires 1 <= g <= 4
    ensures var p := AlleyPattern();
      Find(p, Open(g)) == 11 * (g - 1) + 2 && Find(p, Close(g)) == 11 * (g - 1) + 4
  {
    AlleyMarker(g, Open(g), 2);
    AlleyMarker(g, Close(g), 4);
  }

  /** A marker of group g, at offset o of its phrase, sits that far into the g-th phrase of the greedy alley pattern. */
  lemma {:induction false} AlleyMarker(g: nat, x: Seg, o: nat)
    requires 1 <= g <= 4 && (x, o) in {(Open(g), 2), (Close(g), 4)}
    ensures Find(AlleyPattern(), x) == 11 * (g - 1) + o
  {
    PhraseMarkers(1, g);
    PhraseMarkers(2, g);
    PhraseMarkers(3, g);
    PhraseMarkers(4, g);
    AmpMarkers(g);
    AlleyFind(x);
  }

  /** The search of the greedy alley pattern for x, piece by piece. */
  lemma {:induction false} AlleyFind(x: Seg)
    ensures var a, b, c, d := StreetPhrase(1), Amp(), StreetPhrase(2), Amp();
      var e, f, h := StreetPhrase(3), Amp(), StreetPhrase(4);
      Find(AlleyPattern(), x) ==
        if Find(a, x) < |a| then Find(a, x)
        else if Find(b, x) < |b| then |a| + Find(b, x)
        else if Find(c, x) < |c| then |a| + |b| + Find(c, x)
        else if Find(d, x) < |d| then |a| + |b| + |c| + Find(d, x)
        else if Find(e, x) < |e| then |a| + |b| + |c| + |d| + Find(e, x)
        else if Find(f, x) < |f| then |a| + |b| + |c| + |d| + |e| + Find(f, x)
        else if Find(h, x) < |h| then |a| + |b| + |c| + |d| + |e| + |f| + Find(h, x)
        else |a| + |b| + |c| + |d| + |e| + |f| + |h| + Find([End], x)
  {
    var a, b, c, d, e, f := StreetPhrase(1), Amp(), StreetPhrase(2), Amp(), StreetPhrase(3), Amp();
    var h, i := StreetPhrase(4), [End];
    FindIn6(a, b, c, d, e, f, x);
    FindIn8(a, b, c, d, e, f, h, i, x);
  }

  /** Where the markers of group g of the lazy alley pattern sit, from the first three pieces on. */
  lemma {:induction false} LazyAlleyMarkers(g: nat)
    requires 1 <= g <= 4
    ensures var p := LazyAlleyPattern();
      Find(p, Open(g)) == 10 * (g - 1) + 2 && Find(p, Close(g)) == 10 * (g - 1) + 4
  {
    LazyAlleyMarker(g, Open(g), 2);
    LazyAlleyMarker(g, Close(g), 4);
  }

  /** A marker of group g, at offset o of its phrase, sits that far into the g-th phrase of the lazy alley pattern. */
  lemma {:induction false} LazyAlleyMarker(g: nat, x: Seg, o: nat)
    requires 1 <= g <= 4 && (x, o) in {(Open(g), 2), (Close(g), 4)}
    ensures Find(LazyAlleyPattern(), x) == 10 * (g - 1) + o
  {
    LazyPhraseMarkers(1, g);
    LazyPhraseMarkers(2, g);
    LazyPhraseMarkers(3, g);
    LazyPhraseMarkers(4, g);
    AmpMarkers(g);
    LazyAlleyFind(x);
  }

  /** The search of the lazy alley pattern for x, piece by piece. */
  lemma {:induction false} LazyAlleyFind(x: Seg)
    ensures var a, b, c, d := OptionalSuffixPhrase(1), Amp(), OptionalSuffixPhrase(2), Amp();
      var e, f, h := OptionalSuffixPhrase(3), Amp(), OptionalSuffixPhrase(4);
      Find(LazyAlleyPattern(), x) ==
        if Find(a, x) < |a| then Find(a, x)
        else if Find(b, x) < |b| then |a| + Find(b, x)
        else if Find(c, x) < |c| then |a| + |b| + Find(c, x)
        else if Find(d, x) < |d| then |a| + |b| + |c| + Find(d, x)
        else if Find(e, x) < |e| then |a| + |b| + |c| + |d| + Find(e, x)
        else if Find(f, x) < |f| then |a| + |b| + |c| + |d| + |e| + Find(f, x)
        else if Find(h, x) < |h| then |a| + |b| + |c| + |d| + |e| + |f| + Find(h, x)
        else |a| + |b| + |c| + |d| + |e| + |f| + |h| + Find([End], x)
  {
    var a, b, c, d, e, f := OptionalSuffixPhrase(1), Amp(), OptionalSuffixPhrase(2), Amp(), OptionalSuffixPhrase(3), Amp();
    var h, i := OptionalSuffixPhrase(4), [End];
    FindIn6(a, b, c, d, e, f, x);
    FindIn8(a, b, c, d, e, f, h, i, x);
  }

  /** Where the markers of the segment-intersections pattern sit. */
  lemma {:induction false} SegmentIntersectionsMarkers()
    ensures var p := SegmentIntersectionsPattern();
      Find(p, Open(1)) == 4 && Find(p, Close(1)) == 6 && Find(p, Open(2)) == 15 && Find(p, Close(2)) == 17 &&
      Find(p, Open(3)) == 32 && Find(p, Close(3)) == 34
  {
    OnHeadMarkers();
    WordMarkers();
    ParenMarkers();
    PhraseMarkers(1, 2);
    PhraseMarkers(1, 3);
    PhraseMarkers(2, 3);
    PhraseMarkers(3, 3);
    SegmentIntersectionsFind(Open(1));
    SegmentIntersectionsFind(Close(1));
    SegmentIntersectionsFind(Open(2));
    SegmentIntersectionsFind(Close(2));
    SegmentIntersectionsFind(Open(3));
    SegmentIntersectionsFind(Close(3));
  }

  /** The search of the segment-intersections pattern for x, piece by piece, when x occurs by the third phrase. */
  lemma {:induction false} SegmentIntersectionsFind(x: Seg)
    ensures var a, b, c, d, e, f := OnHead(), StreetPhrase(1), FromWord(), StreetPhrase(2), Paren(), ToWord();
      Find(SegmentIntersectionsPattern(), x) ==
        if Find(a, x) < 2 then Find(a, x)
        else if Find(b, x) < 8 then 2 + Find(b, x)
        else if Find(c, x) < 3 then 10 + Find(c, x)
        else if Find(d, x) < 8 then 13 + Find(d, x)
        else if Find(e, x) < 6 then 21 + Find(e, x)
        else if Find(f, x) < 3 then 27 + Find(f, x)
        else if Find(StreetPhrase(3), x) < 8 then 30 + Find(StreetPhrase(3), x)
        else 38 + Find(Paren() + [End], x)
  {
    var a, b, c, d, e, f := OnHead(), StreetPhrase(1), FromWord(), StreetPhrase(2), Paren(), ToWord();
    FindIn6(a, b, c, d, e, f, x);
    SegmentIntersectionsOuter(x);
  }

  /** The search of the segment-intersections pattern for x, its first six pieces taken together. */
  lemma {:induction false} SegmentIntersectionsOuter(x: Seg)
    ensures var a, b, c, d, e, f := OnHead(), StreetPhrase(1), FromWord(), StreetPhrase(2), Paren(), ToWord();
      Find(SegmentIntersectionsPattern(), x) ==
        if Find(a + b + c + d + e + f, x) < 30 then Find(a + b + c + d + e + f, x)
        else if Find(StreetPhrase(3), x) < 8 then 30 + Find(StreetPhrase(3), x)
        else 38 + Find(Paren() + [End], x)
  {
    var a, b, c, d, e, f := OnHead(), StreetPhrase(1), FromWord(), StreetPhrase(2), Paren(), ToWord();
    var h, i, j := StreetPhrase(3), Paren(), [End];
    FindIn8(a, b, c, d, e, f, h, i, x);
    FindAppend(a + b + c + d + e + f + h + i, j, x);
    FindAppend(i, j, x);
  }

  /** Where the markers of the segment address-intersection pattern sit. */
  lemma {:induction false} SegmentAddressIntersectionMarkers()
    ensures var p := SegmentAddressIntersectionPattern();
      Find(p, Open(1)) == 2 && Find(p, Close(1)) == 11 && Find(p, Open(2)) == 5 && Find(p, Close(2)) == 7 &&
      Find(p, Open(3)) == 15 && Find(p, Close(3)) == 17 && Find(p, Open(4)) == 25 && Find(p, Close(4)) == 27
  {
    SegmentAddressIntersectionHead();
    SegmentAddressIntersectionTail();
  }

  /** The segments around the groups of the segment address-intersection pattern. */
  lemma {:induction false} SegmentAddressIntersectionLayout()
    ensures var p := SegmentAddressIntersectionPattern();
      |p| == 38 && p[2] == Open(1) && p[3] == One(Direction) && p[5] == Open(2) && p[6].Rep? && p[7] == Close(2) &&
      p[15] == Open(3) && p[16] == Digits && p[17] == Close(3) && p[25] == Open(4) && p[26].Rep? && p[27] == Close(4)
  {
    SegmentAddressIntersectionLayoutHead();
    SegmentAddressIntersectionLayoutTail();
  }

  lemma {:induction false} SegmentAddressIntersectionLayoutHead()
    ensures var p := SegmentAddressIntersectionPattern(); |p| == 38 && p[2] == Open(1) && p[3] == One(Direction) && p[5] == Open(2) && p[6].Rep? && p[7] == Close(2)
  {
    var a, b, c, d, e, f := OnOpen(), StreetPhrase(2), FromNumberTo(), StreetPhrase(4), Paren(), [End];
    At6(a, b, c, d, e, f, 2);
    At6(a, b, c, d, e, f, 3);
    At6(a, b, c, d, e, f, 5);
    At6(a, b, c, d, e, f, 6);
    At6(a, b, c, d, e, f, 7);
  }

  lemma {:induction false} SegmentAddressIntersectionLayoutTail()
    ensures var p := SegmentAddressIntersectionPattern(); |p| == 38 && p[15] == Open(3) && p[16] == Digits && p[17] == Close(3) && p[25] == Open(4) && p[26].Rep? && p[27] == Close(4)
  {
    var a, b, c, d, e, f := OnOpen(), StreetPhrase(2), FromNumberTo(), StreetPhrase(4), Paren(), [End];
    At6(a, b, c, d, e, f, 15);
    At6(a, b, c, d, e, f, 16);
    At6(a, b, c, d, e, f, 17);
    At6(a, b, c, d, e, f, 25);
    At6(a, b, c, d, e, f, 26);
    At6(a, b, c, d, e, f, 27);
  }

  /** The segments around the groups of the segment intersection-address pattern. */
  lemma {:induction false} SegmentIntersectionAddressLayout()
    ensures var p := SegmentIntersectionAddressPattern();
      |p| == 38 && p[2] == Open(1) && p[3] == One(Direction) && p[5] == Open(2) && p[6].Rep? && p[7] == Close(2) &&
      p[17] == Open(3) && p[18].Rep? && p[19] == Close(3) && p[32] == Open(4) && p[33] == Digits && p[34] == Close(4)
  {
    SegmentIntersectionAddressLayoutHead();
    SegmentIntersectionAddressLayoutTail();
  }

  lemma {:induction false} SegmentIntersectionAddressLayoutHead()
    ensures var p := SegmentIntersectionAddressPattern(); |p| == 38 && p[2] == Open(1) && p[3] == One(Direction) && p[5] == Open(2) && p[6].Rep? && p[7] == Close(2)
  {
    var a, b, c, d, e, f := OnOpen(), StreetPhrase(2), CloseFrom(), StreetPhrase(3), Paren(), ToNumber();
    At6(a, b, c, d, e, f, 2);
    At6(a, b, c, d, e, f, 3);
    At6(a, b, c, d, e, f, 5);
    At6(a, b, c, d, e, f, 6);
    At6(a, b, c, d, e, f, 7);
  }

  lemma {:induction false} SegmentIntersectionAddressLayoutTail()
    ensures var p := SegmentIntersectionAddressPattern(); |p| == 38 && p[17] == Open(3) && p[18].Rep? && p[19] == Close(3) && p[32] == Open(4) && p[33] == Digits && p[34] == Close(4)
  {
    var a, b, c, d, e, f := OnOpen(), StreetPhrase(2), CloseFrom(), StreetPhrase(3), Paren(), ToNumber();
    At6(a, b, c, d, e, f, 17);
    At6(a, b, c, d, e, f, 18);
    At6(a, b, c, d, e, f, 19);
    At6(a, b, c, d, e, f, 32);
    At6(a, b, c, d, e, f, 33);
    At6(a, b, c, d, e, f, 34);
  }

  /** The segments around the groups of the two-word segment pattern. */
  lemma {:induction false} WordSegmentLayout()
    ensures var p := WordSegmentPattern();
      |p| == 42 && p[2] == Open(1) && p[3] == One(Direction) &&
      p[19] == Open(2) && p[20] == Digits && p[21] == Close(2) && p[35] == Open(3) && p[36] == Digits && p[37] == Close(3)
  {
    var a, b, c, d, e, f := OnOpen(), WordStreet(), CloseFrom(), WordStreet(), WordParenTo(), WordStreet();
    var h := WordParenEnd();
    At7(a, b, c, d, e, f, h, 2);
    At7(a, b, c, d, e, f, h, 3);
    At7(a, b, c, d, e, f, h, 19);
    At7(a, b, c, d, e, f, h, 20);
    At7(a, b, c, d, e, f, h, 21);
    At7(a, b, c, d, e, f, h, 35);
    At7(a, b, c, d, e, f, h, 36);
    At7(a, b, c, d, e, f, h, 37);
    At6(a, b, c, d, e, f, 2);
    At6(a, b, c, d, e, f, 3);
    At6(a, b, c, d, e, f, 19);
    At6(a, b, c, d, e, f, 20);
    At6(a, b, c, d, e, f, 21);
  }

  /** The segments around the groups of the address range pattern. */
  lemma {:induction false} AddressRangeLayout()
    ensures var p := AddressRangePattern();
      |p| == 19 && p[0] == Open(1) && p[1] == Digits && p[2] == Close(1) &&
      p[4] == Open(2) && p[5] == Digits && p[6] == Close(2) && p[8] == Open(3) && p[9] == One(Direction)
  {
  }

  lemma {:induction false} SegmentAddressIntersectionHead()
    ensures var p := SegmentAddressIntersectionPattern();
      Find(p, Open(1)) == 2 && Find(p, Close(1)) == 11 && Find(p, Open(2)) == 5 && Find(p, Close(2)) == 7
  {
    var a, b, c, d, e, f := OnOpen(), StreetPhrase(2), FromNumberTo(), StreetPhrase(4), Paren(), [End];
    OnOpenMarkers();
    FromNumberToMarkers();
    PhraseMarkers(2, 1);
    FindIn6(a, b, c, d, e, f, Open(1));
    FindIn6(a, b, c, d, e, f, Close(1));
    FindIn6(a, b, c, d, e, f, Open(2));
    FindIn6(a, b, c, d, e, f, Close(2));
  }

  lemma {:induction false} SegmentAddressIntersectionTail()
    ensures var p := SegmentAddressIntersectionPattern();
      Find(p, Open(3)) == 15 && Find(p, Close(3)) == 17 && Find(p, Open(4)) == 25 && Find(p, Close(4)) == 27
  {
    SegmentAddressIntersectionThird();
    SegmentAddressIntersectionFourth();
  }

  lemma {:induction false} SegmentAddressIntersectionThird()
    ensures var p := SegmentAddressIntersectionPattern(); Find(p, Open(3)) == 15 && Find(p, Close(3)) == 17
  {
    var a, b, c, d, e, f := OnOpen(), StreetPhrase(2), FromNumberTo(), StreetPhrase(4), Paren(), [End];
    OnOpenMarkers();
    FromNumberToMarkers();
    PhraseMarkers(2, 3);
    FindIn6(a, b, c, d, e, f, Open(3));
    FindIn6(a, b, c, d, e, f, Close(3));
  }

  lemma {:induction false} SegmentAddressIntersectionFourth()
    ensures var p := SegmentAddressIntersectionPattern(); Find(p, Open(4)) == 25 && Find(p, Close(4)) == 27
  {
    var a, b, c, d, e, f := OnOpen(), StreetPhrase(2), FromNumberTo(), StreetPhrase(4), Paren(), [End];
    OnOpenMarkers();
    FromNumberToMarkers();
    PhraseMarkers(2, 4);
    PhraseMarkers(4, 4);
    FindIn6(a, b, c, d, e, f, Open(4));
    FindIn6(a, b, c, d, e, f, Close(4));
  }

  /** Where the markers of the segment intersection-address pattern sit. */
  lemma {:induction false} SegmentIntersectionAddressMarkers()
    ensures var p := SegmentIntersectionAddressPattern();
      Find(p, Open(1)) == 2 && Find(p, Close(1)) == 11 && Find(p, Open(2)) == 5 && Find(p, Close(2)) == 7 &&
      Find(p, Open(3)) == 17 && Find(p, Close(3)) == 19 && Find(p, Open(4)) == 32 && Find(p, Close(4)) == 34
  {
    SegmentIntersectionAddressHead();
    SegmentIntersectionAddressTail();
  }

  lemma {:induction false} SegmentIntersectionAddressHead()
    ensures var p := SegmentIntersectionAddressPattern();
      Find(p, Open(1)) == 2 && Find(p, Close(1)) == 11 && Find(p, Open(2)) == 5 && Find(p, Close(2)) == 7
  {
    var a, b, c, d, e, f := OnOpen(), StreetPhrase(2), CloseFrom(), StreetPhrase(3), Paren(), ToNumber();
    OnOpenMarkers();
    CloseFromMarkers();
    PhraseMarkers(2, 1);
    FindIn6(a, b, c, d, e, f, Open(1));
    FindIn6(a, b, c, d, e, f, Close(1));
    FindIn6(a, b, c, d, e, f, Open(2));
    FindIn6(a, b, c, d, e, f, Close(2));
  }

  lemma {:induction false} SegmentIntersectionAddressTail()
    ensures var p := SegmentIntersectionAddressPattern();
      Find(p, Open(3)) == 17 && Find(p, Close(3)) == 19 && Find(p, Open(4)) == 32 && Find(p, Close(4)) == 34
  {
    SegmentIntersectionAddressThird();
    SegmentIntersectionAddressFourth();
  }

  lemma {:induction false} SegmentIntersectionAddressThird()
    ensures var p := SegmentIntersectionAddressPattern(); Find(p, Open(3)) == 17 && Find(p, Close(3)) == 19
  {
    var a, b, c, d, e, f := OnOpen(), StreetPhrase(2), CloseFrom(), StreetPhrase(3), Paren(), ToNumber();
    OnOpenMarkers();
    CloseFromMarkers();
    PhraseMarkers(2, 3);
    PhraseMarkers(3, 3);
    FindIn6(a, b, c, d, e, f, Open(3));
    FindIn6(a, b, c, d, e, f, Close(3));
  }

  lemma {:induction false} SegmentIntersectionAddressFourth()
    ensures var p := SegmentIntersectionAddressPattern(); Find(p, Open(4)) == 32 && Find(p, Close(4)) == 34
  {
    var a, b, c, d, e, f := OnOpen(), StreetPhrase(2), CloseFrom(), StreetPhrase(3), Paren(), ToNumber();
    OnOpenMarkers();
    CloseFromMarkers();
    ParenMarkers();
    ToNumberMarkers();
    PhraseMarkers(2, 4);
    PhraseMarkers(3, 4);
    FindIn6(a, b, c, d, e, f, Open(4));
    FindIn6(a, b, c, d, e, f, Close(4));
  }

  lemma {:induction false} ParenGroupMarkers()
    ensures Find(ParenGroup(4), Open(4)) == 2 && Find(ParenGroup(4), Close(4)) == 4
    ensures Find(FromAnyNumberTo(), Open(4)) == 10 && Find(FromAnyNumberTo(), Close(4)) == 10
  {
  }

  /** Group 4 of the second segment address-intersection pattern: the digits after its `(`. */
  lemma {:induction false} SegmentAddressIntersectionBMarkers()
    ensures var p := SegmentAddressIntersectionPatternB();
      |p| == 38 && p[30] == Text("(") && p[31] == Open(4) && p[32] == Digits && p[33] == Close(4) &&
      Find(p, Open(4)) == 31 && Find(p, Close(4)) == 33
  {
    SegmentAddressIntersectionBLayout();
    SegmentAddressIntersectionBFind();
  }

  lemma {:induction false} SegmentAddressIntersectionBLayout()
    ensures var p := SegmentAddressIntersectionPatternB();
      |p| == 38 && p[30] == Text("(") && p[31] == Open(4) && p[32] == Digits && p[33] == Close(4)
  {
    var a, b, c, d, e, f := OnOpen(), StreetPhrase(2), FromAnyNumberTo(), StreetPhrase(3), ParenGroup(4), [End];
    At6(a, b, c, d, e, f, 30);
    At6(a, b, c, d, e, f, 31);
    At6(a, b, c, d, e, f, 32);
    At6(a, b, c, d, e, f, 33);
  }

  lemma {:induction false} SegmentAddressIntersectionBFind()
    ensures var p := SegmentAddressIntersectionPatternB(); Find(p, Open(4)) == 31 && Find(p, Close(4)) == 33
  {
    var a, b, c, d, e, f := OnOpen(), StreetPhrase(2), FromAnyNumberTo(), StreetPhrase(3), ParenGroup(4), [End];
    OnOpenMarkers();
    ParenGroupMarkers();
    PhraseMarkers(2, 4);
    PhraseMarkers(3, 4);
    FindIn6(a, b, c, d, e, f, Open(4));
    FindIn6(a, b, c, d, e, f, Close(4));
  }

  /** Group 4 of the second segment intersection-address pattern: the digits after its `(`. */
  lemma {:induction false} SegmentIntersectionAddressBMarkers()
    ensures var p := SegmentIntersectionAddressPatternB();
      |p| == 38 && p[24] == Text("(") && p[25] == Open(4) && p[26] == Digits && p[27] == Close(4) &&
      Find(p, Open(4)) == 25 && Find(p, Close(4)) == 27
  {
    SegmentIntersectionAddressBLayout();
    SegmentIntersectionAddressBFind();
  }

  lemma {:induction false} SegmentIntersectionAddressBLayout()
    ensures var p := SegmentIntersectionAddressPatternB();
      |p| == 38 && p[24] == Text("(") && p[25] == Open(4) && p[26] == Digits && p[27] == Close(4)
  {
    var a, b, c, d, e, f := OnOpen(), StreetPhrase(2), CloseFrom(), StreetPhrase(3), ParenGroup(4), ToAnyNumber();
    At6(a, b, c, d, e, f, 24);
    At6(a, b, c, d, e, f, 25);
    At6(a, b, c, d, e, f, 26);
    At6(a, b, c, d, e, f, 27);
  }

  lemma {:induction false} SegmentIntersectionAddressBFind()
    ensures var p := SegmentIntersectionAddressPatternB(); Find(p, Open(4)) == 25 && Find(p, Close(4)) == 27
  {
    var a, b, c, d, e, f := OnOpen(), StreetPhrase(2), CloseFrom(), StreetPhrase(3), ParenGroup(4), ToAnyNumber();
    OnOpenMarkers();
    CloseFromMarkers();
    ParenGroupMarkers();
    PhraseMarkers(2, 4);
    PhraseMarkers(3, 4);
    FindIn6(a, b, c, d, e, f, Open(4));
    FindIn6(a, b, c, d, e, f, Close(4));
  }

  /** Where the markers of the two-word segment pattern sit. */
  lemma {:induction false} WordSegmentMarkers()
    ensures var p := WordSegmentPattern();
      Find(p, Open(1)) == 2 && Find(p, Close(1)) == 8 && Find(p, Open(2)) == 19 && Find(p, Close(2)) == 21 &&
      Find(p, Open(3)) == 35 && Find(p, Close(3)) == 37
  {
    var a, b, c, d, e, f := OnOpen(), WordStreet(), CloseFrom(), WordStreet(), WordParenTo(), WordStreet();
    var h := WordParenEnd();
    OnOpenMarkers();
    WordStreetMarkers();
    CloseFromMarkers();
    WordParenMarkers();
    var xs := [Open(1), Close(1), Open(2), Close(2), Open(3), Close(3)];
    forall x | x in xs
      ensures Find(a + b + c + d + e + f + h, x) ==
        if Find(a + b + c + d + e + f, x) < 33 then Find(a + b + c + d + e + f, x) else 33 + Find(h, x)
    {
      FindAppend(a + b + c + d + e + f, h, x);
    }
    FindIn6(a, b, c, d, e, f, Open(1));
    FindIn6(a, b, c, d, e, f, Close(1));
    FindIn6(a, b, c, d, e, f, Open(2));
    FindIn6(a, b, c, d, e, f, Close(2));
    FindIn6(a, b, c, d, e, f, Open(3));
    FindIn6(a, b, c, d, e, f, Close(3));
    assert Open(1) in xs && Close(1) in xs && Open(2) in xs && Close(2) in xs && Open(3) in xs && Close(3) in xs;
  }
}
