/**
 * The street-phrase grammar shared by the location patterns: a direction letter, a
 * name and one of 22 street-type abbreviations, and the parsing steps that read one
 * such phrase inside a longer pattern.
 */
module Streets {
  import opened Regex

  /** The street-type abbreviations of the location patterns, in alternation order. */
  const Suffixes: seq<string> := ["AVE", "BLVD", "CRES", "CT", "DR", "ER", "EXPY", "HWY", "LN", "PKWY", "PL",
    "PLZ", "RD", "RL", "ROW", "SQ", "SR", "ST", "TER", "TOLL", "WAY", "XR"]

  /** The first letters of the abbreviations. */
  predicate IsSuffixInitial(c: char) {
    c == 'A' || c == 'B' || c == 'C' || c == 'D' || c == 'E' || c == 'H' || c == 'L' || c == 'P' ||
    c == 'R' || c == 'S' || c == 'T' || c == 'W' || c == 'X'
  }

  predicate IsUpper(c: char) { 'A' <= c <= 'Z' }

  /** The index in Suffixes of the first abbreviation that starts with c0 c1 (22 when none does). */
  function Slot(c0: char, c1: char): nat {
    if c0 == 'A' then 0 else if c0 == 'B' then 1
    else if c0 == 'C' then (if c1 == 'R' then 2 else 3)
    else if c0 == 'D' then 4 else if c0 == 'E' then (if c1 == 'R' then 5 else 6)
    else if c0 == 'H' then 7 else if c0 == 'L' then 8
    else if c0 == 'P' then (if c1 == 'K' then 9 else 10)
    else if c0 == 'R' then (if c1 == 'D' then 12 else if c1 == 'L' then 13 else 14)
    else if c0 == 'S' then (if c1 == 'Q' then 15 else if c1 == 'R' then 16 else 17)
    else if c0 == 'T' then (if c1 == 'E' then 18 else 19)
    else if c0 == 'W' then 20 else if c0 == 'X' then 21 else 22
  }

  lemma {:induction false} SuffixFacts()
    ensures |Suffixes| == 22 && Suffixes[10] == "PL" && Suffixes[11] == "PLZ"
    ensures forall k | 0 <= k < |Suffixes| :: |Suffixes[k]| >= 2
    ensures forall k, t | 0 <= k < |Suffixes| && 0 <= t < |Suffixes[k]| :: IsUpper(Suffixes[k][t])
    ensures forall k | 0 <= k < |Suffixes| && k != 11 :: Slot(Suffixes[k][0], Suffixes[k][1]) == k
    ensures Slot(Suffixes[11][0], Suffixes[11][1]) == 10
  {
  }

  lemma {:induction false} SuffixCaps(j: nat)
    requires j < |Suffixes|
    ensures Caps(Suffixes[j]) && |Suffixes[j]| >= 2
  {
    SuffixFacts();
  }

  lemma {:induction false} SuffixInitialsFact()
    ensures forall k | 0 <= k < |Suffixes| :: |Suffixes[k]| >= 2 && IsSuffixInitial(Suffixes[k][0])
  {
  }

  /**
   * An abbreviation other than PLZ that is not followed by another capital letter is the
   * only alternative of the suffix alternation present at i.
   */
  lemma {:induction false} SuffixEnds(s: string, i: nat, j: nat, e: nat)
    requires 0 <= j < |Suffixes| && j != 11 && HasAt(s, i, Suffixes[j]) && e == i + |Suffixes[j]|
    requires e == |s| || !IsUpper(s[e])
    ensures WordEnds(Suffixes, s, i) == [e]
  {
    SuffixFacts();
    var w := Suffixes[j];
    forall k | 0 <= k < |Suffixes| && k != j
      ensures !HasAt(s, i, Suffixes[k])
    {
      var v := Suffixes[k];
    }
    WordEndsSingle(Suffixes, s, i, j);
  }

  /** Suffix abbreviations start with a suffix initial only. */
  lemma {:induction false} NoSuffixAt(s: string, i: nat)
    requires i < |s| && !IsSuffixInitial(s[i])
    ensures WordEnds(Suffixes, s, i) == []
  {
    SuffixInitialsFact();
    forall k | 0 <= k < |Suffixes| ensures !HasAt(s, i, Suffixes[k]) {
      var v := Suffixes[k];
    }
    WordEndsNone(Suffixes, s, i);
  }

  /** `[NWES]\s(.*)\s{suffix}(?:|\s+[NWES])` with the name captured as group g. */
  function StreetPhrase(g: nat): seq<Seg> {
    [One(Direction), One(Space), Open(g), Rep(NotNewline, 0, true), Close(g), One(Space), Words(Suffixes), OptDir]
  }

  /** The same phrase with a lazy name and an optional abbreviation: `[NWES]\s(.*?)(?:\s{suffix})?(?:|\s+[NWES])`. */
  function OptionalSuffixPhrase(g: nat): seq<Seg> {
    [One(Direction), One(Space), Open(g), Rep(NotNewline, 0, false), Close(g), OptSuffix(Suffixes), OptDir]
  }

  /** StreetPhrase(g) sits in p at index k. */
  predicate IsPhraseAt(p: seq<Seg>, k: nat, g: nat) {
    k + 8 <= |p| && p[k..k + 8] == StreetPhrase(g)
  }

  /** The segments of a street phrase at k, one by one. */
  predicate PhraseSegs(p: seq<Seg>, k: nat, g: nat) {
    k + 8 <= |p| && p[k] == One(Direction) && p[k + 1] == One(Space) && p[k + 2] == Open(g) &&
    p[k + 3] == Rep(NotNewline, 0, true) && p[k + 4] == Close(g) && p[k + 5] == One(Space) &&
    p[k + 6] == Words(Suffixes) && p[k + 7] == OptDir
  }

  /** OptionalSuffixPhrase(g) sits in p at index k. */
  predicate IsLazyPhraseAt(p: seq<Seg>, k: nat, g: nat) {
    k + 7 <= |p| && p[k] == One(Direction) && p[k + 1] == One(Space) && p[k + 2] == Open(g) &&
    p[k + 3] == Rep(NotNewline, 0, false) && p[k + 4] == Close(g) && p[k + 5] == OptSuffix(Suffixes) &&
    p[k + 6] == OptDir
  }

  lemma {:induction false} PhraseIn(pre: seq<Seg>, g: nat, post: seq<Seg>)
    ensures IsPhraseAt(pre + StreetPhrase(g) + post, |pre|, g)
  {
    var p := pre + StreetPhrase(g) + post;
    assert p[|pre|..|pre| + 8] == StreetPhrase(g);
  }

  /** The markers of group g sit at 2 and 4 of StreetPhrase(g); those of another group are absent. */
  lemma {:induction false} PhraseMarkers(g: nat, h: nat)
    ensures Find(StreetPhrase(g), Open(g)) == 2 && Find(StreetPhrase(g), Close(g)) == 4
    ensures h != g ==> Find(StreetPhrase(g), Open(h)) == 8 && Find(StreetPhrase(g), Close(h)) == 8
  {
    var p := StreetPhrase(g);
    FindAt(p, Open(g), 2);
    FindAt(p, Close(g), 4);
    if h != g {
      FindAbsent(p, Open(h));
      FindAbsent(p, Close(h));
    }
  }

  lemma {:induction false} PhraseSegsOf(p: seq<Seg>, k: nat, g: nat)
    requires IsPhraseAt(p, k, g)
    ensures PhraseSegs(p, k, g)
  {
    var h := StreetPhrase(g);
    assert p[k] == h[0] && p[k + 1] == h[1] && p[k + 2] == h[2] && p[k + 3] == h[3];
    assert p[k + 4] == h[4] && p[k + 5] == h[5] && p[k + 6] == h[6] && p[k + 7] == h[7];
  }

  lemma {:induction false} LazyPhraseIn(pre: seq<Seg>, g: nat, post: seq<Seg>)
    ensures IsLazyPhraseAt(pre + OptionalSuffixPhrase(g) + post, |pre|, g)
  {
  }

  /** The markers of group g sit at 2 and 4 of OptionalSuffixPhrase(g); those of another group are absent. */
  lemma {:induction false} LazyPhraseMarkers(g: nat, h: nat)
    ensures Find(OptionalSuffixPhrase(g), Open(g)) == 2 && Find(OptionalSuffixPhrase(g), Close(g)) == 4
    ensures h != g ==> Find(OptionalSuffixPhrase(g), Open(h)) == 7 && Find(OptionalSuffixPhrase(g), Close(h)) == 7
  {
    var p := OptionalSuffixPhrase(g);
    FindAt(p, Open(g), 2);
    FindAt(p, Close(g), 4);
    if h != g {
      FindAbsent(p, Open(h));
      FindAbsent(p, Close(h));
    }
  }

  /** A street written the canonical way: direction, name and abbreviation, single spaces. */
  function StreetText(d: char, name: string, w: string): string {
    [d] + " " + name + " " + w
  }

  /** Where the name of a street phrase starting at st ends. */
  function NameEnd(st: nat, name: string): nat { st + 2 + |name| }

  /** Where a street phrase starting at st ends. */
  function PhraseEnd(st: nat, name: string, w: string): nat { st + 3 + |name| + |w| }

  /**
   * The positions at which the eight segments of a street phrase from st start, when the
   * name is `name` and the abbreviation w: the parse of the phrase up to its end.
   */
  function PhraseSpan(st: nat, name: string, w: string): seq<nat> {
    var b, e := NameEnd(st, name), PhraseEnd(st, name, w);
    [st, st + 1, st + 2, st + 2, b, b, b + 1, e]
  }

  lemma {:induction false} SpanParts(st: nat, name: string, w: string)
    ensures var b, e := NameEnd(st, name), PhraseEnd(st, name, w);
      [st, st + 1, st + 2] + [st + 2] + [b, b, b + 1, e] == PhraseSpan(st, name, w)
  {
  }

  /** The parse of a phrase, step by step, followed by the parse r of what comes after it. */
  lemma {:induction false} SpanJoin(st: nat, name: string, w: string, r: seq<nat>)
    ensures var b, e := NameEnd(st, name), PhraseEnd(st, name, w);
      [st, st + 1, st + 2] + ([st + 2] + ([b, b, b + 1, e] + r)) == PhraseSpan(st, name, w) + r
  {
    var b, e := NameEnd(st, name), PhraseEnd(st, name, w);
    Assoc([st, st + 1, st + 2], [st + 2], [b, b, b + 1, e] + r);
    Assoc([st, st + 1, st + 2] + [st + 2], [b, b, b + 1, e], r);
    SpanParts(st, name, w);
  }

  /**
   * s holds, from st, a direction letter, a space, the name (without a newline), a space
   * and the capital letters w.
   */
  predicate PhraseLayout(s: string, st: nat, name: string, w: string) {
    PhraseEnd(st, name, w) <= |s| &&
    IsDirection(s[st]) && s[st + 1] == ' ' && s[st + 2..NameEnd(st, name)] == name &&
    (forall c | st + 2 <= c < NameEnd(st, name) :: s[c] != '\n') &&
    s[NameEnd(st, name)] == ' ' && s[NameEnd(st, name) + 1..PhraseEnd(st, name, w)] == w &&
    (forall c | NameEnd(st, name) < c < PhraseEnd(st, name, w) :: IsUpper(s[c]) && !IsSpace(s[c]) && s[c] != '\n')
  }

  /** ... and w is the only abbreviation the suffix alternation can read there. */
  predicate PhraseParts(s: string, st: nat, name: string, w: string) {
    PhraseLayout(s, st, name, w) && WordEnds(Suffixes, s, NameEnd(st, name) + 1) == [PhraseEnd(st, name, w)]
  }

  predicate Caps(w: string) { forall t | 0 <= t < |w| :: IsUpper(w[t]) }

  /** w is one of the abbreviations, other than PLZ (whose prefix PL is tried first). */
  predicate Abbreviation(w: string) { exists j | 0 <= j < |Suffixes| :: Abbreviated(j) && Suffixes[j] == w }

  /** The suffixes that are written abbreviated: all but PLZ (index 11). */
  predicate Abbreviated(j: int) { 0 <= j < |Suffixes| && j != 11 }

  /**
   * s holds at st a street written the canonical way (StreetText), with a name without a
   * newline and an abbreviation w that is not followed by another capital letter.
   */
  predicate PhraseAt(s: string, st: nat, name: string, w: string) {
    PhraseEnd(st, name, w) <= |s| && IsDirection(s[st]) && '\n' !in name && Abbreviation(w) &&
    s[st..PhraseEnd(st, name, w)] == StreetText(s[st], name, w) &&
    (PhraseEnd(st, name, w) == |s| || !IsUpper(s[PhraseEnd(st, name, w)]))
  }

  lemma {:induction false} AbbreviationOf(j: nat)
    requires j < |Suffixes| && j != 11
    ensures Abbreviation(Suffixes[j])
  {
    assert Abbreviated(j);
  }

  /** A phrase that ends the text leaves an abbreviation letter, not a space, last. */
  lemma {:induction false} PhraseAtEnd(s: string, st: nat, name: string, w: string)
    requires PhraseAt(s, st, name, w) && PhraseEnd(st, name, w) == |s|
    ensures |s| > 0 && !IsSpace(s[|s| - 1])
  {
    PhraseAtParts(s, st, name, w);
    SuffixFacts();
    var j :| 0 <= j < |Suffixes| && Abbreviated(j) && Suffixes[j] == w;
    assert |w| >= 2;
    assert NameEnd(st, name) < |s| - 1;
  }

  lemma {:induction false} PhraseAtParts(s: string, st: nat, name: string, w: string)
    requires PhraseAt(s, st, name, w)
    ensures PhraseLayout(s, st, name, w)
    ensures WordEnds(Suffixes, s, NameEnd(st, name) + 1) == [PhraseEnd(st, name, w)]
  {
    var e := PhraseEnd(st, name, w);
    var j :| 0 <= j < |Suffixes| && Abbreviated(j) && Suffixes[j] == w;
    SuffixCaps(j);
    StreetTextLayout(s, st, name, w);
    SuffixEnds(s, NameEnd(st, name) + 1, j, e);
  }

  lemma {:induction false} StreetTextLayout(s: string, st: nat, name: string, w: string)
    requires PhraseEnd(st, name, w) <= |s| && IsDirection(s[st]) && '\n' !in name && Caps(w)
    requires s[st..PhraseEnd(st, name, w)] == StreetText(s[st], name, w)
    ensures PhraseLayout(s, st, name, w)
  {
    var b, e := NameEnd(st, name), PhraseEnd(st, name, w);
    var u := s[st..e];
    assert u == [s[st]] + " " + name + " " + w;
    assert s[st + 1] == u[1] && s[b] == u[b - st];
    assert s[st + 2..b] == u[2..b - st] == name;
    assert s[b + 1..e] == u[b - st + 1..] == w;
    forall c | st + 2 <= c < b ensures s[c] != '\n' {
      assert s[c] == name[c - st - 2];
    }
    forall c | b < c < e ensures IsUpper(s[c]) && !IsSpace(s[c]) && s[c] != '\n' {
      assert s[c] == w[c - b - 1];
    }
  }

  /**
   * The facts of a street with abbreviation j written at position |pre| of a text, when
   * the text goes on with something that cannot lengthen the abbreviation.
   */
  lemma {:induction false} StreetTextAt(s: string, pre: string, st: nat, d: char, name: string, j: nat, post: string)
    requires j < |Suffixes| && s == pre + StreetText(d, name, Suffixes[j]) + post && st == |pre|
    requires j != 11 && IsDirection(d) && '\n' !in name
    requires post == [] || !IsUpper(post[0])
    ensures PhraseAt(s, st, name, Suffixes[j])
  {
    AbbreviationOf(j);
    var w := Suffixes[j];
    var e := PhraseEnd(st, name, w);
    assert s[st..e] == StreetText(d, name, w);
    assert s[e..] == post;
    assert e < |s| ==> s[e] == s[e..][0];
  }

  /**
   * `)\s` then one of the words ws, then an empty `(?:|\s+[NWES])`, after a captured name
   * that ends at b, the word read up to e.
   */
  lemma {:induction false} SuffixTail(p: seq<Seg>, k: nat, s: string, b: nat, ws: seq<string>, e: nat, r: seq<nat>)
    requires k + 4 <= |p| && p[k].Close? && p[k + 1] == One(Space) && p[k + 2] == Words(ws) && p[k + 3] == OptDir
    requires b < e <= |s| && s[b] == ' ' && WordEnds(ws, s, b + 1) == [e]
    requires FirstParse(p[k + 4..], s, e) == Some(r)
    ensures FirstParse(p[k..], s, b) == Some([b, b, b + 1, e] + r)
  {
    OptDirEmpty(p, k + 3, s, e, r);
    SpaceSuffix(p, k + 1, s, b, ws, e, [e] + r);
    MarkAt(p, k, s, b, [b, b + 1] + ([e] + r));
    PrependPairTail(b, b, b + 1, e, r);
  }

  /** `\s` then one of the words ws at b, the word read up to e. */
  lemma {:induction false} SpaceSuffix(p: seq<Seg>, k: nat, s: string, b: nat, ws: seq<string>, e: nat, r: seq<nat>)
    requires k + 2 <= |p| && p[k] == One(Space) && p[k + 1] == Words(ws)
    requires b < e <= |s| && s[b] == ' ' && WordEnds(ws, s, b + 1) == [e]
    requires FirstParse(p[k + 2..], s, e) == Some(r)
    ensures FirstParse(p[k..], s, b) == Some([b, b + 1] + r)
  {
    WordsAt(p, k + 1, s, b + 1, e, r);
    assert InClass(Space, s[b]);
    OneAt(p, k, s, b, [b + 1] + r);
    Prepend2(b, b + 1, r);
  }

  /** `[NWES]\s` then the opening of group g, at st. */
  lemma {:induction false} HeadStep(p: seq<Seg>, k: nat, s: string, st: nat, u: seq<nat>)
    requires k + 3 <= |p| && p[k] == One(Direction) && p[k + 1] == One(Space) && p[k + 2].Open?
    requires st + 2 <= |s| && IsDirection(s[st]) && IsSpace(s[st + 1])
    requires FirstParse(p[k + 3..], s, st + 2) == Some(u)
    ensures FirstParse(p[k..], s, st) == Some([st, st + 1, st + 2] + u)
  {
    MarkAt(p, k + 2, s, st + 2, u);
    OneAt(p, k + 1, s, st + 1, [st + 2] + u);
    OneAt(p, k, s, st, [st + 1] + ([st + 2] + u));
    Prepend3(st, st + 1, st + 2, u);
  }

  /** The greedy `(.*)` from a: when every longer candidate end fails, the group ends at b. */
  lemma {:induction false} GreedyName(p: seq<Seg>, k: nat, s: string, a: nat, b: nat, t: seq<nat>, rest: seq<Seg>)
    requires k + 1 <= |p| && p[k] == Rep(NotNewline, 0, true) && rest == p[k + 1..]
    requires a <= b <= |s|
    requires forall c | a <= c < b :: s[c] != '\n'
    requires FirstParse(p[k + 1..], s, b) == Some(t)
    requires forall c | b < c <= RunEnd(NotNewline, s, a) :: Fails(rest, s, c)
    ensures FirstParse(p[k..], s, a) == Some([a] + t)
  {
    var R := RunEnd(NotNewline, s, a);
    DownSplit(R, b, a);
    DownMembers(R, b + 1);
    SkipAt(p, k, s, a, Down(R, b + 1), b, Down(b - 1, a), t, rest);
  }

  /**
   * A whole street phrase from st whose greedy name is the one written: every longer
   * candidate for the name leaves the rest of the pattern without a parse.
   */
  lemma {:induction false} GreedyPhrase(p: seq<Seg>, k: nat, g: nat, s: string, st: nat, name: string, w: string, r: seq<nat>, tail: seq<Seg>)
    requires PhraseSegs(p, k, g) && PhraseParts(s, st, name, w) && tail == p[k + 4..]
    requires FirstParse(p[k + 8..], s, PhraseEnd(st, name, w)) == Some(r)
    requires forall c | NameEnd(st, name) < c <= RunEnd(NotNewline, s, st + 2) :: Fails(tail, s, c)
    ensures FirstParse(p[k..], s, st) == Some(PhraseSpan(st, name, w) + r)
  {
    var b, e := NameEnd(st, name), PhraseEnd(st, name, w);
    var t := [b, b, b + 1, e] + r;
    GreedyNameSuffix(p, k, g, s, st, name, w, r, tail);
    assert IsSpace(s[st + 1]);
    HeadStep(p, k, s, st, [st + 2] + t);
    SpanJoin(st, name, w, r);
  }

  /** The name and abbreviation of a street phrase: the greedy name is the one written. */
  lemma {:induction false} GreedyNameSuffix(p: seq<Seg>, k: nat, g: nat, s: string, st: nat, name: string, w: string, r: seq<nat>,
                                            tail: seq<Seg>)
    requires PhraseSegs(p, k, g) && PhraseParts(s, st, name, w) && tail == p[k + 4..]
    requires FirstParse(p[k + 8..], s, PhraseEnd(st, name, w)) == Some(r)
    requires forall c | NameEnd(st, name) < c <= RunEnd(NotNewline, s, st + 2) :: Fails(tail, s, c)
    ensures var b, e := NameEnd(st, name), PhraseEnd(st, name, w);
      FirstParse(p[k + 3..], s, st + 2) == Some([st + 2] + ([b, b, b + 1, e] + r))
  {
    var b, e := NameEnd(st, name), PhraseEnd(st, name, w);
    PhraseSuffix(p, k, g, s, st, name, w, r);
    assert forall c | st + 2 <= c < b :: s[c] != '\n';
    GreedyName(p, k + 3, s, st + 2, b, [b, b, b + 1, e] + r, tail);
  }

  /** The abbreviation of a street phrase and what follows it. */
  lemma {:induction false} PhraseSuffix(p: seq<Seg>, k: nat, g: nat, s: string, st: nat, name: string, w: string, r: seq<nat>)
    requires PhraseSegs(p, k, g) && PhraseParts(s, st, name, w)
    requires FirstParse(p[k + 8..], s, PhraseEnd(st, name, w)) == Some(r)
    ensures var b, e := NameEnd(st, name), PhraseEnd(st, name, w);
      FirstParse(p[k + 4..], s, b) == Some([b, b, b + 1, e] + r)
  {
    var b, e := NameEnd(st, name), PhraseEnd(st, name, w);
    assert s[b] == ' ' && WordEnds(Suffixes, s, b + 1) == [e];
    SuffixTail(p, k + 4, s, b, Suffixes, e, r);
  }

  /** A name candidate ending at a space that no abbreviation follows fails. */
  lemma {:induction false} SpaceThenNoSuffix(p: seq<Seg>, k: nat, s: string, c: nat)
    requires k + 3 <= |p| && p[k].Close? && p[k + 1] == One(Space) && p[k + 2] == Words(Suffixes)
    requires c + 1 < |s| && IsSpace(s[c]) && !IsSuffixInitial(s[c + 1])
    ensures FirstParse(p[k..], s, c).None?
  {
    NoSuffixAt(s, c + 1);
    DeadAt(p, k + 2, s, c + 1);
    FailAt(p, k + 1, s, c, c + 1);
    FailAt(p, k, s, c, c);
  }

  /**
   * Longer candidates for a name that end inside the abbreviation, or at the single space
   * after it when the next character is no abbreviation's first letter, fail.
   */
  lemma {:induction false} SuffixWindow(p: seq<Seg>, k: nat, g: nat, s: string, st: nat, name: string, w: string, tail: seq<Seg>)
    requires PhraseSegs(p, k, g) && PhraseLayout(s, st, name, w) && tail == p[k + 4..]
    requires var e := PhraseEnd(st, name, w);
      e < |s| ==> s[e] == ' ' && e + 1 < |s| && !IsSuffixInitial(s[e + 1]) && !IsSpace(s[e + 1])
    ensures forall c | NameEnd(st, name) < c <= PhraseEnd(st, name, w) + 1 && c <= |s| :: Fails(tail, s, c)
  {
    var b, e := NameEnd(st, name), PhraseEnd(st, name, w);
    if e < |s| {
      SpaceThenNoSuffix(p, k + 4, s, e);
    }
    forall c | b < c <= e + 1 && c <= |s| && c != e
      ensures Fails(tail, s, c)
    {
      MarkThenOneFails(p, k + 4, s, c);
    }
    if e == |s| {
      MarkThenOneFails(p, k + 4, s, e);
    }
  }

  /** A character that is not a direction, a space, in the name or a capital letter is not in the phrase. */
  lemma {:induction false} StreetTextChars(d: char, name: string, j: nat, x: char)
    requires j < |Suffixes| && x != d && x != ' ' && x !in name && !IsUpper(x)
    ensures CountFrom(StreetText(d, name, Suffixes[j]), 0, x) == 0
  {
    SuffixFacts();
    var w := Suffixes[j];
    forall t | 0 <= t < |w| ensures w[t] != x {
    }
    var u := StreetText(d, name, w);
    assert u == [d] + " " + name + " " + w;
    assert x !in u;
    assert u[0..] == u;
    AbsentCountFrom(u, 0, x);
  }

  /** A street phrase that closes the pattern (`...{street_pattern}$`) reads the name as written. */
  lemma {:induction false} LastPhrase(p: seq<Seg>, k: nat, g: nat, s: string, st: nat, name: string, w: string)
    requires IsPhraseAt(p, k, g) && k + 9 == |p| && p[k + 8] == End
    requires PhraseAt(s, st, name, w) && PhraseEnd(st, name, w) == |s|
    ensures var e := PhraseEnd(st, name, w);
      FirstParse(p[k..], s, st) == Some(PhraseSpan(st, name, w) + [e, e])
  {
    var b, e := NameEnd(st, name), PhraseEnd(st, name, w);
    PhraseAtParts(s, st, name, w);
    PhraseSegsOf(p, k, g);
    EndStep(p, k + 8, s, e);
    SuffixWindow(p, k, g, s, st, name, w, p[k + 4..]);
    GreedyPhrase(p, k, g, s, st, name, w, [e, e], p[k + 4..]);
  }

  /**
   * After a street phrase followed by a space and a character that starts no
   * abbreviation, every longer name candidate fails when the rest of the pattern needs
   * more copies of some literal character x than the text holds after that character.
   */
  lemma {:induction false} LongerNamesFail(p: seq<Seg>, k: nat, g: nat, s: string, st: nat, name: string, w: string, x: char, tail: seq<Seg>)
    requires PhraseSegs(p, k, g) && PhraseLayout(s, st, name, w) && tail == p[k + 4..]
    requires var e := PhraseEnd(st, name, w);
      e + 1 < |s| && s[e] == ' ' && !IsSuffixInitial(s[e + 1]) && !IsSpace(s[e + 1])
    requires CountFrom(s, PhraseEnd(st, name, w) + 2, x) < LitCount(tail, x)
    ensures forall c | NameEnd(st, name) < c <= |s| :: Fails(tail, s, c)
  {
    SuffixWindow(p, k, g, s, st, name, w, tail);
    LaterFail(tail, s, PhraseEnd(st, name, w) + 2, x);
  }

  /** A street phrase followed by a space and a character that starts no abbreviation, as above. */
  lemma {:induction false} InnerPhrase(p: seq<Seg>, k: nat, g: nat, s: string, st: nat, name: string, w: string, r: seq<nat>, x: char)
    requires IsPhraseAt(p, k, g) && PhraseAt(s, st, name, w)
    requires var e := PhraseEnd(st, name, w);
      e + 1 < |s| && s[e] == ' ' && !IsSuffixInitial(s[e + 1]) && !IsSpace(s[e + 1])
    requires CountFrom(s, PhraseEnd(st, name, w) + 2, x) < LitCount(p[k + 4..], x)
    requires FirstParse(p[k + 8..], s, PhraseEnd(st, name, w)) == Some(r)
    ensures FirstParse(p[k..], s, st) == Some(PhraseSpan(st, name, w) + r)
  {
    var tail := p[k + 4..];
    PhraseAtParts(s, st, name, w);
    PhraseSegsOf(p, k, g);
    LongerNamesFail(p, k, g, s, st, name, w, x, tail);
    GreedyPhrase(p, k, g, s, st, name, w, r, tail);
  }
}
