/**
 * The location entities of the top-level package: a street (direction, name, type)
 * compared on every field, an intersection of two streets and a numbered street
 * address, with their string renderings.  Dafny's datatype equality is the field-wise
 * dataclass equality of this revision.
 */
module Locations {
  import opened Text

  /** Positional order (direction, name, street_type), as `Street(direction, name, street_type)` relies on. */
  datatype Street = Street(direction: string, name: string, streetType: string)

  datatype Intersection = Intersection(street1: Street, street2: Street)

  datatype StreetAddress = StreetAddress(number: int, street: Street)

  /** `f"{direction} {name} {street_type}"`. */
  function StreetStr(s: Street): (r: string)
    ensures |r| == |s.direction| + |s.name| + |s.streetType| + 2
    ensures r[|s.direction|] == ' ' && r[|s.direction| + |s.name| + 1] == ' '
    ensures r[..|s.direction|] == s.direction && r[|r| - |s.streetType|..] == s.streetType
    ensures r[|s.direction| + 1..|s.direction| + 1 + |s.name|] == s.name
  {
    s.direction + " " + s.name + " " + s.streetType
  }

  /** `f"{street1} & {street2}"`. */
  function IntersectionStr(i: Intersection): string {
    StreetStr(i.street1) + " & " + StreetStr(i.street2)
  }

  /** `f"{number} {street}"`. */
  function AddressStr(a: StreetAddress): string {
    IntToString(a.number) + " " + StreetStr(a.street)
  }

  /** The direction and the type are single tokens, so the rendering can be split back. */
  predicate Tokenised(s: Street) {
    ' ' !in s.direction && ' ' !in s.streetType
  }

  /** Splitting a rendering on spaces gives the direction, the words of the name and the type. */
  lemma {:induction false} StreetStrSplit(s: Street)
    requires Tokenised(s)
    ensures Split(StreetStr(s), ' ') == [s.direction] + Split(s.name, ' ') + [s.streetType]
  {
    var d, n, t := s.direction, s.name, s.streetType;
    assert StreetStr(s) == d + [' '] + (n + [' '] + t);
    SplitAppend(d, n + [' '] + t, ' ');
    SplitLast(n, t, ' ');
  }

  /** Streets with single-token direction and type render differently when they differ in any field. */
  lemma {:induction false} StreetStrInjective(a: Street, b: Street)
    requires Tokenised(a) && Tokenised(b) && StreetStr(a) == StreetStr(b)
    ensures a == b
  {
    StreetStrSplit(a);
    StreetStrSplit(b);
    var pa := [a.direction] + Split(a.name, ' ') + [a.streetType];
    var pb := [b.direction] + Split(b.name, ' ') + [b.streetType];
    assert pa == pb;
    assert pa[0] == a.direction && pb[0] == b.direction;
    assert pa[|pa| - 1] == a.streetType && pb[|pb| - 1] == b.streetType;
    assert pa[1..|pa| - 1] == Split(a.name, ' ') && pb[1..|pb| - 1] == Split(b.name, ' ');
    JoinSplit(a.name, ' ');
    JoinSplit(b.name, ' ');
  }

  /** Addresses on tokenised streets render differently when they differ in number or street. */
  lemma {:induction false} AddressStrInjective(a: StreetAddress, b: StreetAddress)
    requires Tokenised(a.street) && Tokenised(b.street) && AddressStr(a) == AddressStr(b)
    ensures a == b
  {
    var na, nb := IntToString(a.number), IntToString(b.number);
    SplitAppend(na, StreetStr(a.street), ' ');
    SplitAppend(nb, StreetStr(b.street), ' ');
    assert AddressStr(a) == na + [' '] + StreetStr(a.street);
    assert AddressStr(b) == nb + [' '] + StreetStr(b.street);
    assert ([na] + Split(StreetStr(a.street), ' '))[0] == na;
    assert ([nb] + Split(StreetStr(b.street), ' '))[0] == nb;
    ParseIntToString(a.number);
    ParseIntToString(b.number);
    assert StreetStr(a.street) == AddressStr(a)[|na| + 1..];
    assert StreetStr(b.street) == AddressStr(b)[|nb| + 1..];
    StreetStrInjective(a.street, b.street);
  }

  /** No field of the street holds an ampersand. */
  predicate AmpFree(s: Street) {
    '&' !in s.direction && '&' !in s.name && '&' !in s.streetType
  }

  /** Splitting an intersection's rendering on the ampersand gives the two street renderings. */
  lemma {:induction false} IntersectionStrSplit(i: Intersection)
    requires AmpFree(i.street1) && AmpFree(i.street2)
    ensures Split(IntersectionStr(i), '&') == [StreetStr(i.street1) + " ", " " + StreetStr(i.street2)]
  {
    var a, b := StreetStr(i.street1) + " ", " " + StreetStr(i.street2);
    assert IntersectionStr(i) == a + ['&'] + b;
    assert '&' !in a by {
      forall k | 0 <= k < |a| ensures a[k] != '&' {
        var s := i.street1;
        if k < |s.direction| { assert a[k] == s.direction[k]; }
        else if |s.direction| < k < |s.direction| + 1 + |s.name| { assert a[k] == s.name[k - |s.direction| - 1]; }
        else if |s.direction| + |s.name| + 1 < k < |a| - 1 { assert a[k] == s.streetType[k - |s.direction| - |s.name| - 2]; }
      }
    }
    assert '&' !in b by {
      forall k | 0 <= k < |b| ensures b[k] != '&' {
        var s := i.street2;
        if 1 <= k < 1 + |s.direction| { assert b[k] == s.direction[k - 1]; }
        else if 1 + |s.direction| < k < |s.direction| + 2 + |s.name| { assert b[k] == s.name[k - |s.direction| - 2]; }
        else if |s.direction| + |s.name| + 2 < k { assert b[k] == s.streetType[k - |s.direction| - |s.name| - 3]; }
      }
    }
    SplitAppend(a, b, '&');
    SplitFree(b, '&');
  }

  /** Intersections of tokenised, ampersand-free streets render differently when they differ. */
  lemma {:induction false} IntersectionStrInjective(i: Intersection, j: Intersection)
    requires AmpFree(i.street1) && AmpFree(i.street2) && AmpFree(j.street1) && AmpFree(j.street2)
    requires Tokenised(i.street1) && Tokenised(i.street2) && Tokenised(j.street1) && Tokenised(j.street2)
    requires IntersectionStr(i) == IntersectionStr(j)
    ensures i == j
  {
    IntersectionStrSplit(i);
    IntersectionStrSplit(j);
    var a1, a2 := StreetStr(i.street1), StreetStr(j.street1);
    assert a1 + " " == a2 + " ";
    assert a1 == (a1 + " ")[..|a1|] && a2 == (a2 + " ")[..|a2|];
    var b1, b2 := StreetStr(i.street2), StreetStr(j.street2);
    assert " " + b1 == " " + b2;
    assert b1 == (" " + b1)[1..] && b2 == (" " + b2)[1..];
    StreetStrInjective(i.street1, j.street1);
    StreetStrInjective(i.street2, j.street2);
  }
}

/**
 * The location entities of the `src` package: the same three records, but a street
 * is declared (name, direction, street_type) and its equality looks at the name only,
 * so intersections and addresses compare their streets by name as well.
 */
module SrcLocations {
  import Locations
  import Text

  datatype Street = Street(name: string, direction: string, streetType: string)

  datatype Intersection = Intersection(street1: Street, street2: Street)

  datatype StreetAddress = StreetAddress(number: int, street: Street)

  /** Street `==`: direction and street_type are excluded from comparison. */
  predicate SameStreet(a: Street, b: Street) {
    a.name == b.name
  }

  /** Intersection `==`: street1 with street1 and street2 with street2. */
  predicate SameIntersection(a: Intersection, b: Intersection) {
    SameStreet(a.street1, b.street1) && SameStreet(a.street2, b.street2)
  }

  /** StreetAddress `==`: the numbers and the streets. */
  predicate SameAddress(a: StreetAddress, b: StreetAddress) {
    a.number == b.number && SameStreet(a.street, b.street)
  }

  /** The rendering is the one of the top-level package. */
  function StreetStr(s: Street): string {
    s.direction + " " + s.name + " " + s.streetType
  }

  function IntersectionStr(i: Intersection): string {
    StreetStr(i.street1) + " & " + StreetStr(i.street2)
  }

  function AddressStr(a: StreetAddress): string {
    Text.IntToString(a.number) + " " + StreetStr(a.street)
  }

  /** The same street built by keyword from a top-level street. */
  function FromStreet(s: Locations.Street): (r: Street)
    ensures StreetStr(r) == Locations.StreetStr(s)
  {
    Street(name := s.name, direction := s.direction, streetType := s.streetType)
  }

  /** Streets equal in the top-level package are equal here. */
  lemma {:induction false} EqualImpliesSame(a: Locations.Street, b: Locations.Street)
    requires a == b
    ensures SameStreet(FromStreet(a), FromStreet(b))
  {
  }

  /** Two streets that differ only in direction and type are equal here and not in the top-level package. */
  lemma {:induction false} SameIgnoresDirectionAndType()
    ensures SameStreet(Street("ASHLAND", "N", "AVE"), Street("ASHLAND", "S", "ST"))
    ensures Locations.Street("N", "ASHLAND", "AVE") != Locations.Street("S", "ASHLAND", "ST")
  {
  }

  /** Swapping the streets of an intersection gives an equal intersection iff the two names coincide. */
  lemma {:induction false} SwapSameIff(a: Street, b: Street)
    ensures SameIntersection(Intersection(a, b), Intersection(b, a)) <==> a.name == b.name
  {
  }

  /** Same-ness is an equivalence. */
  lemma {:induction false} SameIsEquivalence(a: Street, b: Street, c: Street)
    ensures SameStreet(a, a)
    ensures SameStreet(a, b) ==> SameStreet(b, a)
    ensures SameStreet(a, b) && SameStreet(b, c) ==> SameStreet(a, c)
  {
  }

  /** An empty direction leaves a leading space and an empty type a trailing one. */
  lemma {:induction false} EmptyFieldsLeaveSpaces(s: Street)
    ensures s.direction == "" ==> StreetStr(s)[0] == ' '
    ensures s.streetType == "" ==> StreetStr(s)[|StreetStr(s)| - 1] == ' '
  {
  }
}
