/**
 * The Python string operations the location code relies on: `str.strip()`,
 * `str.split(sep)` and `sep.join(parts)` for a one-character separator, `str.lower()` and `str.upper()`
 * on ASCII letters, the `in` substring test, `int(text)` and `str(n)` on integers.
 */
module Text {
  import opened Regex

  // ---------------------------------------------------------------------------------
  // strip

  function StripLeft(s: string): (r: string)
    ensures |r| <= |s|
    ensures r == [] || !IsSpace(r[0])
    ensures forall k | 0 <= k < |s| - |r| :: IsSpace(s[k])
  {
    if s != [] && IsSpace(s[0]) then StripLeft(s[1..]) else s
  }

  /** StripLeft keeps a suffix of s.  (A lemma rather than an ensures: as an ensures the
   *  slice feeds the solver's rule for slices of slices without end.) */
  lemma {:induction false} StripLeftSuffix(s: string)
    ensures StripLeft(s) == s[|s| - |StripLeft(s)|..]
    decreases |s|
  {
    if s != [] && IsSpace(s[0]) {
      StripLeftSuffix(s[1..]);
      assert s[1..][|s| - 1 - |StripLeft(s[1..])|..] == s[|s| - |StripLeft(s)|..];
    }
  }

  function StripRight(s: string): (r: string)
    ensures |r| <= |s| && r == s[..|r|]
    ensures r == [] || !IsSpace(r[|r| - 1])
    ensures forall k | |r| <= k < |s| :: IsSpace(s[k])
  {
    if s != [] && IsSpace(s[|s| - 1]) then StripRight(s[..|s| - 1]) else s
  }

  /** `s.strip()`: s without its leading and trailing whitespace. */
  function Strip(s: string): (r: string)
    ensures r == [] || (!IsSpace(r[0]) && !IsSpace(r[|r| - 1]))
  {
    var l := StripLeft(s);
    var r := StripRight(l);
    assert r != [] ==> r[0] == l[0];
    r
  }

  /** Cutting s to s[i..j] drops whitespace only and leaves no whitespace at either end. */
  predicate IsCut(s: string, i: int, j: int) {
    0 <= i <= j <= |s| && (forall k | 0 <= k < i :: IsSpace(s[k])) && (forall k | j <= k < |s| :: IsSpace(s[k])) &&
    (i == j || (!IsSpace(s[i]) && !IsSpace(s[j - 1])))
  }

  /** t is s with its whitespace margins cut off. */
  ghost predicate IsStripOf(s: string, t: string) {
    exists i, j | IsCut(s, i, j) :: t == s[i..j]
  }

  /** Strip cuts exactly the whitespace margins. */
  lemma {:induction false} StripIsStrip(s: string)
    ensures IsStripOf(s, Strip(s))
  {
    var l := StripLeft(s);
    var r := StripRight(l);
    var i := |s| - |l|;
    var j := i + |r|;
    StripLeftSuffix(s);
    assert r == s[i..j];
    forall k | j <= k < |s| ensures IsSpace(s[k]) {
      assert s[k] == l[k - i];
    }
    if i < j {
      assert s[i] == r[0] && s[j - 1] == r[|r| - 1];
    }
    assert IsCut(s, i, j);
  }

  /** Two cuts of s that both leave no whitespace at their ends are the same cut. */
  lemma {:induction false} CutUnique(s: string, i: int, j: int, i': int, j': int)
    requires IsCut(s, i, j) && IsCut(s, i', j')
    ensures s[i..j] == s[i'..j']
  {
    if i < j && i' < j' {
      assert !IsSpace(s[i]) && !IsSpace(s[i']) && !IsSpace(s[j - 1]) && !IsSpace(s[j' - 1]);
      assert i == i' && j == j';
    }
  }

  /** There is only one way to cut whitespace margins off so that none remains at either end. */
  lemma {:induction false} StripUnique(s: string, t: string)
    requires IsStripOf(s, t)
    ensures t == Strip(s)
  {
    var i, j :| IsCut(s, i, j) && t == s[i..j];
    StripIsStrip(s);
    var i', j' :| IsCut(s, i', j') && Strip(s) == s[i'..j'];
    CutUnique(s, i, j, i', j');
  }

  /** Stripping twice is stripping once. */
  lemma {:induction false} StripIdempotent(s: string)
    ensures Strip(Strip(s)) == Strip(s)
  {
    var t := Strip(s);
    StripPlain(t);
  }

  // ---------------------------------------------------------------------------------
  // split and join

  /** `s.split(c)`: the pieces between the occurrences of c, always at least one. */
  function Split(s: string, c: char): (r: seq<string>)
    ensures |r| >= 1 && forall k | 0 <= k < |r| :: c !in r[k]
  {
    if s == [] then [[]]
    else
      var t := Split(s[1..], c);
      if s[0] == c then [[]] + t else [[s[0]] + t[0]] + t[1..]
  }

  /** `c.join(parts)`. */
  function Join(parts: seq<string>, c: char): string {
    if parts == [] then [] else if |parts| == 1 then parts[0] else parts[0] + [c] + Join(parts[1..], c)
  }

  /** Joining the pieces of a split gives back the text. */
  lemma {:induction false} JoinSplit(s: string, c: char)
    ensures Join(Split(s, c), c) == s
  {
    if s != [] {
      var t := Split(s[1..], c);
      JoinSplit(s[1..], c);
      if s[0] == c {
        assert Split(s, c) == [[]] + t;
        var e: string := [];
        assert e + [c] + Join(t, c) == s;
      } else {
        JoinCons(s[0], t, c);
      }
    }
  }

  lemma {:induction false} JoinCons(x: char, t: seq<string>, c: char)
    requires |t| >= 1
    ensures Join([[x] + t[0]] + t[1..], c) == [x] + Join(t, c)
  {
    var u := [[x] + t[0]] + t[1..];
    assert u[1..] == t[1..];
  }

  /** Splitting a join of pieces free of c gives back the pieces. */
  lemma {:induction false} SplitJoin(parts: seq<string>, c: char)
    requires |parts| >= 1 && forall k | 0 <= k < |parts| :: c !in parts[k]
    ensures Split(Join(parts, c), c) == parts
  {
    if |parts| == 1 {
      SplitFree(parts[0], c);
    } else {
      SplitJoin(parts[1..], c);
      SplitAppend(parts[0], Join(parts[1..], c), c);
      assert [parts[0]] + parts[1..] == parts;
    }
  }

  lemma {:induction false} SplitFree(s: string, c: char)
    requires c !in s
    ensures Split(s, c) == [s]
  {
    if s != [] {
      SplitFree(s[1..], c);
      assert [s[0]] + s[1..] == s;
    }
  }

  /** A piece a free of c followed by c opens the split. */
  lemma {:induction false} SplitAppend(a: string, b: string, c: char)
    requires c !in a
    ensures Split(a + [c] + b, c) == [a] + Split(b, c)
  {
    if a == [] {
      assert a + [c] + b == [c] + b;
      assert ([c] + b)[1..] == b;
    } else {
      var s := a + [c] + b;
      assert s[1..] == a[1..] + [c] + b;
      SplitAppend(a[1..], b, c);
      assert s[0] == a[0] && [a[0]] + a[1..] == a;
    }
  }

  /** Two texts joined by c split into the pieces of the first, then those of the second. */
  lemma {:induction false} SplitConcat(a: string, b: string, c: char)
    ensures Split(a + [c] + b, c) == Split(a, c) + Split(b, c)
  {
    if a == [] {
      SplitAppend(a, b, c);
    } else {
      var s := a + [c] + b;
      assert s != [] && s[0] == a[0] && s[1..] == a[1..] + [c] + b;
      var t := Split(a[1..], c);
      var u := t + Split(b, c);
      SplitConcat(a[1..], b, c);
      assert Split(s, c) == if a[0] == c then [[]] + u else [[a[0]] + u[0]] + u[1..];
      if a[0] != c {
        assert u[0] == t[0] && u[1..] == t[1..] + Split(b, c);
      }
    }
  }

  /** A piece free of c closes the split. */
  lemma {:induction false} SplitLast(a: string, b: string, c: char)
    requires c !in b
    ensures Split(a + [c] + b, c) == Split(a, c) + [b]
  {
    if a == [] {
      SplitAppend(a, b, c);
      SplitFree(b, c);
    } else {
      var s := a + [c] + b;
      assert s[1..] == a[1..] + [c] + b;
      SplitLast(a[1..], b, c);
    }
  }

  /** The last piece of a split, that is, `s.split(c)[-1]`: the text after the last occurrence of the separator. */
  function LastPiece(s: string, c: char): (r: string)
    ensures c !in r
  {
    var parts := Split(s, c);
    parts[|parts| - 1]
  }

  /** A split has one piece more than the text has separators. */
  lemma {:induction false} SplitCount(s: string, c: char)
    ensures |Split(s, c)| == CountFrom(s, 0, c) + 1
  {
    if s != [] {
      SplitCount(s[1..], c);
      CountFromShift(s, c);
    }
  }

  lemma {:induction false} CountFromShift(s: string, c: char)
    requires s != []
    ensures CountFrom(s, 0, c) == (if s[0] == c then 1 else 0) + CountFrom(s[1..], 0, c)
  {
    CountFromAppend([s[0]], s[1..], 0, c);
    assert [s[0]] + s[1..] == s;
  }

  // ---------------------------------------------------------------------------------
  // lower and substring

  /** `str.lower()` on one character; letters other than A-Z are left as they are. */
  function LowerChar(c: char): char {
    if 'A' <= c <= 'Z' then (c as int + 32) as char else c
  }

  function Lower(s: string): (r: string)
    ensures |r| == |s| && forall k | 0 <= k < |s| :: r[k] == LowerChar(s[k])
  {
    if s == [] then [] else [LowerChar(s[0])] + Lower(s[1..])
  }

  /** `str.upper()` on one character; letters other than a-z are left as they are. */
  function UpperChar(c: char): char {
    if 'a' <= c <= 'z' then (c as int - 32) as char else c
  }

  function Upper(s: string): (r: string)
    ensures |r| == |s| && forall k | 0 <= k < |s| :: r[k] == UpperChar(s[k])
  {
    if s == [] then [] else [UpperChar(s[0])] + Upper(s[1..])
  }

  /** w occurs in s at position i. */
  predicate OccursAt(s: string, w: string, i: int) {
    0 <= i <= |s| - |w| && s[i..i + |w|] == w
  }

  /** `w in s` for strings: w occurs in s at some position. */
  predicate Contains(s: string, w: string) {
    exists i | 0 <= i <= |s| - |w| :: OccursAt(s, w, i)
  }

  /** Lower-casing twice is lower-casing once. */
  lemma {:induction false} LowerIdempotent(s: string)
    ensures Lower(Lower(s)) == Lower(s)
  {
    assert forall k | 0 <= k < |s| :: Lower(Lower(s))[k] == Lower(s)[k];
  }

  /** A text without capital letters is its own lower-cased form. */
  lemma {:induction false} LowerFixed(s: string)
    requires forall c | c in s :: !('A' <= c <= 'Z')
    ensures Lower(s) == s
  {
    forall k | 0 <= k < |s| ensures Lower(s)[k] == s[k] {
      assert s[k] in s;
    }
  }

  lemma {:induction false} ContainsSelf(s: string)
    ensures Contains(s, s)
  {
    assert OccursAt(s, s, 0);
  }

  lemma {:induction false} ContainsJoin(a: string, w: string, b: string)
    ensures Contains(a + w + b, w)
  {
    assert (a + w + b)[|a|..|a| + |w|] == w;
    assert OccursAt(a + w + b, w, |a|);
  }

  /** w does not occur in s when its character c at index j does not occur in s. */
  lemma {:induction false} NotContainsAt(s: string, w: string, c: char, j: nat)
    requires j < |w| && w[j] == c && c !in s
    ensures !Contains(s, w)
  {
    forall i | 0 <= i <= |s| - |w| ensures !OccursAt(s, w, i) {
      assert s[i..i + |w|][j] == s[i + j];
    }
  }

  /** w does not occur in a + b when its first character is not in a and it is longer than b. */
  lemma {:induction false} NotContainsLate(a: string, b: string, w: string)
    requires w != [] && w[0] !in a && |b| < |w|
    ensures !Contains(a + b, w)
  {
    var s := a + b;
    forall i | 0 <= i <= |s| - |w| ensures !OccursAt(s, w, i) {
      assert s[i..i + |w|][0] == s[i] == a[i];
    }
  }

  // ---------------------------------------------------------------------------------
  // int() and str()

  /** The value of a string of decimal digits. */
  function DigitsValue(d: string): nat
    requires forall k | 0 <= k < |d| :: IsDigit(d[k])
  {
    if d == [] then 0
    else
      assert IsDigit(d[|d| - 1]);
      DigitsValue(d[..|d| - 1]) * 10 + (d[|d| - 1] as int - '0' as int)
  }

  /** Digits with single underscores between them, as `int()` accepts ("1_000"). */
  predicate DigitGroups(d: string) {
    d != [] && IsDigit(d[0]) && IsDigit(d[|d| - 1]) &&
    (forall k | 0 <= k < |d| :: IsDigit(d[k]) || d[k] == '_') && NoDoubleUnderscore(d)
  }

  /** No two underscores in a row. */
  predicate NoDoubleUnderscore(d: string) {
    |d| < 2 || (!(d[0] == '_' && d[1] == '_') && NoDoubleUnderscore(d[1..]))
  }

  /** Digits alone have no two underscores in a row. */
  lemma {:induction false} DigitsNoDoubleUnderscore(d: string)
    requires forall k | 0 <= k < |d| :: IsDigit(d[k])
    ensures NoDoubleUnderscore(d)
  {
    if |d| >= 2 {
      assert IsDigit(d[0]);
      DigitsNoDoubleUnderscore(d[1..]);
    }
  }

  /** d without its underscores. */
  function DropUnderscores(d: string): (r: string)
    ensures |r| <= |d|
    ensures (forall k | 0 <= k < |d| :: IsDigit(d[k]) || d[k] == '_') ==> forall k | 0 <= k < |r| :: IsDigit(r[k])
  {
    if d == [] then [] else (if d[0] == '_' then [] else [d[0]]) + DropUnderscores(d[1..])
  }

  /** `int(text)`: whitespace around an optional sign and a group of ASCII digits; None when int() raises. */
  function ParseInt(text: string): (r: Option<int>)
  {
    var t := Strip(text);
    var neg := t != [] && t[0] == '-';
    var body := if t != [] && (t[0] == '-' || t[0] == '+') then t[1..] else t;
    if DigitGroups(body) then
      var v: int := DigitsValue(DropUnderscores(body));
      Some(if neg then -v else v)
    else None
  }

  /** The decimal digits of n, most significant first, without leading zeros. */
  function NatDigits(n: nat): (r: string)
    ensures r != [] && forall k | 0 <= k < |r| :: IsDigit(r[k])
    ensures DigitsValue(r) == n
    ensures r[0] != '0' || n == 0
  {
    if n < 10 then [('0' as int + n) as char]
    else
      var r := NatDigits(n / 10) + [('0' as int + n % 10) as char];
      assert r[..|r| - 1] == NatDigits(n / 10);
      r
  }

  /** `str(n)` for an int. */
  function IntToString(n: int): (r: string)
    ensures r != [] && (IsDigit(r[0]) || r[0] == '-') && !IsSpace(r[0]) && !IsSpace(r[|r| - 1])
    ensures forall k | 0 <= k < |r| :: r[k] != ' ' && r[k] != ';' && r[k] != '&'
  {
    if n < 0 then "-" + NatDigits(-n) else NatDigits(n)
  }

  lemma {:induction false} StripPlain(s: string)
    requires s == [] || (!IsSpace(s[0]) && !IsSpace(s[|s| - 1]))
    ensures Strip(s) == s
  {
    assert s == s[0..|s|];
    assert IsCut(s, 0, |s|);
    StripUnique(s, s);
  }

  lemma {:induction false} DropNoUnderscores(d: string)
    requires forall k | 0 <= k < |d| :: IsDigit(d[k])
    ensures DropUnderscores(d) == d
  {
    if d != [] {
      DropNoUnderscores(d[1..]);
      assert [d[0]] + d[1..] == d;
    }
  }

  /** `int(str(n)) == n`. */
  lemma {:induction false} ParseIntToString(n: int)
    ensures ParseInt(IntToString(n)) == Some(n)
  {
    var r := IntToString(n);
    StripPlain(r);
    var d := NatDigits(if n < 0 then -n else n);
    DropNoUnderscores(d);
    DigitsNoDoubleUnderscore(d);
    if n < 0 {
      assert r[1..] == d;
    }
  }

  /** Joining a list with one more piece at the end adds a separator and that piece. */
  lemma {:induction false} JoinSnoc(parts: seq<string>, t: string, c: char)
    requires |parts| >= 1
    ensures Join(parts + [t], c) == Join(parts, c) + [c] + t
  {
    if |parts| > 1 {
      JoinSnoc(parts[1..], t, c);
      assert (parts + [t])[1..] == parts[1..] + [t];
    }
  }

  /** Trailing whitespace is cut from the last text that is not all whitespace. */
  lemma {:induction false} StripRightAppend(a: string, b: string)
    requires exists k | 0 <= k < |b| :: !IsSpace(b[k])
    ensures StripRight(a + b) == a + StripRight(b)
    decreases |b|
  {
    var k :| 0 <= k < |b| && !IsSpace(b[k]);
    assert (a + b)[|a| + |b| - 1] == b[|b| - 1];
    if IsSpace(b[|b| - 1]) {
      assert k < |b| - 1 && b[..|b| - 1][k] == b[k];
      assert (a + b)[..|a| + |b| - 1] == a + b[..|b| - 1];
      StripRightAppend(a, b[..|b| - 1]);
    }
  }

  /** A text that starts with a non-space character loses only its trailing whitespace. */
  lemma {:induction false} StripFromStart(s: string)
    requires s != [] && !IsSpace(s[0])
    ensures Strip(s) == StripRight(s)
  {
  }

  /** A run of decimal digits is read as its value. */
  lemma {:induction false} ParseDigits(d: string)
    requires d != [] && forall k | 0 <= k < |d| :: IsDigit(d[k])
    ensures ParseInt(d) == Some(DigitsValue(d))
  {
    StripPlain(d);
    DropNoUnderscores(d);
    DigitsNoDoubleUnderscore(d);
  }
}
