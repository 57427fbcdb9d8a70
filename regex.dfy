/**
 * A small model of Python's backtracking regular-expression matcher (`re.match`),
 * restricted to the constructs the location patterns use.  A pattern is a sequence
 * of segments; `Ends` lists, in the order the matcher tries them, the positions at
 * which one segment can stop, and `FirstParse` returns the first complete parse in
 * that order, which is the one Python reports (its groups are read off the parse).
 */
module Regex {

  datatype Option<T> = None | Some(value: T)

  /** Python's `str.isspace`, which is also what `\s` matches in a `str` pattern. */
  predicate IsSpace(c: char) {
    c == ' ' || ('\t' <= c <= '\r') || ('\U{1c}' <= c <= '\U{1f}') || c == '\U{85}' || c == '\U{a0}'
    || c == '\U{1680}' || ('\U{2000}' <= c <= '\U{200a}') || c == '\U{2028}' || c == '\U{2029}'
    || c == '\U{202f}' || c == '\U{205f}' || c == '\U{3000}'
  }

  predicate IsDigit(c: char) { '0' <= c <= '9' }

  predicate IsDirection(c: char) { c == 'N' || c == 'W' || c == 'E' || c == 'S' }

  predicate IsWordChar(c: char) { 'a' <= c <= 'z' || 'A' <= c <= 'Z' || IsDigit(c) || c == '_' }

  /** The character classes of the patterns: `\d`, `\s`, `[NWES]`, `\w` and `.`. */
  datatype Class = Digit | Space | Direction | Word | NotNewline

  predicate InClass(k: Class, c: char) {
    match k
    case Digit => IsDigit(c)
    case Space => IsSpace(c)
    case Direction => IsDirection(c)
    case Word => IsWordChar(c)
    case NotNewline => c != '\n'
  }

  datatype Seg =
    | One(k: Class)                         // one character of class k
    | Rep(k: Class, min: nat, greedy: bool) // k* (min 0) or k+ (min 1), greedy or lazy (`*?`)
    | Text(w: string)                       // a literal
    | Words(ws: seq<string>)                // (?:w1|w2|...), alternatives tried in order
    | OptDir                                // (?:|\s+[NWES]), the empty alternative first
    | OptSuffix(ws: seq<string>)            // (?:\s(?:w1|w2|...))?, greedy
    | Open(g: nat)                          // start of capture group g
    | Close(g: nat)                         // end of capture group g
    | End                                   // `$`: the end, or just before a final newline

  /** End of the longest run of class-k characters starting at i. */
  function RunEnd(k: Class, s: string, i: nat): (e: nat)
    requires i <= |s|
    ensures i <= e <= |s|
    ensures forall j | i <= j < e :: InClass(k, s[j])
    ensures e < |s| ==> !InClass(k, s[e])
    decreases |s| - i
  {
    if i < |s| && InClass(k, s[i]) then RunEnd(k, s, i + 1) else i
  }

  /** [hi, hi-1, ..., lo]; empty when hi < lo. */
  function Down(hi: int, lo: int): (r: seq<nat>)
    requires 0 <= lo
    ensures |r| == if hi < lo then 0 else hi - lo + 1
    ensures forall k | 0 <= k < |r| :: r[k] == hi - k
    decreases hi - lo
  {
    if hi < lo then [] else [hi] + Down(hi - 1, lo)
  }

  /** [lo, lo+1, ..., hi]; empty when hi < lo. */
  function Up(lo: nat, hi: int): (r: seq<nat>)
    ensures |r| == if hi < lo then 0 else hi - lo + 1
    ensures forall k | 0 <= k < |r| :: r[k] == lo + k
    decreases hi - lo
  {
    if hi < lo then [] else [lo] + Up(lo + 1, hi)
  }

  predicate HasAt(s: string, i: nat, w: string) {
    i + |w| <= |s| && s[i..i + |w|] == w
  }

  /** Ends of the alternatives ws at i, in order. */
  function WordEnds(ws: seq<string>, s: string, i: nat): (r: seq<nat>)
    ensures forall k | 0 <= k < |r| :: i <= r[k] <= |s|
  {
    if ws == [] then []
    else (if HasAt(s, i, ws[0]) then [i + |ws[0]|] else []) + WordEnds(ws[1..], s, i)
  }

  /** The positions at which segment g, started at i, can end, in the order Python tries them. */
  function Ends(g: Seg, s: string, i: nat): (r: seq<nat>)
    requires i <= |s|
    ensures forall k | 0 <= k < |r| :: i <= r[k] <= |s|
  {
    match g
    case One(k) => if i < |s| && InClass(k, s[i]) then [i + 1] else []
    case Rep(k, m, greedy) =>
      var e := RunEnd(k, s, i);
      if greedy then Down(e, i + m) else Up(i + m, e)
    case Text(w) => if HasAt(s, i, w) then [i + |w|] else []
    case Words(ws) => WordEnds(ws, s, i)
    case OptDir =>
      // `\s+` is greedy, and only its longest run can be followed by a letter (not a space)
      var e := RunEnd(Space, s, i);
      [i] + (if i < e < |s| && IsDirection(s[e]) then [e + 1] else [])
    case OptSuffix(ws) =>
      (if i < |s| && IsSpace(s[i]) then WordEnds(ws, s, i + 1) else []) + [i]
    case Open(_) => [i]
    case Close(_) => [i]
    case End => if i == |s| || (i + 1 == |s| && s[i] == '\n') then [i] else []
  }

  /**
   * q is a parse of p on s from i: segment k of p runs from q[k] to q[k+1], and
   * q[|p|] is where the whole match ends.
   */
  predicate IsParse(p: seq<Seg>, s: string, i: nat, q: seq<nat>)
    decreases p
  {
    i <= |s| && |q| == |p| + 1 && q[0] == i &&
    (p != [] ==> q[1] in Ends(p[0], s, i) && IsParse(p[1..], s, q[1], q[1..]))
  }

  /** The first parse in backtracking order, or None when p does not match at i. */
  function FirstParse(p: seq<Seg>, s: string, i: nat): Option<seq<nat>>
    requires i <= |s|
    decreases |p|, 1, 0
  {
    if p == [] then Some([i]) else FirstOf(p, s, i, Ends(p[0], s, i))
  }

  /** Tries the candidate ends cs of p's first segment in order. */
  function FirstOf(p: seq<Seg>, s: string, i: nat, cs: seq<nat>): Option<seq<nat>>
    requires p != [] && i <= |s|
    requires forall k | 0 <= k < |cs| :: cs[k] <= |s|
    decreases |p|, 0, |cs|
  {
    if cs == [] then None
    else match FirstParse(p[1..], s, cs[0])
      case Some(q) => Some([i] + q)
      case None => FirstOf(p, s, i, cs[1..])
  }

  /** p has no parse on s from c. */
  predicate Fails(p: seq<Seg>, s: string, c: nat) {
    c <= |s| && FirstParse(p, s, c).None?
  }

  /** What `re.match(p, s)` reports: the first parse from position 0. */
  function Match(p: seq<Seg>, s: string): Option<seq<nat>> {
    FirstParse(p, s, 0)
  }

  predicate Matches(p: seq<Seg>, s: string) {
    Match(p, s).Some?
  }

  lemma {:induction false} FirstParseSound(p: seq<Seg>, s: string, i: nat)
    requires i <= |s|
    ensures FirstParse(p, s, i).Some? ==> IsParse(p, s, i, FirstParse(p, s, i).value)
    decreases |p|, 1, 0
  {
    if p != [] {
      FirstOfSound(p, s, i, Ends(p[0], s, i));
    }
  }

  lemma {:induction false} FirstOfSound(p: seq<Seg>, s: string, i: nat, cs: seq<nat>)
    requires p != [] && i <= |s|
    requires forall k | 0 <= k < |cs| :: cs[k] <= |s| && cs[k] in Ends(p[0], s, i)
    ensures FirstOf(p, s, i, cs).Some? ==> IsParse(p, s, i, FirstOf(p, s, i, cs).value)
    decreases |p|, 0, |cs|
  {
    if cs != [] {
      FirstParseSound(p[1..], s, cs[0]);
      if FirstParse(p[1..], s, cs[0]).None? {
        FirstOfSound(p, s, i, cs[1..]);
      }
    }
  }

  lemma {:induction false} FirstParseComplete(p: seq<Seg>, s: string, i: nat, q: seq<nat>)
    requires IsParse(p, s, i, q)
    ensures FirstParse(p, s, i).Some?
    decreases |p|, 1, 0
  {
    if p != [] {
      FirstOfComplete(p, s, i, Ends(p[0], s, i), q);
    }
  }

  lemma {:induction false} FirstOfComplete(p: seq<Seg>, s: string, i: nat, cs: seq<nat>, q: seq<nat>)
    requires p != [] && IsParse(p, s, i, q)
    requires forall k | 0 <= k < |cs| :: cs[k] <= |s|
    requires q[1] in cs
    ensures FirstOf(p, s, i, cs).Some?
    decreases |p|, 0, |cs|
  {
    if cs[0] == q[1] {
      FirstParseComplete(p[1..], s, q[1], q[1..]);
    } else if FirstParse(p[1..], s, cs[0]).None? {
      FirstOfComplete(p, s, i, cs[1..], q);
    }
  }

  /** p matches s from i exactly when it has some parse there. */
  lemma {:induction false} MatchesIffParse(p: seq<Seg>, s: string, i: nat)
    requires i <= |s|
    ensures FirstParse(p, s, i).Some? <==> exists q :: IsParse(p, s, i, q)
  {
    if FirstParse(p, s, i).Some? {
      FirstParseSound(p, s, i);
      var q := FirstParse(p, s, i).value;
      assert IsParse(p, s, i, q);
      assert exists q :: IsParse(p, s, i, q);
    } else if exists q :: IsParse(p, s, i, q) {
      var q :| IsParse(p, s, i, q);
      FirstParseComplete(p, s, i, q);
    }
  }

  /**
   * The stepping rule of backtracking: when the candidate ends of the first segment
   * before j all fail and j succeeds, the first parse goes through j.
   */
  lemma {:induction false} FirstParseStep(p: seq<Seg>, s: string, i: nat, pre: seq<nat>, j: nat, post: seq<nat>, q: seq<nat>)
    requires p != [] && i <= |s|
    requires Ends(p[0], s, i) == pre + [j] + post
    requires forall k | 0 <= k < |pre| :: pre[k] <= |s|
    requires j <= |s|
    requires forall c | c in pre :: FirstParse(p[1..], s, c).None?
    requires FirstParse(p[1..], s, j) == Some(q)
    ensures FirstParse(p, s, i) == Some([i] + q)
  {
    var rest := [j] + post;
    assert pre + [j] + post == pre + rest;
    var e := Ends(p[0], s, i);
    assert forall k | 0 <= k < |rest| :: rest[k] == e[|pre| + k];
    FirstOfSkip(p, s, i, pre, rest);
    assert FirstOf(p, s, i, rest) == Some([i] + q);
  }

  lemma {:induction false} FirstOfSkip(p: seq<Seg>, s: string, i: nat, pre: seq<nat>, rest: seq<nat>)
    requires p != [] && i <= |s|
    requires forall k | 0 <= k < |pre| :: pre[k] <= |s|
    requires forall k | 0 <= k < |rest| :: rest[k] <= |s|
    requires forall c | c in pre :: FirstParse(p[1..], s, c).None?
    ensures FirstOf(p, s, i, pre + rest) == FirstOf(p, s, i, rest)
    decreases |pre|
  {
    if pre != [] {
      var cs := pre + rest;
      assert pre[0] in pre && cs[0] == pre[0];
      assert cs[1..] == pre[1..] + rest;
      assert FirstParse(p[1..], s, cs[0]).None?;
      assert FirstOf(p, s, i, cs) == FirstOf(p, s, i, cs[1..]);
      FirstOfSkip(p, s, i, pre[1..], rest);
    } else {
      assert pre + rest == rest;
    }
  }

  /** The stepping rule when the first candidate end succeeds. */
  lemma {:induction false} FirstParseFirst(p: seq<Seg>, s: string, i: nat, j: nat, post: seq<nat>, q: seq<nat>)
    requires p != [] && i <= |s| && j <= |s|
    requires Ends(p[0], s, i) == [j] + post
    requires FirstParse(p[1..], s, j) == Some(q)
    ensures FirstParse(p, s, i) == Some([i] + q)
  {
    var e := Ends(p[0], s, i);
    assert e[0] == j;
    assert FirstOf(p, s, i, e) == Some([i] + q);
  }

  /** No parse when the first segment cannot end anywhere. */
  lemma {:induction false} NoParseDead(p: seq<Seg>, s: string, i: nat)
    requires p != [] && i <= |s|
    requires Ends(p[0], s, i) == []
    ensures FirstParse(p, s, i).None?
  {
  }

  /** No parse through a segment with a single end position when the rest fails from there. */
  lemma {:induction false} NoParseSingle(p: seq<Seg>, s: string, i: nat, j: nat)
    requires p != [] && i <= |s| && j <= |s|
    requires Ends(p[0], s, i) == [j]
    requires FirstParse(p[1..], s, j).None?
    ensures FirstParse(p, s, i).None?
  {
    assert FirstOf(p, s, i, [j]) == FirstOf(p, s, i, []);
  }

  lemma {:induction false} DownMembers(hi: int, lo: nat)
    ensures forall c :: c in Down(hi, lo) <==> lo <= c <= hi
  {
    var d := Down(hi, lo);
    forall c | lo <= c <= hi ensures c in d {
      assert d[hi - c] == c;
    }
  }

  lemma {:induction false} DownSplit(hi: int, mid: nat, lo: nat)
    requires lo <= mid <= hi
    ensures Down(hi, lo) == Down(hi, mid + 1) + [mid] + Down(mid - 1, lo)
  {
    var l, r := Down(hi, lo), Down(hi, mid + 1) + [mid] + Down(mid - 1, lo);
    assert |l| == |r|;
    forall k | 0 <= k < |l| ensures l[k] == r[k] {
      if k < hi - mid {
      } else if k == hi - mid {
      } else {
        assert r[k] == Down(mid - 1, lo)[k - (hi - mid) - 1];
      }
    }
  }

  /** When exactly one alternative is present at i, the alternation has that single end. */
  lemma {:induction false} WordEndsSingle(ws: seq<string>, s: string, i: nat, j: nat)
    requires 0 <= j < |ws| && HasAt(s, i, ws[j])
    requires forall k | 0 <= k < |ws| && k != j :: !HasAt(s, i, ws[k])
    ensures WordEnds(ws, s, i) == [i + |ws[j]|]
  {
    if j == 0 {
      WordEndsNone(ws[1..], s, i);
    } else {
      WordEndsSingle(ws[1..], s, i, j - 1);
    }
  }

  lemma {:induction false} WordEndsNone(ws: seq<string>, s: string, i: nat)
    requires forall k | 0 <= k < |ws| :: !HasAt(s, i, ws[k])
    ensures WordEnds(ws, s, i) == []
  {
    if ws != [] {
      WordEndsNone(ws[1..], s, i);
    }
  }

  /** FirstParseFirst for the suffix p[k..] of a pattern. */
  lemma {:induction false} StepAt(p: seq<Seg>, k: nat, s: string, i: nat, j: nat, post: seq<nat>, q: seq<nat>)
    requires k < |p| && i <= |s| && j <= |s|
    requires Ends(p[k], s, i) == [j] + post
    requires FirstParse(p[k + 1..], s, j) == Some(q)
    ensures FirstParse(p[k..], s, i) == Some([i] + q)
  {
    assert p[k..][1..] == p[k + 1..];
    FirstParseFirst(p[k..], s, i, j, post, q);
  }

  /** StepAt for a group marker, which consumes nothing. */
  lemma {:induction false} MarkAt(p: seq<Seg>, k: nat, s: string, i: nat, q: seq<nat>)
    requires k < |p| && i <= |s| && (p[k].Open? || p[k].Close?)
    requires FirstParse(p[k + 1..], s, i) == Some(q)
    ensures FirstParse(p[k..], s, i) == Some([i] + q)
  {
    assert Ends(p[k], s, i) == [i] + [];
    StepAt(p, k, s, i, i, [], q);
  }

  /** StepAt for one character of a class. */
  lemma {:induction false} OneAt(p: seq<Seg>, k: nat, s: string, i: nat, q: seq<nat>)
    requires k < |p| && p[k].One? && i < |s| && InClass(p[k].k, s[i])
    requires FirstParse(p[k + 1..], s, i + 1) == Some(q)
    ensures FirstParse(p[k..], s, i) == Some([i] + q)
  {
    assert Ends(p[k], s, i) == [i + 1] + [];
    StepAt(p, k, s, i, i + 1, [], q);
  }

  /** StepAt for a set of alternative words of which exactly one is there. */
  lemma {:induction false} WordsAt(p: seq<Seg>, k: nat, s: string, i: nat, e: nat, q: seq<nat>)
    requires k < |p| && p[k].Words? && i <= e <= |s| && WordEnds(p[k].ws, s, i) == [e]
    requires FirstParse(p[k + 1..], s, e) == Some(q)
    ensures FirstParse(p[k..], s, i) == Some([i] + q)
  {
    assert WordEnds(p[k].ws, s, i)[0] == e;
    assert Ends(p[k], s, i) == [e] + [];
    StepAt(p, k, s, i, e, [], q);
  }

  /** FirstParseStep for the suffix p[k..] of a pattern. */
  lemma {:induction false} SkipAt(p: seq<Seg>, k: nat, s: string, i: nat, pre: seq<nat>, j: nat, post: seq<nat>, q: seq<nat>, rest: seq<Seg>)
    requires k < |p| && i <= |s| && j <= |s| && rest == p[k + 1..]
    requires Ends(p[k], s, i) == pre + [j] + post
    requires forall c | c in pre :: Fails(rest, s, c)
    requires FirstParse(p[k + 1..], s, j) == Some(q)
    ensures FirstParse(p[k..], s, i) == Some([i] + q)
  {
    assert p[k..][1..] == p[k + 1..];
    forall t | 0 <= t < |pre|
      ensures pre[t] <= |s| && FirstParse(p[k + 1..], s, pre[t]).None?
    {
      assert pre[t] in pre;
    }
    FirstParseStep(p[k..], s, i, pre, j, post, q);
  }

  /** No parse of p[k..] from i when segment k cannot end anywhere. */
  lemma {:induction false} DeadAt(p: seq<Seg>, k: nat, s: string, i: nat)
    requires k < |p| && i <= |s|
    requires Ends(p[k], s, i) == []
    ensures FirstParse(p[k..], s, i).None?
  {
    NoParseDead(p[k..], s, i);
  }

  /** No parse of p[k..] from i through a segment with a single end j when p[k+1..] fails from j. */
  lemma {:induction false} FailAt(p: seq<Seg>, k: nat, s: string, i: nat, j: nat)
    requires k < |p| && i <= |s| && j <= |s|
    requires Ends(p[k], s, i) == [j]
    requires FirstParse(p[k + 1..], s, j).None?
    ensures FirstParse(p[k..], s, i).None?
  {
    assert p[k..][1..] == p[k + 1..];
    NoParseSingle(p[k..], s, i, j);
  }

  predicate AtEnd(s: string, i: nat) {
    i == |s| || (i + 1 == |s| && s[i] == '\n')
  }

  /** `$` closing the pattern. */
  lemma {:induction false} EndStep(p: seq<Seg>, k: nat, s: string, i: nat)
    requires k + 1 == |p| && p[k] == End && i <= |s| && AtEnd(s, i)
    ensures FirstParse(p[k..], s, i) == Some([i, i])
  {
    assert p[k + 1..] == [];
    StepAt(p, k, s, i, i, [], [i]);
    assert [i] + [i] == [i, i];
  }

  /** `(?:|\s+[NWES])` takes its empty alternative first. */
  lemma {:induction false} OptDirEmpty(p: seq<Seg>, k: nat, s: string, i: nat, r: seq<nat>)
    requires k < |p| && p[k] == OptDir && i <= |s|
    requires FirstParse(p[k + 1..], s, i) == Some(r)
    ensures FirstParse(p[k..], s, i) == Some([i] + r)
  {
    StepAt(p, k, s, i, i, Ends(p[k], s, i)[1..], r);
  }

  lemma {:induction false} RunEndExact(k: Class, s: string, i: nat, j: nat)
    requires i <= j <= |s|
    requires forall t | i <= t < j :: InClass(k, s[t])
    requires j == |s| || !InClass(k, s[j])
    ensures RunEnd(k, s, i) == j
    decreases j - i
  {
    if i < j {
      RunEndExact(k, s, i + 1, j);
    }
  }

  /** A greedy run whose longest extent j is the one the rest of the pattern accepts. */
  lemma {:induction false} RunStep(p: seq<Seg>, k: nat, s: string, i: nat, j: nat, t: seq<nat>)
    requires k < |p| && p[k].Rep? && p[k].greedy && i <= j <= |s| && i + p[k].min <= j
    requires forall c | i <= c < j :: InClass(p[k].k, s[c])
    requires j == |s| || !InClass(p[k].k, s[j])
    requires FirstParse(p[k + 1..], s, j) == Some(t)
    ensures FirstParse(p[k..], s, i) == Some([i] + t)
  {
    RunEndExact(p[k].k, s, i, j);
    StepAt(p, k, s, i, j, Down(j - 1, i + p[k].min), t);
  }

  /** A single character of a class. */
  lemma {:induction false} OneStep(p: seq<Seg>, k: nat, s: string, i: nat, t: seq<nat>)
    requires k < |p| && p[k].One? && i < |s| && InClass(p[k].k, s[i])
    requires FirstParse(p[k + 1..], s, i + 1) == Some(t)
    ensures FirstParse(p[k..], s, i) == Some([i] + t)
  {
    StepAt(p, k, s, i, i + 1, [], t);
  }

  /** A literal. */
  lemma {:induction false} TextStep(p: seq<Seg>, k: nat, s: string, i: nat, t: seq<nat>)
    requires k < |p| && p[k].Text? && HasAt(s, i, p[k].w)
    requires FirstParse(p[k + 1..], s, i + |p[k].w|) == Some(t)
    ensures FirstParse(p[k..], s, i) == Some([i] + t)
  {
    StepAt(p, k, s, i, i + |p[k].w|, [], t);
  }

  /** A group marker. */
  lemma {:induction false} MarkStep(p: seq<Seg>, k: nat, s: string, i: nat, t: seq<nat>)
    requires k < |p| && (p[k].Open? || p[k].Close?) && i <= |s|
    requires FirstParse(p[k + 1..], s, i) == Some(t)
    ensures FirstParse(p[k..], s, i) == Some([i] + t)
  {
    StepAt(p, k, s, i, i, [], t);
  }

  /** A group marker followed by a character the input does not have at c. */
  lemma {:induction false} MarkThenOneFails(p: seq<Seg>, k: nat, s: string, c: nat)
    requires k + 1 < |p| && (p[k].Open? || p[k].Close?) && p[k + 1].One? && c <= |s|
    requires !(c < |s| && InClass(p[k + 1].k, s[c]))
    ensures FirstParse(p[k..], s, c).None?
  {
    DeadAt(p, k + 1, s, c);
    FailAt(p, k, s, c, c);
  }

  lemma {:induction false} UpMembers(lo: nat, hi: int)
    ensures forall c :: c in Up(lo, hi) <==> lo <= c <= hi
  {
    var u := Up(lo, hi);
    forall c | lo <= c <= hi ensures c in u {
      assert u[c - lo] == c;
    }
  }

  lemma {:induction false} UpSplit(lo: nat, mid: nat, hi: int)
    requires lo <= mid <= hi
    ensures Up(lo, hi) == Up(lo, mid - 1) + [mid] + Up(mid + 1, hi)
  {
    var l, r := Up(lo, hi), Up(lo, mid - 1) + [mid] + Up(mid + 1, hi);
    assert |l| == |r|;
    forall k | 0 <= k < |l| ensures l[k] == r[k] {
      if k < mid - lo {
      } else if k == mid - lo {
      } else {
        assert r[k] == Up(mid + 1, hi)[k - (mid - lo) - 1];
      }
    }
  }

  /** The lazy `(.*?)` from a: when every shorter candidate end fails, the group ends at b. */
  lemma {:induction false} LazyStep(p: seq<Seg>, k: nat, s: string, a: nat, b: nat, t: seq<nat>, rest: seq<Seg>)
    requires k < |p| && p[k] == Rep(NotNewline, 0, false) && rest == p[k + 1..]
    requires a <= b <= |s|
    requires forall c | a <= c < b :: s[c] != '\n'
    requires FirstParse(p[k + 1..], s, b) == Some(t)
    requires forall c | a <= c < b :: Fails(rest, s, c)
    ensures FirstParse(p[k..], s, a) == Some([a] + t)
  {
    var R := RunEnd(NotNewline, s, a);
    UpSplit(a, b, R);
    UpMembers(a, b - 1);
    SkipAt(p, k, s, a, Up(a, b - 1), b, Up(b + 1, R), t, rest);
  }

  /** No parse of p[k..] from i when every candidate end of segment k leads nowhere. */
  lemma {:induction false} AllFail(p: seq<Seg>, k: nat, s: string, i: nat, cs: seq<nat>)
    requires k < |p| && i <= |s|
    requires forall t | 0 <= t < |cs| :: cs[t] <= |s|
    requires forall t | 0 <= t < |cs| :: FirstParse(p[k + 1..], s, cs[t]).None?
    ensures FirstOf(p[k..], s, i, cs).None?
    decreases |cs|
  {
    assert p[k..][1..] == p[k + 1..];
    if cs != [] {
      AllFail(p, k, s, i, cs[1..]);
    }
  }

  lemma {:induction false} NoParseAt(p: seq<Seg>, k: nat, s: string, i: nat)
    requires k < |p| && i <= |s|
    requires var e := Ends(p[k], s, i); forall t | 0 <= t < |e| :: FirstParse(p[k + 1..], s, e[t]).None?
    ensures FirstParse(p[k..], s, i).None?
  {
    AllFail(p, k, s, i, Ends(p[k], s, i));
  }

  /** A parse of p is, from segment t on, a parse of p[t..]. */
  lemma {:induction false} ParseSuffix(p: seq<Seg>, s: string, i: nat, q: seq<nat>, t: nat)
    requires IsParse(p, s, i, q) && t <= |p|
    ensures q[t] <= |s| && IsParse(p[t..], s, q[t], q[t..])
    decreases t
  {
    if t > 0 {
      ParseSuffix(p[1..], s, q[1], q[1..], t - 1);
      assert p[1..][t - 1..] == p[t..];
      assert q[1..][t - 1..] == q[t..];
    }
  }

  /** Segment t of a parse runs from q[t] to one of its candidate ends. */
  lemma {:induction false} ParseSegment(p: seq<Seg>, s: string, i: nat, q: seq<nat>, t: nat)
    requires IsParse(p, s, i, q) && t < |p|
    ensures q[t] <= |s| && q[t + 1] in Ends(p[t], s, q[t])
  {
    ParseSuffix(p, s, i, q, t);
  }

  /** The characters the literal segments of p spell, with multiplicity. */
  function LitChars(p: seq<Seg>): (m: multiset<char>)
    ensures p != [] && p[0].Text? ==> multiset(p[0].w) <= m
  {
    if p == [] then multiset{}
    else (if p[0].Text? then multiset(p[0].w) else multiset{}) + LitChars(p[1..])
  }

  lemma {:induction false} ParseSpellsLits(p: seq<Seg>, s: string, i: nat, q: seq<nat>)
    requires IsParse(p, s, i, q)
    ensures i <= q[|p|] <= |s| && LitChars(p) <= multiset(s[i..q[|p|]])
    decreases p
  {
    if p == [] {
    } else {
      var j, e := q[1], q[|p|];
      var cs := Ends(p[0], s, i);
      assert j in cs;
      var t :| 0 <= t < |cs| && cs[t] == j;
      ParseSpellsLits(p[1..], s, j, q[1..]);
      assert q[1..][|p| - 1] == e;
      assert s[i..e] == s[i..j] + s[j..e];
      if p[0].Text? {
        assert s[i..j] == p[0].w;
      }
    }
  }

  /** A pattern matches from i only if the rest of the text holds its literal characters. */
  lemma {:induction false} NeedsLits(p: seq<Seg>, s: string, i: nat)
    requires i <= |s| && FirstParse(p, s, i).Some?
    ensures LitChars(p) <= multiset(s[i..])
  {
    FirstParseSound(p, s, i);
    var q := FirstParse(p, s, i).value;
    ParseSpellsLits(p, s, i, q);
    var e := q[|p|];
    assert s[i..] == s[i..e] + s[e..];
  }

  /** No parse of p[k..] from c when the text after c lacks one of its literal characters. */
  lemma {:induction false} LacksLits(p: seq<Seg>, k: nat, s: string, c: nat, x: char)
    requires k <= |p| && c <= |s|
    requires multiset(s[c..])[x] < LitChars(p[k..])[x]
    ensures FirstParse(p[k..], s, c).None?
  {
    if FirstParse(p[k..], s, c).Some? {
      NeedsLits(p[k..], s, c);
    }
  }

  lemma {:induction false} PrependPair(a: nat, b: nat, c: nat, r: seq<nat>)
    ensures [a] + ([b, c] + r) == [a, b, c] + r
  {
  }

  /** A slice is the join of its two halves. */
  lemma {:induction false} SliceJoin(s: string, i: nat, j: nat, e: nat)
    requires i <= j <= e <= |s|
    ensures s[i..e] == s[i..j] + s[j..e]
  {
  }

  lemma {:induction false} PrependPairTail(a: nat, b: nat, c: nat, d: nat, r: seq<nat>)
    ensures [a] + ([b, c] + ([d] + r)) == [a, b, c, d] + r
  {
  }

  lemma {:induction false} Prepend2(a: nat, b: nat, r: seq<nat>)
    ensures [a] + ([b] + r) == [a, b] + r
  {
  }

  lemma {:induction false} Prepend3(a: nat, b: nat, c: nat, r: seq<nat>)
    ensures [a] + ([b] + ([c] + r)) == [a, b, c] + r
  {
  }

  lemma {:induction false} Assoc(x: seq<nat>, y: seq<nat>, r: seq<nat>)
    ensures x + (y + r) == (x + y) + r
  {
  }

  /** The number of copies of x in s from i on. */
  function CountFrom(s: string, i: nat, x: char): nat
    decreases |s| - i
  {
    if i >= |s| then 0 else (if s[i] == x then 1 else 0) + CountFrom(s, i + 1, x)
  }

  lemma {:induction false} CountFromIsCount(s: string, i: nat, x: char)
    requires i <= |s|
    ensures CountFrom(s, i, x) == multiset(s[i..])[x]
    decreases |s| - i
  {
    if i < |s| {
      CountFromIsCount(s, i + 1, x);
      assert s[i..] == [s[i]] + s[i + 1..];
    }
  }

  lemma {:induction false} CountFromMono(s: string, i: nat, c: nat, x: char)
    requires i <= c
    ensures CountFrom(s, c, x) <= CountFrom(s, i, x)
    decreases c - i
  {
    if i < c {
      CountFromMono(s, i + 1, c, x);
    }
  }

  lemma {:induction false} AbsentCountFrom(s: string, i: nat, x: char)
    requires i <= |s| && x !in s[i..]
    ensures CountFrom(s, i, x) == 0
    decreases |s| - i
  {
    if i < |s| {
      assert s[i] == s[i..][0];
      assert s[i + 1..] == s[i..][1..];
      AbsentCountFrom(s, i + 1, x);
    }
  }

  /** Counting in a + b from inside b counts in b. */
  lemma {:induction false} CountFromAppend(a: string, b: string, i: nat, x: char)
    requires i <= |b|
    ensures CountFrom(a + b, |a| + i, x) == CountFrom(b, i, x)
    decreases |b| - i
  {
    if i < |b| {
      assert (a + b)[|a| + i] == b[i];
      CountFromAppend(a, b, i + 1, x);
    }
  }

  /** No parse of p from any position at or after i when the text after i lacks literal characters of p. */
  lemma {:induction false} LaterFail(p: seq<Seg>, s: string, i: nat, x: char)
    requires i <= |s| && CountFrom(s, i, x) < LitCount(p, x)
    ensures forall c | i <= c <= |s| :: Fails(p, s, c)
  {
    forall c | i <= c <= |s|
      ensures Fails(p, s, c)
    {
      CountFromMono(s, i, c, x);
      CountFromIsCount(s, c, x);
      LitCountIsLitChars(p, x);
      assert p[0..] == p;
      LacksLits(p, 0, s, c, x);
    }
  }

  /** The number of copies of x among the literal segments of p. */
  function LitCount(p: seq<Seg>, x: char): nat
  {
    if p == [] then 0 else (if p[0].Text? then CountFrom(p[0].w, 0, x) else 0) + LitCount(p[1..], x)
  }

  lemma {:induction false} LitCountIsLitChars(p: seq<Seg>, x: char)
    ensures LitCount(p, x) == LitChars(p)[x]
    decreases p
  {
    if p != [] {
      LitCountIsLitChars(p[1..], x);
      if p[0].Text? {
        CountFromIsCount(p[0].w, 0, x);
        assert p[0].w[0..] == p[0].w;
      }
    }
  }

  lemma {:induction false} LitCountCons(p: seq<Seg>, k: nat, x: char)
    requires k < |p|
    ensures LitCount(p[k..], x) == (if p[k].Text? then CountFrom(p[k].w, 0, x) else 0) + LitCount(p[k + 1..], x)
  {
    assert p[k..][1..] == p[k + 1..];
  }

  lemma {:induction false} LitCountMono(p: seq<Seg>, k: nat, t: nat, x: char)
    requires k <= t <= |p|
    ensures LitCount(p[t..], x) <= LitCount(p[k..], x)
    decreases t - k
  {
    if k < t {
      LitCountCons(p, k, x);
      LitCountMono(p, k + 1, t, x);
    }
  }

  lemma {:induction false} PresentCountFrom(w: string, x: char)
    requires x in w
    ensures CountFrom(w, 0, x) >= 1
  {
    CountFromIsCount(w, 0, x);
    assert w[0..] == w;
  }

  /** A literal of p at or after k holding x puts x among the literal characters of p[k..]. */
  lemma {:induction false} LitAt(p: seq<Seg>, k: nat, t: nat, x: char)
    requires k <= t < |p| && p[t].Text? && x in p[t].w
    ensures LitCount(p[k..], x) >= 1
  {
    LitCountCons(p, t, x);
    PresentCountFrom(p[t].w, x);
    LitCountMono(p, k, t, x);
  }

  /** Two literals of p at or after k holding x. */
  lemma {:induction false} LitAtTwo(p: seq<Seg>, k: nat, t: nat, u: nat, x: char)
    requires k <= t < u < |p| && p[t].Text? && x in p[t].w && p[u].Text? && x in p[u].w
    ensures LitCount(p[k..], x) >= 2
  {
    LitCountCons(p, t, x);
    PresentCountFrom(p[t].w, x);
    LitAt(p, t + 1, u, x);
    LitCountMono(p, k, t, x);
  }

  /** The first index of x in p at or after i, or |p| when x does not occur there. */
  function FindFrom(p: seq<Seg>, x: Seg, i: nat): (t: nat)
    requires i <= |p|
    ensures i <= t <= |p| && (t < |p| ==> p[t] == x)
    decreases |p| - i
  {
    if i == |p| then |p| else if p[i] == x then i else FindFrom(p, x, i + 1)
  }

  /** The first index of x in p, or |p| when x does not occur. */
  function Find(p: seq<Seg>, x: Seg): (t: nat)
    ensures t <= |p| && (t < |p| ==> p[t] == x)
  {
    FindFrom(p, x, 0)
  }

  lemma {:induction false} FindFromAt(p: seq<Seg>, x: Seg, i: nat, t: nat)
    requires i <= t < |p| && p[t] == x && forall u | i <= u < t :: p[u] != x
    ensures FindFrom(p, x, i) == t
    decreases t - i
  {
    if i < t {
      FindFromAt(p, x, i + 1, t);
    }
  }

  lemma {:induction false} FindAt(p: seq<Seg>, x: Seg, t: nat)
    requires t < |p| && p[t] == x && forall u | 0 <= u < t :: p[u] != x
    ensures Find(p, x) == t
  {
    FindFromAt(p, x, 0, t);
  }

  lemma {:induction false} FindFromAbsent(p: seq<Seg>, x: Seg, i: nat)
    requires i <= |p| && forall u | i <= u < |p| :: p[u] != x
    ensures FindFrom(p, x, i) == |p|
    decreases |p| - i
  {
    if i < |p| {
      FindFromAbsent(p, x, i + 1);
    }
  }

  lemma {:induction false} FindAbsent(p: seq<Seg>, x: Seg)
    requires forall u | 0 <= u < |p| :: p[u] != x
    ensures Find(p, x) == |p|
  {
    FindFromAbsent(p, x, 0);
  }

  /** A search of a + b from inside b is a search of b. */
  lemma {:induction false} FindFromShift(a: seq<Seg>, b: seq<Seg>, x: Seg, i: nat)
    requires |a| <= i <= |a| + |b|
    ensures FindFrom(a + b, x, i) == |a| + FindFrom(b, x, i - |a|)
    decreases |a| + |b| - i
  {
    if i < |a| + |b| {
      assert (a + b)[i] == b[i - |a|];
      FindFromShift(a, b, x, i + 1);
    }
  }

  /** A search of a + b from inside a stays in a while x occurs there. */
  lemma {:induction false} FindFromAppend(a: seq<Seg>, b: seq<Seg>, x: Seg, i: nat)
    requires i <= |a|
    ensures FindFrom(a + b, x, i) == if FindFrom(a, x, i) < |a| then FindFrom(a, x, i) else |a| + FindFrom(b, x, 0)
    decreases |a| - i
  {
    if i == |a| {
      FindFromShift(a, b, x, i);
    } else {
      assert (a + b)[i] == a[i];
      FindFromAppend(a, b, x, i + 1);
    }
  }

  /** Find in a concatenation looks in the second part only when x is missing from the first. */
  lemma {:induction false} FindAppend(a: seq<Seg>, b: seq<Seg>, x: Seg)
    ensures Find(a + b, x) == if Find(a, x) < |a| then Find(a, x) else |a| + Find(b, x)
  {
    FindFromAppend(a, b, x, 0);
  }

  /** Find in four concatenated parts. */
  lemma {:induction false} FindIn4(a: seq<Seg>, b: seq<Seg>, c: seq<Seg>, d: seq<Seg>, x: Seg)
    ensures Find(a + b + c + d, x) ==
      if Find(a, x) < |a| then Find(a, x)
      else if Find(b, x) < |b| then |a| + Find(b, x)
      else if Find(c, x) < |c| then |a| + |b| + Find(c, x)
      else |a| + |b| + |c| + Find(d, x)
  {
    FindAppend(a, b, x);
    FindAppend(a + b, c, x);
    FindAppend(a + b + c, d, x);
  }

  /** Find in six concatenated parts. */
  lemma {:induction false} FindIn6(a: seq<Seg>, b: seq<Seg>, c: seq<Seg>, d: seq<Seg>, e: seq<Seg>, f: seq<Seg>, x: Seg)
    ensures Find(a + b + c + d + e + f, x) ==
      if Find(a, x) < |a| then Find(a, x)
      else if Find(b, x) < |b| then |a| + Find(b, x)
      else if Find(c, x) < |c| then |a| + |b| + Find(c, x)
      else if Find(d, x) < |d| then |a| + |b| + |c| + Find(d, x)
      else if Find(e, x) < |e| then |a| + |b| + |c| + |d| + Find(e, x)
      else |a| + |b| + |c| + |d| + |e| + Find(f, x)
  {
    FindIn4(a, b, c, d, x);
    FindAppend(a + b + c + d, e, x);
    FindAppend(a + b + c + d + e, f, x);
  }

  /** Find in eight concatenated parts. */
  lemma {:induction false} FindIn8(a: seq<Seg>, b: seq<Seg>, c: seq<Seg>, d: seq<Seg>, e: seq<Seg>, f: seq<Seg>, h: seq<Seg>, i: seq<Seg>, x: Seg)
    ensures Find(a + b + c + d + e + f + h + i, x) ==
      if Find(a + b + c + d + e + f, x) < |a| + |b| + |c| + |d| + |e| + |f| then Find(a + b + c + d + e + f, x)
      else if Find(h, x) < |h| then |a| + |b| + |c| + |d| + |e| + |f| + Find(h, x)
      else |a| + |b| + |c| + |d| + |e| + |f| + |h| + Find(i, x)
  {
    FindAppend(a + b + c + d + e + f, h, x);
    FindAppend(a + b + c + d + e + f + h, i, x);
  }

  /** An index into six concatenated parts, read from the part it falls in. */
  lemma {:induction false} At6(a: seq<Seg>, b: seq<Seg>, c: seq<Seg>, d: seq<Seg>, e: seq<Seg>, f: seq<Seg>, k: nat)
    requires k < |a| + |b| + |c| + |d| + |e| + |f|
    ensures (a + b + c + d + e + f)[k] ==
      if k < |a| then a[k]
      else if k < |a| + |b| then b[k - |a|]
      else if k < |a| + |b| + |c| then c[k - |a| - |b|]
      else if k < |a| + |b| + |c| + |d| then d[k - |a| - |b| - |c|]
      else if k < |a| + |b| + |c| + |d| + |e| then e[k - |a| - |b| - |c| - |d|]
      else f[k - |a| - |b| - |c| - |d| - |e|]
  {
  }

  /** An index into seven concatenated parts, read from the part it falls in. */
  lemma {:induction false} At7(a: seq<Seg>, b: seq<Seg>, c: seq<Seg>, d: seq<Seg>, e: seq<Seg>, f: seq<Seg>, h: seq<Seg>, k: nat)
    requires k < |a| + |b| + |c| + |d| + |e| + |f| + |h|
    ensures (a + b + c + d + e + f + h)[k] ==
      if k < |a| + |b| + |c| + |d| + |e| + |f| then (a + b + c + d + e + f)[k]
      else h[k - |a| - |b| - |c| - |d| - |e| - |f|]
  {
  }

  /** `match.group(g)` of `re.match(p, s)`, None when p does not match. */
  function MatchGroup(p: seq<Seg>, s: string, g: nat): (r: Option<string>)
    ensures r.Some? ==> Matches(p, s)
  {
    match Match(p, s)
    case Some(q) => if |q| == |p| + 1 then Group(p, s, q, g) else None
    case None => None
  }

  /** `match.group(0)` of `re.match(p, s)`: the text the first parse consumed; None when p does not match. */
  function MatchedText(p: seq<Seg>, s: string): (r: Option<string>)
    ensures r.Some? ==> Matches(p, s) && |r.value| <= |s| && r.value == s[..|r.value|]
  {
    match Match(p, s)
    case Some(q) => if |q| == |p| + 1 && q[|p|] <= |s| then Some(s[..q[|p|]]) else None
    case None => None
  }

  /** `match.group(g)` read off the first parse q, given where the markers of group g sit. */
  lemma {:induction false} GroupOf(p: seq<Seg>, s: string, q: seq<nat>, g: nat, o: nat, c: nat)
    requires Match(p, s) == Some(q) && |q| == |p| + 1
    requires Find(p, Open(g)) == o < |p| && Find(p, Close(g)) == c < |p| && q[o] <= q[c] <= |s|
    ensures MatchGroup(p, s, g) == Some(s[q[o]..q[c]])
  {
  }

  /**
   * `match.group(g)` of the parse q: the text between the positions of the markers
   * Open(g) and Close(g), or None when the markers are missing or out of order.
   */
  function Group(p: seq<Seg>, s: string, q: seq<nat>, g: nat): (r: Option<string>)
    requires |q| == |p| + 1
    ensures r.Some? ==> |r.value| <= |s|
  {
    var o, c := Find(p, Open(g)), Find(p, Close(g));
    if o < |p| && c < |p| && q[o] <= q[c] <= |s| then Some(s[q[o]..q[c]]) else None
  }

  /** A repetition ends between its minimum and the end of the run of its class. */
  lemma {:induction false} RepEnds(g: Seg, s: string, i: nat, j: nat)
    requires g.Rep? && i <= |s| && j in Ends(g, s, i)
    ensures i + g.min <= j <= RunEnd(g.k, s, i)
  {
    DownMembers(RunEnd(g.k, s, i), i + g.min);
    UpMembers(i + g.min, RunEnd(g.k, s, i));
  }

  /** In a match, a group around one repeated character class holds only characters of that class. */
  lemma {:induction false} ClassGroup(p: seq<Seg>, s: string, g: nat, o: nat)
    requires Matches(p, s) && o + 2 < |p|
    requires p[o] == Open(g) && p[o + 1].Rep? && p[o + 2] == Close(g)
    requires Find(p, Open(g)) == o && Find(p, Close(g)) == o + 2
    ensures MatchGroup(p, s, g).Some?
    ensures |MatchGroup(p, s, g).value| >= p[o + 1].min
    ensures forall c | 0 <= c < |MatchGroup(p, s, g).value| :: InClass(p[o + 1].k, MatchGroup(p, s, g).value[c])
  {
    var q := Match(p, s).value;
    FirstParseSound(p, s, 0);
    ParseSegment(p, s, 0, q, o);
    ParseSegment(p, s, 0, q, o + 1);
    ParseSegment(p, s, 0, q, o + 2);
    var i := q[o + 1];
    assert i == q[o];
    RepEnds(p[o + 1], s, i, q[o + 2]);
    RunSlice(p[o + 1].k, s, i, q[o + 2]);
    GroupOf(p, s, q, g, o, o + 2);
  }

  /** A group right after a literal w: in the text, w ends where the group's capture starts. */
  lemma {:induction false} GroupAfterText(p: seq<Seg>, s: string, g: nat, o: nat, w: string)
    requires Matches(p, s) && 0 < o && o + 2 < |p|
    requires p[o - 1] == Text(w) && p[o] == Open(g) && p[o + 1].Rep? && p[o + 2] == Close(g)
    requires Find(p, Open(g)) == o && Find(p, Close(g)) == o + 2
    ensures var q := Match(p, s).value; var n := MatchGroup(p, s, g);
      && |q| == |p| + 1 && n.Some? && |w| <= q[o] && q[o] + |n.value| <= |s|
      && s[q[o] - |w|..q[o]] == w && s[q[o]..q[o] + |n.value|] == n.value
  {
    var q := Match(p, s).value;
    FirstParseSound(p, s, 0);
    ParseSegment(p, s, 0, q, o - 1);
    ParseSegment(p, s, 0, q, o);
    ParseSegment(p, s, 0, q, o + 1);
    ParseSegment(p, s, 0, q, o + 2);
    RepEnds(p[o + 1], s, q[o + 1], q[o + 2]);
    GroupOf(p, s, q, g, o, o + 2);
  }

  /** Every character of a slice inside a run belongs to the run's class. */
  lemma {:induction false} RunSlice(k: Class, s: string, i: nat, j: nat)
    requires i <= |s| && i <= j <= RunEnd(k, s, i)
    ensures forall c | 0 <= c < j - i :: InClass(k, s[i..j][c])
  {
    forall c | 0 <= c < j - i ensures InClass(k, s[i..j][c]) {
      assert s[i..j][c] == s[i + c];
    }
  }

  /** A match of a pattern ending in `$` covers the whole text, or all of it but a final newline. */
  lemma {:induction false} MatchCovers(p: seq<Seg>, s: string)
    requires Matches(p, s) && p != [] && p[|p| - 1] == End
    ensures |Match(p, s).value| == |p| + 1
    ensures var e := Match(p, s).value[|p|]; e == |s| || (e + 1 == |s| && s[e] == '\n')
  {
    var q := Match(p, s).value;
    FirstParseSound(p, s, 0);
    ParseSegment(p, s, 0, q, |p| - 1);
  }

  /** The fewest characters one segment consumes. */
  function SegMin(g: Seg): nat {
    match g
    case One(_) => 1
    case Rep(_, m, _) => m
    case Text(w) => |w|
    case _ => 0
  }

  /** The fewest characters a parse of p consumes. */
  function MinLength(p: seq<Seg>): nat {
    if p == [] then 0 else SegMin(p[0]) + MinLength(p[1..])
  }

  lemma {:induction false} MinLengthAppend(a: seq<Seg>, b: seq<Seg>)
    ensures MinLength(a + b) == MinLength(a) + MinLength(b)
  {
    if a != [] {
      assert (a + b)[0] == a[0] && (a + b)[1..] == a[1..] + b;
      MinLengthAppend(a[1..], b);
    } else {
      assert a + b == b;
    }
  }

  /** Every parse of p consumes at least MinLength(p) characters. */
  lemma {:induction false} ParseMinLength(p: seq<Seg>, s: string, i: nat, q: seq<nat>)
    requires IsParse(p, s, i, q)
    ensures i + MinLength(p) <= q[|p|]
    decreases p
  {
    if p != [] {
      ParseMinLength(p[1..], s, q[1], q[1..]);
      assert q[1..][|p| - 1] == q[|p|];
      match p[0]
      case Rep(k, m, _) => RepEnds(p[0], s, i, q[1]);
      case _ =>
    }
  }

  /** A text shorter than the fewest characters p consumes does not match. */
  lemma {:induction false} TooShort(p: seq<Seg>, s: string)
    requires |s| < MinLength(p)
    ensures !Matches(p, s)
  {
    FirstParseSound(p, s, 0);
    if Matches(p, s) {
      ParseMinLength(p, s, 0, Match(p, s).value);
      ParseMonotone(p, s, 0, Match(p, s).value, 0, |p|);
    }
  }

  /** A group that opens on a one-character class segment starts with a character of that class. */
  lemma {:induction false} GroupStart(p: seq<Seg>, s: string, q: seq<nat>, g: nat, o: nat, c: nat)
    requires Match(p, s) == Some(q) && o + 1 < c < |p|
    requires p[o] == Open(g) && p[o + 1].One?
    requires Find(p, Open(g)) == o && Find(p, Close(g)) == c
    ensures MatchGroup(p, s, g).Some? && MatchGroup(p, s, g).value != []
    ensures InClass(p[o + 1].k, MatchGroup(p, s, g).value[0])
  {
    FirstParseSound(p, s, 0);
    assert IsParse(p, s, 0, q);
    ParseSegment(p, s, 0, q, o);
    ParseSegment(p, s, 0, q, o + 1);
    assert q[o + 1] == q[o] && q[o + 2] == q[o] + 1 && InClass(p[o + 1].k, s[q[o]]);
    ParseMonotone(p, s, 0, q, o + 2, c);
    GroupOf(p, s, q, g, o, c);
  }

  /** Positions in a parse never decrease. */
  lemma {:induction false} ParseMonotone(p: seq<Seg>, s: string, i: nat, q: seq<nat>, a: nat, b: nat)
    requires IsParse(p, s, i, q) && a <= b <= |p|
    ensures q[a] <= q[b] <= |s|
    decreases b - a
  {
    ParseSuffix(p, s, i, q, b);
    if a < b {
      ParseSegment(p, s, i, q, a);
      ParseMonotone(p, s, i, q, a + 1, b);
    }
  }

  // ---------------------------------------------------------------------------------
  // Whitespace-separated tokens

  /** The number of maximal runs of non-space characters in x; prev says whether the character before x was not a space. */
  function Toks(x: string, prev: bool): nat {
    if x == [] then 0 else (if !IsSpace(x[0]) && !prev then 1 else 0) + Toks(x[1..], !IsSpace(x[0]))
  }

  /** The whitespace-separated tokens of s, as `s.split()` counts them. */
  function Tokens(s: string): nat {
    Toks(s, false)
  }

  /** Whether the last character of x (or the one before x, when x is empty) is not a space. */
  function Last(x: string, prev: bool): bool {
    if x == [] then prev else !IsSpace(x[|x| - 1])
  }

  lemma {:induction false} ToksAppend(x: string, y: string, prev: bool)
    ensures Toks(x + y, prev) == Toks(x, prev) + Toks(y, Last(x, prev))
    ensures Last(x + y, prev) == Last(y, Last(x, prev))
    decreases |x|
  {
    if x == [] {
      assert x + y == y;
    } else {
      assert (x + y)[0] == x[0] && (x + y)[1..] == x[1..] + y;
      ToksAppend(x[1..], y, !IsSpace(x[0]));
    }
  }

  /** A non-empty run of non-space characters is one token, or continues the previous one. */
  lemma {:induction false} ToksSolid(x: string, prev: bool)
    requires x != [] && forall c | 0 <= c < |x| :: !IsSpace(x[c])
    ensures Toks(x, prev) == (if prev then 0 else 1) && Last(x, prev)
    decreases |x|
  {
    if |x| > 1 {
      ToksSolid(x[1..], true);
    }
  }

  /** A run of spaces holds no token. */
  lemma {:induction false} ToksGap(x: string, prev: bool)
    requires forall c | 0 <= c < |x| :: IsSpace(x[c])
    ensures Toks(x, prev) == 0 && (x != [] ==> !Last(x, prev))
    decreases |x|
  {
    if x != [] {
      ToksGap(x[1..], false);
    }
  }

  /** A segment that consumes at least one character, none of them a space. */
  predicate Solid(g: Seg) {
    match g
    case One(k) => k == Digit || k == Direction || k == Word
    case Rep(k, m, _) => (k == Digit || k == Direction || k == Word) && m >= 1
    case Text(w) => w != [] && forall c | 0 <= c < |w| :: '!' <= w[c] <= '~'  // visible ASCII, never a space
    case _ => false
  }

  /** `\s+` */
  predicate Gap(g: Seg) {
    g.Rep? && g.k == Space && g.min >= 1
  }

  /** Every segment of p is solid, a gap, a group marker or `$`. */
  predicate Tokenised(p: seq<Seg>) {
    forall t | 0 <= t < |p| :: Solid(p[t]) || Gap(p[t]) || p[t].Open? || p[t].Close? || p[t] == End
  }

  /** The flag PToks and PLast carry past segment g: whether the text so far ends on a non-space. */
  function After(g: Seg, prev: bool): bool {
    if Solid(g) then true else if Gap(g) then false else prev
  }

  /** The number of tokens every parse of a tokenised p spells. */
  function PToks(p: seq<Seg>, prev: bool): nat {
    if p == [] then 0 else (if Solid(p[0]) && !prev then 1 else 0) + PToks(p[1..], After(p[0], prev))
  }

  /** Whether a parse of p ends on a non-space character. */
  function PLast(p: seq<Seg>, prev: bool): bool {
    if p == [] then prev else PLast(p[1..], After(p[0], prev))
  }

  lemma {:induction false} PToksAppend(a: seq<Seg>, b: seq<Seg>, prev: bool)
    ensures PToks(a + b, prev) == PToks(a, prev) + PToks(b, PLast(a, prev))
    ensures PLast(a + b, prev) == PLast(b, PLast(a, prev))
  {
    if a == [] {
      assert a + b == b;
    } else {
      assert (a + b)[0] == a[0] && (a + b)[1..] == a[1..] + b;
      PToksAppend(a[1..], b, After(a[0], prev));
    }
  }

  /** What one segment of a tokenised pattern consumes. */
  lemma {:induction false} SegToks(g: Seg, s: string, i: nat, j: nat, prev: bool)
    requires i <= |s| && j in Ends(g, s, i)
    requires Solid(g) || Gap(g) || g.Open? || g.Close? || g == End
    ensures i <= j <= |s| && Toks(s[i..j], prev) == (if Solid(g) && !prev then 1 else 0)
    ensures Last(s[i..j], prev) == After(g, prev)
  {
    var cs := Ends(g, s, i);
    var t :| 0 <= t < |cs| && cs[t] == j;
    if g.Rep? {
      RepEnds(g, s, i, j);
    }
    if Solid(g) {
      if g.Text? {
        assert s[i..j] == g.w;
      }
      forall c | 0 <= c < |s[i..j]| ensures !IsSpace(s[i..j][c]) {
        assert s[i..j][c] == s[i + c];
      }
      ToksSolid(s[i..j], prev);
    } else if Gap(g) {
      forall c | 0 <= c < |s[i..j]| ensures IsSpace(s[i..j][c]) {
        assert s[i..j][c] == s[i + c];
      }
      ToksGap(s[i..j], prev);
    } else {
      assert s[i..j] == [];
    }
  }

  lemma {:induction false} TokenisedTail(p: seq<Seg>)
    requires p != [] && Tokenised(p)
    ensures Tokenised(p[1..]) && (Solid(p[0]) || Gap(p[0]) || p[0].Open? || p[0].Close? || p[0] == End)
  {
    forall t | 0 <= t < |p[1..]|
      ensures Solid(p[1..][t]) || Gap(p[1..][t]) || p[1..][t].Open? || p[1..][t].Close? || p[1..][t] == End
    {
      assert p[1..][t] == p[t + 1];
    }
  }

  lemma {:induction false} TokenisedAppend(a: seq<Seg>, b: seq<Seg>)
    requires Tokenised(a) && Tokenised(b)
    ensures Tokenised(a + b)
  {
    forall t | 0 <= t < |a + b|
      ensures Solid((a + b)[t]) || Gap((a + b)[t]) || (a + b)[t].Open? || (a + b)[t].Close? || (a + b)[t] == End
    {
      if t >= |a| {
        assert (a + b)[t] == b[t - |a|];
      }
    }
  }

  /** What a solid segment consumes is non-empty and free of spaces. */
  lemma {:induction false} SolidNoSpace(g: Seg, s: string, i: nat, j: nat)
    requires i <= |s| && j in Ends(g, s, i) && Solid(g)
    ensures i < j <= |s| && forall c | i <= c < j :: !IsSpace(s[c])
  {
    var cs := Ends(g, s, i);
    var t :| 0 <= t < |cs| && cs[t] == j;
    if g.Rep? {
      RepEnds(g, s, i, j);
    }
    if g.Text? {
      forall c | i <= c < j ensures !IsSpace(s[c]) {
        assert s[c] == s[i..j][c - i];
      }
    }
  }

  /** A pattern that starts with a solid segment matches only a text that starts with a non-space. */
  lemma {:induction false} MatchStartsSolid(p: seq<Seg>, s: string)
    requires Matches(p, s) && p != [] && Solid(p[0])
    ensures s != [] && !IsSpace(s[0])
  {
    FirstParseSound(p, s, 0);
    var q := Match(p, s).value;
    SolidNoSpace(p[0], s, 0, q[1]);
  }

  /** One segment in front of a tokenised pattern. */
  lemma {:induction false} ConsToks(g: Seg, rest: seq<Seg>, prev: bool, n: nat, last: bool)
    requires Solid(g) || Gap(g) || g.Open? || g.Close? || g == End
    requires Tokenised(rest) && PToks(rest, After(g, prev)) == n && PLast(rest, After(g, prev)) == last
    ensures Tokenised([g] + rest) && PToks([g] + rest, prev) == (if Solid(g) && !prev then 1 else 0) + n
    ensures PLast([g] + rest, prev) == last
  {
    assert ([g] + rest)[0] == g && ([g] + rest)[1..] == rest;
    forall t | 0 <= t < |[g] + rest|
      ensures Solid(([g] + rest)[t]) || Gap(([g] + rest)[t]) || ([g] + rest)[t].Open? || ([g] + rest)[t].Close?
        || ([g] + rest)[t] == End
    {
      if t > 0 {
        assert ([g] + rest)[t] == rest[t - 1];
      }
    }
  }

  /** The token count of a concatenation of tokenised patterns, from the counts of the parts. */
  lemma {:induction false} ChainToks(a: seq<Seg>, b: seq<Seg>, prev: bool, mid: bool, last: bool, na: nat, nb: nat)
    requires Tokenised(a) && PToks(a, prev) == na && PLast(a, prev) == mid
    requires Tokenised(b) && PToks(b, mid) == nb && PLast(b, mid) == last
    ensures Tokenised(a + b) && PToks(a + b, prev) == na + nb && PLast(a + b, prev) == last
  {
    PToksAppend(a, b, prev);
    TokenisedAppend(a, b);
  }

  /** ChainToks over four runs. */
  lemma {:induction false} ChainFour(a: seq<Seg>, b: seq<Seg>, c: seq<Seg>, d: seq<Seg>, prev: bool, m1: bool, m2: bool,
                                     m3: bool, last: bool, na: nat, nb: nat, nc: nat, nd: nat)
    requires Tokenised(a) && PToks(a, prev) == na && PLast(a, prev) == m1
    requires Tokenised(b) && PToks(b, m1) == nb && PLast(b, m1) == m2
    requires Tokenised(c) && PToks(c, m2) == nc && PLast(c, m2) == m3
    requires Tokenised(d) && PToks(d, m3) == nd && PLast(d, m3) == last
    ensures Tokenised(a + b + c + d) && PToks(a + b + c + d, prev) == na + nb + nc + nd && PLast(a + b + c + d, prev) == last
  {
    ChainToks(a, b, prev, m1, m2, na, nb);
    ChainToks(a + b, c, prev, m2, m3, na + nb, nc);
    ChainToks(a + b + c, d, prev, m3, last, na + nb + nc, nd);
  }

  /** The tokens segment g starts after a text whose last character is a non-space exactly when prev. */
  function SegCount(g: Seg, prev: bool): nat {
    if Solid(g) && !prev then 1 else 0
  }

  /** g is solid, a gap, a group marker or `$`. */
  predicate SegTokenised(g: Seg) {
    Solid(g) || Gap(g) || g.Open? || g.Close? || g == End
  }

  /** PToks, PLast and Tokenised of a two-segment pattern, one segment at a time. */
  lemma {:induction false} TwoSegs(a: Seg, b: Seg, prev: bool)
    ensures Tokenised([a, b]) <==> SegTokenised(a) && SegTokenised(b)
    ensures PToks([a, b], prev) == SegCount(a, prev) + SegCount(b, After(a, prev))
    ensures PLast([a, b], prev) == After(b, After(a, prev))
  {
    var q := After(a, prev);
    assert [a, b][1..] == [b];
    assert [b][1..] == [];
    assert PToks([b], q) == SegCount(b, q) + PToks([], After(b, q));
    assert PLast([b], q) == PLast([], After(b, q));
    assert [a, b][0] == a && [a, b][1] == b;
    assert Tokenised([a, b]) <==> SegTokenised([a, b][0]) && SegTokenised([a, b][1]);
  }

  /** PToks, PLast and Tokenised of a three-segment pattern, one segment at a time. */
  lemma {:induction false} ThreeSegs(a: Seg, b: Seg, c: Seg, prev: bool)
    ensures Tokenised([a, b, c]) <==> SegTokenised(a) && SegTokenised(b) && SegTokenised(c)
    ensures PToks([a, b, c], prev) == SegCount(a, prev) + SegCount(b, After(a, prev)) + SegCount(c, After(b, After(a, prev)))
    ensures PLast([a, b, c], prev) == After(c, After(b, After(a, prev)))
  {
    assert [a, b, c][1..] == [b, c];
    TwoSegs(b, c, After(a, prev));
    assert Tokenised([a, b, c]) <==> SegTokenised(a) && Tokenised([b, c]) by {
      assert forall t | 1 <= t < 3 :: [a, b, c][t] == [b, c][t - 1];
    }
  }

  /** PToks, PLast and Tokenised of a four-segment pattern, one segment at a time. */
  lemma {:induction false} FourSegs(a: Seg, b: Seg, c: Seg, d: Seg, prev: bool)
    ensures Tokenised([a, b, c, d]) <==> SegTokenised(a) && SegTokenised(b) && SegTokenised(c) && SegTokenised(d)
    ensures PToks([a, b, c, d], prev) == SegCount(a, prev) + SegCount(b, After(a, prev)) +
      SegCount(c, After(b, After(a, prev))) + SegCount(d, After(c, After(b, After(a, prev))))
    ensures PLast([a, b, c, d], prev) == After(d, After(c, After(b, After(a, prev))))
  {
    assert [a, b, c, d][1..] == [b, c, d];
    ThreeSegs(b, c, d, After(a, prev));
    assert Tokenised([a, b, c, d]) <==> SegTokenised(a) && Tokenised([b, c, d]) by {
      assert forall t | 1 <= t < 4 :: [a, b, c, d][t] == [b, c, d][t - 1];
    }
  }

  /** Every parse of a tokenised pattern spells exactly PToks(p, prev) tokens. */
  lemma {:induction false} ParseToks(p: seq<Seg>, s: string, i: nat, q: seq<nat>, prev: bool)
    requires IsParse(p, s, i, q) && Tokenised(p)
    ensures i <= q[|p|] <= |s|
    ensures Toks(s[i..q[|p|]], prev) == PToks(p, prev) && Last(s[i..q[|p|]], prev) == PLast(p, prev)
    decreases p
  {
    if p != [] {
      var j, e := q[1], q[|p|];
      TokenisedTail(p);
      ParseToks(p[1..], s, j, q[1..], After(p[0], prev));
      assert q[1..][|p| - 1] == e;
      SegToks(p[0], s, i, j, prev);
      SliceJoin(s, i, j, e);
      ToksAppend(s[i..j], s[j..e], prev);
    }
  }

  /** A text a `$`-terminated tokenised pattern matches has exactly PToks(p, false) tokens. */
  lemma {:induction false} MatchTokens(p: seq<Seg>, s: string)
    requires Matches(p, s) && p != [] && p[|p| - 1] == End && Tokenised(p)
    ensures Tokens(s) == PToks(p, false)
  {
    MatchCovers(p, s);
    FirstParseSound(p, s, 0);
    var q := Match(p, s).value;
    ParseToks(p, s, 0, q, false);
    var e := q[|p|];
    SliceJoin(s, 0, e, |s|);
    assert s[0..|s|] == s && s[e..|s|] == s[e..];
    ToksAppend(s[0..e], s[e..], false);
    forall c | 0 <= c < |s[e..]| ensures IsSpace(s[e..][c]) {
    }
    ToksGap(s[e..], Last(s[0..e], false));
  }
}
