/**
 * The classification loop every format module shares: walk an ordered table of
 * (format, pattern) entries and report the format of the first pattern that
 * `re.match`es the text.
 */
module Classify {
  import opened Regex
  import opened Text

  /** What a Python call gives back: a value, or an exception that propagates to the caller. */
  datatype Outcome<T> = Raised | Returned(value: T)

  /** The index of the first entry whose pattern matches s, or |table| when none does. */
  function FirstIndex<F>(table: seq<(F, seq<Seg>)>, s: string): (k: nat)
    ensures k <= |table|
    ensures k < |table| ==> Matches(table[k].1, s)
    ensures forall j | 0 <= j < k :: !Matches(table[j].1, s)
  {
    if table == [] then 0
    else if Matches(table[0].1, s) then 0
    else FirstIndex(table[1..], s) + 1
  }

  /** The format of the first matching entry; None when no pattern matches. */
  function FirstMatch<F>(table: seq<(F, seq<Seg>)>, s: string): (r: Option<F>)
    ensures r.Some? <==> exists k | 0 <= k < |table| :: Matches(table[k].1, s)
    ensures r.Some? ==> exists k | 0 <= k < |table| ::
      table[k].0 == r.value && Matches(table[k].1, s) && forall j | 0 <= j < k :: !Matches(table[j].1, s)
  {
    var k := FirstIndex(table, s);
    if k < |table| then Some(table[k].0) else None
  }

  /** A default no entry of the table carries is the answer exactly when no pattern matches. */
  lemma {:induction false} NoMatchGivesDefault<F>(table: seq<(F, seq<Seg>)>, s: string, default: F)
    requires forall k | 0 <= k < |table| :: table[k].0 != default
    ensures var f := FirstMatch(table, s); (if f.Some? then f.value else default) == default <==>
      forall k | 0 <= k < |table| :: !Matches(table[k].1, s)
  {
    var f := FirstMatch(table, s);
    if f.Some? {
      var k :| 0 <= k < |table| && table[k].0 == f.value && Matches(table[k].1, s);
    }
  }

  /** An entry whose pattern matches, preceded only by entries whose patterns do not, decides the result. */
  lemma {:induction false} FirstMatchAt<F>(table: seq<(F, seq<Seg>)>, s: string, k: nat)
    requires k < |table| && Matches(table[k].1, s)
    requires forall j | 0 <= j < k :: !Matches(table[j].1, s)
    ensures FirstMatch(table, s) == Some(table[k].0)
  {
    var i := FirstIndex(table, s);
    assert !(i < k) && !(k < i);
  }

  /** A loop over the table that has passed k entries that do not match passes one more. */
  lemma {:induction false} FirstIndexSkip<F>(table: seq<(F, seq<Seg>)>, s: string, k: nat)
    requires k < |table| && k <= FirstIndex(table, s) && !Matches(table[k].1, s)
    ensures k + 1 <= FirstIndex(table, s)
  {
  }

  /** The first entry such a loop finds matching is the one FirstMatch reports. */
  lemma {:induction false} FirstIndexHit<F>(table: seq<(F, seq<Seg>)>, s: string, k: nat)
    requires k < |table| && k <= FirstIndex(table, s) && Matches(table[k].1, s)
    ensures FirstMatch(table, s) == Some(table[k].0)
  {
    assert FirstIndex(table, s) == k;
  }

  /** An entry whose pattern matches bounds the index of the first match. */
  lemma {:induction false} FirstIndexAtMost<F>(table: seq<(F, seq<Seg>)>, s: string, k: nat)
    requires k < |table| && Matches(table[k].1, s)
    ensures FirstIndex(table, s) <= k && FirstMatch(table, s) == Some(table[FirstIndex(table, s)].0)
  {
  }

  lemma {:induction false} FirstIndexBounded<F>(table: seq<(F, seq<Seg>)>, s: string)
    ensures FirstIndex(table, s) < |table| ==> FirstMatch(table, s) == Some(table[FirstIndex(table, s)].0)
  {
  }

  /** A loop that passes every entry finds none matching. */
  lemma {:induction false} FirstIndexNone<F>(table: seq<(F, seq<Seg>)>, s: string)
    requires |table| <= FirstIndex(table, s)
    ensures FirstMatch(table, s) == None
  {
  }

  /** What f gives for each element of xs, concatenated in the order of xs. */
  function Collect<A, B>(f: A -> seq<B>, xs: seq<A>): seq<B> {
    if xs == [] then [] else Collect(f, xs[..|xs| - 1]) + f(xs[|xs| - 1])
  }

  /** One more element at the end adds what f gives for it. */
  lemma {:induction false} CollectSnoc<A, B>(f: A -> seq<B>, xs: seq<A>, x: A)
    ensures Collect(f, xs + [x]) == Collect(f, xs) + f(x)
  {
    assert (xs + [x])[..|xs|] == xs;
  }

  /** Collecting over a concatenation concatenates the collections. */
  lemma {:induction false} CollectAppend<A, B>(f: A -> seq<B>, xs: seq<A>, ys: seq<A>)
    ensures Collect(f, xs + ys) == Collect(f, xs) + Collect(f, ys)
    decreases |ys|
  {
    if ys == [] {
      assert xs + ys == xs;
    } else {
      var init, last := ys[..|ys| - 1], ys[|ys| - 1];
      assert ys == init + [last];
      assert xs + ys == (xs + init) + [last];
      CollectAppend(f, xs, init);
      CollectSnoc(f, xs + init, last);
      CollectSnoc(f, init, last);
    }
  }

  /** The collection over one more element of a prefix. */
  lemma {:induction false} CollectPrefix<A, B>(f: A -> seq<B>, xs: seq<A>, i: nat)
    requires i < |xs|
    ensures Collect(f, xs[..i + 1]) == Collect(f, xs[..i]) + f(xs[i])
  {
    assert xs[..i + 1] == xs[..i] + [xs[i]];
    CollectSnoc(f, xs[..i], xs[i]);
  }

  /** Nothing is collected when f gives nothing for any element. */
  lemma {:induction false} CollectNone<A, B>(f: A -> seq<B>, xs: seq<A>)
    requires forall k | 0 <= k < |xs| :: f(xs[k]) == []
    ensures Collect(f, xs) == []
    decreases |xs|
  {
    if xs != [] {
      var init := xs[..|xs| - 1];
      assert forall k | 0 <= k < |init| :: init[k] == xs[k];
      CollectNone(f, init);
    }
  }

  /** When f gives exactly one value per element, the collection holds those values in order. */
  lemma {:induction false} CollectSingles<A, B>(f: A -> seq<B>, xs: seq<A>)
    requires forall k | 0 <= k < |xs| :: |f(xs[k])| == 1
    ensures |Collect(f, xs)| == |xs| && forall k | 0 <= k < |xs| :: Collect(f, xs)[k] == f(xs[k])[0]
    decreases |xs|
  {
    if xs != [] {
      var init := xs[..|xs| - 1];
      assert forall k | 0 <= k < |init| :: init[k] == xs[k];
      CollectSingles(f, init);
    }
  }

  /**
   * When f gives at most one value per element, the collection has at most one value
   * per element, exactly one per element iff f gives one for each, and every value
   * collected is the one f gives for some element.
   */
  lemma {:induction false} CollectAtMostOne<A, B>(f: A -> seq<B>, xs: seq<A>)
    requires forall k | 0 <= k < |xs| :: |f(xs[k])| <= 1
    ensures |Collect(f, xs)| <= |xs|
    ensures |Collect(f, xs)| == |xs| <==> forall k | 0 <= k < |xs| :: |f(xs[k])| == 1
    ensures forall k | 0 <= k < |Collect(f, xs)| :: exists i | 0 <= i < |xs| :: f(xs[i]) == [Collect(f, xs)[k]]
    decreases |xs|
  {
    if xs != [] {
      var init, last := xs[..|xs| - 1], xs[|xs| - 1];
      assert forall k | 0 <= k < |init| :: init[k] == xs[k];
      CollectAtMostOne(f, init);
      var c := Collect(f, xs);
      assert c == Collect(f, init) + f(last);
      forall k | 0 <= k < |c| ensures exists i | 0 <= i < |xs| :: f(xs[i]) == [c[k]] {
        if k < |Collect(f, init)| {
          var i :| 0 <= i < |init| && f(init[i]) == [Collect(f, init)[k]];
          assert xs[i] == init[i];
        } else {
          assert f(xs[|xs| - 1]) == [c[k]];
        }
      }
      if forall k | 0 <= k < |xs| :: |f(xs[k])| == 1 {
        assert |f(xs[|xs| - 1])| == 1;
      }
    }
  }

  /**
   * Applying f to each element in order, as a loop that appends each result does: the
   * list of results, or Raised as soon as one application raises.
   */
  function CollectAll<A, B>(f: A -> Outcome<B>, xs: seq<A>): Outcome<seq<B>> {
    if xs == [] then Returned([])
    else match CollectAll(f, xs[..|xs| - 1])
      case Raised => Raised
      case Returned(rs) => (match f(xs[|xs| - 1]) case Raised => Raised case Returned(r) => Returned(rs + [r]))
  }

  /** The loop returns iff no application raises, and then it holds the result of each element in order. */
  lemma {:induction false} CollectAllReturned<A, B>(f: A -> Outcome<B>, xs: seq<A>)
    ensures CollectAll(f, xs).Returned? <==> forall k | 0 <= k < |xs| :: f(xs[k]).Returned?
    ensures CollectAll(f, xs).Returned? ==>
      |CollectAll(f, xs).value| == |xs| && forall k | 0 <= k < |xs| :: CollectAll(f, xs).value[k] == f(xs[k]).value
    decreases |xs|
  {
    if xs != [] {
      var init := xs[..|xs| - 1];
      CollectAllReturned(f, init);
      assert forall k | 0 <= k < |init| :: init[k] == xs[k];
      if forall k | 0 <= k < |xs| :: f(xs[k]).Returned? {
        assert forall k | 0 <= k < |init| :: f(init[k]).Returned?;
        assert f(xs[|xs| - 1]).Returned?;
      }
    }
  }

  /** An application that raises makes the whole loop raise, whatever follows. */
  lemma {:induction false} CollectAllRaised<A, B>(f: A -> Outcome<B>, xs: seq<A>, i: nat)
    requires i < |xs| && f(xs[i]).Raised?
    ensures CollectAll(f, xs) == Raised
  {
    CollectAllReturned(f, xs);
  }

  /** Extending a prefix whose loop returned by one element that returns. */
  lemma {:induction false} CollectAllSnoc<A, B>(f: A -> Outcome<B>, xs: seq<A>, i: nat, rs: seq<B>)
    requires i < |xs| && CollectAll(f, xs[..i]) == Returned(rs) && f(xs[i]).Returned?
    ensures CollectAll(f, xs[..i + 1]) == Returned(rs + [f(xs[i]).value])
  {
    assert xs[..i + 1][..i] == xs[..i];
  }

  /**
   * `format += str(lookup(location)) + ";"` over the pieces: the text of each piece
   * followed by ';', or Raised as soon as one lookup raises.
   */
  function RenderAll<A>(f: A -> Outcome<string>, xs: seq<A>): Outcome<string> {
    if xs == [] then Returned("")
    else match RenderAll(f, xs[..|xs| - 1])
      case Raised => Raised
      case Returned(t) => (match f(xs[|xs| - 1]) case Raised => Raised case Returned(u) => Returned(t + u + ";"))
  }

  /** One lookup that raises makes the whole rendering raise, whatever the other pieces give. */
  lemma {:induction false} RenderAllRaises<A>(f: A -> Outcome<string>, xs: seq<A>, i: nat)
    requires i < |xs| && f(xs[i]).Raised?
    ensures RenderAll(f, xs) == Raised
    decreases |xs|
  {
    if i < |xs| - 1 {
      var init := xs[..|xs| - 1];
      assert init[i] == xs[i];
      RenderAllRaises(f, init, i);
    }
  }

  /**
   * When every lookup returns a text free of ';', the rendering returns, and cutting it at
   * ';' gives the texts of the pieces in order followed by the empty text after the last ';'.
   */
  lemma {:induction false} RenderAllChunks<A>(f: A -> Outcome<string>, xs: seq<A>)
    requires forall k | 0 <= k < |xs| :: f(xs[k]).Returned? && ';' !in f(xs[k]).value
    ensures RenderAll(f, xs).Returned?
    ensures var t := RenderAll(f, xs).value; t == [] || t[|t| - 1] == ';'
    ensures var cs := Split(RenderAll(f, xs).value, ';');
      |cs| == |xs| + 1 && cs[|xs|] == [] && forall k | 0 <= k < |xs| :: cs[k] == f(xs[k]).value
    decreases |xs|
  {
    if xs == [] {
      SplitFree([], ';');
    } else {
      var init, last := xs[..|xs| - 1], xs[|xs| - 1];
      assert forall k | 0 <= k < |init| :: init[k] == xs[k];
      RenderAllChunks(f, init);
      var t, u := RenderAll(f, init).value, f(last).value;
      assert RenderAll(f, xs).value == (t + u) + [';'] + [];
      SplitLast(t + u, [], ';');
      RenderedSplit(t, u);
    }
  }

  /** Extending a rendering that is empty or ends in ';' by a text free of ';' replaces the empty last piece of its cut. */
  lemma {:induction false} RenderedSplit(t: string, u: string)
    requires ';' !in u && (t == [] || t[|t| - 1] == ';')
    ensures Split(t + u, ';') == Split(t, ';')[..|Split(t, ';')| - 1] + [u]
  {
    if t == [] {
      SplitFree(u, ';');
      SplitFree([], ';');
      assert t + u == u;
    } else {
      var t' := t[..|t| - 1];
      assert t == t' + [';'] + [];
      assert t + u == t' + [';'] + u;
      SplitLast(t', u, ';');
      SplitLast(t', [], ';');
    }
  }

  /**
   * The loop of `get_location_text_format(text)`: cut the text at ';' and append what the
   * lookup renders for each piece, followed by ';'.  The lookup is a parameter because the
   * revisions differ in which `get_location_format` the name resolves to.
   */
  method TextFormatLoop(text: string, lookup: string -> Outcome<string>) returns (r: Outcome<string>)
    ensures r == RenderAll(lookup, Split(text, ';'))
  {
    var locations := Split(text, ';');
    var format := "";
    for i := 0 to |locations|
      invariant RenderAll(lookup, locations[..i]) == Returned(format)
    {
      assert locations[..i + 1][..i] == locations[..i];
      match lookup(locations[i])
      case Raised =>
        RenderAllRaises(lookup, locations, i);
        return Raised;
      case Returned(t) =>
        format := format + t + ";";
    }
    assert locations[..|locations|] == locations;
    r := Returned(format);
  }
}
