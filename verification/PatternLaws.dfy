// Laws of the pattern language of src/lib/pmatch.c, which tie the meaning of its items to each
// other and to texts.

module PatternLaws {
  import opened Common
  import opened PatternSyntax
  import opened PatternSemantics
  import opened PatternGroups

  // Some path goes through the items from there.
  ghost predicate Admits(s: string, its: seq<Item>, i: nat, caps: seq<Cap>) {
    exists ks :: Path(s, its, i, caps, ks)
  }

  // The first item stops at k, and the others go on from there.
  lemma AdmitsVia(s: string, x: Item, rest: seq<Item>, i: nat, caps: seq<Cap>, k: nat)
    requires Step(s, x, i, caps, k) && Admits(s, rest, k, After(x, i, caps))
    ensures Admits(s, [x] + rest, i, caps)
  {
    var ks :| Path(s, rest, k, After(x, i, caps), ks);
    PathCons(s, x, rest, i, caps, [k] + ks);
    assert Path(s, [x] + rest, i, caps, [k] + ks);
  }

  lemma FirstStop(s: string, x: Item, rest: seq<Item>, i: nat, caps: seq<Cap>) returns (k: nat)
    requires Admits(s, [x] + rest, i, caps)
    ensures Step(s, x, i, caps, k) && Admits(s, rest, k, After(x, i, caps))
  {
    var ks :| Path(s, [x] + rest, i, caps, ks);
    PathCons(s, x, rest, i, caps, ks);
    k := ks[0];
  }

  // ---------------------------------------------------------------- repetitions

  // x? is x or nothing.
  lemma OptIsEither(s: string, x: Single, rest: seq<Item>, i: nat, caps: seq<Cap>)
    ensures Admits(s, [Opt(x)] + rest, i, caps) <==>
              Admits(s, [One(x)] + rest, i, caps) || Admits(s, rest, i, caps)
  {
    if Admits(s, [Opt(x)] + rest, i, caps) {
      var k := FirstStop(s, Opt(x), rest, i, caps);
      if k != i { AdmitsVia(s, One(x), rest, i, caps, k); }
    }
    if Admits(s, [One(x)] + rest, i, caps) {
      var k := FirstStop(s, One(x), rest, i, caps);
      AdmitsVia(s, Opt(x), rest, i, caps, k);
    }
    if Admits(s, rest, i, caps) { AdmitsVia(s, Opt(x), rest, i, caps, i); }
  }

  // x+ is x and x*.
  lemma PlusIsOneStar(s: string, x: Single, rest: seq<Item>, i: nat, caps: seq<Cap>)
    ensures Admits(s, [Plus(x)] + rest, i, caps) <==> Admits(s, [One(x)] + ([Star(x)] + rest), i, caps)
  {
    if Admits(s, [Plus(x)] + rest, i, caps) {
      var k := FirstStop(s, Plus(x), rest, i, caps);
      AdmitsVia(s, Star(x), rest, i + 1, caps, k);
      AdmitsVia(s, One(x), [Star(x)] + rest, i, caps, i + 1);
    }
    if Admits(s, [One(x)] + ([Star(x)] + rest), i, caps) {
      var j := FirstStop(s, One(x), [Star(x)] + rest, i, caps);
      var k := FirstStop(s, Star(x), rest, j, caps);
      AdmitsVia(s, Plus(x), rest, i, caps, k);
    }
  }

  // x* is nothing, or x and x*.
  lemma StarUnfolds(s: string, x: Single, rest: seq<Item>, i: nat, caps: seq<Cap>)
    ensures Admits(s, [Star(x)] + rest, i, caps) <==>
              Admits(s, rest, i, caps) || Admits(s, [One(x)] + ([Star(x)] + rest), i, caps)
  {
    PlusIsOneStar(s, x, rest, i, caps);
    if Admits(s, [Star(x)] + rest, i, caps) {
      var k := FirstStop(s, Star(x), rest, i, caps);
      if k != i { AdmitsVia(s, Plus(x), rest, i, caps, k); }
    }
    if Admits(s, rest, i, caps) { AdmitsVia(s, Star(x), rest, i, caps, i); }
    if Admits(s, [Plus(x)] + rest, i, caps) {
      var k := FirstStop(s, Plus(x), rest, i, caps);
      AdmitsVia(s, Star(x), rest, i, caps, k);
    }
  }

  // x- matches where x* does.
  lemma LazyIsStar(s: string, x: Single, rest: seq<Item>, i: nat, caps: seq<Cap>)
    ensures Admits(s, [Lazy(x)] + rest, i, caps) <==> Admits(s, [Star(x)] + rest, i, caps)
  {
    if Admits(s, [Lazy(x)] + rest, i, caps) {
      var k := FirstStop(s, Lazy(x), rest, i, caps);
      AdmitsVia(s, Star(x), rest, i, caps, k);
    }
    if Admits(s, [Star(x)] + rest, i, caps) {
      var k := FirstStop(s, Star(x), rest, i, caps);
      AdmitsVia(s, Lazy(x), rest, i, caps, k);
    }
  }

  // Of the two, x* prefers the longest run and x- the shortest that lets the rest match.
  lemma FirstStopIs(s: string, x: Single, lazy: bool, rest: seq<Item>, i: nat, caps: seq<Cap>, ks: seq<nat>, k: nat)
    requires var its := [if lazy then Lazy(x) else Star(x)] + rest; IsFirstPath(s, its, i, caps, ks)
    requires Step(s, Star(x), i, caps, k) && Admits(s, rest, k, caps)
    ensures if lazy then ks[0] <= k else k <= ks[0]
  {
    var item := if lazy then Lazy(x) else Star(x);
    var js :| Path(s, rest, k, caps, js);
    PathCons(s, item, rest, i, caps, [k] + js);
    PathLength(s, [item] + rest, i, caps, [k] + js);
    assert Path(s, [item] + rest, i, caps, [k] + js);
    assert ([item] + rest)[0] == item;
  }

  lemma {:induction false} PathLength(s: string, its: seq<Item>, i: nat, caps: seq<Cap>, ks: seq<nat>)
    requires Path(s, its, i, caps, ks)
    ensures |ks| == |its|
    decreases |its|
  {
    if its != [] { PathLength(s, its[1..], ks[0], After(its[0], i, caps), ks[1..]); }
  }

  // ---------------------------------------------------------------- texts

  // A final $ matches at the end only: the pattern of a text and $ takes exactly that text.
  lemma AtEndIsEnd(s: string, text: string, i: nat, caps: seq<Cap>)
    requires i <= |s|
    ensures Admits(s, Lits(text) + [AtEnd], i, caps) <==> s[i..] == text
  {
    var n, its := |text|, Lits(text) + [AtEnd];
    if ks :| Path(s, its, i, caps, ks) {
      LitsPath(s, text, [AtEnd], i, caps, ks);
      assert s[i..] == s[i..i + n];
    }
    if s[i..] == text {
      var ks := Stops(i, n) + [i + n];
      assert s[i..i + n] == text && ks[..n] == Stops(i, n) && ks[n..] == [i + n];
      LitsPath(s, text, [AtEnd], i, caps, ks);
      assert [AtEnd][1..] == [] && [i + n][1..] == [];
      assert Path(s, its, i, caps, ks);
    }
  }

  // %bxy takes an x, a text with neither in it, and a y.
  lemma BalancedPair(s: string, open: char, close: char, text: string, i: nat)
    requires open != close && open !in text && close !in text && OccursAt(s, i, [open] + text + [close])
    ensures forall k: nat :: Step(s, Between(open, close), i, [], k) <==> k == i + |text| + 2
  {
    var e := i + |text| + 2;
    assert s[i..e] == [open] + text + [close];
    assert s[i] == s[i..e][0] && s[e - 1] == s[i..e][|text| + 1];
    forall j | i < j < e ensures Depth(s, i, j, open, close) == 1 { DepthInside(s, open, close, text, i, j); }
    assert Depth(s, i, e, open, close) == 0;
    assert Balanced(s, i, e, open, close);
    assert forall k: nat :: Balanced(s, i, k, open, close) ==> k == e;
  }

  lemma {:induction false} DepthInside(s: string, open: char, close: char, text: string, i: nat, j: nat)
    requires open !in text && close !in text && OccursAt(s, i, [open] + text + [close])
    requires i < j < i + |text| + 2
    ensures Depth(s, i, j, open, close) == 1
    decreases j
  {
    if j > i + 1 {
      assert s[j - 1] == s[i..i + |text| + 2][j - 1 - i] == text[j - 2 - i];
      DepthInside(s, open, close, text, i, j - 1);
    }
  }

  // A group and %1 take a stretch and the same text once more.
  lemma BackRepeats(s: string, x: Item, i: nat)
    requires Repeats(x) && i <= |s|
    ensures Admits(s, [Open, x, Close] + [Back(0)], i, []) <==>
              exists k: nat :: i <= k <= |s| && Step(s, x, i, [], k) && OccursAt(s, k, s[i..k])
  {
    var its := [Open, x, Close] + [Back(0)];
    if ks :| Path(s, its, i, [], ks) {
      GroupPath(s, x, [Back(0)], i, [], ks);
      BackIs(s, i, ks[1], ks[3..]);
      var k := ks[1];
      assert Step(s, x, i, [], k) && OccursAt(s, k, s[i..k]);
    }
    if k: nat :| i <= k <= |s| && Step(s, x, i, [], k) && OccursAt(s, k, s[i..k]) {
      var ks := [i, k, k] + [k + (k - i)];
      BackIs(s, i, k, [k + (k - i)]);
      assert ks[3..] == [k + (k - i)];
      GroupPath(s, x, [Back(0)], i, [], ks);
      assert Path(s, its, i, [], ks);
    }
  }

  lemma BackIs(s: string, i: nat, k: nat, ks: seq<nat>)
    requires i <= |s|
    ensures Path(s, [Back(0)], k, [] + [Cap(i, k - i)], ks) <==>
              i <= k <= |s| && ks == [k + (k - i)] && OccursAt(s, k, s[i..k])
  {
    assert [Back(0)] == [Back(0)] + [] && [] + [Cap(i, k - i)] == [Cap(i, k - i)];
    PathCons(s, Back(0), [], k, [Cap(i, k - i)], ks);
    if |ks| == 1 { assert ks == [ks[0]]; }
  }
}
