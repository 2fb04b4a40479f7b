// Patterns made of literal text and of groups around one repetition: what their paths are, and
// how they are written.

module PatternGroups {
  import opened Common
  import opened Ctype
  import opened PatternSyntax
  import opened PatternClasses
  import opened PatternGrammar
  import opened PatternSemantics
  import opened PatternMatcher
  import opened PatternCaptures
  import opened PatternFind

  // str_find reads the pattern as these items, and takes its general branch.
  ghost predicate Reads(pat: string, its: seq<Item>) {
    GoodPattern(pat) && Items(pat) == its && !Anchored(pat) && HasSpecials(pat)
  }

  // str_find from the start of the subject, with room for ten captures
  method FindWith(s: string, pat: string, ghost its: seq<Item>) returns (found: bool, num: nat, out: seq<Slice>)
    requires Reads(pat, its)
    ensures |out| == 10 && FindsLeftmost(s, pat, 0, found, num, out)
  {
    var captures := new Slice[10](_ => Slice(0, 0));
    found, num := StrFind(s, pat, false, 0, captures);
    out := captures[..];
  }

  // What str_find hands back then
  lemma FoundPath(s: string, pat: string, its: seq<Item>, found: bool, num: nat, out: seq<Slice>)
    returns (k: nat, ks: seq<nat>)
    requires Reads(pat, its) && FindsLeftmost(s, pat, 0, found, num, out)
    ensures !found ==> forall j: nat :: j <= |s| ==> !Matches(s, its, j)
    ensures found ==> Reported(s, its, 0, false, k, ks) && Matches(s, its, k)
    ensures found ==> Holds(out, num, CapsAlong(its, k, [], ks), |out|)
  {
    k, ks := 0, [];
    if found {
      k, ks :| Reported(s, its, 0, false, k, ks) && Holds(out, num, CapsAlong(its, k, [], ks), |out|);
    }
  }

  lemma PathCons(s: string, x: Item, rest: seq<Item>, i: nat, caps: seq<Cap>, ks: seq<nat>)
    ensures Path(s, [x] + rest, i, caps, ks) <==>
              ks != [] && Step(s, x, i, caps, ks[0]) && Path(s, rest, ks[0], After(x, i, caps), ks[1..])
  {
    assert ([x] + rest)[1..] == rest;
  }

  // ---------------------------------------------------------------- a group around a repetition

  // A path through ( x ) and the rest.
  lemma GroupPath(s: string, x: Item, rest: seq<Item>, k: nat, caps: seq<Cap>, ks: seq<nat>)
    requires Repeats(x)
    ensures Path(s, [Open, x, Close] + rest, k, caps, ks) <==>
              && |ks| >= 3 && ks[0] == k && Step(s, x, k, [], ks[1]) && ks[2] == ks[1]
              && Path(s, rest, ks[1], caps + [Cap(k, ks[1] - k)], ks[3..])
  {
    var its1 := [x] + ([Close] + rest);
    assert [Open, x, Close] + rest == [Open] + its1;
    PathCons(s, Open, its1, k, caps, ks);
    if ks != [] {
      RepeatPath(s, x, rest, k, caps, ks[1..]);
      if |ks| >= 3 { assert ks[1..][2..] == ks[3..]; }
    }
  }

  lemma RepeatPath(s: string, x: Item, rest: seq<Item>, k: nat, caps: seq<Cap>, ks: seq<nat>)
    requires Repeats(x)
    ensures Path(s, [x] + ([Close] + rest), k, caps + [Cap(k, CAP_UNFINISHED)], ks) <==>
              && |ks| >= 2 && Step(s, x, k, [], ks[0]) && ks[1] == ks[0]
              && Path(s, rest, ks[0], caps + [Cap(k, ks[0] - k)], ks[2..])
  {
    PathCons(s, x, [Close] + rest, k, caps + [Cap(k, CAP_UNFINISHED)], ks);
    if ks != [] && Step(s, x, k, [], ks[0]) {
      ClosePath(s, rest, ks[0], caps, k, ks[1..]);
      if |ks| >= 2 { assert ks[1..][1..] == ks[2..]; }
    }
  }

  lemma ClosePath(s: string, rest: seq<Item>, i: nat, caps: seq<Cap>, k: nat, ks: seq<nat>)
    ensures Path(s, [Close] + rest, i, caps + [Cap(k, CAP_UNFINISHED)], ks) <==>
              ks != [] && ks[0] == i && Path(s, rest, i, caps + [Cap(k, i - k)], ks[1..])
  {
    PathCons(s, Close, rest, i, caps + [Cap(k, CAP_UNFINISHED)], ks);
    assert After(Close, i, caps + [Cap(k, CAP_UNFINISHED)]) == caps + [Cap(k, i - k)];
  }

  lemma GroupCaps(x: Item, rest: seq<Item>, k: nat, caps: seq<Cap>, ks: seq<nat>)
    requires Repeats(x)
    requires |ks| == 3 + |rest| && ks[0] == k && ks[1] == ks[2]
    ensures CapsAlong([Open, x, Close] + rest, k, caps, ks) ==
            CapsAlong(rest, ks[1], caps + [Cap(k, ks[1] - k)], ks[3..])
  {
    var its := [Open, x, Close] + rest;
    var during := caps + [Cap(k, CAP_UNFINISHED)];
    assert its[1..][1..] == [Close] + rest && its[1..][1..][1..] == rest;
    assert ks[1..][1..][1..] == ks[3..];
    assert After(Close, ks[1], during) == caps + [Cap(k, ks[1] - k)];
    assert CapsAlong(its, k, caps, ks) == CapsAlong(its[1..][1..], ks[1], during, ks[1..][1..]);
  }

  // A path that takes less at a greedy item, after the same start, does not come first.
  lemma GreedyTakesMore(its: seq<Item>, ks: seq<nat>, js: seq<nat>, t: nat)
    requires |ks| == |js| == |its| && t < |its| && !its[t].Lazy?
    requires (forall u :: 0 <= u < t ==> ks[u] == js[u]) && ks[t] < js[t]
    ensures !Preferred(its, ks, js)
  {}

  // ---------------------------------------------------------------- literal text

  // A character of the subject, with an escape where the language needs one
  function Lit(c: char): Single { if Plain(c) then Exactly(c) else Class(c) }

  function Lits(text: string): seq<Item> { seq(|text|, i requires 0 <= i < |text| => One(Lit(text[i]))) }

  lemma LitIs(c: char, d: char)
    ensures Sat(d, Lit(c)) <==> d == c
  {
  }

  lemma LitsCons(text: string)
    requires text != ""
    ensures Lits(text) == [One(Lit(text[0]))] + Lits(text[1..])
  {
  }

  // The stops of a path through literal text from k on
  function Stops(k: nat, n: nat): seq<nat> { seq(n, i => k + i + 1) }

  lemma StopsCons(k: nat, n: nat)
    requires n > 0
    ensures Stops(k, n) == [k + 1] + Stops(k + 1, n - 1)
  {
  }

  // The text stands at position k, and the stops are those behind its characters.
  ghost predicate LitsAlong(s: string, text: string, k: nat, ks: seq<nat>) {
    OccursAt(s, k, text) && |text| <= |ks| && ks[..|text|] == Stops(k, |text|)
  }

  lemma LitsAlongCons(s: string, text: string, k: nat, ks: seq<nat>)
    requires text != "" && k <= |s|
    ensures LitsAlong(s, text, k, ks) <==>
              k < |s| && s[k] == text[0] && ks != [] && ks[0] == k + 1 && LitsAlong(s, text[1..], k + 1, ks[1..])
  {
    StopsCons(k, |text|);
    if k < |s| { OccursCons(s, k, text); }
    if ks != [] && ks[0] == k + 1 { StopsTail(ks, k, |text|); }
    if LitsAlong(s, text, k, ks) { assert ks[0] == ks[..|text|][0]; }
  }

  lemma LitsPathCons(s: string, text: string, rest: seq<Item>, k: nat, caps: seq<Cap>, ks: seq<nat>)
    requires text != "" && k <= |s|
    ensures Path(s, Lits(text) + rest, k, caps, ks) <==>
              k < |s| && s[k] == text[0] && ks != [] && ks[0] == k + 1
              && Path(s, Lits(text[1..]) + rest, k + 1, caps, ks[1..])
  {
    var x, tail := One(Lit(text[0])), Lits(text[1..]) + rest;
    LitsCons(text);
    assert Lits(text) + rest == [x] + tail;
    PathCons(s, x, tail, k, caps, ks);
    if k < |s| { LitIs(text[0], s[k]); }
  }

  // A path through literal text and the rest.
  lemma {:induction false} LitsPath(s: string, text: string, rest: seq<Item>, k: nat, caps: seq<Cap>, ks: seq<nat>)
    requires k <= |s|
    ensures Path(s, Lits(text) + rest, k, caps, ks) <==>
              LitsAlong(s, text, k, ks) && Path(s, rest, k + |text|, caps, ks[|text|..])
    decreases |text|
  {
    if text == "" {
      assert Lits(text) + rest == rest && ks[0..] == ks && ks[..0] == Stops(k, 0);
    } else {
      LitsPathCons(s, text, rest, k, caps, ks);
      LitsAlongCons(s, text, k, ks);
      if k < |s| && ks != [] {
        LitsPath(s, text[1..], rest, k + 1, caps, ks[1..]);
        if |text| <= |ks| { assert ks[1..][|text[1..]|..] == ks[|text|..]; }
      }
    }
  }

  lemma OccursCons(s: string, k: nat, text: string)
    requires k < |s| && text != ""
    ensures OccursAt(s, k, text) <==> s[k] == text[0] && OccursAt(s, k + 1, text[1..])
  {
    if k + |text| <= |s| {
      assert s[k..k + |text|] == [s[k]] + s[k + 1..k + |text|];
      assert text == [text[0]] + text[1..];
    }
  }

  lemma StopsTail(ks: seq<nat>, k: nat, n: nat)
    requires ks != [] && ks[0] == k + 1 && n > 0
    ensures n <= |ks| ==> ks[1..][n - 1..] == ks[n..]
    ensures n <= |ks| ==> (ks[..n] == Stops(k, n) <==> ks[1..][..n - 1] == Stops(k + 1, n - 1))
  {
    StopsCons(k, n);
    if n <= |ks| { assert ks[..n] == [ks[0]] + ks[1..][..n - 1]; }
  }

  lemma {:induction false} LitsCaps(text: string, rest: seq<Item>, k: nat, caps: seq<Cap>, ks: seq<nat>)
    requires |ks| == |text| + |rest| && ks[..|text|] == Stops(k, |text|)
    ensures CapsAlong(Lits(text) + rest, k, caps, ks) == CapsAlong(rest, k + |text|, caps, ks[|text|..])
    decreases |text|
  {
    if text == "" {
      assert Lits(text) + rest == rest && ks[0..] == ks;
    } else {
      LitsCons(text);
      StopsCons(k, |text|);
      assert ks[0] == ks[..|text|][0];
      StopsTail(ks, k, |text|);
      assert (Lits(text) + rest)[1..] == Lits(text[1..]) + rest;
      LitsCaps(text[1..], rest, k + 1, caps, ks[1..]);
    }
  }

  // ---------------------------------------------------------------- how they are written

  lemma {:induction false} WriteJoined(a: seq<Item>, b: seq<Item>)
    ensures Write(a + b) == Write(a) + Write(b)
  {
    if a == [] {
      assert a + b == b;
    } else {
      assert (a + b)[1..] == a[1..] + b;
      WriteJoined(a[1..], b);
      Regroup(WriteItem(a[0]), Write(a[1..]), Write(b));
    }
  }

  lemma Regroup(a: string, b: string, c: string)
    ensures a + (b + c) == a + b + c
  {
  }

  lemma LitsJoined(a: string, b: string)
    ensures Lits(a + b) == Lits(a) + Lits(b)
  {
  }

  // Plain text is written as it is, a magic character behind a percent sign.
  lemma {:induction false} WritePlain(text: string)
    requires forall i :: 0 <= i < |text| ==> Plain(text[i])
    ensures Write(Lits(text)) == text
  {
    if text != "" {
      LitsCons(text);
      WritePlain(text[1..]);
      assert Lits(text)[1..] == Lits(text[1..]);
      assert WriteItem(Lits(text)[0]) == [text[0]];
    }
  }

  lemma WriteMagic(c: char)
    requires !Plain(c)
    ensures Write(Lits([c])) == ['%', c]
  {
    assert Lits([c])[1..] == [];
    assert WriteItem(Lits([c])[0]) == ['%', c];
  }

  // Literal text in front changes nothing about what may follow.
  lemma {:induction false} LitsAllowed(text: string, rest: seq<Item>)
    requires Writable(rest)
    ensures Writable(Lits(text) + rest)
    ensures forall kinds :: Runnable(rest, kinds) ==> Runnable(Lits(text) + rest, kinds)
    ensures forall d: nat :: BalancedFrom(rest, d) ==> BalancedFrom(Lits(text) + rest, d)
  {
    if text == "" {
      assert Lits(text) + rest == rest;
    } else {
      LitsCons(text);
      LitsAllowed(text[1..], rest);
      assert (Lits(text) + rest)[1..] == Lits(text[1..]) + rest;
    }
  }
}
