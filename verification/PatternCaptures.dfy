// What the captures of a match are: one slice per parenthesis pair, accepted by the pattern
// between the parentheses, nested as the parentheses nest.

module PatternCaptures {
  import opened PatternSyntax
  import opened PatternSemantics
  import opened PatternMatcher

  // The parentheses close, given that d of them are already open; none is a position capture.
  predicate BalancedFrom(its: seq<Item>, d: nat)
    decreases |its|
  {
    if its == [] then d == 0
    else match its[0]
         case Open => BalancedFrom(its[1..], d + 1)
         case Close => d > 0 && BalancedFrom(its[1..], d - 1)
         case Position => false
         case _ => BalancedFrom(its[1..], d)
  }

  // The number of captures the items start.
  function Opens(its: seq<Item>): nat
    decreases |its|
  {
    if its == [] then 0 else Opens(its[1..]) + (if its[0].Open? || its[0].Position? then 1 else 0)
  }

  // The number of unfinished captures at index base and above.
  function UnfinishedFrom(caps: seq<Cap>, base: nat): (n: nat)
    ensures n > 0 ==> base <= LastUnfinished(caps)
  {
    if |caps| <= base then 0
    else UnfinishedFrom(caps[..|caps| - 1], base) + (if caps[|caps| - 1].len == CAP_UNFINISHED then 1 else 0)
  }

  lemma {:induction false} NoneUnfinished(caps: seq<Cap>, base: nat)
    requires UnfinishedFrom(caps, base) == 0
    ensures forall j :: base <= j < |caps| ==> caps[j].len != CAP_UNFINISHED
    decreases |caps|
  {
    if |caps| > base {
      NoneUnfinished(caps[..|caps| - 1], base);
      assert forall j :: base <= j < |caps| - 1 ==> caps[j] == caps[..|caps| - 1][j];
    }
  }

  lemma {:induction false} CloseLast(caps: seq<Cap>, base: nat, len: int)
    requires UnfinishedFrom(caps, base) > 0 && len != CAP_UNFINISHED
    ensures var l := LastUnfinished(caps);
            base <= l && UnfinishedFrom(caps[l := Cap(caps[l].init, len)], base) == UnfinishedFrom(caps, base) - 1
    decreases |caps|
  {
    var n := |caps| - 1;
    var l := LastUnfinished(caps);
    var after := caps[l := Cap(caps[l].init, len)];
    if caps[n].len == CAP_UNFINISHED {
      assert after[..n] == caps[..n];
    } else {
      CloseLast(caps[..n], base, len);
      assert after[..n] == caps[..n][l := Cap(caps[l].init, len)];
    }
  }

  // A path visits positions in ascending order and ends inside the subject.
  lemma {:induction false} PathAscends(src: string, its: seq<Item>, i: nat, caps: seq<Cap>, ks: seq<nat>)
    requires Path(src, its, i, caps, ks) && i <= |src|
    ensures |ks| == |its|
    ensures forall t :: 0 <= t < |ks| ==> i <= ks[t] <= |src|
    ensures forall t, u :: 0 <= t < u < |ks| ==> ks[t] <= ks[u]
    decreases |its|
  {
    if its != [] {
      ReachIsStep(src, its[0], i, caps, ks[0]);
      PathAscends(src, its[1..], ks[0], After(its[0], i, caps), ks[1..]);
      assert forall t :: 0 < t < |ks| ==> ks[t] == ks[1..][t - 1];
    }
  }

  // A path through its is a path through its[..n] followed by one through its[n..].
  lemma {:induction false} PathSplits(src: string, its: seq<Item>, i: nat, caps: seq<Cap>, ks: seq<nat>, n: nat)
    requires Path(src, its, i, caps, ks) && |ks| == |its| && n <= |its|
    ensures Path(src, its[..n], i, caps, ks[..n])
    ensures var mid := CapsAlong(its[..n], i, caps, ks[..n]);
            && Path(src, its[n..], EndOf(i, ks[..n]), mid, ks[n..])
            && CapsAlong(its, i, caps, ks) == CapsAlong(its[n..], EndOf(i, ks[..n]), mid, ks[n..])
    decreases n
  {
    if n == 0 {
      assert its[0..] == its && ks[0..] == ks;
    } else {
      var after := After(its[0], i, caps);
      PathSplits(src, its[1..], ks[0], after, ks[1..], n - 1);
      assert its[1..][..n - 1] == its[..n][1..] && ks[1..][..n - 1] == ks[..n][1..];
      assert its[1..][n - 1..] == its[n..] && ks[1..][n - 1..] == ks[n..];
      assert EndOf(ks[0], ks[1..][..n - 1]) == EndOf(i, ks[..n]);
    }
  }

  // Captures are only ever appended, and a finished one never changes again.
  lemma {:induction false} FinishedStays(its: seq<Item>, i: nat, caps: seq<Cap>, ks: seq<nat>)
    requires |its| == |ks|
    ensures var end := CapsAlong(its, i, caps, ks);
            && |end| == |caps| + Opens(its)
            && forall j :: 0 <= j < |caps| && caps[j].len != CAP_UNFINISHED ==> end[j] == caps[j]
    decreases |its|
  {
    if its != [] {
      FinishedStays(its[1..], ks[0], After(its[0], i, caps), ks[1..]);
    }
  }

  lemma AfterOneItem(item: Item, i: nat, caps: seq<Cap>, base: nat)
    requires base <= |caps| && !item.Position?
    requires item.Close? ==> UnfinishedFrom(caps, base) > 0
    requires forall j :: 0 <= j < |caps| ==> caps[j].init <= i
    ensures var after := After(item, i, caps);
            && base <= |after| && after[..base] == caps[..base]
            && (forall j :: 0 <= j < |after| ==> after[j].init <= i)
            && UnfinishedFrom(after, base) ==
                 UnfinishedFrom(caps, base) + (if item.Open? then 1 else if item.Close? then -1 else 0)
  {
    if item.Open? {
      assert After(item, i, caps)[..|caps|] == caps;
    } else if item.Close? {
      CloseLast(caps, base, i - caps[LastUnfinished(caps)].init);
    }
  }

  // Items with balanced parentheses finish every capture they start and leave older ones alone.
  lemma {:induction false} BalancedIsLocal(
    src: string, its: seq<Item>, i: nat, caps: seq<Cap>, ks: seq<nat>, base: nat, d: nat)
    requires Path(src, its, i, caps, ks) && |its| == |ks|
    requires base <= |caps| && UnfinishedFrom(caps, base) == d && BalancedFrom(its, d)
    requires forall j :: 0 <= j < |caps| ==> caps[j].init <= i
    ensures var end := CapsAlong(its, i, caps, ks);
            |end| >= base && end[..base] == caps[..base] && UnfinishedFrom(end, base) == 0
    decreases |its|
  {
    if its != [] {
      AfterOneItem(its[0], i, caps, base);
      assert i <= ks[0];
      var d' := if its[0].Open? then d + 1 else if its[0].Close? then d - 1 else d;
      BalancedIsLocal(src, its[1..], ks[0], After(its[0], i, caps), ks[1..], base, d');
    }
  }

  lemma {:induction false} CapsStartEarlier(src: string, its: seq<Item>, i: nat, caps: seq<Cap>, ks: seq<nat>)
    requires Path(src, its, i, caps, ks) && |its| == |ks|
    requires forall j :: 0 <= j < |caps| ==> caps[j].init <= i
    ensures forall j :: 0 <= j < |CapsAlong(its, i, caps, ks)| ==> CapsAlong(its, i, caps, ks)[j].init <= EndOf(i, ks)
    decreases |its|
  {
    if its != [] {
      ReachIsStep(src, its[0], i, caps, ks[0]);
      CapsStartEarlier(src, its[1..], ks[0], After(its[0], i, caps), ks[1..]);
    }
  }

  // The parentheses at a and b are a pair.
  predicate Group(its: seq<Item>, a: nat, b: nat) {
    a < b < |its| && its[a] == Open && its[b] == Close && BalancedFrom(its[a + 1..b], 0)
  }

  // At an opening parenthesis the path goes on with one more, unfinished, capture.
  lemma PathFromOpen(src: string, its: seq<Item>, i: nat, ks: seq<nat>, a: nat)
    requires Path(src, its, i, [], ks) && |ks| == |its| && a < |its| && its[a] == Open
    ensures var during := CapsAlong(its[..a + 1], i, [], ks[..a + 1]);
            && |during| == Opens(its[..a]) + 1
            && during[Opens(its[..a])] == Cap(ks[a], CAP_UNFINISHED)
            && (forall j :: 0 <= j < |during| ==> during[j].init <= ks[a])
            && Path(src, its[a + 1..], ks[a], during, ks[a + 1..])
            && CapsAlong(its, i, [], ks) == CapsAlong(its[a + 1..], ks[a], during, ks[a + 1..])
  {
    PathSplits(src, its, i, [], ks, a);
    FinishedStays(its[..a], i, [], ks[..a]);
    CapsStartEarlier(src, its[..a], i, [], ks[..a]);
    assert its[a..][0] == Open && ks[a..][0] == ks[a];
    OpenEnds(its, i, ks, a);
    PathSplits(src, its, i, [], ks, a + 1);
  }

  // From an open capture through balanced items and the closing parenthesis.
  lemma CloseFinishes(src: string, its: seq<Item>, i: nat, caps: seq<Cap>, ks: seq<nat>, n: nat)
    requires Path(src, its, i, caps, ks) && |ks| == |its| && i <= |src|
    requires n < |its| && its[n] == Close && BalancedFrom(its[..n], 0)
    requires caps != [] && caps[|caps| - 1] == Cap(i, CAP_UNFINISHED)
    requires forall j :: 0 <= j < |caps| ==> caps[j].init <= i
    ensures var end := CapsAlong(its, i, caps, ks);
            var l := |caps| - 1;
            l < |end| && end[l].init == i && end[l].init + end[l].len == ks[n] && i <= ks[n]
    ensures Path(src, its[..n], i, caps, ks[..n]) && EndOf(i, ks[..n]) == ks[n]
  {
    PathAscends(src, its, i, caps, ks);
    PathSplits(src, its, i, caps, ks, n);
    assert its[n..][0] == Close && ks[n..][0] == ks[n];
    BalancedIsLocal(src, its[..n], i, caps, ks[..n], |caps|, 0);
    var inside := CapsAlong(its[..n], i, caps, ks[..n]);
    NoneUnfinished(inside, |caps|);
    assert inside[|caps| - 1] == inside[..|caps|][|caps| - 1] == caps[|caps| - 1];
    assert LastUnfinished(inside) == |caps| - 1;
    FinishedStays(its[n..][1..], ks[n], After(Close, ks[n], inside), ks[n..][1..]);
  }

  // The capture of a pair of parentheses is the slice between the stops of the two, and the
  // pattern between them takes the subject over exactly that slice.
  lemma CaptureOfGroup(src: string, its: seq<Item>, i: nat, ks: seq<nat>, a: nat, b: nat)
    requires Path(src, its, i, [], ks) && |ks| == |its| && i <= |src| && Group(its, a, b)
    ensures var caps := CapsAlong(its, i, [], ks);
            var l := Opens(its[..a]);
            && l < |caps| && caps[l].init == ks[a] && caps[l].init + caps[l].len == ks[b]
            && ks[a] <= ks[b] <= |src|
    ensures var inner := ks[a + 1..b];
            && Path(src, its[a + 1..b], ks[a], CapsAlong(its[..a + 1], i, [], ks[..a + 1]), inner)
            && EndOf(ks[a], inner) == ks[b]
  {
    PathAscends(src, its, i, [], ks);
    PathFromOpen(src, its, i, ks, a);
    var n := b - a - 1;
    assert its[a + 1..][..n] == its[a + 1..b] && ks[a + 1..][..n] == ks[a + 1..b];
    assert its[a + 1..][n] == its[b] && ks[a + 1..][n] == ks[b];
    CloseFinishes(src, its[a + 1..], ks[a], CapsAlong(its[..a + 1], i, [], ks[..a + 1]), ks[a + 1..], n);
  }

  lemma {:induction false} OpenEnds(its: seq<Item>, i: nat, ks: seq<nat>, a: nat)
    requires |ks| == |its| && a < |its| && its[a] == Open && ks[a] == EndOf(i, ks[..a])
    ensures CapsAlong(its[..a + 1], i, [], ks[..a + 1])
         == CapsAlong(its[..a], i, [], ks[..a]) + [Cap(ks[a], CAP_UNFINISHED)]
  {
    CapsSnoc(its[..a], i, [], ks[..a], its[a], ks[a]);
    assert its[..a + 1] == its[..a] + [its[a]] && ks[..a + 1] == ks[..a] + [ks[a]];
  }

  lemma {:induction false} CapsSnoc(its: seq<Item>, i: nat, caps: seq<Cap>, ks: seq<nat>, item: Item, k: nat)
    requires |its| == |ks|
    ensures CapsAlong(its + [item], i, caps, ks + [k]) == After(item, EndOf(i, ks), CapsAlong(its, i, caps, ks))
    decreases |its|
  {
    if its != [] {
      CapsSnoc(its[1..], ks[0], After(its[0], i, caps), ks[1..], item, k);
      assert (its + [item])[1..] == its[1..] + [item] && (ks + [k])[1..] == ks[1..] + [k];
    }
  }

  // A pair of parentheses inside another captures a slice of the other's slice.
  lemma GroupsNest(src: string, its: seq<Item>, i: nat, ks: seq<nat>, a: nat, b: nat, a': nat, b': nat)
    requires Path(src, its, i, [], ks) && |ks| == |its| && i <= |src|
    requires Group(its, a, b) && Group(its, a', b') && a < a' && b' < b
    ensures var caps := CapsAlong(its, i, [], ks);
            var outer, inner := Opens(its[..a]), Opens(its[..a']);
            && outer < |caps| && inner < |caps| && outer < inner
            && caps[outer].init <= caps[inner].init
            && caps[inner].init + caps[inner].len <= caps[outer].init + caps[outer].len
  {
    CaptureOfGroup(src, its, i, ks, a, b);
    CaptureOfGroup(src, its, i, ks, a', b');
    PathAscends(src, its, i, [], ks);
    OpensSplit(its[..a'], a);
    assert its[..a'][..a] == its[..a];
    assert its[..a'][a..][0] == Open;
  }

  lemma {:induction false} OpensSplit(its: seq<Item>, n: nat)
    requires n <= |its|
    ensures Opens(its) == Opens(its[..n]) + Opens(its[n..])
    decreases n
  {
    if n == 0 {
      assert its[0..] == its;
    } else {
      OpensSplit(its[1..], n - 1);
      assert its[..n][1..] == its[1..][..n - 1] && its[1..][n - 1..] == its[n..];
    }
  }

  // A match of a balanced pattern leaves one finished capture per opening parenthesis.
  lemma OneCapturePerOpen(src: string, its: seq<Item>, i: nat, ks: seq<nat>)
    requires Path(src, its, i, [], ks) && |ks| == |its| && i <= |src| && BalancedFrom(its, 0)
    ensures var caps := CapsAlong(its, i, [], ks);
            |caps| == Opens(its) && forall j :: 0 <= j < |caps| ==> caps[j].len != CAP_UNFINISHED
  {
    FinishedStays(its, i, [], ks);
    BalancedIsLocal(src, its, i, [], ks, 0, 0);
    NoneUnfinished(CapsAlong(its, i, [], ks), 0);
  }
}
