// What a pattern means. A path gives, for every item of the pattern, the subject position
// at which the item stops; Path says which paths a pattern admits, and Preferred orders the
// admitted paths by match priority. First is the search in that order.

module PatternSemantics {
  import opened Common
  import opened Ctype
  import opened PatternSyntax

  // Lengths of a capture that is not (yet) a slice of the subject.
  const CAP_UNFINISHED := -1
  const CAP_POSITION := -2

  datatype Cap = Cap(init: nat, len: int)

  // ---------------------------------------------------------------- single items

  // Nesting depth after reading src[i..k], where src[i] is the opening character.
  function Depth(src: string, i: nat, k: nat, open: char, close: char): int
    requires i < k <= |src|
    decreases k
  {
    if k == i + 1 then 1
    else Depth(src, i, k - 1, open, close)
         + (if src[k - 1] == close then -1 else if src[k - 1] == open then 1 else 0)
  }

  // src[i..k] is a balanced string: it opens with `open` and first returns to depth 0 at k.
  ghost predicate Balanced(src: string, i: nat, k: nat, open: char, close: char) {
    && i + 1 < k <= |src|
    && src[i] == open
    && Depth(src, i, k, open, close) == 0
    && forall j :: i < j < k ==> Depth(src, i, j, open, close) > 0
  }

  ghost predicate AllSat(src: string, i: nat, k: nat, x: Single) {
    k == i || (i < k <= |src| && forall j :: i <= j < k ==> Sat(src[j], x))
  }

  // The item may take the subject from position i to position k.
  ghost predicate Step(src: string, item: Item, i: nat, caps: seq<Cap>, k: nat) {
    match item
    case One(x) => k == i + 1 && AllSat(src, i, k, x)
    case Opt(x) => k <= i + 1 && AllSat(src, i, k, x)
    case Star(x) => AllSat(src, i, k, x)
    case Plus(x) => k != i && AllSat(src, i, k, x)
    case Lazy(x) => AllSat(src, i, k, x)
    case Between(open, close) => Balanced(src, i, k, open, close)
    case Back(which) =>
      && 0 <= which < |caps| && 0 <= caps[which].len
      && caps[which].init + caps[which].len <= |src|
      && i + caps[which].len == k <= |src|
      && src[i..k] == src[caps[which].init..caps[which].init + caps[which].len]
    case AtEnd => i == k == |src|
    case Open => k == i
    case Close => k == i
    case Position => k == i
  }

  // The index of the last unfinished capture, -1 if there is none.
  function LastUnfinished(caps: seq<Cap>): (l: int)
    ensures -1 <= l < |caps|
    ensures l >= 0 ==> caps[l].len == CAP_UNFINISHED
    ensures forall j :: l < j < |caps| ==> caps[j].len != CAP_UNFINISHED
  {
    if caps == [] then -1
    else if caps[|caps| - 1].len == CAP_UNFINISHED then |caps| - 1
    else LastUnfinished(caps[..|caps| - 1])
  }

  // The captures after an item that starts at position i.
  function After(item: Item, i: nat, caps: seq<Cap>): seq<Cap> {
    match item
    case Open => caps + [Cap(i, CAP_UNFINISHED)]
    case Position => caps + [Cap(i, CAP_POSITION)]
    case Close =>
      var l := LastUnfinished(caps);
      if l == -1 then caps else caps[l := Cap(caps[l].init, i - caps[l].init)]
    case _ => caps
  }

  // ---------------------------------------------------------------- paths

  ghost predicate Path(src: string, its: seq<Item>, i: nat, caps: seq<Cap>, ks: seq<nat>)
    decreases |its|
  {
    if its == [] then ks == []
    else
      && ks != []
      && Step(src, its[0], i, caps, ks[0])
      && Path(src, its[1..], ks[0], After(its[0], i, caps), ks[1..])
  }

  function EndOf(i: nat, ks: seq<nat>): nat {
    if ks == [] then i else ks[|ks| - 1]
  }

  // The captures at the end of a path.
  function CapsAlong(its: seq<Item>, i: nat, caps: seq<Cap>, ks: seq<nat>): seq<Cap>
    requires |its| == |ks|
    decreases |its|
  {
    if its == [] then caps else CapsAlong(its[1..], ks[0], After(its[0], i, caps), ks[1..])
  }

  // Path ks comes before path js: at the first item where they differ, ks takes more of the
  // subject, or less if the item is lazy.
  ghost predicate Preferred(its: seq<Item>, ks: seq<nat>, js: seq<nat>)
    requires |ks| == |js| == |its|
  {
    exists t :: && 0 <= t < |its| && (forall u :: 0 <= u < t ==> ks[u] == js[u])
                && if its[t].Lazy? then ks[t] < js[t] else ks[t] > js[t]
  }

  ghost predicate IsFirstPath(src: string, its: seq<Item>, i: nat, caps: seq<Cap>, ks: seq<nat>) {
    && |ks| == |its|
    && Path(src, its, i, caps, ks)
    && forall js :: Path(src, its, i, caps, js) && |js| == |its| && js != ks ==> Preferred(its, ks, js)
  }

  // ---------------------------------------------------------------- the search

  // One past the longest run of characters of x that starts at i.
  function RunEnd(src: string, i: nat, x: Single): (k: nat)
    ensures i <= k && (i <= |src| ==> k <= |src|) && (i >= |src| ==> k == i)
    ensures AllSat(src, i, k, x)
    ensures k < |src| ==> !Sat(src[k], x)
    decreases |src| - i
  {
    if i < |src| && Sat(src[i], x) then RunEnd(src, i + 1, x) else i
  }

  // The scan of matchbalance: at position k with depth n > 0, where the balanced string ends.
  function BalanceEnd(src: string, k: nat, open: char, close: char, n: nat): Option<nat>
    requires n > 0
    decreases |src| - k
  {
    if k >= |src| then None
    else if src[k] == close then
      if n == 1 then Some(k + 1) else BalanceEnd(src, k + 1, open, close, n - 1)
    else BalanceEnd(src, k + 1, open, close, if src[k] == open then n + 1 else n)
  }

  predicate MatchesOne(src: string, i: nat, x: Single) {
    i < |src| && Sat(src[i], x)
  }

  // The positions an item can reach from i form the range lo..hi, empty if lo > hi.
  function Reach(src: string, item: Item, i: nat, caps: seq<Cap>): (int, int) {
    match item
    case One(x) => if MatchesOne(src, i, x) then (i + 1, i + 1) else (1, 0)
    case Opt(x) => (i, if MatchesOne(src, i, x) then i + 1 else i)
    case Star(x) => (i, RunEnd(src, i, x))
    case Plus(x) => (i + 1, RunEnd(src, i, x))
    case Lazy(x) => (i, RunEnd(src, i, x))
    case Between(open, close) =>
      if i < |src| && src[i] == open then
        match BalanceEnd(src, i + 1, open, close, 1)
        case Some(k) => (k, k)
        case None => (1, 0)
      else (1, 0)
    case Back(which) =>
      if && 0 <= which < |caps| && 0 <= caps[which].len
         && caps[which].init + caps[which].len <= |src| && i + caps[which].len <= |src|
         && src[i..i + caps[which].len] == src[caps[which].init..caps[which].init + caps[which].len]
      then (i + caps[which].len, i + caps[which].len)
      else (1, 0)
    case AtEnd => if i == |src| then (i, i) else (1, 0)
    case _ => (i, i)
  }

  // The first path in priority order.
  function First(src: string, its: seq<Item>, i: nat, caps: seq<Cap>): (ks: Option<seq<nat>>)
    ensures ks.Some? ==> |ks.value| == |its|
    decreases |its|, 1, 0
  {
    if its == [] then Some([])
    else
      var (lo, hi) := Reach(src, its[0], i, caps);
      FirstAmong(src, its, After(its[0], i, caps), lo, hi)
  }

  // The first path whose first item stops within lo..hi.
  function FirstAmong(src: string, its: seq<Item>, after: seq<Cap>, lo: int, hi: int): (ks: Option<seq<nat>>)
    requires its != [] && (lo <= hi ==> 0 <= lo)
    ensures ks.Some? ==> |ks.value| == |its|
    decreases |its|, 0, hi - lo + 1
  {
    if lo > hi then None
    else
      var k: nat := if its[0].Lazy? then lo else hi;
      match First(src, its[1..], k, after)
      case Some(ks) => Some([k] + ks)
      case None =>
        if its[0].Lazy? then FirstAmong(src, its, after, lo + 1, hi)
        else FirstAmong(src, its, after, lo, hi - 1)
  }

  // ---------------------------------------------------------------- Reach is exactly Step

  lemma {:induction false} BalanceEndIsBalanced(src: string, i: nat, k: nat, open: char, close: char, n: nat)
    requires i < k <= |src| && src[i] == open && n > 0
    requires Depth(src, i, k, open, close) == n
    requires forall j :: i < j <= k ==> Depth(src, i, j, open, close) > 0
    ensures match BalanceEnd(src, k, open, close, n)
            case Some(e) =>
              Balanced(src, i, e, open, close) && forall e': nat :: Balanced(src, i, e', open, close) ==> e' == e
            case None => forall e': nat :: !Balanced(src, i, e', open, close)
    decreases |src| - k
  {
    forall e': nat | Balanced(src, i, e', open, close) ensures e' > k {}
    if k < |src| {
      var n' := Depth(src, i, k + 1, open, close);
      if n' == 0 {
        assert Balanced(src, i, k + 1, open, close);
        forall e': nat | Balanced(src, i, e', open, close) ensures e' == k + 1 {}
      } else {
        BalanceEndIsBalanced(src, i, k + 1, open, close, n');
      }
    }
  }

  // The runs from i are the stretches up to the end of the longest.
  lemma {:induction false} RunEndIsLongest(src: string, i: nat, k: nat, x: Single)
    ensures AllSat(src, i, k, x) <==> i <= k <= RunEnd(src, i, x)
    decreases |src| - i
  {
    if i < k && i < |src| { RunEndIsLongest(src, i + 1, k, x); }
  }

  lemma ReachIsStep(src: string, item: Item, i: nat, caps: seq<Cap>, k: nat)
    ensures var (lo, hi) := Reach(src, item, i, caps);
            (lo <= hi ==> 0 <= lo) && (Step(src, item, i, caps, k) <==> lo <= k <= hi)
  {
    match item
    case Star(x) => RunEndIsLongest(src, i, k, x);
    case Plus(x) => RunEndIsLongest(src, i, k, x);
    case Lazy(x) => RunEndIsLongest(src, i, k, x);
    case Between(open, close) =>
      if i < |src| && src[i] == open {
        BalanceEndIsBalanced(src, i, i + 1, open, close, 1);
      }
    case _ =>
  }

  // ---------------------------------------------------------------- First is the first path

  // Two paths that share their first stop are ordered by their tails.
  lemma PreferredTail(its: seq<Item>, ks: seq<nat>, js: seq<nat>)
    requires |ks| == |js| == |its| > 0
    requires ks[0] == js[0] && Preferred(its[1..], ks[1..], js[1..])
    ensures Preferred(its, ks, js)
  {
    var t :| && 0 <= t < |its[1..]| && (forall u :: 0 <= u < t ==> ks[1..][u] == js[1..][u])
             && if its[1..][t].Lazy? then ks[1..][t] < js[1..][t] else ks[1..][t] > js[1..][t];
    assert its[t + 1] == its[1..][t] && ks[t + 1] == ks[1..][t] && js[t + 1] == js[1..][t];
    forall u | 0 <= u < t + 1 ensures ks[u] == js[u] {
      if u > 0 { assert ks[1..][u - 1] == js[1..][u - 1]; }
    }
  }

  lemma PreferredHead(its: seq<Item>, ks: seq<nat>, js: seq<nat>)
    requires |ks| == |js| == |its| > 0
    requires if its[0].Lazy? then ks[0] < js[0] else ks[0] > js[0]
    ensures Preferred(its, ks, js)
  {
    var t := 0;
    assert 0 <= t < |its| && if its[t].Lazy? then ks[t] < js[t] else ks[t] > js[t];
  }

  lemma PathLength(src: string, its: seq<Item>, i: nat, caps: seq<Cap>, ks: seq<nat>)
    requires Path(src, its, i, caps, ks)
    ensures |ks| == |its|
    decreases |its|
  {
    if its != [] { PathLength(src, its[1..], ks[0], After(its[0], i, caps), ks[1..]); }
  }

  // The search finds the highest-priority path, and fails only when there is no path at all.
  lemma {:induction false} FirstIsFirstPath(src: string, its: seq<Item>, i: nat, caps: seq<Cap>)
    ensures match First(src, its, i, caps)
            case Some(ks) => IsFirstPath(src, its, i, caps, ks)
            case None => forall js :: !Path(src, its, i, caps, js)
    decreases |its|, 1, 0
  {
    if its != [] {
      var (lo, hi) := Reach(src, its[0], i, caps);
      forall k: nat ensures Step(src, its[0], i, caps, k) <==> lo <= k <= hi {
        ReachIsStep(src, its[0], i, caps, k);
      }
      FirstAmongIsFirstPath(src, its, i, caps, lo, hi);
    }
  }

  // r is the first of the paths whose first item stops within lo..hi.
  ghost predicate FirstWithin(
    src: string, its: seq<Item>, i: nat, caps: seq<Cap>, lo: int, hi: int, r: Option<seq<nat>>)
    requires its != []
  {
    match r
    case Some(ks) =>
      && |ks| == |its| && Path(src, its, i, caps, ks) && lo <= ks[0] <= hi
      && forall js :: Path(src, its, i, caps, js) && |js| == |its| && lo <= js[0] <= hi && js != ks
                      ==> Preferred(its, ks, js)
    case None => forall js :: Path(src, its, i, caps, js) ==> !(lo <= js[0] <= hi)
  }

  lemma FirstThrough(src: string, its: seq<Item>, i: nat, caps: seq<Cap>, lo: int, hi: int, k: nat, ks: seq<nat>)
    requires its != [] && lo <= k <= hi && k == if its[0].Lazy? then lo else hi
    requires Step(src, its[0], i, caps, k)
    requires IsFirstPath(src, its[1..], k, After(its[0], i, caps), ks)
    ensures FirstWithin(src, its, i, caps, lo, hi, Some([k] + ks))
  {
    var path := [k] + ks;
    assert path[1..] == ks;
    forall js | Path(src, its, i, caps, js) && |js| == |its| && lo <= js[0] <= hi && js != path
      ensures Preferred(its, path, js)
    {
      if js[0] == k {
        assert js == [k] + js[1..];
        PreferredTail(its, path, js);
      } else {
        PreferredHead(its, path, js);
      }
    }
  }

  // A stop k that no path goes through can be added to the range.
  lemma WidenRange(src: string, its: seq<Item>, i: nat, caps: seq<Cap>, lo: int, hi: int, k: nat, r: Option<seq<nat>>)
    requires its != [] && lo <= k <= hi && (k == lo || k == hi)
    requires forall js :: !Path(src, its[1..], k, After(its[0], i, caps), js)
    requires FirstWithin(src, its, i, caps, if k == lo then lo + 1 else lo, if k == lo then hi else hi - 1, r)
    ensures FirstWithin(src, its, i, caps, lo, hi, r)
  {
    forall js | Path(src, its, i, caps, js) ensures js[0] != k {
      assert Path(src, its[1..], js[0], After(its[0], i, caps), js[1..]);
    }
  }

  lemma {:induction false} FirstAmongIsFirstPath(src: string, its: seq<Item>, i: nat, caps: seq<Cap>, lo: int, hi: int)
    requires its != [] && (lo <= hi ==> 0 <= lo)
    requires forall k: nat :: lo <= k <= hi ==> Step(src, its[0], i, caps, k)
    ensures FirstWithin(src, its, i, caps, lo, hi, FirstAmong(src, its, After(its[0], i, caps), lo, hi))
    decreases |its|, 0, hi - lo + 1
  {
    if lo <= hi {
      var k: nat := if its[0].Lazy? then lo else hi;
      var after := After(its[0], i, caps);
      FirstIsFirstPath(src, its[1..], k, after);
      match First(src, its[1..], k, after)
      case Some(ks) =>
        FirstThrough(src, its, i, caps, lo, hi, k, ks);
      case None =>
        var lo', hi' := if k == lo then lo + 1 else lo, if k == lo then hi else hi - 1;
        FirstAmongIsFirstPath(src, its, i, caps, lo', hi');
        WidenRange(src, its, i, caps, lo, hi, k, FirstAmong(src, its, after, lo', hi'));
    }
  }
}
