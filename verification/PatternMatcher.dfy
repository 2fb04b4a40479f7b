// The backtracking matcher of src/lib/pmatch.c, on positions in the subject and in the
// pattern string, with its mutable capture table. Every method is proved against First,
// the search of PatternSemantics in order of match priority.

module PatternMatcher {
  import opened Common
  import opened Ctype
  import opened PatternSyntax
  import opened PatternClasses
  import opened PatternSemantics

  const LUA_MAXCAPTURES := 20
  const SPECIALS := "^$*+?.([%-"

  // ---------------------------------------------------------------- what the code asks of a pattern

  datatype Kind = Unfinished | Closed | Marker

  function KindOf(c: Cap): Kind {
    if c.len == CAP_UNFINISHED then Unfinished else if c.len == CAP_POSITION then Marker else Closed
  }

  function Kinds(caps: seq<Cap>): (ks: seq<Kind>)
    ensures |ks| == |caps|
  {
    seq(|caps|, j requires 0 <= j < |caps| => KindOf(caps[j]))
  }

  function LastOpen(kinds: seq<Kind>): (l: int)
    ensures -1 <= l < |kinds|
    ensures l >= 0 ==> kinds[l] == Unfinished
    ensures forall j :: l < j < |kinds| ==> kinds[j] != Unfinished
  {
    if kinds == [] then -1
    else if kinds[|kinds| - 1] == Unfinished then |kinds| - 1
    else LastOpen(kinds[..|kinds| - 1])
  }

  predicate IsParen(item: Item) { item.Open? || item.Close? || item.Position? }

  // %b, a back reference, or a final $ at position p
  predicate IsSpecial(pat: string, p: nat)
    requires p < |pat|
  {
    || (pat[p] == L_ESC && (At(pat, p + 1) == 'b' || IsDigit(At(pat, p + 1))))
    || (pat[p] == '$' && p + 1 == |pat|)
  }

  predicate NoParens(its: seq<Item>) { forall t :: 0 <= t < |its| ==> !IsParen(its[t]) }

  // The pattern never uses more captures than the table holds, closes only what it opened,
  // refers back only to closed captures, and has no ? before a parenthesis.
  predicate Runnable(its: seq<Item>, kinds: seq<Kind>)
    decreases |its|
  {
    its == [] ||
    match its[0]
    case Open => |kinds| < LUA_MAXCAPTURES && Runnable(its[1..], kinds + [Unfinished])
    case Position => |kinds| < LUA_MAXCAPTURES && Runnable(its[1..], kinds + [Marker])
    case Close => LastOpen(kinds) >= 0 && Runnable(its[1..], kinds[LastOpen(kinds) := Closed])
    case Back(which) => 0 <= which < |kinds| && kinds[which] == Closed && Runnable(its[1..], kinds)
    case Opt(_) => NoParens(its[1..]) && Runnable(its[1..], kinds)
    case _ => Runnable(its[1..], kinds)
  }

  // Every capture starts at or before s, and a closed one is a slice of the subject.
  ghost predicate Sliced(src: string, caps: seq<Cap>, s: nat) {
    forall j :: 0 <= j < |caps| ==>
      && caps[j].init <= s
      && (KindOf(caps[j]) == Closed ==> 0 <= caps[j].len && caps[j].init + caps[j].len <= |src|)
  }

  // What match needs of its arguments. Only the attempt that follows a failed optional item
  // runs one past the end of the subject.
  ghost predicate Ready(src: string, its: seq<Item>, s: nat, caps: seq<Cap>) {
    && Runnable(its, Kinds(caps))
    && Sliced(src, caps, s)
    && (s <= |src| || NoParens(its))
  }

  // ---------------------------------------------------------------- outcomes

  // The search of First, keeping only where the path ends and the captures it leaves.
  function Outcome(src: string, its: seq<Item>, i: nat, caps: seq<Cap>): Option<(nat, seq<Cap>)>
    decreases |its|, 1, 0
  {
    if its == [] then Some((i, caps))
    else
      var (lo, hi) := Reach(src, its[0], i, caps);
      OutcomeAmong(src, its, After(its[0], i, caps), lo, hi)
  }

  function OutcomeAmong(src: string, its: seq<Item>, after: seq<Cap>, lo: int, hi: int): Option<(nat, seq<Cap>)>
    requires its != [] && (lo <= hi ==> 0 <= lo)
    decreases |its|, 0, hi - lo + 1
  {
    if lo > hi then None
    else
      var lazily := its[0].Lazy?;
      var rest := Outcome(src, its[1..], if lazily then lo else hi, after);
      if rest.Some? then rest
      else if lazily then OutcomeAmong(src, its, after, lo + 1, hi)
      else OutcomeAmong(src, its, after, lo, hi - 1)
  }

  lemma {:induction false} OutcomeOfFirst(src: string, its: seq<Item>, i: nat, caps: seq<Cap>)
    ensures Outcome(src, its, i, caps) ==
            match First(src, its, i, caps)
            case Some(ks) => Some((EndOf(i, ks), CapsAlong(its, i, caps, ks)))
            case None => None
    decreases |its|, 1, 0
  {
    if its != [] {
      var (lo, hi) := Reach(src, its[0], i, caps);
      OutcomeOfFirstAmong(src, its, After(its[0], i, caps), lo, hi);
    }
  }

  lemma {:induction false} OutcomeOfFirstAmong(src: string, its: seq<Item>, after: seq<Cap>, lo: int, hi: int)
    requires its != [] && (lo <= hi ==> 0 <= lo)
    ensures OutcomeAmong(src, its, after, lo, hi) ==
            match FirstAmong(src, its, after, lo, hi)
            case Some(ks) => Some((EndOf(ks[0], ks[1..]), CapsAlong(its[1..], ks[0], after, ks[1..])))
            case None => None
    decreases |its|, 0, hi - lo + 1
  {
    if lo <= hi {
      var k := if its[0].Lazy? then lo else hi;
      OutcomeOfFirst(src, its[1..], k, after);
      match First(src, its[1..], k, after)
      case Some(ks) => assert ([k] + ks)[1..] == ks;
      case None =>
        if its[0].Lazy? { OutcomeOfFirstAmong(src, its, after, lo + 1, hi); }
        else { OutcomeOfFirstAmong(src, its, after, lo, hi - 1); }
    }
  }

  lemma LongestFirst(src: string, its: seq<Item>, after: seq<Cap>, lo: nat, hi: nat)
    requires its != [] && !its[0].Lazy? && lo <= hi
    ensures var rest := Outcome(src, its[1..], hi, after);
            OutcomeAmong(src, its, after, lo, hi) ==
              if rest.Some? then rest else if lo == hi then None else OutcomeAmong(src, its, after, lo, hi - 1)
  {
  }

  lemma ShortestFirst(src: string, its: seq<Item>, after: seq<Cap>, lo: nat, hi: nat)
    requires its != [] && its[0].Lazy? && lo <= hi
    ensures var rest := Outcome(src, its[1..], lo, after);
            OutcomeAmong(src, its, after, lo, hi) ==
              if rest.Some? then rest else if lo == hi then None else OutcomeAmong(src, its, after, lo + 1, hi)
  {
  }

  // An item that can reach only one position hands over to the rest of the pattern.
  lemma OutcomeSingle(src: string, its: seq<Item>, i: nat, caps: seq<Cap>, k: nat)
    requires its != [] && Reach(src, its[0], i, caps) == (k, k)
    ensures Outcome(src, its, i, caps) == Outcome(src, its[1..], k, After(its[0], i, caps))
  {
    var after := After(its[0], i, caps);
    assert OutcomeAmong(src, its, after, k + 1, k) == OutcomeAmong(src, its, after, k, k - 1) == None;
  }

  lemma OutcomeStuck(src: string, its: seq<Item>, i: nat, caps: seq<Cap>)
    requires its != [] && Reach(src, its[0], i, caps).0 > Reach(src, its[0], i, caps).1
    ensures Outcome(src, its, i, caps) == None
  {
  }

  lemma {:induction false} NoParensKeepsCaps(its: seq<Item>, i: nat, caps: seq<Cap>, ks: seq<nat>)
    requires |its| == |ks| && NoParens(its)
    ensures CapsAlong(its, i, caps, ks) == caps
    decreases |its|
  {
    if its != [] {
      assert !IsParen(its[0]);
      NoParensKeepsCaps(its[1..], ks[0], caps, ks[1..]);
    }
  }

  lemma NoParensOutcome(src: string, its: seq<Item>, i: nat, caps: seq<Cap>)
    requires NoParens(its)
    ensures Outcome(src, its, i, caps).Some? ==> Outcome(src, its, i, caps).value.1 == caps
  {
    OutcomeOfFirst(src, its, i, caps);
    match First(src, its, i, caps)
    case Some(ks) => NoParensKeepsCaps(its, i, caps, ks);
    case None =>
  }

  // The rest of the pattern can be matched from every position its first item can reach.
  lemma ReadyRest(src: string, its: seq<Item>, s: nat, caps: seq<Cap>, k: nat)
    requires Ready(src, its, s, caps) && its != [] && !IsParen(its[0])
    requires Reach(src, its[0], s, caps).0 <= k <= Reach(src, its[0], s, caps).1
    ensures Ready(src, its[1..], k, caps)
  {
    ReachIsStep(src, its[0], s, caps, k);
  }

  lemma ReadyLater(src: string, its: seq<Item>, s: nat, caps: seq<Cap>, k: nat)
    requires Ready(src, its, s, caps) && s <= k && (k <= |src| || k == s)
    ensures Ready(src, its, k, caps)
  {}

  lemma ReadyAttempt(src: string, its: seq<Item>, s: nat, caps: seq<Cap>)
    requires Ready(src, its, s, caps) && its != [] && its[0].Opt?
    ensures NoParens(its[1..]) && Ready(src, its[1..], s + 1, caps) && Ready(src, its[1..], s, caps)
  {}

  lemma ReadyStart(src: string, its: seq<Item>, s: nat, caps: seq<Cap>)
    requires Ready(src, its, s, caps) && its != [] && (its[0].Open? || its[0].Position?)
    ensures |caps| < LUA_MAXCAPTURES && Ready(src, its[1..], s, After(its[0], s, caps))
  {
    assert IsParen(its[0]);
    assert Kinds(After(its[0], s, caps)) == Kinds(caps) + [if its[0].Open? then Unfinished else Marker];
  }

  lemma ReadyClose(src: string, its: seq<Item>, s: nat, caps: seq<Cap>)
    requires Ready(src, its, s, caps) && its != [] && its[0].Close?
    ensures LastUnfinished(caps) >= 0 && Ready(src, its[1..], s, After(Close, s, caps))
  {
    assert IsParen(its[0]);
    LastOpenIsLastUnfinished(caps);
    var l := LastUnfinished(caps);
    var after := After(Close, s, caps);
    assert Kinds(after) == Kinds(caps)[l := Closed];
    forall j | 0 <= j < |after| && j != l ensures after[j] == caps[j] {}
  }

  lemma LastOpenIsLastUnfinished(caps: seq<Cap>)
    ensures LastOpen(Kinds(caps)) == LastUnfinished(caps)
  {
    var a, b := LastOpen(Kinds(caps)), LastUnfinished(caps);
    if a >= 0 { assert KindOf(caps[a]) == Unfinished; }
    if b >= 0 { assert Kinds(caps)[b] == Unfinished; }
  }

  // x? takes one character if that leads to a match of the rest, else none.
  lemma OutcomeOptional(src: string, its: seq<Item>, s: nat, caps: seq<Cap>)
    requires its != [] && its[0].Opt?
    ensures var one := Outcome(src, its[1..], s + 1, caps);
            Outcome(src, its, s, caps) ==
              if MatchesOne(src, s, its[0].single) && one.Some? then one else Outcome(src, its[1..], s, caps)
  {
    assert OutcomeAmong(src, its, caps, s, s - 1) == None;
    assert OutcomeAmong(src, its, caps, s, s) == Outcome(src, its[1..], s, caps);
  }

  // ---------------------------------------------------------------- the C helpers

  // classend
  method ClassEndOf(pat: string, p: nat) returns (ep: nat)
    requires p < |pat| && ClassEnd(pat, p).Some?
    ensures ClassEnd(pat, p) == Some(ep)
  {
    var c := pat[p];
    ep := p + 1;
    if c == L_ESC {
      return ep + 1;
    } else if c == '[' {
      if At(pat, ep) == '^' { ep := ep + 1; }
      var first := true;
      while first || At(pat, ep) != ']'
        invariant first ==> SetEnd(pat, ep) == ClassEnd(pat, p)
        invariant !first && At(pat, ep) != ']' ==> SetEnd(pat, ep) == ClassEnd(pat, p)
        invariant !first && At(pat, ep) == ']' ==> ClassEnd(pat, p) == Some(ep + 1)
        decreases |pat| - ep, first
      {
        first := false;
        var esc := pat[ep] == L_ESC;
        ep := ep + 1;
        if esc && ep < |pat| { ep := ep + 1; }
      }
      return ep + 1;
    }
  }

  lemma SomeSatCons(c: char, m: Member, ms: seq<Member>)
    ensures SomeSat(c, [m] + ms) == (MemberSat(c, m) || SomeSat(c, ms))
  {
    assert ([m] + ms)[1..] == ms;
  }

  // Whether a character is in the set read from position i
  predicate InSet(c: char, pat: string, i: nat, ec: nat)
    requires ec < |pat|
    decreases ec - i
  {
    if i >= ec then false
    else if pat[i] == L_ESC then ClassSat(c, pat[i + 1]) || InSet(c, pat, i + 2, ec)
    else if pat[i + 1] == '-' && i + 2 < ec then pat[i] <= c <= pat[i + 2] || InSet(c, pat, i + 3, ec)
    else pat[i] == c || InSet(c, pat, i + 1, ec)
  }

  lemma {:induction false} InSetIs(c: char, pat: string, i: nat, ec: nat)
    requires ec < |pat|
    ensures InSet(c, pat, i, ec) <==> SomeSat(c, Members(pat, i, ec))
    decreases ec - i
  {
    if i < ec {
      if pat[i] == L_ESC {
        InSetIs(c, pat, i + 2, ec);
        SomeSatCons(c, Named(pat[i + 1]), Members(pat, i + 2, ec));
      } else if pat[i + 1] == '-' && i + 2 < ec {
        InSetIs(c, pat, i + 3, ec);
        SomeSatCons(c, Ranged(pat[i], pat[i + 2]), Members(pat, i + 3, ec));
      } else {
        InSetIs(c, pat, i + 1, ec);
        SomeSatCons(c, Just(pat[i]), Members(pat, i + 1, ec));
      }
    }
  }

  // matchbracketclass, with p at the opening bracket and ec at the closing one
  method MatchBracketClass(c: char, pat: string, p: nat, ec: nat) returns (r: bool)
    requires p < |pat| && ec < |pat|
    ensures r == (SomeSat(c, Members(pat, SetStart(pat, p), ec)) != (At(pat, p + 1) == '^'))
  {
    var sig := true;
    var i := p;
    if At(pat, i + 1) == '^' { sig := false; i := i + 1; }
    i := i + 1;
    InSetIs(c, pat, i, ec);
    ghost var among := InSet(c, pat, i, ec);
    while i < ec
      invariant among == InSet(c, pat, i, ec)
      decreases ec - i
    {
      if pat[i] == L_ESC {
        i := i + 1;
        if ClassSat(c, pat[i]) { return sig; }
      } else if pat[i + 1] == '-' && i + 2 < ec {
        i := i + 2;
        if pat[i - 2] <= c <= pat[i] { return sig; }
      } else {
        if pat[i] == c { return sig; }
      }
      i := i + 1;
    }
    return !sig;
  }

  // singlematch
  method SingleMatch(c: char, pat: string, p: nat, ep: nat) returns (r: bool)
    requires p < |pat| && ClassEnd(pat, p) == Some(ep)
    ensures r == Sat(c, SingleAt(pat, p, ep))
    ensures pat[p] == '.' ==> r
    ensures pat[p] == L_ESC ==> r == Stands(c, pat[p + 1])
    ensures pat[p] != '.' && pat[p] != L_ESC && pat[p] != '[' ==> r == (c == pat[p])
  {
    if pat[p] == '.' {
      r := true;
    } else if pat[p] == L_ESC {
      r := ClassSat(c, pat[p + 1]);
      ClassIs(c, pat[p + 1]);
    } else if pat[p] == '[' {
      r := MatchBracketClass(c, pat, p, ep - 1);
    } else {
      r := pat[p] == c;
    }
  }

  // ---------------------------------------------------------------- the matcher

  // What follows the first item can be matched from s on.
  ghost predicate CanFollow(src: string, pat: string, q: nat, its: seq<Item>, s: nat, caps: seq<Cap>) {
    q <= |pat| && its != [] && Parse(pat, q) == Some(its[1..]) && Ready(src, its[1..], s, caps)
  }

  class MatchState {
    const src: string
    var level: nat
    const capture: array<Cap>

    constructor (src: string)
      ensures Valid() && fresh(capture) && level == 0 && this.src == src
    {
      this.src := src;
      level := 0;
      capture := new Cap[LUA_MAXCAPTURES](_ => Cap(0, 0));
    }

    ghost predicate Valid()
      reads this
    {
      capture.Length == LUA_MAXCAPTURES && level <= LUA_MAXCAPTURES
    }

    // The captures in use.
    ghost function Caps(): (caps: seq<Cap>)
      reads this, capture
      requires Valid()
      ensures |caps| == level
    {
      capture[..level]
    }

    ghost predicate CanMatch(s: nat, pat: string, p: nat)
      reads this, capture
    {
      Valid() && p <= |pat| && Parse(pat, p).Some? && Ready(src, Parse(pat, p).value, s, Caps())
    }

    // The result r and the captures are the outcome o; on failure the captures are as before.
    ghost predicate Yields(r: Option<nat>, o: Option<(nat, seq<Cap>)>, before: seq<Cap>)
      reads this, capture
    {
      && Valid()
      && match o
         case Some(done) => r == Some(done.0) && Caps() == done.1
         case None => r == None && Caps() == before
    }

    // check_capture, for a back reference the pattern is allowed to make
    method CheckCapture(d: char) returns (l: int)
      requires Valid() && IsDigit(d)
      ensures var k := d as int - '1' as int;
              l == if 0 <= k < |Caps()| && Kinds(Caps())[k] != Unfinished then k else -1
    {
      l := d as int - '1' as int;
      if l < 0 || l >= level || capture[l].len == CAP_UNFINISHED { l := -1; }
    }

    // capture_to_close
    method CaptureToClose() returns (l: int)
      requires Valid()
      ensures l == LastUnfinished(Caps())
    {
      l := level - 1;
      while l >= 0
        invariant -1 <= l < level
        invariant LastUnfinished(Caps()) == LastUnfinished(capture[..l + 1])
      {
        if capture[l].len == CAP_UNFINISHED { return; }
        assert capture[..l + 1][..l] == capture[..l];
        l := l - 1;
      }
      l := -1;
    }

    // matchbalance
    method MatchBalance(s: nat, open: char, close: char) returns (r: Option<nat>)
      ensures var (lo, hi) := Reach(src, Between(open, close), s, []);
              if lo <= hi then lo == hi && r == Some(lo) else r == None
    {
      if s >= |src| || src[s] != open { return None; }
      var cont, t := 1, s + 1;
      while t < |src|
        invariant s < t <= |src| && cont > 0
        invariant BalanceEnd(src, s + 1, open, close, 1) == BalanceEnd(src, t, open, close, cont)
      {
        if src[t] == close {
          cont := cont - 1;
          if cont == 0 { return Some(t + 1); }
        } else if src[t] == open {
          cont := cont + 1;
        }
        t := t + 1;
      }
      r := None;
    }

    // match_capture
    method MatchCapture(s: nat, d: char) returns (r: Option<nat>)
      requires Valid() && IsDigit(d) && Sliced(src, Caps(), s)
      requires var k := d as int - '1' as int; 0 <= k < level && Kinds(Caps())[k] == Closed
      ensures var (lo, hi) := Reach(src, Back(d as int - '1' as int), s, Caps());
              if lo <= hi then lo == hi && r == Some(lo) else r == None
    {
      var l := CheckCapture(d);
      var init, len := capture[l].init, capture[l].len;
      assert capture[l] == Caps()[l];
      if |src| - s >= len && src[init..init + len] == src[s..s + len] {
        r := Some(s + len);
      } else {
        r := None;
      }
    }

    // start_capture
    method StartCapture(s: nat, pat: string, p: nat, what: int) returns (r: Option<nat>)
      requires what == CAP_UNFINISHED || what == CAP_POSITION
      requires Valid() && level < LUA_MAXCAPTURES && p <= |pat| && Parse(pat, p).Some?
      requires Ready(src, Parse(pat, p).value, s, Caps() + [Cap(s, what)])
      modifies this, capture
      ensures Yields(r, Outcome(src, Parse(pat, p).value, s, old(Caps()) + [Cap(s, what)]), old(Caps()))
      decreases |pat| - p, 4
    {
      capture[level] := Cap(s, what);
      level := level + 1;
      assert Caps() == old(Caps()) + [Cap(s, what)];
      r := Match(s, pat, p);
      if r == None {
        level := level - 1;
      }
    }

    // end_capture
    method EndCapture(s: nat, pat: string, p: nat) returns (r: Option<nat>)
      requires Valid() && LastUnfinished(Caps()) >= 0 && p <= |pat| && Parse(pat, p).Some?
      requires Ready(src, Parse(pat, p).value, s, After(Close, s, Caps()))
      modifies this, capture
      ensures Yields(r, Outcome(src, Parse(pat, p).value, s, After(Close, s, old(Caps()))), old(Caps()))
      decreases |pat| - p, 4
    {
      var l := CaptureToClose();
      ghost var init := capture[l].init;
      capture[l] := Cap(capture[l].init, s - capture[l].init);
      assert Caps() == After(Close, s, old(Caps()));
      r := Match(s, pat, p);
      if r == None {
        assert Caps()[l].init == init;
        capture[l] := Cap(capture[l].init, CAP_UNFINISHED);
        assert Caps() == old(Caps());
      }
    }

    // The first loop of max_expand: the longest run of the class at p.
    method CountRun(s: nat, pat: string, p: nat, ep: nat) returns (i: nat)
      requires p < |pat| && ClassEnd(pat, p) == Some(ep)
      ensures s + i == RunEnd(src, s, SingleAt(pat, p, ep))
    {
      i := 0;
      while s + i < |src|
        invariant RunEnd(src, s, SingleAt(pat, p, ep)) == RunEnd(src, s + i, SingleAt(pat, p, ep))
      {
        var more := SingleMatch(src[s + i], pat, p, ep);
        if !more { return; }
        i := i + 1;
      }
    }

    // max_expand, for the item at p whose class ends at ep; s is past the repetitions it must take
    method MaxExpand(s: nat, pat: string, p: nat, ep: nat, ghost its: seq<Item>) returns (r: Option<nat>)
      requires Valid() && p < |pat| && ClassEnd(pat, p) == Some(ep) && CanFollow(src, pat, ep + 1, its, s, Caps())
      requires its[0] == Star(SingleAt(pat, p, ep)) || its[0] == Plus(SingleAt(pat, p, ep))
      modifies this, capture
      ensures Yields(r, OutcomeAmong(src, its, old(Caps()), s, RunEnd(src, s, its[0].single)), old(Caps()))
      decreases |pat| - p, 0
    {
      ghost var caps := Caps();
      var i := CountRun(s, pat, p, ep);
      ghost var goal := OutcomeAmong(src, its, caps, s, s + i);
      while true
        invariant i == 0 || s + i <= |src|
        invariant Valid() && Caps() == caps
        invariant OutcomeAmong(src, its, caps, s, s + i) == goal
        decreases i
      {
        r := TryLongest(s, s + i, pat, ep + 1, its, caps);
        if r != None || i == 0 { return; }
        i := i - 1;
      }
    }

    // A round of it: the rest of the pattern at the longest of the ends that are left
    method TryLongest(s: nat, k: nat, pat: string, q: nat, ghost its: seq<Item>, ghost caps: seq<Cap>)
      returns (r: Option<nat>)
      requires Valid() && Caps() == caps && CanFollow(src, pat, q, its, s, caps) && !its[0].Lazy?
      requires s <= k && (k <= |src| || k == s)
      modifies this, capture
      ensures r != None || k == s ==> Yields(r, OutcomeAmong(src, its, caps, s, k), caps)
      ensures r == None && k > s ==>
                && Valid() && Caps() == caps
                && OutcomeAmong(src, its, caps, s, k - 1) == OutcomeAmong(src, its, caps, s, k)
      decreases |pat| - q, 6
    {
      LongestFirst(src, its, caps, s, k);
      r := MatchLater(s, k, pat, q, its[1..]);
    }

    // min_expand
    method MinExpand(s: nat, pat: string, p: nat, ep: nat, ghost its: seq<Item>) returns (r: Option<nat>)
      requires Valid() && p < |pat| && ClassEnd(pat, p) == Some(ep) && CanFollow(src, pat, ep + 1, its, s, Caps())
      requires its[0] == Lazy(SingleAt(pat, p, ep))
      modifies this, capture
      ensures Yields(r, OutcomeAmong(src, its, old(Caps()), s, RunEnd(src, s, its[0].single)), old(Caps()))
      decreases |pat| - p, 0
    {
      ghost var x, caps := its[0].single, Caps();
      ghost var e := RunEnd(src, s, x);
      ghost var goal := OutcomeAmong(src, its, caps, s, e);
      var t: nat := s;
      while true
        invariant s <= t <= e && (e <= |src| || e == s)
        invariant Valid() && Caps() == caps
        invariant OutcomeAmong(src, its, caps, t, e) == goal
        decreases e - t
      {
        r := TryShortest(s, t, e, pat, ep + 1, its, caps);
        if r != None { return; }
        var more := TestOne(t, pat, p, ep);
        assert more <==> t < e;
        if !more { return; }
        t := t + 1;
      }
    }

    // A round of it: the rest of the pattern at the shortest of the ends that are left
    method TryShortest(s: nat, k: nat, ghost e: nat, pat: string, q: nat, ghost its: seq<Item>, ghost caps: seq<Cap>)
      returns (r: Option<nat>)
      requires Valid() && Caps() == caps && CanFollow(src, pat, q, its, s, caps) && its[0].Lazy?
      requires s <= k <= e && (k <= |src| || k == s)
      modifies this, capture
      ensures r != None || k == e ==> Yields(r, OutcomeAmong(src, its, caps, k, e), caps)
      ensures r == None && k < e ==>
                && Valid() && Caps() == caps
                && OutcomeAmong(src, its, caps, k + 1, e) == OutcomeAmong(src, its, caps, k, e)
      decreases |pat| - q, 6
    {
      ShortestFirst(src, its, caps, k, e);
      r := MatchLater(s, k, pat, q, its[1..]);
    }

    // s < ms->src_end && singlematch(...)
    method TestOne(s: nat, pat: string, p: nat, ep: nat) returns (m: bool)
      requires p < |pat| && ClassEnd(pat, p) == Some(ep)
      ensures m == MatchesOne(src, s, SingleAt(pat, p, ep))
    {
      m := false;
      if s < |src| { m := SingleMatch(src[s], pat, p, ep); }
    }

    // The recursive call of match, for what follows an item
    method MatchRest(k: nat, pat: string, q: nat, ghost rest: seq<Item>) returns (r: Option<nat>)
      requires Valid() && q <= |pat| && Parse(pat, q) == Some(rest) && Ready(src, rest, k, Caps())
      modifies this, capture
      ensures Yields(r, Outcome(src, rest, k, old(Caps())), old(Caps()))
      decreases |pat| - q, 4
    {
      r := Match(k, pat, q);
    }

    // The same from a position behind one where it is allowed
    method MatchLater(s: nat, k: nat, pat: string, q: nat, ghost rest: seq<Item>) returns (r: Option<nat>)
      requires Valid() && q <= |pat| && Parse(pat, q) == Some(rest) && Ready(src, rest, s, Caps())
      requires s <= k && (k <= |src| || k == s)
      modifies this, capture
      ensures Yields(r, Outcome(src, rest, k, old(Caps())), old(Caps()))
      decreases |pat| - q, 5
    {
      ReadyLater(src, rest, s, Caps(), k);
      r := MatchRest(k, pat, q, rest);
    }

    // match: the labelled restart of the C code is this loop
    method Match(s0: nat, pat: string, p0: nat) returns (r: Option<nat>)
      requires CanMatch(s0, pat, p0)
      modifies this, capture
      ensures Yields(r, Outcome(src, Parse(pat, p0).value, s0, old(Caps())), old(Caps()))
      decreases |pat| - p0, 3
    {
      ghost var caps := Caps();
      ghost var goal := Outcome(src, Parse(pat, p0).value, s0, caps);
      var s: nat, p: nat := s0, p0;
      while p < |pat|
        invariant p0 <= p && CanMatch(s, pat, p) && Caps() == caps
        invariant Outcome(src, Parse(pat, p).value, s, caps) == goal
        decreases |pat| - p
      {
        if pat[p] == '(' || pat[p] == ')' {
          r := MatchParen(s, pat, p);
          return;
        }
        if IsSpecial(pat, p) {
          var k, q := MatchSpecial(s, pat, p);
          if k == None { return None; }
          s, p := k.value, q;
        } else {
          var done, k, q;
          done, r, k, q := MatchItem(s, pat, p, Parse(pat, p).value);
          if done { return; }
          s, p := k, q;
        }
      }
      r := Some(s);
    }

    // The parenthesis branches of match.
    method MatchParen(s: nat, pat: string, p: nat) returns (r: Option<nat>)
      requires CanMatch(s, pat, p) && p < |pat| && (pat[p] == '(' || pat[p] == ')')
      modifies this, capture
      ensures Yields(r, Outcome(src, Parse(pat, p).value, s, old(Caps())), old(Caps()))
      decreases |pat| - p, 2
    {
      ghost var its := Parse(pat, p).value;
      OutcomeSingle(src, its, s, Caps(), s);
      if pat[p] == ')' {
        ReadyClose(src, its, s, Caps());
        r := EndCapture(s, pat, p + 1);
      } else {
        ReadyStart(src, its, s, Caps());
        if At(pat, p + 1) == ')' {
          r := StartCapture(s, pat, p + 2, CAP_POSITION);
        } else {
          r := StartCapture(s, pat, p + 1, CAP_UNFINISHED);
        }
      }
    }

    // The branches of match for %b, back references and a final $: where matching goes on.
    method MatchSpecial(s: nat, pat: string, p: nat) returns (k: Option<nat>, q: nat)
      requires CanMatch(s, pat, p) && p < |pat| && IsSpecial(pat, p)
      ensures p < q
      ensures k == None ==> Outcome(src, Parse(pat, p).value, s, Caps()) == None
      ensures k != None ==> CanMatch(k.value, pat, q)
      ensures k != None ==>
                Outcome(src, Parse(pat, p).value, s, Caps()) == Outcome(src, Parse(pat, q).value, k.value, Caps())
    {
      ghost var its := Parse(pat, p).value;
      if pat[p] == '$' {
        k, q := if s == |src| then Some(s) else None, p + 1;
      } else if At(pat, p + 1) == 'b' {
        k := MatchBalance(s, pat[p + 2], pat[p + 3]);
        q := p + 4;
      } else {
        k := MatchCapture(s, pat[p + 1]);
        q := p + 2;
      }
      if k == None {
        OutcomeStuck(src, its, s, Caps());
      } else {
        ReadyRest(src, its, s, Caps(), k.value);
        OutcomeSingle(src, its, s, Caps(), k.value);
      }
    }

    // The default branch of match: a single-character class with its repetition. Either the
    // whole match is decided, or matching goes on at subject position k and pattern position q.
    method MatchItem(s: nat, pat: string, p: nat, ghost its: seq<Item>)
      returns (done: bool, r: Option<nat>, k: nat, q: nat)
      requires Valid() && p < |pat| && Parse(pat, p) == Some(its) && Ready(src, its, s, Caps())
      requires its != [] && Repeats(its[0]) && ItemAt(pat, p) == RepeatAt(pat, p)
      modifies this, capture
      ensures p < q <= |pat| + 1
      ensures done ==> Yields(r, Outcome(src, its, s, old(Caps())), old(Caps()))
      ensures !done ==> q <= |pat| && Parse(pat, q) == Some(its[1..])
      ensures !done ==> Valid() && Caps() == old(Caps()) && Ready(src, its[1..], k, Caps())
      ensures !done ==> Outcome(src, its[1..], k, Caps()) == Outcome(src, its, s, Caps())
      decreases |pat| - p, 2
    {
      var ep := ClassEndOf(pat, p);
      done, r, k, q := true, None, s, ep + 1;
      var m := TestOne(s, pat, p, ep);
      if At(pat, ep) == '?' {
        ReadyAttempt(src, its, s, Caps());
        r := TryOptional(s, pat, ep + 1, m, its);
        done := r != None;
      } else if At(pat, ep) == '*' || At(pat, ep) == '+' || At(pat, ep) == '-' {
        r := MatchRepeated(s, pat, p, ep, m, its);
      } else if m {
        ReadyRest(src, its, s, Caps(), s + 1);
        OutcomeSingle(src, its, s, Caps(), s + 1);
        done, k, q := false, s + 1, ep;
      } else {
        OutcomeStuck(src, its, s, Caps());
      }
    }

    // The branches for *, + and -
    method MatchRepeated(s: nat, pat: string, p: nat, ep: nat, m: bool, ghost its: seq<Item>) returns (r: Option<nat>)
      requires Valid() && p < |pat| && ClassEnd(pat, p) == Some(ep) && ep < |pat| && its != []
      requires var x := SingleAt(pat, p, ep);
               || (pat[ep] == '*' && its[0] == Star(x))
               || (pat[ep] == '+' && its[0] == Plus(x))
               || (pat[ep] == '-' && its[0] == Lazy(x))
      requires m == MatchesOne(src, s, SingleAt(pat, p, ep))
      requires Parse(pat, ep + 1) == Some(its[1..]) && Ready(src, its, s, Caps())
      modifies this, capture
      ensures Yields(r, Outcome(src, its, s, old(Caps())), old(Caps()))
      decreases |pat| - p, 1
    {
      if pat[ep] == '*' {
        ReadyRest(src, its, s, Caps(), s);
        r := MaxExpand(s, pat, p, ep, its);
      } else if pat[ep] == '-' {
        ReadyRest(src, its, s, Caps(), s);
        r := MinExpand(s, pat, p, ep, its);
      } else if m {
        ReadyRest(src, its, s, Caps(), s + 1);
        r := MaxExpand(s + 1, pat, p, ep, its);
      } else {
        OutcomeStuck(src, its, s, Caps());
        r := None;
      }
    }

    // The ? branch: the continuation runs from s + 1 before m is looked at, and its result is
    // dropped when m is false.
    method TryOptional(s: nat, pat: string, q: nat, m: bool, ghost its: seq<Item>) returns (r: Option<nat>)
      requires Valid() && q <= |pat| && its != [] && its[0].Opt? && m == MatchesOne(src, s, its[0].single)
      requires Parse(pat, q) == Some(its[1..]) && NoParens(its[1..]) && Ready(src, its[1..], s + 1, Caps())
      modifies this, capture
      ensures Valid() && Caps() == old(Caps())
      ensures r == None ==> Outcome(src, its, s, Caps()) == Outcome(src, its[1..], s, Caps())
      ensures r != None ==> Outcome(src, its, s, Caps()) == Some((r.value, Caps()))
      decreases |pat| - q, 4
    {
      NoParensOutcome(src, its[1..], s + 1, Caps());
      OutcomeOptional(src, its, s, Caps());
      r := Match(s + 1, pat, q);
      if !m { r := None; }
    }
  }
}
