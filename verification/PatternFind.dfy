// str_find of src/lib/pmatch.c: the leftmost search with the matcher, the plain-text fast
// path, and the proof that the two agree.

module PatternFind {
  import opened Common
  import opened PatternSyntax
  import opened PatternSemantics
  import opened PatternMatcher
  import opened PatternCaptures

  datatype Slice = Slice(init: nat, len: nat)

  // ---------------------------------------------------------------- specification

  // A pattern that starts with ^ is tried at one position only.
  predicate Anchored(pat: string) { At(pat, 0) == '^' }

  function Body(pat: string): nat { if Anchored(pat) then 1 else 0 }

  // What str_find asks of a pattern it has to match: well formed and NUL-free, with balanced
  // parentheses that fit the capture table.
  predicate GoodPattern(pat: string) {
    && '\0' !in pat
    && Parse(pat, Body(pat)).Some?
    && Runnable(Parse(pat, Body(pat)).value, [])
    && BalancedFrom(Parse(pat, Body(pat)).value, 0)
  }

  function Items(pat: string): seq<Item>
    requires GoodPattern(pat)
  {
    Parse(pat, Body(pat)).value
  }

  predicate HasSpecials(pat: string) { exists c :: c in pat && c in SPECIALS }

  // Where the search starts: a one-based position, or counted from the end when negative.
  function StartOf(initPos: int, len: nat): (init: nat)
    ensures init <= len
    ensures 1 <= initPos <= len ==> init == initPos - 1
    ensures -(len as int) <= initPos < 0 ==> init == len + initPos
  {
    var pos := if initPos < 0 then initPos + len + 1 else initPos;
    if pos <= 1 then 0 else if pos - 1 > len then len else pos - 1
  }

  ghost predicate Matches(s: string, its: seq<Item>, k: nat) {
    exists ks :: Path(s, its, k, [], ks)
  }

  // The path ks from k is the one str_find reports: it starts as far left as any match does,
  // and among the paths from there it is the first in priority.
  ghost predicate Reported(s: string, its: seq<Item>, init: nat, anchored: bool, k: nat, ks: seq<nat>) {
    && init <= k <= |s| && (anchored ==> k == init)
    && IsFirstPath(s, its, k, [], ks)
    && forall j: nat :: init <= j < k ==> !Matches(s, its, j)
  }

  ghost predicate Holds(out: seq<Slice>, num: nat, caps: seq<Cap>, room: nat) {
    && num == (if |caps| < room then |caps| else room) <= |out|
    && forall j :: 0 <= j < num ==> out[j].init == caps[j].init && out[j].len == caps[j].len
  }

  // ---------------------------------------------------------------- plain search

  method MemChr(s: string, from: nat, len: nat, c: char) returns (r: Option<nat>)
    requires from + len <= |s|
    ensures r.Some? ==> from <= r.value < from + len && s[r.value] == c && forall j :: from <= j < r.value ==> s[j] != c
    ensures r.None? ==> forall j :: from <= j < from + len ==> s[j] != c
  {
    var i := from;
    while i < from + len
      invariant from <= i <= from + len
      invariant forall j :: from <= j < i ==> s[j] != c
    {
      if s[i] == c { return Some(i); }
      i := i + 1;
    }
    r := None;
  }

  // lmemfind on s[from..]: the first occurrence of pat at from or later
  method LMemFind(s: string, from: nat, pat: string) returns (r: Option<nat>)
    requires from <= |s|
    ensures r.Some? ==> from <= r.value && OccursAt(s, r.value, pat)
    ensures r.Some? ==> forall j: nat :: from <= j < r.value ==> !OccursAt(s, j, pat)
    ensures r.None? ==> forall j: nat :: from <= j ==> !OccursAt(s, j, pat)
  {
    if |pat| == 0 {
      return Some(from);
    } else if |pat| > |s| - from {
      return None;
    }
    var l2 := |pat| - 1;
    var l1 := |s| - from - l2;
    var s1 := from;
    while l1 > 0
      invariant from <= s1 && l1 >= 0 && s1 + l1 + l2 == |s|
      invariant forall j: nat :: from <= j < s1 ==> !OccursAt(s, j, pat)
    {
      var init := MemChr(s, s1, l1, pat[0]);
      forall j: nat | s1 <= j && OccursAt(s, j, pat)
        ensures init.Some? && init.value <= j
      {
        assert s[j] == s[j..j + |pat|][0];
      }
      if init == None { return None; }
      var k := init.value + 1;
      if s[k..k + l2] == pat[1..] {
        assert s[k - 1..k - 1 + |pat|] == [s[k - 1]] + s[k..k + l2];
        return Some(k - 1);
      }
      assert !OccursAt(s, k - 1, pat);
      l1 := l1 - (k - s1);
      s1 := k;
    }
    r := None;
  }

  // ---------------------------------------------------------------- str_find

  // push_string_captures
  method PushCaptures(ms: MatchState, out: array<Slice>) returns (num: nat)
    requires ms.Valid() && forall j :: 0 <= j < ms.level ==> ms.Caps()[j].len >= 0
    modifies out
    ensures Holds(out[..], num, ms.Caps(), out.Length)
    ensures out[num..] == old(out[num..])
    ensures ms.Valid()
  {
    num := if ms.level > out.Length then out.Length else ms.level;
    var i := 0;
    ghost var caps := ms.Caps();
    while i < num
      invariant 0 <= i <= num && ms.Valid() && ms.Caps() == caps
      invariant forall j :: 0 <= j < i ==> out[j].init == caps[j].init && out[j].len == caps[j].len
      invariant out[num..] == old(out[num..])
    {
      assert ms.capture[i] == caps[i];
      out[i] := Slice(ms.capture[i].init, ms.capture[i].len);
      i := i + 1;
    }
  }

  method StrFind(s: string, pat: string, explicit: bool, initPos: int, out: array<Slice>)
    returns (found: bool, num: nat)
    requires !explicit && HasSpecials(pat) ==> GoodPattern(pat)
    modifies out
    ensures explicit || !HasSpecials(pat) ==>
      (found <==> exists k: nat :: StartOf(initPos, |s|) <= k && OccursAt(s, k, pat))
    ensures !explicit && HasSpecials(pat) ==>
      FindsLeftmost(s, pat, StartOf(initPos, |s|), found, num, out[..])
    ensures !explicit && HasSpecials(pat) && found ==> out[num..] == old(out[num..])
    ensures explicit || !HasSpecials(pat) || !found ==> out[..] == old(out[..])
  {
    var pos := if initPos < 0 then initPos + |s| + 1 else initPos;
    var init := (if pos >= 0 then pos else 0) - 1;
    if init < 0 { init := 0; } else if init > |s| { init := |s|; }
    if explicit || !HasSpecials(pat) {
      var s2 := LMemFind(s, init, pat);
      found, num := s2 != None, 0;
    } else {
      found, num := FindMatch(s, pat, init, out);
    }
  }

  // The result of a search from init: found exactly when some permitted position matches,
  // and then the slices are those of the reported path.
  ghost predicate FindsLeftmost(s: string, pat: string, init: nat, found: bool, num: nat, out: seq<Slice>)
    requires GoodPattern(pat)
  {
    && (found <==> exists k: nat :: init <= k <= |s| && (Anchored(pat) ==> k == init) && Matches(s, Items(pat), k))
    && (found ==> exists k: nat, ks: seq<nat> ::
          && Reported(s, Items(pat), init, Anchored(pat), k, ks)
          && Holds(out, num, CapsAlong(Items(pat), k, [], ks), |out|))
  }

  // The loop of str_find over starting positions.
  method FindMatch(s: string, pat: string, init: nat, out: array<Slice>) returns (found: bool, num: nat)
    requires GoodPattern(pat) && init <= |s|
    modifies out
    ensures FindsLeftmost(s, pat, init, found, num, out[..])
    ensures found ==> num <= out.Length && out[num..] == old(out[num..])
    ensures !found ==> out[..] == old(out[..])
  {
    found, num := false, 0;
    var anchor := At(pat, 0) == '^';
    var p := if anchor then 1 else 0;
    ghost var its := Items(pat);
    var s1: nat := init;
    while true
      invariant init <= s1 <= |s| && (anchor ==> s1 == init)
      invariant forall j: nat :: init <= j < s1 ==> !Matches(s, its, j)
      invariant out[..] == old(out[..])
      decreases |s| - s1
    {
      found, num := MatchAt(s, pat, p, s1, out);
      if found {
        ghost var ks := First(s, its, s1, []).value;
        assert Matches(s, its, s1);
        assert Reported(s, its, init, anchor, s1, ks);
        return;
      }
      if s1 >= |s| || anchor { return; }
      s1 := s1 + 1;
    }
  }

  // One round of that loop: match at s1 with an empty capture table, and hand out the captures.
  method MatchAt(s: string, pat: string, p: nat, s1: nat, out: array<Slice>) returns (found: bool, num: nat)
    requires p <= |pat| && Parse(pat, p).Some? && s1 <= |s|
    requires Runnable(Parse(pat, p).value, []) && BalancedFrom(Parse(pat, p).value, 0)
    modifies out
    ensures found <==> Matches(s, Parse(pat, p).value, s1)
    ensures found ==>
      var its := Parse(pat, p).value;
      First(s, its, s1, []).Some? && IsFirstPath(s, its, s1, [], First(s, its, s1, []).value)
      && Holds(out[..], num, CapsAlong(its, s1, [], First(s, its, s1, []).value), out.Length)
      && out[num..] == old(out[num..])
    ensures !found ==> out[..] == old(out[..])
  {
    ghost var its := Parse(pat, p).value;
    FirstIsFirstPath(s, its, s1, []);
    OutcomeOfFirst(s, its, s1, []);
    var ms := new MatchState(s);
    assert ms.Caps() == [] && Kinds([]) == [];
    var res := ms.Match(s1, pat, p);
    found, num := res != None, 0;
    if found {
      ghost var ks := First(s, its, s1, []).value;
      assert Path(s, its, s1, [], ks);
      CapsAreSlices(s, its, s1, [], ks, 0);
      num := PushCaptures(ms, out);
    }
  }

  ghost predicate IsSliceOrUnfinished(s: string, c: Cap) {
    c.len == CAP_UNFINISHED || (0 <= c.len && c.init + c.len <= |s|)
  }

  // The captures of a balanced pattern are slices of the subject.
  lemma {:induction false} CapsAreSlices(s: string, its: seq<Item>, i: nat, caps: seq<Cap>, ks: seq<nat>, d: nat)
    requires Path(s, its, i, caps, ks) && |ks| == |its| && i <= |s|
    requires BalancedFrom(its, d) && UnfinishedFrom(caps, 0) == d
    requires forall j :: 0 <= j < |caps| ==> caps[j].init <= i && IsSliceOrUnfinished(s, caps[j])
    ensures var end := CapsAlong(its, i, caps, ks);
            forall j :: 0 <= j < |end| ==> 0 <= end[j].len && end[j].init + end[j].len <= |s|
    decreases |its|
  {
    if its == [] {
      NoneUnfinished(caps, 0);
    } else {
      AfterOneItem(its[0], i, caps, 0);
      PathAscends(s, its, i, caps, ks);
      var d' := if its[0].Open? then d + 1 else if its[0].Close? then d - 1 else d;
      CapsAreSlices(s, its[1..], ks[0], After(its[0], i, caps), ks[1..], d');
      assert CapsAlong(its, i, caps, ks) == CapsAlong(its[1..], ks[0], After(its[0], i, caps), ks[1..]);
    }
  }

  // ---------------------------------------------------------------- the fast path

  // A pattern without special characters or closing parentheses is a sequence of literals.
  lemma {:induction false} PlainParse(pat: string, p: nat)
    requires p <= |pat| && !HasSpecials(pat) && ')' !in pat
    ensures Parse(pat, p).Some? && |Parse(pat, p).value| == |pat| - p
    ensures forall t :: 0 <= t < |pat| - p ==> Parse(pat, p).value[t] == One(Exactly(pat[p + t]))
    decreases |pat| - p
  {
    if p < |pat| {
      PlainParse(pat, p + 1);
      var c, d := pat[p], At(pat, p + 1);
      assert forall x :: x in pat ==> x !in SPECIALS;
      assert SPECIALS == ['^', '$', '*', '+', '?', '.', '(', '[', '%', '-'];
      assert c !in SPECIALS && d !in SPECIALS;
      assert c != '(' && c != '%' && c != '[' && c != '.' && c != '$';
      assert d != '?' && d != '*' && d != '+' && d != '-';
      assert SingleAt(pat, p, p + 1) == Exactly(c);
      assert Parse(pat, p) == Prefix(One(Exactly(c)), Parse(pat, p + 1));
    }
  }

  lemma {:induction false} LiteralsMatch(s: string, its: seq<Item>, k: nat, text: string)
    requires |its| == |text| && forall t :: 0 <= t < |text| ==> its[t] == One(Exactly(text[t]))
    requires k <= |s|
    ensures Matches(s, its, k) <==> OccursAt(s, k, text)
    decreases |text|
  {
    if text == [] {
      assert Path(s, its, k, [], []);
    } else if k < |s| {
      LiteralsMatch(s, its[1..], k + 1, text[1..]);
      if OccursAt(s, k, text) {
        assert s[k] == s[k..k + |text|][0];
        assert s[k + 1..k + 1 + |text[1..]|] == s[k..k + |text|][1..];
        var ks :| Path(s, its[1..], k + 1, [], ks);
        assert ([k + 1] + ks)[1..] == ks;
        assert Path(s, its, k, [], [k + 1] + ks);
      }
      if Matches(s, its, k) {
        var ks :| Path(s, its, k, [], ks);
        assert Path(s, its[1..], k + 1, [], ks[1..]);
        assert s[k..k + |text|] == [s[k]] + s[k + 1..k + |text|];
      }
    }
  }

  // The plain branch of str_find and the general loop agree: the pattern, read as items,
  // matches at exactly the positions where it occurs as text.
  lemma PlainBranchAgrees(s: string, pat: string, init: nat)
    requires !HasSpecials(pat) && ')' !in pat && '\0' !in pat && init <= |s|
    ensures GoodPattern(pat) && !Anchored(pat)
    ensures forall k: nat :: k <= |s| ==> (Matches(s, Items(pat), k) <==> OccursAt(s, k, pat))
    ensures (exists k: nat :: init <= k && OccursAt(s, k, pat))
       <==> (exists k: nat :: init <= k <= |s| && Matches(s, Items(pat), k))
  {
    assert '^' in SPECIALS by { assert SPECIALS[0] == '^'; }
    PlainParse(pat, 0);
    var its := Parse(pat, 0).value;
    LiteralsRun(its);
    forall k: nat | k <= |s| ensures Matches(s, its, k) <==> OccursAt(s, k, pat) {
      LiteralsMatch(s, its, k, pat);
    }
  }

  lemma {:induction false} LiteralsRun(its: seq<Item>)
    requires forall t :: 0 <= t < |its| ==> its[t].One?
    ensures Runnable(its, []) && BalancedFrom(its, 0)
    decreases |its|
  {
    if its != [] { LiteralsRun(its[1..]); }
  }
}
