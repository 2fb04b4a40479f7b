// Replacing every occurrence of a string in another: from left to right, without overlap, and
// without looking at what was inserted.

module ReplaceAll {
  import opened Common

  function Replaced(s: string, needle: string, repl: string): string
    requires needle != ""
  {
    if s == "" then ""
    else if OccursAt(s, 0, needle) then repl + Replaced(s[|needle|..], needle, repl)
    else [s[0]] + Replaced(s[1..], needle, repl)
  }

  // How many occurrences that replaces
  function Replacements(s: string, needle: string): nat
    requires needle != ""
  {
    if s == "" then 0
    else if OccursAt(s, 0, needle) then 1 + Replacements(s[|needle|..], needle)
    else Replacements(s[1..], needle)
  }

  ghost predicate FirstAt(s: string, i: nat, needle: string) {
    OccursAt(s, i, needle) && forall j :: 0 <= j < i ==> !OccursAt(s, j, needle)
  }

  ghost predicate NoneIn(s: string, needle: string) { forall j :: 0 <= j <= |s| ==> !OccursAt(s, j, needle) }

  lemma Shifted(s: string, head: nat, j: nat, needle: string)
    requires head + j <= |s|
    ensures OccursAt(s[head..], j, needle) <==> OccursAt(s, head + j, needle)
  {
    if head + j + |needle| <= |s| { SliceShifted(s, head, j, j + |needle|); }
  }

  lemma SliceShifted(s: string, head: nat, i: nat, j: nat)
    requires i <= j && head + j <= |s|
    ensures s[head..][i..j] == s[head + i..head + j]
  {
  }

  lemma FirstInTail(s: string, i: nat, needle: string)
    requires i > 0 && needle != "" && FirstAt(s, i, needle)
    ensures s != "" && !OccursAt(s, 0, needle) && FirstAt(s[1..], i - 1, needle)
  {
    forall j | 0 <= j < i ensures OccursAt(s[1..], j, needle) <==> OccursAt(s, j + 1, needle) {
      Shifted(s, 1, j, needle);
    }
  }

  lemma {:induction false} ReplacedBehind(front: string, back: string, needle: string, repl: string)
    requires needle != "" && FirstAt(front + back, |front|, needle) && |needle| <= |back|
    ensures Replaced(front + back, needle, repl) == front + (repl + Replaced(back[|needle|..], needle, repl))
    ensures Replacements(front + back, needle) == 1 + Replacements(back[|needle|..], needle)
    decreases |front|
  {
    if front == "" {
      assert front + back == back;
    } else {
      assert (front + back)[1..] == front[1..] + back && (front + back)[0] == front[0];
      FirstInTail(front + back, |front|, needle);
      ReplacedBehind(front[1..], back, needle, repl);
      assert front == [front[0]] + front[1..];
    }
  }

  // Up to the first occurrence nothing changes.
  lemma ReplacedFirst(s: string, i: nat, needle: string, repl: string)
    requires needle != "" && FirstAt(s, i, needle)
    ensures Replaced(s, needle, repl) == s[..i] + repl + Replaced(s[i + |needle|..], needle, repl)
    ensures Replacements(s, needle) == 1 + Replacements(s[i + |needle|..], needle)
  {
    CutTwice(s, i, |needle|);
    ReplacedBehind(s[..i], s[i..], needle, repl);
    Regroup(s[..i], repl, Replaced(s[i + |needle|..], needle, repl));
  }

  lemma CutTwice(s: string, i: nat, n: nat)
    requires i + n <= |s|
    ensures s[..i] + s[i..] == s && s[i..][n..] == s[i + n..]
  {
  }

  lemma Regroup(a: string, b: string, c: string)
    ensures a + (b + c) == a + b + c
  {
  }

  lemma {:induction false} ReplacedNone(s: string, needle: string, repl: string)
    requires needle != "" && NoneIn(s, needle)
    ensures Replaced(s, needle, repl) == s && Replacements(s, needle) == 0
  {
    if s != "" {
      assert !OccursAt(s, 0, needle);
      forall j | 0 <= j <= |s[1..]| ensures !OccursAt(s[1..], j, needle) {
        Shifted(s, 1, j, needle);
      }
      ReplacedNone(s[1..], needle, repl);
    }
  }

  // ---------------------------------------------------------------- cutting and joining

  // What lies between the occurrences
  function Pieces(s: string, needle: string): (ps: seq<string>)
    requires needle != ""
    ensures ps != []
  {
    if s == "" then [""]
    else if OccursAt(s, 0, needle) then [""] + Pieces(s[|needle|..], needle)
    else var ps := Pieces(s[1..], needle); [[s[0]] + ps[0]] + ps[1..]
  }

  function Joined(ps: seq<string>, sep: string): string
    requires ps != []
  {
    if |ps| == 1 then ps[0] else ps[0] + sep + Joined(ps[1..], sep)
  }

  lemma JoinedHead(ps: seq<string>, front: string, sep: string)
    requires ps != []
    ensures Joined([front + ps[0]] + ps[1..], sep) == front + Joined(ps, sep)
  {
    var qs := [front + ps[0]] + ps[1..];
    assert qs[1..] == ps[1..];
    if |ps| > 1 { assert (front + ps[0]) + sep + Joined(ps[1..], sep) == front + (ps[0] + sep + Joined(ps[1..], sep)); }
  }

  lemma JoinedEmpty(ps: seq<string>, sep: string)
    requires ps != []
    ensures Joined([""] + ps, sep) == sep + Joined(ps, sep)
  {
    assert ([""] + ps)[1..] == ps;
    assert "" + sep + Joined(ps, sep) == sep + Joined(ps, sep);
  }

  // Cutting a text at the occurrences and joining the pieces with something else is replacing
  // them all; joined with the needle itself they are the text again.
  lemma {:induction false} ReplacedIsJoined(s: string, needle: string, repl: string)
    requires needle != ""
    ensures Joined(Pieces(s, needle), repl) == Replaced(s, needle, repl)
    ensures Joined(Pieces(s, needle), needle) == s
    ensures |Pieces(s, needle)| == Replacements(s, needle) + 1
  {
    if s == "" {
    } else if OccursAt(s, 0, needle) {
      var rest := Pieces(s[|needle|..], needle);
      ReplacedIsJoined(s[|needle|..], needle, repl);
      JoinedEmpty(rest, repl);
      JoinedEmpty(rest, needle);
      assert needle + s[|needle|..] == s;
    } else {
      ReplacedIsJoined(s[1..], needle, repl);
      JoinedHead(Pieces(s[1..], needle), [s[0]], repl);
      JoinedHead(Pieces(s[1..], needle), [s[0]], needle);
    }
  }

  // No piece holds an occurrence.
  lemma {:induction false} PiecesAreClean(s: string, needle: string)
    requires needle != ""
    ensures Pieces(s, needle)[0] <= s
    ensures forall k :: 0 <= k < |Pieces(s, needle)| ==> NoneIn(Pieces(s, needle)[k], needle)
  {
    if s == "" {
    } else if OccursAt(s, 0, needle) {
      PiecesAreClean(s[|needle|..], needle);
    } else {
      PiecesAreClean(s[1..], needle);
      CleanHead(s, Pieces(s[1..], needle)[0], needle);
    }
  }

  lemma CleanHead(s: string, piece: string, needle: string)
    requires needle != "" && s != "" && !OccursAt(s, 0, needle) && piece <= s[1..] && NoneIn(piece, needle)
    ensures [s[0]] + piece <= s && NoneIn([s[0]] + piece, needle)
  {
    var p := [s[0]] + piece;
    assert p <= s;
    forall j | 0 <= j <= |p| ensures !OccursAt(p, j, needle) {
      if j == 0 {
        if |needle| <= |p| { assert p[0..|needle|] == s[0..|needle|]; }
      } else if j + |needle| <= |p| {
        assert p[j..j + |needle|] == piece[j - 1..j - 1 + |needle|];
        assert !OccursAt(piece, j - 1, needle);
      }
    }
  }

  // strstr, on what follows position head
  method StrStr(s: string, head: nat, needle: string) returns (tok: Option<nat>)
    requires head <= |s|
    ensures tok.Some? ==> head <= tok.value <= |s| && FirstAt(s[head..], tok.value - head, needle)
    ensures tok.None? ==> needle != "" && NoneIn(s[head..], needle)
  {
    var i := head;
    while i + |needle| <= |s|
      invariant head <= i && (needle == "" ==> i == head)
      invariant forall j :: 0 <= j < i - head && j <= |s| - head ==> !OccursAt(s[head..], j, needle)
    {
      if i <= |s| { Shifted(s, head, i - head, needle); }
      if s[i..i + |needle|] == needle { return Some(i); }
      i := i + 1;
    }
    forall j | 0 <= j <= |s[head..]| ensures !OccursAt(s[head..], j, needle) {}
    return None;
  }
}
