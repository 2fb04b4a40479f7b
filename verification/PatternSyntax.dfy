// The pattern language of src/lib/pmatch.c: character tests, single-character
// classes, and the reading of a pattern string as a sequence of items.

module Ctype {
  // The C library's character tests, in the "C" locale.

  predicate IsDigit(c: char) { '0' <= c <= '9' }

  predicate IsLower(c: char) { 'a' <= c <= 'z' }

  predicate IsUpper(c: char) { 'A' <= c <= 'Z' }

  predicate IsAlpha(c: char) { IsLower(c) || IsUpper(c) }

  predicate IsAlnum(c: char) { IsAlpha(c) || IsDigit(c) }

  predicate IsXdigit(c: char) { IsDigit(c) || 'a' <= c <= 'f' || 'A' <= c <= 'F' }

  predicate IsSpace(c: char) { c == ' ' || '\t' <= c <= '\r' }

  predicate IsCntrl(c: char) { c < ' ' || c == '\U{7F}' }

  predicate IsPunct(c: char) { '!' <= c <= '~' && !IsAlnum(c) }

  function ToLower(c: char): char {
    if IsUpper(c) then c - 'A' + 'a' else c
  }
}

module PatternSyntax {
  import opened Common
  import opened Ctype

  const L_ESC := '%'

  // One member of a set such as [a-z%d_].
  datatype Member = Ranged(lo: char, hi: char) | Named(cl: char) | Just(c: char)

  // What one character position of the subject is compared with.
  datatype Single =
    | AnyChar
    | Exactly(c: char)
    | Class(cl: char)
    | Set(negated: bool, members: seq<Member>)

  datatype Item =
    | One(single: Single)
    | Opt(single: Single)           // x?
    | Star(single: Single)          // x*
    | Plus(single: Single)          // x+
    | Lazy(single: Single)          // x-
    | Between(open: char, close: char) // %bxy
    | Back(which: int)              // %1 .. %9, as a zero-based capture index
    | Open                          // (
    | Close                         // )
    | Position                      // ()
    | AtEnd                         // a final $

  // The items that stand for a single character, with or without a quantifier.
  predicate Repeats(item: Item) { item.One? || item.Opt? || item.Star? || item.Plus? || item.Lazy? }

  // The character the C code reads at a pattern position: the terminating NUL at the end.
  function At(pat: string, p: nat): char {
    if p < |pat| then pat[p] else '\0'
  }

  // The class a lower-case letter names, if it names one
  function NamedClass(c: char, letter: char): Option<bool> {
    match letter
    case 'a' => Some(IsAlpha(c))
    case 'c' => Some(IsCntrl(c))
    case 'd' => Some(IsDigit(c))
    case 'l' => Some(IsLower(c))
    case 'p' => Some(IsPunct(c))
    case 's' => Some(IsSpace(c))
    case 'u' => Some(IsUpper(c))
    case 'w' => Some(IsAlnum(c))
    case 'x' => Some(IsXdigit(c))
    case 'z' => Some(c == '\0')
    case _ => None
  }

  // match_class: does c belong to the class named by the letter cl?
  predicate ClassSat(c: char, cl: char) {
    match NamedClass(c, ToLower(cl))
    case Some(res) => if IsLower(cl) then res else !res
    case None => cl == c
  }

  predicate MemberSat(c: char, m: Member) {
    match m
    case Ranged(lo, hi) => lo <= c <= hi
    case Named(cl) => ClassSat(c, cl)
    case Just(d) => d == c
  }

  predicate SomeSat(c: char, members: seq<Member>) {
    members != [] && (MemberSat(c, members[0]) || SomeSat(c, members[1..]))
  }

  // The set of characters a single-character item stands for.
  predicate Sat(c: char, x: Single) {
    match x
    case AnyChar => true
    case Exactly(d) => d == c
    case Class(cl) => ClassSat(c, cl)
    case Set(negated, members) => negated != SomeSat(c, members)
  }

  // Where the set whose contents continue at q ends: one past its closing bracket.
  // None when there is no closing bracket.
  function SetEnd(pat: string, q: nat): (end: Option<nat>)
    ensures end.Some? ==> q + 1 < end.value <= |pat|
    decreases |pat| - q
  {
    if q >= |pat| then None
    else
      var next := if pat[q] == L_ESC && q + 1 < |pat| then q + 2 else q + 1;
      if At(pat, next) == ']' then Some(next + 1) else SetEnd(pat, next)
  }

  function SetStart(pat: string, p: nat): nat {
    if At(pat, p + 1) == '^' then p + 2 else p + 1
  }

  // One past the single-character class that starts at p; None when it is malformed.
  function ClassEnd(pat: string, p: nat): (end: Option<nat>)
    requires p < |pat|
    ensures end.Some? ==> p < end.value <= |pat|
    ensures end.Some? && pat[p] == L_ESC ==> end.value == p + 2
    ensures end.Some? && pat[p] == '[' ==> SetStart(pat, p) + 1 < end.value
  {
    if pat[p] == L_ESC then
      if p + 1 < |pat| then Some(p + 2) else None
    else if pat[p] == '[' then
      SetEnd(pat, SetStart(pat, p))
    else
      Some(p + 1)
  }

  // The members of a set, read from position i up to the closing bracket at ec.
  function Members(pat: string, i: nat, ec: nat): seq<Member>
    requires ec < |pat|
    decreases ec - i
  {
    if i >= ec then []
    else if pat[i] == L_ESC then [Named(pat[i + 1])] + Members(pat, i + 2, ec)
    else if pat[i + 1] == '-' && i + 2 < ec then [Ranged(pat[i], pat[i + 2])] + Members(pat, i + 3, ec)
    else [Just(pat[i])] + Members(pat, i + 1, ec)
  }

  function SingleAt(pat: string, p: nat, ep: nat): Single
    requires p < |pat| && ClassEnd(pat, p) == Some(ep)
  {
    if pat[p] == '.' then AnyChar
    else if pat[p] == L_ESC then Class(pat[p + 1])
    else if pat[p] == '[' then Set(At(pat, p + 1) == '^', Members(pat, SetStart(pat, p), ep - 1))
    else Exactly(pat[p])
  }

  // The item that starts at p and the position after it; None when the pattern is malformed
  // there or has a frontier item (%f).
  function ItemAt(pat: string, p: nat): (r: Option<(Item, nat)>)
    requires p < |pat|
    ensures r.Some? ==> p < r.value.1 <= |pat|
  {
    var c := pat[p];
    var d := At(pat, p + 1);
    if c == '(' then
      if d == ')' then Some((Position, p + 2)) else Some((Open, p + 1))
    else if c == ')' then Some((Close, p + 1))
    else if c == L_ESC && d == 'b' then
      if p + 4 <= |pat| then Some((Between(pat[p + 2], pat[p + 3]), p + 4)) else None
    else if c == L_ESC && d == 'f' then None
    else if c == L_ESC && IsDigit(d) then Some((Back(d as int - '1' as int), p + 2))
    else if c == '$' && p + 1 == |pat| then Some((AtEnd, p + 1))
    else RepeatAt(pat, p)
  }

  // A single-character class at p with the repetition that follows it.
  function RepeatAt(pat: string, p: nat): (r: Option<(Item, nat)>)
    requires p < |pat|
    ensures r.Some? ==> p < r.value.1 <= |pat|
  {
    if ClassEnd(pat, p).None? then None
    else
      var ep := ClassEnd(pat, p).value;
      var x := SingleAt(pat, p, ep);
      var q := At(pat, ep);
      if q == '?' then Some((Opt(x), ep + 1))
      else if q == '*' then Some((Star(x), ep + 1))
      else if q == '+' then Some((Plus(x), ep + 1))
      else if q == '-' then Some((Lazy(x), ep + 1))
      else Some((One(x), ep))
  }

  // Reads the pattern from position p as a sequence of items.
  function Parse(pat: string, p: nat): (its: Option<seq<Item>>)
    requires p <= |pat|
    decreases |pat| - p
  {
    if p == |pat| then Some([])
    else
      match ItemAt(pat, p)
      case Some((item, next)) => Prefix(item, Parse(pat, next))
      case None => None
  }

  function Prefix(item: Item, rest: Option<seq<Item>>): (its: Option<seq<Item>>)
    ensures its.Some? <==> rest.Some?
    ensures its.Some? ==> its.value != [] && its.value[0] == item && its.value[1..] == rest.value
  {
    if rest.None? then None else Some([item] + rest.value)
  }
}
