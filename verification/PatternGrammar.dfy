// The concrete syntax of patterns: writing an item list down as section 5.4.1 of the Lua 5.1
// Reference Manual prescribes, and reading it back.

module PatternGrammar {
  import opened Common
  import opened Ctype
  import opened PatternSyntax

  // ---------------------------------------------------------------- writing

  function WriteMember(m: Member): string {
    match m
    case Just(c) => [c]
    case Ranged(lo, hi) => [lo, '-', hi]
    case Named(c) => [L_ESC, c]
  }

  function WriteMembers(ms: seq<Member>): string {
    if ms == [] then "" else WriteMember(ms[0]) + WriteMembers(ms[1..])
  }

  function WriteSingle(x: Single): string {
    match x
    case AnyChar => "."
    case Exactly(c) => [c]
    case Class(c) => [L_ESC, c]
    case Set(negated, ms) => (if negated then "[^" else "[") + (WriteMembers(ms) + "]")
  }

  function Quantifier(item: Item): string {
    match item
    case Opt(_) => "?"
    case Star(_) => "*"
    case Plus(_) => "+"
    case Lazy(_) => "-"
    case _ => ""
  }

  function WriteItem(item: Item): string {
    if Repeats(item) then WriteSingle(item.single) + Quantifier(item) else WriteSimple(item)
  }

  function WriteSimple(item: Item): string {
    match item
    case Between(open, close) => [L_ESC, 'b', open, close]
    case Back(which) => [L_ESC, Digit(which)]
    case AtEnd => "$"
    case Open => "("
    case Close => ")"
    case _ => "()"
  }

  function Digit(which: int): char { if 0 <= which < 9 then '1' + which as char else '0' }

  function Write(its: seq<Item>): string {
    if its == [] then "" else WriteItem(its[0]) + Write(its[1..])
  }

  // ---------------------------------------------------------------- what can be written so

  // In a set, a bracket, a caret, a hyphen and a percent sign are written with an escape.
  predicate PlainInSet(c: char) { c != ']' && c != '^' && c != '-' && c != L_ESC }

  predicate WritableMember(m: Member) {
    match m
    case Just(c) => PlainInSet(c)
    case Ranged(lo, hi) => PlainInSet(lo) && PlainInSet(hi)
    case Named(_) => true
  }

  predicate WritableMembers(ms: seq<Member>) { forall i :: 0 <= i < |ms| ==> WritableMember(ms[i]) }

  // Outside, the magic characters are.
  predicate Plain(c: char) {
    && c != '^' && c != '$' && c != '.' && c != '%' && !IsQuantifier(c)
    && c != '(' && c != ')' && c != '[' && c != ']'
  }

  predicate IsQuantifier(c: char) { c == '?' || c == '*' || c == '+' || c == '-' }

  predicate WritableSingle(x: Single) {
    match x
    case AnyChar => true
    case Exactly(c) => Plain(c)
    case Class(c) => c != 'b' && c != 'f' && !IsDigit(c)
    case Set(_, ms) => ms != [] && WritableMembers(ms)
  }

  predicate WritableItem(item: Item) {
    if Repeats(item) then WritableSingle(item.single) else item.Back? ==> 0 <= item.which < 9
  }

  // A dollar sign means the end only at the end, and () is a position capture.
  predicate Writable(its: seq<Item>) {
    its == [] ||
    (&& WritableItem(its[0]) && Writable(its[1..])
     && (its[0].AtEnd? ==> its[1..] == [])
     && (its[0].Open? && its[1..] != [] ==> !its[1].Close?))
  }

  // ---------------------------------------------------------------- reading back

  lemma OccursSplit(pat: string, p: nat, text: string, a: string, b: string)
    requires OccursAt(pat, p, text) && text == a + b
    ensures OccursAt(pat, p, a) && OccursAt(pat, p + |a|, b)
  {
    var t := pat[p..p + |text|];
    assert pat[p..p + |a|] == t[..|a|] == a;
    assert pat[p + |a|..p + |a| + |b|] == t[|a|..] == b;
  }

  lemma OccursHere(pat: string, p: nat, text: string, k: nat)
    requires OccursAt(pat, p, text) && k < |text|
    ensures pat[p + k] == text[k] && At(pat, p + k) == text[k]
  {
    assert pat[p..p + |text|][k] == pat[p + k];
  }

  // The text of a set: its first member, and behind it the rest or the closing bracket.
  lemma MemberHere(pat: string, p: nat, ms: seq<Member>)
    requires ms != [] && WritableMembers(ms) && OccursAt(pat, p, WriteMembers(ms) + "]")
    ensures var t, q := WriteMember(ms[0]), p + |WriteMember(ms[0])|;
            && WritableMember(ms[0]) && WritableMembers(ms[1..]) && |WriteMembers(ms)| == |t| + |WriteMembers(ms[1..])|
            && OccursAt(pat, p, t) && OccursAt(pat, q, WriteMembers(ms[1..]) + "]") && q < |pat|
            && (pat[q] == ']' <==> ms[1..] == []) && pat[q] != '-'
  {
    var t, rest := WriteMember(ms[0]), ms[1..];
    assert WriteMembers(ms) + "]" == t + (WriteMembers(rest) + "]");
    OccursSplit(pat, p, WriteMembers(ms) + "]", t, WriteMembers(rest) + "]");
    OccursHere(pat, p + |t|, WriteMembers(rest) + "]", 0);
    if rest != [] { assert WritableMember(rest[0]); }
  }

  // The scan for the end of a set stops behind its closing bracket.
  lemma {:induction false} SetEndReads(pat: string, p: nat, ms: seq<Member>)
    requires ms != [] && WritableMembers(ms) && OccursAt(pat, p, WriteMembers(ms) + "]")
    ensures SetEnd(pat, p) == Some(p + |WriteMembers(ms)| + 1)
    decreases |ms|
  {
    MemberHere(pat, p, ms);
    LastStep(pat, p, ms[0]);
    if ms[1..] == [] {
      assert |WriteMembers(ms[1..])| == 0;
    } else {
      SetEndReads(pat, p + |WriteMember(ms[0])|, ms[1..]);
    }
  }

  // From the first character of a member, the scan comes to what follows the member.
  lemma LastStep(pat: string, p: nat, m: Member)
    requires WritableMember(m) && OccursAt(pat, p, WriteMember(m)) && p + |WriteMember(m)| < |pat|
    ensures var q := p + |WriteMember(m)|; SetEnd(pat, p) == if pat[q] == ']' then Some(q + 1) else SetEnd(pat, q)
  {
    var t := WriteMember(m);
    OccursHere(pat, p, t, 0);
    OccursHere(pat, p, t, |t| - 1);
    if m.Ranged? {
      OccursHere(pat, p, t, 1);
      assert SetEnd(pat, p) == SetEnd(pat, p + 1) == SetEnd(pat, p + 2);
    }
  }

  lemma MemberReads(pat: string, p: nat, m: Member, ec: nat)
    requires WritableMember(m) && OccursAt(pat, p, WriteMember(m)) && p + |WriteMember(m)| <= ec < |pat|
    requires pat[p + |WriteMember(m)|] != '-'
    ensures Members(pat, p, ec) == [m] + Members(pat, p + |WriteMember(m)|, ec)
  {
    var t := WriteMember(m);
    OccursHere(pat, p, t, 0);
    OccursHere(pat, p, t, |t| - 1);
    if m.Ranged? { OccursHere(pat, p, t, 1); }
  }

  // The members of a set are read as they were written.
  lemma {:induction false} MembersReads(pat: string, p: nat, ms: seq<Member>, ec: nat)
    requires WritableMembers(ms) && OccursAt(pat, p, WriteMembers(ms) + "]") && ec == p + |WriteMembers(ms)|
    ensures Members(pat, p, ec) == ms
    decreases |ms|
  {
    if ms != [] {
      var q := p + |WriteMember(ms[0])|;
      MemberHere(pat, p, ms);
      assert q <= ec && pat[q] != '-';
      MemberReads(pat, p, ms[0], ec);
      MembersReads(pat, q, ms[1..], ec);
      assert ms == [ms[0]] + ms[1..];
    }
  }

  lemma ContentsRead(pat: string, p: nat, q: nat, negated: bool, ms: seq<Member>)
    requires ms != [] && WritableMembers(ms) && OccursAt(pat, q, WriteMembers(ms) + "]")
    requires p < |pat| && pat[p] == '[' && (At(pat, p + 1) == '^') == negated && SetStart(pat, p) == q
    ensures var ep := q + |WriteMembers(ms)| + 1;
            ClassEnd(pat, p) == Some(ep) && SingleAt(pat, p, ep) == Set(negated, ms)
  {
    SetEndReads(pat, q, ms);
    MembersReads(pat, q, ms, q + |WriteMembers(ms)|);
    SetIsRead(pat, p, q + |WriteMembers(ms)| + 1, ms);
  }

  lemma SetIsRead(pat: string, p: nat, ep: nat, ms: seq<Member>)
    requires p < |pat| && pat[p] == '[' && SetEnd(pat, SetStart(pat, p)) == Some(ep)
    requires Members(pat, SetStart(pat, p), ep - 1) == ms
    ensures ClassEnd(pat, p) == Some(ep) && SingleAt(pat, p, ep) == Set(At(pat, p + 1) == '^', ms)
  {
  }

  lemma SetReads(pat: string, p: nat, x: Single)
    requires x.Set? && WritableSingle(x) && OccursAt(pat, p, WriteSingle(x))
    ensures p < |pat| && ClassEnd(pat, p) == Some(p + |WriteSingle(x)|)
    ensures SingleAt(pat, p, p + |WriteSingle(x)|) == x
  {
    var head, tail := if x.negated then "[^" else "[", WriteMembers(x.members) + "]";
    OccursSplit(pat, p, WriteSingle(x), head, tail);
    HeadReads(pat, p, x.negated, x.members);
    ContentsRead(pat, p, p + |head|, x.negated, x.members);
  }

  lemma HeadReads(pat: string, p: nat, negated: bool, ms: seq<Member>)
    requires ms != [] && WritableMembers(ms) && OccursAt(pat, p, if negated then "[^" else "[")
    requires OccursAt(pat, p + if negated then 2 else 1, WriteMembers(ms) + "]")
    ensures p < |pat| && pat[p] == '[' && (At(pat, p + 1) == '^') == negated
    ensures SetStart(pat, p) == p + if negated then 2 else 1
  {
    OccursHere(pat, p, if negated then "[^" else "[", 0);
    if negated {
      OccursHere(pat, p, "[^", 1);
    } else {
      assert WritableMember(ms[0]);
      OccursHere(pat, p + 1, WriteMembers(ms) + "]", 0);
    }
  }

  // A single-character class is read as it was written.
  lemma SingleReads(pat: string, p: nat, x: Single)
    requires WritableSingle(x) && OccursAt(pat, p, WriteSingle(x))
    ensures p < |pat| && ClassEnd(pat, p) == Some(p + |WriteSingle(x)|)
    ensures SingleAt(pat, p, p + |WriteSingle(x)|) == x
  {
    if x.Set? { SetReads(pat, p, x); } else { PlainReads(pat, p, x); }
  }

  lemma PlainReads(pat: string, p: nat, x: Single)
    requires !x.Set? && WritableSingle(x) && OccursAt(pat, p, WriteSingle(x))
    ensures p < |pat| && ClassEnd(pat, p) == Some(p + |WriteSingle(x)|)
    ensures SingleAt(pat, p, p + |WriteSingle(x)|) == x
  {
    OccursHere(pat, p, WriteSingle(x), 0);
    if x.Class? { OccursHere(pat, p, WriteSingle(x), 1); }
  }

  // What the text of an item begins with.
  lemma ItemBegins(item: Item)
    requires WritableItem(item)
    ensures var t := WriteItem(item); t != "" && !IsQuantifier(t[0]) && (t[0] == ')' <==> item.Close?)
  {
  }

  // What follows the text of an item does not change how it is read.
  ghost predicate Followed(item: Item, next: char, last: bool) {
    !IsQuantifier(next) && (item.AtEnd? ==> last) && (item.Open? ==> next != ')')
  }

  lemma SimpleReads(pat: string, p: nat, item: Item)
    requires WritableItem(item) && !Repeats(item) && OccursAt(pat, p, WriteSimple(item))
    requires var q := p + |WriteSimple(item)|; Followed(item, At(pat, q), q == |pat|)
    ensures p < |pat| && ItemAt(pat, p) == Some((item, p + |WriteSimple(item)|))
  {
    var t := WriteSimple(item);
    OccursHere(pat, p, t, 0);
    if item.Between? || item.Back? || item.Position? { OccursHere(pat, p, t, 1); }
    if item.Between? {
      OccursHere(pat, p, t, 2);
      OccursHere(pat, p, t, 3);
    }
  }

  // The character behind a class tells the repetition.
  lemma QuantifierReads(pat: string, q: nat, item: Item)
    requires Repeats(item) && OccursAt(pat, q, Quantifier(item))
    requires !IsQuantifier(At(pat, q + |Quantifier(item)|))
    ensures At(pat, q) == '?' <==> item.Opt?
    ensures At(pat, q) == '*' <==> item.Star?
    ensures At(pat, q) == '+' <==> item.Plus?
    ensures At(pat, q) == '-' <==> item.Lazy?
    ensures |Quantifier(item)| == if item.One? then 0 else 1
  {
    if !item.One? { OccursHere(pat, q, Quantifier(item), 0); }
  }

  // What a class begins with is nothing ItemAt treats otherwise.
  lemma ClassBegins(pat: string, p: nat, x: Single)
    requires WritableSingle(x) && OccursAt(pat, p, WriteSingle(x)) && p < |pat|
    ensures ItemAt(pat, p) == RepeatAt(pat, p)
  {
    OccursHere(pat, p, WriteSingle(x), 0);
    if x.Class? { OccursHere(pat, p, WriteSingle(x), 1); }
  }

  lemma RepeatIs(pat: string, p: nat, ep: nat, item: Item)
    requires Repeats(item) && p < |pat| && ClassEnd(pat, p) == Some(ep) && SingleAt(pat, p, ep) == item.single
    requires OccursAt(pat, ep, Quantifier(item)) && !IsQuantifier(At(pat, ep + |Quantifier(item)|))
    ensures RepeatAt(pat, p) == Some((item, ep + |Quantifier(item)|))
  {
    QuantifierReads(pat, ep, item);
  }

  lemma RepeatReads(pat: string, p: nat, item: Item, x: string, q: string)
    requires Repeats(item) && WritableItem(item) && x == WriteSingle(item.single) && q == Quantifier(item)
    requires OccursAt(pat, p, x) && OccursAt(pat, p + |x|, q) && !IsQuantifier(At(pat, p + |x| + |q|))
    ensures p < |pat| && ItemAt(pat, p) == Some((item, p + |x| + |q|))
  {
    SingleReads(pat, p, item.single);
    ClassBegins(pat, p, item.single);
    RepeatIs(pat, p, p + |x|, item);
  }

  lemma ItemReads(pat: string, p: nat, item: Item)
    requires WritableItem(item) && OccursAt(pat, p, WriteItem(item))
    requires var q := p + |WriteItem(item)|; Followed(item, At(pat, q), q == |pat|)
    ensures p < |pat| && ItemAt(pat, p) == Some((item, p + |WriteItem(item)|))
  {
    if Repeats(item) {
      var x, q := WriteSingle(item.single), Quantifier(item);
      OccursSplit(pat, p, WriteItem(item), x, q);
      RepeatReads(pat, p, item, x, q);
    } else {
      SimpleReads(pat, p, item);
    }
  }

  // In a list that can be written down, what follows the first item leaves it alone.
  lemma FirstFollowed(pat: string, p: nat, its: seq<Item>)
    requires its != [] && Writable(its) && Ends(pat, p, Write(its[1..]))
    ensures Followed(its[0], At(pat, p), p == |pat|)
  {
    var rest := its[1..];
    if rest != [] {
      assert rest[0] == its[1];
      ItemBegins(rest[0]);
      assert Write(rest)[0] == WriteItem(rest[0])[0];
      OccursHere(pat, p, Write(rest), 0);
    }
  }

  lemma ParseStep(pat: string, p: nat, item: Item, q: nat, rest: seq<Item>)
    requires p < |pat| && ItemAt(pat, p) == Some((item, q)) && q <= |pat| && Parse(pat, q) == Some(rest)
    ensures Parse(pat, p) == Some([item] + rest)
  {
    assert Prefix(item, Some(rest)) == Some([item] + rest);
  }

  // The text is what is left of the pattern from position p on.
  ghost predicate Ends(pat: string, p: nat, text: string) { OccursAt(pat, p, text) && p + |text| == |pat| }

  lemma FirstReads(pat: string, p: nat, its: seq<Item>, q: nat)
    requires its != [] && Writable(its) && OccursAt(pat, p, WriteItem(its[0])) && Ends(pat, q, Write(its[1..]))
    requires q == p + |WriteItem(its[0])|
    ensures p < |pat| && ItemAt(pat, p) == Some((its[0], q))
  {
    FirstFollowed(pat, q, its);
    ItemReads(pat, p, its[0]);
  }

  lemma EndsSplit(pat: string, p: nat, text: string, a: string, b: string)
    requires Ends(pat, p, text) && text == a + b
    ensures OccursAt(pat, p, a) && Ends(pat, p + |a|, b)
  {
    OccursSplit(pat, p, text, a, b);
  }

  lemma WriteIs(its: seq<Item>)
    requires its != []
    ensures Write(its) == WriteItem(its[0]) + Write(its[1..])
  {
  }

  lemma Advance(pat: string, p: nat, its: seq<Item>) returns (q: nat)
    requires its != [] && Writable(its) && Ends(pat, p, Write(its))
    ensures p < |pat| && ItemAt(pat, p) == Some((its[0], q)) && Ends(pat, q, Write(its[1..]))
  {
    q := p + |WriteItem(its[0])|;
    WriteIs(its);
    EndsSplit(pat, p, Write(its), WriteItem(its[0]), Write(its[1..]));
    FirstReads(pat, p, its, q);
  }

  // Every item list that can be written down is read back as it was.
  lemma {:induction false} ReadsBackFrom(pat: string, p: nat, its: seq<Item>)
    requires Writable(its) && Ends(pat, p, Write(its))
    ensures p <= |pat| && Parse(pat, p) == Some(its)
    decreases |its|
  {
    if its != [] {
      var q := Advance(pat, p, its);
      ReadsBackFrom(pat, q, its[1..]);
      ParseStep(pat, p, its[0], q, its[1..]);
      assert its == [its[0]] + its[1..];
    }
  }

  lemma ReadsBack(its: seq<Item>)
    requires Writable(its)
    ensures Parse(Write(its), 0) == Some(its)
  {
    ReadsBackFrom(Write(its), 0, its);
  }
}
