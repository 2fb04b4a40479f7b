// The parsing of HTTP responses: http_parse_header of src/protocol_clients/http_parser.c, which
// rests on the pattern matcher, and http_recv of src/protocol_clients/http_client.c.

module HttpHeader {
  import opened Common
  import opened Ctype
  import opened PatternSyntax
  import opened PatternClasses
  import opened PatternGrammar
  import opened PatternSemantics
  import opened PatternMatcher
  import opened PatternCaptures
  import opened PatternFind
  import opened PatternGroups

  const STATUS := "HTTP/1.1 "
  const LENGTH := "Content-Length: "
  const BLANK := "\r\n\r\n"

  const STATUS_PATTERN := "HTTP/1%.1 (%d+)"
  const LENGTH_PATTERN := "Content%-Length: (%d+)"
  const END_PATTERN := "(.*)\r\n\r\n"

  const DIGIT := Class('d')
  const NUMBER := [Open, Plus(DIGIT), Close]
  const ANYTHING := [Open, Star(AnyChar), Close]

  // ---------------------------------------------------------------- numbers behind a text

  // The position behind the longest run of digits that starts at i.
  function DigitEnd(s: string, i: nat): (e: nat)
    requires i <= |s|
    ensures i <= e <= |s| && (forall j :: i <= j < e ==> s[j] in DIGITS) && (e < |s| ==> s[e] !in DIGITS)
    decreases |s| - i
  {
    if i < |s| && s[i] in DIGITS then DigitEnd(s, i + 1) else i
  }

  // The text stands at position k, with a digit behind it.
  predicate FieldAt(s: string, k: nat, text: string) {
    OccursAt(s, k, text) && k + |text| < |s| && s[k + |text|] in DIGITS
  }

  // The first such position from i on
  function Search(s: string, text: string, i: nat): (r: Option<nat>)
    ensures r.Some? ==> i <= r.value && FieldAt(s, r.value, text)
    ensures r.Some? ==> forall j :: i <= j < r.value ==> !FieldAt(s, j, text)
    ensures r.None? ==> forall j :: i <= j ==> !FieldAt(s, j, text)
    decreases |s| - i
  {
    if i >= |s| then None else if FieldAt(s, i, text) then Some(i) else Search(s, text, i + 1)
  }

  // The longest run of digits behind the first of them
  function FieldIn(s: string, text: string): (r: Option<string>)
    ensures r.Some? ==> r.value != "" && forall i :: 0 <= i < |r.value| ==> r.value[i] in DIGITS
  {
    match Search(s, text, 0)
    case Some(k) => Some(s[k + |text|..DigitEnd(s, k + |text|)])
    case None => None
  }

  // ---------------------------------------------------------------- the patterns for them

  lemma AllDigits(s: string, i: nat, k: nat)
    requires i <= |s|
    ensures AllSat(s, i, k, DIGIT) <==> i <= k <= DigitEnd(s, i)
    decreases |s| - i
  {
    if i < |s| {
      ClassIs(s[i], 'd');
      if k > i { AllDigits(s, i + 1, k); }
    }
  }

  // A path through the text and ( digits ).
  ghost predicate FieldShape(s: string, text: string, k: nat, ks: seq<nat>) {
    var n := |text|;
    && OccursAt(s, k, text) && |ks| == n + 3 && ks[..n] == Stops(k, n)
    && ks[n] == k + n < ks[n + 1] == ks[n + 2] <= DigitEnd(s, k + n)
  }

  lemma NumberPath(s: string, i: nat, ks: seq<nat>)
    requires i <= |s|
    ensures Path(s, NUMBER, i, [], ks) <==> |ks| == 3 && ks[0] == i < ks[1] == ks[2] <= DigitEnd(s, i)
  {
    assert NUMBER == [Open, Plus(DIGIT), Close] + [];
    GroupPath(s, Plus(DIGIT), [], i, [], ks);
    if |ks| == 3 { AllDigits(s, i, ks[1]); }
  }

  lemma NumberCaps(i: nat, e: nat)
    ensures CapsAlong(NUMBER, i, [], [i, e, e]) == [Cap(i, e - i)]
  {
    assert NUMBER == [Open, Plus(DIGIT), Close] + [];
    GroupCaps(Plus(DIGIT), [], i, [], [i, e, e]);
  }

  lemma FieldPath(s: string, text: string, k: nat, ks: seq<nat>)
    requires k <= |s|
    ensures Path(s, Lits(text) + NUMBER, k, [], ks) <==> FieldShape(s, text, k, ks)
  {
    var n := |text|;
    LitsPath(s, text, NUMBER, k, [], ks);
    if OccursAt(s, k, text) && n <= |ks| && ks[..n] == Stops(k, n) {
      var rest := ks[n..];
      NumberPath(s, k + n, rest);
      if |ks| == n + 3 { assert rest[0] == ks[n] && rest[1] == ks[n + 1] && rest[2] == ks[n + 2]; }
    }
  }

  lemma FieldCaps(s: string, text: string, k: nat, ks: seq<nat>)
    requires k <= |s| && FieldShape(s, text, k, ks)
    ensures CapsAlong(Lits(text) + NUMBER, k, [], ks) == [Cap(k + |text|, ks[|text| + 1] - k - |text|)]
  {
    var n := |text|;
    assert ks[n..] == [k + n, ks[n + 1], ks[n + 1]];
    NumberCaps(k + n, ks[n + 1]);
    LitsCaps(text, NUMBER, k, [], ks);
  }

  lemma FieldMatches(s: string, text: string, k: nat)
    requires k <= |s|
    ensures Matches(s, Lits(text) + NUMBER, k) <==> FieldAt(s, k, text)
  {
    var n := |text|;
    if FieldAt(s, k, text) {
      var ks := Stops(k, n) + [k + n, k + n + 1, k + n + 1];
      FieldPath(s, text, k, ks);
      assert Path(s, Lits(text) + NUMBER, k, [], ks);
    }
    if ks :| Path(s, Lits(text) + NUMBER, k, [], ks) { FieldPath(s, text, k, ks); }
  }

  lemma LongerNumber(s: string, text: string, k: nat, ks: seq<nat>, e: nat)
    requires k <= |s| && FieldShape(s, text, k, ks) && ks[|text| + 1] < e <= DigitEnd(s, k + |text|)
    ensures !IsFirstPath(s, Lits(text) + NUMBER, k, [], ks)
  {
    var n, its := |text|, Lits(text) + NUMBER;
    var js := ks[n + 1 := e][n + 2 := e];
    assert js[..n] == ks[..n];
    FieldPath(s, text, k, js);
    assert its[n + 1] == Plus(DIGIT);
    GreedyTakesMore(its, ks, js, n + 1);
  }

  // The path that str_find reports captures the longest run of digits.
  lemma ReportedNumber(s: string, text: string, k: nat, ks: seq<nat>)
    requires k <= |s| && IsFirstPath(s, Lits(text) + NUMBER, k, [], ks)
    ensures FieldShape(s, text, k, ks) && ks[|text| + 1] == DigitEnd(s, k + |text|)
    ensures CapsAlong(Lits(text) + NUMBER, k, [], ks) == [Cap(k + |text|, ks[|text| + 1] - k - |text|)]
  {
    FieldPath(s, text, k, ks);
    FieldCaps(s, text, k, ks);
    if ks[|text| + 1] < DigitEnd(s, k + |text|) { LongerNumber(s, text, k, ks, DigitEnd(s, k + |text|)); }
  }

  lemma FirstField(s: string, text: string, k: nat)
    requires k <= |s| && Matches(s, Lits(text) + NUMBER, k)
    requires forall j: nat :: j < k ==> !Matches(s, Lits(text) + NUMBER, j)
    ensures Search(s, text, 0) == Some(k)
  {
    FieldMatches(s, text, k);
    forall j: nat | j < k ensures !FieldAt(s, j, text) { FieldMatches(s, text, j); }
  }

  lemma ReportedField(s: string, text: string, k: nat, ks: seq<nat>, num: nat, out: seq<Slice>)
    requires Reported(s, Lits(text) + NUMBER, 0, false, k, ks) && |out| == 10
    requires Holds(out, num, CapsAlong(Lits(text) + NUMBER, k, [], ks), |out|)
    ensures Search(s, text, 0) == Some(k)
    ensures out[0].init == k + |text| && out[0].init + out[0].len == DigitEnd(s, k + |text|)
  {
    ReportedNumber(s, text, k, ks);
    FirstField(s, text, k);
  }

  lemma FieldInIs(s: string, text: string, k: nat, slice: Slice)
    requires Search(s, text, 0) == Some(k)
    requires slice.init == k + |text| && slice.init + slice.len == DigitEnd(s, k + |text|)
    ensures FieldIn(s, text) == Some(s[slice.init..slice.init + slice.len])
  {
  }

  lemma FieldFound(s: string, text: string, k: nat, ks: seq<nat>, num: nat, out: seq<Slice>)
    requires Reported(s, Lits(text) + NUMBER, 0, false, k, ks) && |out| == 10
    requires Holds(out, num, CapsAlong(Lits(text) + NUMBER, k, [], ks), |out|)
    ensures out[0].init + out[0].len <= |s|
    ensures FieldIn(s, text) == Some(s[out[0].init..out[0].init + out[0].len])
  {
    ReportedField(s, text, k, ks, num, out);
    FieldInIs(s, text, k, out[0]);
  }

  lemma NotFound(s: string, text: string)
    requires forall k: nat :: k <= |s| ==> !Matches(s, Lits(text) + NUMBER, k)
    ensures FieldIn(s, text) == None
  {
    if Search(s, text, 0).Some? { FieldMatches(s, text, Search(s, text, 0).value); }
  }

  // What str_find finds with such a pattern: the first field, and its digits.
  lemma FoundNumber(s: string, pat: string, text: string, found: bool, num: nat, out: seq<Slice>)
    requires Reads(pat, Lits(text) + NUMBER) && FindsLeftmost(s, pat, 0, found, num, out) && |out| == 10
    ensures found ==> out[0].init + out[0].len <= |s|
    ensures FieldIn(s, text) == if found then Some(s[out[0].init..out[0].init + out[0].len]) else None
  {
    var k, ks := FoundPath(s, pat, Lits(text) + NUMBER, found, num, out);
    if found { FieldFound(s, text, k, ks, num, out); } else { NotFound(s, text); }
  }

  // ---------------------------------------------------------------- the pattern for the end

  // The last occurrence of a text, up to position i
  function LastUpTo(s: string, text: string, i: nat): (r: Option<nat>)
    ensures r.Some? ==> r.value <= i && OccursAt(s, r.value, text)
    ensures r.Some? ==> forall j :: r.value < j <= i ==> !OccursAt(s, j, text)
    ensures r.None? ==> forall j :: 0 <= j <= i ==> !OccursAt(s, j, text)
  {
    if OccursAt(s, i, text) then Some(i) else if i == 0 then None else LastUpTo(s, text, i - 1)
  }

  function LastIn(s: string, text: string): Option<nat> { LastUpTo(s, text, |s|) }

  // A path through ( anything ) and the text.
  ghost predicate EndShape(s: string, text: string, k: nat, ks: seq<nat>) {
    && |ks| == 3 + |text| && ks[0] == k <= ks[1] == ks[2] && OccursAt(s, ks[1], text)
    && ks[3..] == Stops(ks[1], |text|)
  }

  lemma EndPath(s: string, text: string, k: nat, ks: seq<nat>)
    requires k <= |s|
    ensures Path(s, ANYTHING + Lits(text), k, [], ks) <==> EndShape(s, text, k, ks)
    ensures Path(s, ANYTHING + Lits(text), k, [], ks) ==>
              CapsAlong(ANYTHING + Lits(text), k, [], ks) == [Cap(k, ks[1] - k)]
  {
    GroupPath(s, Star(AnyChar), Lits(text), k, [], ks);
    assert Lits(text) + [] == Lits(text);
    if |ks| >= 3 && ks[0] == k && ks[2] == ks[1] && k <= ks[1] <= |s| {
      LitsPath(s, text, [], ks[1], [] + [Cap(k, ks[1] - k)], ks[3..]);
      if |ks| == 3 + |text| && ks[3..] == Stops(ks[1], |text|) {
        assert ks[3..][..|text|] == ks[3..];
        GroupCaps(Star(AnyChar), Lits(text), k, [], ks);
        LitsCaps(text, [], ks[1], [] + [Cap(k, ks[1] - k)], ks[3..]);
      }
      if |text| <= |ks[3..]| && ks[3..][|text|..] == [] { assert ks[3..][..|text|] == ks[3..]; }
    }
  }

  function EndStops(k: nat, e: nat, n: nat): seq<nat> { [k, e, e] + Stops(e, n) }

  lemma EndMatches(s: string, text: string, e: nat)
    requires OccursAt(s, e, text)
    ensures Path(s, ANYTHING + Lits(text), 0, [], EndStops(0, e, |text|)) && Matches(s, ANYTHING + Lits(text), 0)
  {
    assert EndStops(0, e, |text|)[3..] == Stops(e, |text|);
    EndPath(s, text, 0, EndStops(0, e, |text|));
  }

  // What str_find finds with it: everything up to the last occurrence.
  lemma FoundEnd(s: string, pat: string, text: string, found: bool, num: nat, out: seq<Slice>)
    requires Reads(pat, ANYTHING + Lits(text)) && FindsLeftmost(s, pat, 0, found, num, out) && |out| == 10
    ensures found <==> LastIn(s, text).Some?
    ensures found ==> out[0] == Slice(0, LastIn(s, text).value)
  {
    if LastIn(s, text).Some? { EndMatches(s, text, LastIn(s, text).value); }
    var k, ks := FoundPath(s, pat, ANYTHING + Lits(text), found, num, out);
    if found {
      EndPath(s, text, k, ks);
      EndMatches(s, text, ks[1]);
      ReportedEnd(s, text, ks);
    }
  }

  lemma LongerEnd(s: string, text: string, ks: seq<nat>, e: nat)
    requires EndShape(s, text, 0, ks) && ks[1] < e && OccursAt(s, e, text)
    ensures !IsFirstPath(s, ANYTHING + Lits(text), 0, [], ks)
  {
    var js := EndStops(0, e, |text|);
    EndMatches(s, text, e);
    GreedyTakesMore(ANYTHING + Lits(text), ks, js, 1);
  }

  lemma ReportedEnd(s: string, text: string, ks: seq<nat>)
    requires IsFirstPath(s, ANYTHING + Lits(text), 0, [], ks)
    ensures LastIn(s, text) == Some(ks[1])
  {
    EndPath(s, text, 0, ks);
    var e := LastIn(s, text).value;
    if ks[1] < e { LongerEnd(s, text, ks, e); }
  }

  // ---------------------------------------------------------------- reading the patterns

  lemma PatternReads(pat: string, its: seq<Item>)
    requires pat == Write(its) && Writable(its) && Runnable(its, []) && BalancedFrom(its, 0)
    requires '\0' !in pat && '(' in pat && pat[0] != '^'
    ensures Reads(pat, its)
  {
    ReadsBack(its);
    assert '(' in SPECIALS by { assert SPECIALS[6] == '('; }
  }

  lemma NumberAllowed()
    ensures Write(NUMBER) == "(%d+)" && Writable(NUMBER) && Runnable(NUMBER, []) && BalancedFrom(NUMBER, 0)
  {
    var rest := [Plus(DIGIT), Close];
    assert NUMBER[1..] == rest && rest[1..] == [Close] && [Close][1..] == [];
    assert Write([Close]) == ")";
    assert Write(rest) == "%d+)";
    assert [] + [Unfinished] == [Unfinished] && [Unfinished][0 := Closed] == [Closed];
    assert Runnable([Close], [Unfinished]) && BalancedFrom([Close], 1);
    assert Runnable(rest, [Unfinished]) && BalancedFrom(rest, 1);
  }

  lemma FieldReads(pat: string, text: string)
    requires pat == Write(Lits(text)) + "(%d+)" && '\0' !in pat && pat[0] != '^'
    ensures Reads(pat, Lits(text) + NUMBER)
  {
    NumberAllowed();
    LitsAllowed(text, NUMBER);
    WriteJoined(Lits(text), NUMBER);
    assert pat[|pat| - 5] == '(';
    PatternReads(pat, Lits(text) + NUMBER);
  }

  // Text with one magic character in it
  lemma WriteAround(a: string, c: char, b: string)
    requires (forall i :: 0 <= i < |a| ==> Plain(a[i])) && !Plain(c) && forall i :: 0 <= i < |b| ==> Plain(b[i])
    ensures Write(Lits(a + ([c] + b))) == a + (['%', c] + b)
  {
    LitsJoined(a, [c] + b);
    LitsJoined([c], b);
    WriteJoined(Lits(a), Lits([c] + b));
    WriteJoined(Lits([c]), Lits(b));
    WritePlain(a);
    WriteMagic(c);
    WritePlain(b);
  }

  lemma StatusTextIs()
    ensures STATUS == "HTTP/1" + (['.'] + "1 ")
    ensures STATUS_PATTERN == "HTTP/1" + (['%', '.'] + "1 ") + "(%d+)"
  {
  }

  lemma LengthTextIs()
    ensures LENGTH == "Content" + (['-'] + "Length: ")
    ensures LENGTH_PATTERN == "Content" + (['%', '-'] + "Length: ") + "(%d+)"
  {
  }

  lemma StatusReads()
    ensures Reads(STATUS_PATTERN, Lits(STATUS) + NUMBER)
  {
    WriteAround("HTTP/1", '.', "1 ");
    StatusTextIs();
    FieldReads(STATUS_PATTERN, STATUS);
  }

  lemma LengthReads()
    ensures Reads(LENGTH_PATTERN, Lits(LENGTH) + NUMBER)
  {
    WriteAround("Content", '-', "Length: ");
    LengthTextIs();
    FieldReads(LENGTH_PATTERN, LENGTH);
  }

  lemma EndIsWritten()
    ensures Write(ANYTHING + Lits(BLANK)) == END_PATTERN
  {
    WritePlain(BLANK);
    WriteJoined(ANYTHING, Lits(BLANK));
    var rest := [Star(AnyChar), Close];
    assert ANYTHING[1..] == rest && rest[1..] == [Close] && [Close][1..] == [];
    assert Write([Close]) == ")";
    assert Write(rest) == ".*)";
    assert Write(ANYTHING) == "(.*)";
  }

  lemma LitsRun(text: string, kinds: seq<PatternMatcher.Kind>)
    ensures Runnable(Lits(text), kinds) && BalancedFrom(Lits(text), 0) && Writable(Lits(text))
  {
    LitsAllowed(text, []);
    assert Lits(text) + [] == Lits(text);
    assert Runnable([], kinds);
  }

  lemma ClosedAllowed(text: string)
    ensures var its := [Close] + Lits(text); Writable(its) && Runnable(its, [Unfinished]) && BalancedFrom(its, 1)
  {
    var its := [Close] + Lits(text);
    LitsRun(text, [Closed]);
    assert its[1..] == Lits(text) && [Unfinished][0 := Closed] == [Closed];
  }

  lemma AnythingAllowed(text: string)
    ensures var its := ANYTHING + Lits(text); Writable(its) && Runnable(its, []) && BalancedFrom(its, 0)
  {
    var its, rest, last := ANYTHING + Lits(text), [Star(AnyChar)] + ([Close] + Lits(text)), [Close] + Lits(text);
    ClosedAllowed(text);
    assert rest[1..] == last;
    assert Runnable(rest, [Unfinished]) && BalancedFrom(rest, 1) && Writable(rest);
    assert its == [Open] + rest && its[1..] == rest;
    assert [] + [Unfinished] == [Unfinished];
  }

  lemma EndReads()
    ensures Reads(END_PATTERN, ANYTHING + Lits(BLANK))
  {
    EndIsWritten();
    AnythingAllowed(BLANK);
    assert END_PATTERN[0] == '(';
    PatternReads(END_PATTERN, ANYTHING + Lits(BLANK));
  }

  // ---------------------------------------------------------------- strtol

  // The widest value of a long and of an int32_t
  const LONG_MAX := 0x7FFF_FFFF_FFFF_FFFF
  const WORD := 0x1_0000_0000

  function DigitOf(c: char): nat { if '0' <= c <= '9' then c as nat - '0' as nat else 0 }

  function NumberOf(digits: string, base: nat): nat {
    if digits == "" then 0 else NumberOf(digits[..|digits| - 1], base) * base + DigitOf(digits[|digits| - 1])
  }

  predicate IsOctal(digits: string) { |digits| > 1 && digits[0] == '0' }

  // strtol with base 0 reads all of a run of digits: it takes a leading zero for octal.
  predicate ReadWhole(digits: string) { IsOctal(digits) ==> forall i :: 0 <= i < |digits| ==> digits[i] in "01234567" }

  function Strtol(digits: string): (v: nat)
    ensures v <= LONG_MAX
  {
    var v := NumberOf(digits, if IsOctal(digits) then 8 else 10);
    if v > LONG_MAX then LONG_MAX else v
  }

  function ToInt32(v: int): (w: int)
    ensures -0x8000_0000 <= w < 0x8000_0000
  {
    (v + 0x8000_0000) % WORD - 0x8000_0000
  }

  // ---------------------------------------------------------------- http_parse_header

  predicate HasNumber(s: string, text: string) { FieldIn(s, text).Some? && ReadWhole(FieldIn(s, text).value) }

  predicate HasHeader(buffer: string) {
    LastIn(buffer, BLANK).Some? && HasNumber(buffer, STATUS) && HasNumber(buffer, LENGTH)
  }

  // strtol on the digits, with the test that nothing is left
  method ReadNumber(digits: string, memory: bool) returns (ok: bool, value: nat)
    requires digits != "" && forall i :: 0 <= i < |digits| ==> digits[i] in DIGITS
    ensures ok == (memory && ReadWhole(digits)) && value == Strtol(digits)
  {
    value := Strtol(digits);
    if !memory { return false, value; }
    if |digits| > 1 && digits[0] == '0' {
      var end := 1;
      while end < |digits| && digits[end] in "01234567"
        invariant 1 <= end <= |digits| && forall i :: 0 <= i < end ==> digits[i] in "01234567"
      {
        end := end + 1;
      }
      ok := end == |digits|;
    } else {
      ok := true;
    }
  }

  // str_find with one of the two patterns for numbers
  method FindNumber(s: string, pat: string, ghost text: string) returns (digits: Option<string>)
    requires Reads(pat, Lits(text) + NUMBER)
    ensures digits == FieldIn(s, text)
  {
    var found, num, out := FindWith(s, pat, Lits(text) + NUMBER);
    FoundNumber(s, pat, text, found, num, out);
    digits := if found then Some(s[out[0].init..out[0].init + out[0].len]) else None;
  }

  method FindEnd(s: string) returns (index: Option<nat>)
    ensures index == LastIn(s, BLANK)
  {
    EndReads();
    var found, num, out := FindWith(s, END_PATTERN, ANYTHING + Lits(BLANK));
    FoundEnd(s, END_PATTERN, BLANK, found, num, out);
    index := if found then Some(out[0].len) else None;
  }

  // http_parse_header; memory says whether the two strings for the numbers can be allocated.
  method ParseHeader(buffer: string, memory: (bool, bool)) returns (found: bool, code: int, length: nat, index: nat)
    ensures found <==> HasHeader(buffer) && memory.0 && memory.1
    ensures found ==>
              && code == ToInt32(Strtol(FieldIn(buffer, STATUS).value))
              && length == Strtol(FieldIn(buffer, LENGTH).value)
              && index == LastIn(buffer, BLANK).value + |BLANK| <= |buffer|
  {
    found, code, length, index := false, 0, 0, 0;
    var end := FindEnd(buffer);
    if end == None { return; }
    index := end.value + 4;
    StatusReads();
    var digits := FindNumber(buffer, STATUS_PATTERN, STATUS);
    if digits == None { return; }
    var ok, value := ReadNumber(digits.value, memory.0);
    if !ok { return; }
    code := ToInt32(value);
    LengthReads();
    digits := FindNumber(buffer, LENGTH_PATTERN, LENGTH);
    if digits == None { return; }
    found, length := ReadNumber(digits.value, memory.1);
  }

  // ---------------------------------------------------------------- http_recv

  // What follows the header in the buffer
  function Body(buffer: string): string
    requires LastIn(buffer, BLANK).Some?
  {
    buffer[LastIn(buffer, BLANK).value + |BLANK|..]
  }

  method Copy(payload: array<char>, text: string)
    requires |text| <= payload.Length
    modifies payload
    ensures payload[..] == text + old(payload[|text|..])
  {
    var i := 0;
    while i < |text|
      invariant 0 <= i <= |text|
      invariant forall j :: 0 <= j < i ==> payload[j] == text[j]
      invariant forall j :: i <= j < payload.Length ==> payload[j] == old(payload[j])
    {
      payload[i] := text[i];
      i := i + 1;
    }
  }

  // http_recv, on what the network returned; the payload buffer has max_size characters, and
  // there is memory for the numbers. The token is what the response is paired by.
  method Receive(error: int, buffer: string, payload: array<char>, oldToken: int)
    returns (result: int, code: int, token: int, size: nat)
    modifies payload
    ensures error != ERR_SUCCESS ==> result == error
    ensures error == ERR_SUCCESS ==>
              result == if !HasHeader(buffer) then ERR_FAILURE
                        else if |Body(buffer)| > payload.Length then ERR_OVERFLOW
                        else ERR_SUCCESS
    ensures token == if result == ERR_OVERFLOW && error == ERR_SUCCESS then oldToken else 1
    ensures error == ERR_SUCCESS && HasHeader(buffer) ==> code == ToInt32(Strtol(FieldIn(buffer, STATUS).value))
    ensures if result == ERR_SUCCESS then
              && size == |Body(buffer)|
              && var copied := Body(buffer) + old(payload[size..]);
                 payload[..] == if copied != "" && Strtol(FieldIn(buffer, LENGTH).value) == 0 then copied[0 := '\0']
                                else copied
            else payload[..] == old(payload[..])
  {
    result, code, token, size := error, 0, 1, 0;
    if error != ERR_SUCCESS { return; }
    var found, length, index;
    found, code, length, index := ParseHeader(buffer, (true, true));
    if !found {
      result := ERR_FAILURE;
      return;
    }
    if payload.Length < |buffer| - index {
      result, token := ERR_OVERFLOW, oldToken;
      return;
    }
    size := |buffer| - index;
    HandOver(payload, buffer[index..], length);
  }

  // The payload, and an empty string instead if the response has no content
  method HandOver(payload: array<char>, body: string, length: nat)
    requires |body| <= payload.Length
    modifies payload
    ensures var copied := body + old(payload[|body|..]);
            payload[..] == if copied != "" && length == 0 then copied[0 := '\0'] else copied
  {
    Copy(payload, body);
    if length == 0 && payload.Length > 0 { payload[0] := '\0'; }
  }

  // ---------------------------------------------------------------- reading a header back

  // A number in a base up to ten
  function Printed(n: nat, base: nat): string
    requires 2 <= base <= 10
  {
    (if n < base then "" else Printed(n / base, base)) + [DIGITS[n % base]]
  }

  function Decimal(n: nat): string { Printed(n, 10) }

  lemma DigitIs(d: nat)
    requires d < 10
    ensures DigitOf(DIGITS[d]) == d && DIGITS[d] in DIGITS && (DIGITS[d] == '0' <==> d == 0)
    ensures d < 8 ==> DIGITS[d] in "01234567"
  {
    assert d < 8 ==> DIGITS[d] == "01234567"[d];
  }

  lemma NumberOfMore(front: string, c: char, base: nat, m: nat)
    requires NumberOf(front, base) == m
    ensures NumberOf(front + [c], base) == m * base + DigitOf(c)
  {
    assert (front + [c])[..|front|] == front;
  }

  lemma Division(n: nat, base: nat)
    requires base >= 2
    ensures n / base * base + n % base == n && (n < base ==> n / base == 0) && (n >= base ==> n / base < n)
  {
  }

  lemma {:induction false} PrintedReads(n: nat, base: nat)
    requires 2 <= base <= 10
    ensures NumberOf(Printed(n, base), base) == n
  {
    Division(n, base);
    DigitIs(n % base);
    var m, front := n / base, if n < base then "" else Printed(n / base, base);
    if n >= base { PrintedReads(m, base); }
    NumberOfMore(front, DIGITS[n % base], base, m);
  }

  lemma {:induction false} PrintedStarts(n: nat, base: nat)
    requires 2 <= base <= 10
    ensures Printed(n, base) != "" && (n > 0 ==> Printed(n, base)[0] != '0')
    ensures n < base ==> |Printed(n, base)| == 1
  {
    Division(n, base);
    DigitIs(n % base);
    if n >= base { PrintedStarts(n / base, base); }
  }

  lemma {:induction false} PrintedDigits(n: nat, base: nat)
    requires 2 <= base <= 10
    ensures forall i :: 0 <= i < |Printed(n, base)| ==> Printed(n, base)[i] in DIGITS
    ensures base <= 8 ==> forall i :: 0 <= i < |Printed(n, base)| ==> Printed(n, base)[i] in "01234567"
  {
    Division(n, base);
    DigitIs(n % base);
    if n >= base { PrintedDigits(n / base, base); }
  }

  lemma PrintedIs(n: nat, base: nat)
    requires 2 <= base <= 10
    ensures Printed(n, base) != "" && NumberOf(Printed(n, base), base) == n
    ensures forall i :: 0 <= i < |Printed(n, base)| ==> Printed(n, base)[i] in DIGITS
    ensures base <= 8 ==> forall i :: 0 <= i < |Printed(n, base)| ==> Printed(n, base)[i] in "01234567"
    ensures n > 0 ==> Printed(n, base)[0] != '0'
    ensures n < base ==> |Printed(n, base)| == 1
  {
    PrintedReads(n, base);
    PrintedStarts(n, base);
    PrintedDigits(n, base);
  }

  lemma {:induction false} LeadingZero(digits: string, base: nat)
    ensures NumberOf("0" + digits, base) == NumberOf(digits, base)
  {
    var d := "0" + digits;
    if digits == "" {
      assert d[..|d| - 1] == "" && NumberOf("", base) == 0 && DigitOf('0') == 0;
    } else {
      assert d[..|d| - 1] == "0" + digits[..|digits| - 1] && d[|d| - 1] == digits[|digits| - 1];
      LeadingZero(digits[..|digits| - 1], base);
    }
  }

  // strtol reads a number in base ten back, and one in base eight behind a zero.
  lemma NumbersAreRead(n: nat)
    requires n <= LONG_MAX
    ensures ReadWhole(Decimal(n)) && Strtol(Decimal(n)) == n
    ensures ReadWhole("0" + Printed(n, 8)) && Strtol("0" + Printed(n, 8)) == n
  {
    PrintedIs(n, 10);
    PrintedIs(n, 8);
    LeadingZero(Printed(n, 8), 8);
  }

  // A run of digits behind the text, with no field before it, is the field.
  lemma FieldIsRead(pre: string, text: string, digits: string, post: string)
    requires digits != "" && (forall i :: 0 <= i < |digits| ==> digits[i] in DIGITS)
    requires post != "" && post[0] !in DIGITS
    requires forall j :: 0 <= j < |pre| ==> !FieldAt(pre + text + digits + post, j, text)
    ensures FieldIn(pre + text + digits + post, text) == Some(digits)
  {
    var s, k := pre + text + digits + post, |pre|;
    var i, e := k + |text|, k + |text| + |digits|;
    assert s[k..i] == text && s[i..e] == digits && s[e] == post[0];
    assert s[i] == s[i..e][0] == digits[0];
    assert FieldAt(s, k, text);
    assert Search(s, text, 0) == Some(k);
    forall j | i <= j < e ensures s[j] in DIGITS { assert s[j] == digits[j - i]; }
    DigitEndIs(s, i, e);
  }

  lemma {:induction false} DigitEndIs(s: string, i: nat, e: nat)
    requires i <= e <= |s| && (forall j :: i <= j < e ==> s[j] in DIGITS) && (e < |s| ==> s[e] !in DIGITS)
    ensures DigitEnd(s, i) == e
    decreases e - i
  {
    if i < e { DigitEndIs(s, i + 1, e); }
  }

  // A response with a status, any header fields that do not look like a length, a length, and a
  // body without an empty line in it
  function Response(code: nat, fields: string, length: nat, body: string): string {
    STATUS + Decimal(code) + fields + LENGTH + Decimal(length) + BLANK + body
  }

  lemma StatusIsRead(code: nat, fields: string, rest: string)
    requires fields != "" && fields[0] !in DIGITS
    ensures FieldIn(STATUS + Decimal(code) + fields + rest, STATUS) == Some(Decimal(code))
  {
    PrintedIs(code, 10);
    var s := STATUS + Decimal(code) + fields + rest;
    assert s == "" + STATUS + Decimal(code) + (fields + rest);
    FieldIsRead("", STATUS, Decimal(code), fields + rest);
  }

  lemma LengthIsRead(front: string, length: nat, body: string)
    requires var s := front + LENGTH + Decimal(length) + BLANK + body;
             forall j :: 0 <= j < |front| ==> !FieldAt(s, j, LENGTH)
    ensures FieldIn(front + LENGTH + Decimal(length) + BLANK + body, LENGTH) == Some(Decimal(length))
  {
    PrintedIs(length, 10);
    assert front + LENGTH + Decimal(length) + BLANK + body == front + LENGTH + Decimal(length) + (BLANK + body);
    FieldIsRead(front, LENGTH, Decimal(length), BLANK + body);
  }

  lemma BodyIsRead(head: string, body: string)
    requires forall j :: |head| < j ==> !OccursAt(head + BLANK + body, j, BLANK)
    ensures LastIn(head + BLANK + body, BLANK) == Some(|head|) && Body(head + BLANK + body) == body
  {
    var s, e := head + BLANK + body, |head|;
    assert s[e..e + 4] == BLANK;
    assert OccursAt(s, e, BLANK);
  }

  lemma Int32Is(n: nat)
    requires n < 0x8000_0000
    ensures ToInt32(n) == n
  {
  }

  lemma StatusComesFirst(code: nat, fields: string, length: nat, body: string)
    requires fields != "" && fields[0] !in DIGITS
    ensures FieldIn(Response(code, fields, length, body), STATUS) == Some(Decimal(code))
  {
    var rest := LENGTH + Decimal(length) + BLANK + body;
    assert Response(code, fields, length, body) == STATUS + Decimal(code) + fields + rest;
    StatusIsRead(code, fields, rest);
  }

  // Its header is read back: the numbers, and where the body begins.
  lemma ResponseIsRead(code: nat, fields: string, length: nat, body: string)
    requires code < 0x8000_0000 && length <= LONG_MAX && fields != "" && fields[0] !in DIGITS
    requires var s := Response(code, fields, length, body);
             && (forall j :: 0 <= j < |STATUS + Decimal(code) + fields| ==> !FieldAt(s, j, LENGTH))
             && (forall j :: |s| - |body| - 4 < j ==> !OccursAt(s, j, BLANK))
    ensures var s := Response(code, fields, length, body);
            && HasHeader(s) && Body(s) == body
            && ToInt32(Strtol(FieldIn(s, STATUS).value)) == code && Strtol(FieldIn(s, LENGTH).value) == length
  {
    NumbersAreRead(code);
    NumbersAreRead(length);
    Int32Is(code);
    StatusComesFirst(code, fields, length, body);
    LengthIsRead(STATUS + Decimal(code) + fields, length, body);
    BodyIsRead(STATUS + Decimal(code) + fields + LENGTH + Decimal(length), body);
  }

  // ---------------------------------------------------------------- where the body begins

  // The header ends with the first empty line. The index is that of the body if and only if no
  // other empty line follows.
  lemma BodyIsFoundIff(s: string, e: nat)
    requires OccursAt(s, e, BLANK) && forall j :: 0 <= j < e ==> !OccursAt(s, j, BLANK)
    ensures LastIn(s, BLANK) == Some(e) <==> forall j :: e < j ==> !OccursAt(s, j, BLANK)
  {
    assert forall j :: j > |s| ==> !OccursAt(s, j, BLANK);
  }

  // A body with an empty line in it loses what is in front of that line.
  lemma BodyIsCut(head: string, front: string, back: string)
    ensures var s := head + BLANK + front + BLANK + back;
            LastIn(s, BLANK).Some? && |Body(s)| <= |back| < |front + BLANK + back|
  {
    var s, k := head + BLANK + front + BLANK + back, |head + BLANK + front|;
    assert s[k..k + 4] == BLANK;
    assert OccursAt(s, k, BLANK) && k <= |s|;
  }
}
