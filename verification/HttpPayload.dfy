// The payload handling of src/server_api/exosite_http_api.c: the value a response carries is
// found with the pattern matcher and moved to the front of the payload buffer.

module HttpPayload {
  import opened Common
  import opened Ctype
  import opened PatternSyntax
  import opened PatternSemantics
  import opened PatternMatcher
  import opened PatternCaptures
  import opened PatternFind
  import opened PatternGroups
  import G = PatternGrammar

  // response_code_to_system_error
  function SystemError(responseCode: int): int {
    if responseCode < 0 then responseCode
    else match responseCode
         case 204 => ERR_NO_CONTENT
         case 200 => ERR_SUCCESS
         case 205 => ERR_SUCCESS
         case 304 => ERR_UNCHANGED
         case 401 => ERR_CIK_NOT_VALID
         case 404 => ERR_ACTIVATE_NOT_FOUND
         case 409 => ERR_ACTIVATE_CONFLICT
         case _ => ERR_FAILURE
  }

  // The position after the longest alphanumeric run that starts at i.
  function AlnumEnd(s: string, i: nat): (e: nat)
    requires i <= |s|
    ensures i <= e <= |s| && (forall j :: i <= j < e ==> IsAlnum(s[j])) && (e < |s| ==> !IsAlnum(s[e]))
    decreases |s| - i
  {
    if i < |s| && IsAlnum(s[i]) then AlnumEnd(s, i + 1) else i
  }

  const VALUE_PATTERN := "(%w-)=(%w*)"
  const WORD_PATTERN := "(%w*)"
  const WORD := Class('w')
  const VALUE_ITEMS := [Open, Lazy(WORD), Close, One(Exactly('=')), Open, Star(WORD), Close]
  const WORD_ITEMS := [Open, Star(WORD), Close]

  lemma ParseWord()
    ensures Reads(WORD_PATTERN, WORD_ITEMS)
  {
    var p := WORD_PATTERN;
    assert p == ['(', '%', 'w', '*', ')'];
    assert Parse(p, 5) == Some([]);
    assert Parse(p, 4) == Prefix(Close, Parse(p, 5));
    assert ClassEnd(p, 1) == Some(3);
    assert Parse(p, 1) == Prefix(Star(WORD), Parse(p, 4));
    assert Parse(p, 0) == Prefix(Open, Parse(p, 1));
    assert WORD_ITEMS == [Open] + ([Star(WORD)] + ([Close] + []));
    GroupItems();
    assert p[0] in SPECIALS by { assert SPECIALS[6] == '('; }
  }

  lemma ParseValueTail()
    ensures Parse(VALUE_PATTERN, 6) == Some(WORD_ITEMS)
  {
    var p := VALUE_PATTERN;
    assert p == ['(', '%', 'w', '-', ')', '=', '(', '%', 'w', '*', ')'];
    assert Parse(p, 11) == Some([]);
    assert Parse(p, 10) == Prefix(Close, Parse(p, 11));
    assert ClassEnd(p, 7) == Some(9);
    assert Parse(p, 7) == Prefix(Star(WORD), Parse(p, 10));
    assert Parse(p, 6) == Prefix(Open, Parse(p, 7));
    assert WORD_ITEMS == [Open] + ([Star(WORD)] + ([Close] + []));
  }

  lemma ParseValueMiddle()
    ensures Parse(VALUE_PATTERN, 4) == Some([Close] + ([One(Exactly('='))] + WORD_ITEMS))
  {
    var p := VALUE_PATTERN;
    ParseValueTail();
    assert p[5] == '=' && p[4] == ')' && At(p, 6) == '(';
    assert Parse(p, 5) == Prefix(One(Exactly('=')), Parse(p, 6));
    assert Parse(p, 4) == Prefix(Close, Parse(p, 5));
  }

  lemma ParseValueHead()
    ensures Parse(VALUE_PATTERN, 0) == Some(VALUE_ITEMS)
  {
    var p := VALUE_PATTERN;
    ParseValueMiddle();
    assert p[0] == '(' && p[1] == '%' && p[2] == 'w' && p[3] == '-';
    assert ClassEnd(p, 1) == Some(3);
    G.ParseStep(p, 1, Lazy(WORD), 4, [Close] + ([One(Exactly('='))] + WORD_ITEMS));
    G.ParseStep(p, 0, Open, 1, [Lazy(WORD)] + ([Close] + ([One(Exactly('='))] + WORD_ITEMS)));
    ValueItemsAre();
  }

  lemma ValueItemsAre()
    ensures VALUE_ITEMS == [Open] + ([Lazy(WORD)] + ([Close] + ([One(Exactly('='))] + WORD_ITEMS)))
  {
  }

  lemma ParseValue()
    ensures Reads(VALUE_PATTERN, VALUE_ITEMS)
  {
    ParseValueHead();
    GroupItems();
    ValueIsNulFree();
    assert VALUE_PATTERN[0] in SPECIALS by { assert SPECIALS[6] == '('; }
  }

  lemma ValueIsNulFree()
    ensures '\0' !in VALUE_PATTERN && VALUE_PATTERN[0] == '(' && '(' in VALUE_PATTERN
  {
    assert VALUE_PATTERN == ['(', '%', 'w', '-', ')', '=', '(', '%', 'w', '*', ')'];
  }

  // Groups around one repetition are balanced and fit the capture table.
  lemma GroupItems()
    ensures Runnable(WORD_ITEMS, []) && BalancedFrom(WORD_ITEMS, 0)
    ensures Runnable(VALUE_ITEMS, []) && BalancedFrom(VALUE_ITEMS, 0)
  {
    var v := VALUE_ITEMS;
    assert v[6..] == [Close] && v[5..] == [v[5]] + v[6..] && v[4..] == [Open] + v[5..];
    assert v[3..] == [v[3]] + v[4..] && v[2..] == [Close] + v[3..] && v[1..] == [v[1]] + v[2..];
    assert BalancedFrom(v[6..], 1);
    assert BalancedFrom(v[4..], 0);
    assert BalancedFrom(v[2..], 1);
    assert Runnable(v[6..], [Closed, Unfinished]);
    assert [Closed] + [Unfinished] == [Closed, Unfinished];
    assert Runnable(v[4..], [Closed]);
    assert [Unfinished][0 := Closed] == [Closed];
    assert Runnable(v[2..], [Unfinished]);
    assert [] + [Unfinished] == [Unfinished];
    var w := WORD_ITEMS;
    assert w[1..] == v[5..];
    assert Runnable(w[1..], [Unfinished]);
  }

  lemma WordRun(s: string, i: nat)
    requires i <= |s|
    ensures RunEnd(s, i, WORD) == AlnumEnd(s, i)
    decreases |s| - i
  {
    if i < |s| { WordRun(s, i + 1); }
  }

  // The paths of (%w*) from k.
  lemma WordPath(s: string, k: nat, ks: seq<nat>)
    ensures Path(s, WORD_ITEMS, k, [], ks) <==> |ks| == 3 && ks[0] == k && ks[2] == ks[1] && AllSat(s, k, ks[1], WORD)
    ensures Path(s, WORD_ITEMS, k, [], ks) ==> CapsAlong(WORD_ITEMS, k, [], ks) == [Cap(k, ks[1] - k)]
  {
    GroupPath(s, Star(WORD), [], k, [], ks);
    if |ks| == 3 && ks[0] == k && ks[2] == ks[1] { GroupCaps(Star(WORD), [], k, [], ks); }
    assert WORD_ITEMS == [Open, Star(WORD), Close] + [];
  }

  // The paths of (%w-)=(%w*) from k: a word up to an equals sign at a, then a word up to b.
  ghost predicate ValueShape(s: string, k: nat, ks: seq<nat>) {
    && |ks| == 7 && ks[0] == k && ks[2] == ks[1] && ks[3] == ks[4] == ks[1] + 1 && ks[6] == ks[5]
    && AllSat(s, k, ks[1], WORD) && ks[1] < |s| && s[ks[1]] == '=' && AllSat(s, ks[1] + 1, ks[5], WORD)
  }

  lemma ValuePath(s: string, k: nat, ks: seq<nat>)
    ensures Path(s, VALUE_ITEMS, k, [], ks) <==> ValueShape(s, k, ks)
    ensures Path(s, VALUE_ITEMS, k, [], ks) ==>
      CapsAlong(VALUE_ITEMS, k, [], ks) == [Cap(k, ks[1] - k), Cap(ks[1] + 1, ks[5] - ks[1] - 1)]
  {
    var eq := One(Exactly('='));
    var tail := [eq] + WORD_ITEMS;
    assert VALUE_ITEMS == [Open, Lazy(WORD), Close] + tail;
    assert WORD_ITEMS == [Open, Star(WORD), Close] + [];
    GroupPath(s, Lazy(WORD), tail, k, [], ks);
    if |ks| >= 4 {
      var caps := [] + [Cap(k, ks[1] - k)];
      assert tail[1..] == WORD_ITEMS && ks[3..][1..] == ks[4..];
      GroupPath(s, Star(WORD), [], ks[3], caps, ks[4..]);
      if ValueShape(s, k, ks) {
        assert ks[4..][3..] == [];
        GroupCaps(Lazy(WORD), tail, k, [], ks);
        GroupCaps(Star(WORD), [], ks[3], caps, ks[4..]);
      }
    }
  }

  // ---------------------------------------------------------------- the value of a payload

  function EqualsAt(s: string): (q: nat)
    requires '=' in s
    ensures q < |s| && s[q] == '=' && forall j :: 0 <= j < q ==> s[j] != '='
  {
    if s[0] == '=' then 0
    else
      assert s == [s[0]] + s[1..];
      1 + EqualsAt(s[1..])
  }

  // The longest alphanumeric run after the first equals sign.
  function ValueOf(s: string): (v: string)
    requires '=' in s
    ensures |v| == AlnumEnd(s, EqualsAt(s) + 1) - EqualsAt(s) - 1
  {
    s[EqualsAt(s) + 1..AlnumEnd(s, EqualsAt(s) + 1)]
  }

  lemma WordIsAlnum(s: string, i: nat, k: nat)
    requires AllSat(s, i, k, WORD) && i <= k
    ensures forall j :: i <= j < k ==> IsAlnum(s[j])
  {
    assert forall j :: i <= j < k ==> ClassSat(s[j], 'w');
  }

  // Any equals sign gives a match that starts and ends its first capture there.
  lemma MatchesAtEquals(s: string, q: nat)
    requires q < |s| && s[q] == '='
    ensures Matches(s, VALUE_ITEMS, q)
  {
    var ks := [q, q, q, q + 1, q + 1, q + 1, q + 1];
    ValuePath(s, q, ks);
    assert Path(s, VALUE_ITEMS, q, [], ks);
  }

  // The leftmost match of (%w-)=(%w*) has its equals sign where the subject's first one is.
  lemma ReportedEquals(s: string, k: nat, ks: seq<nat>)
    requires Reported(s, VALUE_ITEMS, 0, false, k, ks)
    ensures ValueShape(s, k, ks) && '=' in s && ks[1] == EqualsAt(s)
    ensures CapsAlong(VALUE_ITEMS, k, [], ks) == [Cap(k, ks[1] - k), Cap(ks[1] + 1, ks[5] - ks[1] - 1)]
  {
    ValuePath(s, k, ks);
    assert s[ks[1]] == '=';
    WordIsAlnum(s, k, ks[1]);
    MatchesAtEquals(s, EqualsAt(s));
  }

  // The path that str_find reports for (%w-)=(%w*): its second capture is the value.
  lemma ReportedValue(s: string, k: nat, ks: seq<nat>)
    requires Reported(s, VALUE_ITEMS, 0, false, k, ks)
    ensures '=' in s
    ensures CapsAlong(VALUE_ITEMS, k, [], ks) == [Cap(k, EqualsAt(s) - k), Cap(EqualsAt(s) + 1, |ValueOf(s)|)]
  {
    ReportedEquals(s, k, ks);
    ReportedLongest(s, k, ks);
  }

  lemma ReportedLongest(s: string, k: nat, ks: seq<nat>)
    requires IsFirstPath(s, VALUE_ITEMS, k, [], ks) && ValueShape(s, k, ks)
    ensures ks[5] == AlnumEnd(s, ks[1] + 1)
  {
    WordEnds(s, ks[1] + 1, ks[5]);
    if ks[5] < AlnumEnd(s, ks[1] + 1) { LongerValue(s, k, ks, AlnumEnd(s, ks[1] + 1)); }
  }

  lemma WordEnds(s: string, i: nat, k: nat)
    requires i <= |s| && AllSat(s, i, k, WORD)
    ensures k <= AlnumEnd(s, i) && AllSat(s, i, AlnumEnd(s, i), WORD)
  {
    WordRun(s, i);
    RunEndIsLongest(s, i, k, WORD);
  }

  lemma LongerValue(s: string, k: nat, ks: seq<nat>, e: nat)
    requires ValueShape(s, k, ks) && ks[5] < e && AllSat(s, ks[1] + 1, e, WORD)
    ensures !IsFirstPath(s, VALUE_ITEMS, k, [], ks)
  {
    var js := ks[5 := e][6 := e];
    ValuePath(s, k, js);
    GreedyTakesMore(VALUE_ITEMS, ks, js, 5);
  }

  lemma ReportedWord(s: string, k: nat, ks: seq<nat>)
    requires Reported(s, WORD_ITEMS, 0, false, k, ks)
    ensures CapsAlong(WORD_ITEMS, k, [], ks) == [Cap(0, AlnumEnd(s, 0))]
  {
    MatchesAtStart(s);
    WordPath(s, k, ks);
    var e := AlnumEnd(s, 0);
    WordEnds(s, 0, ks[1]);
    if ks[1] < e {
      WordPath(s, 0, [0, e, e]);
      GreedyTakesMore(WORD_ITEMS, ks, [0, e, e], 1);
    }
  }

  lemma MatchesAtStart(s: string)
    ensures Matches(s, WORD_ITEMS, 0)
  {
    WordPath(s, 0, [0, 0, 0]);
    assert Path(s, WORD_ITEMS, 0, [], [0, 0, 0]);
  }

  // What str_find hands back for the two patterns, with room for ten captures.
  lemma FoundValue(s: string, pat: string, found: bool, num: nat, out: seq<Slice>)
    requires Reads(pat, VALUE_ITEMS) && FindsLeftmost(s, pat, 0, found, num, out) && |out| == 10
    ensures found <==> '=' in s
    ensures found ==> out[1] == Slice(EqualsAt(s) + 1, |ValueOf(s)|)
  {
    if '=' in s { MatchesAtEquals(s, EqualsAt(s)); }
    if found {
      var k, ks :| Reported(s, VALUE_ITEMS, 0, false, k, ks) && Holds(out, num, CapsAlong(VALUE_ITEMS, k, [], ks), 10);
      ReportedValue(s, k, ks);
    }
  }

  lemma FoundWord(s: string, pat: string, found: bool, num: nat, out: seq<Slice>)
    requires Reads(pat, WORD_ITEMS) && FindsLeftmost(s, pat, 0, found, num, out) && |out| == 10
    ensures found && out[0] == Slice(0, AlnumEnd(s, 0))
  {
    MatchesAtStart(s);
    var k, ks :| Reported(s, WORD_ITEMS, 0, false, k, ks) && Holds(out, num, CapsAlong(WORD_ITEMS, k, [], ks), 10);
    ReportedWord(s, k, ks);
  }

  // ---------------------------------------------------------------- http_parse_payload

  // The buffer holds v at the front, terminated if there is room, and is otherwise as before.
  ghost predicate Fronted(now: string, before: string, v: string) {
    && |now| == |before| >= |v|
    && now[..|v|] == v
    && (|v| + 1 < |now| ==> now[|v|] == '\0' && now[|v| + 1..] == before[|v| + 1..])
    && (|v| + 1 >= |now| ==> now[|v|..] == before[|v|..])
  }

  // The status a response code stands for, with numbers written out: success for 200 and 205 if
  // the payload could be parsed, and for 204; the code itself if it is an error of the client,
  // except that of no content.
  predicate IsStatus(status: int, code: int, parsed: bool) {
    && (code == 200 || code == 205 ==> status == if parsed then 0 else -18)
    && (code == 204 || code == -101 ==> status == 0)
    && (code == 304 ==> status == -102)
    && (code == 401 ==> status == -104)
    && (code == 404 ==> status == -107)
    && (code == 409 ==> status == -106)
    && (code < 0 && code != -101 ==> status == code)
    && (code >= 0 && code !in [200, 204, 205, 304, 401, 404, 409] ==> status == -1)
  }

  // The status http_parse_payload returns, by the response code and whether the payload could
  // be parsed.
  function StatusOf(code: int, parsed: bool): (status: int)
    ensures IsStatus(status, code, parsed)
  {
    var st := SystemError(code);
    if st == ERR_NO_CONTENT then ERR_SUCCESS
    else if st != ERR_SUCCESS then st
    else if parsed then ERR_SUCCESS
    else ERR_INVALID_FORMAT
  }

  // http_parse_payload, on a buffer of max_size characters of which the first size are payload
  method ParsePayload(m: Procedure, payload: array<char>, size: nat, responseCode: int) returns (status: int)
    requires size <= payload.Length
    modifies payload
    ensures IsStatus(status, responseCode, m == PpActivate || m == UpTimestamp || '=' in old(payload[..size]))
    ensures var s := old(payload[..size]);
            if (responseCode == 200 || responseCode == 205) && (m == PpActivate || m == UpTimestamp) then
              Fronted(payload[..], old(payload[..]), s[..AlnumEnd(s, 0)])
            else if (responseCode == 200 || responseCode == 205) && '=' in s then
              Fronted(payload[..], old(payload[..]), ValueOf(s))
            else payload[..] == old(payload[..])
  {
    status := SystemError(responseCode);
    if status != ERR_SUCCESS {
      if status == ERR_NO_CONTENT { status := ERR_SUCCESS; }
      return;
    }
    if m == PpActivate || m == UpTimestamp {
      ParseWord();
      ExtractWord(payload, size, WORD_PATTERN);
    } else {
      ParseValue();
      var found := ExtractValue(payload, size, VALUE_PATTERN);
      if !found { status := ERR_INVALID_FORMAT; }
    }
  }

  method ExtractWord(payload: array<char>, size: nat, pattern: string)
    requires size <= payload.Length && Reads(pattern, WORD_ITEMS)
    modifies payload
    ensures var s := old(payload[..size]); Fronted(payload[..], old(payload[..]), s[..AlnumEnd(s, 0)])
  {
    var captures := new Slice[10](_ => Slice(0, 0));
    var s := payload[..size];
    var found, num := StrFind(s, pattern, false, 0, captures);
    FoundWord(s, pattern, found, num, captures[..]);
    assert captures[0] == captures[..][0];
    var n := captures[0].len;
    if n + 1 < payload.Length { payload[n] := '\0'; }
  }

  method ExtractValue(payload: array<char>, size: nat, pattern: string) returns (found: bool)
    requires size <= payload.Length && Reads(pattern, VALUE_ITEMS)
    modifies payload
    ensures var s := old(payload[..size]);
            && found == ('=' in s)
            && if found then Fronted(payload[..], old(payload[..]), ValueOf(s)) else payload[..] == old(payload[..])
  {
    var slice;
    found, slice := LocateValue(payload[..size], pattern);
    if found {
      ghost var v := ValueOf(payload[..size]);
      assert payload[slice.init..slice.init + slice.len] == payload[..size][slice.init..slice.init + slice.len] == v;
      MoveToFront(payload, slice.init, slice.len);
      FrontedAfter(old(payload[..]), payload[..], v);
      Terminate(payload, slice.len);
    }
  }

  // Where str_find finds the value.
  method LocateValue(s: string, pattern: string) returns (found: bool, slice: Slice)
    requires Reads(pattern, VALUE_ITEMS)
    ensures found == ('=' in s)
    ensures found ==> slice.init + slice.len <= |s| && s[slice.init..slice.init + slice.len] == ValueOf(s)
  {
    var captures := new Slice[10](_ => Slice(0, 0));
    var num: nat;
    found, num := StrFind(s, pattern, false, 0, captures);
    FoundValue(s, pattern, found, num, captures[..]);
    slice := captures[..][1];
  }

  method Terminate(payload: array<char>, n: nat)
    modifies payload
    ensures payload[..] == if n + 1 < payload.Length then old(payload[..])[n := '\0'] else old(payload[..])
  {
    if n + 1 < payload.Length { payload[n] := '\0'; }
  }

  lemma FrontedAfter(before: string, moved: string, v: string)
    requires |moved| == |before| >= |v| && moved[..|v|] == v && moved[|v|..] == before[|v|..]
    ensures Fronted(if |v| + 1 < |moved| then moved[|v| := '\0'] else moved, before, v)
  {
    assert forall j :: |v| <= j < |moved| ==> moved[j] == moved[|v|..][j - |v|] == before[j];
  }

  // memmove(payload, payload + init, n)
  method MoveToFront(payload: array<char>, init: nat, n: nat)
    requires init + n <= payload.Length
    modifies payload
    ensures payload[..n] == old(payload[init..init + n]) && payload[n..] == old(payload[n..])
  {
    var i := 0;
    while i < n
      invariant 0 <= i <= n
      invariant forall j :: 0 <= j < i ==> payload[j] == old(payload[init + j])
      invariant forall j :: i <= j < payload.Length ==> payload[j] == old(payload[j])
    {
      payload[i] := payload[init + i];
      i := i + 1;
    }
  }

  // ---------------------------------------------------------------- round trip

  // The string a caller reads from a buffer: up to the first NUL.
  function CString(buffer: string): string {
    if buffer == [] || buffer[0] == '\0' then [] else [buffer[0]] + CString(buffer[1..])
  }

  lemma {:induction false} CStringOfPrefix(buffer: string, v: string)
    requires |v| < |buffer| && buffer[..|v|] == v && '\0' !in v && buffer[|v|] == '\0'
    ensures CString(buffer) == v
    decreases |v|
  {
    if v != [] {
      assert buffer[0] == buffer[..|v|][0] == v[0];
      assert buffer[1..][..|v| - 1] == buffer[..|v|][1..];
      CStringOfPrefix(buffer[1..], v[1..]);
    }
  }

  lemma {:induction false} AlnumEndOfRun(s: string, i: nat, e: nat)
    requires i <= e <= |s| && (forall j :: i <= j < e ==> IsAlnum(s[j])) && (e < |s| ==> !IsAlnum(s[e]))
    ensures AlnumEnd(s, i) == e
    decreases e - i
  {
    if i < e { AlnumEndOfRun(s, i + 1, e); }
  }

  // Reading back alias=value gives the value, whenever the alias has no equals sign and the
  // value is alphanumeric; and the buffer then reads as the value if it fits.
  lemma ValueRoundTrip(alias: string, value: string, now: string, before: string)
    requires '=' !in alias && forall j :: 0 <= j < |value| ==> IsAlnum(value[j])
    ensures '=' in alias + "=" + value && ValueOf(alias + "=" + value) == value
    ensures Fronted(now, before, value) && |value| + 1 < |now| ==> CString(now) == value
  {
    var body := alias + "=" + value;
    assert body[|alias|] == '=';
    var q := EqualsAt(body);
    assert q == |alias| by {
      assert forall j :: 0 <= j < |alias| ==> body[j] == alias[j];
    }
    AlnumEndOfRun(body, q + 1, |body|);
    assert body[q + 1..] == value;
    if Fronted(now, before, value) && |value| + 1 < |now| {
      assert '\0' !in value;
      CStringOfPrefix(now, value);
    }
  }
}
