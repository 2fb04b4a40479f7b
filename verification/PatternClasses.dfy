// Which characters a class letter of the pattern language stands for, written out as sets of
// characters of the "C" locale.

module PatternClasses {
  import opened Common
  import opened Ctype
  import opened PatternSyntax

  const DIGITS := "0123456789"
  const LOWER := "abcdefghijklmnopqrstuvwxyz"
  const UPPER := "ABCDEFGHIJKLMNOPQRSTUVWXYZ"
  const HEX := "0123456789abcdefABCDEF"
  const SPACES := " \t\n\U{B}\U{C}\r"
  const CONTROL := "\U{0}\U{1}\U{2}\U{3}\U{4}\U{5}\U{6}\U{7}\U{8}\U{9}\U{A}\U{B}\U{C}\U{D}\U{E}\U{F}"
    + "\U{10}\U{11}\U{12}\U{13}\U{14}\U{15}\U{16}\U{17}\U{18}\U{19}\U{1A}\U{1B}\U{1C}\U{1D}\U{1E}\U{1F}"
  const PUNCTUATION := "!\"#$%&'()*+,-./" + (":;<=>?@" + ("[\\]^_`" + "{|}~"))

  // The characters a lower-case class letter names, if it names any
  function CharsOf(letter: char): Option<string> {
    match letter
    case 'a' => Some(LOWER + UPPER)
    case 'c' => Some(CONTROL + "\U{7F}")
    case 'd' => Some(DIGITS)
    case 'l' => Some(LOWER)
    case 'p' => Some(PUNCTUATION)
    case 's' => Some(SPACES)
    case 'u' => Some(UPPER)
    case 'w' => Some(DIGITS + LOWER + UPPER)
    case 'x' => Some(HEX)
    case 'z' => Some("\0")
    case _ => None
  }

  // The characters %letter stands for: those the letter names, all others for the letter in
  // upper case, and just itself for any other character.
  predicate Stands(c: char, letter: char) {
    match CharsOf(letter)
    case Some(chars) => c in chars
    case None =>
      if 'A' <= letter <= 'Z' && CharsOf(letter - 'A' + 'a').Some? then c !in CharsOf(letter - 'A' + 'a').value
      else c == letter
  }

  // A text of consecutive characters holds a range of characters.
  lemma InRange(text: string, c: char)
    requires text != [] && forall i :: 0 <= i < |text| ==> text[i] as int == text[0] as int + i
    ensures c in text <==> text[0] as int <= c as int < text[0] as int + |text|
  {
    if text[0] as int <= c as int < text[0] as int + |text| {
      assert text[c as int - text[0] as int] == c;
    }
  }

  lemma DigitsAre(c: char)
    ensures c in DIGITS <==> IsDigit(c)
  {
    InRange(DIGITS, c);
  }

  lemma LowerAre(c: char)
    ensures c in LOWER <==> IsLower(c)
  {
    InRange(LOWER, c);
  }

  lemma UpperAre(c: char)
    ensures c in UPPER <==> IsUpper(c)
  {
    InRange(UPPER, c);
  }

  lemma HexAre(c: char)
    ensures c in HEX <==> IsXdigit(c)
  {
    assert HEX == DIGITS + "abcdef" + "ABCDEF";
    InRange(DIGITS, c);
    InRange("abcdef", c);
    InRange("ABCDEF", c);
  }

  lemma SpacesAre(c: char)
    ensures c in SPACES <==> IsSpace(c)
  {
    assert SPACES == " " + "\t\n\U{B}\U{C}\r";
    InRange("\t\n\U{B}\U{C}\r", c);
  }

  lemma PunctuationAre(c: char)
    ensures c in PUNCTUATION <==> IsPunct(c)
  {
    InRange("!\"#$%&'()*+,-./", c);
    InRange(":;<=>?@", c);
    InRange("[\\]^_`", c);
    InRange("{|}~", c);
  }

  lemma ControlAre(c: char)
    ensures c in CONTROL + "\U{7F}" <==> IsCntrl(c)
  {
    InRange(CONTROL, c);
  }

  lemma LowerLetterIs(c: char, letter: char)
    requires IsLower(letter)
    ensures match CharsOf(letter)
            case Some(chars) => NamedClass(c, letter) == Some(c in chars)
            case None => NamedClass(c, letter) == None
  {
    match letter
    case 'a' => LowerAre(c); UpperAre(c);
    case 'c' => ControlAre(c);
    case 'd' => DigitsAre(c);
    case 'l' => LowerAre(c);
    case 'p' => PunctuationAre(c);
    case 's' => SpacesAre(c);
    case 'u' => UpperAre(c);
    case 'w' => DigitsAre(c); LowerAre(c); UpperAre(c);
    case 'x' => HexAre(c);
    case _ =>
  }

  // match_class reads every letter as the set of characters it stands for.
  lemma ClassIs(c: char, letter: char)
    ensures ClassSat(c, letter) <==> Stands(c, letter)
  {
    if IsLower(letter) {
      LowerLetterIs(c, letter);
    } else if IsUpper(letter) {
      LowerLetterIs(c, letter - 'A' + 'a');
    }
  }

  // The characters one member of a set covers
  predicate Covers(c: char, m: Member) {
    match m
    case Just(d) => c == d
    case Named(letter) => Stands(c, letter)
    case Ranged(lo, hi) => !(c < lo) && !(hi < c)
  }

  // A set without ^ holds the characters its members cover.
  lemma {:induction false} SetIs(c: char, members: seq<Member>)
    ensures SomeSat(c, members) <==> exists m :: m in members && Covers(c, m)
  {
    if members != [] {
      var m, rest := members[0], members[1..];
      assert members == [m] + rest;
      MemberIs(c, m);
      SetIs(c, rest);
      if MemberSat(c, m) { assert m in members && Covers(c, m); }
      if SomeSat(c, rest) {
        var n :| n in rest && Covers(c, n);
        assert n in members;
      }
    }
  }

  lemma MemberIs(c: char, m: Member)
    ensures MemberSat(c, m) <==> Covers(c, m)
  {
    if m.Named? { ClassIs(c, m.cl); }
  }
}
