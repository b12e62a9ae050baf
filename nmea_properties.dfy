/**
  What the decoder promises, proved about the functions of module Nmea:
  which part of a line the checksum covers, that a corrupted character is
  caught, which failures give null and which escape, which fields each
  sentence type fills, and the values the coordinate converters give.
*/
module NmeaProperties {
  import opened JavaLang
  import opened Nmea

  // ---------------------------------------------------------------------
  // Checksum

  /** Xor works bit by bit: it halves into the Xor of the halves, and its low bit differs when theirs do. */
  lemma XorHalves(a: nat, b: nat)
    ensures Xor(a, b) / 2 == Xor(a / 2, b / 2)
    ensures Xor(a, b) % 2 == (if a % 2 == b % 2 then 0 else 1)
  {
  }

  /** Two naturals with the same half and the same low bit are equal. */
  lemma SameBits(x: nat, y: nat)
    requires x / 2 == y / 2 && x % 2 == y % 2
    ensures x == y
  {
  }

  lemma {:induction false} XorAssociative(a: nat, b: nat, c: nat)
    ensures Xor(Xor(a, b), c) == Xor(a, Xor(b, c))
    decreases a + b + c
  {
    if a + b + c > 0 {
      XorHalves(Xor(a, b), c);
      XorHalves(a, b);
      XorHalves(a, Xor(b, c));
      XorHalves(b, c);
      XorAssociative(a / 2, b / 2, c / 2);
      SameBits(Xor(Xor(a, b), c), Xor(a, Xor(b, c)));
    }
  }

  lemma {:induction false} XorSelf(a: nat)
    ensures Xor(a, a) == 0
    decreases a
  {
    if a > 0 {
      XorSelf(a / 2);
    }
  }

  /** Xor with the same value on the left can be undone. */
  lemma XorCancel(a: nat, x: nat, y: nat)
    requires Xor(a, x) == Xor(a, y)
    ensures x == y
  {
    XorAssociative(a, a, x);
    XorAssociative(a, a, y);
    XorSelf(a);
  }

  /** XOR over a concatenation is the XOR of the two parts. */
  lemma {:induction false} XorOfConcat(s: string, t: string)
    ensures XorOf(s + t) == Xor(XorOf(s), XorOf(t))
    decreases |t|
  {
    if t == [] {
      assert s + t == s;
    } else {
      var init := t[..|t| - 1];
      assert (s + t)[..|s + t| - 1] == s + init;
      XorOfConcat(s, init);
      XorAssociative(XorOf(s), XorOf(init), Code(t[|t| - 1]));
    }
  }

  /** Replacing one character of a string changes its XOR. */
  lemma XorOfDetectsChange(s: string, k: nat, c: char)
    requires k < |s| && s[k] != c
    ensures XorOf(s[k := c]) != XorOf(s)
  {
    var t := s[k := c];
    var before, after := s[..k], s[k + 1..];
    assert s == (before + [s[k]]) + after;
    assert t == (before + [c]) + after;
    XorOfConcat(before + [s[k]], after);
    XorOfConcat(before + [c], after);
    assert (before + [s[k]])[..k] == before;
    assert (before + [c])[..k] == before;
    if XorOf(t) == XorOf(s) {
      XorCancelRight(Xor(XorOf(before), Code(c)), Xor(XorOf(before), Code(s[k])), XorOf(after));
      XorCancel(XorOf(before), Code(c), Code(s[k]));
    }
  }

  /** Xor with the same value on the right can be undone. */
  lemma XorCancelRight(x: nat, y: nat, b: nat)
    requires Xor(x, b) == Xor(y, b)
    ensures x == y
  {
    XorAssociative(x, b, b);
    XorAssociative(y, b, b);
    XorSelf(b);
  }

  /** The checksum of body + "*" + suffix, for a body without '*' or a leading '$', is the XOR of exactly the body. */
  lemma ChecksumCoversBody(body: string, suffix: string)
    requires '*' !in body && (body == [] || body[0] != '$')
    ensures Checksum(body + "*" + suffix) == XorOf(body)
  {
    var bare := body + "*" + suffix;
    assert bare[|body|] == '*';
    assert bare[..|body|] == body;
  }

  /** A leading '$' is not covered: "$" + body + "*" + suffix has the checksum of the body alone. */
  lemma ChecksumSkipsDollar(body: string, suffix: string)
    requires '*' !in body
    ensures Checksum("$" + body + "*" + suffix) == XorOf(body)
  {
    var framed := "$" + body + "*" + suffix;
    assert framed[1 + |body|] == '*';
    assert framed[..1 + |body|] == "$" + body;
    assert framed[1..1 + |body|] == body;
  }

  // ---------------------------------------------------------------------
  // Whole lines

  /** The line is framed and the hex number after its '*' equals the checksum of its body. */
  predicate ChecksumMatches(line: string) {
    Framed(line) && '*' in line[1..] && DeclaredChecksum(line[1..]) == Ok(Checksum(line[1..]))
  }

  /** A framed line's first '*' is one past the first '*' of the text after its '$'. */
  lemma StarAfterDollar(line: string)
    requires Framed(line)
    ensures '*' in line[1..]
    ensures IndexOf(line, '*') == IndexOf(line[1..], '*') + 1
  {
    assert line == [line[0]] + line[1..];
    assert line[0] == '$';
  }

  /** A line whose checksum field does not match its body decodes to null. */
  lemma MismatchIsNull(line: string)
    requires Framed(line) && '*' in line[1..]
    requires DeclaredChecksum(line[1..]).Ok? && DeclaredChecksum(line[1..]).value != Checksum(line[1..])
    ensures Decode(line) == NoPosition
  {
  }

  /**
    Changing a character of a sentence before its first '*' keeps the
    declared checksum and changes the computed one, as long as the new
    character is not '*' and no leading '$' appears or disappears.
  */
  lemma CorruptedBody(nmea: string, m: nat, c: char)
    requires '*' in nmea
    requires m < IndexOf(nmea, '*') && nmea[m] != c && c != '*'
    requires m == 0 ==> nmea[0] != '$' && c != '$'
    ensures '*' in nmea[m := c]
    ensures DeclaredChecksum(nmea[m := c]) == DeclaredChecksum(nmea)
    ensures Checksum(nmea[m := c]) != Checksum(nmea)
  {
    var changed := nmea[m := c];
    var j := IndexOf(nmea, '*');
    IndexOfAfterUpdate(nmea, '*', m, c);
    assert changed[j + 1..] == nmea[j + 1..];
    var start := if nmea[0] == '$' then 1 else 0;
    assert (changed[0] == '$') == (nmea[0] == '$');
    var body := nmea[start..j];
    assert ChecksumBody(changed) == body[m - start := c];
    XorOfDetectsChange(body, m - start, c);
  }

  /**
    Changing one character of a line whose checksum matched, anywhere
    between the '$' and the first '*', to anything but '*' makes the line
    decode to null; so does turning a second '$' into something else or
    something else into a second '$', which moves where the checksum starts.
  */
  lemma CorruptedCharIsNull(line: string, k: nat, c: char)
    requires ChecksumMatches(line)
    requires 1 <= k < IndexOf(line, '*') && line[k] != c && c != '*'
    requires k == 1 ==> line[1] != '$' && c != '$'
    ensures Decode(line[k := c]) == NoPosition
  {
    CorruptedLineMismatches(line, k, c);
    MismatchIsNull(line[k := c]);
  }

  /** The corrupted line is still framed, and its declared checksum no longer matches. */
  lemma CorruptedLineMismatches(line: string, k: nat, c: char)
    requires ChecksumMatches(line)
    requires 1 <= k < IndexOf(line, '*') && line[k] != c && c != '*'
    requires k == 1 ==> line[1] != '$' && c != '$'
    ensures var corrupted := line[k := c];
      && Framed(corrupted) && '*' in corrupted[1..]
      && DeclaredChecksum(corrupted[1..]).Ok?
      && DeclaredChecksum(corrupted[1..]).value != Checksum(corrupted[1..])
  {
    StarAfterDollar(line);
    var corrupted := line[k := c];
    assert corrupted[1..] == line[1..][k - 1 := c];
    CorruptedBody(line[1..], k - 1, c);
    assert Framed(corrupted) by {
      assert corrupted[..1] == line[..1];
      assert corrupted[IndexOf(line, '*')] == '*';
    }
  }

  /**
    A sentence "$" + body + "*" + hex whose hex digits spell the XOR of
    the body passes the checksum test, and decodes to what its tokens
    decode to; the tokens are cut from the body together with the
    checksum suffix.
  */
  lemma CorrectChecksumDecodesTokens(body: string, hex: string)
    requires '*' !in body && (body == [] || body[0] != '$')
    requires hex != [] && IsDigits(hex, 16) && DigitsValue(hex, 16) == XorOf(body)
    requires XorOf(body) <= IntMax
    ensures Decode("$" + body + "*" + hex) == DecodeTokens(Split(body + "*" + hex, ','))
  {
    var line := "$" + body + "*" + hex;
    var nmea := body + "*" + hex;
    assert line[1..] == nmea;
    assert nmea[|body|] == '*';
    assert nmea[..|body|] == body;
    assert IndexOf(nmea, '*') == |body|;
    assert nmea[|body| + 1..] == hex;
    ParseIntOfDigits(hex, 16);
    ChecksumCoversBody(body, hex);
    assert Framed(line) by {
      assert line[..1] == "$";
      assert line[1 + |body|] == '*';
    }
  }

  /** A framed line whose checksum field is not a base-16 int lets NumberFormatException escape. */
  lemma BadChecksumFieldEscapes(line: string)
    requires Framed(line) && '*' in line[1..] && DeclaredChecksum(line[1..]).Thrown?
    ensures Decode(line) == Escaped(NumberFormatException)
  {
  }

  // ---------------------------------------------------------------------
  // Tags and failures

  /** A tag outside the five registered ones gives null rather than an error. */
  lemma UnknownTagIsNull(tokens: seq<string>)
    requires |tokens| > 0 && tokens[0] !in {"GPGGA", "GPGGL", "GPRMC", "GPRMZ", "GPVTG"}
    ensures DecodeTokens(tokens) == NoPosition
  {
  }

  /** A NumberFormatException from a field parser gives null; any other exception escapes. */
  lemma FieldFailureOutcome(tokens: seq<string>)
    requires |tokens| > 0 && tokens[0] in SentenceParsers
    requires ApplyParser(SentenceParsers[tokens[0]], tokens, Unset).Thrown?
    ensures var e := ApplyParser(SentenceParsers[tokens[0]], tokens, Unset).exception;
      DecodeTokens(tokens) == if e == NumberFormatException then NoPosition else Escaped(e)
  {
  }

  /** A recognised sentence with too few fields for its first field access escapes. */
  lemma MissingFieldEscapes(tokens: seq<string>)
    requires |tokens| > 0 && tokens[0] in SentenceParsers
    requires if tokens[0] == "GPVTG" then |tokens| <= 3 else |tokens| <= 1
    ensures DecodeTokens(tokens) == Escaped(IndexOutOfBoundsException)
  {
  }

  // ---------------------------------------------------------------------
  // Which fields each sentence type fills

  /** Only GGA sets the quality indicator, so every other sentence decodes without a fix. */
  lemma OnlyGgaSetsFix(tokens: seq<string>)
    requires |tokens| > 0 && tokens[0] != "GPGGA" && DecodeTokens(tokens).Position?
    ensures DecodeTokens(tokens).fix.quality == 0 && !DecodeTokens(tokens).fix.fixed
  {
  }

  /** GGA fills time, position, quality and altitude; course and speed stay 0. */
  lemma GgaFields(tokens: seq<string>)
    requires |tokens| > 0 && tokens[0] == "GPGGA" && DecodeTokens(tokens).Position?
    ensures |tokens| > 9
    ensures var fix := DecodeTokens(tokens).fix;
      && fix.dir == 0.0 && fix.velocity == 0.0
      && fix.time == ParseFloat(tokens[1]).value
      && fix.lat == Latitude2Decimal(tokens[2], tokens[3]).value
      && fix.lon == Longitude2Decimal(tokens[4], tokens[5]).value
      && fix.quality == ParseInt(tokens[6], 10).value
      && fix.altitude == ParseFloat(tokens[9]).value
  {
  }

  /** The "GPGGL" tag fills position and time only. */
  lemma GglFields(tokens: seq<string>)
    requires |tokens| > 0 && tokens[0] == "GPGGL" && DecodeTokens(tokens).Position?
    ensures |tokens| > 5
    ensures var fix := DecodeTokens(tokens).fix;
      && fix == Unset.(time := fix.time, lat := fix.lat, lon := fix.lon)
      && fix.lat == Latitude2Decimal(tokens[1], tokens[2]).value
      && fix.lon == Longitude2Decimal(tokens[3], tokens[4]).value
      && fix.time == ParseFloat(tokens[5]).value
  {
  }

  /** RMC fills time and position, and speed and course only from non-empty fields. */
  lemma RmcFields(tokens: seq<string>)
    requires |tokens| > 0 && tokens[0] == "GPRMC" && DecodeTokens(tokens).Position?
    ensures |tokens| > 8
    ensures var fix := DecodeTokens(tokens).fix;
      && fix == Unset.(time := fix.time, lat := fix.lat, lon := fix.lon, velocity := fix.velocity, dir := fix.dir)
      && fix.time == ParseFloat(tokens[1]).value
      && fix.lat == Latitude2Decimal(tokens[3], tokens[4]).value
      && fix.lon == Longitude2Decimal(tokens[5], tokens[6]).value
      && fix.velocity == (if tokens[7] == [] then 0.0 else ParseFloat(tokens[7]).value)
      && fix.dir == (if tokens[8] == [] then 0.0 else ParseFloat(tokens[8]).value)
  {
  }

  /** VTG fills the course only. */
  lemma VtgFields(tokens: seq<string>)
    requires |tokens| > 0 && tokens[0] == "GPVTG" && DecodeTokens(tokens).Position?
    ensures DecodeTokens(tokens).fix == Unset.(dir := ParseFloat(tokens[3]).value)
  {
  }

  /** The "GPRMZ" tag fills the altitude only. */
  lemma RmzFields(tokens: seq<string>)
    requires |tokens| > 0 && tokens[0] == "GPRMZ" && DecodeTokens(tokens).Position?
    ensures DecodeTokens(tokens).fix == Unset.(altitude := ParseFloat(tokens[1]).value)
  {
  }

  // ---------------------------------------------------------------------
  // Coordinates

  /** An empty coordinate field is 0, whatever the hemisphere. */
  lemma EmptyCoordinateIsZero(ns: string, we: string)
    ensures Latitude2Decimal("", ns) == Ok(0.0)
    ensures Longitude2Decimal("", we) == Ok(0.0)
  {
  }

  /** A non-empty coordinate shorter than its degree digits escapes with an index error. */
  lemma ShortCoordinateEscapes(lat: string, ns: string, lon: string, we: string)
    requires 0 < |lat| < 2 && 0 < |lon| < 3
    ensures Latitude2Decimal(lat, ns) == Thrown(IndexOutOfBoundsException)
    ensures Longitude2Decimal(lon, we) == Thrown(IndexOutOfBoundsException)
  {
  }

  /** Latitude: two digits of degrees, then minutes; negative in the southern hemisphere. */
  lemma LatitudeValue(lat: string, ns: string)
    requires |lat| >= 2 && ParseFloat(lat[..2]).Ok? && ParseFloat(lat[2..]).Ok?
    ensures var degrees := ParseFloat(lat[..2]).value + ParseFloat(lat[2..]).value / 60.0;
      Latitude2Decimal(lat, ns) == Ok(if |ns| > 0 && ns[0] == 'S' then -degrees else degrees)
  {
  }

  /** Longitude: three digits of degrees, then minutes; negative in the western hemisphere. */
  lemma LongitudeValue(lon: string, we: string)
    requires |lon| >= 3 && ParseFloat(lon[..3]).Ok? && ParseFloat(lon[3..]).Ok?
    ensures var degrees := ParseFloat(lon[..3]).value + ParseFloat(lon[3..]).value / 60.0;
      Longitude2Decimal(lon, we) == Ok(if |we| > 0 && we[0] == 'W' then -degrees else degrees)
  {
  }

  lemma ParseFloatOf48()
    ensures ParseFloat("48") == Ok(48.0)
  {
    assert IsDigits("48", 10);
    assert "48"[..1] == "4" && "4"[..0] == [];
    ParseFloatOfDigits("48");
  }

  lemma ParseFloatOf011()
    ensures ParseFloat("011") == Ok(11.0)
  {
    assert IsDigits("011", 10);
    assert "011"[..2] == "01" && "01"[..1] == "0" && "0"[..0] == [];
    ParseFloatOfDigits("011");
  }

  /** One more decimal digit at the end: the value so far times ten, plus the digit. */
  lemma AppendDigit(s: string, c: char, v: nat)
    requires IsDigits(s, 10) && DigitsValue(s, 10) == v && '0' <= c <= '9'
    ensures IsDigits(s + [c], 10) && DigitsValue(s + [c], 10) == v * 10 + (c as int - '0' as int)
  {
    DigitsValueSnoc(s, c, 10);
  }

  /** The digits of "07038" read in base ten. */
  lemma DigitsOf07038()
    ensures IsDigits("07038", 10) && DigitsValue("07038", 10) == 7038
  {
    AppendDigit([], '0', 0);
    assert [] + ['0'] == "0";
    AppendDigit("0", '7', 0);
    assert "0" + ['7'] == "07";
    AppendDigit("07", '0', 7);
    assert "07" + ['0'] == "070";
    AppendDigit("070", '3', 70);
    assert "070" + ['3'] == "0703";
    AppendDigit("0703", '8', 703);
    assert "0703" + ['8'] == "07038";
  }

  /** The digits of "31000" read in base ten. */
  lemma DigitsOf31000()
    ensures IsDigits("31000", 10) && DigitsValue("31000", 10) == 31000
  {
    AppendDigit([], '3', 0);
    assert [] + ['3'] == "3";
    AppendDigit("3", '1', 3);
    assert "3" + ['1'] == "31";
    AppendDigit("31", '0', 31);
    assert "31" + ['0'] == "310";
    AppendDigit("310", '0', 310);
    assert "310" + ['0'] == "3100";
    AppendDigit("3100", '0', 3100);
    assert "3100" + ['0'] == "31000";
  }

  lemma ParseFloatOf07038()
    ensures ParseFloat("07.038") == Ok(7.038)
  {
    assert IsDigits("07", 10) && IsDigits("038", 10);
    ParseFloatOfDecimal("07", "038");
    assert "07" + "." + "038" == "07.038" && "07" + "038" == "07038";
    DigitsOf07038();
    assert Shift(7038.0, -3) == Shift(703.8, -2) == Shift(70.38, -1) == Shift(7.038, 0);
  }

  lemma ParseFloatOf31000()
    ensures ParseFloat("31.000") == Ok(31.0)
  {
    assert IsDigits("31", 10) && IsDigits("000", 10);
    ParseFloatOfDecimal("31", "000");
    assert "31" + "." + "000" == "31.000" && "31" + "000" == "31000";
    DigitsOf31000();
    assert Shift(31000.0, -3) == Shift(3100.0, -2) == Shift(310.0, -1) == Shift(31.0, 0);
  }

  /** "4807.038" north is 48 degrees and 7.038 minutes; south, its negation. */
  lemma LatitudeExample()
    ensures Latitude2Decimal("4807.038", "N") == Ok(48.0 + 7.038 / 60.0)
    ensures Latitude2Decimal("4807.038", "S") == Ok(-(48.0 + 7.038 / 60.0))
  {
    var lat := "4807.038";
    assert lat[..2] == "48" && lat[2..] == "07.038";
    ParseFloatOf48();
    ParseFloatOf07038();
    assert "N"[..1] == "N" && "S"[..1] == "S";
  }

  /** "01131.000" east is 11 degrees and 31 minutes; west, its negation. */
  lemma LongitudeExample()
    ensures Longitude2Decimal("01131.000", "E") == Ok(11.0 + 31.0 / 60.0)
    ensures Longitude2Decimal("01131.000", "W") == Ok(-(11.0 + 31.0 / 60.0))
  {
    var lon := "01131.000";
    assert lon[..3] == "011" && lon[3..] == "31.000";
    ParseFloatOf011();
    ParseFloatOf31000();
    assert "E"[..1] == "E" && "W"[..1] == "W";
  }
}
