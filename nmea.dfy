/**
  Decoding of NMEA 0183 sentences into position records: the "$...*hh"
  framing, the XOR checksum, a dispatch on the sentence tag, and one field
  parser per supported tag, each filling a freshly allocated record in
  place.

  Every step of decoding has two forms here: a function that says what the
  step computes (ApplyGpgga, Decode, Checksum, ...) and the method that does
  it the way the tracker does (ParseGpgga, Parse, CalculateChecksum, ...),
  proved to agree with the function.
*/
module Nmea {
  import opened JavaLang

  /** The field values of a position record. */
  datatype Fix = Fix(
    time: real,
    lat: real,
    lon: real,
    fixed: bool,
    quality: int,
    dir: real,
    altitude: real,
    velocity: real)

  /** The field values of a newly allocated position record. */
  const Unset: Fix := Fix(0.0, 0.0, 0.0, false, 0, 0.0, 0.0, 0.0)

  /** A position record, filled in field by field by one sentence parser. */
  class GpsPosition {
    var time: real
    var lat: real
    var lon: real
    var fixed: bool
    var quality: int
    var dir: real
    var altitude: real
    var velocity: real

    constructor ()
      ensures Snapshot() == Unset
    {
      time, lat, lon, fixed, quality := 0.0, 0.0, 0.0, false, 0;
      dir, altitude, velocity := 0.0, 0.0, 0.0;
    }

    /** The current field values. */
    function Snapshot(): Fix
      reads this
    {
      Fix(time, lat, lon, fixed, quality, dir, altitude, velocity)
    }

    /** Derives the fix flag from the quality indicator. */
    method UpdateFix()
      modifies this
      ensures Snapshot() == old(Snapshot()).(fixed := old(quality) > 0)
    {
      fixed := quality > 0;
    }
  }

  // ---------------------------------------------------------------------
  // Checksum

  /** The code of a character, as the int that String.codePointAt yields. */
  function Code(c: char): nat {
    c as int
  }

  /** Java's ^ on two non-negative ints: bitwise exclusive or, lowest bit first. */
  function Xor(a: nat, b: nat): nat
    decreases a + b
  {
    if a == 0 then b
    else if b == 0 then a
    else 2 * Xor(a / 2, b / 2) + (if a % 2 == b % 2 then 0 else 1)
  }

  /** The XOR of the codes of the characters of s, folded from the left. */
  function XorOf(s: string): nat {
    if s == [] then 0 else Xor(XorOf(s[..|s| - 1]), Code(s[|s| - 1]))
  }

  /** The characters the checksum covers: after an optional '$', up to the first '*'. */
  function ChecksumBody(line: string): (body: string)
    requires '*' in line
    ensures '*' !in body
    ensures |body| < |line|
  {
    var start := if line[0] == '$' then 1 else 0;
    line[start..IndexOf(line, '*')]
  }

  /** The checksum a sentence must carry. */
  function Checksum(line: string): int
    requires '*' in line
  {
    XorOf(ChecksumBody(line))
  }

  /** Folds the character codes of the checksummed part with XOR, one by one. */
  method CalculateChecksum(line: string) returns (checksum: int)
    requires '*' in line
    ensures checksum == Checksum(line)
  {
    var idx := if line[0] == '$' then 1 else 0;
    var body := line[idx..IndexOf(line, '*')];
    checksum := 0;
    for i := 0 to |body|
      invariant checksum == XorOf(body[..i])
    {
      assert body[..i + 1][..i] == body[..i];
      checksum := Xor(checksum, Code(body[i]));
    }
    assert body[..|body|] == body;
  }

  // ---------------------------------------------------------------------
  // Coordinates

  /**
    A coordinate field: degrees in the first degreeDigits characters,
    minutes in the rest, negated when the hemisphere field starts with the
    negative hemisphere's letter; an empty field is 0.
  */
  function CoordinateToDecimal(text: string, hemisphere: string, degreeDigits: nat, negative: char): Result<real> {
    if |text| == 0 then Ok(0.0)
    else if |text| < degreeDigits then Thrown(IndexOutOfBoundsException)
    else
      var minutes :- ParseFloat(text[degreeDigits..]);
      var degrees :- ParseFloat(text[..degreeDigits]);
      var med := minutes / 60.0 + degrees;
      Ok(if StartsWith(hemisphere, [negative]) then -med else med)
  }

  /** Latitude field "DDMM.mmmm" with hemisphere "N" or "S". */
  function Latitude2Decimal(lat: string, ns: string): Result<real> {
    CoordinateToDecimal(lat, ns, 2, 'S')
  }

  /** Longitude field "DDDMM.mmmm" with hemisphere "E" or "W". */
  function Longitude2Decimal(lon: string, we: string): Result<real> {
    CoordinateToDecimal(lon, we, 3, 'W')
  }

  // ---------------------------------------------------------------------
  // Sentence parsers

  /** The sentence types that have a parser. */
  datatype Tag = GPGGA | GPGGL | GPRMC | GPRMZ | GPVTG

  /** The registry from sentence tag to parser. */
  const SentenceParsers: map<string, Tag> :=
    map["GPGGA" := GPGGA, "GPGGL" := GPGGL, "GPRMC" := GPRMC, "GPRMZ" := GPRMZ, "GPVTG" := GPVTG]

  /** tokens[i], or the exception an array access out of bounds raises. */
  function Token(tokens: seq<string>, i: nat): Result<string> {
    if i < |tokens| then Ok(tokens[i]) else Thrown(IndexOutOfBoundsException)
  }

  /** Float.parseFloat(tokens[i]). */
  function FloatField(tokens: seq<string>, i: nat): Result<real> {
    var t :- Token(tokens, i);
    ParseFloat(t)
  }

  /** Latitude2Decimal(tokens[i], tokens[i + 1]). */
  function LatitudeField(tokens: seq<string>, i: nat): Result<real> {
    var lat :- Token(tokens, i);
    var ns :- Token(tokens, i + 1);
    Latitude2Decimal(lat, ns)
  }

  /** Longitude2Decimal(tokens[i], tokens[i + 1]). */
  function LongitudeField(tokens: seq<string>, i: nat): Result<real> {
    var lon :- Token(tokens, i);
    var we :- Token(tokens, i + 1);
    Longitude2Decimal(lon, we)
  }

  /** GGA: time, latitude, longitude, quality indicator and altitude. */
  function ApplyGpgga(tokens: seq<string>, f: Fix): Result<Fix> {
    var time :- FloatField(tokens, 1);
    var lat :- LatitudeField(tokens, 2);
    var lon :- LongitudeField(tokens, 4);
    var t6 :- Token(tokens, 6);
    var quality :- ParseInt(t6, 10);
    var altitude :- FloatField(tokens, 9);
    Ok(f.(time := time, lat := lat, lon := lon, quality := quality, altitude := altitude))
  }

  /** The "GPGGL" tag: latitude, longitude, then time. */
  function ApplyGpggl(tokens: seq<string>, f: Fix): Result<Fix> {
    var lat :- LatitudeField(tokens, 1);
    var lon :- LongitudeField(tokens, 3);
    var time :- FloatField(tokens, 5);
    Ok(f.(lat := lat, lon := lon, time := time))
  }

  /** The speed or course field of RMC: parsed when not empty, else the old value. */
  function OptionalFloatField(tokens: seq<string>, i: nat, old_value: real): Result<real> {
    var t :- Token(tokens, i);
    if |t| > 0 then ParseFloat(t) else Ok(old_value)
  }

  /** RMC: time, latitude, longitude, and speed and course when present. */
  function ApplyGprmc(tokens: seq<string>, f: Fix): Result<Fix> {
    var time :- FloatField(tokens, 1);
    var lat :- LatitudeField(tokens, 3);
    var lon :- LongitudeField(tokens, 5);
    var velocity :- OptionalFloatField(tokens, 7, f.velocity);
    var dir :- OptionalFloatField(tokens, 8, f.dir);
    Ok(f.(time := time, lat := lat, lon := lon, velocity := velocity, dir := dir))
  }

  /** VTG: the course only. */
  function ApplyGpvtg(tokens: seq<string>, f: Fix): Result<Fix> {
    var dir :- FloatField(tokens, 3);
    Ok(f.(dir := dir))
  }

  /** The "GPRMZ" tag: the altitude only. */
  function ApplyGprmz(tokens: seq<string>, f: Fix): Result<Fix> {
    var altitude :- FloatField(tokens, 1);
    Ok(f.(altitude := altitude))
  }

  function ApplyParser(tag: Tag, tokens: seq<string>, f: Fix): Result<Fix> {
    match tag
    case GPGGA => ApplyGpgga(tokens, f)
    case GPGGL => ApplyGpggl(tokens, f)
    case GPRMC => ApplyGprmc(tokens, f)
    case GPVTG => ApplyGpvtg(tokens, f)
    case GPRMZ => ApplyGprmz(tokens, f)
  }

  method ParseGpgga(tokens: seq<string>, position: GpsPosition) returns (c: Completion)
    modifies position
    ensures c == CompletionOf(ApplyGpgga(tokens, old(position.Snapshot())))
    ensures c.Normal? ==> position.Snapshot() == ApplyGpgga(tokens, old(position.Snapshot())).value
  {
    var time := FloatField(tokens, 1);
    if time.Thrown? { return Abrupt(time.exception); }
    position.time := time.value;
    var lat := LatitudeField(tokens, 2);
    if lat.Thrown? { return Abrupt(lat.exception); }
    position.lat := lat.value;
    var lon := LongitudeField(tokens, 4);
    if lon.Thrown? { return Abrupt(lon.exception); }
    position.lon := lon.value;
    if |tokens| <= 6 { return Abrupt(IndexOutOfBoundsException); }
    var quality := ParseInt(tokens[6], 10);
    if quality.Thrown? { return Abrupt(quality.exception); }
    position.quality := quality.value;
    var altitude := FloatField(tokens, 9);
    if altitude.Thrown? { return Abrupt(altitude.exception); }
    position.altitude := altitude.value;
    return Normal;
  }

  method ParseGpggl(tokens: seq<string>, position: GpsPosition) returns (c: Completion)
    modifies position
    ensures c == CompletionOf(ApplyGpggl(tokens, old(position.Snapshot())))
    ensures c.Normal? ==> position.Snapshot() == ApplyGpggl(tokens, old(position.Snapshot())).value
  {
    var lat := LatitudeField(tokens, 1);
    if lat.Thrown? { return Abrupt(lat.exception); }
    position.lat := lat.value;
    var lon := LongitudeField(tokens, 3);
    if lon.Thrown? { return Abrupt(lon.exception); }
    position.lon := lon.value;
    var time := FloatField(tokens, 5);
    if time.Thrown? { return Abrupt(time.exception); }
    position.time := time.value;
    return Normal;
  }

  method ParseGprmc(tokens: seq<string>, position: GpsPosition) returns (c: Completion)
    modifies position
    ensures c == CompletionOf(ApplyGprmc(tokens, old(position.Snapshot())))
    ensures c.Normal? ==> position.Snapshot() == ApplyGprmc(tokens, old(position.Snapshot())).value
  {
    var time := FloatField(tokens, 1);
    if time.Thrown? { return Abrupt(time.exception); }
    position.time := time.value;
    var lat := LatitudeField(tokens, 3);
    if lat.Thrown? { return Abrupt(lat.exception); }
    position.lat := lat.value;
    var lon := LongitudeField(tokens, 5);
    if lon.Thrown? { return Abrupt(lon.exception); }
    position.lon := lon.value;
    if |tokens| <= 7 { return Abrupt(IndexOutOfBoundsException); }
    if |tokens[7]| > 0 {
      var velocity := ParseFloat(tokens[7]);
      if velocity.Thrown? { return Abrupt(velocity.exception); }
      position.velocity := velocity.value;
    }
    if |tokens| <= 8 { return Abrupt(IndexOutOfBoundsException); }
    if |tokens[8]| > 0 {
      var dir := ParseFloat(tokens[8]);
      if dir.Thrown? { return Abrupt(dir.exception); }
      position.dir := dir.value;
    }
    return Normal;
  }

  method ParseGpvtg(tokens: seq<string>, position: GpsPosition) returns (c: Completion)
    modifies position
    ensures c == CompletionOf(ApplyGpvtg(tokens, old(position.Snapshot())))
    ensures c.Normal? ==> position.Snapshot() == ApplyGpvtg(tokens, old(position.Snapshot())).value
  {
    var dir := FloatField(tokens, 3);
    if dir.Thrown? { return Abrupt(dir.exception); }
    position.dir := dir.value;
    return Normal;
  }

  method ParseGprmz(tokens: seq<string>, position: GpsPosition) returns (c: Completion)
    modifies position
    ensures c == CompletionOf(ApplyGprmz(tokens, old(position.Snapshot())))
    ensures c.Normal? ==> position.Snapshot() == ApplyGprmz(tokens, old(position.Snapshot())).value
  {
    var altitude := FloatField(tokens, 1);
    if altitude.Thrown? { return Abrupt(altitude.exception); }
    position.altitude := altitude.value;
    return Normal;
  }

  /** Runs the parser registered for tag on the position. */
  method ParseSentence(tag: Tag, tokens: seq<string>, position: GpsPosition) returns (c: Completion)
    modifies position
    ensures c == CompletionOf(ApplyParser(tag, tokens, old(position.Snapshot())))
    ensures c.Normal? ==> position.Snapshot() == ApplyParser(tag, tokens, old(position.Snapshot())).value
  {
    match tag
    case GPGGA => c := ParseGpgga(tokens, position);
    case GPGGL => c := ParseGpggl(tokens, position);
    case GPRMC => c := ParseGprmc(tokens, position);
    case GPVTG => c := ParseGpvtg(tokens, position);
    case GPRMZ => c := ParseGprmz(tokens, position);
  }

  // ---------------------------------------------------------------------
  // Whole sentences

  /** What decoding one line yields: a record, null, or an exception that escapes. */
  datatype Decoded = Position(fix: Fix) | NoPosition | Escaped(exception: Exception)

  /** Starts with '$' and holds a '*'. */
  predicate Framed(line: string) {
    StartsWith(line, "$") && '*' in line
  }

  /** The text after the first '*', read as the declared checksum. */
  function DeclaredChecksum(nmea: string): Result<int>
    requires '*' in nmea
  {
    ParseInt(nmea[IndexOf(nmea, '*') + 1..], 16)
  }

  /** What the parser for the tokens' tag yields, with the fix flag derived. */
  function DecodeTokens(tokens: seq<string>): (r: Decoded)
    ensures r.Position? ==> r.fix.fixed == (r.fix.quality > 0)
  {
    if |tokens| == 0 then Escaped(IndexOutOfBoundsException)
    else if tokens[0] !in SentenceParsers then NoPosition
    else
      match ApplyParser(SentenceParsers[tokens[0]], tokens, Unset)
      case Ok(f) => Position(f.(fixed := f.quality > 0))
      case Thrown(e) => if e == NumberFormatException then NoPosition else Escaped(e)
  }

  /** What decoding the line yields. */
  function Decode(line: string): (r: Decoded)
    ensures !Framed(line) ==> r == NoPosition
    ensures r.Position? ==> r.fix.fixed == (r.fix.quality > 0)
  {
    if !Framed(line) then NoPosition
    else
      var nmea := line[1..];
      assert '*' in nmea by { assert line == [line[0]] + nmea; }
      match DeclaredChecksum(nmea)
      case Thrown(e) => Escaped(e)
      case Ok(listed) =>
        if listed != Checksum(nmea) then NoPosition
        else DecodeTokens(Split(nmea, ','))
  }

  /** What Parse returns: a record, null, or an exception that escapes. */
  datatype ParseResult = Parsed(position: GpsPosition) | Null | Raised(exception: Exception)

  /** Decodes one line into a freshly allocated position record. */
  method Parse(line: string) returns (result: ParseResult)
    ensures result.Parsed? <==> Decode(line).Position?
    ensures result.Parsed? ==> fresh(result.position) && result.position.Snapshot() == Decode(line).fix
    ensures result.Null? <==> Decode(line).NoPosition?
    ensures result.Raised? ==> Decode(line) == Escaped(result.exception)
  {
    if !(StartsWith(line, "$") && '*' in line) {
      return Null;
    }
    var nmea := line[1..];
    assert '*' in nmea by { assert line == [line[0]] + nmea; }
    var listedChecksum := ParseInt(nmea[IndexOf(nmea, '*') + 1..], 16);
    if listedChecksum.Thrown? {
      return Raised(listedChecksum.exception);
    }
    var computedChecksum := CalculateChecksum(nmea);
    if listedChecksum.value != computedChecksum {
      return Null;
    }
    var tokens := Split(nmea, ',');
    assert Decode(line) == DecodeTokens(tokens);
    if |tokens| == 0 {
      return Raised(IndexOutOfBoundsException);
    }
    var sentenceType := tokens[0];
    if sentenceType !in SentenceParsers {
      return Null;
    }
    var position := new GpsPosition();
    var completion := ParseSentence(SentenceParsers[sentenceType], tokens, position);
    if completion.Normal? {
      position.UpdateFix();
      return Parsed(position);
    } else if completion.exception == NumberFormatException {
      return Null;
    } else {
      return Raised(completion.exception);
    }
  }
}
