/**
  The parts of the Java platform the tracker relies on, stated over Dafny
  values: the exceptions it can raise, the java.lang.String operations it
  calls, and the number parsers Integer.parseInt and Float.parseFloat.
  Strings are sequences of characters; numbers parsed from text are exact
  reals rather than IEEE floats.
*/
module JavaLang {

  /** The exceptions the modelled code can raise or catch. */
  datatype Exception =
    | NumberFormatException
    | IndexOutOfBoundsException  // ArrayIndexOutOfBounds and StringIndexOutOfBounds
    | IOException

  /** A computation that yields a value or throws. */
  datatype Result<+T> = Ok(value: T) | Thrown(exception: Exception) {
    predicate IsFailure() { Thrown? }
    function PropagateFailure<U>(): Result<U> requires Thrown? { Thrown(exception) }
    function Extract(): T requires Ok? { value }
  }

  /** How a statement sequence with no result completes. */
  datatype Completion = Normal | Abrupt(exception: Exception)

  function CompletionOf<T>(r: Result<T>): Completion {
    if r.Ok? then Normal else Abrupt(r.exception)
  }

  /** A Java reference that may be null. */
  datatype Option<+T> = None | Some(value: T)

  const IntMin: int := -0x8000_0000
  const IntMax: int := 0x7FFF_FFFF

  // ---------------------------------------------------------------------
  // java.lang.String

  predicate StartsWith(s: string, prefix: string) {
    |prefix| <= |s| && s[..|prefix|] == prefix
  }

  /** String.indexOf(char): the first position of c, or -1. */
  function IndexOf(s: string, c: char): (r: int)
    ensures -1 <= r < |s|
    ensures r == -1 <==> c !in s
    ensures 0 <= r ==> s[r] == c && c !in s[..r]
    decreases |s|
  {
    if |s| == 0 then -1
    else if s[0] == c then 0
    else
      var i := IndexOf(s[1..], c);
      assert s[1..][..i + 1] == s[1..i + 2] by { }
      if i < 0 then -1 else
        assert s[..i + 1] == [s[0]] + s[1..][..i];
        i + 1
  }

  /**
    The pieces of s between occurrences of sep, in order, including empty
    ones; there is always one more piece than there are separators.
  */
  function Pieces(s: string, sep: char): (r: seq<string>)
    ensures |r| >= 1
    ensures forall i :: 0 <= i < |r| ==> sep !in r[i]
    decreases |s|
  {
    var i := IndexOf(s, sep);
    if i < 0 then [s] else
      var rest := Pieces(s[i + 1..], sep);
      FreeOfSeparator(s[..i], rest, sep);
      [s[..i]] + rest
  }

  lemma FreeOfSeparator(first: string, rest: seq<string>, sep: char)
    requires sep !in first
    requires forall i :: 0 <= i < |rest| ==> sep !in rest[i]
    ensures forall i :: 0 <= i < |rest| + 1 ==> sep !in ([first] + rest)[i]
  {
  }

  /** The pieces glued back together with sep between consecutive ones. */
  function Join(parts: seq<string>, sep: char): string
    requires |parts| >= 1
  {
    if |parts| == 1 then parts[0] else parts[0] + [sep] + Join(parts[1..], sep)
  }

  /** Drops the empty strings at the end, as String.split with limit 0 does. */
  function DropTrailingEmpty(parts: seq<string>): (r: seq<string>)
    ensures |r| <= |parts| && r == parts[..|r|]
    ensures r == [] || r[|r| - 1] != []
    ensures forall i :: |r| <= i < |parts| ==> parts[i] == []
  {
    if parts == [] || parts[|parts| - 1] != [] then parts
    else DropTrailingEmpty(parts[..|parts| - 1])
  }

  /**
    String.split on a one-character separator: the whole string when the
    separator does not occur, otherwise the pieces without trailing empty
    ones.
  */
  function Split(s: string, sep: char): (r: seq<string>)
    ensures forall i :: 0 <= i < |r| ==> sep !in r[i]
    ensures sep !in s ==> r == [s]
    ensures sep in s ==>
      var ps := Pieces(s, sep);
      && |r| <= |ps| && r == ps[..|r|]
      && (r == [] || r[|r| - 1] != [])
      && forall i :: |r| <= i < |ps| ==> ps[i] == []
  {
    if sep !in s then [s] else DropTrailingEmpty(Pieces(s, sep))
  }

  /** How many characters of code at most 32 String.trim drops at the front. */
  function TrimStart(s: string): (i: nat)
    ensures i <= |s|
    ensures forall k :: 0 <= k < i ==> s[k] <= ' '
    ensures i < |s| ==> s[i] > ' '
    decreases |s|
  {
    if s == [] || s[0] > ' ' then 0 else 1 + TrimStart(s[1..])
  }

  /** Where String.trim ends the result, given that it starts at start. */
  function TrimEnd(s: string, start: nat): (j: nat)
    requires start <= |s|
    ensures start <= j <= |s|
    ensures forall k :: j <= k < |s| ==> s[k] <= ' '
    ensures start < j ==> s[j - 1] > ' '
    decreases |s|
  {
    if |s| == start || s[|s| - 1] > ' ' then |s| else TrimEnd(s[..|s| - 1], start)
  }

  /** Every character has code at most 32. */
  predicate AllBlank(t: string) {
    forall k :: 0 <= k < |t| ==> t[k] <= ' '
  }

  /** String.trim: removes leading and trailing characters of code at most 32. */
  function Trim(s: string): (r: string)
    ensures |r| <= |s|
    ensures r == [] || (r[0] > ' ' && r[|r| - 1] > ' ')
    ensures s != [] && s[0] > ' ' && s[|s| - 1] > ' ' ==> r == s
    ensures (forall k :: 0 <= k < |s| ==> s[k] <= ' ') ==> r == []
  {
    var i := TrimStart(s);
    s[i..TrimEnd(s, i)]
  }
  /** What String.trim returns is a stretch of s with only blanks before and after it. */
  lemma TrimIsStretch(s: string)
    ensures exists i, j :: 0 <= i <= j <= |s| && Trim(s) == s[i..j] && AllBlank(s[..i]) && AllBlank(s[j..])
  {
    var i := TrimStart(s);
    var j := TrimEnd(s, i);
    assert AllBlank(s[..i]) by {
      forall k | 0 <= k < i ensures s[..i][k] <= ' ' {
        assert s[..i][k] == s[k];
      }
    }
    assert AllBlank(s[j..]) by {
      forall k | 0 <= k < |s| - j ensures s[j..][k] <= ' ' {
        assert s[j..][k] == s[j + k];
      }
    }
  }


  // ---------------------------------------------------------------------
  // Digits and powers of ten

  /** Character.digit for ASCII digits and letters: the value, or -1. */
  function DigitValue(c: char, radix: nat): (d: int)
    ensures -1 <= d < radix
  {
    var v :=
      if '0' <= c <= '9' then c as int - '0' as int
      else if 'a' <= c <= 'z' then c as int - 'a' as int + 10
      else if 'A' <= c <= 'Z' then c as int - 'A' as int + 10
      else -1;
    if 0 <= v < radix then v else -1
  }

  predicate IsDigits(s: string, radix: nat) {
    forall k :: 0 <= k < |s| ==> DigitValue(s[k], radix) >= 0
  }

  /** The value of a string of digits read most significant first. */
  function DigitsValue(s: string, radix: nat): nat
    requires IsDigits(s, radix)
  {
    if s == [] then 0
    else DigitsValue(s[..|s| - 1], radix) * radix + DigitValue(s[|s| - 1], radix)
  }

  // ---------------------------------------------------------------------
  // Integer.parseInt

  /** Where the digits of an integer literal start: after its sign, if it has one. */
  function DigitStart(s: string): nat {
    if s != [] && (s[0] == '-' || s[0] == '+') then 1 else 0
  }

  /** An optional sign followed by at least one digit. */
  predicate IsIntLiteral(s: string, radix: nat) {
    DigitStart(s) < |s| && IsDigits(s[DigitStart(s)..], radix)
  }

  /** The signed value an integer literal denotes. */
  function IntLiteralValue(s: string, radix: nat): int
    requires IsIntLiteral(s, radix)
  {
    var magnitude: int := DigitsValue(s[DigitStart(s)..], radix);
    if s[0] == '-' then -magnitude else magnitude
  }

  /**
    Integer.parseInt(s, radix): an optional sign and at least one digit,
    whose value must fit in 32 bits; anything else throws
    NumberFormatException.
  */
  function ParseInt(s: string, radix: nat): (r: Result<int>)
    ensures r.Ok? ==> IntMin <= r.value <= IntMax
    ensures r.Thrown? ==> r.exception == NumberFormatException
  {
    if s == [] then Thrown(NumberFormatException)
    else
      var start := if s[0] == '-' || s[0] == '+' then 1 else 0;
      if start == |s| then Thrown(NumberFormatException)
      else
        match Accumulate(s, start, radix, 0)
        case None => Thrown(NumberFormatException)
        case Some(magnitude) =>
          var v := if s[0] == '-' then -(magnitude as int) else magnitude;
          if IntMin <= v <= IntMax then Ok(v) else Thrown(NumberFormatException)
  }

  /** Reads the digits of s from index i on into acc, or None at a non-digit. */
  function Accumulate(s: string, i: nat, radix: nat, acc: nat): Option<nat>
    requires i <= |s|
    decreases |s| - i
  {
    if i == |s| then Some(acc)
    else
      var d := DigitValue(s[i], radix);
      if d < 0 then None else Accumulate(s, i + 1, radix, acc * radix + d)
  }

  // ---------------------------------------------------------------------
  // Float.parseFloat

  /** x times ten to the power e, one decimal place at a time. */
  function Shift(x: real, e: int): real
    decreases if e < 0 then -e else e
  {
    if e == 0 then x
    else if e > 0 then Shift(x * 10.0, e - 1)
    else Shift(x / 10.0, e + 1)
  }

  /** Where the scanner of a decimal floating-point literal stands. */
  datatype Phase =
    | Leading         // blanks before the literal
    | Signed          // just after its '+' or '-'
    | IntegerPart     // among the digits before a '.'
    | FractionPart    // after the '.'
    | ExponentMark    // just after 'e' or 'E'
    | ExponentSign    // just after the exponent's '+' or '-'
    | ExponentDigits  // among the exponent's digits
    | Suffixed        // just after a trailing 'f', 'F', 'd' or 'D'
    | Trailing        // blanks after the literal

  /** What the scanner has read of the literal so far. */
  datatype Literal = Literal(
    negative: bool,
    mantissa: nat,          // every digit of the significand, read as one integer
    digits: nat,            // how many digits the significand has
    fractionDigits: nat,    // how many of them follow the '.'
    exponentNegative: bool,
    exponent: nat)
  {
    /** The exact value the literal denotes. */
    function Value(): real {
      var e: int := (if exponentNegative then -(exponent as int) else exponent) - fractionDigits;
      var magnitude := Shift(mantissa as real, e);
      if negative then -magnitude else magnitude
    }

    /** The literal with one more significand digit. */
    function WithDigit(d: nat): Literal {
      this.(mantissa := mantissa * 10 + d, digits := digits + 1)
    }
  }

  const EmptyLiteral := Literal(false, 0, 0, 0, false, 0)

  /** A character String.trim removes from the ends. */
  predicate IsBlank(c: char) {
    c <= ' '
  }

  predicate IsDecimalDigit(c: char) {
    '0' <= c <= '9'
  }

  /** What may follow a complete significand or exponent. */
  function AfterNumber(lit: Literal, c: char): Option<(Phase, Literal)> {
    if c == 'f' || c == 'F' || c == 'd' || c == 'D' then Some((Suffixed, lit))
    else if IsBlank(c) then Some((Trailing, lit))
    else None
  }

  /** What may follow a significand: an exponent, a type suffix or blanks. */
  function AfterSignificand(lit: Literal, c: char): Option<(Phase, Literal)> {
    if c == 'e' || c == 'E' then Some((ExponentMark, lit)) else AfterNumber(lit, c)
  }

  /** How the significand may start: a digit or the '.'. */
  function StartSignificand(lit: Literal, c: char): Option<(Phase, Literal)> {
    if IsDecimalDigit(c) then Some((IntegerPart, lit.WithDigit(c as int - '0' as int)))
    else if c == '.' then Some((FractionPart, lit))
    else None
  }

  /** One step of the scanner on character c, or None when c cannot come next. */
  function Step(phase: Phase, lit: Literal, c: char): Option<(Phase, Literal)> {
    var d := c as int - '0' as int;
    match phase
    case Leading =>
      if IsBlank(c) then Some((Leading, lit))
      else if c == '-' then Some((Signed, lit.(negative := true)))
      else if c == '+' then Some((Signed, lit))
      else StartSignificand(lit, c)
    case Signed => StartSignificand(lit, c)
    case IntegerPart =>
      if IsDecimalDigit(c) then Some((IntegerPart, lit.WithDigit(d)))
      else if c == '.' then Some((FractionPart, lit))
      else AfterSignificand(lit, c)
    case FractionPart =>
      if IsDecimalDigit(c) then Some((FractionPart, lit.WithDigit(d).(fractionDigits := lit.fractionDigits + 1)))
      else if lit.digits == 0 then None
      else AfterSignificand(lit, c)
    case ExponentMark =>
      if c == '-' then Some((ExponentSign, lit.(exponentNegative := true)))
      else if c == '+' then Some((ExponentSign, lit))
      else if IsDecimalDigit(c) then Some((ExponentDigits, lit.(exponent := d)))
      else None
    case ExponentSign =>
      if IsDecimalDigit(c) then Some((ExponentDigits, lit.(exponent := d))) else None
    case ExponentDigits =>
      if IsDecimalDigit(c) then Some((ExponentDigits, lit.(exponent := lit.exponent * 10 + d)))
      else AfterNumber(lit, c)
    case Suffixed => if IsBlank(c) then Some((Trailing, lit)) else None
    case Trailing => if IsBlank(c) then Some((Trailing, lit)) else None
  }

  /** Whether the text may end in this phase: the literal is complete. */
  predicate Accepting(phase: Phase, lit: Literal) {
    match phase
    case IntegerPart | ExponentDigits | Suffixed | Trailing => true
    case FractionPart => lit.digits > 0
    case _ => false
  }

  /** Scans s from index i on: the literal read, or None when s is not one. */
  function Scan(s: string, i: nat, phase: Phase, lit: Literal): Option<Literal>
    requires i <= |s|
    decreases |s| - i
  {
    if i == |s| then (if Accepting(phase, lit) then Some(lit) else None)
    else
      match Step(phase, lit, s[i])
      case None => None
      case Some(next) => Scan(s, i + 1, next.0, next.1)
  }

  /** The characters a decimal floating-point literal, with blanks around it, can contain. */
  predicate IsLiteralChar(c: char) {
    IsBlank(c) || IsDecimalDigit(c) || c in "+-.eEfFdD"
  }

  /**
    Float.parseFloat over exact reals: blanks around the literal are
    ignored; the literal is an optional sign, decimal digits with at most
    one '.' and at least one digit, an optional exponent and an optional
    f/F/d/D suffix. Anything else throws NumberFormatException.
  */
  function ParseFloat(s: string): (r: Result<real>)
    ensures r.Thrown? ==> r.exception == NumberFormatException
    ensures (forall k :: 0 <= k < |s| ==> !IsDecimalDigit(s[k])) ==> r.Thrown?
    ensures r.Ok? ==> forall k :: 0 <= k < |s| ==> IsLiteralChar(s[k])
  {
    ScanCharacters(s, 0, Leading, EmptyLiteral);
    ScanNeedsDigit(s, 0, Leading, EmptyLiteral);
    match Scan(s, 0, Leading, EmptyLiteral)
    case None => Thrown(NumberFormatException)
    case Some(lit) => Ok(lit.Value())
  }

  /** The scanner accepts only text made of literal characters. */
  lemma {:induction false} ScanCharacters(s: string, i: nat, phase: Phase, lit: Literal)
    requires i <= |s|
    ensures Scan(s, i, phase, lit).Some? ==> forall k :: i <= k < |s| ==> IsLiteralChar(s[k])
    decreases |s| - i
  {
    if i < |s| {
      match Step(phase, lit, s[i])
      case None =>
      case Some(next) =>
        ScanCharacters(s, i + 1, next.0, next.1);
    }
  }

  /**
    Before the first digit the scanner is among the blanks, after the sign
    or after a '.', and none of these can end the literal: text without a
    digit is rejected.
  */
  lemma {:induction false} ScanNeedsDigit(s: string, i: nat, phase: Phase, lit: Literal)
    requires i <= |s|
    requires (phase == Leading || phase == Signed || phase == FractionPart) && lit.digits == 0
    ensures (forall k :: i <= k < |s| ==> !IsDecimalDigit(s[k])) ==> Scan(s, i, phase, lit).None?
    decreases |s| - i
  {
    if i < |s| && !IsDecimalDigit(s[i]) {
      match Step(phase, lit, s[i])
      case None =>
      case Some(next) =>
        ScanNeedsDigit(s, i + 1, next.0, next.1);
    }
  }

  // ---------------------------------------------------------------------
  // Lemmas

  /** Join on a first part followed by at least one more. */
  lemma JoinFirst(first: string, rest: seq<string>, sep: char)
    requires |rest| >= 1
    ensures Join([first] + rest, sep) == first + [sep] + Join(rest, sep)
  {
    assert ([first] + rest)[1..] == rest;
  }

  /** Splitting at a separator and joining the pieces gives back the string. */
  lemma {:induction false} JoinPieces(s: string, sep: char)
    ensures Join(Pieces(s, sep), sep) == s
    decreases |s|
  {
    var i := IndexOf(s, sep);
    if i >= 0 {
      var rest := s[i + 1..];
      JoinFirst(s[..i], Pieces(rest, sep), sep);
      JoinPieces(rest, sep);
      assert s == s[..i] + [sep] + rest;
    }
  }

  /** Joining separator-free parts and splitting again gives back the parts. */
  lemma {:induction false} PiecesJoin(parts: seq<string>, sep: char)
    requires |parts| >= 1
    requires forall i :: 0 <= i < |parts| ==> sep !in parts[i]
    ensures Pieces(Join(parts, sep), sep) == parts
  {
    var s := Join(parts, sep);
    if |parts| == 1 {
      assert IndexOf(s, sep) == -1;
    } else {
      var rest := Join(parts[1..], sep);
      assert s == parts[0] + [sep] + rest;
      assert s[|parts[0]|] == sep;
      assert s[..|parts[0]|] == parts[0];
      assert IndexOf(s, sep) == |parts[0]|;
      assert s[|parts[0]| + 1..] == rest;
      PiecesJoin(parts[1..], sep);
    }
  }

  /** When the last piece is not empty, Split keeps every piece. */
  lemma SplitKeepsPieces(s: string, sep: char)
    requires sep in s
    requires Pieces(s, sep)[|Pieces(s, sep)| - 1] != []
    ensures Split(s, sep) == Pieces(s, sep)
  {
  }

  /** Changing a character other than c before its first occurrence keeps IndexOf. */
  lemma {:induction false} IndexOfAfterUpdate(s: string, c: char, k: nat, d: char)
    requires k < |s| && k < IndexOf(s, c) && d != c
    ensures IndexOf(s[k := d], c) == IndexOf(s, c)
  {
    var i := IndexOf(s, c);
    var t := s[k := d];
    assert t[i] == c;
    assert t[..i] == s[..i][k := d];
    assert c !in t[..i] by {
      forall j | 0 <= j < i ensures t[j] != c {
        if j != k { assert t[j] == s[..i][j]; }
      }
    }
  }

  /** Appending a digit multiplies the value of a digit string by the radix and adds the digit. */
  lemma DigitsValueSnoc(s: string, c: char, radix: nat)
    requires IsDigits(s, radix) && DigitValue(c, radix) >= 0
    ensures IsDigits(s + [c], radix)
    ensures DigitsValue(s + [c], radix) == DigitsValue(s, radix) * radix + DigitValue(c, radix)
  {
    assert (s + [c])[..|s|] == s;
  }

  /** Accumulating the digits from i on continues the value of the digits before i. */
  lemma {:induction false} AccumulateDigits(s: string, i: nat, radix: nat)
    requires i <= |s| && IsDigits(s, radix)
    ensures IsDigits(s[..i], radix)
    ensures Accumulate(s, i, radix, DigitsValue(s[..i], radix)) == Some(DigitsValue(s, radix))
    decreases |s| - i
  {
    assert forall k :: 0 <= k < i ==> s[..i][k] == s[k];
    if i == |s| {
      assert s[..i] == s;
    } else {
      DigitsValueSnoc(s[..i], s[i], radix);
      assert s[..i] + [s[i]] == s[..i + 1];
      AccumulateDigits(s, i + 1, radix);
    }
  }

  /** Accumulating from index i of s is accumulating from index i - 1 of s without its first character. */
  lemma {:induction false} AccumulateShift(s: string, i: nat, radix: nat, acc: nat)
    requires 1 <= i <= |s|
    ensures Accumulate(s, i, radix, acc) == Accumulate(s[1..], i - 1, radix, acc)
    decreases |s| - i
  {
    if i < |s| {
      assert s[1..][i - 1] == s[i];
      var d := DigitValue(s[i], radix);
      if d >= 0 {
        AccumulateShift(s, i + 1, radix, acc * radix + d);
      }
    }
  }

  /** A non-digit at or after index i stops the accumulation. */
  lemma {:induction false} AccumulateNonDigit(s: string, i: nat, radix: nat, acc: nat, k: nat)
    requires i <= k < |s| && DigitValue(s[k], radix) < 0
    ensures Accumulate(s, i, radix, acc) == None
    decreases k - i
  {
    if i < k {
      var d := DigitValue(s[i], radix);
      if d >= 0 {
        AccumulateNonDigit(s, i + 1, radix, acc * radix + d, k);
      }
    }
  }

  /** From the start of the digits, Accumulate reads their value, or fails at a non-digit. */
  lemma AccumulateFrom(s: string, start: nat, radix: nat)
    requires start <= 1 && start <= |s|
    ensures Accumulate(s, start, radix, 0)
         == if IsDigits(s[start..], radix) then Some(DigitsValue(s[start..], radix)) else None
  {
    var t := s[start..];
    if start == 1 {
      AccumulateShift(s, 1, radix, 0);
    } else {
      assert t == s;
    }
    assert Accumulate(s, start, radix, 0) == Accumulate(t, 0, radix, 0);
    if IsDigits(t, radix) {
      AccumulateDigits(t, 0, radix);
      assert t[..0] == [];
    } else {
      var k :| 0 <= k < |t| && DigitValue(t[k], radix) < 0;
      AccumulateNonDigit(t, 0, radix, 0, k);
    }
  }

  /**
    parseInt succeeds exactly on an optional sign and at least one digit
    whose signed value fits in 32 bits, and yields that value.
  */
  lemma ParseIntValue(s: string, radix: nat)
    ensures ParseInt(s, radix).Ok? <==> IsIntLiteral(s, radix) && IntMin <= IntLiteralValue(s, radix) <= IntMax
    ensures ParseInt(s, radix).Ok? ==> ParseInt(s, radix).value == IntLiteralValue(s, radix)
  {
    if DigitStart(s) < |s| {
      AccumulateFrom(s, DigitStart(s), radix);
    }
  }

  /** A character that is not a digit, after the optional sign, makes parseInt throw. */
  lemma ParseIntRejectsNonDigit(s: string, radix: nat, k: nat)
    requires DigitStart(s) <= k < |s| && DigitValue(s[k], radix) < 0
    ensures ParseInt(s, radix) == Thrown(NumberFormatException)
  {
    ParseIntValue(s, radix);
    assert s[DigitStart(s)..][k - DigitStart(s)] == s[k];
  }

  /** A sign with no digits after it makes parseInt throw. */
  lemma ParseIntRejectsBareSign(radix: nat)
    ensures ParseInt("-", radix) == Thrown(NumberFormatException)
    ensures ParseInt("+", radix) == Thrown(NumberFormatException)
    ensures ParseInt("", radix) == Thrown(NumberFormatException)
  {
  }

  /** An unsigned string of digits whose value fits in an int parses to that value. */
  lemma ParseIntOfDigits(s: string, radix: nat)
    requires s != [] && IsDigits(s, radix) && DigitsValue(s, radix) <= IntMax
    ensures ParseInt(s, radix) == Ok(DigitsValue(s, radix))
  {
    ParseIntValue(s, radix);
    assert s[DigitStart(s)..] == s;
  }

  /** A minus sign before digits negates their value, down to the least int. */
  lemma ParseIntOfNegativeDigits(d: string, radix: nat)
    requires d != [] && IsDigits(d, radix) && DigitsValue(d, radix) <= -IntMin
    ensures ParseInt("-" + d, radix) == Ok(-(DigitsValue(d, radix) as int))
  {
    ParseIntValue("-" + d, radix);
    assert ("-" + d)[DigitStart("-" + d)..] == d;
  }

  /** The literal after a run of digits: they join the significand, and the fraction when after the '.'. */
  function Advance(lit: Literal, phase: Phase, consumed: string, run: string): Literal
    requires IsDigits(consumed + run, 10)
  {
    lit.(mantissa := DigitsValue(consumed + run, 10),
         digits := lit.digits + |run|,
         fractionDigits := lit.fractionDigits + if phase == FractionPart then |run| else 0)
  }

  /**
    Scanning a run of digits before or after the '.' only accumulates
    them: the significand read so far is the value of all digits consumed.
  */
  lemma {:induction false} ScanRun(s: string, i: nat, j: nat, phase: Phase, lit: Literal, consumed: string)
    requires i <= j <= |s| && IsDigits(s[i..j], 10) && IsDigits(consumed, 10)
    requires phase == IntegerPart || phase == FractionPart
    requires lit.mantissa == DigitsValue(consumed, 10)
    ensures IsDigits(consumed + s[i..j], 10)
    ensures Scan(s, i, phase, lit) == Scan(s, j, phase, Advance(lit, phase, consumed, s[i..j]))
    decreases j - i
  {
    if i == j {
      assert consumed + s[i..j] == consumed;
    } else {
      var c := s[i];
      SplitRun(s, i, j, consumed);
      StepOnDigit(phase, lit, c, consumed);
      var next := Advance(lit, phase, consumed, [c]);
      ScanStep(s, i, phase, lit, (phase, next));
      ScanRun(s, i + 1, j, phase, next, consumed + [c]);
      AdvanceTwice(lit, phase, consumed, [c], s[i + 1..j]);
    }
  }

  /** A run of digits is its first digit followed by a shorter run. */
  lemma SplitRun(s: string, i: nat, j: nat, consumed: string)
    requires i < j <= |s| && IsDigits(s[i..j], 10)
    ensures DigitValue(s[i], 10) >= 0 && IsDigits(s[i + 1..j], 10)
    ensures (consumed + [s[i]]) + s[i + 1..j] == consumed + s[i..j]
    ensures [s[i]] + s[i + 1..j] == s[i..j]
  {
    assert s[i..j][0] == s[i];
    forall k | i + 1 <= k < j ensures DigitValue(s[k], 10) >= 0 {
      assert s[k] == s[i..j][k - i];
    }
    assert s[i..j] == [s[i]] + s[i + 1..j];
  }

  /** Two runs of digits accumulated one after the other are one longer run. */
  lemma AdvanceTwice(lit: Literal, phase: Phase, consumed: string, run1: string, run2: string)
    requires IsDigits(consumed + run1, 10) && IsDigits((consumed + run1) + run2, 10)
    ensures IsDigits(consumed + (run1 + run2), 10)
    ensures Advance(Advance(lit, phase, consumed, run1), phase, consumed + run1, run2)
         == Advance(lit, phase, consumed, run1 + run2)
  {
    assert (consumed + run1) + run2 == consumed + (run1 + run2);
  }

  /** One character the scanner accepts moves it on to the next. */
  lemma ScanStep(s: string, i: nat, phase: Phase, lit: Literal, next: (Phase, Literal))
    requires i < |s| && Step(phase, lit, s[i]) == Some(next)
    ensures Scan(s, i, phase, lit) == Scan(s, i + 1, next.0, next.1)
  {
  }

  /** In the significand, a digit joins the literal and the scanner stays where it is. */
  lemma StepOnDigit(phase: Phase, lit: Literal, c: char, consumed: string)
    requires phase == IntegerPart || phase == FractionPart
    requires DigitValue(c, 10) >= 0 && IsDigits(consumed, 10) && lit.mantissa == DigitsValue(consumed, 10)
    ensures IsDigits(consumed + [c], 10)
    ensures Step(phase, lit, c) == Some((phase, Advance(lit, phase, consumed, [c])))
  {
    DigitsValueSnoc(consumed, c, 10);
  }

  /** A non-empty string of decimal digits parses to its value. */
  lemma ParseFloatOfDigits(s: string)
    requires s != [] && IsDigits(s, 10)
    ensures ParseFloat(s) == Ok(DigitsValue(s, 10) as real)
  {
    assert DigitValue(s[0], 10) >= 0;
    StepOnFirstDigit(s[0]);
    var lit := Literal(false, DigitsValue([s[0]], 10), 1, 0, false, 0);
    ScanRun(s, 1, |s|, IntegerPart, lit, [s[0]]);
    assert [s[0]] + s[1..|s|] == s;
  }

  /** A leading digit starts the significand with its value. */
  lemma StepOnFirstDigit(c: char)
    requires DigitValue(c, 10) >= 0
    ensures IsDigits([c], 10)
    ensures Step(Leading, EmptyLiteral, c) == Some((IntegerPart, Literal(false, DigitsValue([c], 10), 1, 0, false, 0)))
  {
    var d := c as int - '0' as int;
    assert '0' <= c <= '9' && DigitValue(c, 10) == d;
    DigitsValueSnoc([], c, 10);
    assert [] + [c] == [c];
    assert !IsBlank(c) && c != '-' && c != '+';
    assert Step(Leading, EmptyLiteral, c) == StartSignificand(EmptyLiteral, c);
    assert EmptyLiteral.WithDigit(d) == Literal(false, d, 1, 0, false, 0);
  }

  /** Scanning the digits before the '.' and the '.' itself leaves the integer part in the significand. */
  lemma ScanToPoint(a: string, b: string)
    requires IsDigits(a, 10)
    ensures Scan(a + "." + b, 0, Leading, EmptyLiteral)
         == Scan(a + "." + b, |a| + 1, FractionPart, Literal(false, DigitsValue(a, 10), |a|, 0, false, 0))
  {
    var s := a + "." + b;
    var p := |a|;
    assert s[p] == '.';
    if a == [] {
      assert Step(Leading, EmptyLiteral, '.') == Some((FractionPart, EmptyLiteral));
    } else {
      assert DigitValue(a[0], 10) >= 0;
      StepOnFirstDigit(a[0]);
      var first := Literal(false, DigitsValue([a[0]], 10), 1, 0, false, 0);
      assert s[1..p] == a[1..];
      ScanRun(s, 1, p, IntegerPart, first, [a[0]]);
      assert [a[0]] + a[1..] == a;
      var atPoint := Advance(first, IntegerPart, [a[0]], a[1..]);
      assert Step(IntegerPart, atPoint, '.') == Some((FractionPart, atPoint));
    }
  }

  /** Digits, a '.', and digits, with at least one digit, parse to their decimal value. */
  lemma ParseFloatOfDecimal(a: string, b: string)
    requires IsDigits(a, 10) && IsDigits(b, 10) && |a| + |b| > 0
    ensures IsDigits(a + b, 10)
    ensures ParseFloat(a + "." + b) == Ok(Shift(DigitsValue(a + b, 10) as real, -|b|))
  {
    var s := a + "." + b;
    var p := |a|;
    assert s[p + 1..|s|] == b;
    ScanToPoint(a, b);
    var atPoint := Literal(false, DigitsValue(a, 10), |a|, 0, false, 0);
    ScanRun(s, p + 1, |s|, FractionPart, atPoint, a);
    var lit := Advance(atPoint, FractionPart, a, b);
    assert lit == Literal(false, DigitsValue(a + b, 10), |a| + |b|, |b|, false, 0);
    assert Scan(s, |s|, FractionPart, lit) == Some(lit);
    ParseFloatOfScan(s, lit);
    UnsignedFractionValue(lit);
  }

  /** A literal without sign or exponent denotes its significand shifted by its fraction digits. */
  lemma UnsignedFractionValue(lit: Literal)
    requires !lit.negative && !lit.exponentNegative && lit.exponent == 0
    ensures lit.Value() == Shift(lit.mantissa as real, -(lit.fractionDigits as int))
  {
  }

  /** ParseFloat yields the value of the literal the scanner reads. */
  lemma ParseFloatOfScan(s: string, lit: Literal)
    requires Scan(s, 0, Leading, EmptyLiteral) == Some(lit)
    ensures ParseFloat(s) == Ok(lit.Value())
  {
  }
}
