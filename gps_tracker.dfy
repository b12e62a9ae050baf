/**
  The tracker object: the serial port it reads from, the line framing of
  readFromGpsRaw, and the two slots that remember the last accepted
  position and the last uploaded one.
*/
module GpsTracking {
  import opened JavaLang
  import opened Nmea

  /**
    The serial port as the reader sees it: whether it reports itself open,
    and the bytes that will still arrive, each as the char the byte is
    cast to.
  */
  class SerialPort {
    var open: bool
    var pending: seq<char>

    constructor (open: bool, pending: seq<char>)
      ensures this.open == open && this.pending == pending
    {
      this.open := open;
      this.pending := pending;
    }

    /**
      One blocking read of the input stream: the next byte, or, when
      nothing arrives before the read timeout, an IOException.
    */
    method Read() returns (r: Result<char>)
      modifies this
      ensures open == old(open)
      ensures old(pending) == [] ==> r == Thrown(IOException) && pending == []
      ensures old(pending) != [] ==> r == Ok(old(pending)[0]) && pending == old(pending)[1..]
    {
      if pending == [] {
        return Thrown(IOException);
      }
      r := Ok(pending[0]);
      pending := pending[1..];
    }

    /** closePort: the port reports closed from now on. */
    method Close()
      modifies this
      ensures !open && pending == old(pending)
    {
      open := false;
    }
  }

  /** The characters that end a line: line feed (code 10) and NUL (code 0). */
  predicate IsTerminator(c: char) {
    c as int == 10 || c as int == 0
  }

  /** The position of the first terminator in s, if there is one. */
  function TerminatorIndex(s: seq<char>): (r: Option<nat>)
    ensures r.Some? ==> r.value < |s| && IsTerminator(s[r.value])
    ensures r.Some? ==> forall j :: 0 <= j < r.value ==> !IsTerminator(s[j])
    ensures r.None? <==> forall j :: 0 <= j < |s| ==> !IsTerminator(s[j])
  {
    if s == [] then None
    else if IsTerminator(s[0]) then Some(0)
    else match TerminatorIndex(s[1..])
      case None => None
      case Some(k) => Some(k + 1)
  }

  /** What one call of readFromGpsRaw yields, and the input it leaves unread. */
  datatype LineRead = LineRead(line: Result<string>, rest: seq<char>)

  /**
    readFromGpsRaw over a port that stays open or closed for the whole
    call: nothing is read from a closed port; otherwise characters are
    collected up to and including the first terminator and the trimmed
    text is returned; a read that times out first raises IOException.
  */
  function RawLine(open: bool, pending: seq<char>): LineRead {
    if !open then LineRead(Ok(""), pending)
    else match TerminatorIndex(pending)
      case None => LineRead(Thrown(IOException), [])
      case Some(k) => LineRead(Ok(Trim(pending[..k + 1])), pending[k + 1..])
  }

  class GpsTracker {
    var lastPosition: GpsPosition?
    var lastPositionUploaded: GpsPosition?
    const comPort: SerialPort

    /** A fresh tracker has no position and has uploaded nothing. */
    constructor (comPort: SerialPort)
      ensures lastPosition == null && lastPositionUploaded == null
      ensures this.comPort == comPort
    {
      lastPosition := null;
      lastPositionUploaded := null;
      this.comPort := comPort;
    }

    /** Assembles one line from the port. */
    method ReadFromGpsRaw() returns (r: Result<string>)
      modifies comPort
      ensures comPort.open == old(comPort.open)
      ensures LineRead(r, comPort.pending) == RawLine(old(comPort.open), old(comPort.pending))
    {
      var builder: seq<char> := [];
      LineFromStart(comPort.pending);
      while true
        invariant comPort.open == old(comPort.open)
        invariant comPort.open ==> LineFrom(builder, comPort.pending) == RawLine(true, old(comPort.pending))
        invariant !comPort.open ==> builder == [] && comPort.pending == old(comPort.pending)
        decreases |comPort.pending|
      {
        if !comPort.open {
          break;
        }
        ghost var unread := comPort.pending;
        var read := comPort.Read();
        if read.Thrown? {
          LineFromExhausted(builder);
          return Thrown(read.exception);
        }
        var c := read.value;
        ghost var collected := builder;
        builder := builder + [c];
        if c as int == 10 || c as int == 0 {
          LineFromTerminator(collected, unread);
          return Ok(Trim(builder));
        }
        LineFromOther(collected, unread);
      }
      ClosedPortYieldsEmpty(old(comPort.pending));
      assert Trim(builder) == [];
      r := Ok(Trim(builder));
    }
  }

  /**
    What the rest of a call of readFromGpsRaw yields once builder has been
    collected and pending is still to arrive.
  */
  ghost function LineFrom(builder: seq<char>, pending: seq<char>): LineRead {
    match TerminatorIndex(pending)
    case None => LineRead(Thrown(IOException), [])
    case Some(k) => LineRead(Ok(Trim(builder + pending[..k + 1])), pending[k + 1..])
  }

  /** Before anything is read, the rest of the call is the whole of readFromGpsRaw. */
  lemma LineFromStart(pending: seq<char>)
    ensures LineFrom([], pending) == RawLine(true, pending)
  {
    match TerminatorIndex(pending)
    case None =>
    case Some(k) => EmptyBuilder(pending[..k + 1]);
  }

  lemma EmptyBuilder(line: seq<char>)
    ensures Trim([] + line) == Trim(line)
  {
    assert [] + line == line;
  }

  /** With nothing left to arrive, the read times out. */
  lemma LineFromExhausted(builder: seq<char>)
    ensures LineFrom(builder, []) == LineRead(Thrown(IOException), [])
  {
  }

  /** A terminator arriving next ends the line with it. */
  lemma LineFromTerminator(builder: seq<char>, pending: seq<char>)
    requires pending != [] && IsTerminator(pending[0])
    ensures LineFrom(builder, pending) == LineRead(Ok(Trim(builder + [pending[0]])), pending[1..])
  {
    assert pending[..1] == [pending[0]];
  }

  /** Any other character arriving next joins the line collected so far. */
  lemma LineFromOther(builder: seq<char>, pending: seq<char>)
    requires pending != [] && !IsTerminator(pending[0])
    ensures LineFrom(builder, pending) == LineFrom(builder + [pending[0]], pending[1..])
  {
    var rest := pending[1..];
    match TerminatorIndex(rest)
    case None =>
    case Some(k) => MoveFirst(builder, pending, k + 2);
  }

  /** Moving the first of the next n characters over to the line collected so far. */
  lemma MoveFirst(builder: seq<char>, pending: seq<char>, n: nat)
    requires 1 <= n <= |pending|
    ensures builder + pending[..n] == (builder + [pending[0]]) + pending[1..][..n - 1]
    ensures pending[n..] == pending[1..][n - 1..]
  {
    assert pending[..n] == [pending[0]] + pending[1..][..n - 1];
  }

  /** The first terminator of a line with none before it is the one that ends it. */
  lemma FirstTerminator(before: seq<char>, c: char, after: seq<char>)
    requires forall j :: 0 <= j < |before| ==> !IsTerminator(before[j])
    requires IsTerminator(c)
    ensures TerminatorIndex(before + [c] + after) == Some(|before|)
  {
    var s := before + [c] + after;
    assert s[|before|] == c;
    assert forall j :: 0 <= j < |before| ==> s[j] == before[j];
  }

  /** Where the line ends when the character after before is a terminator. */
  lemma FirstTerminatorFollows(before: seq<char>, c: char, after: seq<char>)
    requires forall j :: 0 <= j < |before| ==> !IsTerminator(before[j])
    requires IsTerminator(c)
    ensures var s := before + [c] + after;
      TerminatorIndex(s) == Some(|before|) && s[..|before| + 1] == before + [c] && s[|before| + 1..] == after
  {
    FirstTerminator(before, c, after);
    var s := before + [c] + after;
    assert s[..|before| + 1] == before + [c];
    assert s[|before| + 1..] == after;
  }

  /** Once a line feed has arrived, nothing after it is consumed. */
  lemma StopsAtLineFeed(before: seq<char>, after: seq<char>)
    requires forall j :: 0 <= j < |before| ==> !IsTerminator(before[j])
    ensures var lf := 10 as char;
      RawLine(true, before + [lf] + after) == LineRead(Ok(Trim(before + [lf])), after)
  {
    var lf := 10 as char;
    FirstTerminator(before, lf, after);
    var s := before + [lf] + after;
    assert s[..|before| + 1] == before + [lf];
    assert s[|before| + 1..] == after;
  }

  /** Once a NUL has arrived, nothing after it is consumed. */
  lemma StopsAtNul(before: seq<char>, after: seq<char>)
    requires forall j :: 0 <= j < |before| ==> !IsTerminator(before[j])
    ensures var nul := 0 as char;
      RawLine(true, before + [nul] + after) == LineRead(Ok(Trim(before + [nul])), after)
  {
    var nul := 0 as char;
    FirstTerminator(before, nul, after);
    var s := before + [nul] + after;
    assert s[..|before| + 1] == before + [nul];
    assert s[|before| + 1..] == after;
  }

  /** A closed port yields the empty line and keeps its input. */
  lemma ClosedPortYieldsEmpty(pending: seq<char>)
    ensures RawLine(false, pending) == LineRead(Ok(""), pending)
  {
  }

  /** The trimmed first n characters of s are a stretch of s, and s is those n characters and the rest. */
  lemma TrimmedPrefixIsSlice(s: seq<char>, n: nat)
    requires n <= |s|
    ensures exists i, j :: 0 <= i <= j <= |s| && Trim(s[..n]) == s[i..j]
    ensures s == s[..n] + s[n..]
  {
    var i := TrimStart(s[..n]);
    var j := TrimEnd(s[..n], i);
    SliceOfPrefix(s, n, i, j);
  }

  /** A stretch of a prefix of s is the same stretch of s. */
  lemma SliceOfPrefix(s: seq<char>, n: nat, i: nat, j: nat)
    requires i <= j <= n <= |s|
    ensures s[..n][i..j] == s[i..j]
    ensures s == s[..n] + s[n..]
  {
  }

  /**
    A line that is returned is a stretch of the input, in order, without
    blanks at either end, and the input it leaves is exactly what follows
    the consumed part; a failed read consumes everything and finds no
    terminator.
  */
  lemma RawLineShape(open: bool, pending: seq<char>)
    ensures var r := RawLine(open, pending);
      && (r.line.Ok? ==> exists i, j :: 0 <= i <= j <= |pending| && r.line.value == pending[i..j])
      && (r.line.Ok? && r.line.value != [] ==> r.line.value[0] > ' ' && r.line.value[|r.line.value| - 1] > ' ')
      && (r.line.Ok? ==> pending == pending[..|pending| - |r.rest|] + r.rest)
      && (r.line.Thrown? ==> r.line.exception == IOException && r.rest == []
                              && forall j :: 0 <= j < |pending| ==> !IsTerminator(pending[j]))
  {
    var r := RawLine(open, pending);
    if !open {
      assert r.line.value == pending[0..0];
    } else if TerminatorIndex(pending).Some? {
      var k := TerminatorIndex(pending).value;
      TrimmedPrefixIsSlice(pending, k + 1);
    }
  }
}
