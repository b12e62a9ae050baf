/**
  The decisions of the tracker's two activities, as functions over the
  state they share: the polling loop, which turns lines into positions
  and decides whether a new one replaces the last, and the upload timer,
  which decides whether the last position is sent. Positions appear as
  their field values; the classes in MainProcess are proved to follow
  these functions.
*/
module TrackerSpec {
  import opened JavaLang
  import opened Nmea
  import opened GpsTracking
  import opened Utils
  import opened NmeaProperties

  /**
    The shared state: the shutdown flag, the last accepted position, the
    last uploaded position, and whether the first-fix listener is still
    registered.
  */
  datatype State = State(
    shuttingDown: bool,
    lastPosition: Option<Fix>,
    lastUploaded: Option<Fix>,
    firstFixPending: bool)

  /** After start-up: nothing received, nothing uploaded, the first-fix listener registered. */
  const Initial: State := State(false, None, None, true)

  /** The effect of UploadService.upload on the state. */
  function Uploaded(s: State, position: Fix, succeeds: bool): State {
    if succeeds then s.(lastUploaded := Some(position)) else s
  }

  /** triggerGpsPositionListeners: the first-fix listener, while registered, uploads and unregisters. */
  function TriggerListeners(s: State, position: Fix, succeeds: bool): State {
    if !s.firstFixPending then s
    else Uploaded(s, position, succeeds).(firstFixPending := false)
  }

  /** The position a read of the port yields, if the line was read and decoded to one. */
  function Received(read: Result<string>): Option<Fix> {
    if read.Ok? && Decode(read.value).Position? then Some(Decode(read.value).fix) else None
  }

  /** A position the loop may keep: it has a fix and is not at latitude and longitude zero. */
  predicate Usable(f: Fix) {
    f.fixed && !(f.lat == 0.0 && f.lon == 0.0)
  }

  /** Whether f would replace the last position: there is none, or f has moved away from it. */
  predicate Replaces(s: State, f: Fix) {
    s.lastPosition.None? || AreLocationsDifferent(s.lastPosition.value, f)
  }

  /** The decision part of one polling iteration, given what was received. */
  function Ingest(s: State, received: Option<Fix>, succeeds: bool): State {
    match received
    case None => s
    case Some(f) =>
      if Usable(f) && Replaces(s, f) then TriggerListeners(s.(lastPosition := Some(f)), f, succeeds)
      else s
  }

  /** Whether the polling loop runs another iteration. */
  predicate Polling(s: State, open: bool) {
    open && !s.shuttingDown
  }

  /** Whether a timer tick sends the last position: it has one, and it moved since the last upload. */
  predicate UploadDue(s: State) {
    && !s.shuttingDown
    && s.lastPosition.Some?
    && (s.lastUploaded.None? || AreLocationsDifferent(s.lastUploaded.value, s.lastPosition.value))
  }

  /** One run of the upload timer task. */
  function Tick(s: State, succeeds: bool): State {
    if s.shuttingDown then s
    else match s.lastPosition
      case None => s
      case Some(p) =>
        if s.lastUploaded.Some? && !AreLocationsDifferent(s.lastUploaded.value, p) then s
        else Uploaded(s, p, succeeds)
  }

  /** What can happen next: a polling iteration with its outcome, a timer tick, or the shutdown hook. */
  datatype Event =
    | LineEvent(received: Option<Fix>, succeeds: bool)
    | TickEvent(succeeds: bool)
    | ShutdownEvent

  function Step(s: State, e: Event): State {
    match e
    case LineEvent(received, succeeds) => if s.shuttingDown then s else Ingest(s, received, succeeds)
    case TickEvent(succeeds) => Tick(s, succeeds)
    case ShutdownEvent => s.(shuttingDown := true)
  }

  function Run(s: State, events: seq<Event>): State
    decreases |events|
  {
    if events == [] then s else Run(Step(s, events[0]), events[1..])
  }

  /**
    What every reachable state satisfies: the kept position is usable,
    only usable positions have been uploaded, and nothing is uploaded
    before a position has been kept.
  */
  predicate Inv(s: State) {
    && (s.lastPosition.Some? ==> Usable(s.lastPosition.value))
    && (s.lastUploaded.Some? ==> Usable(s.lastUploaded.value) && s.lastPosition.Some?)
  }

  // ---------------------------------------------------------------------
  // The upload tick

  /** Once shutting down, a tick does nothing. */
  lemma TickIdleWhenShuttingDown(s: State, succeeds: bool)
    requires s.shuttingDown
    ensures Tick(s, succeeds) == s
  {
  }

  /** Without a position, a tick does nothing. */
  lemma TickIdleWithoutPosition(s: State, succeeds: bool)
    requires s.lastPosition.None?
    ensures Tick(s, succeeds) == s
  {
  }

  /**
    A tick changes the state exactly when an upload is due and succeeds;
    it then records the last position as uploaded and changes nothing
    else.
  */
  lemma TickUploadsLastPosition(s: State, succeeds: bool)
    ensures Tick(s, succeeds) != s <==> UploadDue(s) && succeeds
    ensures Tick(s, succeeds) != s ==> Tick(s, succeeds) == s.(lastUploaded := s.lastPosition)
  {
    if UploadDue(s) && succeeds && s.lastUploaded.Some? {
      DifferentIsSymmetric(s.lastUploaded.value, s.lastPosition.value);
      if s.lastUploaded == s.lastPosition {
        NotDifferentFromItself(s.lastPosition.value);
      }
    }
  }

  /** A position that has not moved since the last upload is not sent again. */
  lemma NoUploadWithoutMove(s: State, succeeds: bool)
    requires s.lastPosition.Some? && s.lastUploaded.Some?
    requires !AreLocationsDifferent(s.lastUploaded.value, s.lastPosition.value)
    ensures Tick(s, succeeds) == s
  {
  }

  // ---------------------------------------------------------------------
  // The polling iteration

  /** A line that could not be read, or that decodes to null or an exception, changes nothing. */
  lemma FailedLineChangesNothing(s: State, read: Result<string>, succeeds: bool)
    requires read.Thrown? || !Decode(read.value).Position?
    ensures Ingest(s, Received(read), succeeds) == s
  {
  }

  /** A position without a fix, or at latitude and longitude zero, is never kept. */
  lemma UnusableNeverKept(s: State, f: Fix, succeeds: bool)
    requires !f.fixed || (f.lat == 0.0 && f.lon == 0.0)
    ensures Ingest(s, Some(f), succeeds) == s
  {
  }

  /** Only GGA sentences carry a fix, so no other sentence moves the tracker. */
  lemma OnlyGgaMovesTracker(s: State, tokens: seq<string>, succeeds: bool)
    requires |tokens| > 0 && tokens[0] != "GPGGA" && DecodeTokens(tokens).Position?
    ensures Ingest(s, Some(DecodeTokens(tokens).fix), succeeds) == s
  {
    OnlyGgaSetsFix(tokens);
  }

  /**
    The last position is replaced exactly when the new one is usable and
    there was none or it moved; it is then replaced by the new one, and
    the first-fix listener, if still registered, fires with that same
    position and unregisters.
  */
  lemma IngestReplacesIff(s: State, f: Fix, succeeds: bool)
    ensures var t := Ingest(s, Some(f), succeeds);
      t.lastPosition != s.lastPosition <==> Usable(f) && Replaces(s, f)
    ensures var t := Ingest(s, Some(f), succeeds);
      t.lastPosition != s.lastPosition ==>
        && t.lastPosition == Some(f)
        && t.shuttingDown == s.shuttingDown
        && !t.firstFixPending
        && t.lastUploaded == (if s.firstFixPending && succeeds then Some(f) else s.lastUploaded)
    ensures var t := Ingest(s, Some(f), succeeds);
      t.lastPosition == s.lastPosition ==> t == s
  {
    if Usable(f) && Replaces(s, f) && s.lastPosition == Some(f) {
      NotDifferentFromItself(f);
    }
  }

  // ---------------------------------------------------------------------
  // The first-fix listener

  /** With no listener registered, triggering changes nothing. */
  lemma TriggerWithoutListenersIsIdle(s: State, position: Fix, succeeds: bool)
    requires !s.firstFixPending
    ensures TriggerListeners(s, position, succeeds) == s
  {
  }

  /** The first-fix listener uploads the position it is given and unregisters itself. */
  lemma FirstFixListenerUploadsOnce(s: State, position: Fix, succeeds: bool)
    requires s.firstFixPending
    ensures var t := TriggerListeners(s, position, succeeds);
      !t.firstFixPending && t.lastPosition == s.lastPosition &&
      t.lastUploaded == (if succeeds then Some(position) else s.lastUploaded)
  {
  }

  /** Once unregistered, the first-fix listener never comes back, whatever happens next. */
  lemma {:induction false} ListenerStaysRemoved(s: State, events: seq<Event>)
    requires !s.firstFixPending
    ensures !Run(s, events).firstFixPending
    decreases |events|
  {
    if events != [] {
      var t := Step(s, events[0]);
      assert !t.firstFixPending;
      ListenerStaysRemoved(t, events[1..]);
    }
  }

  // ---------------------------------------------------------------------
  // Shutdown and invariants

  /** After the shutdown hook has run, nothing changes any more. */
  lemma {:induction false} ShutdownIsFinal(s: State, events: seq<Event>)
    requires s.shuttingDown
    ensures Run(s, events) == s
    decreases |events|
  {
    if events != [] {
      assert Step(s, events[0]) == s;
      ShutdownIsFinal(s, events[1..]);
    }
  }

  lemma InitialSatisfiesInv()
    ensures Inv(Initial)
  {
  }

  lemma StepPreservesInv(s: State, e: Event)
    requires Inv(s)
    ensures Inv(Step(s, e))
  {
  }

  /** Every state reached from the start satisfies the invariant: only usable fixes are ever kept or uploaded. */
  lemma {:induction false} RunPreservesInv(s: State, events: seq<Event>)
    requires Inv(s)
    ensures Inv(Run(s, events))
    decreases |events|
  {
    if events != [] {
      StepPreservesInv(s, events[0]);
      RunPreservesInv(Step(s, events[0]), events[1..]);
    }
  }

  /** In particular, no run from the start ever uploads a position without a fix or at zero. */
  lemma OnlyUsablePositionsUploaded(events: seq<Event>)
    ensures var t := Run(Initial, events);
      t.lastUploaded.Some? ==> t.lastUploaded.value.fixed && !(t.lastUploaded.value.lat == 0.0 && t.lastUploaded.value.lon == 0.0)
  {
    InitialSatisfiesInv();
    RunPreservesInv(Initial, events);
  }
}
