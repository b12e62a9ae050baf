/**
  The running tracker: the shared state of the main program (the
  shutdown flag and the listener registry) next to the tracker object,
  and the bodies of the polling thread's loop, the upload timer task, the
  listener trigger and the shutdown hook. Each body is proved to follow
  the matching function of TrackerSpec.
*/
module MainProcess {
  import opened JavaLang
  import opened Nmea
  import opened GpsTracking
  import opened Utils
  import opened Uploading
  import opened TrackerSpec

  /** The listener registered at start-up: it uploads the first position it is given. */
  class UploadOnFirstFixListener {
    var gpsPosition: GpsPosition?

    constructor ()
      ensures gpsPosition == null
    {
      gpsPosition := null;
    }
  }

  /** The field values of a position slot, or None for null. */
  function SnapshotOf(p: GpsPosition?): Option<Fix>
    reads p
  {
    if p == null then None else Some(p.Snapshot())
  }

  /** A set with at most one element loses its only element when that one is removed. */
  lemma RemoveOnly<T>(s: set<T>, x: T)
    requires |s| <= 1 && x in s
    ensures s - {x} == {}
  {
    if y :| y in s - {x} {
      assert {x, y} <= s;
      assert |{x, y}| == 2;
      SubsetSize({x, y}, s);
    }
  }

  lemma SubsetSize<T>(a: set<T>, b: set<T>)
    requires a <= b
    ensures |a| <= |b|
  {
    assert b == a + (b - a);
  }

  /**
    The first half of a polling iteration: read a line and decode it. A
    read that fails, and a decode that yields null or throws, both give
    null; the exception is reported and dropped.
  */
  method ReadPosition(gpsTracker: GpsTracker) returns (gpsPosition: GpsPosition?)
    modifies gpsTracker.comPort
    ensures gpsTracker.comPort.open == old(gpsTracker.comPort.open)
    ensures var read := RawLine(old(gpsTracker.comPort.open), old(gpsTracker.comPort.pending));
      && gpsTracker.comPort.pending == read.rest
      && SnapshotOf(gpsPosition) == Received(read.line)
    ensures gpsPosition != null ==> fresh(gpsPosition)
  {
    var line := gpsTracker.ReadFromGpsRaw();
    if line.Thrown? {
      return null;
    }
    var parsed := Parse(line.value);
    if !parsed.Parsed? {
      return null;
    }
    return parsed.position;
  }

  class TrackerProcess {
    var isShuttingDown: bool
    var gpsPositionListeners: set<UploadOnFirstFixListener>
    const gpsTracker: GpsTracker

    /** The shared state as the specification sees it. */
    function Abstract(): State
      reads this, gpsTracker, gpsTracker.lastPosition, gpsTracker.lastPositionUploaded
    {
      State(isShuttingDown, SnapshotOf(gpsTracker.lastPosition),
            SnapshotOf(gpsTracker.lastPositionUploaded), gpsPositionListeners != {})
    }

    /** Only the first-fix listener is ever registered. */
    predicate Valid()
      reads this
    {
      |gpsPositionListeners| <= 1
    }

    /** Start-up: not shutting down, and the first-fix listener registered with a fresh tracker. */
    constructor (gpsTracker: GpsTracker)
      requires gpsTracker.lastPosition == null && gpsTracker.lastPositionUploaded == null
      ensures Valid() && Abstract() == Initial
      ensures this.gpsTracker == gpsTracker && fresh(gpsPositionListeners)
    {
      isShuttingDown := false;
      this.gpsTracker := gpsTracker;
      var listener := new UploadOnFirstFixListener();
      gpsPositionListeners := {listener};
    }

    /** The first-fix listener's run: upload the position it holds, then unregister. */
    method RunFirstFixListener(listener: UploadOnFirstFixListener, succeeds: bool)
      requires listener in gpsPositionListeners
      modifies this, gpsTracker
      ensures gpsPositionListeners == old(gpsPositionListeners) - {listener}
      ensures isShuttingDown == old(isShuttingDown)
      ensures gpsTracker.lastPosition == old(gpsTracker.lastPosition)
      ensures gpsTracker.lastPositionUploaded ==
        (if listener.gpsPosition != null && succeeds then listener.gpsPosition else old(gpsTracker.lastPositionUploaded))
    {
      Upload(gpsTracker, listener.gpsPosition, succeeds);
      gpsPositionListeners := gpsPositionListeners - {listener};
    }

    /** Hands the position to every registered listener and runs it. */
    method TriggerGpsPositionListeners(gpsPosition: GpsPosition, succeeds: bool)
      requires Valid()
      modifies this, gpsTracker, gpsPositionListeners
      ensures Valid()
      ensures Abstract() == TriggerListeners(old(Abstract()), gpsPosition.Snapshot(), succeeds)
      ensures gpsTracker.lastPosition == old(gpsTracker.lastPosition)
      ensures gpsTracker.lastPositionUploaded == old(gpsTracker.lastPositionUploaded) || gpsTracker.lastPositionUploaded == gpsPosition
    {
      if |gpsPositionListeners| == 0 {
        return;
      }
      var listener :| listener in gpsPositionListeners;
      listener.gpsPosition := gpsPosition;
      RemoveOnly(gpsPositionListeners, listener);
      RunFirstFixListener(listener, succeeds);
    }

    /** One run of the upload timer task. */
    method UploadTick(succeeds: bool)
      modifies gpsTracker
      ensures Abstract() == Tick(old(Abstract()), succeeds)
      ensures gpsTracker.lastPosition == old(gpsTracker.lastPosition)
      ensures gpsTracker.lastPositionUploaded == old(gpsTracker.lastPositionUploaded) || gpsTracker.lastPositionUploaded == gpsTracker.lastPosition
    {
      if isShuttingDown {
        return;
      }
      var position := gpsTracker.lastPosition;
      if position == null {
        return;
      }
      if gpsTracker.lastPositionUploaded != null && !AreLocationsDifferent(gpsTracker.lastPositionUploaded.Snapshot(), position.Snapshot()) {
        return;
      }
      Upload(gpsTracker, position, succeeds);
    }

    /**
      The second half of a polling iteration, once a line has decoded to
      a position: keep it and trigger the listeners if it has a fix, is
      not at zero, and is the first or has moved.
    */
    method Accept(gpsPosition: GpsPosition, succeeds: bool)
      requires Valid()
      requires gpsPosition != gpsTracker.lastPosition && gpsPosition != gpsTracker.lastPositionUploaded
      modifies this, gpsTracker, gpsPositionListeners
      ensures Valid()
      ensures isShuttingDown == old(isShuttingDown)
      ensures Abstract() == Ingest(old(Abstract()), Some(gpsPosition.Snapshot()), succeeds)
      ensures gpsTracker.lastPosition == old(gpsTracker.lastPosition) || gpsTracker.lastPosition == gpsPosition
    {
      if !gpsPosition.fixed {
        return;
      }
      if gpsPosition.lat == 0.0 && gpsPosition.lon == 0.0 {
        return;
      }
      if gpsTracker.lastPosition == null || AreLocationsDifferent(gpsTracker.lastPosition.Snapshot(), gpsPosition.Snapshot()) {
        gpsTracker.lastPosition := gpsPosition;
        TriggerGpsPositionListeners(gpsPosition, succeeds);
      }
    }

    /**
      One iteration of the polling thread's loop. The result says whether
      the loop went on (the port was open and no shutdown was seen); if it
      did, one line was read and the state follows Ingest on what it
      decoded to.
    */
    method PollOnce(succeeds: bool) returns (polling: bool)
      requires Valid()
      modifies this, gpsTracker, gpsTracker.comPort, gpsPositionListeners
      ensures Valid()
      ensures polling == Polling(old(Abstract()), old(gpsTracker.comPort.open))
      ensures gpsTracker.comPort.open == old(gpsTracker.comPort.open)
      ensures !polling ==> Abstract() == old(Abstract()) && gpsTracker.comPort.pending == old(gpsTracker.comPort.pending)
      ensures polling ==>
        var read := RawLine(true, old(gpsTracker.comPort.pending));
        gpsTracker.comPort.pending == read.rest && Abstract() == Ingest(old(Abstract()), Received(read.line), succeeds)
      ensures gpsTracker.lastPosition != old(gpsTracker.lastPosition) ==> fresh(gpsTracker.lastPosition)
    {
      if !gpsTracker.comPort.open || isShuttingDown {
        return false;
      }
      var gpsPosition := ReadPosition(gpsTracker);
      if gpsPosition != null {
        Accept(gpsPosition, succeeds);
      }
      return true;
    }

    /** The shutdown hook: raise the flag and close the port. */
    method ShutdownHook()
      modifies this, gpsTracker.comPort
      ensures Abstract() == old(Abstract()).(shuttingDown := true)
      ensures !gpsTracker.comPort.open
      ensures gpsPositionListeners == old(gpsPositionListeners)
    {
      isShuttingDown := true;
      gpsTracker.comPort.Close();
    }
  }
}
