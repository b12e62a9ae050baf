/**
  The upload service, reduced to its effect on the tracker: the HTTP
  request itself is outside the model and appears only as whether it
  went through.
*/
module Uploading {
  import opened Nmea
  import opened GpsTracking

  /**
    UploadService.upload: nothing happens without a tracker and a
    position; otherwise, when the request succeeds, the position becomes
    the last one uploaded, and when it fails nothing changes.
  */
  method Upload(tracker: GpsTracker?, position: GpsPosition?, succeeds: bool)
    modifies tracker
    ensures tracker != null ==> tracker.lastPosition == old(tracker.lastPosition)
    ensures tracker != null ==>
      tracker.lastPositionUploaded == (if position != null && succeeds then position else old(tracker.lastPositionUploaded))
  {
    if tracker == null || position == null {
      return;
    }
    if succeeds {
      tracker.lastPositionUploaded := position;
    }
  }
}
