# GpsTracker in Dafny

GpsTracker reads NMEA 0183 sentences from a GPS receiver on a serial port.
It keeps the last position that has a fix and has moved, and a timer
uploads that position when it differs from the last one uploaded. This
project models the core of that program and proves properties of the
model:

- **Line framing** (`GpsTracking`). `readFromGpsRaw` collects characters
  from the port until a line feed or a NUL arrives or the port reports
  closed, then trims the text. The port is modelled as an "is open" flag
  plus the characters still to arrive. A read that times out raises
  `IOException`.
- **Sentence decoding** (`Nmea`). The model covers:
  - the `$…*hh` framing and the XOR checksum of the characters between
    an optional leading `$` and the first `*`;
  - the registry of five tags: `GPGGA`, `GPGGL`, `GPRMC`, `GPRMZ` and
    `GPVTG`;
  - the per-tag parsers, which fill a `GPSPosition` field by field;
  - the coordinate converters, where "DDMM.mmmm" becomes degrees plus
    minutes/60, negated for S or W.

  `parse` has three outcomes, and the model keeps them apart
  (`Decoded`): a position, `null`, or an exception that escapes.
- **Java library behaviour the decoder depends on** (`JavaLang`):
  - `String.split(",")`, which drops trailing empty strings;
  - `String.trim`, `indexOf` and `startsWith`;
  - `Integer.parseInt` with a radix and the 32-bit range;
  - the grammar of `Float.parseFloat`, valued exactly over the reals.
- **Numeric helpers** (`Utils`):
  - `areLocationsDifferent`: at least 0.001 degrees of change in
    latitude or in longitude;
  - `round`: rounding up (BigDecimal `CEILING`) to a number of decimal
    places.
- **The state machine of the main program** (`TrackerSpec`,
  `MainProcess`, `Uploading`).
  - The shared state is `lastPosition`, `lastPositionUploaded`, the
    shutdown flag and the listener registry. The registry only ever holds
    the self-removing first-fix listener.
  - One iteration of the polling loop, one run of the upload timer task,
    the listener trigger and the shutdown hook are each one sequential
    step.
  - The HTTP upload is reduced to whether it succeeded. On success,
    `lastPositionUploaded` becomes the uploaded position.

The decoder and the state machine are written in the program's own form:
- `GPSPosition`, the tracker and the main program's state are classes.
- The parsers, the checksum loop, the framing loop and the loop body are
  methods.
- Each method is proved to follow a specification function (`ApplyGpgga`,
  `Decode`, `RawLine`, `Ingest`, `Tick`, …), and the properties are lemmas
  about those functions.

Three behaviours of the code that the model keeps as written:
- A position counts as moved when its latitude or its longitude changes
  by at least 0.001 degrees (`Utils.java:57`).
- `parse` splits the whole text after the `$`, checksum suffix included
  (`NMEA.java:162`), so the last token carries the `*hh`.
- The registry's tags include `GPGGL` as written (`NMEA.java:139`).

## Model

| member | source | states |
|---|---|---|
| JavaLang.StartsWith | src/gpsTracker/NMEA.java:154 | `startsWith`: the prefix is no longer than the string and equals its first characters |
| JavaLang.IndexOf | src/gpsTracker/NMEA.java:183 | `indexOf`: -1 exactly when the character is absent; otherwise a position holding it with no earlier occurrence |
| JavaLang.IndexOfAfterUpdate | src/gpsTracker/NMEA.java:183 | changing a character before the first `*` to something other than `*` leaves the position of that `*` unchanged |
| JavaLang.Split | src/gpsTracker/NMEA.java:162 | `split(",")`: the whole string when the separator is absent; otherwise the pieces between separators, in order, cut after the last non-empty one, with only empty pieces dropped; no token contains the separator |
| JavaLang.JoinPieces | src/gpsTracker/NMEA.java:162 | joining the pieces of a string with the separator gives back the string |
| JavaLang.PiecesJoin | src/gpsTracker/NMEA.java:162 | splitting joined separator-free parts gives back the parts |
| JavaLang.SplitKeepsPieces | src/gpsTracker/NMEA.java:162 | when the last piece is not empty, `split` keeps every piece, empty middle fields included |
| JavaLang.Trim | src/gpsTracker/GpsTracker.java:68 | `trim`: the result is no longer than the string and has no character of code ≤ 32 at either end; a string with none at its ends is unchanged and an all-blank string becomes empty |
| JavaLang.TrimIsStretch | src/gpsTracker/GpsTracker.java:68 | what `trim` returns is a stretch of the string, and everything it drops before and after that stretch has code ≤ 32 |
| JavaLang.ParseInt | src/gpsTracker/NMEA.java:156 | `Integer.parseInt(s, radix)`: any result lies in the 32-bit range, and every failure is `NumberFormatException` |
| JavaLang.ParseIntValue | src/gpsTracker/NMEA.java:156 | `parseInt` succeeds exactly on an optional sign and at least one digit whose signed value fits in 32 bits, and yields that signed value |
| JavaLang.ParseIntRejectsNonDigit | src/gpsTracker/NMEA.java:156 | any character that is not a digit of the radix, after the optional sign, makes `parseInt` throw `NumberFormatException` |
| JavaLang.ParseIntRejectsBareSign | src/gpsTracker/NMEA.java:156 | the empty string and a sign with no digits make `parseInt` throw `NumberFormatException` |
| JavaLang.ParseIntOfNegativeDigits | src/gpsTracker/NMEA.java:156 | a minus sign before digits gives the negated value, down to the least int |
| JavaLang.AccumulateFrom | src/gpsTracker/NMEA.java:156 | reading the digits after the optional sign gives their value, and fails exactly when one of them is not a digit |
| JavaLang.ParseIntOfDigits | src/gpsTracker/NMEA.java:156 | a non-empty unsigned digit string whose value fits in an int parses to that value (base 16 for the checksum field) |
| JavaLang.AccumulateDigits | src/gpsTracker/NMEA.java:156 | reading the digits from any index on continues the value of the digits before it |
| JavaLang.ParseFloat | src/gpsTracker/NMEA.java:43-44 | `Float.parseFloat`: text without a decimal digit (the empty field among them) throws; accepted text holds only blanks, digits, signs, `.`, `e`/`E` and the `f`/`F`/`d`/`D` suffix; every failure is `NumberFormatException` |
| JavaLang.ScanCharacters | src/gpsTracker/NMEA.java:43-44 | from any point on, the literal scanner accepts only literal characters |
| JavaLang.ScanNeedsDigit | src/gpsTracker/NMEA.java:43-44 | before its first digit the scanner cannot accept, so text with no digit is rejected |
| JavaLang.ParseFloatOfDigits | src/gpsTracker/NMEA.java:44 | a non-empty run of decimal digits parses to its value |
| JavaLang.ParseFloatOfDecimal | src/gpsTracker/NMEA.java:43 | digits, a `.`, and digits (at least one digit in all) parse to the integer they spell times 10^-(number of fraction digits) |
| JavaLang.ScanRun | src/gpsTracker/NMEA.java:43 | scanning a run of digits adds them to the significand, and to the fraction when after the `.` |
| Nmea.GpsPosition.constructor | src/gpsTracker/NMEA.java:114-123 | a new record has every field zero and `fixed` false |
| Nmea.GpsPosition.UpdateFix | src/gpsTracker/NMEA.java:125-127 | `fixed` becomes `quality > 0`, and no other field changes |
| Nmea.XorOf | src/gpsTracker/NMEA.java:185-188 | the checksum of a text: the bitwise XOR of all its character codes, 0 for the empty text |
| Nmea.Checksum | src/gpsTracker/NMEA.java:180-190 | `calculateChecksum` as a value: the XOR of the text between an optional leading `$` and the first `*` |
| Nmea.ChecksumBody | src/gpsTracker/NMEA.java:182-183 | the checksummed text contains no `*` and is shorter than the line |
| Nmea.CalculateChecksum | src/gpsTracker/NMEA.java:180-190 | the loop's result is the XOR fold of the character codes between an optional leading `$` and the first `*` |
| Nmea.CoordinateToDecimal | src/gpsTracker/NMEA.java:38-62 | the conversion both coordinate readers share: 0 for an empty field, an index error when it is shorter than the degree digits, otherwise degrees plus minutes/60, negated for the given hemisphere letter, with a failed float parse raised |
| Nmea.Latitude2Decimal | src/gpsTracker/NMEA.java:38-49 | latitude: two degree digits, negative for a hemisphere starting with `S` |
| Nmea.Longitude2Decimal | src/gpsTracker/NMEA.java:51-62 | longitude: three degree digits, negative for a hemisphere starting with `W` |
| Nmea.SentenceParsers | src/gpsTracker/NMEA.java:134-143 | the registry: exactly the tags `GPGGA`, `GPGGL`, `GPRMC`, `GPRMZ` and `GPVTG`, each with its parser |
| Nmea.ApplyGpgga | src/gpsTracker/NMEA.java:65-74 | what the GGA parser does to a record: time, latitude, longitude, quality and altitude from their tokens, stopping at the first field that raises |
| Nmea.ApplyGpggl | src/gpsTracker/NMEA.java:76-83 | what the `GPGGL` parser does: latitude, longitude, then time |
| Nmea.ApplyGprmc | src/gpsTracker/NMEA.java:85-98 | what the RMC parser does: time, position, and speed and course when their fields are non-empty |
| Nmea.ApplyGpvtg | src/gpsTracker/NMEA.java:100-105 | what the VTG parser does: the course from token 3 |
| Nmea.ApplyGprmz | src/gpsTracker/NMEA.java:107-112 | what the `GPRMZ` parser does: the altitude from token 1 |
| NmeaProperties.XorAssociative | src/gpsTracker/NMEA.java:187 | the bitwise XOR of the checksum loop is associative |
| NmeaProperties.XorSelf | src/gpsTracker/NMEA.java:187 | XOR of a value with itself is 0 |
| NmeaProperties.XorCancel | src/gpsTracker/NMEA.java:187 | XOR with the same value on the left is injective |
| NmeaProperties.XorCancelRight | src/gpsTracker/NMEA.java:187 | XOR with the same value on the right is injective |
| NmeaProperties.XorOfConcat | src/gpsTracker/NMEA.java:185-188 | the checksum of a concatenation is the XOR of the checksums of the parts |
| NmeaProperties.XorOfDetectsChange | src/gpsTracker/NMEA.java:185-188 | replacing any one character by a different one changes the checksum |
| NmeaProperties.ChecksumCoversBody | src/gpsTracker/NMEA.java:180-190 | for a body without `*` or leading `$`, the checksum of body + `*` + suffix is the XOR of exactly the body |
| NmeaProperties.ChecksumSkipsDollar | src/gpsTracker/NMEA.java:182 | a leading `$` is not covered by the checksum |
| NmeaProperties.StarAfterDollar | src/gpsTracker/NMEA.java:155-156 | in a framed line, the first `*` after dropping the `$` is the line's first `*`, one place earlier |
| NmeaProperties.CorruptedBody | src/gpsTracker/NMEA.java:156-158 | changing one checksummed character keeps the declared checksum and changes the computed one |
| NmeaProperties.MismatchIsNull | src/gpsTracker/NMEA.java:156-161 | a declared checksum that differs from the computed one makes `parse` return null |
| NmeaProperties.CorruptedLineMismatches | src/gpsTracker/NMEA.java:154-158 | changing one character between `$` and `*` of a matching line keeps it framed and makes the declared and computed checksums differ |
| NmeaProperties.CorruptedCharIsNull | src/gpsTracker/NMEA.java:152-175 | changing one character between `$` and `*` of a line whose checksum matched makes `parse` return null |
| NmeaProperties.CorrectChecksumDecodesTokens | src/gpsTracker/NMEA.java:154-164 | a line `$` + body + `*` + the hex of the body's XOR passes the check and decodes as its comma-separated tokens do, the suffix included |
| NmeaProperties.BadChecksumFieldEscapes | src/gpsTracker/NMEA.java:156 | a checksum field that is not a base-16 int lets `NumberFormatException` escape, since it is outside the `try` |
| NmeaProperties.UnknownTagIsNull | src/gpsTracker/NMEA.java:163-164 | a tag outside the five registered ones yields null, not an error |
| NmeaProperties.FieldFailureOutcome | src/gpsTracker/NMEA.java:166-171 | a `NumberFormatException` in a field parser yields null; any other exception escapes |
| NmeaProperties.MissingFieldEscapes | src/gpsTracker/NMEA.java:167 | a registered sentence too short for its first field access escapes with an index error |
| NmeaProperties.OnlyGgaSetsFix | src/gpsTracker/NMEA.java:125-127 | only GGA sets `quality`, so every other tag decodes with `quality` 0 and `fixed` false |
| NmeaProperties.GgaFields | src/gpsTracker/NMEA.java:65-74 | a decoded GGA sentence has at least ten tokens; time is token 1, latitude tokens 2-3, longitude tokens 4-5, quality token 6, altitude token 9; course and speed stay 0 |
| NmeaProperties.GglFields | src/gpsTracker/NMEA.java:76-83 | a decoded `GPGGL` sentence has latitude from tokens 1-2, longitude from tokens 3-4 and time from token 5; every other field stays 0 |
| NmeaProperties.RmcFields | src/gpsTracker/NMEA.java:85-98 | a decoded RMC sentence has time from token 1, latitude from tokens 3-4, longitude from tokens 5-6; speed and course come from tokens 7 and 8 only when non-empty and otherwise stay 0; nothing else is set |
| NmeaProperties.VtgFields | src/gpsTracker/NMEA.java:100-105 | VTG sets only the course, from token 3 |
| NmeaProperties.RmzFields | src/gpsTracker/NMEA.java:107-112 | `GPRMZ` sets only the altitude, from token 1 |
| NmeaProperties.EmptyCoordinateIsZero | src/gpsTracker/NMEA.java:38-41 | an empty coordinate field is 0 for either hemisphere |
| NmeaProperties.ShortCoordinateEscapes | src/gpsTracker/NMEA.java:43 | a non-empty coordinate shorter than its degree digits raises an index error |
| NmeaProperties.LatitudeValue | src/gpsTracker/NMEA.java:38-49 | latitude is the first two characters as degrees plus the rest as minutes/60, negated when the hemisphere starts with `S` |
| NmeaProperties.LongitudeValue | src/gpsTracker/NMEA.java:51-62 | longitude is the first three characters as degrees plus the rest as minutes/60, negated when the hemisphere starts with `W` |
| NmeaProperties.LatitudeExample | src/gpsTracker/NMEA.java:38-49 | `"4807.038"` is 48 + 7.038/60 north, and its negation south |
| NmeaProperties.LongitudeExample | src/gpsTracker/NMEA.java:51-62 | `"01131.000"` is 11 + 31/60 east, and its negation west |
| Nmea.ParseGpgga | src/gpsTracker/NMEA.java:65-74 | the GGA parser completes as `ApplyGpgga` does, and on success the record holds its fields |
| Nmea.ParseGpggl | src/gpsTracker/NMEA.java:76-83 | the `GPGGL` parser completes as `ApplyGpggl` does, and on success the record holds its fields |
| Nmea.ParseGprmc | src/gpsTracker/NMEA.java:85-98 | the RMC parser completes as `ApplyGprmc` does, and on success the record holds its fields |
| Nmea.ParseGpvtg | src/gpsTracker/NMEA.java:100-105 | the VTG parser completes as `ApplyGpvtg` does, and on success the record holds its fields |
| Nmea.ParseGprmz | src/gpsTracker/NMEA.java:107-112 | the `GPRMZ` parser completes as `ApplyGprmz` does, and on success the record holds its fields |
| Nmea.ParseSentence | src/gpsTracker/NMEA.java:164-167 | the parser registered for the tag runs, and the record ends as that parser's function says |
| Nmea.DecodeTokens | src/gpsTracker/NMEA.java:162-172 | every decoded record has `fixed == (quality > 0)` |
| Nmea.Decode | src/gpsTracker/NMEA.java:152-175 | a line that does not start with `$` or has no `*` yields null, and every record has `fixed == (quality > 0)` |
| Nmea.Parse | src/gpsTracker/NMEA.java:152-175 | `parse` returns a fresh record exactly when `Decode` yields a position (with the same fields), null exactly when it yields null, and raises the exception it yields otherwise |
| Utils.AreLocationsDifferent | src/gpsTracker/Utils.java:55-58 | two positions differ when their latitudes or their longitudes are at least 0.001 degrees apart |
| Utils.NotDifferentFromItself | src/gpsTracker/Utils.java:55-58 | no position is different from itself |
| Utils.DifferentIsSymmetric | src/gpsTracker/Utils.java:55-58 | the significance test is symmetric |
| Utils.DifferentReadsOnlyCoordinates | src/gpsTracker/Utils.java:55-58 | only latitude and longitude take part in the test |
| Utils.DifferentIsNotTransitive | src/gpsTracker/Utils.java:57 | two moves below 0.001 degrees can together reach it, so small drifts add up |
| Utils.Round | src/gpsTracker/Utils.java:41-43 | `round(v, p)` is at least `v` and less than one step of 10^-p above it |
| Utils.RoundIsMultiple | src/gpsTracker/Utils.java:41-43 | the result is a whole multiple of 10^-p |
| Utils.RoundIsLeast | src/gpsTracker/Utils.java:41-43 | no multiple of 10^-p lies between `v` and the result, so it is the least such multiple |
| Utils.RoundKeepsMultiples | src/gpsTracker/Utils.java:41-43 | a value that is already a multiple of 10^-p is left unchanged |
| Utils.RoundIdempotent | src/gpsTracker/Utils.java:41-43 | rounding twice is the same as rounding once |
| Utils.RoundDefault | src/gpsTracker/Utils.java:37-39 | `round(v)` rounds up to six places: at least `v` and less than `v` + 0.000001 |
| GpsTracking.SerialPort.Read | src/gpsTracker/GpsTracker.java:62 | one read consumes the next character, or raises `IOException` when nothing is left |
| GpsTracking.SerialPort.Close | src/gpsTracker/Main.java:100 | closing makes the port report closed |
| GpsTracking.TerminatorIndex | src/gpsTracker/GpsTracker.java:57-67 | the first position holding code 10 or 0 with none before it, or none when no such character is present |
| GpsTracking.RawLine | src/gpsTracker/GpsTracker.java:53-69 | what one call of `readFromGpsRaw` yields and leaves: `""` from a closed port; otherwise the trimmed text up to and including the first LF or NUL, or `IOException` with the input used up when none arrives |
| GpsTracking.GpsTracker.constructor | src/gpsTracker/GpsTracker.java:33-34 | a fresh tracker has `lastPosition` and `lastPositionUploaded` both null |
| GpsTracking.GpsTracker.ReadFromGpsRaw | src/gpsTracker/GpsTracker.java:53-69 | the loop's result and the input it leaves are exactly `RawLine` of the port's flag and input |
| GpsTracking.FirstTerminator | src/gpsTracker/GpsTracker.java:62-67 | a terminator with no terminator before it is the first one |
| GpsTracking.StopsAtLineFeed | src/gpsTracker/GpsTracker.java:62-66 | nothing after the first line feed is consumed, and the line is the trimmed text up to it |
| GpsTracking.StopsAtNul | src/gpsTracker/GpsTracker.java:67 | nothing after the first NUL is consumed, and the line is the trimmed text up to it |
| GpsTracking.ClosedPortYieldsEmpty | src/gpsTracker/GpsTracker.java:58-60 | a closed port yields `""` and nothing is read |
| GpsTracking.RawLineShape | src/gpsTracker/GpsTracker.java:55-68 | a returned line is a stretch of the input, in order, with no blank at either end, and the rest is exactly what follows the consumed part; a failed read has consumed everything and seen no terminator |
| Uploading.Upload | src/gpsTracker/UploadService.java:44-65 | without a tracker or position nothing happens; a successful upload records the position as last uploaded; a failed one changes nothing |
| TrackerSpec.TriggerListeners | src/gpsTracker/Main.java:118-127 | triggering the listeners: while the first-fix listener is registered it uploads the position and unregisters; otherwise nothing happens |
| TrackerSpec.Tick | src/gpsTracker/Main.java:143-155 | one run of the timer task: nothing when shutting down, without a position, or when it has not moved since the last upload; otherwise the upload of the last position |
| TrackerSpec.Ingest | src/gpsTracker/Main.java:187-201 | what a decoded position does to the state: kept, with the listeners triggered, when it has a fix, is not at 0,0, and is the first or has moved; otherwise nothing |
| TrackerSpec.Polling | src/gpsTracker/Main.java:164-167 | the polling loop continues while the port is open and no shutdown has been seen |
| TrackerSpec.TickIdleWhenShuttingDown | src/gpsTracker/Main.java:143-145 | once shutting down, the timer task does nothing |
| TrackerSpec.TickIdleWithoutPosition | src/gpsTracker/Main.java:147-150 | without a last position, the timer task does nothing |
| TrackerSpec.TickUploadsLastPosition | src/gpsTracker/Main.java:152-155 | a tick changes the state iff an upload is due (not shutting down, a position, nothing uploaded before or a move since) and succeeds; it then records exactly the last position as uploaded |
| TrackerSpec.NoUploadWithoutMove | src/gpsTracker/Main.java:152-154 | a position that has not moved since the last upload is not sent again |
| TrackerSpec.FailedLineChangesNothing | src/gpsTracker/Main.java:169-185 | a read that fails, and a line that decodes to null or throws, leave the state unchanged |
| TrackerSpec.UnusableNeverKept | src/gpsTracker/Main.java:187-194 | a position without a fix, or at latitude and longitude 0, never becomes the last position |
| TrackerSpec.OnlyGgaMovesTracker | src/gpsTracker/Main.java:188-190 | a decoded sentence of any tag other than GGA leaves the state unchanged |
| TrackerSpec.IngestReplacesIff | src/gpsTracker/Main.java:196-201 | the last position is replaced iff the new one is usable and there was none or it moved; it is then the new one, and the first-fix listener fires with that position and unregisters; otherwise nothing changes |
| TrackerSpec.TriggerWithoutListenersIsIdle | src/gpsTracker/Main.java:118-121 | triggering with no registered listener changes nothing |
| TrackerSpec.FirstFixListenerUploadsOnce | src/gpsTracker/Main.java:108-115 | the first-fix listener uploads the position it is given and unregisters |
| TrackerSpec.ListenerStaysRemoved | src/gpsTracker/Main.java:112 | once unregistered, the first-fix listener stays unregistered for any sequence of events, so it fires at most once |
| TrackerSpec.ShutdownIsFinal | src/gpsTracker/Main.java:143-167 | after the shutdown hook has run, no sequence of events changes the state |
| TrackerSpec.InitialSatisfiesInv | src/gpsTracker/GpsTracker.java:33-34 | the start-up state, with nothing kept or uploaded, satisfies the invariant |
| TrackerSpec.StepPreservesInv | src/gpsTracker/Main.java:187-201 | every step keeps the invariant: the kept position is usable, and only usable positions are ever uploaded, never before one is kept |
| TrackerSpec.RunPreservesInv | src/gpsTracker/Main.java:143-201 | every sequence of events keeps the invariant |
| TrackerSpec.OnlyUsablePositionsUploaded | src/gpsTracker/Main.java:143-201 | from start-up, no position without a fix or at latitude and longitude 0 is ever uploaded |
| MainProcess.TrackerProcess.constructor | src/gpsTracker/Main.java:108-115 | start-up registers the single first-fix listener; the state is the initial one |
| MainProcess.TrackerProcess.RunFirstFixListener | src/gpsTracker/Main.java:110-113 | the listener uploads the position it holds and removes itself from the registry |
| MainProcess.TrackerProcess.TriggerGpsPositionListeners | src/gpsTracker/Main.java:118-127 | the state changes as `TriggerListeners` says: with no listener nothing happens, otherwise the listener runs with this position |
| MainProcess.TrackerProcess.UploadTick | src/gpsTracker/Main.java:143-155 | the state changes as `Tick` says, and anything uploaded is the `lastPosition` object itself |
| MainProcess.ReadPosition | src/gpsTracker/Main.java:169-185 | the position read is `Received` of `RawLine`: null when the read fails or `parse` yields null or throws, else a fresh record with the decoded fields |
| MainProcess.TrackerProcess.Accept | src/gpsTracker/Main.java:187-201 | the state changes as `Ingest` says for the decoded position |
| MainProcess.TrackerProcess.PollOnce | src/gpsTracker/Main.java:164-202 | the loop goes on exactly when the port is open and no shutdown was seen; if it does, one line is consumed as `RawLine` says and the state follows `Ingest`; if not, nothing changes |
| MainProcess.TrackerProcess.ShutdownHook | src/gpsTracker/Main.java:91-100 | the shutdown flag is raised and the port reports closed; nothing else in the state changes |

## Left out

- HTTP and JSON transport in `UploadService.java:49-57,68-90` are not modelled: the request, the device name, the wall-clock timestamp and the rounding of coordinates to five places for the JSON body. The upload appears only as a `succeeds` flag.
- Threads are not modelled: the polling thread, the timer schedule and `uploadTask.cancel()` (`Main.java:81-92`). Each loop iteration, timer tick and hook run is one atomic step, so interleavings of the unlocked accesses to `lastPosition` and `lastPositionUploaded` are not captured.
- Start-up order is not modelled. The listener is registered only after the threads start (`Main.java:81-115`), while the model starts with it already registered.
- Port discovery, argument parsing, `filterSerialPortsByName` and port configuration (baud rate, timeouts, `openPort`) are not modelled (`Main.java:39-79,129-137`, `GpsTracker.java:41-47`). Neither is closing the port's input stream in the shutdown hook (`Main.java:97-99`).
- The polling loop's unbounded repetition is not modelled as a loop, because it does not end on its own while the port stays open. One iteration is `PollOnce`, and a sequence of steps is `TrackerSpec.Run`.
- The port is not closed by another thread in the middle of a call. Within one call of `readFromGpsRaw` it stays open or closed.
- `in.read()` returning -1 at end of stream is not modelled; the only read failure is a timeout that raises `IOException`.
- Exception reporting, console output, `formatDate`, `locationToString` and `GPSPosition.toString` are left out as output formatting.
- The `ConcurrentModificationException` that the for-each over the listener set would raise with two or more self-removing listeners is left out. Only one listener is ever registered (`TrackerProcess.Valid`).
- Character codes are Unicode scalar values, so `codePointAt` on a UTF-16 surrogate pair is not modelled. `Character.digit` accepts ASCII digits and letters only.
- JavaLang.ParseFloat: yields the exact decimal value of the literal rather than the nearest `float`, so a literal beyond the `float` range gives its exact real, not `Infinity` or 0. `NaN`, `Infinity` and hexadecimal literals are rejected with `NumberFormatException`, whereas Java accepts them.
- Nmea.CoordinateToDecimal: computes with exact reals, so the `float` division by 60 and the `float` addition (`NMEA.java:43-44,56-57`) are not rounded.
- Utils.Round: gives the exact ceiling of the real value. The conversion of the `double` argument to `BigDecimal` and of the result back to `double` is not modelled.
- Utils.AreLocationsDifferent: compares exact differences of reals. The `float` subtraction and its widening to `double` before comparing with 0.001 are not modelled.
