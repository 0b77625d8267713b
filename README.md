# Segment recorder: a Dafny model

This project models the data logic of a small browser app, `app.js`. The app records
which of two states, `Good` or `Avoid`, a walker was in over time. It then splits a
GPX track into the parts recorded as Good and the parts recorded as Avoid. The model covers five parts:

- **The recorder** (`recorder.dfy`, class `Recorder.Recorder`).
  - The Start/Toggle button, the state checkbox and the End button.
  - These update `recording`, the checkbox and the log lines `recordingData`.
  - End joins the log with newlines and saves it in storage.
- **Storage keys** (`keys.dfy`).
  - `saveRecordingLocally` names a recording `recording-<ISO time, ':' as '-'>.txt`.
  - `populateRecordingList` filters for keys of that shape, strips them, restores the colons of the clock time, and lists the keys whose timestamp is a date.
- **Interval extraction** (`recording.dfy`).
  - `parseRecordingText` matches every line against `(Start|Toggle|End): (\w+) at (.+)`.
  - It normalises the time and turns the entries into `{state, start, end}` intervals.
- **Track segmentation** (`segmentation.dfy`).
  - The loop of `processGpxAndSplit` labels every timed track point with the state of the first interval holding its time.
  - It cuts runs of equally labelled points at gaps of more than five minutes.
  - Segments are maximal: a segment is cut only at such a gap, a change of state or a point outside every interval.
  - It collects the Good and Avoid runs.
  - `processGpxAndSplit` then writes both lists as GPX documents.
- **The GPX writer** (`gpx.dfy`).
  - `generateGpxContent` builds a GPX 1.1 document with one `<trkseg>` per non-empty segment.
  - A reader for exactly that layout, `DecodeGpx`, shows that the document records every written segment and point, in order.

The imperative code stays imperative:
- `ParseRecordingText`, `SplitSegments`, `GenerateGpxContent` (its inner `forEach` over the points is `WritePoints`) and `PopulateRecordingList` are methods with loops.
- The recorder is a class whose methods change its fields.

The loop methods are proved equal to specification functions, and the properties are lemmas about those functions. The recorder's methods state their new fields directly, and lemmas about the log they build show what the saved text parses to.

Shared pieces:
- `strings.dfy` models the JavaScript string operations the code uses: `trim`, `split`, `join`, `replace` with a string pattern (first occurrence only), `replace(/:/g, '-')` for one character, `startsWith` and `endsWith`.
- `wrappers.dfy` holds `Option` and the date type.
  - `new Date(s).getTime()` is a parameter `parse: string -> Millis`, where `Millis` is either `NaN` or a whole number of milliseconds.
  - Every comparison with `NaN` is false, so a point whose time is not a date matches no interval and makes no gap.

## Model

| member | source | states |
|---|---|---|
| Recording.MatchLineLeftmost | app.js:225-227 | a line has a match exactly when the unanchored pattern matches at some position of it, and the match taken is the leftmost one |
| Recording.MatchAtExactly | app.js:225-229 | the pattern tried at a position captures a kind, state and time exactly when `<Kind>: <state> at <time>` occurs there, the state a `\w+` word, the time non-empty and free of line terminators, followed by a line end or the end of the line |
| Recording.MatchLineExactly | app.js:225-229 | a line has a match exactly when some position holds such an entry text; the match is the one at the leftmost position that does |
| Recording.NormalizeSpec | app.js:232 | normalising turns the first `+00:00Z` into `Z` and keeps the rest; a time without `+00:00Z` is unchanged |
| Recording.NormalizeOffset | app.js:232 | a time that ends in its only `+00:00Z` comes out ending in `Z` |
| Recording.AppendEntry | app.js:235-251 | one more entry: Start or Toggle opens an interval at its time and End leaves the open one in place; every entry closes the open interval, if any, at its own time |
| Recording.MatchEntryText | app.js:225-230 | a line `<Kind>: <word> at <time>` yields exactly that kind, state and raw time |
| Recording.ParseRecordingText | app.js:211-256 | the intervals are those the matching lines' entries describe, in line order: every entry closes the open interval at its own time, and only Start and Toggle open one |
| Recording.NoOpenerNoIntervals | app.js:235-251 | before the first Start or Toggle nothing is open and no interval is emitted |
| Recording.IntervalsCount | app.js:235-251 | after the first Start or Toggle at position f, every later entry emits exactly one interval |
| Recording.IntervalEnd | app.js:238-249 | interval m ends at the time of the entry that closed it, entry f+1+m |
| Recording.IntervalStart | app.js:235-251 | interval m starts at the time of the last Start or Toggle before its closing entry, and carries that entry's state |
| Recording.ChainedIntervals | app.js:235-243 | a Start or Toggle closes the open interval and opens the next one at its own time: end of interval m is the start of interval m+1, and m+1 has the new state |
| Recording.EndLeavesIntervalOpen | app.js:246-251 | an End entry closes an interval without clearing it: the next interval has the same start and state, and End's own state is ignored |
| Recording.StartToggleEnd | app.js:235-251 | the entries Start Good at T0, Toggle Avoid at T1, End Avoid at T2 give the intervals `[{Good,T0,T1},{Avoid,T1,T2}]` |
| Recording.OpenAfterLastOpener | app.js:240-242 | the open interval is the one opened by the last Start or Toggle |
| Strings.Split | app.js:213 | `split('\n')` gives at least one piece |
| Strings.SplitPieces | app.js:213 | no piece of a split holds the separator, and joining the pieces gives the text back |
| Strings.SplitJoin | app.js:120 | splitting a join of separator-free pieces gives the pieces back |
| Strings.JoinEnds | app.js:120 | a join of at least one piece starts with the first piece and ends with the last |
| Strings.Trim | app.js:213 | the trimmed text is a slice of the text with only white space before and after it; it neither starts nor ends with white space, and a text without white space at its ends is unchanged |
| Strings.IndexOf | app.js:232 | the first position at or after `from` where the pattern occurs, or none if it never occurs |
| Strings.ReplaceAllChar | app.js:390 | every `:` becomes `-` and every other character stays, so no `:` is left |
| RecordingKeys.RecordingKey | app.js:390-392 | the key of a save holds no `:` and passes the recording filter |
| RecordingKeys.SaveRecordingLocally | app.js:386-394 | the storage maps the new key to the content; every other key is unchanged |
| RecordingKeys.FirstClock | app.js:179 | the leftmost position at or after `from` where `T\d\d-\d\d-\d\d` matches, or none |
| RecordingKeys.RestoreColonsSpec | app.js:179 | only the first match of the clock pattern changes: its two `-` become `:`; without a match the text is unchanged |
| RecordingKeys.StripKey | app.js:177 | stripping `recording-` and `.txt` from the key of a text with no `.txt` in it gives the text back |
| RecordingKeys.KeyRoundTrip | app.js:172-179 | the key of an ISO instant `YYYY-MM-DDTHH:MM:SS.sssZ` has no colon, passes the filter, and strips and restores to the instant |
| RecordingKeys.ListedKeys | app.js:170-187 | a key is listed exactly when it passes the filter and its restored timestamp parses as a date |
| RecordingKeys.PopulateRecordingList | app.js:166-205 | the options are the listed keys, in storage order |
| RecordingKeys.SavedRecordingIsListed | app.js:170-187 | a recording saved at an instant the date parser accepts is listed |
| Recorder.StateLabel | app.js:46-48 | `Avoid` exactly when the checkbox is checked, `Good` exactly when it is not; either is a `\w+` word |
| Recorder.SessionIntervalsOf | app.js:235-251 | a Start, then Toggles, then End give one interval fewer than they have entries; interval m is entry m's state from entry m's time to entry m+1's time |
| Recorder.Recorder.constructor | app.js:31-32 | not recording, nothing logged |
| Recorder.Recorder.ClickStart | app.js:67-96 | while idle: start recording and log exactly one Start entry with the current label; while recording: flip the checkbox and log one Toggle entry with the new label; storage unchanged |
| Recorder.Recorder.ChangeCheckbox | app.js:102-110 | the checkbox flips; a Toggle entry with the new label is logged only while recording |
| Recorder.Recorder.ClickEnd | app.js:116-135 | one End entry is logged; the newline-joined log is saved under the save time's key; recording stops and the checkbox is cleared; a saved session parses back to the intervals of its entries |
| Recorder.ReadLogLine | app.js:225-232 | every log line the recorder writes reads back as the entry it records |
| Recorder.ReadLogLines | app.js:213-232 | the lines of a log read back as their entries, in order |
| Recorder.RecordedLogParses | app.js:116-121 | the saved text of a log, trimmed and split, reads back as exactly its entries |
| Recorder.SavedSessionParses | app.js:116-121 | the saved text of a session ended by End parses to the session's chained intervals |
| Segmentation.CoversEdges | app.js:435-440 | the interval test is half-open: the start time is in when the interval is not empty, the end time is never in, and a NaN time, start or end is never in |
| Segmentation.GapEdges | app.js:457 | the gap is 300000 ms: a later time is a gap exactly when it is more than 300000 ms after the last time, so exactly five minutes is none and one millisecond more is one; no earlier time is a gap, and there is none before the first timed point or next to a NaN |
| Segmentation.FindInterval | app.js:435-440 | the first interval, in list order, whose half-open range `start <= t < end` holds the time; later intervals are not consulted; none if no interval holds it |
| Segmentation.Flush | app.js:459-469 | a flush empties the current segment and adds its points to the Good or Avoid list by its type; a segment of any other state is dropped |
| Segmentation.SegmentsPartition | app.js:474-517 | the Good (Avoid) segments, flattened in order, are exactly the positions of the timed points whose first matching interval is Good (Avoid), in track order; every segment is a run |
| Segmentation.SegmentsMaximal | app.js:457-517 | segments are maximal: no point of a segment's state is linked after its last point (linked: the next timed point, at most five minutes later), so two consecutive segments of one state are never linked; each cut is a gap of more than five minutes, a point of another state or a point outside every interval |
| Segmentation.OneSegment | app.js:457-517 | a track whose timed points all lie in intervals of one state, with no gap of more than five minutes, gives exactly one segment of that state, or none without timed points |
| Segmentation.PositionsMembers | app.js:430-440 | a point is among the positions of a state exactly when it has a time and its first matching interval has that state |
| Segmentation.RunPointsClose | app.js:457-491 | in a segment, consecutive points are consecutive timed points of the track, both in an interval, and the later is at most five minutes after the earlier: a gap of exactly five minutes or a step back in time does not split |
| Segmentation.SegmentedPoints | app.js:413-517 | the point data of the Good (Avoid) segments, flattened, is the data of the Good (Avoid) timed points, in order |
| Segmentation.SplitSegments | app.js:413-517 | the loop and its final flush produce the point data of the segments of the specification, Good and Avoid |
| Segmentation.WrittenSegmentsReadBack | app.js:520-521 | no segment is empty, so, when no value needs XML escaping, the GPX document of the Good (Avoid) segments reads back as exactly those segments |
| Segmentation.ProcessGpxAndSplit | app.js:405-537 | the segments as above, and the two documents are their GPX text, which reads back as exactly those segments when no value needs escaping |
| Gpx.DocumentFrame | app.js:543-576 | the document starts with the XML declaration, `<gpx>`, `<trk>` and `<name>` header and ends with `  </trk>\n</gpx>` |
| Gpx.WritePoints | app.js:555-564 | the inner loop appends one `<trkpt>` text per point of the segment, in order |
| Gpx.GenerateGpxContent | app.js:543-576 | the loops build exactly the document of the segments |
| Gpx.NonEmpty | app.js:551 | the segments kept for writing are all non-empty |
| Gpx.PointRoundTrip | app.js:555-564 | when no value needs XML escaping, one `<trkpt>` records the point's lat and lon, its `<ele>` exactly when the elevation is defined, and its time |
| Gpx.PointsRoundTrip | app.js:555-564 | when no value needs XML escaping, the points of a segment read back in order, one `<trkpt>` each |
| Gpx.BodyRoundTrip | app.js:550-569 | when no value needs XML escaping, one `<trkseg>` per non-empty segment, in order, none for an empty one |
| Gpx.GpxRoundTrip | app.js:543-576 | reading the document gives back exactly the non-empty segments with all their points, in order |

## Left out

- The DOM and the UI are not modelled: element lookups, visibility, the state label text, alerts and `navigateTo`.
- Local date formatting with `toLocaleString` is not modelled. A listed recording's option text is therefore not part of the model; its key is.
- The clock is a parameter. `new Date().toISOString()` is assumed to give an instant of the form `YYYY-MM-DDTHH:MM:SS.sssZ` (years 0 to 9999).
  - `Recorder.Recorder.ClickEnd` takes two instants, because the End handler and `saveRecordingLocally` each read the clock.
- `localStorage` is the map field `storage`, and `Object.keys` order is the key sequence passed to `PopulateRecordingList`.
- `RecordingKeys.PopulateRecordingList` does not model the "Corrupted Name" option. The code sets that option's text and then returns without appending it, so such a key is never listed.
- The XML extraction of track points with `DOMParser` is not modelled. The model takes the list of points, each with an optional time, lat, lon and an optional elevation.
  - `FileReader` callbacks and the file selection that deliver the texts are not modelled either.
- `parseFloat` and JavaScript number rendering are not modelled: lat, lon and elevation are kept as the strings they render to.
- Date parsing with `new Date(s).getTime()` is a parameter the model assumes nothing about.
- `displaySplitMap`, the Leaflet map, `downloadFile` and `service-worker.js` are not modelled: they are rendering, downloading and caching.
- Gpx.PointRoundTrip: holds only under the no-escaping condition `Plain`, as Gpx.GpxRoundTrip does, for the same reason.
- Gpx.PointsRoundTrip: holds only under the no-escaping condition `Plain`, as Gpx.GpxRoundTrip does, for the same reason.
- Gpx.BodyRoundTrip: holds only under the no-escaping condition `Plain`, as Gpx.GpxRoundTrip does, for the same reason.
- Segmentation.WrittenSegmentsReadBack: holds only under the no-escaping condition `PlainTrack`, as Gpx.GpxRoundTrip does, for the same reason.
- Gpx.GpxRoundTrip: holds only for points whose values need no XML escaping (no `"` in lat or lon, no `<` in elevation or time). The writer does not escape, so other values cannot be read back.
- Segmentation.ProcessGpxAndSplit: states the read-back of its documents only under the same no-escaping condition, `PlainTrack`.
- The initial state of the checkbox is a constructor parameter.
- The End handler does not check `recording`. The model follows the code: End while idle also logs an End entry and saves.
