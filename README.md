# strava-backup, modelled in Dafny

This project models the core of `backup.py`, the incremental activity backup of
strava-backup. A run of the backup does three things:

1. It scans the backup directory, reading every file whose name ends in `.json`
   but not in `_streams.json` (the summaries `{id}.json` among them). It takes
   the latest readable `start_date` found there as a resume cursor, in epoch
   seconds.
2. It lists the athlete's activities page by page, 30 per page. The cursor is
   sent as `after` when it is truthy. Listing stops at the first empty page or
   error object.
3. For each listed activity it writes the summary if missing. If the streams
   file or the track file is missing, it requests the telemetry streams once.
   When the answer is truthy it writes the streams file if missing, and the
   track file if missing and `create_gpx` produces a document (a falsy answer
   writes nothing, and no document is produced without `latlng` and `time`
   streams). The track file is a GPX 1.1
   document built from the streams. A one-second pause follows every truthy
   streams response, unless building the track raises: the exception ends the
   pass before the pause.

Modules, one per concern of the program:

- `Opt`: `Option`, `Result`, and `Collect`, which turns a list of attempts into
  the first error or all values.
- `Decimal`: decimal digit strings, as f-strings and `strftime` write integers.
- `UtcTime`: the proleptic Gregorian calendar in UTC, and the strict
  `%Y-%m-%dT%H:%M:%SZ` format with its parser. It also gives conversion to and
  from epoch seconds.
- `Records`: activity summaries, stream samples, and the pivot of a stream list
  into a map from stream type to samples.
- `Gpx`: `Reconstruct` is the document `create_gpx` describes, as data.
  `Render` is its text. The method `CreateGpx` builds the text point by point,
  as the program does, and is proved to equal `Render(Reconstruct(...))`.
- `Listing`: the paging loop of `get_activities` over an endpoint given as a
  function.
- `Store`: the directory as the class `ActivityStore`, whose method
  `SaveActivities` performs the pass of `save_activities`. `SaveAll` is the same
  pass as a function of the directory before it; the idempotence and
  no-overwrite lemmas are stated about `SaveAll`.
- `Cursor`: the resume-cursor scan of `main`.
- `Backup`: `main` after the credential check: the scan, then listing, then
  saving.

The two network endpoints are parameters:

- the activities endpoint is a function from the request query to the decoded
  response;
- the streams endpoint is a function from the activity id to an optional
  stream list.

The document declares the heart-rate extension namespace whenever a
`heartrate` stream exists (`backup.py:158-159`), even one whose samples are all
null. `Gpx.DocumentHeader` states this.

## Model

| member | source | states |
|---|---|---|
| Gpx.CreateGpx | backup.py:90-161 | The text built point by point is exactly the rendering of the reconstructed document. That is: no document when a position or time stream is missing; the first exception otherwise; header, metadata, one `<trkpt>` per position sample and footer on success |
| Gpx.BuildPoint | backup.py:134-140 | The loop-body step of `CreateGpx`, proved equal to `PointAt`: one iteration yields exactly point i of the reconstruction, or the exception it raises: a malformed position, a short stream, a non-integer offset, or a time outside years 1..9999 |
| Gpx.TrackPoints | backup.py:132-155 | The loop yields the `<trkpt>` elements of all points in order, or the exception of the first point that fails |
| Gpx.NotRepresentableIff | backup.py:116-119 | `create_gpx` returns `None` if and only if the stream list has no `latlng` type or no `time` type |
| Gpx.FailedIff | backup.py:126-140 | With both streams present, building fails if and only if the start date is missing or unparseable or some point fails. The exception raised is that of the first failing point, and all earlier points are buildable |
| Gpx.DocumentPoints | backup.py:129-155 | The document has one point per position sample, in order. Point i carries position i, and its time is the start instant shifted by time[i] seconds. It has an elevation (heart rate) exactly when the altitude (heartrate) stream exists and sample i is non-null, rendered as that sample |
| Gpx.PointTimesReadBack | backup.py:126-140 | Every point time parses back to the start instant plus that point's elapsed seconds |
| Gpx.DocumentHeader | backup.py:98-99 | The namespace is declared exactly when a `heartrate` stream exists (lines 158-159). The metadata time is the raw `start_date`, and the track name is `name`, or "Activity" when it is absent |
| Records.StreamMapKeys | backup.py:116 | The stream map's keys are exactly the types present in the list |
| Records.StreamMapLastWins | backup.py:116 | For a type listed more than once, the samples of its last stream are kept |
| UtcTime.ParseFormat | backup.py:126 | Parsing the formatted form of any instant in years 1..9999 gives that instant back |
| UtcTime.FormatParse | backup.py:140 | Every string the strict parser accepts is the formatted form of what it parses to |
| UtcTime.EpochRoundTrip | backup.py:127 | Converting a valid date-time to epoch seconds and back gives the same date-time |
| UtcTime.EpochInjective | backup.py:127 | Distinct valid date-times have distinct epoch seconds |
| UtcTime.EpochOrder | backup.py:226-232 | Comparing two date-times (`start_date > latest_date`) agrees with comparing their epoch seconds, in both directions |
| UtcTime.BeforeOrder | backup.py:226 | The date-time comparison is a strict total order |
| UtcTime.DayRollover | backup.py:140 | 30 seconds after 2024-02-19T23:59:50Z is formatted as 2024-02-20T00:00:20Z |
| UtcTime.YearAndLeapDayRollover | backup.py:140 | Shifting across a year end and into 29 February of a leap year lands on the right calendar day |
| Decimal.IntegerRoundTrip | backup.py:172 | The decimal rendering of an id reads back as that id |
| Decimal.IntegerInjective | backup.py:172 | Distinct ids render differently |
| Decimal.PaddedRoundTrip | backup.py:140 | A zero-padded field of the formatter reads back as its value |
| Listing.GetActivities | backup.py:36-66 | Requests pages 1, 2, ... in order, each with per_page 30 and `after` only when it is truthy. Stops at the first empty list or error object, and returns the concatenation of the earlier pages |
| Listing.SentAfter | backup.py:49-50 | `after` is sent if and only if it is present and non-zero, and then unchanged |
| Listing.EmptyFirstPage | backup.py:55-56 | An empty first page means one request and no activities |
| Listing.FirstStopUnique | backup.py:46-60 | The number of requests is determined by the endpoint |
| Listing.FetchedPrefix | backup.py:62 | Collecting fewer pages gives a prefix of collecting more |
| Listing.PageInPlace | backup.py:62 | The entries of page j appear unchanged and in order after those of pages 1..j-1 |
| Listing.FullPagesCount | backup.py:44 | k full pages give exactly 30k activities |
| Store.ActivityStore.constructor | backup.py:14 | A store starts with the directory absent and empty, no pauses and no requests |
| Store.ActivityStore.SaveActivity | backup.py:169-203 | Requires the directory to exist, as it does after `os.makedirs` (backup.py:165-166). One iteration of the loop leaves the directory, pauses, requests and count as `SaveOne` says |
| Store.ActivityStore.FetchStreams | backup.py:182-202 | Requires the directory to exist, as it does after `os.makedirs` (backup.py:165-166). The streams half of one iteration leaves the directory, pauses and requests as `FetchMissing` says: a request only when the streams or track file is missing, and writes only from a truthy response |
| Store.ActivityStore.WriteTrack | backup.py:193-200 | Requires the directory to exist, as it does after `os.makedirs` (backup.py:165-166). The track file is written with the built document exactly when one is produced. An exception leaves the directory unchanged and is returned |
| Store.ActivityStore.SaveActivities | backup.py:163-205 | The pass creates the directory. Its final directory, pauses, requests, count and exception are those of `SaveAll` from the state before it |
| Store.NamesDistinct | backup.py:172 | The summary, streams and track names never coincide, whatever the two ids (also lines 180-181) |
| Store.SummaryNameInjective | backup.py:172 | Distinct ids have distinct summary files |
| Store.SaveOneWrites | backup.py:171-178 | One activity keeps every existing file unchanged and only adds its own three names. Its summary is present afterwards, and was written and counted exactly when it was missing |
| Store.FetchAndThrottle | backup.py:186-202 | Streams are requested exactly when the streams or track file is missing. The pause is taken exactly when the response was truthy and nothing raised. An exception implies a truthy response with the track file missing |
| Store.TrackWrittenOnlyWhenProduced | backup.py:193-199 | A new track file comes from a truthy response for which the builder produced a document, and holds that document |
| Store.StreamsWrittenOnlyWhenTruthy | backup.py:187-191 | A new streams file comes from a truthy response and holds it |
| Store.SaveAllStopsAt | backup.py:168-203 | After an exception the pass is over: later activities change nothing |
| Store.NeverOverwrites | backup.py:175 | A pass never rewrites or removes an existing file (also lines 189 and 193) |
| Store.SummariesAfter | backup.py:168-178 | After a pass that raised nothing, the summary names present are those before plus those of the listed activities |
| Store.SavedCount | backup.py:167-178 | `saved_count` equals the number of distinct listed ids whose summary was missing |
| Store.NoNewSummaries | backup.py:175-178 | When every listed summary exists, nothing is counted |
| Store.SecondRunSavesNothing | backup.py:163-205 | Re-running over the same list saves 0 and keeps every file of the first run, whatever the streams endpoint answers |
| Store.RerunIsIdentical | backup.py:163-205 | Re-running over the same list with the same streams answers after a pass that raised nothing leaves the directory exactly as the first pass left it, raises nothing and saves 0 |
| Store.AllSettled | backup.py:175-199 | After a pass that raised nothing, every listed activity has its summary, and either both streams and track files, or a falsy streams answer, or a streams file whose track cannot be represented |
| Store.SettledPassIsFixed | backup.py:175-199 | A pass over activities that are all settled writes nothing and raises nothing |
| Store.CompleteIsUntouched | backup.py:186 | Activities whose three files exist cause no write, no request and no pause |
| Store.FetchBudget | backup.py:186-202 | At most one request per listed entry, requests are only appended, and every pause follows a request |
| Cursor.EntryStart | backup.py:219-225 | The loop-body step of `ResumeCursor`, proved equal to `StartOf`: one directory entry contributes its parsed `start_date` only for a summary-named summary file with a non-empty, well-formed start date |
| Cursor.Later | backup.py:226-227 | The loop-body update of `ResumeCursor`, whose effect on the scan `ScanStep` proves: the cursor moves to the new instant only when there was none or the new one is later |
| Cursor.ScanStep | backup.py:218-227 | Visiting one more entry keeps the cursor the greatest start instant seen, and one that some seen entry has |
| Cursor.LatestStart | backup.py:218-228 | The scan, in any visiting order, yields no instant exactly when no entry has one. Otherwise it yields an instant some entry has, and no entry starts later |
| Cursor.ResumeCursor | backup.py:212-233 | The cursor is absent exactly when the directory is absent or holds no readable start date. Otherwise it is the epoch second of one entry's start date, and no entry's is larger |
| Cursor.ScanSeesSummaries | backup.py:219 | The scan's name filter accepts `{id}.json` and rejects `{id}_streams.json` and `{id}.gpx` |
| Cursor.SavedSummaryStart | backup.py:176-177 | A summary the pass wrote contributes exactly its own parsed start date to the next scan |
| Cursor.CursorUnique | backup.py:212-233 | A directory determines its resume cursor: any two values meeting the scan's promise are equal |
| Backup.RunBackup | backup.py:207-238 | Computes the cursor as `ResumeCursor` (absent iff nothing is dated, otherwise attained by some summary and no earlier than any), then lists from it as `GetActivities`, then saves the listed activities as `SaveActivities`. When nothing raised, every listed activity has its summary in the directory afterwards |

## Left out

- Local time: `timestamp()` and `fromtimestamp()` interpret naive date-times in the machine's local time zone. The model uses UTC throughout, so time zone offsets and daylight-saving gaps are not modelled.
- Gpx.PointAt: a time offset that is a float (Python would add it and format the result) is modelled as the failure `BadTimeOffset`. Floating-point arithmetic is not modelled.
- Records.Show: floats are carried as the text `str()` gives them. Python's float formatting is not modelled.
- UtcTime.Parse: accepts exactly the zero-padded form. The leniencies of `strptime` (single-digit fields and the like) are not modelled; such strings count as unparseable.
- Records.Activity: `name` is absent or a string. A summary whose `name` is present but null (rendered as `None`) is not modelled.
- Gpx.Header: the insertion of the namespace is written as a choice between two fixed headers, not as a string replacement. The header holds exactly one `xmlns:xsi=`, so the two agree.
- JSON encoding and decoding of summaries and streams files are not modelled. A file is kept as the value it holds, and any file the scan cannot decode is `OtherFile`.
- XML escaping is not modelled: the program does none; names and sample texts are copied into the document verbatim.
- Listing.PageResponse: a response body that is a non-empty object without `message`, or another JSON shape, is not modelled.
- Listing.GetActivities: requires that some page ends the listing, because the program loops forever otherwise.
- Listing.GetActivities: the activities endpoint is a total function. In the program, `requests.get` and `res.json()` (`backup.py:52-53`) can raise and abort the run; that failure is not modelled.
- Backup.RunBackup: requires that the listing ends from the cursor the scan computes, for the same reason. `Cursor.CursorUnique` shows that the cursors the requirement ranges over are that one cursor.
- The streams endpoint is a fixed function of the activity id. HTTP status codes, exceptions it swallows, the requested stream keys and the access token are not modelled; a failed request is `None`.
- The token exchange (`get_access_token`), the credential check at the start of `main`, and `get_refresh_token.py` are not modelled.
- Console output, the one-second sleep's wall-clock duration (only the count of pauses is kept), `os.makedirs` beyond the directory becoming present, and the `GITHUB_WORKSPACE`/`STRAVA_OUTPUT_DIR` path configuration are not modelled.
- Store.SaveOne: `if gpx_content:` is modelled as a test for a produced document. A produced document is never the empty string, since the header alone is non-empty.
