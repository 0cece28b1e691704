# Upload limits: a Dafny model of the limit check

This project models the core of a video-hosting plugin that enforces upload
limits: a maximum file size (decimal megabytes, "Mo"), a maximum video bitrate
(Mbps) and a maximum audio bitrate (kbps). It covers four parts:

- **`checkLimits`** (`SharedHelpers.CheckLimits`). It is modelled as a method
  whose loop builds the list of violation lines step by step, as the source's
  `forEach` does. The method is proved against the specification function
  `SharedHelpers.CheckOutcome`.
- **The browser byte-range reader** (`SharedHelpers.ReadChunkBrowser`). It
  returns a slice of the file, clipped at end-of-file.
- **The server byte-range reader** (`ServerHelpers.ReadChunkNode`). It returns
  a zero-filled buffer of the requested length.
- **The server's acceptance hook** (`UploadHandler.Handler`). It decides
  whether the upload is accepted.

The media analyzer (mediainfo) is a foreign library, so it is not modelled
inside. For one file its behaviour is an input value, `MediaInfoLib`:

- `LoadFailed(e)`: the `MediaInfo()` factory rejects.
- `Loaded(AnalysisFailed(e))`: the factory loads but `analyzeData` rejects.
- `Loaded(Media(tracks))`: the analysis yields the track list.

`CheckLimits` returns `analyzeCalls`, which counts the calls to `analyzeData`.

In the hook, three awaited calls are also inputs describing how they ended:
reading the settings, opening `videoFile.path`, and the analyzer.

## Modelling choices

- **Limits are settings.** The settings store hands them over as strings. A
  limit is a `Setting` with three cases:
  - `Absent`: `undefined`, `null` or `''`. These are falsy, so the limit is off.
  - `Numeral(n)`: the decimal string of `n`. A non-empty string is truthy, even `"0"`.
  - `Number(n)`: a plain number. It is falsy when it is 0.
- **Truthiness and amount.** `Truthy` is JavaScript's truthiness test. `Amount`
  is the value after numeric coercion. A limit is rendered in a message with
  `Text.DecimalString`.
- **Tracks.** A track carries its `@type` string and an optional `BitRate`. A
  missing bit rate never exceeds a limit, because `undefined > n` is false.
- **Bytes.** A file is a `seq<byte>`.

The specification of this system and its code differ in the places below.
The model follows the code in each:

- **One line per track.** The code adds one line per offending track, not one
  line per dimension, and it does not deduplicate (see `OnlyVideoLimit`,
  `TrackLinesCount`).
- **The string "0".** A zero limit is "unset" only when it is the number 0. The
  string `"0"`, which is what the settings store yields, is an active limit of
  zero (`ZeroNumeralIsActive`).
- **The server reader past end-of-file.** The server reader does not return a
  short chunk at end-of-file; it pads with zeros. So the two readers agree only
  when the window lies inside the file (`ReadersAgreeIff`). See Findings.
- **No limit, but the analyzer fails to load.** With no limit set the check
  is meant always to succeed. The code awaits the `MediaInfo()` factory before
  anything else, so if the factory rejects, the check throws its error even
  with no limit set (`LoadFailureThrows`). The server hook does not reach
  this case: it accepts before calling the check when no setting is truthy
  (`NoLimitAcceptsWithoutFile`).
- **A failed browser read.** The browser reader is meant to reject on a read
  error. In the code that rejection cannot happen, and the read never settles
  (see "Left out").
- **Non-numeric settings.** A non-numeric setting is meant to count as unset.
  In the code a non-empty string such as `"abc"` is truthy: as a bitrate limit
  it still makes the check call `analyzeData`, and then it never adds a line,
  because every comparison with `NaN` is false. `Setting` cannot represent
  such a string, so this case is outside the model (see "Left out").

## Model

| member | source | states |
|---|---|---|
| `SharedHelpers.CheckLimits` | helpers/shared-helpers.js:1-38 | The outcome equals `CheckOutcome`. `analyzeData` is called at most once. It is called exactly when the analyzer loaded and a video or audio limit is truthy. |
| `SharedHelpers.TrackLinesAppend` | helpers/shared-helpers.js:20-32 | Track lines follow track-array order: the lines of `a + b` are the lines of `a` followed by the lines of `b`. |
| `SharedHelpers.TrackLinesCount` | helpers/shared-helpers.js:20-32 | There is no deduplication. The number of track lines equals the number of offending video tracks plus offending audio tracks. That number is at most the number of Video and Audio tracks. |
| `SharedHelpers.TrackLinesAreBitrateLines` | helpers/shared-helpers.js:21-31 | Every track line is either the "<videoBitrateError> <limit> Mbps." line or the "<audioBitrateError> <limit> kbps." line. |
| `SharedHelpers.TrackLinesEmpty` | helpers/shared-helpers.js:20-32 | The tracks contribute no line if and only if no track exceeds its active limit. |
| `SharedHelpers.OnlyVideoLimit` | helpers/shared-helpers.js:21-31 | With no audio limit, the track lines are the video line repeated once per offending video track, so there is never an audio line. |
| `SharedHelpers.OnlyAudioLimit` | helpers/shared-helpers.js:21-31 | With no video limit, the track lines are the audio line repeated once per offending audio track, so there is never a video line. |
| `SharedHelpers.NoLimitPasses` | helpers/shared-helpers.js:10-17 | With no truthy limit and a loaded analyzer, the check returns normally whatever the size and the analysis. |
| `SharedHelpers.LoadFailureThrows` | helpers/shared-helpers.js:8 | If the `MediaInfo()` factory rejects, the check throws that error whatever the limits, including when none is set. |
| `SharedHelpers.SizeLineIff` | helpers/shared-helpers.js:11-15 | With a size limit set, the size line is produced if and only if the size is strictly above limit × 1 000 000. A size exactly at the limit passes. |
| `SharedHelpers.CheckPassesIff` | helpers/shared-helpers.js:8-37 | The check returns normally if and only if all of these hold: the analyzer loaded; the size is within its limit; and, when a bitrate limit is truthy, the analysis succeeded and no track exceeds. |
| `SharedHelpers.ViolationMessage` | helpers/shared-helpers.js:10-37 | After a successful analysis, and for any message prefixes: the check throws if and only if there is a violation line; the message is the lines joined by newlines; the size line (if any) comes first; there are at most 1 + the number of Video/Audio tracks lines. |
| `SharedHelpers.ViolationMessageSplits` | helpers/shared-helpers.js:35-37 | When no message prefix contains a line break, splitting a violation message on newlines gives back exactly its lines. |
| `SharedHelpers.SampleWithinLimits` | test/server-and-shared-helpers.test.js:25 | Limits "10"/"10"/"384" that are not exceeded give a normal return. |
| `SharedHelpers.SampleSizeExceeded` | test/server-and-shared-helpers.test.js:27-29 | A size limit "1" on a file over 1 000 000 bytes throws exactly "FileSize exceeds 1 Mo.". |
| `SharedHelpers.SampleVideoExceeded` | test/server-and-shared-helpers.test.js:31-33 | A video limit "1" on a video track over 1 000 000 bit/s throws exactly "VideoBitrate exceeds 1 Mbps.". |
| `SharedHelpers.SampleAudioExceeded` | test/server-and-shared-helpers.test.js:35-37 | An audio limit "10" on an audio track over 10 000 bit/s throws exactly "AudioBitrate exceeds 10 kbps.". |
| `SharedHelpers.SampleAllExceeded` | test/server-and-shared-helpers.test.js:39-43 | With all three exceeded, the message is the three default lines in size, video, audio order, separated by newlines. |
| `SharedHelpers.ZeroNumeralIsActive` | helpers/shared-helpers.js:11-13 | A size setting of the string "0" is truthy. With no bitrate limit set and a loaded analyzer, every non-empty file then throws "FileSize exceeds 0 Mo.". |
| `SharedHelpers.ReadChunkBrowser` | helpers/shared-helpers.js:40-54 | The chunk is `file[offset .. min(offset + chunkSize, size)]`. It is shorter than `chunkSize` at end-of-file and empty when `offset >= size`. |
| `SharedHelpers.ReadChunkBrowserAdjacent` | helpers/shared-helpers.js:52 | Reads are positional: reading two adjacent windows gives the same bytes as reading the window that covers both. |
| `Text.DecimalString` | helpers/shared-helpers.js:13 | A limit is rendered as a non-empty string of decimal digits with no leading zero (unless the limit is 0) and no line break. |
| `Text.ParseDecimalString` | helpers/shared-helpers.js:13 | The number rendered in a message is exactly the configured limit: parsing the digits gives it back. |
| `Text.Join` | helpers/shared-helpers.js:36 | `errors.join('\n')`: no lines give "", one line gives that line. `Text.SplitJoin` proves it is undone by `Text.Split`. |
| `Text.Split` | client/common-client-plugin.js:167 | `message.split('\n')`: it gives one more part than the message has line breaks, and a message without a line break gives just itself. |
| `Text.SplitJoin` | client/common-client-plugin.js:167 | Splitting a newline-joined message on newlines (as the browser does before it shows one notification per line) gives back the lines, when no line contains a newline. |
| `ServerHelpers.ReadChunkNode` | helpers/server-helpers.js:1-5 | The chunk always has exactly `chunkSize` bytes. Its byte `i` is `file[offset + i]` inside the file and 0 past end-of-file. |
| `ServerHelpers.ReadChunkNodeIsPaddedBrowserChunk` | helpers/server-helpers.js:3-4 | The server chunk is the browser chunk followed by zeros up to `chunkSize`. |
| `ServerHelpers.ReadersAgreeIff` | helpers/server-helpers.js:1-5 | The two readers return the same bytes if and only if the window is empty or lies inside the file (`offset + chunkSize <= size`). |
| `ServerHelpers.PastEndOfFileCounterexample` | helpers/server-helpers.js:3-4 | On a 3-byte file, a 4-byte read at offset 1 gives `[2, 3, 0, 0]` on the server and `[2, 3]` in the browser. |
| `ServerHelpers.ReadChunkNodeBytesRead` | helpers/server-helpers.js:3-4 | Keeping only the `bytesRead` bytes of the buffer gives exactly the browser chunk, for every window. |
| `UploadHandler.Handler` | main.js:41-90 | The upload is accepted only if it was accepted upstream. An upstream rejection gives `{accepted: false}` with no message. There is an error message exactly when this hook rejects an upload that was accepted upstream. |
| `UploadHandler.NoLimitAcceptsWithoutFile` | main.js:56-62 | With no truthy setting the result is `{accepted: true}`. It does not depend on the file's size, on opening it, or on the analyzer. |
| `UploadHandler.HandlerAcceptsIff` | main.js:41-90 | The result is accepted if and only if all of these hold: the upload was accepted upstream; the settings were read; and either no limit is set, or the file opened, the analyzer loaded, the size is within its limit and (with a bitrate limit) the analysis succeeded with no track exceeding. |
| `UploadHandler.HandlerReportsException` | main.js:49-89 | Any exception becomes `{accepted: false, errorMessage: error.message}`. This covers a settings failure, an open failure, and any throw of the check on the settings' limits and `videoFile.size`. A normal return of the check is an acceptance. |
| `UploadHandler.HandlerViolationLines` | main.js:66-89 | A rejection for limit violations carries those lines joined by newlines, with the default prefixes. Splitting the message gives back the lines. |

## Findings

| source | as written | input that shows it | evidently intended | confidence | as-written member | corrected member |
|---|---|---|---|---|---|---|
| helpers/server-helpers.js:3-4 | The whole `Buffer.alloc(chunkSize)` buffer is returned, so a read past end-of-file is padded with zeros. | A 3-byte file, `chunkSize` 4, `offset` 1: the server gives `[2, 3, 0, 0]`, the browser gives `[2, 3]`. | Return only the `bytesRead` bytes, so that both readers are byte-identical for every window. | medium, not executed | `ServerHelpers.ReadChunkNode` (with `ServerHelpers.PastEndOfFileCounterexample`, `ServerHelpers.ReadersAgreeIff`) | `ServerHelpers.ReadChunkNodeBytesRead` |

No other part of the model reads chunks: the analyzer that would call the
reader is an input.

## Left out

- The internals of the mediainfo analyzer (its factory and `analyzeData`) are a foreign WASM library. Its result for one file is an input (`MediaInfoLib`), so the reads it makes through the chunk reader are not modelled.
- The `FileReader` event mechanics of `readChunkBrowser` are not modelled. Its only handler is `onload`, which runs after a successful read, so the `reject` inside it cannot run. A failed browser read leaves the chunk's promise pending, and `checkLimits` never settles. This hang is not modelled.
- A failure of the server's `fileHandle.read` rejects the chunk's promise. It reaches the check only as an analyzer failure (`AnalysisFailed`). The server reader assumes that a positioned read of a regular file fills the buffer up to end-of-file.
- The file handle opened in `handler` is never closed. This resource handling is not modelled.
- `register`, `unregister`, the `console.log` calls, the client plugin (DOM, polling, `fetch`, toasts, modals, markdown), the client DOM helpers and the bundler configuration are not part of this model.
- Only whole-number limits are modelled. Non-numeric strings such as `"abc"` (truthy, but never exceeded because they coerce to `NaN`), non-integer strings such as `"1.5"`, general string-to-number coercion, and floating-point precision above 2^53 bytes or bit/s are left out.
- Settings are read with `Promise.all`. This is modelled as a single outcome: either all three values, or the error of the first failing read.
- The hook uses the default message prefixes. The client passes its own translations; in the check they are a parameter (`Translations`).
- Idempotence and "the file is never modified" need no lemma. The check and the readers are functions of values, so equal inputs give equal results and the file cannot change.
