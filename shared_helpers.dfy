/**
 * The shared helpers: the upload-limit check run both in the browser and on
 * the server, and the browser's byte-range reader.
 *
 * The metadata analyzer (mediainfo) is a foreign library; its observable
 * behaviour for one file is an input value (`MediaInfoLib`): either its
 * factory fails to load, or it loads and its analysis either fails or yields
 * the list of tracks.
 */
module SharedHelpers {
  import opened Wrappers
  import opened Text

  newtype byte = x: int | 0 <= x < 256

  function Min(a: nat, b: nat): nat {
    if a <= b then a else b
  }

  // ---------------------------------------------------------------------------
  // Limits, tracks and the analyzer
  // ---------------------------------------------------------------------------

  /**
   * One limit as the caller hands it over. The settings store yields strings:
   * `Absent` stands for `undefined`, `null` or the empty string (all falsy),
   * `Numeral(n)` for the non-empty decimal string of `n` (truthy, even "0"),
   * and `Number(n)` for a plain number (falsy when it is 0).
   */
  datatype Setting = Absent | Number(n: nat) | Numeral(n: nat)

  /** JavaScript truthiness of the setting: whether the limit is active. */
  predicate Truthy(s: Setting) {
    match s
    case Absent => false
    case Number(n) => n != 0
    case Numeral(_) => true
  }

  /** The numeric value of the setting once multiplied (`'10' * 1000` is 10000). */
  function Amount(s: Setting): nat {
    match s
    case Absent => 0
    case Number(n) => n
    case Numeral(n) => n
  }

  /** Size limit in decimal megabytes, video in Mbps, audio in kbps. */
  datatype Limits = Limits(fileSize: Setting, videoBitrate: Setting, audioBitrate: Setting)

  /** The message prefix for each dimension. */
  datatype Translations = Translations(fileSizeError: string, videoBitrateError: string, audioBitrateError: string)

  predicate NoLineBreakIn(tr: Translations) {
    '\n' !in tr.fileSizeError && '\n' !in tr.videoBitrateError && '\n' !in tr.audioBitrateError
  }

  const DefaultTranslations: Translations :=
    Translations("FileSize exceeds", "VideoBitrate exceeds", "AudioBitrate exceeds")

  /** One track of the analysis: its `@type` and its `BitRate` (missing on some tracks). */
  datatype Track = Track(kind: string, bitRate: Option<nat>)

  datatype Analysis = Media(tracks: seq<Track>) | AnalysisFailed(error: string)

  /** `MediaInfo()` either rejects, or yields an analyzer whose `analyzeData` gives `analysis`. */
  datatype MediaInfoLib = LoadFailed(error: string) | Loaded(analysis: Analysis)

  // ---------------------------------------------------------------------------
  // What the check decides
  // ---------------------------------------------------------------------------

  predicate AnalysisNeeded(limits: Limits) {
    Truthy(limits.videoBitrate) || Truthy(limits.audioBitrate)
  }

  predicate AnyLimit(limits: Limits) {
    Truthy(limits.fileSize) || AnalysisNeeded(limits)
  }

  /** `undefined > n` is false, so a track without a bit rate never exceeds. */
  predicate BitRateAbove(track: Track, threshold: nat) {
    track.bitRate.Some? && track.bitRate.value > threshold
  }

  predicate SizeExceeded(size: nat, limits: Limits) {
    Truthy(limits.fileSize) && size > Amount(limits.fileSize) * 1000000
  }

  predicate VideoExceeded(track: Track, limits: Limits) {
    Truthy(limits.videoBitrate) && track.kind == "Video"
    && BitRateAbove(track, Amount(limits.videoBitrate) * 1000000)
  }

  predicate AudioExceeded(track: Track, limits: Limits) {
    Truthy(limits.audioBitrate) && track.kind == "Audio"
    && BitRateAbove(track, Amount(limits.audioBitrate) * 1000)
  }

  predicate NoTrackExceeds(tracks: seq<Track>, limits: Limits) {
    forall i :: 0 <= i < |tracks| ==> !VideoExceeded(tracks[i], limits) && !AudioExceeded(tracks[i], limits)
  }

  function FileSizeLine(limits: Limits, tr: Translations): string {
    tr.fileSizeError + " " + DecimalString(Amount(limits.fileSize)) + " Mo."
  }

  function VideoLine(limits: Limits, tr: Translations): string {
    tr.videoBitrateError + " " + DecimalString(Amount(limits.videoBitrate)) + " Mbps."
  }

  function AudioLine(limits: Limits, tr: Translations): string {
    tr.audioBitrateError + " " + DecimalString(Amount(limits.audioBitrate)) + " kbps."
  }

  /** The line the size check contributes, if any. */
  function SizeLines(size: nat, limits: Limits, tr: Translations): seq<string> {
    if SizeExceeded(size, limits) then [FileSizeLine(limits, tr)] else []
  }

  /** The lines one track contributes: video check first, then audio check. */
  function LinesOfTrack(track: Track, limits: Limits, tr: Translations): seq<string> {
    (if VideoExceeded(track, limits) then [VideoLine(limits, tr)] else [])
    + (if AudioExceeded(track, limits) then [AudioLine(limits, tr)] else [])
  }

  /** The lines all tracks contribute, in track order. */
  function TrackLines(tracks: seq<Track>, limits: Limits, tr: Translations): seq<string> {
    if tracks == [] then [] else LinesOfTrack(tracks[0], limits, tr) + TrackLines(tracks[1..], limits, tr)
  }

  /** Throw with the joined lines if there are any, otherwise return. */
  function Verdict(lines: seq<string>): Completion {
    if |lines| > 0 then Thrown(Join(lines)) else Normal
  }

  /** The lines of a check whose analysis (if needed) succeeded. */
  function Violations(size: nat, tracks: seq<Track>, limits: Limits, tr: Translations): seq<string> {
    SizeLines(size, limits, tr) + (if AnalysisNeeded(limits) then TrackLines(tracks, limits, tr) else [])
  }

  /**
   * The outcome of `checkLimits` for a file of `size` bytes whose analyzer
   * behaves as `mediaInfo`. The analysis is consulted only when a bitrate
   * limit is active, so its tracks are irrelevant otherwise.
   */
  function CheckOutcome(size: nat, mediaInfo: MediaInfoLib, limits: Limits, tr: Translations): Completion {
    match mediaInfo
    case LoadFailed(e) => Thrown(e)
    case Loaded(analysis) =>
      if AnalysisNeeded(limits) && analysis.AnalysisFailed? then Thrown(analysis.error)
      else Verdict(Violations(size, if analysis.Media? then analysis.tracks else [], limits, tr))
  }

  // ---------------------------------------------------------------------------
  // checkLimits
  // ---------------------------------------------------------------------------

  /**
   * `checkLimits`: accumulates violation lines step by step and throws them
   * joined by newlines. `analyzeCalls` counts the calls to `analyzeData`.
   */
  method CheckLimits(size: nat, mediaInfo: MediaInfoLib, limits: Limits, translations: Translations)
    returns (outcome: Completion, analyzeCalls: nat)
    ensures outcome == CheckOutcome(size, mediaInfo, limits, translations)
    ensures analyzeCalls <= 1
    ensures analyzeCalls == 1 <==> mediaInfo.Loaded? && AnalysisNeeded(limits)
  {
    analyzeCalls := 0;
    if mediaInfo.LoadFailed? {
      outcome := Thrown(mediaInfo.error);
      return;
    }

    var errors: seq<string> := [];
    if Truthy(limits.fileSize) {
      if size > Amount(limits.fileSize) * 1000000 {
        errors := [FileSizeLine(limits, translations)];
      }
    }

    if Truthy(limits.videoBitrate) || Truthy(limits.audioBitrate) {
      analyzeCalls := analyzeCalls + 1;
      match mediaInfo.analysis {
        case AnalysisFailed(e) =>
          outcome := Thrown(e);
          return;
        case Media(tracks) =>
          var i := 0;
          while i < |tracks|
            invariant 0 <= i <= |tracks|
            invariant errors == SizeLines(size, limits, translations) + TrackLines(tracks[..i], limits, translations)
          {
            var track := tracks[i];
            if Truthy(limits.videoBitrate) && track.kind == "Video" {
              if track.bitRate.Some? && track.bitRate.value > Amount(limits.videoBitrate) * 1000000 {
                errors := errors + [VideoLine(limits, translations)];
              }
            }
            if Truthy(limits.audioBitrate) && track.kind == "Audio" {
              if track.bitRate.Some? && track.bitRate.value > Amount(limits.audioBitrate) * 1000 {
                errors := errors + [AudioLine(limits, translations)];
              }
            }
            TrackLinesAppend(tracks[..i], [track], limits, translations);
            assert tracks[..i + 1] == tracks[..i] + [track];
            i := i + 1;
          }
          assert tracks[..|tracks|] == tracks;
      }
    }

    if |errors| > 0 {
      outcome := Thrown(Join(errors));
    } else {
      outcome := Normal;
    }
  }

  // ---------------------------------------------------------------------------
  // Properties of the check
  // ---------------------------------------------------------------------------

  /** Track lines keep track order: the lines of a concatenation are the concatenated lines. */
  lemma {:induction false} TrackLinesAppend(a: seq<Track>, b: seq<Track>, limits: Limits, tr: Translations)
    ensures TrackLines(a + b, limits, tr) == TrackLines(a, limits, tr) + TrackLines(b, limits, tr)
    decreases |a|
  {
    if a == [] {
      assert a + b == b;
    } else {
      assert (a + b)[1..] == a[1..] + b;
      TrackLinesAppend(a[1..], b, limits, tr);
    }
  }

  function VideoOffenders(tracks: seq<Track>, limits: Limits): nat {
    if tracks == [] then 0
    else (if VideoExceeded(tracks[0], limits) then 1 else 0) + VideoOffenders(tracks[1..], limits)
  }

  function AudioOffenders(tracks: seq<Track>, limits: Limits): nat {
    if tracks == [] then 0
    else (if AudioExceeded(tracks[0], limits) then 1 else 0) + AudioOffenders(tracks[1..], limits)
  }

  /** The number of tracks of type Video or Audio. */
  function VideoAudioTracks(tracks: seq<Track>): nat {
    if tracks == [] then 0
    else (if tracks[0].kind == "Video" || tracks[0].kind == "Audio" then 1 else 0) + VideoAudioTracks(tracks[1..])
  }

  /**
   * No deduplication: one line per offending track, so the count of track
   * lines is the count of offending tracks, which is at most the number of
   * Video and Audio tracks.
   */
  lemma {:induction false} TrackLinesCount(tracks: seq<Track>, limits: Limits, tr: Translations)
    ensures |TrackLines(tracks, limits, tr)| == VideoOffenders(tracks, limits) + AudioOffenders(tracks, limits)
    ensures VideoOffenders(tracks, limits) + AudioOffenders(tracks, limits) <= VideoAudioTracks(tracks)
    decreases |tracks|
  {
    if tracks != [] {
      TrackLinesCount(tracks[1..], limits, tr);
    }
  }

  /** Every track line is the video line or the audio line. */
  lemma {:induction false} TrackLinesAreBitrateLines(tracks: seq<Track>, limits: Limits, tr: Translations)
    ensures forall i :: 0 <= i < |TrackLines(tracks, limits, tr)| ==>
      TrackLines(tracks, limits, tr)[i] in {VideoLine(limits, tr), AudioLine(limits, tr)}
    decreases |tracks|
  {
    if tracks != [] {
      TrackLinesAreBitrateLines(tracks[1..], limits, tr);
    }
  }

  /** No track exceeds exactly when the tracks contribute no line. */
  lemma {:induction false} TrackLinesEmpty(tracks: seq<Track>, limits: Limits, tr: Translations)
    ensures TrackLines(tracks, limits, tr) == [] <==> NoTrackExceeds(tracks, limits)
    decreases |tracks|
  {
    if tracks != [] {
      TrackLinesEmpty(tracks[1..], limits, tr);
      assert NoTrackExceeds(tracks, limits) <==>
        !VideoExceeded(tracks[0], limits) && !AudioExceeded(tracks[0], limits) && NoTrackExceeds(tracks[1..], limits) by {
        if NoTrackExceeds(tracks[1..], limits) && !VideoExceeded(tracks[0], limits) && !AudioExceeded(tracks[0], limits) {
          forall i | 0 <= i < |tracks|
            ensures !VideoExceeded(tracks[i], limits) && !AudioExceeded(tracks[i], limits)
          {
            if i > 0 { assert tracks[i] == tracks[1..][i - 1]; }
          }
        }
        if NoTrackExceeds(tracks, limits) {
          forall i | 0 <= i < |tracks[1..]|
            ensures !VideoExceeded(tracks[1..][i], limits) && !AudioExceeded(tracks[1..][i], limits)
          {
            assert tracks[1..][i] == tracks[i + 1];
          }
        }
      }
    }
  }

  /**
   * The video and audio checks are independent: with no audio limit the
   * track lines are the video line once per offending video track.
   */
  lemma {:induction false} OnlyVideoLimit(tracks: seq<Track>, limits: Limits, tr: Translations)
    requires !Truthy(limits.audioBitrate)
    ensures TrackLines(tracks, limits, tr) == seq(VideoOffenders(tracks, limits), _ => VideoLine(limits, tr))
    decreases |tracks|
  {
    if tracks != [] {
      OnlyVideoLimit(tracks[1..], limits, tr);
    }
  }

  /** With no video limit the track lines are the audio line once per offending audio track. */
  lemma {:induction false} OnlyAudioLimit(tracks: seq<Track>, limits: Limits, tr: Translations)
    requires !Truthy(limits.videoBitrate)
    ensures TrackLines(tracks, limits, tr) == seq(AudioOffenders(tracks, limits), _ => AudioLine(limits, tr))
    decreases |tracks|
  {
    if tracks != [] {
      OnlyAudioLimit(tracks[1..], limits, tr);
    }
  }

  /** With no limit set the check returns, whatever the file and the analysis. */
  lemma NoLimitPasses(size: nat, analysis: Analysis, limits: Limits, tr: Translations)
    requires !AnyLimit(limits)
    ensures CheckOutcome(size, Loaded(analysis), limits, tr) == Normal
  {
  }

  /** `MediaInfo()` is awaited first: if it rejects, the check throws its error even with no limit set. */
  lemma LoadFailureThrows(size: nat, error: string, limits: Limits, tr: Translations)
    ensures CheckOutcome(size, LoadFailed(error), limits, tr) == Thrown(error)
  {
  }

  /** The size check alone: a line iff the size is strictly above the limit in decimal megabytes. */
  lemma SizeLineIff(size: nat, limits: Limits, tr: Translations)
    requires Truthy(limits.fileSize)
    ensures SizeLines(size, limits, tr) == [FileSizeLine(limits, tr)] <==> size > Amount(limits.fileSize) * 1000000
    ensures SizeLines(size, limits, tr) == [] <==> size <= Amount(limits.fileSize) * 1000000
  {
  }

  /** The check returns normally exactly when every active limit holds and the analyzer did not fail. */
  lemma CheckPassesIff(size: nat, mediaInfo: MediaInfoLib, limits: Limits, tr: Translations)
    ensures CheckOutcome(size, mediaInfo, limits, tr) == Normal <==>
      && mediaInfo.Loaded?
      && !SizeExceeded(size, limits)
      && (AnalysisNeeded(limits) ==>
            mediaInfo.analysis.Media? && NoTrackExceeds(mediaInfo.analysis.tracks, limits))
  {
    if mediaInfo.Loaded? && mediaInfo.analysis.Media? {
      TrackLinesEmpty(mediaInfo.analysis.tracks, limits, tr);
    }
  }

  /**
   * When the analyzer succeeds the check throws iff there is a violation, with
   * the lines joined by newlines; the size line (if any) comes first; and
   * there are at most 1 + the number of Video/Audio tracks lines. This holds
   * for any message prefixes.
   */
  lemma ViolationMessage(size: nat, tracks: seq<Track>, limits: Limits, tr: Translations)
    ensures var lines := Violations(size, tracks, limits, tr);
      && |lines| <= 1 + VideoAudioTracks(tracks)
      && (SizeExceeded(size, limits) <==> |lines| > 0 && lines[0] == FileSizeLine(limits, tr) && |SizeLines(size, limits, tr)| == 1)
      && (CheckOutcome(size, Loaded(Media(tracks)), limits, tr).Thrown? <==> |lines| > 0)
      && (|lines| > 0 ==> CheckOutcome(size, Loaded(Media(tracks)), limits, tr) == Thrown(Join(lines)))
  {
    TrackLinesCount(tracks, limits, tr);
  }

  /** When no prefix holds a line break, splitting the message on line breaks gives back the violation lines. */
  lemma ViolationMessageSplits(size: nat, tracks: seq<Track>, limits: Limits, tr: Translations)
    requires NoLineBreakIn(tr)
    requires |Violations(size, tracks, limits, tr)| > 0
    ensures Split(Join(Violations(size, tracks, limits, tr))) == Violations(size, tracks, limits, tr)
  {
    var lines := Violations(size, tracks, limits, tr);
    var n := |SizeLines(size, limits, tr)|;
    if AnalysisNeeded(limits) {
      TrackLinesAreBitrateLines(tracks, limits, tr);
    }
    forall i | 0 <= i < |lines| ensures '\n' !in lines[i] {
      if i >= n {
        assert lines[i] == TrackLines(tracks, limits, tr)[i - n];
      }
    }
    SplitJoin(lines);
  }

  /** A sample file's analysis: a general track without bit rate, one video and one audio track. */
  function SampleTracks(video: nat, audio: nat): seq<Track> {
    [Track("General", None), Track("Video", Some(video)), Track("Audio", Some(audio))]
  }

  lemma SampleTrackLines(video: nat, audio: nat, limits: Limits, tr: Translations)
    ensures TrackLines(SampleTracks(video, audio), limits, tr)
         == (if VideoExceeded(Track("Video", Some(video)), limits) then [VideoLine(limits, tr)] else [])
            + (if AudioExceeded(Track("Audio", Some(audio)), limits) then [AudioLine(limits, tr)] else [])
  {
    var general, v, a := Track("General", None), Track("Video", Some(video)), Track("Audio", Some(audio));
    var tracks := SampleTracks(video, audio);
    assert tracks[1..] == [v, a] && [v, a][1..] == [a] && [a][1..] == [];
    assert TrackLines([a], limits, tr) == LinesOfTrack(a, limits, tr) + [];
    assert TrackLines([v, a], limits, tr) == LinesOfTrack(v, limits, tr) + TrackLines([a], limits, tr);
    assert LinesOfTrack(general, limits, tr) == [];
  }

  /** Test scenario: limits 10 Mo, 10 Mbps and 384 kbps, none exceeded. */
  lemma SampleWithinLimits(size: nat, video: nat, audio: nat)
    requires size <= 10000000 && video <= 10000000 && audio <= 384000
    ensures CheckOutcome(size, Loaded(Media(SampleTracks(video, audio))),
                         Limits(Numeral(10), Numeral(10), Numeral(384)), DefaultTranslations) == Normal
  {
    SampleTrackLines(video, audio, Limits(Numeral(10), Numeral(10), Numeral(384)), DefaultTranslations);
  }

  /** Test scenario: a 1 Mo size limit alone, exceeded. */
  lemma SampleSizeExceeded(size: nat, video: nat, audio: nat)
    requires size > 1000000
    ensures CheckOutcome(size, Loaded(Media(SampleTracks(video, audio))),
                         Limits(Numeral(1), Absent, Absent), DefaultTranslations)
         == Thrown("FileSize exceeds 1 Mo.")
  {
    assert DecimalString(1) == "1";
  }

  /** Test scenario: a 1 Mbps video limit alone, exceeded. */
  lemma SampleVideoExceeded(size: nat, video: nat, audio: nat)
    requires video > 1000000
    ensures CheckOutcome(size, Loaded(Media(SampleTracks(video, audio))),
                         Limits(Absent, Numeral(1), Absent), DefaultTranslations)
         == Thrown("VideoBitrate exceeds 1 Mbps.")
  {
    SampleTrackLines(video, audio, Limits(Absent, Numeral(1), Absent), DefaultTranslations);
    assert DecimalString(1) == "1";
  }

  /** Test scenario: a 10 kbps audio limit alone, exceeded. */
  lemma SampleAudioExceeded(size: nat, video: nat, audio: nat)
    requires audio > 10000
    ensures CheckOutcome(size, Loaded(Media(SampleTracks(video, audio))),
                         Limits(Absent, Absent, Numeral(10)), DefaultTranslations)
         == Thrown("AudioBitrate exceeds 10 kbps.")
  {
    SampleTrackLines(video, audio, Limits(Absent, Absent, Numeral(10)), DefaultTranslations);
    assert DecimalString(10) == "10";
  }

  lemma JoinThree(a: string, b: string, c: string)
    ensures Join([a, b, c]) == a + "\n" + b + "\n" + c
  {
    assert [a, b, c][1..] == [b, c] && [b, c][1..] == [c];
  }

  /** Test scenario: all three limits exceeded, three lines in size, video, audio order. */
  lemma SampleAllExceeded(size: nat, video: nat, audio: nat)
    requires size > 1000000 && video > 1000000 && audio > 10000
    ensures CheckOutcome(size, Loaded(Media(SampleTracks(video, audio))),
                         Limits(Numeral(1), Numeral(1), Numeral(10)), DefaultTranslations)
         == Thrown("FileSize exceeds 1 Mo." + "\n" + "VideoBitrate exceeds 1 Mbps." + "\n" + "AudioBitrate exceeds 10 kbps.")
  {
    var limits := Limits(Numeral(1), Numeral(1), Numeral(10));
    SampleTrackLines(video, audio, limits, DefaultTranslations);
    assert DecimalString(1) == "1";
    assert DecimalString(10) == "10";
    assert FileSizeLine(limits, DefaultTranslations) == "FileSize exceeds 1 Mo.";
    assert VideoLine(limits, DefaultTranslations) == "VideoBitrate exceeds 1 Mbps.";
    assert AudioLine(limits, DefaultTranslations) == "AudioBitrate exceeds 10 kbps.";
    var lines := ["FileSize exceeds 1 Mo.", "VideoBitrate exceeds 1 Mbps.", "AudioBitrate exceeds 10 kbps."];
    assert SizeLines(size, limits, DefaultTranslations) == [lines[0]];
    assert TrackLines(SampleTracks(video, audio), limits, DefaultTranslations) == [lines[1], lines[2]];
    assert SizeLines(size, limits, DefaultTranslations) + TrackLines(SampleTracks(video, audio), limits, DefaultTranslations) == lines;
    assert lines[1..][1..] == [lines[2]];
    JoinThree(lines[0], lines[1], lines[2]);
    assert [lines[0], lines[1], lines[2]] == lines;
  }

  /** A setting holding the string "0" is an active limit of zero: any non-empty file exceeds it. */
  lemma ZeroNumeralIsActive(size: nat, analysis: Analysis, limits: Limits)
    requires limits.fileSize == Numeral(0) && !AnalysisNeeded(limits) && size > 0
    ensures CheckOutcome(size, Loaded(analysis), limits, DefaultTranslations) == Thrown("FileSize exceeds 0 Mo.")
  {
    assert DecimalString(0) == "0";
  }

  // ---------------------------------------------------------------------------
  // readChunkBrowser
  // ---------------------------------------------------------------------------

  /** How many bytes of the file a window of `chunkSize` bytes at `offset` covers. */
  function BytesRead(fileLength: nat, chunkSize: nat, offset: nat): nat {
    if offset >= fileLength then 0 else Min(chunkSize, fileLength - offset)
  }

  /**
   * `readChunkBrowser(file)(chunkSize, offset)`: `file.slice(offset, offset + chunkSize)`,
   * clipped to the end of the file.
   */
  function ReadChunkBrowser(file: seq<byte>, chunkSize: nat, offset: nat): (chunk: seq<byte>)
    ensures |chunk| == BytesRead(|file|, chunkSize, offset)
    ensures forall i :: 0 <= i < |chunk| ==> chunk[i] == file[offset + i]
  {
    if offset >= |file| then [] else file[offset..Min(offset + chunkSize, |file|)]
  }

  /** Reads are positional: two adjacent windows read the same bytes as the window covering both. */
  lemma ReadChunkBrowserAdjacent(file: seq<byte>, first: nat, second: nat, offset: nat)
    ensures ReadChunkBrowser(file, first, offset) + ReadChunkBrowser(file, second, offset + first)
         == ReadChunkBrowser(file, first + second, offset)
  {
    var a := ReadChunkBrowser(file, first, offset);
    var b := ReadChunkBrowser(file, second, offset + first);
    var c := ReadChunkBrowser(file, first + second, offset);
    assert |a + b| == |c|;
    forall i | 0 <= i < |c| ensures (a + b)[i] == c[i] {
      if i >= |a| {
        assert (a + b)[i] == b[i - |a|];
      }
    }
  }
}
