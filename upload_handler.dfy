/**
 * The server's upload acceptance hook: it passes through an earlier
 * rejection, accepts when no limit is configured, and otherwise runs the
 * limit check on the uploaded file and turns its outcome into the hook's
 * answer. Reading the settings, opening the file and the analyzer are
 * inputs describing how each of those awaited calls ended.
 */
module UploadHandler {
  import opened Wrappers
  import opened Text
  import opened SharedHelpers

  /** `{ accepted }` or `{ accepted, errorMessage }`. */
  datatype HookResult = HookResult(accepted: bool, errorMessage: Option<string>)

  /**
   * `handler({ accepted, videoFile, settingsManager })`: `settings` is the
   * outcome of reading the three settings, `videoFileSize` is `videoFile.size`,
   * `open` the outcome of opening `videoFile.path`.
   */
  function Handler(accepted: bool, settings: Result<Limits>, videoFileSize: nat, open: Completion,
                   mediaInfo: MediaInfoLib): (r: HookResult)
    ensures r.accepted ==> accepted
    ensures !accepted ==> r == HookResult(false, None)
    ensures r.errorMessage.None? <==> r.accepted || !accepted
  {
    if !accepted then HookResult(false, None)
    else
      match settings
      case Err(e) => HookResult(false, Some(e))
      case Ok(limits) =>
        if !AnyLimit(limits) then HookResult(true, None)
        else
          match open
          case Thrown(e) => HookResult(false, Some(e))
          case Normal =>
            match CheckOutcome(videoFileSize, mediaInfo, limits, DefaultTranslations)
            case Normal => HookResult(true, None)
            case Thrown(message) => HookResult(false, Some(message))
  }

  /** With no limit configured the upload is accepted without the file being opened or analyzed. */
  lemma NoLimitAcceptsWithoutFile(limits: Limits, size1: nat, open1: Completion, mediaInfo1: MediaInfoLib,
                                  size2: nat, open2: Completion, mediaInfo2: MediaInfoLib)
    requires !AnyLimit(limits)
    ensures Handler(true, Ok(limits), size1, open1, mediaInfo1) == HookResult(true, None)
    ensures Handler(true, Ok(limits), size1, open1, mediaInfo1) == Handler(true, Ok(limits), size2, open2, mediaInfo2)
  {
  }

  /**
   * The upload is accepted exactly when the platform accepted it, the settings
   * were read, and either no limit is set or the file opened, the analyzer
   * loaded, the size is within its limit and, when a bitrate limit is set, the
   * analysis succeeded and no track exceeds.
   */
  lemma HandlerAcceptsIff(accepted: bool, settings: Result<Limits>, videoFileSize: nat, open: Completion,
                          mediaInfo: MediaInfoLib)
    ensures Handler(accepted, settings, videoFileSize, open, mediaInfo).accepted <==>
      && accepted
      && settings.Ok?
      && (AnyLimit(settings.value) ==>
            && open.Normal?
            && mediaInfo.Loaded?
            && !SizeExceeded(videoFileSize, settings.value)
            && (AnalysisNeeded(settings.value) ==>
                  mediaInfo.analysis.Media? && NoTrackExceeds(mediaInfo.analysis.tracks, settings.value)))
  {
    if settings.Ok? {
      CheckPassesIff(videoFileSize, mediaInfo, settings.value, DefaultTranslations);
    }
  }

  /**
   * Any exception is turned into a rejection carrying its message: a failure
   * to read the settings, to open the file, to load or run the analyzer, or a
   * limit violation.
   */
  lemma HandlerReportsException(settings: Result<Limits>, videoFileSize: nat, open: Completion,
                                mediaInfo: MediaInfoLib)
    ensures var r := Handler(true, settings, videoFileSize, open, mediaInfo);
      && (settings.Err? ==> r == HookResult(false, Some(settings.message)))
      && (settings.Ok? && AnyLimit(settings.value) && open.Thrown? ==> r == HookResult(false, Some(open.message)))
      && (settings.Ok? && AnyLimit(settings.value) && open.Normal? ==>
            (r.accepted <==> CheckOutcome(videoFileSize, mediaInfo, settings.value, DefaultTranslations).Normal?)
            && (!r.accepted ==>
                  r.errorMessage == Some(CheckOutcome(videoFileSize, mediaInfo, settings.value, DefaultTranslations).message)))
  {
  }

  /**
   * A rejection for limit violations carries the violation lines joined by
   * newlines; split on newlines it gives back exactly those lines.
   */
  lemma HandlerViolationLines(limits: Limits, videoFileSize: nat, tracks: seq<Track>)
    requires AnyLimit(limits)
    requires |Violations(videoFileSize, tracks, limits, DefaultTranslations)| > 0
    ensures var r := Handler(true, Ok(limits), videoFileSize, Normal, Loaded(Media(tracks)));
      && !r.accepted
      && r.errorMessage == Some(Join(Violations(videoFileSize, tracks, limits, DefaultTranslations)))
      && Split(r.errorMessage.value) == Violations(videoFileSize, tracks, limits, DefaultTranslations)
  {
    ViolationMessage(videoFileSize, tracks, limits, DefaultTranslations);
    ViolationMessageSplits(videoFileSize, tracks, limits, DefaultTranslations);
  }
}
