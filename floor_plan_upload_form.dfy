/**
 * The floor-plan upload form's state and its event handlers: a file is
 * picked, the button is clicked, the progress interval fires, the fetch
 * completes. Rendering is not modelled; the object URL made for the
 * preview is an input.
 */
module FloorPlanForm {
  import opened Wrappers
  import opened Json
  import opened Http
  import opened Text
  import Progress

  const ResponseFailedMessage := "Failed to analyze floor plan"
  const FallbackMessage := "An error occurred"

  function UnsupportedFileMessage(): string {
    "Please upload a supported image format: " + Join(SupportedImageTypes, ", ")
  }

  class UploadForm {
    var isLoading: bool
    var progress: int
    var preview: Option<string>
    var file: Option<UploadFile>
    /** The last results shown (`null` until the first success). */
    var results: Option<Json>
    /** The message shown: a text, or whatever truthy `error` value the endpoint sent. */
    var error: Option<Json>
    /** Progress intervals still registered; the one of a fetch that throws is never cleared. */
    var timers: nat

    ghost predicate Valid()
      reads this
    {
      && Progress.Displayable(progress)
      && (file.Some? <==> preview.Some?)
      && (file.Some? ==> file.value.mimeType in SupportedImageTypes)
      && (isLoading ==> file.Some? && progress <= Progress.Cap && timers >= 1)
    }

    constructor ()
      ensures Valid()
      ensures !isLoading && progress == 0 && preview == None && file == None
      ensures results == None && error == None && timers == 0
    {
      isLoading, progress, preview, file := false, 0, None, None;
      results, error, timers := None, None, 0;
    }

    /** `disabled={!file || isLoading}` is false. */
    predicate ButtonEnabled()
      reads this
    {
      file.Some? && !isLoading
    }

    /**
     * `handleFileChange`. The file input is disabled while loading, so it
     * only fires when no analysis is pending.
     */
    method SelectFile(selected: Option<UploadFile>, objectUrl: string)
      requires Valid() && !isLoading
      modifies this
      ensures Valid()
      ensures selected.None? ==> error == None && file == old(file) && preview == old(preview)
      ensures selected.Some? && selected.value.mimeType !in SupportedImageTypes
        ==> error == Some(JStr(UnsupportedFileMessage())) && file == old(file) && preview == old(preview)
      ensures selected.Some? && selected.value.mimeType in SupportedImageTypes
        ==> error == None && file == selected && preview == Some(objectUrl)
      ensures results == old(results) && isLoading == old(isLoading)
      ensures progress == old(progress) && timers == old(timers)
    {
      error := None;
      if selected.None? {
        return;
      }
      if selected.value.mimeType !in SupportedImageTypes {
        error := Some(JStr(UnsupportedFileMessage()));
        return;
      }
      file := selected;
      preview := Some(objectUrl);
    }

    /**
     * A click on the button, running `analyzeFloorPlan` up to the `fetch`:
     * nothing happens unless the button is enabled; otherwise loading
     * starts at progress 0 and a progress interval is registered.
     */
    method Click()
      requires Valid()
      modifies this
      ensures Valid()
      ensures old(ButtonEnabled()) ==> isLoading && progress == 0 && timers == old(timers) + 1
      ensures !old(ButtonEnabled()) ==> isLoading == old(isLoading) && progress == old(progress) && timers == old(timers)
      ensures file == old(file) && preview == old(preview) && results == old(results) && error == old(error)
    {
      if !ButtonEnabled() {
        return;
      }
      isLoading := true;
      progress := 0;
      timers := timers + 1;
    }

    /** One firing of a registered progress interval. */
    method Tick()
      requires Valid() && timers > 0
      modifies this`progress
      ensures Valid()
      ensures progress == Progress.Advance(old(progress))
      ensures isLoading ==> old(progress) <= progress <= Progress.Cap
    {
      progress := Progress.Advance(progress);
    }

    /**
     * The rest of `analyzeFloorPlan` once the `fetch` settles. A response
     * clears this request's interval and sets progress to 100; a fetch that
     * throws does neither. Results change only on an ok response whose body
     * has no truthy `error`; a stale message is not cleared by a success.
     */
    method Complete(outcome: FetchOutcome)
      requires Valid() && isLoading
      modifies this
      ensures Valid() && !isLoading
      ensures file == old(file) && preview == old(preview)
      ensures outcome.FetchFailed? ==> progress == old(progress) < Progress.Done && timers == old(timers)
      ensures outcome.Received? ==> progress == Progress.Done && timers == old(timers) - 1
      ensures outcome.FetchFailed? ==>
        results == old(results) && error == Some(JStr(MessageOf(outcome.cause, FallbackMessage)))
      ensures outcome.Received? && !Ok(outcome.status) ==>
        results == old(results) && error == Some(JStr(ResponseFailedMessage))
      ensures outcome.Received? && Ok(outcome.status) && outcome.body.BodyError? ==>
        results == old(results) && error == Some(JStr(MessageOf(outcome.body.cause, FallbackMessage)))
      ensures outcome.Received? && Ok(outcome.status) && outcome.body == Parsed(JNull) ==>
        results == old(results) && error == Some(JStr(PropertyReadError("null", "error")))
      ensures outcome.Received? && Ok(outcome.status) && outcome.body.Parsed? && outcome.body.data != JNull ==>
        var data := outcome.body.data;
        if Truthy(Lookup(data, "error")) then results == old(results) && error == Lookup(data, "error")
        else results == Some(data) && error == old(error)
    {
      match outcome {
        case FetchFailed(cause) =>
          error := Some(JStr(MessageOf(cause, FallbackMessage)));
        case Received(status, body) =>
          timers := timers - 1;
          progress := Progress.Done;
          if !Ok(status) {
            error := Some(JStr(ResponseFailedMessage));
          } else {
            match body {
              case BodyError(cause) =>
                error := Some(JStr(MessageOf(cause, FallbackMessage)));
              case Parsed(data) =>
                if data == JNull {
                  // `data.error` on null throws a TypeError
                  error := Some(JStr(PropertyReadError("null", "error")));
                } else if Truthy(Lookup(data, "error")) {
                  error := Lookup(data, "error");
                } else {
                  results := Some(data);
                }
            }
          }
      }
      isLoading := false;
    }
  }
}
