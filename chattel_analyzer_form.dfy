/**
 * The chattel analyser form's state and its event handlers. Failures are
 * shown as toasts, a side channel not modelled: the `error` field is only
 * ever reset. Rendering is not modelled; the object URL made for the
 * preview is an input.
 */
module ChattelForm {
  import opened Wrappers
  import opened Json
  import opened Http
  import opened Text
  import Progress

  class AnalyzerForm {
    var file: Option<UploadFile>
    var preview: Option<string>
    var isAnalyzing: bool
    var progress: int
    /** `results`: `data.items` of the last ok response, `None` when that was `undefined`. */
    var results: Option<Json>
    var error: Option<string>
    /** Progress intervals still registered; the one of a fetch that throws is never cleared. */
    var timers: nat

    ghost predicate Valid()
      reads this
    {
      && error == None
      && Progress.Displayable(progress)
      && (file.Some? <==> preview.Some?)
      && (file.Some? ==> StartsWith(file.value.mimeType, "image/"))
      && (isAnalyzing ==> file.Some? && progress <= Progress.Cap && timers >= 1)
    }

    constructor ()
      ensures Valid()
      ensures file == None && preview == None && !isAnalyzing && progress == 0
      ensures results == Some(JArr([])) && error == None && timers == 0
    {
      file, preview, isAnalyzing, progress := None, None, false, 0;
      results, error, timers := Some(JArr([])), None, 0;
    }

    /** `disabled={!file || isAnalyzing}` is false. */
    predicate ButtonEnabled()
      reads this
    {
      file.Some? && !isAnalyzing
    }

    /**
     * `handleFileChange`; the input stays enabled during an analysis. Any
     * type starting with `image/` is taken, and then the results are reset.
     */
    method SelectFile(selected: Option<UploadFile>, objectUrl: string)
      requires Valid()
      modifies this
      ensures Valid() && error == None
      ensures selected.Some? && StartsWith(selected.value.mimeType, "image/")
        ==> file == selected && preview == Some(objectUrl) && results == Some(JArr([]))
      ensures !(selected.Some? && StartsWith(selected.value.mimeType, "image/"))
        ==> file == old(file) && preview == old(preview) && results == old(results)
      ensures isAnalyzing == old(isAnalyzing) && progress == old(progress) && timers == old(timers)
    {
      error := None;
      if selected.None? {
        return;
      }
      if !StartsWith(selected.value.mimeType, "image/") {
        return;
      }
      file := selected;
      preview := Some(objectUrl);
      results := Some(JArr([]));
    }

    /** A click on the button, running `analyzeImage` up to the `fetch`. */
    method Click()
      requires Valid()
      modifies this
      ensures Valid()
      ensures old(ButtonEnabled()) ==> isAnalyzing && progress == 0 && timers == old(timers) + 1
      ensures !old(ButtonEnabled()) ==> isAnalyzing == old(isAnalyzing) && progress == old(progress) && timers == old(timers)
      ensures file == old(file) && preview == old(preview) && results == old(results)
    {
      if !ButtonEnabled() {
        return;
      }
      isAnalyzing := true;
      progress := 0;
      timers := timers + 1;
    }

    /** One firing of a registered progress interval. */
    method Tick()
      requires Valid() && timers > 0
      modifies this`progress
      ensures Valid()
      ensures progress == Progress.Advance(old(progress))
      ensures isAnalyzing ==> old(progress) <= progress <= Progress.Cap
    {
      progress := Progress.Advance(progress);
    }

    /**
     * The rest of `analyzeImage` once the `fetch` settles: an ok response
     * whose body is not `null` sets `results` to its `items`; anything else
     * leaves `results` alone. Analysis is over in every case.
     */
    method Complete(outcome: FetchOutcome)
      requires Valid() && isAnalyzing
      modifies this
      ensures Valid() && !isAnalyzing
      ensures file == old(file) && preview == old(preview)
      ensures outcome.FetchFailed? ==> progress == old(progress) < Progress.Done && timers == old(timers)
      ensures outcome.Received? ==> progress == Progress.Done && timers == old(timers) - 1
      ensures results == if outcome.Received? && Ok(outcome.status) && outcome.body.Parsed? && outcome.body.data != JNull
                         then Lookup(outcome.body.data, "items")
                         else old(results)
    {
      match outcome {
        case FetchFailed(_) =>
        case Received(status, body) =>
          timers := timers - 1;
          progress := Progress.Done;
          if Ok(status) && body.Parsed? {
            // `data.items` on null throws a TypeError, shown as a toast
            if body.data != JNull {
              results := Lookup(body.data, "items");
            }
          }
      }
      isAnalyzing := false;
    }
  }
}
