/** The plugin object: the fields `start` assigns, `send_responses`, and the
    two message handlers that run the pipeline. */
module Plugin {
  import opened Wrappers
  import opened Seqs
  import opened Strings
  import opened Results
  import opened Permalink
  import opened Response
  import opened Extract
  import opened Processing
  import opened Settings
  import opened Dispatch

  /** Why `start` stopped part way: `Semaphore(n)` raised for a negative `n`,
      or `resolve_room_alias` raised. Either lands in `start`'s `except`. */
  datatype StartFailure = NegativeJobLimit | AliasNotResolved

  /** How `start` ends: the plugin is not configured yet; it loaded (with or
      without the warning about an invalid `report_to_room`); or it failed. */
  datatype StartStatus = NotConfigured | Loaded(warnedInvalidTarget: bool) | Failed(reason: StartFailure)

  /** What a handler did: returned without doing anything, or ran the pipeline. */
  datatype Handling =
    | Skipped
    | Moderated(results: seq<Entry>, response: string, effects: seq<Effect>, status: DispatchStatus)

  class NsfwPlugin {
    var viaServers: seq<string>
    var actions: Actions
    /** The initial value of the semaphore bounding concurrent batches. */
    var jobSlots: int
    var reportToRoom: string

    /** The class-level defaults: no via servers, no actions, one job slot,
        no report room. */
    constructor ()
      ensures viaServers == [] && actions == NoActions && jobSlots == 1 && reportToRoom == ""
    {
      viaServers, actions, jobSlots, reportToRoom := [], NoActions, 1, "";
    }

    /** `start`. `configured` is whether a configuration object exists;
        `aliasLookup` is what `resolve_room_alias` answers for the alias
        (None when it raises). `lookups` lists the aliases it is asked for. */
    method Start(configured: bool, cfg: Config, aliasLookup: Option<string>)
      returns (status: StartStatus, lookups: seq<string>)
      modifies this
      ensures !configured ==>
                && status == NotConfigured && lookups == []
                && viaServers == old(viaServers) && actions == old(actions)
                && jobSlots == old(jobSlots) && reportToRoom == old(reportToRoom)
      ensures configured ==> viaServers == cfg.viaServers && actions == cfg.actions
      ensures configured && cfg.maxConcurrentJobs < 0 ==>
                && status == Failed(NegativeJobLimit) && lookups == []
                && jobSlots == old(jobSlots) && reportToRoom == old(reportToRoom)
      ensures configured && cfg.maxConcurrentJobs >= 0 ==>
                var target := cfg.actions.ReportToRoom();
                && jobSlots == cfg.maxConcurrentJobs
                && (ClassifyTarget(target) == Alias ==>
                      && lookups == [target]
                      && (aliasLookup.Some? ==> reportToRoom == aliasLookup.value && status == Loaded(false))
                      && (aliasLookup.None? ==> reportToRoom == target && status == Failed(AliasNotResolved)))
                && (ClassifyTarget(target) != Alias ==>
                      && lookups == [] && reportToRoom == target
                      && status == Loaded(ClassifyTarget(target) == Invalid))
    {
      lookups := [];
      if !configured {
        return NotConfigured, lookups;
      }
      viaServers := cfg.viaServers;
      actions := cfg.actions;
      if cfg.maxConcurrentJobs < 0 {
        return Failed(NegativeJobLimit), lookups;
      }
      jobSlots := cfg.maxConcurrentJobs;
      reportToRoom := actions.ReportToRoom();
      var warned := false;
      if StartsWith(reportToRoom, "#") {
        lookups := [reportToRoom];
        if aliasLookup.None? {
          return Failed(AliasNotResolved), lookups;
        }
        reportToRoom := aliasLookup.value;
      } else if reportToRoom != "" && !StartsWith(reportToRoom, "!") {
        warned := true;
      }
      status := Loaded(warned);
    }

    /** `send_responses`: the ignore rule, then reply, report and redaction,
        each attempted according to the configuration and to how the calls
        before it ended (see Dispatched). */
    method SendResponses(evt: Event, response: string, results: seq<Entry>, o: Outcomes)
      returns (effects: seq<Effect>, status: DispatchStatus)
      ensures effects == Attempts(actions, reportToRoom, evt, response, results, o)
      ensures status == FinalStatus(actions, reportToRoom, evt, response, results, o)
      ensures Dispatched(actions, reportToRoom, evt, response, results, o, effects, status)
    {
      effects := [];
      var ignoreSfw := actions.IgnoreSfw();
      var nsfwResults := NsfwResults(results);
      AttemptsAreDispatched(actions, reportToRoom, evt, response, results, o);
      if ignoreSfw && |nsfwResults| == 0 {
        return effects, Ignored;
      }
      if actions.DirectReply() {
        effects := effects + [Reply(response)];
        if o.reply != Ok {
          return effects, Aborted(o.reply);
        }
      }
      if reportToRoom != "" {
        effects := effects + [SendText(reportToRoom, response)];
        if o.report != Ok && o.report != BadJson {
          return effects, Aborted(o.report);
        }
      }
      var redactNsfw := actions.RedactNsfw();
      if |nsfwResults| > 0 && redactNsfw {
        effects := effects + [Redact(evt.roomId, evt.eventId, RedactReason)];
        if o.redact != Ok && o.redact != Forbidden {
          return effects, Aborted(o.redact);
        }
      }
      status := Completed;
    }

    /** The body both handlers share: process the images, build the
        permalink and the summary, and dispatch. */
    method ModerateImages(fs: FileSystem, evt: Event, urls: seq<string>, names: seq<string>,
                          fetch: seq<FetchOutcome>, predict: seq<string> -> Option<map<string, Prediction>>,
                          pct: real -> string, o: Outcomes)
      returns (results: seq<Entry>, response: string, effects: seq<Effect>, status: DispatchStatus)
      requires |names| == |urls| && |fetch| == |urls|
      requires Distinct(names)
      requires forall i :: 0 <= i < |names| ==> names[i] !in fs.files
      modifies fs
      ensures results == ProcessResult(urls, names, fetch, predict)
      ensures fs.files == old(fs.files) + Leaked(names, fetch)
      ensures fs.created == old(fs.created) + Created(names, fetch)
      ensures fs.removed == old(fs.removed) + names[..FirstFailure(fetch)]
      ensures response == FormatResponse(results, MatrixToUrl(viaServers, evt.roomId, evt.eventId), pct)
      ensures Dispatched(actions, reportToRoom, evt, response, results, o, effects, status)
    {
      results := ProcessImages(fs, urls, names, fetch, predict);
      var link := MatrixToUrl(viaServers, evt.roomId, evt.eventId);
      response := FormatResponse(results, link, pct);
      effects, status := SendResponses(evt, response, results, o);
    }

    /** `handle_image_message`: a message without a URL is ignored; otherwise
        its one image goes through the pipeline. */
    method HandleImageMessage(fs: FileSystem, evt: Event, url: string, names: seq<string>,
                              fetch: seq<FetchOutcome>, predict: seq<string> -> Option<map<string, Prediction>>,
                              pct: real -> string, o: Outcomes)
      returns (h: Handling)
      requires |names| == 1 && |fetch| == 1
      requires names[0] !in fs.files
      modifies fs
      ensures url == "" ==>
                h == Skipped && fs.files == old(fs.files) && fs.created == old(fs.created) && fs.removed == old(fs.removed)
      ensures url != "" ==>
                && h.Moderated?
                && h.results == ProcessResult([url], names, fetch, predict)
                && fs.files == old(fs.files) + Leaked(names, fetch)
                && fs.created == old(fs.created) + Created(names, fetch)
                && fs.removed == old(fs.removed) + names[..FirstFailure(fetch)]
                && h.response == FormatResponse(h.results, MatrixToUrl(viaServers, evt.roomId, evt.eventId), pct)
                && Dispatched(actions, reportToRoom, evt, h.response, h.results, o, h.effects, h.status)
    {
      if url == "" {
        return Skipped;
      }
      var results, response, effects, status := ModerateImages(fs, evt, [url], names, fetch, predict, pct, o);
      h := Moderated(results, response, effects, status);
    }

    /** `handle_text_message`: the `src` of every `<img>` in the formatted
        body, in document order; a body without any is ignored. */
    method HandleTextMessage(fs: FileSystem, evt: Event, imgs: seq<ImgTag>, names: seq<string>,
                             fetch: seq<FetchOutcome>, predict: seq<string> -> Option<map<string, Prediction>>,
                             pct: real -> string, o: Outcomes)
      returns (h: Handling)
      requires |names| == |ExtractImgSrcs(imgs)| && |fetch| == |names|
      requires Distinct(names)
      requires forall i :: 0 <= i < |names| ==> names[i] !in fs.files
      modifies fs
      ensures ExtractImgSrcs(imgs) == [] ==>
                h == Skipped && fs.files == old(fs.files) && fs.created == old(fs.created) && fs.removed == old(fs.removed)
      ensures ExtractImgSrcs(imgs) != [] ==>
                && h.Moderated?
                && h.results == ProcessResult(ExtractImgSrcs(imgs), names, fetch, predict)
                && fs.files == old(fs.files) + Leaked(names, fetch)
                && fs.created == old(fs.created) + Created(names, fetch)
                && fs.removed == old(fs.removed) + names[..FirstFailure(fetch)]
                && h.response == FormatResponse(h.results, MatrixToUrl(viaServers, evt.roomId, evt.eventId), pct)
                && Dispatched(actions, reportToRoom, evt, h.response, h.results, o, h.effects, h.status)
    {
      var urls := ExtractImgSrcs(imgs);
      if |urls| == 0 {
        return Skipped;
      }
      var results, response, effects, status := ModerateImages(fs, evt, urls, names, fetch, predict, pct, o);
      h := Moderated(results, response, effects, status);
    }
  }
}
