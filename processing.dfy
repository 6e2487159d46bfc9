/** `process_images`: download every image to its own temporary file, run one
    batch prediction over the files, re-key the predictions from file name to
    image URL, and delete the recorded files on every way out. */
module Processing {
  import opened Wrappers
  import opened Seqs
  import opened Results

  /** How downloading one URL and writing it to its temporary file ends:
      stored; `download_media` raised; `open` raised (no file); or `write`
      raised after `open` had already created the file. */
  datatype FetchOutcome = Stored | DownloadFailed | OpenFailed | WriteFailed

  /** An element of `temp_files`: the URL and the file holding its bytes. */
  datatype TempFile = TempFile(url: string, name: string)

  /** The files that exist in the temporary directory, with a log of every
      file created (`open(name, "wb")`) and removed (`os.remove`). */
  class FileSystem {
    var files: set<string>
    var created: seq<string>
    var removed: seq<string>

    constructor (existing: set<string>)
      ensures files == existing && created == [] && removed == []
    {
      files, created, removed := existing, [], [];
    }

    /** `open(name, "wb")`. */
    method Create(name: string)
      modifies this
      ensures files == old(files) + {name}
      ensures created == old(created) + [name] && removed == old(removed)
    {
      files := files + {name};
      created := created + [name];
    }

    /** `os.remove(name)`, which succeeds because the file exists. */
    method Remove(name: string)
      requires name in files
      modifies this
      ensures files == old(files) - {name}
      ensures removed == old(removed) + [name] && created == old(created)
    {
      files := files - {name};
      removed := removed + [name];
    }
  }

  /** Index of the first URL whose fetch did not end in Stored: the fetch loop
      stops there with an exception. */
  function FirstFailure(fetch: seq<FetchOutcome>): (k: nat)
    ensures k <= |fetch|
    ensures forall i :: 0 <= i < k ==> fetch[i] == Stored
    ensures k < |fetch| ==> fetch[k] != Stored
  {
    if |fetch| == 0 || fetch[0] != Stored then 0 else 1 + FirstFailure(fetch[1..])
  }

  /** `temp_files` after `k` successful iterations. */
  function Recorded(urls: seq<string>, names: seq<string>, k: nat): (ts: seq<TempFile>)
    requires k <= |urls| && k <= |names|
    ensures |ts| == k
    ensures forall i :: 0 <= i < k ==> ts[i] == TempFile(urls[i], names[i])
  {
    seq(k, i requires 0 <= i < k => TempFile(urls[i], names[i]))
  }

  function Names(ts: seq<TempFile>): (ns: seq<string>)
    ensures |ns| == |ts|
    ensures forall i :: 0 <= i < |ts| ==> ns[i] == ts[i].name
  {
    seq(|ts|, i requires 0 <= i < |ts| => ts[i].name)
  }

  function Urls(ts: seq<TempFile>): (us: seq<string>)
    ensures |us| == |ts|
    ensures forall i :: 0 <= i < |ts| ==> us[i] == ts[i].url
  {
    seq(|ts|, i requires 0 <= i < |ts| => ts[i].url)
  }

  /** The re-keying of the predictions by URL, one recorded file at a time,
      left to right: each step takes its file's prediction out of the map and
      stores it under the file's URL, so a name that is missing or was already
      taken raises KeyError (None). */
  function Rekey(ts: seq<TempFile>, preds: map<string, Prediction>): Option<seq<Entry>>
    decreases |ts|
  {
    if |ts| == 0 then Some([])
    else
      var init, last := ts[..|ts| - 1], ts[|ts| - 1];
      match Rekey(init, preds)
      case None => None
      case Some(d) =>
        if last.name in preds && last.name !in Names(init)
        then Some(Put(d, last.url, preds[last.name]))
        else None
  }

  /** The names of the files `open` created, in creation order. */
  function Created(names: seq<string>, fetch: seq<FetchOutcome>): seq<string>
    requires |names| == |fetch|
  {
    var k := FirstFailure(fetch);
    names[..k] + if k < |fetch| && fetch[k] == WriteFailed then [names[k]] else []
  }

  /** The file left behind: a file whose write raised was created but never
      appended to `temp_files`, so the cleanup loop does not see it. */
  function Leaked(names: seq<string>, fetch: seq<FetchOutcome>): set<string>
    requires |names| == |fetch|
  {
    var k := FirstFailure(fetch);
    if k < |fetch| && fetch[k] == WriteFailed then {names[k]} else {}
  }

  /** The result `process_images` returns: the re-keyed predictions, or `{}`
      when any fetch, the prediction or the re-keying raised. */
  function ProcessResult(urls: seq<string>, names: seq<string>, fetch: seq<FetchOutcome>,
                         predict: seq<string> -> Option<map<string, Prediction>>): seq<Entry>
    requires |names| == |urls| && |fetch| == |urls|
  {
    if FirstFailure(fetch) < |fetch| then []
    else
      match predict(names)
      case None => []
      case Some(p) => Rekey(Recorded(urls, names, |urls|), p).GetOr([])
  }

  lemma PrefixViews(ts: seq<TempFile>, k: nat)
    requires k <= |ts|
    ensures Names(ts[..k]) == Names(ts)[..k] && Urls(ts[..k]) == Urls(ts)[..k]
  {
  }

  /** Re-keying succeeds exactly when every file has a prediction (file names
      being distinct); when it succeeds every file had one. */
  lemma {:induction false} RekeyDefined(ts: seq<TempFile>, preds: map<string, Prediction>)
    ensures Rekey(ts, preds).Some? ==> forall i :: 0 <= i < |ts| ==> ts[i].name in preds
    ensures Distinct(Names(ts)) && (forall i :: 0 <= i < |ts| ==> ts[i].name in preds) ==>
              Rekey(ts, preds).Some?
  {
    if |ts| > 0 {
      var n := |ts| - 1;
      var init := ts[..n];
      PrefixViews(ts, n);
      RekeyDefined(init, preds);
      if Distinct(Names(ts)) {
        assert Distinct(Names(init));
        assert ts[n].name !in Names(init);
      }
    }
  }

  /** A failed prefix makes the whole comprehension fail. */
  lemma {:induction false} RekeyPrefixFails(ts: seq<TempFile>, preds: map<string, Prediction>, k: nat)
    requires k <= |ts|
    requires Rekey(ts[..k], preds) == None
    ensures Rekey(ts, preds) == None
  {
    if k < |ts| {
      assert ts[..|ts| - 1][..k] == ts[..k];
      RekeyPrefixFails(ts[..|ts| - 1], preds, k);
    } else {
      assert ts[..k] == ts;
    }
  }

  /** The keys of a re-keyed result are the distinct URLs. */
  lemma {:induction false} RekeyKeySet(ts: seq<TempFile>, preds: map<string, Prediction>, d: seq<Entry>)
    requires Rekey(ts, preds) == Some(d)
    ensures Distinct(Keys(d))
    ensures forall u :: u in Keys(d) <==> u in Urls(ts)
  {
    if |ts| > 0 {
      var n := |ts| - 1;
      var init, last := ts[..n], ts[n];
      PrefixViews(ts, n);
      var d0 := Rekey(init, preds).value;
      assert d == Put(d0, last.url, preds[last.name]);
      RekeyKeySet(init, preds, d0);
      PutKeys(d0, last.url, preds[last.name]);
      assert Urls(ts) == Urls(init) + [last.url];
      if last.url !in Keys(d0) {
        DistinctSnoc(Keys(d0), last.url);
      }
    }
  }

  /** The keys of a re-keyed result are in the order each URL was first seen. */
  lemma {:induction false} RekeyKeyOrder(ts: seq<TempFile>, preds: map<string, Prediction>, d: seq<Entry>)
    requires Rekey(ts, preds) == Some(d)
    ensures InFirstSeenOrder(Keys(d), Urls(ts))
  {
    if |ts| > 0 {
      var n := |ts| - 1;
      var init, last := ts[..n], ts[n];
      PrefixViews(ts, n);
      var d0 := Rekey(init, preds).value;
      RekeyKeyOrder(init, preds, d0);
      RekeyKeySet(init, preds, d0);
      PutKeys(d0, last.url, preds[last.name]);
      assert Urls(ts) == Urls(init) + [last.url];
      if last.url in Keys(d0) {
        FirstSeenExtend(Keys(d0), Urls(init), [last.url]);
      } else {
        FirstSeenAddNew(Keys(d0), Urls(init), last.url);
      }
    } else {
      assert Keys(d) == [];
    }
  }

  /** The value kept under a URL is the prediction for that URL's last
      occurrence: later duplicates overwrite earlier ones. */
  lemma {:induction false} RekeyLastWins(ts: seq<TempFile>, preds: map<string, Prediction>, d: seq<Entry>)
    requires Rekey(ts, preds) == Some(d)
    requires forall i :: 0 <= i < |ts| ==> ts[i].name in preds
    ensures forall u :: u in Urls(ts) ==>
              Get(d, u) == Some(preds[ts[LastIndex(Urls(ts), u)].name])
  {
    if |ts| > 0 {
      var n := |ts| - 1;
      var init, last := ts[..n], ts[n];
      PrefixViews(ts, n);
      var d0 := Rekey(init, preds).value;
      RekeyLastWins(init, preds, d0);
      assert Urls(ts) == Urls(init) + [last.url];
      forall u | u in Urls(ts)
        ensures Get(d, u) == Some(preds[ts[LastIndex(Urls(ts), u)].name])
      {
        PutGet(d0, last.url, preds[last.name], u);
        LastIndexSnoc(Urls(init), last.url, u);
      }
    }
  }

  /** Any failure on the way gives the empty result. */
  lemma ProcessFailureIsEmpty(urls: seq<string>, names: seq<string>, fetch: seq<FetchOutcome>,
                              predict: seq<string> -> Option<map<string, Prediction>>)
    requires |names| == |urls| && |fetch| == |urls|
    requires || FirstFailure(fetch) < |fetch|
             || predict(names).None?
             || (predict(names).Some? && exists i :: 0 <= i < |names| && names[i] !in predict(names).value)
    ensures ProcessResult(urls, names, fetch, predict) == []
  {
    if FirstFailure(fetch) == |fetch| && predict(names).Some? {
      RekeyDefined(Recorded(urls, names, |urls|), predict(names).value);
    }
  }

  /** On success the result has one key per distinct URL, in first-seen order,
      holding the prediction for the URL's last occurrence. */
  lemma ProcessSuccess(urls: seq<string>, names: seq<string>, fetch: seq<FetchOutcome>,
                       predict: seq<string> -> Option<map<string, Prediction>>)
    requires |names| == |urls| && |fetch| == |urls|
    requires Distinct(names)
    requires forall i :: 0 <= i < |fetch| ==> fetch[i] == Stored
    requires predict(names).Some?
    requires forall i :: 0 <= i < |names| ==> names[i] in predict(names).value
    ensures var r := ProcessResult(urls, names, fetch, predict);
            && Distinct(Keys(r))
            && (forall u :: u in Keys(r) <==> u in urls)
            && InFirstSeenOrder(Keys(r), urls)
            && (forall u :: u in urls ==> Get(r, u) == Some(predict(names).value[names[LastIndex(urls, u)]]))
  {
    var ts := Recorded(urls, names, |urls|);
    var p := predict(names).value;
    assert Names(ts) == names && Urls(ts) == urls;
    RekeyDefined(ts, p);
    var d := Rekey(ts, p).value;
    RekeyKeySet(ts, p, d);
    RekeyKeyOrder(ts, p, d);
    RekeyLastWins(ts, p, d);
  }

  /** The cleanup removes each recorded file exactly once (the temporary names
      being distinct), and never the file whose write raised. */
  lemma RemovedOnce(names: seq<string>, fetch: seq<FetchOutcome>)
    requires |names| == |fetch|
    requires Distinct(names)
    ensures var k := FirstFailure(fetch);
            forall i :: 0 <= i < k ==> multiset(names[..k])[names[i]] == 1
    ensures forall n :: n in Leaked(names, fetch) ==> n !in names[..FirstFailure(fetch)]
  {
    var k := FirstFailure(fetch);
    forall i | 0 <= i < k
      ensures multiset(names[..k])[names[i]] == 1
    {
      assert names[..k][i] == names[i];
      DistinctOnce(names[..k], names[i]);
    }
  }

  /** The download loop of `process_images`: stops at the first fetch that
      raises; every file before it is recorded in `temp_files`. */
  method FetchImages(fs: FileSystem, urls: seq<string>, names: seq<string>, fetch: seq<FetchOutcome>)
    returns (tempFiles: seq<TempFile>, failed: bool)
    requires |names| == |urls| && |fetch| == |urls|
    modifies fs
    ensures failed <==> FirstFailure(fetch) < |fetch|
    ensures tempFiles == Recorded(urls, names, FirstFailure(fetch))
    ensures fs.files == old(fs.files) + Elems(names[..FirstFailure(fetch)]) + Leaked(names, fetch)
    ensures fs.created == old(fs.created) + Created(names, fetch)
    ensures fs.removed == old(fs.removed)
  {
    tempFiles, failed := [], false;
    var i := 0;
    while i < |urls| && !failed
      invariant 0 <= i <= |urls|
      invariant forall j :: 0 <= j < i ==> fetch[j] == Stored
      invariant failed ==> i < |urls| && fetch[i] != Stored
      invariant tempFiles == Recorded(urls, names, i)
      invariant fs.files == old(fs.files) + Elems(names[..i])
                            + (if failed && fetch[i] == WriteFailed then {names[i]} else {})
      invariant fs.created == old(fs.created) + names[..i]
                              + (if failed && fetch[i] == WriteFailed then [names[i]] else [])
      invariant fs.removed == old(fs.removed)
      decreases |urls| - i, if failed then 0 else 1
    {
      match fetch[i]
      case DownloadFailed =>
        failed := true;
      case OpenFailed =>
        failed := true;
      case WriteFailed =>
        fs.Create(names[i]);
        failed := true;
      case Stored =>
        fs.Create(names[i]);
        tempFiles := tempFiles + [TempFile(urls[i], names[i])];
        assert names[..i + 1] == names[..i] + [names[i]];
        i := i + 1;
    }
    assert i == FirstFailure(fetch);
  }

  /** The elements of a sequence, as a set. */
  ghost function Elems(s: seq<string>): set<string> {
    set x | x in s
  }

  /** The comprehension of `process_images`, popping each file's prediction
      from `predictions` in `temp_files` order; None where `pop` raises. */
  method PopPredictions(tempFiles: seq<TempFile>, predictions: map<string, Prediction>)
    returns (r: Option<seq<Entry>>)
    ensures r == Rekey(tempFiles, predictions)
  {
    var remaining := predictions;
    var d: seq<Entry> := [];
    var j := 0;
    while j < |tempFiles|
      invariant 0 <= j <= |tempFiles|
      invariant Rekey(tempFiles[..j], predictions) == Some(d)
      invariant remaining == predictions - Elems(Names(tempFiles[..j]))
    {
      var t := tempFiles[j];
      assert tempFiles[..j + 1][..j] == tempFiles[..j] && tempFiles[..j + 1][j] == t;
      if t.name !in remaining {
        RekeyPrefixFails(tempFiles, predictions, j + 1);
        return None;
      }
      d := Put(d, t.url, remaining[t.name]);
      remaining := remaining - {t.name};
      assert Names(tempFiles[..j + 1]) == Names(tempFiles[..j]) + [t.name];
      j := j + 1;
    }
    assert tempFiles[..j] == tempFiles;
    r := Some(d);
  }

  /** The `finally` loop of `process_images`: `os.remove` on every recorded
      file, in order. */
  method RemoveTempFiles(fs: FileSystem, tempFiles: seq<TempFile>)
    requires Distinct(Names(tempFiles))
    requires forall i :: 0 <= i < |tempFiles| ==> tempFiles[i].name in fs.files
    modifies fs
    ensures fs.files == old(fs.files) - Elems(Names(tempFiles))
    ensures fs.removed == old(fs.removed) + Names(tempFiles)
    ensures fs.created == old(fs.created)
  {
    var k := 0;
    while k < |tempFiles|
      invariant 0 <= k <= |tempFiles|
      invariant fs.files == old(fs.files) - Elems(Names(tempFiles)[..k])
      invariant fs.removed == old(fs.removed) + Names(tempFiles)[..k]
      invariant fs.created == old(fs.created)
    {
      var name := tempFiles[k].name;
      assert name !in Names(tempFiles)[..k];
      assert Names(tempFiles)[..k + 1] == Names(tempFiles)[..k] + [name];
      fs.Remove(name);
      k := k + 1;
    }
    assert Names(tempFiles)[..k] == Names(tempFiles);
  }

  /** `process_images`. The temporary names (`uuid4`) are supplied, distinct
      and not yet on disk; `fetch` says how each download-and-write ends and
      `predict` is the classifier's batch call. The semaphore is not modelled.
      Every file appended to `temp_files` is removed exactly once, in order,
      whatever fails; only a file whose write raised stays behind. */
  method ProcessImages(fs: FileSystem, urls: seq<string>, names: seq<string>, fetch: seq<FetchOutcome>,
                       predict: seq<string> -> Option<map<string, Prediction>>)
    returns (results: seq<Entry>)
    requires |names| == |urls| && |fetch| == |urls|
    requires Distinct(names)
    requires forall i :: 0 <= i < |names| ==> names[i] !in fs.files
    modifies fs
    ensures results == ProcessResult(urls, names, fetch, predict)
    ensures fs.created == old(fs.created) + Created(names, fetch)
    ensures fs.removed == old(fs.removed) + names[..FirstFailure(fetch)]
    ensures fs.files == old(fs.files) + Leaked(names, fetch)
  {
    ghost var k := FirstFailure(fetch);
    // try
    var tempFiles, failed := FetchImages(fs, urls, names, fetch);
    assert Names(tempFiles) == names[..k];
    results := [];
    if !failed {
      assert names[..k] == names;
      var predictions := predict(Names(tempFiles));
      if predictions.Some? {
        var rekeyed := PopPredictions(tempFiles, predictions.value);
        if rekeyed.Some? {
          results := rekeyed.value;
        }
      }
    }
    // finally
    ghost var leaked := Leaked(names, fetch);
    assert forall n :: n in Elems(names[..k]) ==> n !in old(fs.files) && n !in leaked;
    RemoveTempFiles(fs, tempFiles);
    assert fs.files == old(fs.files) + leaked;
  }
}
