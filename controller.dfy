/** The controller behind the model overview screen: it owns the loaded
    network, the pending load task, the cache of decoded sample images and the
    queue of classifications, and reports to the attached view. */
module Controller {
  import opened Options
  import opened Pixels
  import opened LoadNetworkTask
  import ClassifyImageTask

  /** The parts of a model the controller uses: its name and the absolute
      paths of its sample images. */
  datatype Model = Model(name: string, samples: seq<string>)

  /** One call the controller makes on its view. */
  datatype ViewCall =
    | SetLoadingVisible(visible: bool)
    | SetModelName(name: string)
    | AddSampleBitmap(bitmap: Bitmap)
    | SetNetworkDimensions(network: Network)
    | SetOutputLayersNames(network: Network)
    | SetModelVersion(network: Network)
    | DisplayModelLoadFailed
    | DisplayModelNotLoaded
    | SetClassificationResult(labels: seq<string>)
    | DisplayClassificationFailed

  /** A network-loading task the controller started: the runtime it builds
      for, whether it was cancelled, and whether it has completed. */
  datatype LoadTask = LoadTask(runtime: Runtime, cancelled: bool, finished: bool)

  /** A classification task queued on the serial executor: the network it runs
      on and the image it classifies. */
  datatype Classification = Classification(network: Network, image: Bitmap)

  /** The bitmap a cache holds for `path`: none when there is no entry or its
      soft reference has been cleared. */
  function CachedBitmap(cache: map<string, Option<Bitmap>>, path: string): (r: Option<Bitmap>)
    ensures r.Some? <==> path in cache && cache[path].Some?
    ensures r.Some? ==> r == cache[path]
  {
    if path in cache && cache[path].Some? then cache[path] else None
  }

  /** The view calls with which the sample loop delivers cached bitmaps, in
      sample order. */
  function SampleCalls(samples: seq<string>, cache: map<string, Option<Bitmap>>): seq<ViewCall>
  {
    if |samples| == 0 then []
    else
      var n := |samples| - 1;
      var cached := CachedBitmap(cache, samples[n]);
      SampleCalls(samples[..n], cache) + (if cached.Some? then [AddSampleBitmap(cached.value)] else [])
  }

  /** The sample paths for which the sample loop starts a decoding task, in
      sample order. */
  function SampleDecodes(samples: seq<string>, cache: map<string, Option<Bitmap>>): seq<string>
  {
    if |samples| == 0 then []
    else
      var n := |samples| - 1;
      SampleDecodes(samples[..n], cache) + (if CachedBitmap(cache, samples[n]).Some? then [] else [samples[n]])
  }

  /** Each sample is either delivered from the cache or decoded, never both
      and never neither. */
  lemma {:induction false} SamplesEachHandledOnce(samples: seq<string>, cache: map<string, Option<Bitmap>>)
    ensures |SampleCalls(samples, cache)| + |SampleDecodes(samples, cache)| == |samples|
  {
    if |samples| > 0 {
      SamplesEachHandledOnce(samples[..|samples| - 1], cache);
    }
  }

  /** A path is decoded exactly when it is a sample the cache cannot supply. */
  lemma {:induction false} DecodedIffNotCached(samples: seq<string>, cache: map<string, Option<Bitmap>>, path: string)
    ensures path in SampleDecodes(samples, cache) <==> path in samples && CachedBitmap(cache, path).None?
  {
    if |samples| > 0 {
      var n := |samples| - 1;
      DecodedIffNotCached(samples[..n], cache, path);
      assert samples == samples[..n] + [samples[n]];
    }
  }

  /** Every sample call delivers a bitmap the cache holds for some sample. */
  lemma {:induction false} SampleCallsFromCache(samples: seq<string>, cache: map<string, Option<Bitmap>>)
    ensures forall c :: c in SampleCalls(samples, cache) ==>
      c.AddSampleBitmap? && exists p :: p in samples && CachedBitmap(cache, p) == Some(c.bitmap)
  {
    if |samples| > 0 {
      var n := |samples| - 1;
      SampleCallsFromCache(samples[..n], cache);
      assert forall p :: p in samples[..n] ==> p in samples;
    }
  }

  class ModelOverviewFragmentController {
    const model: Model
    /** Whether a view is attached. */
    var attached: bool
    /** The loaded network, if any. */
    var network: Option<Network>
    /** The load task whose result the controller waits for, by position in `loadTasks`. */
    var loadTask: Option<nat>
    /** Every load task the controller started, in order. */
    var loadTasks: seq<LoadTask>
    /** Decoded sample bitmaps by absolute path; `None` once the soft reference is cleared. */
    var bitmapCache: map<string, Option<Bitmap>>
    /** The calls made on the view, in order. */
    var view: seq<ViewCall>
    /** The networks released, in order. */
    var released: seq<Network>
    /** The classification tasks queued and not yet completed, in order. */
    var classifications: seq<Classification>
    /** The sample paths for which a decoding task was started, in order. */
    var decodes: seq<string>
    /** Every network the engine built for this controller. */
    ghost var built: set<Network>

    /** The resource discipline: a network is released at most once and only
        after it was built, the held network is live, every built network is
        held or released, and the only load task that is neither cancelled
        nor finished is the one the controller waits for, while it holds no
        network. */
    ghost predicate Valid()
      reads this
    {
      (forall i, j :: 0 <= i < j < |released| ==> released[i] != released[j])
      && (forall n :: n in released ==> n in built)
      && (network.Some? ==> network.value in built && network.value !in released)
      && (forall n :: n in built ==> n in released || network == Some(n))
      && (loadTask.Some? ==>
            loadTask.value < |loadTasks| && !loadTasks[loadTask.value].cancelled
            && !loadTasks[loadTask.value].finished && network.None?)
      && (forall i :: 0 <= i < |loadTasks| && !loadTasks[i].cancelled && !loadTasks[i].finished ==> loadTask == Some(i))
    }

    constructor (model: Model)
      ensures Valid() && this.model == model && !attached
      ensures network == None && loadTask == None && loadTasks == [] && bitmapCache == map[]
      ensures view == [] && released == [] && classifications == [] && decodes == [] && built == {}
    {
      this.model := model;
      attached := false;
      network := None;
      loadTask := None;
      loadTasks := [];
      bitmapCache := map[];
      view := [];
      released := [];
      classifications := [];
      decodes := [];
      built := {};
    }

    /** The bitmap cached for `path`, unless it was never cached or has been cleared. */
    function GetCachedBitmap(path: string): (r: Option<Bitmap>)
      reads this
      ensures r == CachedBitmap(bitmapCache, path)
    {
      CachedBitmap(bitmapCache, path)
    }

    /** Releases the held network, if any, cancels the pending load task, if
        any, and starts a new load task for `runtime`. */
    method LoadNetwork(runtime: Runtime)
      requires Valid()
      modifies this
      ensures Valid()
      ensures network == None
      ensures released == old(released) + (if old(network).Some? then [old(network).value] else [])
      ensures |loadTasks| == |old(loadTasks)| + 1 && loadTasks[|loadTasks| - 1] == LoadTask(runtime, false, false)
      ensures loadTasks[..|old(loadTasks)|] ==
        if old(loadTask).Some? then old(loadTasks)[old(loadTask).value := old(loadTasks)[old(loadTask).value].(cancelled := true)]
        else old(loadTasks)
      ensures loadTask == Some(|loadTasks| - 1)
      ensures attached == old(attached) && view == old(view) && bitmapCache == old(bitmapCache)
      ensures classifications == old(classifications) && decodes == old(decodes) && built == old(built)
    {
      if network.Some? {
        released := released + [network.value];
        network := None;
      }
      if loadTask.Some? {
        var i := loadTask.value;
        loadTasks := loadTasks[i := loadTasks[i].(cancelled := true)];
      }
      loadTasks := loadTasks + [LoadTask(runtime, false, false)];
      loadTask := Some(|loadTasks| - 1);
    }

    /** The view was attached: show the loading state and the model's name,
        deliver or decode the samples, and load the network for the CPU. */
    method OnViewAttached()
      requires Valid()
      modifies this
      ensures Valid() && attached
      ensures view == old(view) + [SetLoadingVisible(true), SetModelName(model.name)] + SampleCalls(model.samples, old(bitmapCache))
      ensures decodes == old(decodes) + SampleDecodes(model.samples, old(bitmapCache))
      ensures network == None && loadTask == Some(|loadTasks| - 1)
      ensures |loadTasks| == |old(loadTasks)| + 1 && loadTasks[|loadTasks| - 1] == LoadTask(Cpu, false, false)
      ensures loadTasks[..|old(loadTasks)|] ==
        if old(loadTask).Some? then old(loadTasks)[old(loadTask).value := old(loadTasks)[old(loadTask).value].(cancelled := true)]
        else old(loadTasks)
      ensures released == old(released) + (if old(network).Some? then [old(network).value] else [])
      ensures bitmapCache == old(bitmapCache) && classifications == old(classifications) && built == old(built)
    {
      attached := true;
      view := view + [SetLoadingVisible(true), SetModelName(model.name)];
      LoadImageSamples();
      LoadNetwork(Cpu);
    }

    /** For each sample, in order: deliver the cached bitmap if there is one,
        otherwise start a task that decodes it. */
    method LoadImageSamples()
      modifies this`view, this`decodes
      ensures view == old(view) + SampleCalls(model.samples, bitmapCache)
      ensures decodes == old(decodes) + SampleDecodes(model.samples, bitmapCache)
    {
      var i := 0;
      while i < |model.samples|
        invariant i <= |model.samples|
        invariant view == old(view) + SampleCalls(model.samples[..i], bitmapCache)
        invariant decodes == old(decodes) + SampleDecodes(model.samples[..i], bitmapCache)
      {
        var jpeg := model.samples[i];
        var cached := GetCachedBitmap(jpeg);
        assert model.samples[..i + 1][..i] == model.samples[..i];
        if cached.Some? {
          view := view + [AddSampleBitmap(cached.value)];
        } else {
          decodes := decodes + [jpeg];
        }
        i := i + 1;
      }
      assert model.samples[..i] == model.samples;
    }

    /** The view was detached: release the held network, if any. */
    method OnViewDetached()
      requires Valid()
      modifies this
      ensures Valid() && !attached && network == None
      ensures released == old(released) + (if old(network).Some? then [old(network).value] else [])
      ensures loadTask == old(loadTask) && loadTasks == old(loadTasks) && view == old(view)
      ensures bitmapCache == old(bitmapCache) && classifications == old(classifications)
      ensures decodes == old(decodes) && built == old(built)
    {
      if network.Some? {
        released := released + [network.value];
        network := None;
      }
      attached := false;
    }

    /** A sample finished decoding: cache it under its path whether or not a
        view is attached, and show it only when one is. */
    method OnBitmapLoaded(path: string, bitmap: Bitmap)
      modifies this`bitmapCache, this`view
      ensures bitmapCache == old(bitmapCache)[path := Some(bitmap)]
      ensures view == old(view) + (if attached then [AddSampleBitmap(bitmap)] else [])
    {
      bitmapCache := bitmapCache[path := Some(bitmap)];
      if attached {
        view := view + [AddSampleBitmap(bitmap)];
      }
    }

    /** The pending load task built `n`: adopt it and describe it to the view
        when attached, release it otherwise; either way stop waiting. */
    method OnNetworkLoaded(n: Network)
      modifies this`network, this`view, this`released, this`loadTask
      ensures network == if attached then Some(n) else old(network)
      ensures view == old(view) + if attached then
        [SetNetworkDimensions(n), SetOutputLayersNames(n), SetModelVersion(n), SetLoadingVisible(false)] else []
      ensures released == old(released) + if attached then [] else [n]
      ensures loadTask == None
    {
      if attached {
        network := Some(n);
        view := view + [SetNetworkDimensions(n), SetOutputLayersNames(n), SetModelVersion(n), SetLoadingVisible(false)];
      } else {
        released := released + [n];
      }
      loadTask := None;
    }

    /** The pending load task built nothing: report it when attached and stop waiting. */
    method OnNetworkLoadFailed()
      modifies this`view, this`loadTask
      ensures view == old(view) + if attached then [DisplayModelLoadFailed] else []
      ensures loadTask == None
    {
      if attached {
        view := view + [DisplayModelLoadFailed];
      }
      loadTask := None;
    }

    /** Queue a classification of `bitmap` on the held network, or tell the
        view no model is loaded. */
    method Classify(bitmap: Bitmap)
      modifies this`classifications, this`view
      ensures classifications == old(classifications) + if network.Some? then [Classification(network.value, bitmap)] else []
      ensures view == old(view) + if network.Some? then [] else [DisplayModelNotLoaded]
    {
      var neuralNetwork := network;
      if neuralNetwork.Some? {
        classifications := classifications + [Classification(neuralNetwork.value, bitmap)];
      } else {
        view := view + [DisplayModelNotLoaded];
      }
    }

    /** A classification produced labels: show them when attached. */
    method OnClassificationResult(labels: seq<string>)
      modifies this`view
      ensures view == old(view) + if attached then [SetClassificationResult(labels)] else []
    {
      if attached {
        view := view + [SetClassificationResult(labels)];
      }
    }

    /** A classification produced nothing: report it when attached. */
    method OnClassificationFailed()
      modifies this`view
      ensures view == old(view) + if attached then [DisplayClassificationFailed] else []
    {
      if attached {
        view := view + [DisplayClassificationFailed];
      }
    }

    /** The user picked a runtime: when attached, show the loading state and
        reload the network for it; when detached, do nothing. */
    method SetTargetRuntime(runtime: Runtime)
      requires Valid()
      modifies this
      ensures Valid()
      ensures !old(attached) ==> (network == old(network) && loadTask == old(loadTask) && loadTasks == old(loadTasks)
                                  && view == old(view) && released == old(released))
      ensures old(attached) ==> (network == None && loadTask == Some(|loadTasks| - 1)
                                 && |loadTasks| == |old(loadTasks)| + 1
                                 && loadTasks[|loadTasks| - 1] == LoadTask(runtime, false, false)
                                 && loadTasks[..|old(loadTasks)|] ==
                                      (if old(loadTask).Some?
                                       then old(loadTasks)[old(loadTask).value := old(loadTasks)[old(loadTask).value].(cancelled := true)]
                                       else old(loadTasks))
                                 && view == old(view) + [SetLoadingVisible(true)]
                                 && released == old(released) + (if old(network).Some? then [old(network).value] else []))
      ensures attached == old(attached) && bitmapCache == old(bitmapCache) && classifications == old(classifications)
      ensures decodes == old(decodes) && built == old(built)
    {
      if attached {
        view := view + [SetLoadingVisible(true)];
        LoadNetwork(runtime);
      }
    }

    /** Load task i completes, its build having had `outcome`; a network it
        built is new. The result is delivered as the task's completion step
        describes, including the release of a cancelled task's network. */
    method CompleteLoad(i: nat, outcome: BuildOutcome)
      requires Valid() && i < |loadTasks| && !loadTasks[i].finished
      requires outcome.Built? ==> outcome.network !in built
      modifies this
      ensures Valid()
      ensures loadTasks == old(loadTasks)[i := old(loadTasks)[i].(finished := true)]
      ensures built == old(built) + if outcome.Built? then {outcome.network} else {}
      ensures network != old(network) ==>
        outcome.Built? && network == Some(outcome.network) && old(attached) && !old(loadTasks)[i].cancelled
      ensures outcome.Built? ==> outcome.network in released || network == Some(outcome.network)
      ensures old(loadTasks)[i].cancelled ==> view == old(view) && loadTask == old(loadTask)
      ensures old(loadTasks)[i].cancelled ==>
        network == old(network) && released == old(released) + (if outcome.Built? then [outcome.network] else [])
      ensures !old(loadTasks)[i].cancelled ==> loadTask == None
      ensures !old(loadTasks)[i].cancelled && outcome.Built? && old(attached) ==>
        var n := outcome.network;
        network == Some(n) && released == old(released)
        && view == old(view) + [SetNetworkDimensions(n), SetOutputLayersNames(n), SetModelVersion(n), SetLoadingVisible(false)]
      ensures !old(loadTasks)[i].cancelled && outcome.Built? && !old(attached) ==>
        network == old(network) && released == old(released) + [outcome.network] && view == old(view)
      ensures !old(loadTasks)[i].cancelled && !outcome.Built? ==>
        network == old(network) && released == old(released)
        && view == old(view) + (if old(attached) then [DisplayModelLoadFailed] else [])
      ensures attached == old(attached) && bitmapCache == old(bitmapCache)
      ensures classifications == old(classifications) && decodes == old(decodes)
    {
      var task := loadTasks[i];
      if outcome.Built? {
        built := built + {outcome.network};
      }
      loadTasks := loadTasks[i := task.(finished := true)];
      var result := DoInBackground(outcome);
      CorrectedDispatchMatchesCompletion(result, task.cancelled);
      match CorrectedDispatch(result, task.cancelled)
      case Loaded(n) =>
        OnNetworkLoaded(n);
      case Release(n) =>
        released := released + [n];
      case LoadFailed =>
        OnNetworkLoadFailed();
      case Ignore =>
    }

    /** The soft reference cached for `path` is cleared by the collector. */
    method ClearCachedBitmap(path: string)
      requires path in bitmapCache
      modifies this`bitmapCache
      ensures bitmapCache == old(bitmapCache)[path := None]
    {
      bitmapCache := bitmapCache[path := None];
    }

    /** The oldest queued classification completes with `labels`; its
        completion step reports them, or the failure when there are none. */
    method CompleteClassification(labels: seq<string>)
      requires 0 < |classifications|
      modifies this`classifications, this`view
      ensures classifications == old(classifications)[1..]
      ensures view == old(view) + if !attached then []
        else if 0 < |labels| then [SetClassificationResult(labels)] else [DisplayClassificationFailed]
    {
      classifications := classifications[1..];
      match ClassifyImageTask.PostExecute(labels)
      case ClassificationResult(l) =>
        OnClassificationResult(l);
      case ClassificationFailed =>
        OnClassificationFailed();
    }
  }
}
