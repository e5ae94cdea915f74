# SNPE image classifiers: a verified model of the classification core

This Dafny project models the logic beneath the Android screens of the SNPE
image-classifier sample app. It covers three parts of the app.

- **The classification task** (`ClassifyImageTask`). It has four steps:
  - A size gate checks the mean image against the input tensor.
  - The last tensor dimension chooses grayscale or colour encoding.
    - The colour encoder writes B, G, R per pixel, less three mean entries each.
    - The grayscale encoder writes one grey level per pixel (0.3 R + 0.59 G + 0.11 B, a rounded form of the ITU-R BT.601 luma weights), less one mean entry each.
  - The network is run on the encoded tensor.
  - The "prob" output is reduced to its top-1 label and score, using a repeated strict arg-max that starts from a -1 sentinel.

  An empty result reports a failure.
- **The network-loading task** (`LoadNetworkTask`). A build failure becomes "no network". On completion the task decides what to do from two facts: whether there is a network, and whether the task was cancelled.
- **The screen controller** (`ModelOverviewFragmentController`). It owns these:
  - the loaded network;
  - the pending load task;
  - a soft-reference cache of decoded sample bitmaps;
  - the classifications it queued;
  - the calls it made to its view.

  Its invariant `Valid` states the resource discipline:
  - A network is released at most once, and only after it was built.
  - Every built network is either held or released; none leaks.
  - The only load task that is neither cancelled nor finished is the one the controller waits for.

Files and modules:

- `options.dfy` (`Options`): the optional value used for the cache, the held network and a task's result.
- `pixels.dfy` (`Pixels`): ARGB pixels as `bv32`, channel extraction, grey level.
- `tensor.dfy` (`Tensor`): the input tensor (a class over an `array<real>`, written in place at (y, x)) and the mean buffer (a class whose `Get` advances a position).
- `encoding.dfy` (`Encoding`): the tensor contents each encoder produces, as functions of the pixels and the mean.
- `ranking.dfy` (`Ranking`): what the arg-max search and k rounds of it return.
- `classify_image_task.dfy` (`ClassifyImageTask`): the encoders (nested loops), `Top`, `TopK`, the background step, the result assembly and the completion step.
- `load_network_task.dfy` (`LoadNetworkTask`): the background step and the completion decision of the loading task.
- `controller.dfy` (`Controller`): the controller class, its operations, and the environment steps that complete tasks.

Values are modelled as follows:

- Pixel and mean values are `real`; float rounding is not modelled.
- A bitmap is its row-major sequence of 32-bit pixels.
- A network is an abstract handle.
- The view is a log of calls.

Two details the model takes from the code, where they are easy to misread:

- The colour layout writes blue first. A pixel with red 10, green 20 and blue 30 becomes 30, 20, 10 (`Encoding.BlueFirst`).
- After a read error, the mean-loading fallback allocates a full-size zero buffer, not an empty one, so the size gate passes. Loading itself is not modelled (see "Left out").

## Model

| member | source | states |
|---|---|---|
| Pixels.Blue | app/src/main/java/com/qualcomm/qti/snpe/imageclassifiers/tasks/ClassifyImageTask.java:104 | blue is bits 0-7 of the pixel, a value below 256 |
| Pixels.Green | app/src/main/java/com/qualcomm/qti/snpe/imageclassifiers/tasks/ClassifyImageTask.java:105 | green is bits 8-15 of the pixel, a value below 256 |
| Pixels.Red | app/src/main/java/com/qualcomm/qti/snpe/imageclassifiers/tasks/ClassifyImageTask.java:106 | red is bits 16-23 of the pixel, a value below 256 |
| Pixels.UnpackPack | app/src/main/java/com/qualcomm/qti/snpe/imageclassifiers/tasks/ClassifyImageTask.java:104-106 | extraction returns exactly the red, green and blue a pixel was packed from, whatever its alpha |
| Pixels.PackUnpack | app/src/main/java/com/qualcomm/qti/snpe/imageclassifiers/tasks/ClassifyImageTask.java:104-106 | the three channels plus alpha determine the pixel: repacking them gives the pixel back |
| Pixels.AlphaIgnored | app/src/main/java/com/qualcomm/qti/snpe/imageclassifiers/tasks/ClassifyImageTask.java:150-153 | two pixels that differ only in bits 24-31 have the same channels and the same grey level |
| Pixels.Luma | app/src/main/java/com/qualcomm/qti/snpe/imageclassifiers/tasks/ClassifyImageTask.java:150-153 | the grey level 0.3·R + 0.59·G + 0.11·B of the raw channels stays within the channel range 0 to 255 |
| Pixels.LumaOfGrey | app/src/main/java/com/qualcomm/qti/snpe/imageclassifiers/tasks/ClassifyImageTask.java:153 | the luma weights sum to one: a pixel with equal channels v has grey level v |
| Tensor.FloatTensor.constructor | app/src/main/java/com/qualcomm/qti/snpe/imageclassifiers/tasks/ClassifyImageTask.java:56-59 | a tensor of the given [height, width, channels] shape with every element zero |
| Tensor.FloatTensor.Write | app/src/main/java/com/qualcomm/qti/snpe/imageclassifiers/tasks/ClassifyImageTask.java:108 | writing at (y, x) replaces the channels starting at offset (y*width + x)*channels and leaves every other element as it was |
| Tensor.MeanBuffer.Get | app/src/main/java/com/qualcomm/qti/snpe/imageclassifiers/tasks/ClassifyImageTask.java:104-106 | returns the element at the current position and advances the position by one |
| Encoding.EncodeRgbAt | app/src/main/java/com/qualcomm/qti/snpe/imageclassifiers/tasks/ClassifyImageTask.java:101-110 | in the colour layout, element k*c + j is channel j (B, G, R) of pixel k less mean entry 3k + j; channels from 3 up keep their previous value |
| Encoding.EncodeGrayAt | app/src/main/java/com/qualcomm/qti/snpe/imageclassifiers/tasks/ClassifyImageTask.java:147-157 | in the grayscale layout, element k is the grey level of pixel k less mean entry k |
| Encoding.BlueFirst | app/src/main/java/com/qualcomm/qti/snpe/imageclassifiers/tasks/ClassifyImageTask.java:104-107 | a pixel with red 10, green 20, blue 30 and a zero mean is written as 30, 20, 10 |
| ClassifyImageTask.WriteRgbBitmapAsFloat | app/src/main/java/com/qualcomm/qti/snpe/imageclassifiers/tasks/ClassifyImageTask.java:97-111 | visiting the pixels row-major consumes exactly 3·W·H mean entries and leaves the tensor holding the colour layout of the whole bitmap |
| ClassifyImageTask.WriteRgbRow | app/src/main/java/com/qualcomm/qti/snpe/imageclassifiers/tasks/ClassifyImageTask.java:102-109 | one row, left to right, extends the colour layout by the row's pixels and consumes three mean entries per pixel |
| ClassifyImageTask.WriteRgbPixel | app/src/main/java/com/qualcomm/qti/snpe/imageclassifiers/tasks/ClassifyImageTask.java:103-108 | one pixel consumes the next three mean entries and writes B, G, R less them at its (y, x) position |
| ClassifyImageTask.WriteGrayScaleBitmapAsFloat | app/src/main/java/com/qualcomm/qti/snpe/imageclassifiers/tasks/ClassifyImageTask.java:142-158 | visiting the pixels row-major consumes exactly W·H mean entries and leaves the tensor holding the grayscale layout of the whole bitmap |
| ClassifyImageTask.WriteGrayScaleRow | app/src/main/java/com/qualcomm/qti/snpe/imageclassifiers/tasks/ClassifyImageTask.java:148-156 | one row, left to right, extends the grayscale layout by the row's pixels and consumes one mean entry per pixel |
| ClassifyImageTask.WriteGrayScalePixel | app/src/main/java/com/qualcomm/qti/snpe/imageclassifiers/tasks/ClassifyImageTask.java:149-155 | one pixel's grey level, computed from the raw channels, less the next mean entry is written at its (y, x) position |
| ClassifyImageTask.Top | app/src/main/java/com/qualcomm/qti/snpe/imageclassifiers/tasks/ClassifyImageTask.java:176-189 | returns the lowest unselected index holding the largest unselected score when that score exceeds -1, and 0 when no unselected score exceeds -1 |
| ClassifyImageTask.TopK | app/src/main/java/com/qualcomm/qti/snpe/imageclassifiers/tasks/ClassifyImageTask.java:160-174 | returns exactly k pairs (i, scores[i]); round s picks the top of what rounds 0..s-1 left unselected |
| ClassifyImageTask.Classify | app/src/main/java/com/qualcomm/qti/snpe/imageclassifiers/tasks/ClassifyImageTask.java:53-85 | the network runs exactly when the mean's length equals the tensor size, otherwise the result is empty; when it runs, its input is the grayscale layout if the last dimension is 1 and the colour layout otherwise, and the result is the top-1 report of its outputs |
| ClassifyImageTask.CollectResult | app/src/main/java/com/qualcomm/qti/snpe/imageclassifiers/tasks/ClassifyImageTask.java:76-84 | only the output named "prob" contributes: the result is empty without it, else [label of its best score, text of that score] |
| ClassifyImageTask.PostExecute | app/src/main/java/com/qualcomm/qti/snpe/imageclassifiers/tasks/ClassifyImageTask.java:88-95 | a non-empty result is reported as a classification result, an empty one as a failure |
| ClassifyImageTask.DeliveredIffProb | app/src/main/java/com/qualcomm/qti/snpe/imageclassifiers/tasks/ClassifyImageTask.java:76-94 | after the gate, a classification is reported exactly when the network produced "prob", and then as two strings whose first is a label |
| ClassifyImageTask.GrayInputLayout | app/src/main/java/com/qualcomm/qti/snpe/imageclassifiers/tasks/ClassifyImageTask.java:65-70 | with one channel the network input has one element per pixel: its grey level less mean entry k |
| ClassifyImageTask.RgbInputLayout | app/src/main/java/com/qualcomm/qti/snpe/imageclassifiers/tasks/ClassifyImageTask.java:65-70 | with c ≥ 3 channels the network input holds B, G, R less mean entries 3k..3k+2 at k*c..k*c+2, and zero in the channels beyond |
| Ranking.TopUnique | app/src/main/java/com/qualcomm/qti/snpe/imageclassifiers/tasks/ClassifyImageTask.java:176-189 | the search result is determined: at most one index satisfies its description |
| Ranking.TopInRange | app/src/main/java/com/qualcomm/qti/snpe/imageclassifiers/tasks/ClassifyImageTask.java:176-189 | on a non-empty vector the search returns an index inside it, and an unselected one while some unselected score exceeds -1 |
| Ranking.SelectionExtend | app/src/main/java/com/qualcomm/qti/snpe/imageclassifiers/tasks/ClassifyImageTask.java:167-171 | one more round of the search, marking its pick, extends a k-round selection to k+1 rounds |
| Ranking.SelectionDistinct | app/src/main/java/com/qualcomm/qti/snpe/imageclassifiers/tasks/ClassifyImageTask.java:160-174 | while every round finds an unselected score above -1, no index is picked twice |
| Ranking.SelectionNonIncreasing | app/src/main/java/com/qualcomm/qti/snpe/imageclassifiers/tasks/ClassifyImageTask.java:160-174 | while every round finds an unselected score above -1, the picked scores never increase from one round to the next |
| Ranking.SelectionWithoutCandidates | app/src/main/java/com/qualcomm/qti/snpe/imageclassifiers/tasks/ClassifyImageTask.java:176-189 | when no score exceeds -1 every round picks index 0 |
| Ranking.BestIsFirstMaximum | app/src/main/java/com/qualcomm/qti/snpe/imageclassifiers/tasks/ClassifyImageTask.java:176-189 | the top-1 of a vector with a score above -1 is its first maximum |
| LoadNetworkTask.DoInBackground | app/src/main/java/com/qualcomm/qti/snpe/imageclassifiers/tasks/LoadNetworkTask.java:42-54 | the result is the built network when the build succeeds, and no network when it throws IllegalStateException or IOException |
| LoadNetworkTask.OnPostExecute | app/src/main/java/com/qualcomm/qti/snpe/imageclassifiers/tasks/LoadNetworkTask.java:57-70 | the four cases: a network and not cancelled is handed to the controller; a network and cancelled is released; none and not cancelled is reported as a failed load; none and cancelled does nothing |
| LoadNetworkTask.NothingDropped | app/src/main/java/com/qualcomm/qti/snpe/imageclassifiers/tasks/LoadNetworkTask.java:59-64 | every network that reaches the completion step is handed over or released, and nothing is handed over or released without one |
| LoadNetworkTask.ControllerCalledIffNotCancelled | app/src/main/java/com/qualcomm/qti/snpe/imageclassifiers/tasks/LoadNetworkTask.java:60-67 | the controller is called exactly when the task was not cancelled |
| LoadNetworkTask.FailedBuildReported | app/src/main/java/com/qualcomm/qti/snpe/imageclassifiers/tasks/LoadNetworkTask.java:50-53 | a failed build of either kind is reported as a failed load unless cancelled, and is otherwise ignored |
| LoadNetworkTask.FrameworkDispatch | app/src/main/java/com/qualcomm/qti/snpe/imageclassifiers/tasks/LoadNetworkTask.java:57-70 | as written: a cancelled task's result never reaches the completion step, and an uncancelled one reaches it with the cancelled flag false |
| LoadNetworkTask.CancelledNetworkDropped | app/src/main/java/com/qualcomm/qti/snpe/imageclassifiers/tasks/LoadNetworkTask.java:62-64 | as written, the network built by a cancelled task is neither handed over nor released, although the completion step would release it |
| LoadNetworkTask.CorrectedDispatch | app/src/main/java/com/qualcomm/qti/snpe/imageclassifiers/tasks/LoadNetworkTask.java:57-70 | corrected: every result, cancelled or not, is handed over or released, never dropped |
| LoadNetworkTask.CorrectedDispatchMatchesCompletion | app/src/main/java/com/qualcomm/qti/snpe/imageclassifiers/tasks/LoadNetworkTask.java:57-70 | the corrected dispatch does exactly what the completion step's four cases describe |
| Controller.CachedBitmap | app/src/main/java/com/qualcomm/qti/snpe/imageclassifiers/ModelOverviewFragmentController.java:61-70 | a bitmap is returned only when the path has an entry whose reference is not cleared, and then it is that entry's bitmap |
| Controller.SamplesEachHandledOnce | app/src/main/java/com/qualcomm/qti/snpe/imageclassifiers/ModelOverviewFragmentController.java:48-59 | the sample loop delivers or decodes each sample exactly once: deliveries plus decodes equal the number of samples |
| Controller.DecodedIffNotCached | app/src/main/java/com/qualcomm/qti/snpe/imageclassifiers/ModelOverviewFragmentController.java:50-57 | a path is decoded exactly when it is a sample the cache cannot supply |
| Controller.SampleCallsFromCache | app/src/main/java/com/qualcomm/qti/snpe/imageclassifiers/ModelOverviewFragmentController.java:51-53 | every view call the sample loop makes adds a bitmap the cache holds for some sample |
| Controller.ModelOverviewFragmentController.constructor | app/src/main/java/com/qualcomm/qti/snpe/imageclassifiers/ModelOverviewFragmentController.java:34-38 | a new controller is detached, holds no network, waits for no task and has an empty cache |
| Controller.ModelOverviewFragmentController.GetCachedBitmap | app/src/main/java/com/qualcomm/qti/snpe/imageclassifiers/ModelOverviewFragmentController.java:61-70 | the lookup of `CachedBitmap` over the controller's cache: the cached bitmap for the path, only if the entry exists and its reference has not been cleared |
| Controller.ModelOverviewFragmentController.LoadNetwork | app/src/main/java/com/qualcomm/qti/snpe/imageclassifiers/ModelOverviewFragmentController.java:141-154 | the held network, if any, is released once and cleared; the pending task, if any, is cancelled; the new pending task is fresh and bound to the runtime; the invariant is kept |
| Controller.ModelOverviewFragmentController.OnViewAttached | app/src/main/java/com/qualcomm/qti/snpe/imageclassifiers/ModelOverviewFragmentController.java:41-46 | shows loading, sets the model name, delivers or decodes the samples, then starts a CPU load: the held network is released, the previously pending load task is cancelled, the earlier task history is otherwise kept, and exactly one new CPU task is added and becomes the pending one |
| Controller.ModelOverviewFragmentController.LoadImageSamples | app/src/main/java/com/qualcomm/qti/snpe/imageclassifiers/ModelOverviewFragmentController.java:48-59 | in sample order, each cached sample is added to the view and each other sample gets a decoding task |
| Controller.ModelOverviewFragmentController.OnViewDetached | app/src/main/java/com/qualcomm/qti/snpe/imageclassifiers/ModelOverviewFragmentController.java:73-78 | a held network is released and cleared; with none held nothing is released; the invariant is kept |
| Controller.ModelOverviewFragmentController.OnBitmapLoaded | app/src/main/java/com/qualcomm/qti/snpe/imageclassifiers/ModelOverviewFragmentController.java:80-85 | the bitmap is always cached under its path and is shown only when attached |
| Controller.ModelOverviewFragmentController.OnNetworkLoaded | app/src/main/java/com/qualcomm/qti/snpe/imageclassifiers/ModelOverviewFragmentController.java:87-99 | attached: the network is adopted and its shapes, output layers and version are shown, then loading is hidden; detached: it is released and nothing is shown; the pending task is cleared either way |
| Controller.ModelOverviewFragmentController.OnNetworkLoadFailed | app/src/main/java/com/qualcomm/qti/snpe/imageclassifiers/ModelOverviewFragmentController.java:101-107 | the failure is shown only when attached, the pending task is cleared, and the network is untouched |
| Controller.ModelOverviewFragmentController.Classify | app/src/main/java/com/qualcomm/qti/snpe/imageclassifiers/ModelOverviewFragmentController.java:109-118 | with a network, exactly one classification carrying it is queued; without one, exactly one "model not loaded" call is made and nothing is queued |
| Controller.ModelOverviewFragmentController.OnClassificationResult | app/src/main/java/com/qualcomm/qti/snpe/imageclassifiers/ModelOverviewFragmentController.java:120-125 | the labels are shown only when attached |
| Controller.ModelOverviewFragmentController.OnClassificationFailed | app/src/main/java/com/qualcomm/qti/snpe/imageclassifiers/ModelOverviewFragmentController.java:127-131 | the failure is shown only when attached |
| Controller.ModelOverviewFragmentController.SetTargetRuntime | app/src/main/java/com/qualcomm/qti/snpe/imageclassifiers/ModelOverviewFragmentController.java:133-139 | detached: nothing changes; attached: loading is shown, the held network is released, the previously pending load task is cancelled, the earlier task history is otherwise kept, and exactly one new task for the runtime is added and becomes the pending one |
| Controller.ModelOverviewFragmentController.CompleteLoad | app/src/main/java/com/qualcomm/qti/snpe/imageclassifiers/tasks/LoadNetworkTask.java:42-70 | a load task completes, with the new state given for each case. Not cancelled, built and attached: the network is adopted and the view gets its dimensions, output layers, version and the end of loading, with nothing released. Not cancelled, built and detached: the network is released and the view is untouched. Not cancelled and not built: the failure is shown when attached, and nothing is adopted or released. In all three the pending task is cleared. Cancelled: a built network is released (corrected dispatch, see Findings; as written the program drops it), and the view, the held network and the pending task are untouched. A network is adopted only in the first case. The invariant, with no leak and no double release, is kept |
| Controller.ModelOverviewFragmentController.ClearCachedBitmap | app/src/main/java/com/qualcomm/qti/snpe/imageclassifiers/ModelOverviewFragmentController.java:24 | the collector clears the soft reference of one cache entry; the entry stays, without a bitmap |
| Controller.ModelOverviewFragmentController.CompleteClassification | app/src/main/java/com/qualcomm/qti/snpe/imageclassifiers/tasks/ClassifyImageTask.java:87-95 | the oldest queued classification completes; when attached, non-empty labels are shown, an empty result is shown as a failure |

## Left out

- Mean image loading (`loadMeanImageIfAvailable`): file I/O. The mean is an input sequence of the floats still to be read.
- The neural-network engine is foreign code and is modelled through parameters or left out:
  - Tensor creation is modelled as zero-filled storage of the requested shape.
  - The input shape is the parameter `shape`, ordered [height, width, channels].
  - `execute` is a function parameter.
  - The text of a float score is a function parameter (`scoreText`).
  - The outcome of a network build is an input (`BuildOutcome`).
  - Input shapes, output-layer names and the model version are only logged, by network handle.
  - `release` is an entry in the controller's release log.
- ClassifyImageTask.Classify: requires a three-dimensional shape and a bitmap with the tensor's height and width. It also requires one channel or at least three. The source behaves as follows outside that, and the model does not cover any of it:
  - With one channel or at least three, a bitmap no larger than the tensor in either dimension encodes without error. The encoders loop over the bitmap's own rows and columns (ClassifyImageTask.java:101-102, 147-148), so only the top-left region of the tensor is written. They read one mean entry per value in bitmap order, so mean entry 3k (or k) goes with bitmap pixel k and not with that pixel's position in the tensor. The mean is then misaligned, and the rest of the tensor keeps its zeros.
  - A bitmap with more pixels than H·W, with one channel or three, reads more mean entries than there are. The encoders read three entries per pixel in colour and one in grey, in bitmap order, from a buffer of c·H·W entries. At bitmap pixel H·W (row-major), `meanImage.get()` (ClassifyImageTask.java:104 or 154) throws `BufferUnderflowException` out of `doInBackground`, before that pixel is written. For a bitmap of the tensor's width, that is the first pixel of row H, so nothing has been written past the tensor.
  - A wider bitmap writes at column W and beyond (ClassifyImageTask.java:108 or 155), past the end of a tensor row, from its first row on. A taller but narrower bitmap, or a larger one with four or more channels, can stay within the buffer and writes at rows H and beyond. What the engine does with such writes is not part of this model.
  - With two channels, the colour encoder's first `tensor.write` (ClassifyImageTask.java:108) already puts three values into a position that holds two, before the mean buffer can run out. What the engine does with that write is not part of this model.
- ClassifyImageTask.Classify: requires every "prob" output to be non-empty and no longer than the label list. An empty output makes `topK` index past its arrays, and a longer one can index past the labels. The model does not cover the resulting exceptions.
- ClassifyImageTask.CollectResult: requires the same bounds on the "prob" output, for the same reason.
- ClassifyImageTask.TopK: requires a non-empty score vector when k > 0. On an empty one the source indexes past its arrays.
- Floating point: values are `real`. The source computes the grey level in `double`, narrows it to `float` and subtracts in `float`; that rounding is not modelled.
- `Bitmap.getPixels`: a bitmap is given directly as its row-major pixel sequence.
- Threading: executors are not modelled.
  - Task completion is an explicit environment step (`CompleteLoad`, `CompleteClassification`, and the decoder calling `OnBitmapLoaded`).
  - Cancellation is a flag.
  - The serial executor is modelled as a FIFO of classifications. In the source, load tasks run on the same serial executor (ModelOverviewFragmentController.java:153, and line 114 for classifications), so loads and classifications run one after another in a single queue. The model lets their completions interleave freely. That allows more orders than the source does, so an invariant the model keeps under every order also holds under the source's single order.
  - A queued classification may still run on a network that was released after it was queued. That interleaving is not modelled.
- The base view-controller class is not part of this model.
  - `OnViewAttached` sets the attached flag itself, and `OnViewDetached` clears it.
  - `Classify` without a network logs the "model not loaded" call whether or not a view is attached, as the source calls `getView()` unguarded. What `getView()` returns when detached is not modelled.
- The image decoding task and the model record are not part of this model. Samples are given as absolute paths, and a started decoding task is recorded by its path.
- The view fragment (menus, adapters, de-duplication of sample bitmaps) is not part of this model; the view is a log of calls.
- Runtimes: only CPU, GPU and DSP are listed; other values of the engine's runtime enumeration are not part of this model.
- Soft-reference reclamation is the environment step `ClearCachedBitmap`.
- Controller.ModelOverviewFragmentController.CompleteClassification: the labels it receives are an input. They are not connected to the queued (network, image) pair or to `ClassifyImageTask.Classify`, so the model does not state that the labels shown are the ones computed for the queued image.

## Findings

| source | as written | input that shows it | evidently intended | confidence | as-written member | corrected member |
|---|---|---|---|---|---|---|
| app/src/main/java/com/qualcomm/qti/snpe/imageclassifiers/tasks/LoadNetworkTask.java:57-70 | `onPostExecute` releases the network of a cancelled task. The task framework never calls `onPostExecute` for a cancelled task: it calls `onCancelled`, which this task does not override. The release branch never runs. | Call `setTargetRuntime(GPU)` while the CPU load is still building. The CPU build then returns network n, and its task is cancelled. | n is released | not executed; relies on the task framework delivering a cancelled task's result to `onCancelled` | LoadNetworkTask.CancelledNetworkDropped | LoadNetworkTask.CorrectedDispatch |

`LoadNetworkTask.FrameworkDispatch` models the as-written delivery. `LoadNetworkTask.CorrectedDispatch` adds an `onCancelled` that releases the network. `Controller.ModelOverviewFragmentController.CompleteLoad` uses `CorrectedDispatch`, and under it the controller's no-leak invariant holds.
