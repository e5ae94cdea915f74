/** The background task that builds a network for one runtime, and the
    decision it makes when it completes. */
module LoadNetworkTask {
  import opened Options

  /** A network handle the engine built; only its identity matters here. */
  datatype Network = Network(id: nat)

  /** The runtimes a network can be built for. */
  datatype Runtime = Cpu | Gpu | Dsp

  /** What building the network did: return a network, or throw. */
  datatype BuildOutcome = Built(network: Network) | IllegalState | IoFailure

  /** What the completion step does with the task's result. */
  datatype Completion =
    | Loaded(network: Network)     // hands the network to the controller
    | Release(network: Network)    // releases the network itself
    | LoadFailed                   // tells the controller the load failed
    | Ignore                       // does nothing

  /** The network a completion hands over or releases, if any. */
  function Handled(c: Completion): (r: Option<Network>)
    ensures r.Some? <==> c.Loaded? || c.Release?
  {
    match c
    case Loaded(n) => Some(n)
    case Release(n) => Some(n)
    case _ => None
  }

  /** The background step: a build failure of either kind becomes "no network"
      instead of propagating. */
  function DoInBackground(outcome: BuildOutcome): (r: Option<Network>)
    ensures r.Some? <==> outcome.Built?
    ensures r.Some? ==> r.value == outcome.network
  {
    match outcome
    case Built(n) => Some(n)
    case IllegalState => None
    case IoFailure => None
  }

  /** The completion step, split on whether there is a network and whether
      the task was cancelled: only a task that was not cancelled reaches the
      controller, and a cancelled task releases the network it built. */
  function OnPostExecute(result: Option<Network>, cancelled: bool): (c: Completion)
    ensures c.Loaded? <==> result.Some? && !cancelled
    ensures c.Release? <==> result.Some? && cancelled
    ensures c.LoadFailed? <==> result.None? && !cancelled
    ensures c.Loaded? || c.Release? ==> c.network == result.value
  {
    if result.Some? then
      if !cancelled then Loaded(result.value) else Release(result.value)
    else
      if !cancelled then LoadFailed else Ignore
  }

  /** Every network that reaches the completion step is handed over or
      released, never dropped, and nothing is handed over or released without
      one. */
  lemma NothingDropped(result: Option<Network>, cancelled: bool)
    ensures Handled(OnPostExecute(result, cancelled)) == result
  {
  }

  /** The controller hears from a task exactly when the task was not cancelled. */
  lemma ControllerCalledIffNotCancelled(result: Option<Network>, cancelled: bool)
    ensures (OnPostExecute(result, cancelled).Loaded? || OnPostExecute(result, cancelled).LoadFailed?) <==> !cancelled
  {
  }

  /** A build that fails, in either way, is reported as a failed load unless
      the task was cancelled, and then nothing happens. */
  lemma FailedBuildReported(outcome: BuildOutcome, cancelled: bool)
    requires !outcome.Built?
    ensures OnPostExecute(DoInBackground(outcome), cancelled) == if cancelled then Ignore else LoadFailed
  {
  }

  /** How the task framework delivers a finished task's result: a task that
      was cancelled gets `onCancelled`, which this task does not override and
      which therefore does nothing; any other task gets `onPostExecute`. */
  function FrameworkDispatch(result: Option<Network>, cancelled: bool): (c: Completion)
    ensures cancelled ==> c == Ignore
    ensures !cancelled ==> c == OnPostExecute(result, false)
  {
    if cancelled then Ignore else OnPostExecute(result, false)
  }

  /** With the framework's dispatch, a cancelled task that built a network
      drops it: the release branch of the completion step is never taken. */
  lemma CancelledNetworkDropped(n: Network)
    ensures OnPostExecute(Some(n), true) == Release(n)
    ensures FrameworkDispatch(Some(n), true) == Ignore
    ensures Handled(FrameworkDispatch(Some(n), true)) != Some(n)
  {
  }

  /** The dispatch once the task also overrides `onCancelled` to release the
      network a cancelled build produced. */
  function CorrectedDispatch(result: Option<Network>, cancelled: bool): (c: Completion)
    ensures Handled(c) == result
  {
    if cancelled then
      if result.Some? then Release(result.value) else Ignore
    else
      OnPostExecute(result, false)
  }

  /** The corrected dispatch does what the completion step's four cases
      describe, for every result and either flag. */
  lemma CorrectedDispatchMatchesCompletion(result: Option<Network>, cancelled: bool)
    ensures CorrectedDispatch(result, cancelled) == OnPostExecute(result, cancelled)
  {
  }
}
