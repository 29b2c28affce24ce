/** The session-status predicates, each a test on the session `state` field. */
module Session {
  import opened RobotState

  /** `getSessionIsLoaded`: a protocol has been loaded (the status is not empty). */
  function GetSessionIsLoaded(state: State): (r: bool)
    ensures r <==> state.session.status in {Loaded, Running, Paused, Error, Finished, Stopped}
  {
    state.session.status != NotLoaded
  }

  /** `getIsReadyToRun`: loaded and neither started nor finished. */
  function GetIsReadyToRun(state: State): (r: bool)
    ensures r ==> GetSessionIsLoaded(state)
    ensures r ==> !GetIsRunning(state) && !GetIsDone(state)
  {
    state.session.status == Loaded
  }

  /** `getIsRunning`: running or paused. */
  function GetIsRunning(state: State): (r: bool)
    ensures r ==> GetSessionIsLoaded(state) && !GetIsDone(state)
  {
    state.session.status == Running || state.session.status == Paused
  }

  /** `getIsPaused`: paused, which is a kind of running. */
  function GetIsPaused(state: State): (r: bool)
    ensures r ==> GetIsRunning(state)
  {
    state.session.status == Paused
  }

  /** `getIsDone`: ended by an error, by finishing or by being stopped. */
  function GetIsDone(state: State): (r: bool)
    ensures r ==> GetSessionIsLoaded(state)
  {
    state.session.status == Error || state.session.status == Finished || state.session.status == Stopped
  }

  /** A loaded session is in exactly one of the phases ready, running and done; an unloaded one in none. */
  lemma SessionPhasesPartition(state: State)
    ensures GetSessionIsLoaded(state) <==> GetIsReadyToRun(state) || GetIsRunning(state) || GetIsDone(state)
    ensures !(GetIsReadyToRun(state) && GetIsRunning(state))
    ensures !(GetIsReadyToRun(state) && GetIsDone(state))
    ensures !(GetIsRunning(state) && GetIsDone(state))
  {
  }
}
