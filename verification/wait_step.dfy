/** The step that pauses a trick (src/tricks/steps/wait.rs). Sleeping and reading stdin are
    effects outside the model; only their (constant) results are kept. */
module WaitSteps {
  import opened Results
  import opened Statuses

  /** What to wait for: a duration (in nanoseconds), or one byte of input. */
  datatype WaitFor = Sleep(duration: nat) | Input

  datatype Wait = Wait(waitFor: WaitFor)

  /** `Wait::do_run`: succeeds whatever happens; `stdinRead` is whether reading stdin
      worked, which is ignored. */
  function DoWait(w: Wait, stdinRead: bool): (r: Result<(), string>)
    ensures r.Ok?
  {
    match w.waitFor
    case Sleep(_) => Ok(())
    case Input => Ok(())
  }

  /** The outcome on success: `Undecided`. */
  function WaitSuccess(w: Wait): (s: Status)
    ensures !IsFinal(s)
  {
    Undecided
  }

  /** The outcome on failure: `Undecided` as well. */
  function WaitFailure(w: Wait): (s: Status)
    ensures !IsFinal(s)
  {
    Undecided
  }
}
