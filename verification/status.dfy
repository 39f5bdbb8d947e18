/** The outcome lattice of a step and of a whole trick (the `status` module of
    src/tricks.rs). `Undecided` lets execution go on; every other status ends the trick. */
module Statuses {

  datatype Status = Undecided | SetupFailure | ExploitSuccess | ExploitFailure | Skip

  /** `Status::is_final`: whether a step producing this status stops the trick. */
  function IsFinal(s: Status): (r: bool)
    ensures r <==> s != Undecided
  {
    match s
    case Undecided => false
    case SetupFailure => true
    case ExploitSuccess => true
    case ExploitFailure => true
    case Skip => true
  }

  /** `impl Default for Status`: the status a trick report starts with. */
  function DefaultStatus(): (s: Status)
    ensures !IsFinal(s)
  {
    Undecided
  }
}
