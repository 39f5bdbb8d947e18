/** The default values src/serde_defaults.rs supplies for fields a trick document omits. */
module SerdeDefaults {
  import opened Statuses

  function DefaultTrue(): (b: bool)
    ensures b
  {
    true
  }

  function DefaultFalse(): (b: bool)
    ensures !b
  {
    false
  }

  /** The failure outcome of setup steps: a final status, so a failed setup ends the trick. */
  function DefaultSetupFailure(): (s: Status)
    ensures IsFinal(s) && s.SetupFailure?
  {
    SetupFailure
  }

  /** The failure outcome of version checks: a final status that marks the trick skipped. */
  function DefaultSkip(): (s: Status)
    ensures IsFinal(s) && s.Skip?
  {
    Skip
  }
}
