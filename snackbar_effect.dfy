/** One-shot notifications the view model sends to the screen. */
module Effects {
  import opened Wrappers

  /** The only effect: a snackbar with a message and an optional action button. */
  datatype SnackbarEffect = ShowSnackbar(message: string, actionLabel: Option<string>)

  /** `ShowSnackbar(message)`, the action label left at its default (absent). */
  function Snackbar(message: string): SnackbarEffect
  {
    ShowSnackbar(message, None)
  }
}
