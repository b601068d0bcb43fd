/** The flash messages the screens show (`showMessage`). */
module Feedback {

  datatype ToastType = Danger | Info | Success

  datatype Toast = Toast(message: string, description: string, kind: ToastType)

  /** The message every pre-submit check shows when it fails. */
  function ErrorToast(description: string): Toast {
    Toast("Error", description, Danger)
  }
}
