/** Small wrapper datatypes shared by the model.
    - Option<T> stands for a Kotlin nullable value (`T?`).
    - Attempt<T> stands for a call that either returns a value or throws. */
module Outcomes {

  /** A Kotlin nullable: None is `null`. */
  datatype Option<+T> = None | Some(value: T)

  /** The result of a suspending call that may throw: the app catches any
      exception without looking at it, so a throw carries no payload. */
  datatype Attempt<+T> = Threw | Returned(value: T)
}
