/** Vocabulary shared by the controllers: options, policies and what a single call may do. */
module Kube {

  /** `time.Second`, in nanoseconds. */
  const SECOND: int := 1_000_000_000

  datatype Option<+T> = None | Some(value: T)

  /** `CreationPolicy`, already defaulted: the empty value means `Create`. */
  datatype CreationPolicy = Create | Adopt | CreateOrAdopt {
    predicate AllowsCreation() { this != Adopt }

    predicate AllowsAdoption() { this != Create }
  }

  /** `DeletionPolicy`, already defaulted: the empty value means `Orphan`. */
  datatype DeletionPolicy = Delete | Orphan

  /**
   What happens at one call to OpenBao or to the Kubernetes API. An error or a crash can hit
   before the call took effect or after it did; an error returns to the controller, a crash
   ends the pass on the spot.
   */
  datatype Fault =
    | Fine
    | ErrBefore(message: string)
    | ErrAfter(message: string)
    | CrashBefore
    | CrashAfter
  {
    predicate TookEffect() { Fine? || ErrAfter? || CrashAfter? }

    predicate Crashed() { CrashBefore? || CrashAfter? }
  }
}
