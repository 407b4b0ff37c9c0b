/** What the warden ledger reports of an actor; how it is derived is not part of this model. */
module Warden {
  import opened Wrappers

  /** Its unreadable rows, and the id of the active card if there is one. */
  datatype CardState = CardState(unreadable: nat, active: Option<string>)
}
