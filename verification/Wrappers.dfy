/** Values that may be missing. */
module Wrappers {
  datatype Option<+T> = None | Some(value: T)
}

/** Why a workflow is being activated. */
module ActivationMode {
  datatype Mode = Init | Update | Activate | LeadershipChange
}
