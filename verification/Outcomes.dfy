/** How a call to a remote server ends. */
module Outcomes {

  /** A call takes effect, does not, or does without the caller learning of it. */
  datatype Outcome = Done | Failed | DoneUnseen
}
