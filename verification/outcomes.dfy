/** The tagged results the services return instead of throwing IllegalArgumentException. */
module Outcomes {

  datatype Option<+T> = None | Some(value: T)

  /** Why a request was refused as invalid. */
  datatype Reason =
    | DuplicateName          // another category already holds the name
    | HasTasks(count: nat)   // the category is still referenced by `count` tasks

  datatype Error =
    | NotFound               // a task or category id that the store does not hold
    | Validation(reason: Reason)

  datatype Result<+T> = Ok(value: T) | Err(error: Error)
}
