/** Option and Result in the conventional form, and the errors of the actuator. */
module Wrappers {
  datatype Option<+T> = None | Some(value: T)

  datatype Result<+R, +E> = Success(value: R) | Failure(error: E)

  /** The errors the actuator can end in. RequeueAfter is the one the machine controller treats apart. */
  datatype Error =
    | InvalidConfiguration(what: string)
    | CreateFailed(what: string)
    | CloudFailed(what: string)
    | NotFound
    | UnsupportedState
    | NoClusterID
    | TimedOut
    | RequeueAfter(seconds: int)

  /** The text of an error, as far as the model needs one. */
  function Text(e: Error): string {
    match e
    case InvalidConfiguration(what) => what
    case CreateFailed(what) => what
    case CloudFailed(what) => what
    case NotFound => "not found"
    case UnsupportedState => "unsupported state"
    case NoClusterID => "unable to get cluster ID"
    case TimedOut => "timeout"
    case RequeueAfter(_) => "requeue"
  }
}
