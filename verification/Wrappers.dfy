/** The two small vocabularies every other module shares. */
module Wrappers {
  datatype Option<+T> = None | Some(value: T) {
    function UnwrapOr(default: T): T {
      if Some? then value else default
    }
  }

  /** What the provider disclosed about one request (telemetry.py). */
  datatype Outcome = ConfirmedHit | MissRebuilt | SuccessUnverified | Failed

  function Max(x: real, y: real): real {
    if x >= y then x else y
  }

  function Min(x: real, y: real): real {
    if x <= y then x else y
  }
}
