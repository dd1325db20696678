/** Failure-carrying values shared by the model.
    A C++ `CHECK(...)` that fails, or a `recordreplay::Crash(...)`, ends the
    process; the model returns `Crash` instead, so that the failing branch is
    stated rather than excluded by a precondition. */
module Wrappers {

  datatype Option<+T> = None | Some(value: T)

  datatype Result<+T> = Ok(value: T) | Crash(reason: string)
}
