/** Failure-carrying results shared by every module of the model. */
module Wrappers {
  datatype Option<+T> = None | Some(value: T)

  datatype Result<+T, +E> = Success(value: T) | Failure(error: E)
}

/** The exceptions the modelled Python code raises, one constructor per raise site. */
module Errors {
  datatype Error =
    | TracksLoaded                 // RuntimeError: the editor already has tracks loaded
    | NotRunning                   // OSError from `_connection`, carrying "Check that Audacity is running."
    | NotResponding                // OSError from the alarm in `_command`: no complete response in time
    | MissingHandle                // AttributeError: `del` of a pipe handle that was never assigned
    | NoStatus(line: string)       // ValueError: the status line has no ": " to split on
    | BadJson(text: string)        // json.loads rejects the track listing
    | OutputExists(path: string)   // OSError: "Output file already exists"
    | NotAnInteger(text: string)   // ValueError from int()
    | IndexOutOfRange              // IndexError: fewer path segments than indexed
}
