/** Failure-carrying values for the backup runner. Every error of the
    program is fatal (it ends the process through `log.Fatalf`); the model
    returns the error instead of exiting. */
module Results {

  /** The fatal conditions reachable from the modelled core. */
  datatype Fatal =
    | MissingCredentials           // one of user, password, server is empty
    | UploadFailed(dir: string)    // the upload tool could not be run or exited non-zero
    | MalformedBlobRef(got: string) // the tool's output is not a blob ref

  datatype Result<+T> = Ok(value: T) | Err(error: Fatal)

  datatype Option<+T> = None | Some(value: T)
}
