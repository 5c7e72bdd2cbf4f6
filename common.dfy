/** Values shared by every module of the model. */
module Common {

  /** A value that may be absent: a missing dictionary key, an unset flag, a Python `None`. */
  datatype Option<T> = None | Some(value: T)

  /** The outcome of a cloud API call: a result, a `ClientError` carrying the error code from
      the response, or any other exception, named by its Python class name. */
  datatype ApiOutcome<T> = ApiOk(value: T) | ClientError(code: string) | OtherError(name: string)

  /** What `subprocess.run(..., capture_output=True, text=True)` hands back. */
  datatype Completed = Completed(returncode: int, stdout: string, stderr: string)
}
