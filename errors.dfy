/** Outcomes of the job data-access layer: the error kinds it raises and a
    tagged result that replaces exception propagation. */
module Errors {

  /** `BadRequestError` and `NotFoundError` are the application's own error
      classes; `DatabaseError` stands for any exception the database driver
      raises, which the job model lets propagate unchanged. */
  datatype Error =
    | BadRequest(message: string)
    | NotFound(message: string)
    | DatabaseError(message: string)

  datatype Result<T> = Ok(value: T) | Err(error: Error)

  datatype Option<T> = None | Some(value: T)
}
