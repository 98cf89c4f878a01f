/** The shape of the handlers' JSON replies: a status code with data, or a status code with a message. */
module Http {

  datatype Response<+T> = Ok(status: int, data: T) | Fail(status: int, message: string)

  /** The translation key of the generic server error (`req.t('auth.errors.serverError')`). */
  const ServerError: string := "auth.errors.serverError"

  const ValidationFailed: string := "Validation failed"
}
