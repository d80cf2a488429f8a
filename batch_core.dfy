/**
 * The pieces of the Spring Batch and Jakarta Validation APIs that the batch code
 * touches: the status a tasklet returns, how a job parameter is read as a string,
 * and a constraint violation as a validator reports it.
 */
module BatchCore {
  import opened JavaLang

  /** org.springframework.batch.repeat.RepeatStatus */
  datatype RepeatStatus = Finished | Continuable

  /** `value == null || value.isEmpty()` for the job parameter under key. */
  predicate PathMissing(params: map<string, string>, key: string)
  {
    key !in params || params[key] == ""
  }

  function IllegalArgumentException(message: string): Throwable
  {
    Throwable("java.lang.IllegalArgumentException", Some(message))
  }

  /** The Jakarta constraint annotations the DTOs use. */
  datatype Constraint = NotBlank | NotNull | Pattern | Size | DecimalMin | DecimalMax

  /**
   * jakarta.validation.ConstraintViolation, seen through getPropertyPath(), the
   * annotation of getConstraintDescriptor() and getMessage().
   */
  datatype ConstraintViolation = ConstraintViolation(propertyPath: string, constraint: Constraint, message: string)
}
