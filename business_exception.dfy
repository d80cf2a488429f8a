/**
 * BusinessException: a runtime exception with an error code and a retryable flag,
 * both fixed when it is constructed. The constructors that do not take them use the
 * code "BUS001" and the flag false.
 */
module BusinessException {
  import opened JavaLang

  datatype BusinessException = BusinessException(
    message: Option<string>,
    cause: Option<Throwable>,
    errorCode: Option<string>,
    retryable: bool)

  /** The code of a business exception constructed without one. */
  const DefaultErrorCode := "BUS001"

  /** new BusinessException(errorCode, message, cause, retryable): every field as given. */
  function Full(errorCode: Option<string>, message: Option<string>, cause: Option<Throwable>, retryable: bool): (e: BusinessException)
    ensures GetErrorCode(e) == errorCode && IsRetryable(e) == retryable
    ensures e.message == message && e.cause == cause
  {
    BusinessException(message, cause, errorCode, retryable)
  }

  /** new BusinessException(message) */
  function WithMessage(message: Option<string>): (e: BusinessException)
    ensures GetErrorCode(e) == Some(DefaultErrorCode) && !IsRetryable(e)
    ensures e.message == message && e.cause.None?
  {
    BusinessException(message, None, Some(DefaultErrorCode), false)
  }

  /** new BusinessException(errorCode, message) */
  function WithCode(errorCode: Option<string>, message: Option<string>): (e: BusinessException)
    ensures GetErrorCode(e) == errorCode && !IsRetryable(e)
    ensures e.message == message && e.cause.None?
  {
    BusinessException(message, None, errorCode, false)
  }

  /** new BusinessException(errorCode, message, retryable) */
  function WithCodeAndFlag(errorCode: Option<string>, message: Option<string>, retryable: bool): (e: BusinessException)
    ensures GetErrorCode(e) == errorCode && IsRetryable(e) == retryable
    ensures e.message == message && e.cause.None?
  {
    BusinessException(message, None, errorCode, retryable)
  }

  /** new BusinessException(message, cause) */
  function WithCause(message: Option<string>, cause: Option<Throwable>): (e: BusinessException)
    ensures GetErrorCode(e) == Some(DefaultErrorCode) && !IsRetryable(e)
    ensures e.message == message && e.cause == cause
  {
    BusinessException(message, cause, Some(DefaultErrorCode), false)
  }

  function GetErrorCode(e: BusinessException): Option<string>
  {
    e.errorCode
  }

  function IsRetryable(e: BusinessException): bool
  {
    e.retryable
  }

  /** Every shorter constructor is the full one with "BUS001", false or no cause filled in. */
  lemma ConstructorsAreFull(errorCode: Option<string>, message: Option<string>, cause: Option<Throwable>, retryable: bool)
    ensures WithMessage(message) == Full(Some(DefaultErrorCode), message, None, false)
    ensures WithCode(errorCode, message) == Full(errorCode, message, None, false)
    ensures WithCodeAndFlag(errorCode, message, retryable) == Full(errorCode, message, None, retryable)
    ensures WithCause(message, cause) == Full(Some(DefaultErrorCode), message, cause, false)
  {
  }

  /** Only the constructors that take a flag can make a retryable exception. */
  lemma RetryableOnlyWhenAsked(errorCode: Option<string>, message: Option<string>, cause: Option<Throwable>)
    ensures !IsRetryable(WithMessage(message)) && !IsRetryable(WithCode(errorCode, message)) &&
            !IsRetryable(WithCause(message, cause))
    ensures IsRetryable(WithCodeAndFlag(errorCode, message, true)) && IsRetryable(Full(errorCode, message, cause, true))
  {
  }
}
