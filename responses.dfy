/**
 * The two shapes a tool handler answers with (utils/response-formatter.ts): `{ success: true, ...data }`
 * and `{ success: false, error: { code, message } }`. The JSON text wrapping is not modelled.
 */
module Responses {
  import JupyterErrors

  datatype McpResponse<+T> = SuccessResponse(data: T) | ErrorResponse(code: string, message: string)

  const VALIDATION_ERROR := "VALIDATION_ERROR"
  const NOT_FOUND := "NOT_FOUND"
  const INTERNAL_ERROR := "INTERNAL_ERROR"
  const EXECUTION_ERROR := "EXECUTION_ERROR"
  const SESSION_NOT_FOUND := "SESSION_NOT_FOUND"
  const INVALID_VARIABLE_TYPE := "INVALID_VARIABLE_TYPE"

  /** `createErrorResponse(message, "VALIDATION_ERROR")`. */
  function ValidationFailure<T>(message: string): McpResponse<T> {
    ErrorResponse(VALIDATION_ERROR, message)
  }

  /**
   * The `catch` branch every tool shares: a thrown `JupyterClientError` is answered with its own
   * code and message (`extractErrorCode`, `extractErrorMessage`).
   */
  function Caught<T>(e: JupyterErrors.ClientError): McpResponse<T> {
    ErrorResponse(e.code, e.message)
  }
}
