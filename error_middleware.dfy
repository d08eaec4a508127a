/** The error middleware (Backend/middleware/error.js): it fills in a missing status and
    message on the error in place, overrides the status of an upload error, and answers with
    that status and `{ success: false, message }`. */
module ErrorMiddleware {
  const DefaultMessage: string := "Internal Server Error"
  const UploadFallback: string := "File upload error"
  const MulterErrorName: string := "MulterError"

  /** The response: its status and the JSON body's `message` (`success` is always false). */
  datatype ErrorResponse = ErrorResponse(status: int, success: bool, message: string)

  /** What the middleware answers for an error with this status (0 when absent), message
      ("" when absent) and name. */
  function Respond(statusCode: int, message: string, name: string): (r: ErrorResponse)
    ensures !r.success && r.message != ""
    ensures name == MulterErrorName ==> r.status == 400
    ensures name != MulterErrorName ==> r.status == (if statusCode != 0 then statusCode else 500)
  {
    var status := if statusCode != 0 then statusCode else 500;
    var msg := if message != "" then message else DefaultMessage;
    if name == MulterErrorName then ErrorResponse(400, false, if msg != "" then msg else UploadFallback)
    else ErrorResponse(status, false, msg)
  }

  /** A given message is passed on, a missing one becomes the generic one, whatever the name. */
  lemma RespondMessage(statusCode: int, message: string, name: string)
    ensures Respond(statusCode, message, name).message == if message != "" then message else DefaultMessage
  {
  }

  /** The message defaulting runs before the upload branch, so an upload error without a
      message is answered with the generic message, never with `File upload error`. */
  lemma UploadFallbackUnreachable(statusCode: int, message: string, name: string)
    requires message != UploadFallback
    ensures Respond(statusCode, message, name).message != UploadFallback
  {
  }

  /** The error object the handlers raise (`ErrorHandler` or a library error). */
  class ErrorObject {
    var statusCode: int
    var message: string
    const name: string

    constructor(statusCode: int, message: string, name: string)
      ensures this.statusCode == statusCode && this.message == message && this.name == name
    {
      this.statusCode := statusCode;
      this.message := message;
      this.name := name;
    }

    /** The middleware: default the status, default the message, override an upload error's
        status, then respond with the error as it now is. */
    method Handle() returns (r: ErrorResponse)
      modifies this
      ensures r == Respond(old(statusCode), old(message), name)
      ensures statusCode == r.status && message == r.message
    {
      if statusCode == 0 {
        statusCode := 500;
      }
      if message == "" {
        message := DefaultMessage;
      }
      if name == MulterErrorName {
        statusCode := 400;
        if message == "" {
          message := UploadFallback;
        }
      }
      r := ErrorResponse(statusCode, false, message);
    }
  }
}
