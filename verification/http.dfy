/**
 * What a rejected request looks like to the front end: axios errors carrying
 * the server's response, errors thrown by the app itself, and bare strings.
 */
module Http {

  /** One entry of a FastAPI validation `detail` list: a string, or an object
      whose `msg` may be missing (written "" here, which is just as falsy). */
  datatype DetailItem = TextItem(text: string) | ObjectItem(msg: string)

  /** `response.data.detail`: absent, a message, or a list of entries. */
  datatype Detail = NoDetail | TextDetail(text: string) | ListDetail(items: seq<DetailItem>) {
    /** JavaScript truthiness: the empty string is falsy, every array is truthy. */
    predicate Truthy() {
      (TextDetail? && text != "") || ListDetail?
    }
  }

  /** The body of an error response; `message` "" stands for a missing field. */
  datatype ErrorData = ErrorData(detail: Detail, message: string)

  datatype ErrorResponse = ErrorResponse(status: int, data: ErrorData)

  /** A rejection: an `Error` (with `response` when it came from the server)
      or a thrown string. */
  datatype Failure =
    | RequestError(response: Wrappers.Option<ErrorResponse>, message: string)
    | ThrownString(text: string)
  {
    /** `err.response?.status === code`. */
    predicate HasStatus(code: int) {
      RequestError? && response.Some? && response.value.status == code
    }
  }

  import Wrappers
}
