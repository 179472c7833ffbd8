/** The small part of the HTTP vocabulary the request core uses. */
module Http {

  /** Request methods; any other token is an extension method. */
  datatype Method = Options | Get | Post | Put | Delete | Head | Trace | Connect | Patch | Extension(token: string)

  /** A response status code; the HTTP library only admits three digits. */
  type StatusCode = c: int | 100 <= c <= 999 witness 200

  /** `StatusCode::is_success`: the 2xx class. */
  predicate IsSuccess(status: StatusCode)
    ensures IsSuccess(status) <==> status / 100 == 2
  {
    200 <= status < 300
  }

  /** A header as it is sent; names and values are kept as text (their
      validation by the HTTP library is not modelled). */
  datatype Header = Header(name: string, value: string)

  /** The name the HTTP library uses for `CONTENT_TYPE`. */
  const ContentTypeName: string := "content-type"

  /** The header that carries the correlation id. */
  const RequestIdName: string := "x-request-id"
}

/** The failures a request can end in. */
module Errors {
  import Urls
  import Http

  datatype BridgeError =
    | HttpError(url: Urls.Url, cause: string)           // transport or body-read failure
    | WrongStatusCode(url: Urls.Url, status: Http.StatusCode)
    | SerdeError(cause: string)                         // the body could not be serialised
}
