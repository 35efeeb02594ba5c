/** The HTTP exchanges with the Central publisher API, as data. Each request
    a run issues is answered by a scripted reply: no network is involved. */
module Http {
  import opened Base
  import opened Json

  /** The base64 encoding (RFC 4648, section 4) of the UTF-8 bytes of a text,
      kept symbolic: only which text was encoded matters here. */
  datatype Base64 = Base64Of(text: string)

  /** The `Authorization` header both scripts send. */
  datatype Header = Authorization(scheme: string, token: Base64)

  /** `{"Authorization": f"UserToken {b64(username:password)}"}`. */
  function UserToken(username: string, password: string): (h: Header)
    ensures h.scheme == "UserToken"
    ensures h.token.text == username + ":" + password
  {
    Authorization("UserToken", Base64Of(username + ":" + password))
  }

  /** An environment variable as `os.environ.get` returns it. */
  predicate Present(v: Option<string>)
  {
    v.Some? && v.value != ""
  }

  /** The requests the scripts can issue, with their meaningful parameters. */
  datatype Request =
    | UploadRequest(bundlePath: string, auth: Header)           // POST /upload, publishingType AUTOMATIC
    | StatusRequest(deploymentId: string, auth: Header)         // POST /status with {"deploymentId": id}
    | ListRequest(auth: Header)                                 // GET /deployments
    | DropRequest(deploymentId: string, auth: Header)           // DELETE /deployment/{id}

  /** The outcome of one exchange: an exception raised by the transport, or a
      response with its status code, its text and the result of `.json()`
      (`None` when the text is not JSON and `.json()` raises). */
  datatype Reply =
    | Raised
    | Answered(status: int, text: string, body: Option<Value>)

  /** The reply to the k-th request a run issues (counting from 0). */
  type Script = nat -> Reply
}
