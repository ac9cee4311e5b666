/** The part of net/http that the handlers use: a reply is the status code, the
    Content-Type header and the body written to the http.ResponseWriter. */
module Http {
  import opened GoStrings

  datatype Reply = Reply(status: int, contentType: string, body: string)

  /** A request as the handlers see it: the HTTP method (`verb`), the header values and the
      form values, each map holding only the keys the client sent. */
  datatype Request = Request(verb: string, header: map<string, Bytes>, form: map<string, Bytes>)

  const MethodPost := "POST"

  /** Header.Get: the value sent under `key`, or "" when there is none. */
  function HeaderValue(r: Request, key: string): Bytes {
    if key in r.header then r.header[key] else []
  }

  /** Request.FormValue: the value of the form field `key`, or "" when absent. */
  function FormValue(r: Request, key: string): Bytes {
    if key in r.form then r.form[key] else []
  }

  const StatusOK := 200
  const StatusAccepted := 202
  const StatusBadRequest := 400
  const StatusUnauthorized := 401
  const StatusMethodNotAllowed := 405
  const StatusTooManyRequests := 429
  const StatusInternalServerError := 500

  /** http.Error: a plain-text reply whose body is the message and a newline. */
  function Error(message: string, code: int): Reply {
    Reply(code, "text/plain; charset=utf-8", message + "\n")
  }

  /** A reply whose handler set no Content-Type: net/http detects one from the
      body, which for the plain ASCII texts of this server is text/plain. */
  function Sniffed(code: int, body: string): Reply {
    Reply(code, "text/plain; charset=utf-8", body)
  }
}
