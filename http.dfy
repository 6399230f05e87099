/**
 * The parts of Go's net/http package the handler relies on: the method
 * names it registers, the status codes it answers with, and the
 * reason-phrase table behind http.StatusText.
 */
module Http {

  const MethodGet: string := "GET"
  const MethodPost: string := "POST"
  const MethodPut: string := "PUT"
  const MethodDelete: string := "DELETE"

  const StatusOK: int := 200
  const StatusCreated: int := 201
  const StatusBadRequest: int := 400
  const StatusInternalServerError: int := 500

  /** Every status code net/http names, with its reason phrase. */
  const ReasonPhrases: map<int, string> := map[
    100 := "Continue",
    101 := "Switching Protocols",
    102 := "Processing",
    103 := "Early Hints",
    200 := "OK",
    201 := "Created",
    202 := "Accepted",
    203 := "Non-Authoritative Information",
    204 := "No Content",
    205 := "Reset Content",
    206 := "Partial Content",
    207 := "Multi-Status",
    208 := "Already Reported",
    226 := "IM Used",
    300 := "Multiple Choices",
    301 := "Moved Permanently",
    302 := "Found",
    303 := "See Other",
    304 := "Not Modified",
    305 := "Use Proxy",
    307 := "Temporary Redirect",
    308 := "Permanent Redirect",
    400 := "Bad Request",
    401 := "Unauthorized",
    402 := "Payment Required",
    403 := "Forbidden",
    404 := "Not Found",
    405 := "Method Not Allowed",
    406 := "Not Acceptable",
    407 := "Proxy Authentication Required",
    408 := "Request Timeout",
    409 := "Conflict",
    410 := "Gone",
    411 := "Length Required",
    412 := "Precondition Failed",
    413 := "Request Entity Too Large",
    414 := "Request URI Too Long",
    415 := "Unsupported Media Type",
    416 := "Requested Range Not Satisfiable",
    417 := "Expectation Failed",
    418 := "I'm a teapot",
    421 := "Misdirected Request",
    422 := "Unprocessable Entity",
    423 := "Locked",
    424 := "Failed Dependency",
    425 := "Too Early",
    426 := "Upgrade Required",
    428 := "Precondition Required",
    429 := "Too Many Requests",
    431 := "Request Header Fields Too Large",
    451 := "Unavailable For Legal Reasons",
    500 := "Internal Server Error",
    501 := "Not Implemented",
    502 := "Bad Gateway",
    503 := "Service Unavailable",
    504 := "Gateway Timeout",
    505 := "HTTP Version Not Supported",
    506 := "Variant Also Negotiated",
    507 := "Insufficient Storage",
    508 := "Loop Detected",
    510 := "Not Extended",
    511 := "Network Authentication Required"
  ]

  /** http.StatusText: the reason phrase of a known code, the empty string otherwise. */
  function StatusText(code: int): (text: string)
    ensures code == StatusBadRequest ==> text == "Bad Request"
    ensures code == StatusInternalServerError ==> text == "Internal Server Error"
    ensures code !in ReasonPhrases ==> text == ""
  {
    if code in ReasonPhrases then ReasonPhrases[code] else ""
  }
}
