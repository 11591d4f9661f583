/** The slice of net/http the core touches, as values: header maps, requests, responses,
    `http.Error`, and the outcome of running a downstream handler. */
module Http {

  const StatusOK: int := 200
  const StatusServiceUnavailable: int := 503

  const PlainText: string := "text/plain; charset=utf-8"

  /** Header names are taken to be in canonical form already; Go's normalisation of
      names in `Header.Get`/`Header.Set` is not part of this model. */
  type Header = map<string, string>

  /** `Header.Get`: the value stored under `name`, or "" when there is none. */
  function HeaderGet(h: Header, name: string): (v: string)
    ensures name in h ==> v == h[name]
    ensures name !in h ==> v == ""
  {
    if name in h then h[name] else ""
  }

  /** `Header.Set`: `name` now maps to `value`; every other entry is kept. */
  function HeaderSet(h: Header, name: string, value: string): (h': Header)
    ensures HeaderGet(h', name) == value
    ensures forall k :: k in h && k != name ==> k in h' && h'[k] == h[k]
    ensures h'.Keys == h.Keys + {name}
  {
    h[name := value]
  }

  /** The observable metadata of an incoming request. */
  datatype Request = Request(verb: string, path: string, header: Header)

  datatype Response = Response(status: int, header: Header, body: string)

  /** How a downstream handler's work ends: with a response, or by unwinding (a panic). */
  datatype Outcome = Completed(response: Response) | Aborted

  /** A downstream handler, seen from outside: what it does with one request. */
  type Downstream = Request -> Outcome

  /** `http.Error(w, msg, code)` on a writer whose headers are `h`: plain-text error
      headers, status `code`, and `msg` followed by a newline as the body. */
  function ErrorResponse(h: Header, msg: string, code: int): (resp: Response)
    ensures resp.status == code
    ensures resp.body == msg + "\n"
    ensures HeaderGet(resp.header, "Content-Type") == PlainText
    ensures HeaderGet(resp.header, "X-Content-Type-Options") == "nosniff"
    ensures resp.header.Keys == h.Keys - {"Content-Length"} + {"Content-Type", "X-Content-Type-Options"}
    ensures forall k :: k in h && k !in {"Content-Length", "Content-Type", "X-Content-Type-Options"} ==>
      k in resp.header && resp.header[k] == h[k]
  {
    var h1 := h - {"Content-Length"};
    var h2 := HeaderSet(h1, "Content-Type", PlainText);
    var h3 := HeaderSet(h2, "X-Content-Type-Options", "nosniff");
    Response(code, h3, msg + "\n")
  }
}
