/**
 * The request as the gateway's middleware sees it, and the two small result
 * types every stage shares.
 */
module Http {

  datatype Option<T> = None | Some(value: T)

  /** What a middleware stage decides: call `next`, or answer with `status` and stop. */
  datatype Decision = Next | Halt(status: int)

  /**
   * An inbound request: its method (`verb`), `URL.Path`, the raw `RequestURI` (path and
   * query string), its header fields under their canonical names, and the
   * parsed query parameters.
   */
  datatype Request = Request(
    verb: string,
    path: string,
    requestUri: string,
    header: map<string, string>,
    query: map<string, string>)

  /** `Header.Get`: the field's value, or the empty string when the field is absent. */
  function HeaderGet(r: Request, name: string): string
  {
    if name in r.header then r.header[name] else ""
  }

  /**
   * The response header fields the gateway's middleware sets, by their
   * canonical names (`Header().Set` canonicalises `X-XSS-Protection` to
   * `X-Xss-Protection`).
   */
  datatype Field =
    | AccessControlAllowOrigin   // Access-Control-Allow-Origin
    | AccessControlAllowMethods  // Access-Control-Allow-Methods
    | AccessControlAllowHeaders  // Access-Control-Allow-Headers
    | AccessControlMaxAge        // Access-Control-Max-Age
    | XContentTypeOptions        // X-Content-Type-Options
    | XFrameOptions              // X-Frame-Options
    | XXssProtection             // X-Xss-Protection

  /**
   * The part of an `http.ResponseWriter` the middleware touches: the header
   * fields set so far and the status codes passed to `WriteHeader`, in order.
   */
  class Writer {
    var header: map<Field, string>
    var written: seq<int>

    constructor ()
      ensures header == map[] && written == []
    {
      header := map[];
      written := [];
    }

    /** `Header().Set(name, value)`: replaces any earlier value of the field. */
    method Set(name: Field, value: string)
      modifies this`header
      ensures header == old(header)[name := value]
    {
      header := header[name := value];
    }

    method WriteHeader(code: int)
      modifies this`written
      ensures written == old(written) + [code]
    {
      written := written + [code];
    }
  }
}
