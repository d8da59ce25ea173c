/** The parts of a mitmproxy flow that the filter reads and writes. The
    proxy engine itself is not modelled: a flow is a request record, the
    client's address and a response slot the hooks may fill in. */
module Http {
  import opened Wrappers

  /** `flow.request`: `pretty_host` and `pretty_url` (scheme, host, path
      and query), as mitmproxy reports them. */
  datatype HttpRequest = HttpRequest(prettyHost: string, prettyUrl: string)

  /** `flow.response`: one that came from upstream, or the block page the
      filter injects with `HTTPResponse.make(403, ...)`. The page's HTML
      template is not modelled; the page carries the escaped URL and the
      reason it shows. */
  datatype HttpResponse =
    | Upstream(statusCode: int)
    | BlockPage(escapedUrl: string, reason: string)
  {
    function StatusCode(): int
    {
      match this
      case Upstream(code) => code
      case BlockPage(_, _) => 403
    }
  }

  /** `flow`: the request, the client's address (`client_conn.address[0]`,
      `None` when the address is empty) and the response slot. */
  class Flow {
    const request: HttpRequest
    const clientAddress: Option<string>
    var response: Option<HttpResponse>

    constructor (request: HttpRequest, clientAddress: Option<string>, response: Option<HttpResponse>)
      ensures this.request == request && this.clientAddress == clientAddress
      ensures this.response == response
    {
      this.request := request;
      this.clientAddress := clientAddress;
      this.response := response;
    }
  }

  /** The client IP both hooks log: the address's host, or "unknown". */
  function ClientIp(address: Option<string>): string
  {
    address.GetOr("unknown")
  }
}
