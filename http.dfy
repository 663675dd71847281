/** The parts of net/http the proxy touches: header maps, the outbound request
    that a Director rewrites in place, and a backend's response. */
module Http {

  datatype Option<T> = None | Some(value: T)

  /** A header map under canonical keys, one value per key. */
  type Header = map<string, string>

  const XBackends: string := "X-Backends"
  const XCache: string := "X-Cache"

  /** Header.Get: the value stored under `key`, or "" when it is absent. */
  function Get(h: Header, key: string): (v: string)
    ensures key !in h ==> v == ""
    ensures key in h ==> v == h[key]
  {
    if key in h then h[key] else ""
  }

  /** The outbound request a Director rewrites: its URL scheme, host and path,
      and its header. */
  class Request {
    var scheme: string
    var host: string
    var path: string
    var header: Header

    constructor (path: string, header: Header)
      ensures this.scheme == "" && this.host == ""
      ensures this.path == path && this.header == header
    {
      this.scheme := "";
      this.host := "";
      this.path := path;
      this.header := header;
    }
  }

  /** A backend's response, as far as the proxy reads it. */
  datatype Response = Response(header: Header)

  /** The error a transport reports, kept opaque. */
  datatype Error = Error(message: string)
}
