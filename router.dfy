/** router/router.go: a router hop that takes its backend list from the
    inbound X-Backends header, forwards to the first entry and hands the rest
    on in the same header. */
module Router {
  import opened Strings
  import opened Http

  /** What Route returns: the backend to forward to and the alternates. */
  datatype Selection = Selection(primary: string, alternates: seq<string>) {
    /** The backend list the selection was cut from. */
    function Backends(): seq<string> {
      [primary] + alternates
    }
  }

  /** The header's text after its first comma, or "" when it has none. */
  function AfterFirstComma(h: string): string {
    if ',' in h then h[IndexOf(h, ',') + 1..] else ""
  }

  /** Router.Route: split the X-Backends value on commas; the first piece is
      the primary, the others the alternates. It never fails: an absent or
      empty header gives primary "" and no alternates. */
  function Route(xBackends: string): (r: Selection)
    ensures Join(r.Backends(), ',') == xBackends
    ensures r.primary == xBackends[..IndexOf(xBackends, ',')]
    ensures |r.alternates| == Count(xBackends, ',')
    ensures forall k :: 0 <= k < |r.alternates| ==> ',' !in r.alternates[k]
    ensures Join(r.alternates, ',') == AfterFirstComma(xBackends)
  {
    var backends := Split(xBackends, ',');
    JoinSplit(xBackends, ',');
    SplitCount(xBackends, ',');
    SplitAtFirst(xBackends, ',');
    Selection(backends[0], backends[1..])
  }

  /** A hop that receives the comma-join of a list of comma-free backend names
      routes to the list's first entry and passes on the rest, unchanged. */
  lemma NextHopRoute(backends: seq<string>)
    requires |backends| > 0
    requires forall k :: 0 <= k < |backends| ==> ',' !in backends[k]
    ensures Route(Join(backends, ',')) == Selection(backends[0], backends[1..])
  {
    SplitJoin(backends, ',');
  }

  /** The Director closure: set the scheme to http, route on the inbound
      X-Backends header, send the request to the primary and replace
      X-Backends by the comma-join of the alternates. */
  method Director(req: Request)
    modifies req
    ensures req.scheme == "http"
    ensures req.host == Route(Get(old(req.header), XBackends)).primary
    ensures req.header == old(req.header)[XBackends := AfterFirstComma(Get(old(req.header), XBackends))]
    ensures req.path == old(req.path)
  {
    var header := req.header;
    req.scheme := "http";
    var sel := Route(Get(header, XBackends));
    req.host := sel.primary;
    req.header := header[XBackends := Join(sel.alternates, ',')];
  }
}
