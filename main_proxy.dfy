/** proxy.go: the earlier, single-package cache proxy. Its shuffle, metered
    transport and /members/ handler are the same code as the proxy package's
    and are modelled once there; what differs is Route, which honours a
    preset X-Backends header before it consults the ring. */
module MainProxy {
  import opened Strings
  import opened Http
  import opened Shuffle
  import Router
  import Proxy

  /** The selection CacheProxy.Route makes: a non-empty X-Backends header is
      split on commas and used as it stands; otherwise the list GetN returned
      is shuffled, its first entry included. Either list is cut into its head
      and the rest. */
  function Routing(xBackends: string, getN: seq<string>, choices: seq<nat>): Router.Selection
    requires xBackends != "" || (|getN| > 0 && ValidChoices(choices, |getN|))
  {
    if xBackends != "" then Router.Route(xBackends)
    else
      var backends := Shuffled(getN, choices);
      Router.Selection(backends[0], backends[1..])
  }

  /** With a preset header the ring is not consulted: the primary is the
      header's text before its first comma, the alternates are the remaining
      comma-separated pieces (one per comma), joining the two gives the header
      back, and the alternates joined are the text after the first comma. */
  lemma PresetHeaderRoute(xBackends: string, getN: seq<string>, choices: seq<nat>)
    requires xBackends != ""
    ensures var sel := Routing(xBackends, getN, choices);
            sel == Routing(xBackends, [], []) &&
            sel.primary == xBackends[..IndexOf(xBackends, ',')] &&
            |sel.alternates| == Count(xBackends, ',') &&
            Join(sel.Backends(), ',') == xBackends &&
            Join(sel.alternates, ',') == Router.AfterFirstComma(xBackends)
  {
  }

  /** Without a preset header the selection is a permutation of the list GetN
      returned; when that list is free of duplicates, the primary is not among
      the alternates. */
  lemma RingRoute(getN: seq<string>, choices: seq<nat>)
    requires |getN| > 0 && ValidChoices(choices, |getN|)
    ensures var sel := Routing("", getN, choices);
            multiset(sel.Backends()) == multiset(getN)
    ensures (forall a, b :: 0 <= a < b < |getN| ==> getN[a] != getN[b]) ==>
              var sel := Routing("", getN, choices);
              sel.primary !in sel.alternates
  {
    var backends := Shuffled(getN, choices);
    var sel := Routing("", getN, choices);
    assert sel.Backends() == backends;
    ShuffledIsPermutation(getN, choices);
    if forall a, b :: 0 <= a < b < |getN| ==> getN[a] != getN[b] {
      Proxy.RingRouteIsDistinct(getN, choices);
    }
  }

  /** CacheProxy.Route: the header branch or the ring branch, the latter
      shuffling a copy of GetN's list in place. An empty ring list panics at
      backends[0], hence the precondition. */
  method Route(xBackends: string, getN: seq<string>, choices: seq<nat>) returns (sel: Router.Selection)
    requires xBackends != "" || (|getN| > 0 && ValidChoices(choices, |getN|))
    ensures sel == Routing(xBackends, getN, choices)
  {
    if xBackends != "" {
      sel := Router.Route(xBackends);
    } else {
      sel := Proxy.Route(getN, choices);
      assert sel.Backends()[1..] == sel.alternates;
    }
  }

  /** The Director closure: set the scheme to http, route the request, send it
      to the primary and replace X-Backends by the comma-join of the
      alternates. */
  method Director(req: Request, getN: seq<string>, choices: seq<nat>)
    requires Get(req.header, XBackends) != "" || (|getN| > 0 && ValidChoices(choices, |getN|))
    modifies req
    ensures var sel := Routing(Get(old(req.header), XBackends), getN, choices);
            req.host == sel.primary &&
            req.header == old(req.header)[XBackends := Join(sel.alternates, ',')]
    ensures req.scheme == "http" && req.path == old(req.path)
  {
    var header := req.header;
    req.scheme := "http";
    var sel := Route(Get(header, XBackends), getN, choices);
    req.host := sel.primary;
    req.header := header[XBackends := Join(sel.alternates, ',')];
  }
}
