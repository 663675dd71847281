/** proxy/proxy.go and proxy/transport.go: the cache proxy. Its ring is the
    consistent-hash library's, seen here only through its membership (a set)
    and through the list GetN returns (an input); its meters are the counts
    behind Mark(1). */
module Proxy {
  import opened Strings
  import opened Http
  import opened Shuffle
  import Router

  /** `list` names every member exactly once, in some order: what the ring's
      Members() returns. */
  predicate Enumerates(list: seq<string>, members: set<string>) {
    multiset(list) == multiset(members)
  }

  /** Membership after a /members/ request with method `verb` naming `name`:
      PUT adds the name, DELETE removes it, any other method changes nothing. */
  function Membership(members: set<string>, verb: string, name: string): (r: set<string>)
    ensures name in r <==> verb == "PUT" || (verb != "DELETE" && name in members)
    ensures forall m :: m != name ==> (m in r <==> m in members)
  {
    if verb == "PUT" then members + {name}
    else if verb == "DELETE" then members - {name}
    else members
  }

  /** What the inner transport hands back: a response, an error, or both. */
  datatype Exchange = Exchange(resp: Option<Response>, err: Option<Error>)

  /** The classification of a response: a hit exactly when X-Cache is "HIT".
      An absent X-Cache, or any other value or casing, is a miss. */
  function IsHit(resp: Response): (hit: bool)
    ensures hit <==> XCache in resp.header && resp.header[XCache] == "HIT"
  {
    Get(resp.header, XCache) == "HIT"
  }

  /** The as-written RoundTrip reads the response's header without checking
      that there is a response. */
  predicate HasResponse(x: Exchange) {
    x.resp.Some?
  }

  /** What net/http's transport returns when it cannot reach the backend: no
      response, only an error. */
  const DialFailure: Exchange := Exchange(None, Some(Error("dial tcp: connection refused")))

  /** A failed dial gives RoundTrip no response to classify: the as-written
      code dereferences a nil response there. */
  lemma DialFailureHasNoResponse()
    ensures DialFailure.err.Some? && !HasResponse(DialFailure)
  {
  }

  /** The proxy's shared state: ring membership and the request, hit and miss
      counts. */
  class CacheProxy {
    var members: set<string>
    var requests: nat
    var hits: nat
    var misses: nat

    /** Every counted request has been classified exactly once. */
    predicate Balanced()
      reads this
    {
      hits + misses == requests
    }

    constructor ()
      ensures members == {} && requests == 0 && hits == 0 && misses == 0
      ensures Balanced()
    {
      members := {};
      requests, hits, misses := 0, 0, 0;
    }

    /** CacheProxy.Add: register a backend with the ring. */
    method Add(name: string)
      modifies this`members
      ensures members == old(members) + {name}
    {
      members := members + {name};
    }

    /** The ring's Members(): every member once, in an unspecified order. */
    method Members() returns (list: seq<string>)
      ensures Enumerates(list, members)
    {
      list := [];
      var rest := members;
      while rest != {}
        invariant rest <= members
        invariant multiset(list) + multiset(rest) == multiset(members)
        decreases |rest|
      {
        var m :| m in rest;
        assert multiset(rest) == multiset(rest - {m}) + multiset{m};
        list := list + [m];
        rest := rest - {m};
      }
    }

    /** The /members/ handler: act on the last segment of the URL path (PUT
        adds it, DELETE removes it, anything else leaves the ring alone) and
        answer with the comma-joined list of members after the change. */
    method HandleMembers(verb: string, urlPath: string) returns (body: string)
      modifies this`members
      ensures members == Membership(old(members), verb, Base(urlPath))
      ensures exists list :: Enumerates(list, members) && body == Join(list, ',')
    {
      var backend := Base(urlPath);
      if verb == "PUT" {
        members := members + {backend};
      } else if verb == "DELETE" {
        members := members - {backend};
      }
      var list := Members();
      body := Join(list, ',');
    }
  }

  /** A response body listing the members gives them back to a client that
      splits it on commas, provided no member name contains a comma; with no
      members the body is empty. */
  lemma ListingNamesMembers(list: seq<string>, members: set<string>)
    requires Enumerates(list, members)
    requires forall m :: m in members ==> ',' !in m
    ensures members == {} ==> Join(list, ',') == ""
    ensures members != {} ==> Enumerates(Split(Join(list, ','), ','), members)
  {
    if members == {} {
      assert |multiset(list)| == 0;
    } else {
      assert |list| > 0 by {
        var m :| m in members;
        assert m in multiset(members);
      }
      forall k | 0 <= k < |list| ensures ',' !in list[k] {
        assert list[k] in multiset(list);
      }
      SplitJoin(list, ',');
    }
  }

  /** The transport that meters every round trip it makes for the proxy. */
  class MeteredTransport {
    const cacheproxy: CacheProxy

    constructor (c: CacheProxy)
      ensures cacheproxy == c
    {
      cacheproxy := c;
    }

    /** MeteredTransport.RoundTrip as written: count the request, run the inner
        transport, count a hit when its response's X-Cache is exactly "HIT" and
        a miss otherwise, and return the inner result unchanged. Reading the
        header of a missing response panics, hence the precondition. */
    method RoundTrip(inner: Exchange) returns (resp: Option<Response>, err: Option<Error>)
      requires HasResponse(inner)
      modifies cacheproxy`requests, cacheproxy`hits, cacheproxy`misses
      ensures resp == inner.resp && err == inner.err
      ensures cacheproxy.requests == old(cacheproxy.requests) + 1
      ensures IsHit(inner.resp.value) ==>
                cacheproxy.hits == old(cacheproxy.hits) + 1 && cacheproxy.misses == old(cacheproxy.misses)
      ensures !IsHit(inner.resp.value) ==>
                cacheproxy.misses == old(cacheproxy.misses) + 1 && cacheproxy.hits == old(cacheproxy.hits)
      ensures old(cacheproxy.Balanced()) ==> cacheproxy.Balanced()
    {
      cacheproxy.requests := cacheproxy.requests + 1;
      resp, err := inner.resp, inner.err;
      if Get(resp.value.header, XCache) == "HIT" {
        cacheproxy.hits := cacheproxy.hits + 1;
      } else {
        cacheproxy.misses := cacheproxy.misses + 1;
      }
    }

    /** RoundTrip with the nil check it lacks: a round trip that produced no
        response counts as a miss, so every call is classified exactly once. */
    method SafeRoundTrip(inner: Exchange) returns (resp: Option<Response>, err: Option<Error>)
      modifies cacheproxy`requests, cacheproxy`hits, cacheproxy`misses
      ensures resp == inner.resp && err == inner.err
      ensures cacheproxy.requests == old(cacheproxy.requests) + 1
      ensures HasResponse(inner) && IsHit(inner.resp.value) ==>
                cacheproxy.hits == old(cacheproxy.hits) + 1 && cacheproxy.misses == old(cacheproxy.misses)
      ensures !(HasResponse(inner) && IsHit(inner.resp.value)) ==>
                cacheproxy.misses == old(cacheproxy.misses) + 1 && cacheproxy.hits == old(cacheproxy.hits)
      ensures old(cacheproxy.Balanced()) ==> cacheproxy.Balanced()
    {
      cacheproxy.requests := cacheproxy.requests + 1;
      resp, err := inner.resp, inner.err;
      if resp.Some? && Get(resp.value.header, XCache) == "HIT" {
        cacheproxy.hits := cacheproxy.hits + 1;
      } else {
        cacheproxy.misses := cacheproxy.misses + 1;
      }
    }
  }

  /** CacheProxy.Route: shuffle the list GetN returned for the request path
      (the whole list, its first entry included) and cut it into the primary
      and the alternates. An empty list panics at backends[0]. */
  method Route(getN: seq<string>, choices: seq<nat>) returns (sel: Router.Selection)
    requires |getN| > 0 && ValidChoices(choices, |getN|)
    ensures sel.Backends() == Shuffled(getN, choices)
    ensures multiset(sel.Backends()) == multiset(getN)
  {
    var backends := new string[|getN|](i requires 0 <= i < |getN| => getN[i]);
    assert backends[..] == getN;
    ShuffleInPlace(backends, choices);
    sel := Router.Selection(backends[0], backends[1..]);
    assert sel.Backends() == backends[..];
  }

  /** When GetN returns distinct backends, the route names each of them once:
      the primary is not among the alternates, and nothing else appears. */
  lemma RingRouteIsDistinct(getN: seq<string>, choices: seq<nat>)
    requires |getN| > 0 && ValidChoices(choices, |getN|)
    requires forall a, b :: 0 <= a < b < |getN| ==> getN[a] != getN[b]
    ensures var backends := Shuffled(getN, choices);
            |backends| == |getN| && backends[0] !in backends[1..] &&
            (forall x :: x in backends <==> x in getN) &&
            forall a, b :: 0 <= a < b < |backends| ==> backends[a] != backends[b]
  {
    var backends := Shuffled(getN, choices);
    ShuffledIsPermutation(getN, choices);
    PermutationKeepsDistinct(getN, backends);
    forall k | 1 <= k < |backends| ensures backends[k] != backends[0] {
    }
    assert forall x :: x in backends[1..] ==> exists k :: 1 <= k < |backends| && backends[k] == x;
  }

  /** The Director closure: set the scheme to http, route the request, send it
      to the primary and replace X-Backends by the comma-join of the
      alternates. `getN` is the ring's answer for the request path. */
  method Director(req: Request, getN: seq<string>, choices: seq<nat>)
    requires |getN| > 0 && ValidChoices(choices, |getN|)
    modifies req
    ensures var backends := Shuffled(getN, choices);
            req.host == backends[0] &&
            req.header == old(req.header)[XBackends := Join(backends[1..], ',')]
    ensures req.scheme == "http" && req.path == old(req.path)
  {
    req.scheme := "http";
    var sel := Route(getN, choices);
    req.host := sel.primary;
    req.header := req.header[XBackends := Join(sel.alternates, ',')];
  }
}
