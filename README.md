# cacheproxy routing and metering, modelled in Dafny

cacheproxy is a small Go reverse proxy that spreads requests over cache nodes
with a consistent-hash ring. This project models the parts of it that the
repository writes itself:

- **shuffle** (`Shuffle`): the in-place loop that swaps element `i` with a
  random index `j` in `[0, i]`. The random draws are an injected sequence
  `choices` with `choices[i] <= i`, the contract of `rand.Intn(i + 1)`. The
  loop works on an `array` and is proved equal to the specification function
  `Shuffled`, whose result is a permutation of its input.
- **Route and the Director closures** (`Router`, `Proxy`, `MainProxy`):
  - `router/router.go` splits the inbound `X-Backends` header on commas. The
    first piece is the primary and the rest are the alternates.
  - `proxy/proxy.go` always takes the list the ring's `GetN` returned and
    shuffles it.
  - `proxy.go` uses a non-empty `X-Backends` header as it stands and otherwise
    falls back to the ring.
  - Each Director sets the scheme to `http` and the host to the primary. It
    replaces `X-Backends` with the comma-join of the alternates. The outbound
    request is a `class` whose fields the Director assigns.
- **MeteredTransport.RoundTrip** (`Proxy.MeteredTransport`): one `requests`
  mark per call, then one `hits` mark when the response's `X-Cache` is exactly
  `HIT` and one `misses` mark otherwise. The meters are integer fields of the
  `CacheProxy` class.
- **the `/members/` handler** (`Proxy.CacheProxy.HandleMembers`): `PUT` adds the
  last path segment to the ring, `DELETE` removes it, and any other method
  changes nothing. Every method answers with the comma-joined member list.
  Ring membership is a `set<string>`.

The standard-library helpers these rely on are modelled in `Strings`:
`strings.Split` and `strings.Join` with a one-character separator, and
`path.Base`. `Http` holds the header map, the request class and the response.

The consistent-hash ring is an external library. The model sees it only
through its membership set and through the list `GetN` returned, which is a
parameter (`getN`). `Route` panics at `backends[0]` when that list is empty,
because the `GetN` error is discarded. So the ring-branch `Route` methods
require a non-empty list.

Where the code and its intended behaviour disagree, the model follows the
code:

- The code shuffles the whole list, so the ring's first choice can stop being
  the primary (`Shuffle.ShuffleMovesFirstChoice`). Keeping the primary first
  and shuffling only the alternates was the intent.
- The comment on `shuffle` names Sattolo's algorithm. The code draws `j` from
  `[0, i]`, which is Fisher–Yates, so it can leave the list as it was
  (`Shuffle.IdentityDrawsKeepOrder`). Sattolo's algorithm draws from
  `[0, i)` and never leaves a list of two or more elements unchanged.
- On an empty ring the code panics, where an `EmptyRing` error was intended.
  The model states this as a precondition.
- An `X-Backends` header that is empty after trimming was meant to count as
  absent. `proxy.go` compares the untrimmed value with `""`, so a header of
  `" "` yields primary `" "`.
- `router/router.go` has no ring. With an absent or empty header it routes
  to host `""` with no alternates (`Router.Route`).

## Model

| member | source | states |
|---|---|---|
| Strings.Split | router/router.go:33 | Splitting always yields at least one piece, and no piece contains the separator. Splitting `""` gives `[""]`. |
| Strings.Join | router/router.go:23 | Joining no parts gives `""`, one part gives that part, and more parts give the first part followed by `sep`, then the rest. proxy/proxy.go:72 and :87 and proxy.go:97 and :112 join the same way. |
| Strings.SplitCount | router/router.go:33-34 | There is one more piece than there are commas, so the alternates number exactly the commas in the header. |
| Strings.JoinSplit | router/router.go:33-34 | Joining the pieces of a split with the same separator gives the original string back. |
| Strings.SplitJoin | proxy/proxy.go:87 | Splitting a join of a non-empty list of comma-free names gives the list back. |
| Strings.SplitAtFirst | router/router.go:33-34 | The first piece is the text before the first comma. The other pieces joined are the text after it, or `""` when there is no comma. |
| Strings.Base | proxy/proxy.go:60 | `path.Base` of the request path is never empty and contains no slash, unless it is `"/"` itself. |
| Strings.BaseOfMemberPath | proxy/proxy.go:60 | For `<dir>/<name>` followed by any number of slashes, the handler acts on exactly `<name>`. |
| Http.Get | router/router.go:33 | `Header.Get` returns the value stored under the key, or `""` when the key is absent. proxy/transport.go:24 and proxy.go:125 read headers the same way. |
| Shuffle.ShuffleInPlace | proxy.go:22-27 | The in-place loop leaves the array equal to `Shuffled` of its old contents. The result is a permutation of the input. Each swap index is in bounds because `j <= i < len`. The copy at proxy/proxy.go:18-23 is the same code. |
| Shuffle.SwapIsPermutation | proxy.go:25 | Exchanging `list[i]` and `list[j]` keeps the multiset of elements. |
| Shuffle.ShuffledFromIsPermutation | proxy.go:23-26 | Each remaining step of the loop only reorders the list. |
| Shuffle.ShuffledIsPermutation | proxy/proxy.go:18-23 | The shuffle keeps the length and is a permutation of its input. |
| Shuffle.PermutationKeepsDistinct | proxy/proxy.go:102 | A shuffled list of distinct backends is still distinct and has the same elements. |
| Shuffle.IdentityDrawsKeepOrder | proxy.go:20-24 | Drawing `j == i` at every step is a valid draw sequence and leaves the list unchanged. |
| Shuffle.ShuffleMovesFirstChoice | proxy.go:131-132 | The shuffle covers the whole list, so the ring's first choice can end up among the alternates. |
| Router.Route | router/router.go:31-35 | The primary is the header's text before the first comma, or the whole header without one. The alternates number the commas and contain none. Joining primary and alternates with commas gives the header back. The alternates joined are the text after the first comma. It never fails. |
| Router.NextHopRoute | router/router.go:23 | A hop that receives the comma-join of comma-free backends routes to the first one and passes on the rest unchanged. |
| Router.Director | router/router.go:19-24 | Sets the scheme to `http` and the host to the header's primary. Replaces `X-Backends` with the header's suffix after the first comma, or `""`. Leaves the path and the other headers alone. |
| Proxy.Membership | proxy/proxy.go:61-70 | After the request, the named backend is a member iff the method was `PUT`, or it was already a member and the method was not `DELETE`. No other backend's membership changes. |
| Proxy.CacheProxy.HandleMembers | proxy/proxy.go:59-73 | Membership becomes `Membership` of the old membership, the method and `path.Base` of the URL path. The body is the comma-join of some enumeration of the new members. proxy.go:87-98 is the same code. |
| Proxy.CacheProxy.Members | proxy/proxy.go:72 | Stands for the ring library's `Members()`. The listing names every member exactly once, in an unspecified order. |
| Proxy.ListingNamesMembers | proxy/proxy.go:72 | A client that splits the body on commas recovers exactly the membership when it is non-empty and no name contains a comma. With no members the body is `""`. |
| Proxy.CacheProxy.Add | proxy/proxy.go:95-97 | Adds the name to the ring's membership and changes nothing else. |
| Proxy.CacheProxy.constructor | proxy/proxy.go:37-51 | A new proxy has an empty ring and zero counts, so the meters start balanced. |
| Proxy.IsHit | proxy/transport.go:24 | A response is a hit iff its header holds `X-Cache` with exactly the value `"HIT"`. An absent `X-Cache`, or any other value or casing, is a miss. |
| Proxy.MeteredTransport.RoundTrip | proxy/transport.go:14-31 | `requests` grows by exactly 1. `hits` grows by 1 iff `X-Cache` is exactly `"HIT"`, and `misses` grows by 1 otherwise, including absent or other casing. The other count is unchanged. `hits + misses == requests` is preserved. The inner response and error are returned unchanged. A response is required because the code reads its header unconditionally. proxy.go:36-53 is the same code. |
| Proxy.DialFailureHasNoResponse | proxy/transport.go:19-24 | A transport error with no response fails RoundTrip's precondition. The code as written dereferences a nil response there. |
| Proxy.MeteredTransport.SafeRoundTrip | proxy/transport.go:23-28 | Corrected RoundTrip for every inner result. A missing response counts as a miss, so exactly one of `hits` and `misses` grows and `hits + misses == requests` is preserved. |
| Proxy.Route | proxy/proxy.go:100-104 | Primary followed by alternates is the shuffle of `GetN`'s list, hence a permutation of it. The list must be non-empty. |
| Proxy.RingRouteIsDistinct | proxy/proxy.go:101-103 | When `GetN` returns distinct backends, the route has the same length and elements, no two positions hold the same backend, and the primary is not among the alternates. |
| Proxy.Director | proxy/proxy.go:83-88 | Sets the scheme to `http` and the host to the shuffled list's head. Replaces `X-Backends` with the comma-join of the rest. Leaves the path alone. |
| MainProxy.Route | proxy.go:121-136 | The result is `Routing`: the split header when `X-Backends` is non-empty, otherwise the shuffled `GetN` list, cut into head and rest. |
| MainProxy.PresetHeaderRoute | proxy.go:125-128 | With a non-empty header, the ring list and the draws do not matter. The primary is the text before the first comma, and the alternates number the commas. Joining primary and alternates gives the header back. |
| MainProxy.RingRoute | proxy.go:129-135 | Without a header, primary and alternates form a permutation of `GetN`'s list. The primary is not among the alternates when that list is distinct. |
| MainProxy.Director | proxy.go:108-113 | Sets the scheme to `http` and the host to the selection's primary. Replaces `X-Backends` with the comma-join of its alternates. Leaves the path alone. |

## Findings

| source | as written | input that shows it | evidently intended | confidence | as-written member | corrected member |
|---|---|---|---|---|---|---|
| proxy/transport.go:18-24 | After the inner transport returns, the code reads `resp.Header` without checking `resp`. net/http's transport returns a nil response together with its error. | The inner transport cannot reach the backend: `resp == nil`, `err == "dial tcp: connection refused"` (`Proxy.DialFailure`). | Return the error unchanged and count the call as a miss, so that `hits + misses == requests` holds. | nil dereference: high; chosen correction: medium; not executed | Proxy.MeteredTransport.RoundTrip, Proxy.DialFailureHasNoResponse | Proxy.MeteredTransport.SafeRoundTrip |

## Left out

- The consistent-hash ring's internals are external library code and are not modelled. That covers virtual nodes, hashing, the order `GetN` returns and the idempotence of `Add`/`Remove`. `GetN`'s result is a parameter, and membership is a set.
- The request path and the replica count are `GetN`'s arguments. They reach the model only through `GetN`'s result.
- go-metrics' meter rates (EWMA floats) and the backend timer (`timer.Time`) are left out. Only the integer counts behind `Mark(1)` are modelled.
- The `/metrics/` handler (`metrics.WriteOnce`) is output formatting and I/O.
- HTTP serving and forwarding are I/O and library code: `ListenAndServe`, `Manage`, `Serve`, `httputil.ReverseProxy` and the inner `http.Transport.RoundTrip`. The inner transport's result is a parameter.
- main.go (flags, logging, seeding the ring, goroutines) and backend/backend.go (a demo backend) are not part of this model.
- `log.Println` in the members handler is logging only.
- Headers hold one value per canonical key. Multi-valued headers and key canonicalisation are not modelled.
- `rand.Intn` is replaced by the injected draws.
- Concurrency is not modelled. Every operation runs alone, and the ring's locking and the meters' atomic updates are not represented.
- Route on an empty ring list is excluded by precondition. The code panics at `backends[0]`, and the intended `EmptyRing` error is not modelled.
- Strings are `seq<char>`, while Go strings are byte strings. Splitting on `','` and `'/'` gives the same pieces either way, because in UTF-8 those bytes occur only as themselves. The meters are `int64` in Go and `nat` here, so their overflow is not modelled.
