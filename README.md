# Service exposure in minikube, modelled in Dafny

This project models the service-exposure logic of minikube's `service`
package (`pkg/minikube/service/service.go`). It covers five parts:

- **URL resolution** (`printURLsForService`, `GetServiceURLs`). The resolver
  builds an index from port number to endpoint port name out of a service's
  endpoint subsets. It then renders one URL per declared port that has a node
  port, and records that port's name beside it.
- **Readiness check** (`CheckService`). A failed fetch is retriable. A service
  with no ports is a final error. A service with at least one port is ready.
- **HTTPS upgrade** (`OptionallyHTTPSFormattedURLString`). If the parsed
  scheme is `http` and the flag is set, the first literal `"http"` in the
  string becomes `"https"`.
- **Orchestration** (`WaitAndMaybeOpenService`). The orchestrator waits for
  the service, resolves its URLs and prints a table. It then prints each URL
  or opens it in a browser. Every side effect is an `Action` in a trace.
- **Secret lifecycle** (`CreateSecret`, `DeleteSecret`). These run against
  `SecretStore`, a class holding the cluster's secrets as a
  `map<Key, Secret>`. `CreateSecret` deletes any existing secret of that name
  and then creates the new one. Every client failure is `Retriable`.

Collaborators are parameters:

- The cluster's core client is `CoreClient`, a record of three functions: get
  a service, get its endpoints, and list the services of a namespace.
- The outcome of obtaining a client is a `Result`, or for secrets an
  `Option<string>` error. `CreateSecret` takes two such outcomes: its own
  client's, and the client of the `DeleteSecret` it calls (service.go:339,
  371-374).
- A parsed `--format` template is a function `Template` from
  (IP, node port, name) to `Result<string, string>`.
- `url.Parse` is a `SchemeParser` that returns the lower-cased scheme, or
  `None` when the string does not parse.
- The outcome of the retry loop is a `Poller` from (interval, wait) to an
  optional error.
- The browser launcher is a `Browser` that returns an optional error.

Errors are `Retriable(msg)` (the source's `retry.RetriableError`) or
`Fatal(msg)` (any other error). `errors.Wrap` always produces a `Fatal` error.

Files: `wrappers.dfy` (Option, Result), `errors.dfy` (error kinds),
`resolver.dfy` (resolution and readiness), `https.dfy` (HTTPS upgrade),
`orchestrator.dfy` (the wait-and-open flow), `secrets.dfy` (secret
lifecycle).

Three behaviours of service.go that the model keeps as written:

- The second result of `OptionallyHTTPSFormattedURLString` says only whether
  the scheme is `http`, whatever the flag (service.go:240, 247). So
  `"http://10.0.0.1:3000"` with the flag off gives
  `("http://10.0.0.1:3000", true)`.
- `WaitAndMaybeOpenService` normalises only `interval` (0 becomes 1). `wait`
  is passed on unchanged (service.go:265-270).
- The check for an endpoints object with zero subsets (service.go:182) has no
  effect, because an empty subset list indexes nothing anyway.

## Model

| member | source | states |
|---|---|---|
| `Resolver.IndexEndpointPorts` | pkg/minikube/service/service.go:181-188 | The nested subset/port loop builds exactly `PortIndex` of all endpoint ports in order. |
| `Resolver.PortIndexLastWins` | pkg/minikube/service/service.go:183-187 | A port number is indexed iff some endpoint port declares it. It maps to the name of the last entry that declares it. |
| `Resolver.EndpointFailureNamesNothing` | pkg/minikube/service/service.go:180-182 | A failed endpoint fetch gives an empty index, so every name resolves to "". |
| `Resolver.NodePorts` | pkg/minikube/service/service.go:192-193 | The kept ports are exactly the declared ports with a positive node port, and there are no more of them than declared ports. |
| `Resolver.NodePortsNone` | pkg/minikube/service/service.go:192-193 | With no positive node port, no port is kept. |
| `Resolver.RenderPortsAligned` | pkg/minikube/service/service.go:190-211 | Rendering succeeds iff every node port renders. Then URLs and names have one entry per node port, in declaration order. `names[i]` is the index entry of port i's target, and `urls[i]` is the template applied to (ip, node port, `names[i]`). |
| `Resolver.RenderPortsFirstFailure` | pkg/minikube/service/service.go:204-206 | A failed rendering carries the error of the first node port that fails to render. Every earlier node port rendered. |
| `Resolver.RenderPortsErrSticks` | pkg/minikube/service/service.go:204-206 | A render failure in a prefix of the ports aborts the whole resolution with that error, so no partial URLs come back. |
| `Resolver.Resolve` | pkg/minikube/service/service.go:170-212 | Every failure is final. A missing template fails whatever the fetches answer. With a template, a failed service fetch fails. A success carries the fetched service's namespace and name. |
| `Resolver.ResolveAligned` | pkg/minikube/service/service.go:100-102 | A successful resolution has `len(urls) == len(portNames) ==` the number of node ports. Position i of both lists belongs to the i-th node port. |
| `Resolver.ResolveFailsOnlyOnRender` | pkg/minikube/service/service.go:180-206 | With a template and a fetched service, resolution fails iff some node port fails to render under the endpoint index. A failed endpoint fetch is not itself an error; it only leaves every name empty. |
| `Resolver.NoNodePortResolvesEmpty` | pkg/minikube/service/service.go:190-211 | A service without node ports resolves successfully to empty URL and name lists. |
| `Resolver.PrintURLsForService` | pkg/minikube/service/service.go:170-212 | The imperative resolver (template check, fetch, index loop, render loop) returns exactly `Resolve` of its inputs. |
| `Resolver.ResolveAllPerService` | pkg/minikube/service/service.go:138-147 | Resolving a list succeeds iff every listed service resolves. Then it gives one exposure per service, in list order. Otherwise it fails with the error of the first service that fails. |
| `Resolver.ResolveAllErrSticks` | pkg/minikube/service/service.go:139-143 | Once a listed service fails to resolve, the whole list fails with its error. |
| `Resolver.GetServiceURLs` | pkg/minikube/service/service.go:126-147 | The client, list and per-service loop returns exactly `ServiceURLs` of its inputs. |
| `Resolver.ServiceURLsForService` | pkg/minikube/service/service.go:162-167 | Getting a client and then resolving the service never yields a retriable error. |
| `Resolver.CheckService` | pkg/minikube/service/service.go:215-232 | The service is ready iff a client exists and the fetched service has at least one port. The error is retriable iff a client exists and the fetch failed. A missing client or an empty port list is final. |
| `Resolver.ReadyServiceResolves` | pkg/minikube/service/service.go:221-229 | A service that passed the readiness check resolves, given a template under which every node port renders. |
| `Https.IndexFrom` | pkg/minikube/service/service.go:244 | The index found is an occurrence with no earlier occurrence. No index means no occurrence at all. |
| `Https.OptionallyHTTPSFormattedURLString` | pkg/minikube/service/service.go:235-248 | The flag returned is exactly "the scheme is http", whatever `https` is. The URL is returned unchanged unless both hold. Otherwise the first "http" is replaced by "https" and the rest of the string is kept. |
| `Https.UpgradeInsertsOneS` | pkg/minikube/service/service.go:243-245 | An upgrade adds one character, "https" stands where the first "http" was, and removing that "s" gives back the original URL. |
| `Https.UpgradeExample` | pkg/minikube/service/service.go:235-248 | `"http://10.0.0.1:3000"` upgrades to `"https://10.0.0.1:3000"`. With the flag off it stays as it is, and the scheme flag is still true. |
| `Https.UpperCaseSchemeNotRewritten` | pkg/minikube/service/service.go:239-245 | `"HTTP://x"` counts as http (the parsed scheme is lower-cased) but is not rewritten. |
| `Https.HostNameRewritten` | pkg/minikube/service/service.go:243-245 | The replacement is textual: in `"HTTP://http-svc"` the host name's "http" is the one rewritten. |
| `Orchestrator.Run` | pkg/minikube/service/service.go:262-307 | The first action is the wait, with interval 0 replaced by 1 and wait unchanged. The run fails iff the wait fails or the resolution fails. |
| `Orchestrator.WaitAndMaybeOpenService` | pkg/minikube/service/service.go:262-307 | The step-by-step orchestrator produces exactly the trace and result of `Run`. |
| `Orchestrator.OpenOrPrintEach` | pkg/minikube/service/service.go:294-305 | The per-URL loop produces exactly the actions `URLActions` describes. |
| `Orchestrator.URLActionVisitsOnce` | pkg/minikube/service/service.go:295-304 | The actions for one URL print or open it exactly once, whatever the browser answers. |
| `Orchestrator.URLActionsVisitEachURL` | pkg/minikube/service/service.go:294-305 | Each URL is printed or opened exactly once, in order. It is printed iff URL mode is on or its scheme is not http, and otherwise opened. |
| `Orchestrator.RunVisitsEachURL` | pkg/minikube/service/service.go:279-305 | After a successful wait and resolution, the URLs printed or opened are exactly the resolved URLs, in order. |
| `Orchestrator.PollFailureStops` | pkg/minikube/service/service.go:265-272 | A failed wait returns the wrapped error. The trace is only the wait, so nothing is resolved, printed or opened. |
| `Orchestrator.NoNodePortRun` | pkg/minikube/service/service.go:279-292 | A ready service without node ports succeeds. In table mode it shows the row `[ns, svc, "", "No node port"]`. The last action is the notice, and no URL is printed or opened. |
| `Orchestrator.TableModeRow` | pkg/minikube/service/service.go:279-287 | In table mode the row is `[ns, svc, join(portNames, "\n"), join(urls, "\n")]`. |
| `Orchestrator.BrowserNeverFails` | pkg/minikube/service/service.go:300-306 | The browser's answers never change the result of a run. |
| `Secrets.EncodeRune` | pkg/minikube/service/service.go:348 | A character encodes to 1 to 4 bytes. It is one byte, equal to the character, iff it is ASCII. Otherwise the lead byte is at least 0xC0 and the rest are continuation bytes. |
| `Secrets.AsciiToBytes` | pkg/minikube/service/service.go:348 | An ASCII value converts to its characters' codes, one byte each. |
| `Secrets.ConvertData` | pkg/minikube/service/service.go:346-349 | The conversion loop keeps exactly the same keys and converts every value to its bytes. |
| `Secrets.DeleteSecret` | pkg/minikube/service/service.go:370-383 | The store and the result change exactly as `DeleteSecretSpec` says, and the store stays named by key. |
| `Secrets.CreateSecret` | pkg/minikube/service/service.go:329-367 | The store and the result change exactly as `CreateSecretSpec` says, and the store stays named by key. |
| `Secrets.FailuresAreRetriable` | pkg/minikube/service/service.go:329-383 | Every error that `CreateSecret` or `DeleteSecret` returns is retriable. |
| `Secrets.CreateSecretUpserts` | pkg/minikube/service/service.go:337-366 | After a successful create the store is the old store with that name mapped to the new opaque secret. It holds the given labels and the converted data. Every other name is unchanged. |
| `Secrets.CreateSecretStopsOnDeleteFailure` | pkg/minikube/service/service.go:338-343 | If the existing secret cannot be deleted, because the delete is refused or the nested `DeleteSecret` gets no client, the result is a retriable error and the store is unchanged, so nothing is created. |
| `Secrets.CreateSecretTwice` | pkg/minikube/service/service.go:329-367 | Two successful creates under one name leave exactly one secret, holding the second call's data and labels. |
| `Secrets.DeleteAbsentSecret` | pkg/minikube/service/service.go:376-380 | Deleting a name the store lacks fails retriably and changes nothing. |
| `Secrets.DeleteSecretRemovesOnlyName` | pkg/minikube/service/service.go:376-382 | A successful delete removes that name and nothing else. |

## Left out

- `K8sClientGetter`, `GetClientset` and `GetCoreClient` (service.go:66-98) load the kubeconfig and build a network client. The outcome of getting a client is an input, and the global `K8s` variable is a parameter.
- Host and IP discovery through libmachine (service.go:116-124, 152-160) is a driver call. The IP is an input, and host lookup failures are not modelled.
- The timing, backoff and sleeping of `retry.Expo` (service.go:270) are not modelled. Only its outcome for the given interval and wait is modelled.
- `text/template` execution and `url.Parse` are functions given as parameters.
- `PrintServiceList` (service.go:252-259), the `out.T`/`out.ErrT` messages, `glog` tracing (service.go:230) and `browser.OpenURL` are not run. They appear as actions in the trace.
- `GetServiceListByLabel` and `getServiceListFromServicesByLabel` (service.go:310-326) are left out. The API server does the label filtering, and the code only builds a selector string and wraps errors.
- `pkg/minikube/assets/addons.go` is not part of this model. It is static addon configuration, a walk over the host file system, and build-architecture data.
- The secret client's behaviour is an abstraction of the API server, not part of service.go:
  - get and delete fail on a missing name;
  - create fails on a taken name;
  - a verb in `refused` always fails.
- Secret error texts are placeholders.
- Resolver.Resolve: the source checks the template before any client call. A pure function cannot show call order, so this contract states it as precedence: a missing template fails whatever the fetches answer. `PrintURLsForService` makes no fetch before the check.
- Resolver.ResolveAligned: port numbers are unbounded integers, not `int32`. Ports are only compared and looked up, never computed, so width does not matter.
- Resolver.EndpointIndex: a nil endpoints object is modelled the same as a failed endpoint fetch. Both give the empty index.
- Resolver.IntValOf: a named target port looks up key 0 (the zero `IntVal`), as in the source.
- Error texts are modelled only as far as `errors.Wrap` prefixes. A `RetriableError` carries its cause's text unchanged.
- Secrets.ToBytes: Go strings are byte strings. Here values are Unicode strings encoded as UTF-8, so a Go string holding invalid UTF-8 cannot be represented.
- Concurrency is not modelled. Delete-then-create is not atomic against other writers, and the model is single-threaded.
- The nil versus empty slice distinction is not modelled.
