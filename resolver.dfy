/**
 * Service URL resolution: from a service's declared ports and the live
 * endpoints behind it to one rendered URL and one port name per node port.
 * Also the readiness check that the orchestrator polls.
 */
module Resolver {
  import opened Wrappers
  import opened Errors

  /** A service port's target: a port number or the name of a container port. */
  datatype IntOrString = IntVal(i: int) | StrVal(s: string)

  /** The `IntVal` field of a target port; Go leaves it 0 when the target is a name. */
  function IntValOf(t: IntOrString): int
  {
    match t
    case IntVal(i) => i
    case StrVal(_) => 0
  }

  /** A declared service port; a node port of 0 means "not exposed on the node". */
  datatype ServicePort = ServicePort(name: string, port: int, targetPort: IntOrString, nodePort: int)

  datatype Service = Service(namespace: string, name: string, ports: seq<ServicePort>)

  datatype EndpointPort = EndpointPort(name: string, port: int)

  datatype EndpointSubset = EndpointSubset(ports: seq<EndpointPort>)

  datatype Endpoints = Endpoints(subsets: seq<EndpointSubset>)

  /** The exposure of one service: `urls[i]` is served by the port named `portNames[i]`. */
  datatype SvcURL = SvcURL(namespace: string, name: string, urls: seq<string>, portNames: seq<string>)

  /** A parsed `--format` template: renders (IP, node port, port name) to a URL, or fails. */
  type Template = (string, int, string) -> Result<string, string>

  /**
   * The slice of the cluster's core client that the resolver reads. Each
   * call is given by its answer: get a service, get its endpoints, list the
   * services of a namespace.
   */
  datatype CoreClient = CoreClient(
    getService: (string, string) -> Result<Service, string>,
    getEndpoints: (string, string) -> Result<Endpoints, string>,
    listServices: string -> Result<seq<Service>, string>)

  const NilTemplateMsg := "Error, attempted to generate service url with nil --format template"

  // ---------------------------------------------------------------------
  // Endpoint port index

  /** The endpoint ports of all subsets, subset after subset. */
  function AllPorts(subsets: seq<EndpointSubset>): seq<EndpointPort>
  {
    if subsets == [] then []
    else AllPorts(subsets[..|subsets| - 1]) + subsets[|subsets| - 1].ports
  }

  /** The map that `m[p.Port] = p.Name`, applied to each port in order, builds from an empty map. */
  function PortIndex(ps: seq<EndpointPort>): map<int, string>
  {
    if ps == [] then map[]
    else PortIndex(ps[..|ps| - 1])[ps[|ps| - 1].port := ps[|ps| - 1].name]
  }

  /** The endpoint index of a fetch: empty when the fetch failed. */
  function EndpointIndex(eps: Result<Endpoints, string>): map<int, string>
  {
    if eps.Ok? then PortIndex(AllPorts(eps.value.subsets)) else map[]
  }

  /** Go's `m[k]`: the zero string for a missing key. */
  function Lookup(m: map<int, string>, k: int): string
  {
    if k in m then m[k] else ""
  }

  /** Entry `j` declares port `k` and no later entry does. */
  predicate LastWith(ps: seq<EndpointPort>, k: int, j: int)
    requires 0 <= j < |ps|
  {
    ps[j].port == k && forall j' :: j < j' < |ps| ==> ps[j'].port != k
  }

  /**
   * A port number is indexed exactly when some endpoint port declares it,
   * and it is indexed under the name of the last entry that declares it.
   */
  lemma {:induction false} PortIndexLastWins(ps: seq<EndpointPort>, k: int)
    ensures k in PortIndex(ps) <==> exists j :: 0 <= j < |ps| && ps[j].port == k
    ensures forall j :: 0 <= j < |ps| && LastWith(ps, k, j) ==> k in PortIndex(ps) && PortIndex(ps)[k] == ps[j].name
  {
    if ps != [] {
      var init := ps[..|ps| - 1];
      PortIndexLastWins(init, k);
      forall j | 0 <= j < |ps| && LastWith(ps, k, j)
        ensures k in PortIndex(ps) && PortIndex(ps)[k] == ps[j].name
      {
        if j < |ps| - 1 {
          assert ps[|ps| - 1].port != k;
          assert LastWith(init, k, j);
        }
      }
      if k in PortIndex(ps) && ps[|ps| - 1].port != k {
        var j :| 0 <= j < |init| && init[j].port == k;
        assert ps[j].port == k;
      }
      if exists j :: 0 <= j < |ps| && ps[j].port == k {
        var j :| 0 <= j < |ps| && ps[j].port == k;
        if j < |ps| - 1 {
          assert init[j].port == k;
        }
      }
    }
  }

  /** A failed endpoint fetch leaves every target port unnamed. */
  lemma EndpointFailureNamesNothing(eps: Result<Endpoints, string>, k: int)
    requires eps.Err?
    ensures Lookup(EndpointIndex(eps), k) == ""
  {
  }

  // ---------------------------------------------------------------------
  // Rendering the node ports

  /** The ports that are exposed on the node (node port > 0), in declaration order. */
  function NodePorts(ports: seq<ServicePort>): (r: seq<ServicePort>)
    ensures |r| <= |ports|
    ensures forall p :: p in r <==> p in ports && p.nodePort > 0
  {
    if ports == [] then []
    else
      var last := ports[|ports| - 1];
      NodePorts(ports[..|ports| - 1]) + (if last.nodePort > 0 then [last] else [])
  }

  /** Without a positive node port there is nothing to expose. */
  lemma {:induction false} NodePortsNone(ports: seq<ServicePort>)
    requires forall i :: 0 <= i < |ports| ==> ports[i].nodePort <= 0
    ensures NodePorts(ports) == []
  {
    if ports != [] {
      NodePortsNone(ports[..|ports| - 1]);
    }
  }

  /** The name resolved for a service port: its target port's entry in the endpoint index. */
  function PortName(m: map<int, string>, p: ServicePort): string
  {
    Lookup(m, IntValOf(p.targetPort))
  }

  /**
   * The URLs and port names of the node ports among `ports`, in order, or
   * the first template failure.
   */
  function RenderPorts(t: Template, ip: string, m: map<int, string>, ports: seq<ServicePort>)
    : Result<(seq<string>, seq<string>), string>
  {
    if ports == [] then Ok(([], []))
    else
      var last := ports[|ports| - 1];
      match RenderPorts(t, ip, m, ports[..|ports| - 1])
      case Err(e) => Err(e)
      case Ok(done) =>
        if last.nodePort > 0 then
          match t(ip, last.nodePort, PortName(m, last))
          case Err(e) => Err(e)
          case Ok(u) => Ok((done.0 + [u], done.1 + [PortName(m, last)]))
        else Ok(done)
  }

  /** Every node port among `ports` renders. */
  predicate AllRender(t: Template, ip: string, m: map<int, string>, ports: seq<ServicePort>)
  {
    var q := NodePorts(ports);
    forall i :: 0 <= i < |q| ==> t(ip, q[i].nodePort, PortName(m, q[i])).Ok?
  }

  /**
   * Rendering succeeds exactly when every node port renders; the URLs and the
   * names then line up one to one with the node ports, in declaration order.
   */
  lemma {:induction false} RenderPortsAligned(t: Template, ip: string, m: map<int, string>, ports: seq<ServicePort>)
    ensures RenderPorts(t, ip, m, ports).Ok? <==> AllRender(t, ip, m, ports)
    ensures RenderPorts(t, ip, m, ports).Ok? ==>
      var r := RenderPorts(t, ip, m, ports).value;
      var q := NodePorts(ports);
      && |r.0| == |q| && |r.1| == |q|
      && forall i :: 0 <= i < |q| ==>
           r.1[i] == PortName(m, q[i]) && t(ip, q[i].nodePort, r.1[i]) == Ok(r.0[i])
  {
    if ports != [] {
      var init := ports[..|ports| - 1];
      var last := ports[|ports| - 1];
      RenderPortsAligned(t, ip, m, init);
      var qi := NodePorts(init);
      var q := NodePorts(ports);
      assert q[..|qi|] == qi;
      if AllRender(t, ip, m, ports) {
        assert AllRender(t, ip, m, init) by {
          forall i | 0 <= i < |qi| ensures t(ip, qi[i].nodePort, PortName(m, qi[i])).Ok? {
            assert q[i] == qi[i];
          }
        }
        if last.nodePort > 0 {
          assert q[|qi|] == last;
        }
      }
      if RenderPorts(t, ip, m, ports).Ok? {
        assert RenderPorts(t, ip, m, init).Ok?;
        forall i | 0 <= i < |q| ensures t(ip, q[i].nodePort, PortName(m, q[i])).Ok? {
          if i < |qi| {
            assert q[i] == qi[i];
          }
        }
      }
    }
  }

  /** Node port `i` of `q` is the first that does not render, and it fails with `e`. */
  predicate FirstFailureAt(t: Template, ip: string, m: map<int, string>, q: seq<ServicePort>, i: int, e: string)
  {
    && 0 <= i < |q|
    && t(ip, q[i].nodePort, PortName(m, q[i])) == Err(e)
    && forall j :: 0 <= j < i ==> t(ip, q[j].nodePort, PortName(m, q[j])).Ok?
  }

  /**
   * A failed rendering reports the template error of the first node port
   * that does not render.
   */
  lemma {:induction false} RenderPortsFirstFailure(t: Template, ip: string, m: map<int, string>, ports: seq<ServicePort>)
    requires RenderPorts(t, ip, m, ports).Err?
    ensures exists i :: FirstFailureAt(t, ip, m, NodePorts(ports), i, RenderPorts(t, ip, m, ports).error)
  {
    var init := ports[..|ports| - 1];
    var last := ports[|ports| - 1];
    var qi := NodePorts(init);
    var q := NodePorts(ports);
    var e := RenderPorts(t, ip, m, ports).error;
    assert q[..|qi|] == qi;
    if RenderPorts(t, ip, m, init).Err? {
      RenderPortsFirstFailure(t, ip, m, init);
      var i :| FirstFailureAt(t, ip, m, qi, i, e);
      assert FirstFailureAt(t, ip, m, q, i, e) by {
        assert q[i] == qi[i];
        forall j | 0 <= j < i ensures t(ip, q[j].nodePort, PortName(m, q[j])).Ok? {
          assert q[j] == qi[j];
        }
      }
    } else {
      RenderPortsAligned(t, ip, m, init);
      assert last.nodePort > 0;
      assert q == qi + [last];
      assert FirstFailureAt(t, ip, m, q, |qi|, e) by {
        forall j | 0 <= j < |qi| ensures t(ip, q[j].nodePort, PortName(m, q[j])).Ok? {
          assert q[j] == qi[j];
        }
      }
    }
  }

  /** Once a prefix of the ports fails to render, the whole rendering fails with that error. */
  lemma {:induction false} RenderPortsErrSticks(t: Template, ip: string, m: map<int, string>, ports: seq<ServicePort>, n: nat)
    requires n <= |ports|
    requires RenderPorts(t, ip, m, ports[..n]).Err?
    ensures RenderPorts(t, ip, m, ports) == RenderPorts(t, ip, m, ports[..n])
    decreases |ports| - n
  {
    if n < |ports| {
      assert ports[..n + 1][..n] == ports[..n];
      RenderPortsErrSticks(t, ip, m, ports, n + 1);
    } else {
      assert ports[..n] == ports;
    }
  }

  // ---------------------------------------------------------------------
  // Resolution of one service

  /**
   * What resolving a service yields, given the template and the answers of
   * the service and endpoint fetches. The template is checked first, then
   * the service fetch, then each rendering; the endpoint fetch never fails
   * the resolution. Every failure is final.
   */
  function Resolve(tmpl: Option<Template>, ip: string, service: string,
                   svc: Result<Service, string>, eps: Result<Endpoints, string>): (r: Result<SvcURL, Error>)
    ensures r.Err? ==> r.error.Fatal?
    ensures tmpl.None? ==> r == Err(Fatal(NilTemplateMsg))
    ensures tmpl.Some? && svc.Err? ==> r.Err?
    ensures r.Ok? ==> r.value.namespace == svc.value.namespace && r.value.name == svc.value.name
  {
    if tmpl.None? then Err(Fatal(NilTemplateMsg))
    else if svc.Err? then Err(Fatal("service '" + service + "' could not be found running: " + svc.error))
    else
      match RenderPorts(tmpl.value, ip, EndpointIndex(eps), svc.value.ports)
      case Err(e) => Err(Fatal(e))
      case Ok(r) => Ok(SvcURL(svc.value.namespace, svc.value.name, r.0, r.1))
  }

  /**
   * The resolution property: a successful resolution holds one URL and one
   * port name per node port of the service, in declaration order; the name
   * is the endpoint index entry of the port's target, the URL the template
   * rendered from the IP, the node port and that same name.
   */
  lemma ResolveAligned(tmpl: Option<Template>, ip: string, service: string,
                       svc: Result<Service, string>, eps: Result<Endpoints, string>)
    requires Resolve(tmpl, ip, service, svc, eps).Ok?
    ensures var u := Resolve(tmpl, ip, service, svc, eps).value;
      var q := NodePorts(svc.value.ports);
      var m := EndpointIndex(eps);
      && |u.urls| == |q| && |u.portNames| == |q|
      && forall i :: 0 <= i < |q| ==>
           u.portNames[i] == Lookup(m, IntValOf(q[i].targetPort))
           && tmpl.value(ip, q[i].nodePort, u.portNames[i]) == Ok(u.urls[i])
  {
    RenderPortsAligned(tmpl.value, ip, EndpointIndex(eps), svc.value.ports);
  }

  /**
   * With a template and a fetched service, resolution fails exactly when
   * some node port does not render under the endpoint index. A failed
   * endpoint fetch is not itself an error; it only leaves every name empty.
   */
  lemma ResolveFailsOnlyOnRender(t: Template, ip: string, service: string,
                                 svc: Service, eps: Result<Endpoints, string>)
    ensures Resolve(Some(t), ip, service, Ok(svc), eps).Ok? <==> AllRender(t, ip, EndpointIndex(eps), svc.ports)
  {
    RenderPortsAligned(t, ip, EndpointIndex(eps), svc.ports);
  }

  /** A service with no node port resolves to an empty, successful exposure. */
  lemma {:induction false} NoNodePortResolvesEmpty(t: Template, ip: string, service: string,
                                                  svc: Service, eps: Result<Endpoints, string>)
    requires forall i :: 0 <= i < |svc.ports| ==> svc.ports[i].nodePort <= 0
    ensures var r := Resolve(Some(t), ip, service, Ok(svc), eps);
      r.Ok? && r.value.urls == [] && r.value.portNames == []
  {
    NodePortsNone(svc.ports);
    RenderPortsAligned(t, ip, EndpointIndex(eps), svc.ports);
  }

  /** Indexing one more endpoint port updates the index at that port. */
  lemma PortIndexSnoc(ps: seq<EndpointPort>, p: EndpointPort)
    ensures PortIndex(ps + [p]) == PortIndex(ps)[p.port := p.name]
  {
    assert (ps + [p])[..|ps|] == ps;
  }

  /** The ports of one more subset come after those of the subsets before it. */
  lemma AllPortsSnoc(subsets: seq<EndpointSubset>, i: nat)
    requires i < |subsets|
    ensures AllPorts(subsets[..i + 1]) == AllPorts(subsets[..i]) + subsets[i].ports
  {
    assert subsets[..i + 1][..i] == subsets[..i];
  }

  /**
   * The nested loop of `printURLsForService` that fills the endpoint index:
   * for every subset, for every port, `m[p.Port] = p.Name`.
   */
  method IndexEndpointPorts(subsets: seq<EndpointSubset>) returns (m: map<int, string>)
    ensures m == PortIndex(AllPorts(subsets))
  {
    m := map[];
    var i := 0;
    while i < |subsets|
      invariant 0 <= i <= |subsets|
      invariant m == PortIndex(AllPorts(subsets[..i]))
    {
      var ps := subsets[i].ports;
      ghost var before := AllPorts(subsets[..i]);
      var j := 0;
      assert before + ps[..0] == before;
      while j < |ps|
        invariant 0 <= j <= |ps|
        invariant m == PortIndex(before + ps[..j])
      {
        PortIndexSnoc(before + ps[..j], ps[j]);
        assert before + ps[..j + 1] == (before + ps[..j]) + [ps[j]];
        m := m[ps[j].port := ps[j].name];
        j := j + 1;
      }
      assert ps[..j] == ps;
      AllPortsSnoc(subsets, i);
      i := i + 1;
    }
    assert subsets[..i] == subsets;
  }

  /**
   * `printURLsForService`: fetch the service, index its endpoint ports, then
   * render one URL per node port.
   */
  method PrintURLsForService(c: CoreClient, ip: string, service: string, namespace: string, tmpl: Option<Template>)
    returns (r: Result<SvcURL, Error>)
    ensures r == Resolve(tmpl, ip, service, c.getService(namespace, service), c.getEndpoints(namespace, service))
  {
    if tmpl.None? {
      return Err(Fatal(NilTemplateMsg));
    }
    var t := tmpl.value;
    var svc := c.getService(namespace, service);
    if svc.Err? {
      return Err(Fatal("service '" + service + "' could not be found running: " + svc.error));
    }

    var endpoints := c.getEndpoints(namespace, service);
    var m: map<int, string> := map[];
    if endpoints.Ok? && |endpoints.value.subsets| > 0 {
      m := IndexEndpointPorts(endpoints.value.subsets);
    }
    assert m == EndpointIndex(endpoints);

    var urls: seq<string> := [];
    var portNames: seq<string> := [];
    var ports := svc.value.ports;
    var k := 0;
    while k < |ports|
      invariant 0 <= k <= |ports|
      invariant RenderPorts(t, ip, m, ports[..k]) == Ok((urls, portNames))
    {
      var port := ports[k];
      assert ports[..k + 1][..k] == ports[..k];
      if port.nodePort > 0 {
        var name := Lookup(m, IntValOf(port.targetPort));
        var doc := t(ip, port.nodePort, name);
        if doc.Err? {
          RenderPortsErrSticks(t, ip, m, ports, k + 1);
          return Err(Fatal(doc.error));
        }
        urls := urls + [doc.value];
        portNames := portNames + [name];
      }
      k := k + 1;
    }
    assert ports[..k] == ports;
    r := Ok(SvcURL(svc.value.namespace, svc.value.name, urls, portNames));
  }

  // ---------------------------------------------------------------------
  // Every service of a namespace

  /** The resolution of a listed service, looked up under its own namespace and name. */
  function ResolveListed(c: CoreClient, ip: string, tmpl: Option<Template>, s: Service): Result<SvcURL, Error>
  {
    Resolve(tmpl, ip, s.name, c.getService(s.namespace, s.name), c.getEndpoints(s.namespace, s.name))
  }

  /** The exposures of the listed services in list order, or the first failure. */
  function ResolveAll(c: CoreClient, ip: string, tmpl: Option<Template>, items: seq<Service>)
    : Result<seq<SvcURL>, Error>
  {
    if items == [] then Ok([])
    else
      match ResolveAll(c, ip, tmpl, items[..|items| - 1])
      case Err(e) => Err(e)
      case Ok(done) =>
        match ResolveListed(c, ip, tmpl, items[|items| - 1])
        case Err(e) => Err(e)
        case Ok(u) => Ok(done + [u])
  }

  /** What `GetServiceURLs` returns once the node's IP is known. */
  function ServiceURLs(client: Result<CoreClient, string>, ip: string, namespace: string, tmpl: Option<Template>)
    : Result<seq<SvcURL>, Error>
  {
    if client.Err? then Err(Fatal(client.error))
    else
      match client.value.listServices(namespace)
      case Err(e) => Err(Fatal(e))
      case Ok(items) => ResolveAll(client.value, ip, tmpl, items)
  }

  /** Listed service `i` is the first whose resolution fails, and it fails with `e`. */
  predicate FirstServiceFailure(c: CoreClient, ip: string, tmpl: Option<Template>, items: seq<Service>, i: int, e: Error)
  {
    && 0 <= i < |items|
    && ResolveListed(c, ip, tmpl, items[i]) == Err(e)
    && forall j :: 0 <= j < i ==> ResolveListed(c, ip, tmpl, items[j]).Ok?
  }

  /**
   * Resolving a list yields one exposure per listed service, in list order,
   * each the resolution of that service; otherwise it fails with the error
   * of the first service that does not resolve.
   */
  lemma {:induction false} ResolveAllPerService(c: CoreClient, ip: string, tmpl: Option<Template>, items: seq<Service>)
    ensures var r := ResolveAll(c, ip, tmpl, items);
      && (r.Ok? <==> forall i :: 0 <= i < |items| ==> ResolveListed(c, ip, tmpl, items[i]).Ok?)
      && (r.Ok? ==> |r.value| == |items|
                    && forall i :: 0 <= i < |items| ==> r.value[i] == ResolveListed(c, ip, tmpl, items[i]).value)
      && (r.Err? ==> exists i :: FirstServiceFailure(c, ip, tmpl, items, i, r.error))
  {
    if items != [] {
      var init := items[..|items| - 1];
      var n := |init|;
      ResolveAllPerService(c, ip, tmpl, init);
      var ri := ResolveAll(c, ip, tmpl, init);
      if ri.Err? {
        var i :| FirstServiceFailure(c, ip, tmpl, init, i, ri.error);
        assert FirstServiceFailure(c, ip, tmpl, items, i, ri.error) by {
          assert items[i] == init[i];
          forall j | 0 <= j < i ensures ResolveListed(c, ip, tmpl, items[j]).Ok? {
            assert items[j] == init[j];
          }
        }
      } else {
        forall j | 0 <= j < n ensures ResolveListed(c, ip, tmpl, items[j]).Ok? {
          assert items[j] == init[j];
        }
        if ResolveListed(c, ip, tmpl, items[n]).Err? {
          assert FirstServiceFailure(c, ip, tmpl, items, n, ResolveListed(c, ip, tmpl, items[n]).error);
        }
      }
    }
  }

  /** `GetServiceURLs`: list the namespace's services, then resolve each in turn. */
  method GetServiceURLs(client: Result<CoreClient, string>, ip: string, namespace: string, tmpl: Option<Template>)
    returns (r: Result<seq<SvcURL>, Error>)
    ensures r == ServiceURLs(client, ip, namespace, tmpl)
  {
    if client.Err? {
      return Err(Fatal(client.error));
    }
    var c := client.value;
    var svcs := c.listServices(namespace);
    if svcs.Err? {
      return Err(Fatal(svcs.error));
    }
    var items := svcs.value;
    var serviceURLs: seq<SvcURL> := [];
    var i := 0;
    while i < |items|
      invariant 0 <= i <= |items|
      invariant ResolveAll(c, ip, tmpl, items[..i]) == Ok(serviceURLs)
    {
      assert items[..i + 1][..i] == items[..i];
      var svcURL := PrintURLsForService(c, ip, items[i].name, items[i].namespace, tmpl);
      if svcURL.Err? {
        ResolveAllErrSticks(c, ip, tmpl, items, i + 1);
        return Err(svcURL.error);
      }
      serviceURLs := serviceURLs + [svcURL.value];
      i := i + 1;
    }
    assert items[..i] == items;
    r := Ok(serviceURLs);
  }

  /** Once a prefix of the list fails to resolve, the whole list fails with that error. */
  lemma {:induction false} ResolveAllErrSticks(c: CoreClient, ip: string, tmpl: Option<Template>, items: seq<Service>, n: nat)
    requires n <= |items|
    requires ResolveAll(c, ip, tmpl, items[..n]).Err?
    ensures ResolveAll(c, ip, tmpl, items) == ResolveAll(c, ip, tmpl, items[..n])
    decreases |items| - n
  {
    if n < |items| {
      assert items[..n + 1][..n] == items[..n];
      ResolveAllErrSticks(c, ip, tmpl, items, n + 1);
    } else {
      assert items[..n] == items;
    }
  }

  /** `GetServiceURLsForService` once the node's IP is known: get a client, then resolve. */
  function ServiceURLsForService(client: Result<CoreClient, string>, ip: string, namespace: string,
                                 service: string, tmpl: Option<Template>): (r: Result<SvcURL, Error>)
    ensures r.Err? ==> r.error.Fatal?
  {
    if client.Err? then Err(Fatal(client.error))
    else Resolve(tmpl, ip, service, client.value.getService(namespace, service),
                 client.value.getEndpoints(namespace, service))
  }

  // ---------------------------------------------------------------------
  // Readiness

  /**
   * `CheckService`: a service that cannot be fetched is worth another try; a
   * service that has no ports, or a missing client, is a final failure; a
   * service with at least one port is ready.
   */
  function CheckService(client: Result<CoreClient, string>, namespace: string, service: string): (r: Option<Error>)
    ensures r.None? <==> client.Ok? && client.value.getService(namespace, service).Ok?
                         && |client.value.getService(namespace, service).value.ports| > 0
    ensures (r.Some? && r.value.Retriable?) <==> client.Ok? && client.value.getService(namespace, service).Err?
  {
    if client.Err? then Some(Fatal("Error getting kubernetes client: " + client.error))
    else
      match client.value.getService(namespace, service)
      case Err(e) => Some(Retriable("Error getting service " + service + ": " + e))
      case Ok(svc) =>
        if |svc.ports| == 0 then Some(Fatal(namespace + ":" + service + " has no ports"))
        else None
  }

  /**
   * A ready service resolves without the "could not be found" failure: with a
   * template, the only way its resolution can still fail is a rendering.
   */
  lemma ReadyServiceResolves(c: CoreClient, ip: string, namespace: string, service: string, t: Template)
    requires CheckService(Ok(c), namespace, service).None?
    requires AllRender(t, ip, EndpointIndex(c.getEndpoints(namespace, service)), c.getService(namespace, service).value.ports)
    ensures ServiceURLsForService(Ok(c), ip, namespace, service, Some(t)).Ok?
  {
    ResolveFailsOnlyOnRender(t, ip, service, c.getService(namespace, service).value, c.getEndpoints(namespace, service));
  }
}
