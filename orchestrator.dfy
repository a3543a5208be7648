/**
 * `WaitAndMaybeOpenService`: wait until the service is ready, resolve its
 * URLs, report them as a table, then print each URL or open it in a
 * browser. Printing, the browser and the calls into the retry loop and the
 * resolver are recorded as actions of a trace.
 */
module Orchestrator {
  import opened Wrappers
  import opened Errors
  import opened Resolver
  import opened Https

  /** What the orchestrator does, in the order it does it. */
  datatype Action =
    | Poll(interval: int, wait: int)                  // retry.Expo(CheckService, interval s, wait s)
    | ResolveURLs(namespace: string, service: string) // GetServiceURLsForService
    | PrintTable(rows: seq<seq<string>>)              // PrintServiceList to standard output
    | NoNodePortNotice(namespace: string, service: string)
    | PrintURL(url: string)
    | OpeningNotice(namespace: string, service: string)
    | OpenInBrowser(url: string)
    | BrowserFailed(error: string)

  datatype Outcome = Outcome(trace: seq<Action>, err: Option<Error>)

  /** The outcome of the retry loop around `CheckService`, given its interval and wait budget in seconds. */
  type Poller = (int, int) -> Option<Error>

  /** The browser launcher: None when the URL opened, otherwise the error. */
  type Browser = string -> Option<string>

  const PollFailurePrefix := "Could not find finalized endpoint being pointed to by "
  const ResolveFailurePrefix := "Check that minikube is running and that you have specified the correct namespace"

  /** `strings.Join(parts, sep)`. */
  function Join(parts: seq<string>, sep: string): string
  {
    if parts == [] then ""
    else if |parts| == 1 then parts[0]
    else Join(parts[..|parts| - 1], sep) + sep + parts[|parts| - 1]
  }

  /** The one table row reported for the service. */
  function TableRow(namespace: string, service: string, u: SvcURL): seq<string>
  {
    if |u.urls| == 0 then [namespace, service, "", "No node port"]
    else [namespace, service, Join(u.portNames, "\n"), Join(u.urls, "\n")]
  }

  /** Whether a URL is printed (and not opened): in URL mode, or when it is not plain HTTP. */
  predicate Prints(url: string, urlMode: bool, schemeOf: SchemeParser)
  {
    urlMode || !IsHTTPSchemed(url, schemeOf)
  }

  /** The actions taken for one URL. */
  function URLAction(namespace: string, service: string, url: string, urlMode: bool, https: bool,
                     open: Browser, schemeOf: SchemeParser): seq<Action>
  {
    var (urlString, isHTTPSchemedURL) := OptionallyHTTPSFormattedURLString(url, https, schemeOf);
    if urlMode || !isHTTPSchemedURL then [PrintURL(urlString)]
    else
      [OpeningNotice(namespace, service), OpenInBrowser(urlString)]
      + match open(urlString) case None => [] case Some(e) => [BrowserFailed(e)]
  }

  /** The actions taken for each URL in turn. */
  function URLActions(namespace: string, service: string, urls: seq<string>, urlMode: bool, https: bool,
                      open: Browser, schemeOf: SchemeParser): seq<Action>
  {
    if urls == [] then []
    else URLActions(namespace, service, urls[..|urls| - 1], urlMode, https, open, schemeOf)
         + URLAction(namespace, service, urls[|urls| - 1], urlMode, https, open, schemeOf)
  }

  /** The interval handed to the retry loop: 0 means 1 second. */
  function NormalInterval(interval: int): int
  {
    if interval == 0 then 1 else interval
  }

  /**
   * The whole run. Only a failed wait or a failed resolution is an error; a
   * browser that fails to open a URL is reported in the trace and the run
   * still succeeds.
   */
  function Run(namespace: string, service: string, urlMode: bool, https: bool, wait: int, interval: int,
               poll: Poller, client: Result<CoreClient, string>, ip: string, tmpl: Option<Template>,
               open: Browser, schemeOf: SchemeParser): (r: Outcome)
    ensures |r.trace| > 0 && r.trace[0] == Poll(if interval == 0 then 1 else interval, wait)
    ensures r.err.None? <==>
      poll(NormalInterval(interval), wait).None? && ServiceURLsForService(client, ip, namespace, service, tmpl).Ok?
  {
    var iv := NormalInterval(interval);
    var polled := [Poll(iv, wait)];
    match poll(iv, wait)
    case Some(e) => Outcome(polled, Some(Wrap(e, PollFailurePrefix + service)))
    case None =>
      var asked := polled + [ResolveURLs(namespace, service)];
      match ServiceURLsForService(client, ip, namespace, service, tmpl)
      case Err(e) => Outcome(asked, Some(Wrap(e, ResolveFailurePrefix)))
      case Ok(u) =>
        var reported := asked + (if urlMode then [] else [PrintTable([TableRow(namespace, service, u)])]);
        if |u.urls| == 0 then Outcome(reported + [NoNodePortNotice(namespace, service)], None)
        else Outcome(reported + URLActions(namespace, service, u.urls, urlMode, https, open, schemeOf), None)
  }

  /**
   * `WaitAndMaybeOpenService`, step by step; it does exactly what `Run`
   * describes.
   */
  method WaitAndMaybeOpenService(namespace: string, service: string, urlMode: bool, https: bool,
                                 wait: int, interval: int, poll: Poller, client: Result<CoreClient, string>,
                                 ip: string, tmpl: Option<Template>, open: Browser, schemeOf: SchemeParser)
    returns (trace: seq<Action>, err: Option<Error>)
    ensures Outcome(trace, err)
      == Run(namespace, service, urlMode, https, wait, interval, poll, client, ip, tmpl, open, schemeOf)
  {
    var iv := interval;
    if iv == 0 {
      iv := 1;
    }
    trace := [Poll(iv, wait)];
    var polled := poll(iv, wait);
    if polled.Some? {
      return trace, Some(Wrap(polled.value, PollFailurePrefix + service));
    }

    trace := trace + [ResolveURLs(namespace, service)];
    var serviceURL := ServiceURLsForService(client, ip, namespace, service, tmpl);
    if serviceURL.Err? {
      return trace, Some(Wrap(serviceURL.error, ResolveFailurePrefix));
    }
    var u := serviceURL.value;

    if !urlMode {
      var data: seq<seq<string>>;
      if |u.urls| == 0 {
        data := [[namespace, service, "", "No node port"]];
      } else {
        data := [[namespace, service, Join(u.portNames, "\n"), Join(u.urls, "\n")]];
      }
      trace := trace + [PrintTable(data)];
    }

    if |u.urls| == 0 {
      return trace + [NoNodePortNotice(namespace, service)], None;
    }

    var actions := OpenOrPrintEach(namespace, service, u.urls, urlMode, https, open, schemeOf);
    trace := trace + actions;
    err := None;
  }

  /** The loop of `WaitAndMaybeOpenService` over the resolved URLs. */
  method OpenOrPrintEach(namespace: string, service: string, urls: seq<string>, urlMode: bool, https: bool,
                         open: Browser, schemeOf: SchemeParser)
    returns (trace: seq<Action>)
    ensures trace == URLActions(namespace, service, urls, urlMode, https, open, schemeOf)
  {
    trace := [];
    var i := 0;
    while i < |urls|
      invariant 0 <= i <= |urls|
      invariant trace == URLActions(namespace, service, urls[..i], urlMode, https, open, schemeOf)
    {
      var bareURLString := urls[i];
      var (urlString, isHTTPSchemedURL) := OptionallyHTTPSFormattedURLString(bareURLString, https, schemeOf);
      if urlMode || !isHTTPSchemedURL {
        trace := trace + [PrintURL(urlString)];
      } else {
        trace := trace + [OpeningNotice(namespace, service), OpenInBrowser(urlString)];
        var openErr := open(urlString);
        if openErr.Some? {
          trace := trace + [BrowserFailed(openErr.value)];
        }
      }
      assert urls[..i + 1][..i] == urls[..i];
      i := i + 1;
    }
    assert urls[..i] == urls;
  }

  // ---------------------------------------------------------------------
  // Properties of a run

  /** An action that prints or opens a URL, as a one-element sequence; otherwise empty. */
  function VisitOf(a: Action): seq<Action>
  {
    if a.PrintURL? || a.OpenInBrowser? then [a] else []
  }

  /** The URLs printed or opened, in the order of the trace. */
  function Visits(trace: seq<Action>): seq<Action>
  {
    if trace == [] then []
    else Visits(trace[..|trace| - 1]) + VisitOf(trace[|trace| - 1])
  }

  lemma VisitsSingle(a: Action)
    ensures Visits([a]) == VisitOf(a)
  {
    assert [a][..0] == [];
  }

  lemma {:induction false} VisitsAppend(a: seq<Action>, b: seq<Action>)
    ensures Visits(a + b) == Visits(a) + Visits(b)
    decreases |b|
  {
    if b == [] {
      assert a + b == a;
    } else {
      var b' := b[..|b| - 1];
      assert (a + b)[..|a + b| - 1] == a + b';
      assert (a + b)[|a + b| - 1] == b[|b| - 1];
      VisitsAppend(a, b');
    }
  }

  /** What happens to one URL: printed as formatted, or opened as formatted. */
  function Visit(url: string, urlMode: bool, https: bool, schemeOf: SchemeParser): Action
  {
    var formatted := OptionallyHTTPSFormattedURLString(url, https, schemeOf).0;
    if Prints(url, urlMode, schemeOf) then PrintURL(formatted) else OpenInBrowser(formatted)
  }

  /** The actions for one URL visit it once, however the browser answers. */
  lemma URLActionVisitsOnce(namespace: string, service: string, url: string, urlMode: bool, https: bool,
                            open: Browser, schemeOf: SchemeParser)
    ensures Visits(URLAction(namespace, service, url, urlMode, https, open, schemeOf)) == [Visit(url, urlMode, https, schemeOf)]
  {
    var formatted := OptionallyHTTPSFormattedURLString(url, https, schemeOf).0;
    if Prints(url, urlMode, schemeOf) {
      VisitsSingle(PrintURL(formatted));
    } else {
      var tail := match open(formatted) case None => [] case Some(e) => [BrowserFailed(e)];
      VisitsAppend([OpeningNotice(namespace, service)], [OpenInBrowser(formatted)]);
      VisitsSingle(OpeningNotice(namespace, service));
      VisitsSingle(OpenInBrowser(formatted));
      assert [OpeningNotice(namespace, service)] + [OpenInBrowser(formatted)]
          == [OpeningNotice(namespace, service), OpenInBrowser(formatted)];
      VisitsAppend([OpeningNotice(namespace, service), OpenInBrowser(formatted)], tail);
      if tail != [] {
        VisitsSingle(tail[0]);
        assert tail == [tail[0]];
      }
    }
  }

  /**
   * Each URL is handled exactly once, in order: printed when in URL mode or
   * when it is not plain HTTP, otherwise opened in the browser, whatever the
   * browser answers.
   */
  lemma {:induction false} URLActionsVisitEachURL(namespace: string, service: string, urls: seq<string>, urlMode: bool,
                                                  https: bool, open: Browser, schemeOf: SchemeParser)
    ensures var v := Visits(URLActions(namespace, service, urls, urlMode, https, open, schemeOf));
      |v| == |urls| && forall i :: 0 <= i < |urls| ==> v[i] == Visit(urls[i], urlMode, https, schemeOf)
  {
    if urls != [] {
      var init := urls[..|urls| - 1];
      var last := urls[|urls| - 1];
      var before := URLActions(namespace, service, init, urlMode, https, open, schemeOf);
      var block := URLAction(namespace, service, last, urlMode, https, open, schemeOf);
      URLActionsVisitEachURL(namespace, service, init, urlMode, https, open, schemeOf);
      VisitsAppend(before, block);
      URLActionVisitsOnce(namespace, service, last, urlMode, https, open, schemeOf);
      var v := Visits(before + block);
      var vi := Visits(before);
      assert v == vi + [Visit(last, urlMode, https, schemeOf)];
      forall i | 0 <= i < |urls| ensures v[i] == Visit(urls[i], urlMode, https, schemeOf) {
        if i < |init| {
          assert urls[i] == init[i];
          assert v[i] == vi[i];
        } else {
          assert i == |vi|;
          assert urls[i] == last;
          assert v[i] == Visit(last, urlMode, https, schemeOf);
        }
      }
    }
  }

  /** The actions before the per-URL ones print no URL and open none. */
  lemma ReportedVisitsNothing(namespace: string, service: string, iv: int, wait: int,
                              urlMode: bool, data: seq<seq<string>>)
    ensures Visits([Poll(iv, wait), ResolveURLs(namespace, service)]
                   + (if urlMode then [] else [PrintTable(data)])) == []
  {
    var pre := [Poll(iv, wait), ResolveURLs(namespace, service)];
    VisitsSingle(Poll(iv, wait));
    VisitsSingle(ResolveURLs(namespace, service));
    VisitsAppend([Poll(iv, wait)], [ResolveURLs(namespace, service)]);
    assert [Poll(iv, wait)] + [ResolveURLs(namespace, service)] == pre;
    var rows := if urlMode then [] else [PrintTable(data)];
    VisitsAppend(pre, rows);
    if !urlMode {
      VisitsSingle(PrintTable(data));
    } else {
      assert pre + rows == pre;
    }
  }

  /**
   * After a successful wait and resolution, the URLs visited are exactly the
   * resolved URLs, one each, in order; none when the service has no node port.
   */
  lemma {:induction false} RunVisitsEachURL(namespace: string, service: string, urlMode: bool, https: bool,
                                            wait: int, interval: int, poll: Poller,
                                            client: Result<CoreClient, string>, ip: string, tmpl: Option<Template>,
                                            open: Browser, schemeOf: SchemeParser)
    requires poll(NormalInterval(interval), wait).None?
    requires ServiceURLsForService(client, ip, namespace, service, tmpl).Ok?
    ensures var urls := ServiceURLsForService(client, ip, namespace, service, tmpl).value.urls;
      var v := Visits(Run(namespace, service, urlMode, https, wait, interval, poll, client, ip, tmpl, open, schemeOf).trace);
      |v| == |urls| && forall i :: 0 <= i < |urls| ==> v[i] == Visit(urls[i], urlMode, https, schemeOf)
  {
    var u := ServiceURLsForService(client, ip, namespace, service, tmpl).value;
    var iv := NormalInterval(interval);
    var rows := if urlMode then [] else [PrintTable([TableRow(namespace, service, u)])];
    var reported := [Poll(iv, wait)] + [ResolveURLs(namespace, service)] + rows;
    var tail := if |u.urls| == 0 then [NoNodePortNotice(namespace, service)]
                else URLActions(namespace, service, u.urls, urlMode, https, open, schemeOf);
    var r := Run(namespace, service, urlMode, https, wait, interval, poll, client, ip, tmpl, open, schemeOf);
    assert r.trace == reported + tail;
    assert reported == [Poll(iv, wait), ResolveURLs(namespace, service)] + rows;
    ReportedVisitsNothing(namespace, service, iv, wait, urlMode, [TableRow(namespace, service, u)]);
    VisitsAppend(reported, tail);
    assert Visits(r.trace) == Visits(tail);
    if |u.urls| == 0 {
      VisitsSingle(NoNodePortNotice(namespace, service));
    } else {
      URLActionsVisitEachURL(namespace, service, u.urls, urlMode, https, open, schemeOf);
    }
  }

  /** A failed wait ends the run: nothing is resolved, printed or opened. */
  lemma PollFailureStops(namespace: string, service: string, urlMode: bool, https: bool, wait: int, interval: int,
                         poll: Poller, client: Result<CoreClient, string>, ip: string, tmpl: Option<Template>,
                         open: Browser, schemeOf: SchemeParser)
    requires poll(NormalInterval(interval), wait).Some?
    ensures var r := Run(namespace, service, urlMode, https, wait, interval, poll, client, ip, tmpl, open, schemeOf);
      r.trace == [Poll(NormalInterval(interval), wait)]
      && r.err == Some(Wrap(poll(NormalInterval(interval), wait).value, PollFailurePrefix + service))
  {
  }

  /**
   * A ready service without node ports: the run succeeds, the table row (in
   * table mode) reads "No node port", the notice is the last action, and no
   * URL is printed or opened.
   */
  lemma NoNodePortRun(namespace: string, service: string, urlMode: bool, https: bool, wait: int, interval: int,
                      poll: Poller, c: CoreClient, ip: string, t: Template, open: Browser, schemeOf: SchemeParser)
    requires poll(NormalInterval(interval), wait).None?
    requires c.getService(namespace, service).Ok?
    requires var ports := c.getService(namespace, service).value.ports;
      forall i :: 0 <= i < |ports| ==> ports[i].nodePort <= 0
    ensures var r := Run(namespace, service, urlMode, https, wait, interval, poll, Ok(c), ip, Some(t), open, schemeOf);
      && r.err.None?
      && r.trace[|r.trace| - 1] == NoNodePortNotice(namespace, service)
      && (!urlMode ==> PrintTable([[namespace, service, "", "No node port"]]) in r.trace)
      && Visits(r.trace) == []
  {
    NoNodePortResolvesEmpty(t, ip, service, c.getService(namespace, service).value, c.getEndpoints(namespace, service));
    RunVisitsEachURL(namespace, service, urlMode, https, wait, interval, poll, Ok(c), ip, Some(t), open, schemeOf);
  }

  /**
   * In table mode, a service with node ports is reported as one row: the
   * namespace, the name, the port names and the URLs, each list joined by
   * newlines.
   */
  lemma TableModeRow(namespace: string, service: string, https: bool, wait: int, interval: int,
                     poll: Poller, client: Result<CoreClient, string>, ip: string, tmpl: Option<Template>,
                     open: Browser, schemeOf: SchemeParser)
    requires poll(NormalInterval(interval), wait).None?
    requires ServiceURLsForService(client, ip, namespace, service, tmpl).Ok?
    requires |ServiceURLsForService(client, ip, namespace, service, tmpl).value.urls| > 0
    ensures var u := ServiceURLsForService(client, ip, namespace, service, tmpl).value;
      var r := Run(namespace, service, false, https, wait, interval, poll, client, ip, tmpl, open, schemeOf);
      r.trace[2] == PrintTable([[namespace, service, Join(u.portNames, "\n"), Join(u.urls, "\n")]])
  {
  }

  /** The browser's answers change the trace but never the result. */
  lemma BrowserNeverFails(namespace: string, service: string, urlMode: bool, https: bool, wait: int, interval: int,
                          poll: Poller, client: Result<CoreClient, string>, ip: string, tmpl: Option<Template>,
                          open1: Browser, open2: Browser, schemeOf: SchemeParser)
    ensures Run(namespace, service, urlMode, https, wait, interval, poll, client, ip, tmpl, open1, schemeOf).err
         == Run(namespace, service, urlMode, https, wait, interval, poll, client, ip, tmpl, open2, schemeOf).err
  {
  }
}
