/** The filtering proxy of a page: where it connects, and which rejection it remembers. */
module Proxy {
  import opened Outcomes
  import opened Cidr
  import opened Protocol
  import opened ResourcePolicy

  // -------------------------------------------------------------------------
  // Remembering rejections
  // -------------------------------------------------------------------------

  class RejectedResourceTracker {
    var rejected: Option<string>
    var page: Option<Origin>

    constructor ()
      ensures rejected == None && page == None
    {
      rejected, page := None, None;
    }

    method SetPageUrl(origin: Origin)
      modifies this
      ensures page == Some(origin) && rejected == old(rejected)
    {
      page := Some(origin);
    }

    /** Whether a Referer or Origin header names the page's origin. */
    method BelongsToPage(referer: Option<Origin>, origin: Option<Origin>) returns (r: bool)
      ensures r == OfPage(page, referer, origin)
    {
      if page.None? {
        return false;
      }
      r := (referer.Some? && SameOrigin(referer.value, page.value)) || (origin.Some? && SameOrigin(origin.value, page.value));
    }

    /** Keeps the first rejection of the page. */
    method Record(resource: string, belongsToPage: bool)
      modifies this
      ensures page == old(page) && rejected == AfterRecord(old(rejected), resource, belongsToPage)
    {
      if !belongsToPage {
        return;
      }
      if rejected.None? {
        rejected := Some(resource);
      }
    }

    method Clear()
      modifies this
      ensures page == old(page) && rejected == None
    {
      rejected := None;
    }
  }

  predicate OfPage(page: Option<Origin>, referer: Option<Origin>, origin: Option<Origin>) {
    page.Some? && ((referer.Some? && SameOrigin(referer.value, page.value)) || (origin.Some? && SameOrigin(origin.value, page.value)))
  }

  function AfterRecord(rejected: Option<string>, resource: string, belongsToPage: bool): Option<string> {
    if belongsToPage && rejected.None? then Some(resource) else rejected
  }

  datatype Event = Rejection(resource: string, belongsToPage: bool) | Cleared

  function AfterEvents(events: seq<Event>): Option<string> {
    if events == [] then None
    else
      var before := AfterEvents(events[..|events| - 1]);
      match events[|events| - 1]
      case Rejection(resource, belongsToPage) => AfterRecord(before, resource, belongsToPage)
      case Cleared => None
  }

  predicate Attributed(e: Event) {
    e.Rejection? && e.belongsToPage
  }

  /** Event `k` is the first rejection of the page since the last clearing. */
  ghost predicate FirstSinceClear(events: seq<Event>, k: nat) {
    && k < |events| && Attributed(events[k])
    && (forall m :: k < m < |events| ==> !events[m].Cleared?)
    && forall m :: 0 <= m < k && Attributed(events[m]) ==> exists c :: m < c < k && events[c].Cleared?
  }

  /** No rejection of the page since the last clearing. */
  ghost predicate NoneSinceClear(events: seq<Event>) {
    forall m :: 0 <= m < |events| && Attributed(events[m]) ==> exists c :: m < c < |events| && events[c].Cleared?
  }

  /** After any history the remembered rejection is the page's first one since the last clearing. */
  lemma {:induction false} RememberedIsFirst(events: seq<Event>)
    ensures AfterEvents(events).None? ==> NoneSinceClear(events)
    ensures AfterEvents(events).Some? ==> exists k: nat :: FirstSinceClear(events, k) && AfterEvents(events).value == events[k].resource
  {
    if events != [] {
      var n := |events| - 1;
      var shorter, last := events[..n], events[n];
      RememberedIsFirst(shorter);
      if last.Cleared? {
        assert forall m :: 0 <= m < |events| && Attributed(events[m]) ==> m < n && events[n].Cleared?;
      } else if AfterEvents(shorter).Some? {
        var k: nat :| FirstSinceClear(shorter, k) && AfterEvents(shorter).value == shorter[k].resource;
        EarlierStays(events, k);
      } else {
        NoneBefore(events);
        if last.belongsToPage { assert FirstSinceClear(events, n); }
      }
    }
  }

  lemma EarlierStays(events: seq<Event>, k: nat)
    requires events != [] && !events[|events| - 1].Cleared? && FirstSinceClear(events[..|events| - 1], k)
    ensures FirstSinceClear(events, k)
  {
    var shorter := events[..|events| - 1];
    forall m | 0 <= m < k && Attributed(events[m]) ensures exists c :: m < c < k && events[c].Cleared? {
      assert Attributed(shorter[m]);
      var c :| m < c < k && shorter[c].Cleared?;
      assert events[c].Cleared?;
    }
  }

  lemma NoneBefore(events: seq<Event>)
    requires events != [] && NoneSinceClear(events[..|events| - 1])
    ensures forall m :: 0 <= m < |events| - 1 && Attributed(events[m]) ==> exists c :: m < c < |events| - 1 && events[c].Cleared?
  {
    var shorter := events[..|events| - 1];
    forall m | 0 <= m < |events| - 1 && Attributed(events[m]) ensures exists c :: m < c < |events| - 1 && events[c].Cleared? {
      assert Attributed(shorter[m]);
      var c :| m < c < |shorter| && shorter[c].Cleared?;
      assert events[c].Cleared?;
    }
  }

  // -------------------------------------------------------------------------
  // Requests
  // -------------------------------------------------------------------------

  /** The parts of a request that the proxy looks at. */
  datatype Request = Request(
    isConnect: bool,
    absolute: Option<string>,
    authority: Option<string>,
    hostHeader: Option<string>,
    path: string,
    query: Option<string>,
    referer: Option<Origin>,
    origin: Option<Origin>)

  datatype ProxyError = InvalidRequest | BlockedResource(resource: string) | ConnectFailed | ExchangeFailed

  /** How far an approved request gets: to a connection, to a request in origin form with a host, to an answer. */
  datatype Exchange = NotConnected | NotForwardable | Interrupted | Answered

  datatype Endpoint = Endpoint(address: Ip, port: nat)

  datatype Response = InlinePage | InlineTunnel | NoContent | Upstream | Failed(error: ProxyError)

  /** Everything fixed while a page renders. */
  datatype Rules = Rules(net: Network, parseUrl: string -> Option<Target>, allowed: Option<Origin>, inline: Option<string>)

  function RequestAuthority(r: Request): Option<string> {
    Coalesce(r.authority, r.hostHeader)
  }

  predicate IsInline(rules: Rules, r: Request, path: string) {
    rules.inline.Some? && RequestAuthority(r) == rules.inline && r.path == path && r.query.None?
  }

  predicate IsInlineConnect(rules: Rules, authority: string) {
    rules.inline.Some? && (authority == rules.inline.value || authority == rules.inline.value + ":80")
  }

  function PathAndQuery(r: Request): string {
    if r.query.Some? then r.path + "?" + r.query.value else r.path
  }

  function RequestUrl(rules: Rules, r: Request): Option<Target> {
    if r.absolute.Some? then rules.parseUrl(r.absolute.value)
    else if RequestAuthority(r).None? then None
    else rules.parseUrl("http://" + RequestAuthority(r).value + PathAndQuery(r))
  }

  /** The URL a request is about, if it goes to the network at all. */
  function Wanted(rules: Rules, r: Request): Option<Target> {
    if r.isConnect then
      if r.authority.None? || IsInlineConnect(rules, r.authority.value) then None
      else rules.parseUrl("https://" + r.authority.value + "/")
    else if IsInline(rules, r, "/") || IsInline(rules, r, "/favicon.ico") then None
    else
      var url := RequestUrl(rules, r);
      if url.Some? && url.value.url.scheme == "http" then url else None
  }

  /** Where the request connects to. */
  function Upstreams(rules: Rules, r: Request): Result<Endpoint, ProxyError> {
    match Wanted(rules, r)
    case None => Err(InvalidRequest)
    case Some(url) =>
      match ResolveTarget(rules.net, url, rules.allowed)
      case Err(blocked) => Err(BlockedResource(blocked.resource))
      case Ok(approved) => Ok(Endpoint(approved.address, approved.port))
  }

  /** Where a history of requests connected to: each one that the policy lets through, once, in order. */
  function EndpointsOf(rules: Rules, served: seq<Request>): seq<Endpoint> {
    if served == [] then []
    else
      EndpointsOf(rules, served[..|served| - 1])
        + match Upstreams(rules, served[|served| - 1])
          case Ok(endpoint) => [endpoint]
          case Err(_) => []
  }

  /** The endpoint was approved for the very URL the request is about. */
  ghost predicate ApprovedFor(rules: Rules, r: Request, e: Endpoint) {
    && Upstreams(rules, r) == Ok(e)
    && Wanted(rules, r).Some? && Wanted(rules, r).value.knownPort == Some(e.port)
    && MayReach(rules.net, Wanted(rules, r).value, rules.allowed, e.address)
  }

  lemma UpstreamIsApproved(rules: Rules, r: Request, e: Endpoint)
    requires Upstreams(rules, r) == Ok(e)
    ensures ApprovedFor(rules, r, e)
  {
    ApprovedIsReachable(rules.net, Wanted(rules, r).value, rules.allowed);
  }

  ghost predicate ApprovedForOneOf(rules: Rules, served: seq<Request>, e: Endpoint) {
    exists k :: 0 <= k < |served| && ApprovedFor(rules, served[k], e)
  }

  /**
   * After any history every connection went to an address and port approved for the URL of a request that was served:
   * a public address, or loopback for a request to the page's own origin that names it literally.
   */
  lemma {:induction false} EveryConnectionIsApproved(rules: Rules, served: seq<Request>)
    ensures forall e :: e in EndpointsOf(rules, served) ==> ApprovedForOneOf(rules, served, e)
  {
    if served != [] {
      var n := |served| - 1;
      EveryConnectionIsApproved(rules, served[..n]);
      forall e | e in EndpointsOf(rules, served) ensures ApprovedForOneOf(rules, served, e) {
        if e in EndpointsOf(rules, served[..n]) {
          var k :| 0 <= k < n && ApprovedFor(rules, served[..n][k], e);
          assert ApprovedFor(rules, served[k], e);
        } else {
          UpstreamIsApproved(rules, served[n], e);
        }
      }
    }
  }

  class FilteringProxy {
    const rules: Rules
    const tracker: RejectedResourceTracker
    var attempted: seq<Endpoint>
    ghost var served: seq<Request>

    constructor (rules: Rules, tracker: RejectedResourceTracker)
      ensures this.rules == rules && this.tracker == tracker && Valid() && served == []
    {
      this.rules, this.tracker, attempted, served := rules, tracker, [], [];
    }

    /** The connections attempted are exactly those of the requests served. */
    ghost predicate Valid()
      reads this
    {
      attempted == EndpointsOf(rules, served)
    }

    /** Serves one request; a blocked resource of the page is remembered. */
    method Handle(r: Request, x: Exchange) returns (response: Response)
      requires Valid()
      modifies this, tracker
      ensures Valid()
      ensures response == Reply(rules, r, x)
      ensures served == old(served) + [r]
      ensures attempted == old(attempted) + (if Upstreams(rules, r).Ok? then [Upstreams(rules, r).value] else [])
      ensures tracker.page == old(tracker.page)
      ensures tracker.rejected ==
        if response.Failed? && response.error.BlockedResource?
        then AfterRecord(old(tracker.rejected), response.error.resource, OfPage(old(tracker.page), r.referer, r.origin))
        else old(tracker.rejected)
    {
      var belongsToPage := tracker.BelongsToPage(r.referer, r.origin);
      served := served + [r];
      assert served[..|served| - 1] == old(served);
      if r.isConnect {
        response := HandleConnect(r, x);
      } else if IsInline(rules, r, "/") {
        response := InlinePage;
      } else if IsInline(rules, r, "/favicon.ico") {
        response := NoContent;
      } else {
        response := HandleHttp(r, x);
      }
      if response.Failed? && response.error.BlockedResource? {
        tracker.Record(response.error.resource, belongsToPage);
      }
    }

    /** A tunnel is answered as soon as it is connected. */
    method HandleConnect(r: Request, x: Exchange) returns (response: Response)
      requires r.isConnect
      modifies this`attempted
      ensures attempted == old(attempted) + (if Upstreams(rules, r).Ok? then [Upstreams(rules, r).value] else [])
      ensures response == Reply(rules, r, x)
    {
      if r.authority.None? {
        return Failed(InvalidRequest);
      }
      if IsInlineConnect(rules, r.authority.value) {
        return InlineTunnel;
      }
      var url := rules.parseUrl("https://" + r.authority.value + "/");
      if url.None? {
        return Failed(InvalidRequest);
      }
      var error := ConnectTo(url.value, x);
      return if error.Some? then Failed(error.value) else Upstream;
    }

    /** A plain request is rewritten and sent once the connection stands; either may still fail. */
    method HandleHttp(r: Request, x: Exchange) returns (response: Response)
      requires !r.isConnect && !IsInline(rules, r, "/") && !IsInline(rules, r, "/favicon.ico")
      modifies this`attempted
      ensures attempted == old(attempted) + (if Upstreams(rules, r).Ok? then [Upstreams(rules, r).value] else [])
      ensures response == Reply(rules, r, x)
    {
      var url := RequestUrl(rules, r);
      if url.None? || url.value.url.scheme != "http" {
        return Failed(InvalidRequest);
      }
      var error := ConnectTo(url.value, x);
      if error.Some? {
        return Failed(error.value);
      }
      if x.NotForwardable? {
        return Failed(InvalidRequest);
      }
      return if x.Interrupted? then Failed(ExchangeFailed) else Upstream;
    }

    method ConnectTo(url: Target, x: Exchange) returns (error: Option<ProxyError>)
      modifies this`attempted
      ensures var target := ResolveTarget(rules.net, url, rules.allowed);
              && (target.Err? ==> attempted == old(attempted) && error == Some(BlockedResource(target.error.resource)))
              && (target.Ok? ==>
                    && attempted == old(attempted) + [Endpoint(target.value.address, target.value.port)]
                    && error == if x.NotConnected? then Some(ConnectFailed) else None)
    {
      var target := ResolveTarget(rules.net, url, rules.allowed);
      if target.Err? {
        return Some(BlockedResource(target.error.resource));
      }
      attempted := attempted + [Endpoint(target.value.address, target.value.port)];
      return if x.NotConnected? then Some(ConnectFailed) else None;
    }
  }

  /** The answer to an approved request. */
  function AfterApproval(isConnect: bool, x: Exchange): Response {
    match x
    case NotConnected => Failed(ConnectFailed)
    case NotForwardable => if isConnect then Upstream else Failed(InvalidRequest)
    case Interrupted => if isConnect then Upstream else Failed(ExchangeFailed)
    case Answered => Upstream
  }

  /** What the client is answered. */
  function Reply(rules: Rules, r: Request, x: Exchange): Response {
    if r.isConnect && r.authority.Some? && IsInlineConnect(rules, r.authority.value) then InlineTunnel
    else if !r.isConnect && IsInline(rules, r, "/") then InlinePage
    else if !r.isConnect && IsInline(rules, r, "/favicon.ico") then NoContent
    else
      match Upstreams(rules, r)
      case Err(error) => Failed(error)
      case Ok(_) => AfterApproval(r.isConnect, x)
  }

  /**
   * Requests for the synthetic page stay inside; a blocked answer names the very URL that was asked for; whatever
   * comes from outside was approved; and a request called invalid was connected only if it is plain and cannot be forwarded.
   */
  lemma RepliesMeanWhatTheySay(rules: Rules, r: Request, x: Exchange)
    ensures var response := Reply(rules, r, x);
            && (response.InlinePage? || response.NoContent? || response.InlineTunnel? ==> Upstreams(rules, r) == Err(InvalidRequest))
            && (response.Upstream? || response == Failed(ConnectFailed) || response == Failed(ExchangeFailed) ==> Upstreams(rules, r).Ok?)
            && (Upstreams(rules, r).Ok? ==>
                  || response.Upstream? || response == Failed(ConnectFailed) || response == Failed(ExchangeFailed)
                  || (response == Failed(InvalidRequest) && !r.isConnect && x.NotForwardable?))
            && (response.Failed? && response.error.BlockedResource? <==>
                  Wanted(rules, r).Some? && ResolveTarget(rules.net, Wanted(rules, r).value, rules.allowed).Err?)
            && (response.Failed? && response.error.BlockedResource? ==> response.error.resource == Wanted(rules, r).value.text)
  {
    if Wanted(rules, r).Some? { ApprovedIsReachable(rules.net, Wanted(rules, r).value, rules.allowed); }
  }

  /** A request belongs to the page exactly when its Referer or its Origin header has the page's own tuple origin. */
  lemma AttributionExactly(page: Option<Origin>, referer: Option<Origin>, origin: Option<Origin>)
    ensures OfPage(page, referer, origin) <==> page.Some? && page.value.Tuple? && (referer == page || origin == page)
  {
  }

  /** The URL text a request asks for: the tunnel's authority, the absolute target, or host, path and query put together. */
  ghost predicate AsksFor(r: Request, text: string) {
    if r.isConnect then r.authority.Some? && text == "https://" + r.authority.value + "/"
    else if r.absolute.Some? then text == r.absolute.value
    else
      && (r.authority.Some? || r.hostHeader.Some?)
      && text == "http://" + (if r.authority.Some? then r.authority.value else r.hostHeader.value) + r.path
                 + (if r.query.Some? then "?" + r.query.value else "")
  }

  /** The request is for the synthetic page, its icon, or a tunnel to its authority. */
  ghost predicate StaysInside(rules: Rules, r: Request) {
    && rules.inline.Some?
    && if r.isConnect then r.authority.Some? && (r.authority == rules.inline || r.authority.value == rules.inline.value + ":80")
       else
         && (r.authority == rules.inline || (r.authority.None? && r.hostHeader == rules.inline))
         && (r.path == "/" || r.path == "/favicon.ico") && r.query.None?
  }

  /** What a request wants from the network is the URL it asks for; a plain request wants web pages without encryption only. */
  lemma WantedExactly(rules: Rules, r: Request, url: Target)
    ensures Wanted(rules, r) == Some(url) <==>
      && !StaysInside(rules, r) && (!r.isConnect ==> url.url.scheme == "http")
      && exists text :: AsksFor(r, text) && rules.parseUrl(text) == Some(url)
  {
    if r.isConnect {
      if r.authority.Some? { assert AsksFor(r, "https://" + r.authority.value + "/"); }
    } else if r.absolute.Some? {
      assert AsksFor(r, r.absolute.value);
    } else if RequestAuthority(r).Some? {
      PlainUrlText(r);
    }
  }

  lemma PlainUrlText(r: Request)
    requires !r.isConnect && r.absolute.None? && RequestAuthority(r).Some?
    ensures AsksFor(r, "http://" + RequestAuthority(r).value + PathAndQuery(r))
    ensures forall text :: AsksFor(r, text) ==> text == "http://" + RequestAuthority(r).value + PathAndQuery(r)
  {
    var host := "http://" + RequestAuthority(r).value;
    if r.query.Some? {
      assert host + r.path + ("?" + r.query.value) == host + (r.path + "?" + r.query.value);
    } else {
      assert host + r.path + "" == host + r.path;
    }
  }
}
