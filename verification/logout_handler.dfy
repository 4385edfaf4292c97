/**
 * The logout handler (LogoutHandler.HandleAsync). It reads up to three
 * credentials from the request (the XSRF token, the session cookie and the
 * long-term cookie) and tears each one down independently:
 *
 *  1. XSRF token: the session found for it is dropped and replaced by an
 *     anonymous one on the same token, so the token stays usable but no
 *     longer names a user.
 *  2. Session cookie: the session found for it is dropped; the cookie is
 *     cleared on the response when a session was dropped by either branch.
 *  3. Long-term cookie: when a long-term store is configured and the cookie
 *     parses as valid, its series is looked up and dropped if found; the
 *     cookie is cleared on the response in any case.
 *
 * Then the configured status and, when set, the redirect target are written.
 * The handler is a pure transition on the stores and the response that also
 * returns the store calls it made, in order.
 */
module LogoutHandler {
  import opened Text
  import opened Http
  import opened LoginCommon

  /** The handler's own properties: where to send the client, and with which status. */
  datatype LogoutSettings = LogoutSettings(
    redirectUrl: Option<string>,
    resultStatusCode: int,
    resultStatusMessage: Option<string>)

  /** The property initialisers: a 302 "Found" redirect to "/". */
  const Defaults: LogoutSettings := LogoutSettings(Some("/"), 302, Some("Found"))

  /** What one branch did: the stores and response after it, and the store calls it made. */
  datatype Step = Step(stores: Stores, response: Response, calls: seq<StoreCall>)

  /** What the handler leaves behind, every store call it made, and its return value. */
  datatype LogoutResult = LogoutResult(stores: Stores, response: Response, calls: seq<StoreCall>, handled: bool)

  /** The XSRF credential: the header when the request has one (even a blank one), else the cookie. */
  function XsrfCredential(cfg: LoginSettings, req: Request): (x: Option<string>)
    ensures cfg.xsrfHeaderName in req.headers ==> x == Some(req.headers[cfg.xsrfHeaderName])
    ensures cfg.xsrfHeaderName !in req.headers ==> x == RequestCookie(req, cfg.xsrfCookieName)
  {
    match Header(req, cfg.xsrfHeaderName)
    case Some(h) => Some(h)
    case None => RequestCookie(req, cfg.xsrfCookieName)
  }

  /** The cookie that makes the client discard `name`: empty, expired at the epoch, max-age 0. */
  function ClearingCookie(cfg: LoginSettings, name: string): ResponseCookie {
    ResponseCookie(name, "", Some(cfg.cookiePath), None, Some(UnixEpoch), 0, false, false)
  }

  /**
   * The session registered in place of a dropped one: no user, no cookie,
   * the dropped session's XSRF token, expiring the short-term lifetime after `now`.
   */
  function AnonymousSession(cfg: LoginSettings, now: int, token: Option<string>): SessionRecord {
    SessionRecord(None, None, token, now + cfg.shortTermExpirationSeconds)
  }

  /** The result of the XSRF branch, and whether it dropped a session. */
  datatype XsrfStep = XsrfStep(stores: Stores, calls: seq<StoreCall>, dropped: bool)

  /** Branch 1: drop the session bound to the XSRF token and re-register the token anonymously. */
  function TeardownXsrf(cfg: LoginSettings, now: int, xsrf: Option<string>, st: Stores): (r: XsrfStep)
    ensures r.dropped <==> !IsNullOrWhiteSpace(xsrf) && HoldsXsrf(st, xsrf.value)
    ensures !r.dropped ==> r.stores == st
    ensures r.stores.longTerm == st.longTerm
    ensures forall c :: c in r.calls ==> c.LookupXsrf? || c.Drop? || c.Add?
    ensures IsNullOrWhiteSpace(xsrf) ==> r.calls == []
    ensures !IsNullOrWhiteSpace(xsrf) && !r.dropped ==> r.calls == [LookupXsrf(xsrf.value)]
    ensures r.dropped ==>
      var s := SessionByXsrf(st, xsrf.value).value;
      var anon := AnonymousSession(cfg, now, Some(xsrf.value));
      && r.calls == [LookupXsrf(xsrf.value), Drop(s), Add(anon)]
      && r.stores == WithSession(WithoutSession(st, s), anon)
  {
    if IsNullOrWhiteSpace(xsrf) then XsrfStep(st, [], false)
    else
      match SessionByXsrf(st, xsrf.value)
      case None => XsrfStep(st, [LookupXsrf(xsrf.value)], false)
      case Some(s) =>
        var anon := AnonymousSession(cfg, now, s.xsrfToken);
        XsrfStep(WithSession(WithoutSession(st, s), anon), [LookupXsrf(xsrf.value), Drop(s), Add(anon)], true)
  }

  /** Branch 2: drop the session bound to the session cookie; clear the cookie if any session went. */
  function TeardownSessionCookie(
    cfg: LoginSettings, cookie: Option<string>, droppedXsrf: bool, st: Stores, resp: Response): (r: Step)
    ensures r.response.cookies == resp.cookies +
      (if !IsNullOrWhiteSpace(cookie) && (droppedXsrf || HoldsCookie(st, cookie.value))
       then [ClearingCookie(cfg, cfg.authSessionCookieName)] else [])
    ensures r.response.statusCode == resp.statusCode
    ensures r.response.statusMessage == resp.statusMessage
    ensures r.response.headers == resp.headers
    ensures r.stores.longTerm == st.longTerm
    ensures forall c :: c in r.calls ==> c.LookupCookie? || c.Drop?
    ensures IsNullOrWhiteSpace(cookie) ==> r.calls == [] && r.stores == st
    ensures !IsNullOrWhiteSpace(cookie) ==>
      match SessionByCookie(st, cookie.value)
      case None => r.calls == [LookupCookie(cookie.value)] && r.stores == st
      case Some(s) => r.calls == [LookupCookie(cookie.value), Drop(s)] && r.stores == WithoutSession(st, s)
  {
    if IsNullOrWhiteSpace(cookie) then Step(st, resp, [])
    else
      var found := SessionByCookie(st, cookie.value);
      var response :=
        if found.Some? || droppedXsrf then AddCookie(resp, ClearingCookie(cfg, cfg.authSessionCookieName))
        else resp;
      match found
      case None => Step(st, response, [LookupCookie(cookie.value)])
      case Some(s) => Step(WithoutSession(st, s), response, [LookupCookie(cookie.value), Drop(s)])
  }

  /** Whether branch 3 consults the long-term store for `longterm`. */
  predicate ConsultsLongTermStore(st: Stores, parse: string -> LongTermCookie, longterm: Option<string>) {
    !IsNullOrWhiteSpace(longterm) && st.longTerm.Some? && parse(longterm.value).isValid
  }

  /** Branch 3: drop the persistent login named by a valid long-term cookie; always clear the cookie. */
  function TeardownLongTerm(
    cfg: LoginSettings, parse: string -> LongTermCookie, longterm: Option<string>, st: Stores, resp: Response): (r: Step)
    ensures r.response.cookies == resp.cookies +
      (if !IsNullOrWhiteSpace(longterm) then [ClearingCookie(cfg, cfg.authCookieName)] else [])
    ensures r.response.statusCode == resp.statusCode
    ensures r.response.statusMessage == resp.statusMessage
    ensures r.response.headers == resp.headers
    ensures r.stores.shortTerm == st.shortTerm
    ensures forall c :: c in r.calls ==> c.LookupSeries? || c.DropLongTerm?
    ensures !ConsultsLongTermStore(st, parse, longterm) ==> r.stores == st && r.calls == []
    ensures ConsultsLongTermStore(st, parse, longterm) ==>
      var series := parse(longterm.value).series;
      match LongTermBySeries(st, series)
      case None => r.calls == [LookupSeries(series)] && r.stores == st
      case Some(l) => r.calls == [LookupSeries(series), DropLongTerm(l)] && r.stores == WithoutLongTerm(st, l)
  {
    if IsNullOrWhiteSpace(longterm) then Step(st, resp, [])
    else
      var response := AddCookie(resp, ClearingCookie(cfg, cfg.authCookieName));
      if ConsultsLongTermStore(st, parse, longterm) then
        var series := parse(longterm.value).series;
        match LongTermBySeries(st, series)
        case None => Step(st, response, [LookupSeries(series)])
        case Some(l) => Step(WithoutLongTerm(st, l), response, [LookupSeries(series), DropLongTerm(l)])
      else Step(st, response, [])
  }

  /** The closing step: the configured status, and `Location` when a redirect target is set. */
  function FinishResponse(settings: LogoutSettings, resp: Response): Response {
    var withStatus := resp.(statusCode := settings.resultStatusCode, statusMessage := settings.resultStatusMessage);
    if IsNullOrWhiteSpace(settings.redirectUrl) then withStatus
    else withStatus.(headers := resp.headers["Location" := settings.redirectUrl.value])
  }

  /** Whether the session cookie is cleared: it was presented, and a session went by either branch. */
  ghost predicate ClearsSessionCookie(cfg: LoginSettings, req: Request, st: Stores) {
    var xsrf := XsrfCredential(cfg, req);
    var cookie := RequestCookie(req, cfg.authSessionCookieName);
    && !IsNullOrWhiteSpace(cookie)
    && ((!IsNullOrWhiteSpace(xsrf) && HoldsXsrf(st, xsrf.value)) || HoldsCookie(st, cookie.value))
  }

  /** The three branches of HandleLogout, in order. */
  datatype Branches = Branches(xsrf: XsrfStep, session: Step, longTerm: Step)

  function BranchesOf(cfg: LoginSettings, parse: string -> LongTermCookie, now: int, req: Request, ctx: Context): Branches {
    var first := TeardownXsrf(cfg, now, XsrfCredential(cfg, req), ctx.stores);
    var second := TeardownSessionCookie(cfg, RequestCookie(req, cfg.authSessionCookieName), first.dropped, first.stores, ctx.response);
    var third := TeardownLongTerm(cfg, parse, RequestCookie(req, cfg.authCookieName), second.stores, second.response);
    Branches(first, second, third)
  }

  /** LogoutHandler.HandleAsync, with `now` standing for DateTime.Now. */
  function HandleLogout(
    cfg: LoginSettings, settings: LogoutSettings, parse: string -> LongTermCookie,
    now: int, req: Request, ctx: Context): (r: LogoutResult)
    ensures r.handled
    ensures r.response.statusCode == settings.resultStatusCode
    ensures r.response.statusMessage == settings.resultStatusMessage
    ensures !IsNullOrWhiteSpace(settings.redirectUrl) ==>
      r.response.headers == ctx.response.headers["Location" := settings.redirectUrl.value]
    ensures IsNullOrWhiteSpace(settings.redirectUrl) ==> r.response.headers == ctx.response.headers
    ensures r.response.cookies == ctx.response.cookies
      + (if ClearsSessionCookie(cfg, req, ctx.stores) then [ClearingCookie(cfg, cfg.authSessionCookieName)] else [])
      + (if !IsNullOrWhiteSpace(RequestCookie(req, cfg.authCookieName)) then [ClearingCookie(cfg, cfg.authCookieName)] else [])
  {
    var b := BranchesOf(cfg, parse, now, req, ctx);
    LogoutResult(
      b.longTerm.stores,
      FinishResponse(settings, b.longTerm.response),
      b.xsrf.calls + b.session.calls + b.longTerm.calls,
      true)
  }

  /**
   * Logout only adds cookies, and each one it adds is a clearing cookie for
   * the session cookie or the long-term cookie: empty, on the configured
   * path, expired at the epoch, with max-age 0; the session cookie first.
   */
  lemma LogoutAddsOnlyClearingCookies(
    cfg: LoginSettings, settings: LogoutSettings, parse: string -> LongTermCookie,
    now: int, req: Request, ctx: Context)
    ensures var cookies := HandleLogout(cfg, settings, parse, now, req, ctx).response.cookies;
      var n := |ctx.response.cookies|;
      && n <= |cookies| <= n + 2
      && cookies[..n] == ctx.response.cookies
      && (forall i :: n <= i < |cookies| ==>
            && cookies[i].value == ""
            && cookies[i].path == Some(cfg.cookiePath)
            && cookies[i].expires == Some(UnixEpoch)
            && cookies[i].maxAge == 0
            && (cookies[i].name == cfg.authSessionCookieName || cookies[i].name == cfg.authCookieName))
      && (|cookies| == n + 2 ==> cookies[n].name == cfg.authSessionCookieName && cookies[n + 1].name == cfg.authCookieName)
  {
  }

  /** The calls and stores of HandleLogout in terms of its three branches. */
  lemma HandleLogoutIsBranches(
    cfg: LoginSettings, settings: LogoutSettings, parse: string -> LongTermCookie,
    now: int, req: Request, ctx: Context)
    ensures var b := BranchesOf(cfg, parse, now, req, ctx);
      var r := HandleLogout(cfg, settings, parse, now, req, ctx);
      && r.calls == b.xsrf.calls + b.session.calls + b.longTerm.calls
      && r.stores == b.longTerm.stores
  {
  }

  /**
   * When the XSRF credential finds a session, the handler's first three
   * calls look it up, drop it, and then add an anonymous session with no
   * cookie on the same token, expiring the short-term lifetime after `now`.
   */
  lemma LogoutReplacesXsrfSession(
    cfg: LoginSettings, settings: LogoutSettings, parse: string -> LongTermCookie,
    now: int, req: Request, ctx: Context)
    requires !IsNullOrWhiteSpace(XsrfCredential(cfg, req))
    requires HoldsXsrf(ctx.stores, XsrfCredential(cfg, req).value)
    ensures var t := XsrfCredential(cfg, req).value;
      var calls := HandleLogout(cfg, settings, parse, now, req, ctx).calls;
      && |calls| >= 3
      && calls[0] == LookupXsrf(t)
      && calls[1] == Drop(SessionByXsrf(ctx.stores, t).value)
      && calls[2] == Add(AnonymousSession(cfg, now, Some(t)))
  {
    HandleLogoutIsBranches(cfg, settings, parse, now, req, ctx);
  }

  /**
   * The XSRF lookup uses the header when the request carries one, and the
   * XSRF cookie only when it does not; a blank credential is never looked up.
   */
  lemma LogoutLooksUpXsrfCredential(
    cfg: LoginSettings, settings: LogoutSettings, parse: string -> LongTermCookie,
    now: int, req: Request, ctx: Context)
    ensures var calls := HandleLogout(cfg, settings, parse, now, req, ctx).calls;
      && (cfg.xsrfHeaderName in req.headers ==> forall t :: LookupXsrf(t) in calls <==>
            t == req.headers[cfg.xsrfHeaderName] && !IsNullOrWhiteSpace(Some(t)))
      && (cfg.xsrfHeaderName !in req.headers ==> forall t :: LookupXsrf(t) in calls <==>
            cfg.xsrfCookieName in req.cookies && t == req.cookies[cfg.xsrfCookieName] && !IsNullOrWhiteSpace(Some(t)))
  {
    LogoutXsrfLookups(cfg, settings, parse, now, req, ctx);
    if cfg.xsrfHeaderName in req.headers {
      assert XsrfCredential(cfg, req) == Some(req.headers[cfg.xsrfHeaderName]);
    } else {
      assert XsrfCredential(cfg, req) == RequestCookie(req, cfg.xsrfCookieName);
    }
  }

  lemma LogoutXsrfLookups(
    cfg: LoginSettings, settings: LogoutSettings, parse: string -> LongTermCookie,
    now: int, req: Request, ctx: Context)
    ensures var xsrf := XsrfCredential(cfg, req);
      var calls := HandleLogout(cfg, settings, parse, now, req, ctx).calls;
      forall t :: LookupXsrf(t) in calls <==> !IsNullOrWhiteSpace(xsrf) && t == xsrf.value
  {
    HandleLogoutIsBranches(cfg, settings, parse, now, req, ctx);
    var b := BranchesOf(cfg, parse, now, req, ctx);
    var xsrf := XsrfCredential(cfg, req);
    XsrfBranchLookups(cfg, now, xsrf, ctx.stores);
    assert forall t :: LookupXsrf(t) !in b.session.calls + b.longTerm.calls;
  }

  lemma XsrfBranchLookups(cfg: LoginSettings, now: int, xsrf: Option<string>, st: Stores)
    ensures var calls := TeardownXsrf(cfg, now, xsrf, st).calls;
      forall t :: LookupXsrf(t) in calls <==> !IsNullOrWhiteSpace(xsrf) && t == xsrf.value
  {
  }

  /**
   * A blank XSRF credential leaves the XSRF branch out entirely: no XSRF
   * lookup, no add, and the only session dropped is the one the session
   * cookie finds.
   */
  lemma LogoutBlankXsrfSkipsXsrfBranch(
    cfg: LoginSettings, settings: LogoutSettings, parse: string -> LongTermCookie,
    now: int, req: Request, ctx: Context)
    requires IsNullOrWhiteSpace(XsrfCredential(cfg, req))
    ensures var calls := HandleLogout(cfg, settings, parse, now, req, ctx).calls;
      && (forall c :: c in calls ==> !c.LookupXsrf? && !c.Add?)
      && (forall x :: Drop(x) in calls ==>
            var cookie := RequestCookie(req, cfg.authSessionCookieName);
            !IsNullOrWhiteSpace(cookie) && SessionByCookie(ctx.stores, cookie.value) == Some(x))
  {
    HandleLogoutIsBranches(cfg, settings, parse, now, req, ctx);
    var b := BranchesOf(cfg, parse, now, req, ctx);
    assert b.xsrf.calls == [] && b.xsrf.stores == ctx.stores;
    assert forall c :: c in b.longTerm.calls ==> c.LookupSeries? || c.DropLongTerm?;
  }

  lemma LongTermBranchCalls(
    cfg: LoginSettings, parse: string -> LongTermCookie, longterm: Option<string>, st: Stores, resp: Response)
    ensures var calls := TeardownLongTerm(cfg, parse, longterm, st, resp).calls;
      && (forall x :: LookupSeries(x) in calls <==>
            ConsultsLongTermStore(st, parse, longterm) && x == parse(longterm.value).series)
      && (forall l :: DropLongTerm(l) in calls <==>
            ConsultsLongTermStore(st, parse, longterm) && LongTermBySeries(st, parse(longterm.value).series) == Some(l))
  {
  }

  /**
   * The long-term store is consulted only for a non-blank long-term cookie,
   * with a long-term store configured, that parses as valid; and a login is
   * dropped exactly when that lookup finds one.
   */
  lemma LogoutLongTermCalls(
    cfg: LoginSettings, settings: LogoutSettings, parse: string -> LongTermCookie,
    now: int, req: Request, ctx: Context)
    ensures var longterm := RequestCookie(req, cfg.authCookieName);
      var calls := HandleLogout(cfg, settings, parse, now, req, ctx).calls;
      && (forall x :: LookupSeries(x) in calls <==>
            ConsultsLongTermStore(ctx.stores, parse, longterm) && x == parse(longterm.value).series)
      && (forall l :: DropLongTerm(l) in calls <==>
            && ConsultsLongTermStore(ctx.stores, parse, longterm)
            && LongTermBySeries(ctx.stores, parse(longterm.value).series) == Some(l))
  {
    HandleLogoutIsBranches(cfg, settings, parse, now, req, ctx);
    var b := BranchesOf(cfg, parse, now, req, ctx);
    var longterm := RequestCookie(req, cfg.authCookieName);
    LongTermBranchCalls(cfg, parse, longterm, b.session.stores, b.session.response);
    assert forall x :: LookupSeries(x) !in b.xsrf.calls + b.session.calls;
    assert forall l :: DropLongTerm(l) !in b.xsrf.calls + b.session.calls;
    assert b.session.stores.longTerm == ctx.stores.longTerm;
    assert ConsultsLongTermStore(b.session.stores, parse, longterm) == ConsultsLongTermStore(ctx.stores, parse, longterm);
    assert forall x :: LongTermBySeries(b.session.stores, x) == LongTermBySeries(ctx.stores, x);
  }

  /** With no credential at all, logout calls no store and adds no cookie. */
  lemma LogoutWithoutCredentials(
    cfg: LoginSettings, settings: LogoutSettings, parse: string -> LongTermCookie,
    now: int, req: Request, ctx: Context)
    requires IsNullOrWhiteSpace(XsrfCredential(cfg, req))
    requires IsNullOrWhiteSpace(RequestCookie(req, cfg.authSessionCookieName))
    requires IsNullOrWhiteSpace(RequestCookie(req, cfg.authCookieName))
    ensures var r := HandleLogout(cfg, settings, parse, now, req, ctx);
      && r.calls == []
      && r.stores == ctx.stores
      && r.response.cookies == ctx.response.cookies
  {
    HandleLogoutIsBranches(cfg, settings, parse, now, req, ctx);
  }

  lemma XsrfBranchFollowsCalls(cfg: LoginSettings, now: int, xsrf: Option<string>, st: Stores)
    ensures var r := TeardownXsrf(cfg, now, xsrf, st); r.stores == Replay(st, r.calls)
  {
    var r := TeardownXsrf(cfg, now, xsrf, st);
    if r.dropped {
      assert r.calls[1..] == [r.calls[1], r.calls[2]];
      ReplayPair(st, r.calls[1], r.calls[2]);
    } else if !IsNullOrWhiteSpace(xsrf) {
      ReplaySingle(st, r.calls[0]);
    }
  }

  lemma SessionBranchFollowsCalls(cfg: LoginSettings, cookie: Option<string>, droppedXsrf: bool, st: Stores, resp: Response)
    ensures var r := TeardownSessionCookie(cfg, cookie, droppedXsrf, st, resp); r.stores == Replay(st, r.calls)
  {
    var r := TeardownSessionCookie(cfg, cookie, droppedXsrf, st, resp);
    if !IsNullOrWhiteSpace(cookie) {
      match SessionByCookie(st, cookie.value)
      case None => ReplaySingle(st, r.calls[0]);
      case Some(x) => ReplayPair(st, r.calls[0], r.calls[1]);
    }
  }

  lemma LongTermBranchFollowsCalls(
    cfg: LoginSettings, parse: string -> LongTermCookie, longterm: Option<string>, st: Stores, resp: Response)
    ensures var r := TeardownLongTerm(cfg, parse, longterm, st, resp); r.stores == Replay(st, r.calls)
  {
    var r := TeardownLongTerm(cfg, parse, longterm, st, resp);
    if ConsultsLongTermStore(st, parse, longterm) {
      match LongTermBySeries(st, parse(longterm.value).series)
      case None => ReplaySingle(st, r.calls[0]);
      case Some(l) => ReplayPair(st, r.calls[0], r.calls[1]);
    }
  }

  /** The stores after logout are exactly the stores replayed through the calls it reports. */
  lemma LogoutStoresFollowCalls(
    cfg: LoginSettings, settings: LogoutSettings, parse: string -> LongTermCookie,
    now: int, req: Request, ctx: Context)
    ensures var r := HandleLogout(cfg, settings, parse, now, req, ctx);
      r.stores == Replay(ctx.stores, r.calls)
  {
    HandleLogoutIsBranches(cfg, settings, parse, now, req, ctx);
    var b := BranchesOf(cfg, parse, now, req, ctx);
    XsrfBranchFollowsCalls(cfg, now, XsrfCredential(cfg, req), ctx.stores);
    SessionBranchFollowsCalls(cfg, RequestCookie(req, cfg.authSessionCookieName), b.xsrf.dropped, b.xsrf.stores, ctx.response);
    LongTermBranchFollowsCalls(cfg, parse, RequestCookie(req, cfg.authCookieName), b.session.stores, b.session.response);
    ReplayAppend(ctx.stores, b.xsrf.calls, b.session.calls);
    ReplayAppend(ctx.stores, b.xsrf.calls + b.session.calls, b.longTerm.calls);
  }

  /**
   * Under unique keys, the XSRF branch leaves the keys unique, and after a
   * drop the anonymous replacement is the only record carrying the token.
   */
  lemma XsrfBranchKeepsKeysUnique(cfg: LoginSettings, now: int, xsrf: Option<string>, st: Stores)
    requires UniqueKeys(st)
    ensures var r := TeardownXsrf(cfg, now, xsrf, st);
      && UniqueKeys(r.stores)
      && (r.dropped ==>
            var anon := AnonymousSession(cfg, now, Some(xsrf.value));
            && anon in r.stores.shortTerm
            && forall x :: x in r.stores.shortTerm && x.xsrfToken == Some(xsrf.value) ==> x == anon)
  {
    var r := TeardownXsrf(cfg, now, xsrf, st);
    if r.dropped {
      var t := xsrf.value;
      var s := SessionByXsrf(st, t).value;
      var anon := AnonymousSession(cfg, now, Some(t));
      forall x | x in r.stores.shortTerm && x != anon
        ensures x in st.shortTerm && x.xsrfToken != Some(t)
      {
        assert x in st.shortTerm && x != s;
        assert KeysDisjoint(s, x);
      }
      forall a, b | a in r.stores.shortTerm && b in r.stores.shortTerm && a != b
        ensures KeysDisjoint(a, b)
      {
        if a != anon && b != anon {
          assert a in st.shortTerm && b in st.shortTerm;
        }
      }
    }
  }

  /** Under unique keys, the session-cookie branch leaves the keys unique and drops no cookie-less record. */
  lemma SessionBranchKeepsKeysUnique(cfg: LoginSettings, cookie: Option<string>, droppedXsrf: bool, st: Stores, resp: Response)
    requires UniqueKeys(st)
    ensures var r := TeardownSessionCookie(cfg, cookie, droppedXsrf, st, resp);
      && UniqueKeys(r.stores)
      && (forall x :: x in r.stores.shortTerm ==> x in st.shortTerm)
      && (forall x :: x in st.shortTerm && x.cookie.None? ==> x in r.stores.shortTerm)
  {
  }

  /** Logout keeps every XSRF token and session cookie addressing at most one session. */
  lemma LogoutKeepsKeysUnique(
    cfg: LoginSettings, settings: LogoutSettings, parse: string -> LongTermCookie,
    now: int, req: Request, ctx: Context)
    requires UniqueKeys(ctx.stores)
    ensures UniqueKeys(HandleLogout(cfg, settings, parse, now, req, ctx).stores)
  {
    HandleLogoutIsBranches(cfg, settings, parse, now, req, ctx);
    var b := BranchesOf(cfg, parse, now, req, ctx);
    XsrfBranchKeepsKeysUnique(cfg, now, XsrfCredential(cfg, req), ctx.stores);
    SessionBranchKeepsKeysUnique(cfg, RequestCookie(req, cfg.authSessionCookieName), b.xsrf.dropped, b.xsrf.stores, ctx.response);
  }

  /**
   * The login-CSRF defence: once logout has found a session for the XSRF
   * token, the token afterwards names exactly one session, and that session
   * is anonymous, has no cookie, and expires the short-term lifetime after `now`.
   */
  lemma LogoutLeavesAnonymousXsrfSession(
    cfg: LoginSettings, settings: LogoutSettings, parse: string -> LongTermCookie,
    now: int, req: Request, ctx: Context)
    requires UniqueKeys(ctx.stores)
    requires !IsNullOrWhiteSpace(XsrfCredential(cfg, req))
    requires HoldsXsrf(ctx.stores, XsrfCredential(cfg, req).value)
    ensures var t := XsrfCredential(cfg, req).value;
      var after := HandleLogout(cfg, settings, parse, now, req, ctx).stores;
      SessionByXsrf(after, t) == Some(AnonymousSession(cfg, now, Some(t)))
  {
    HandleLogoutIsBranches(cfg, settings, parse, now, req, ctx);
    var b := BranchesOf(cfg, parse, now, req, ctx);
    var t := XsrfCredential(cfg, req).value;
    var anon := AnonymousSession(cfg, now, Some(t));
    XsrfBranchKeepsKeysUnique(cfg, now, XsrfCredential(cfg, req), ctx.stores);
    SessionBranchKeepsKeysUnique(cfg, RequestCookie(req, cfg.authSessionCookieName), b.xsrf.dropped, b.xsrf.stores, ctx.response);
    var after := b.longTerm.stores;
    assert anon in after.shortTerm;
    assert HoldsXsrf(after, t);
    var found := SessionByXsrf(after, t);
    assert found.value in b.xsrf.stores.shortTerm;
  }

  /**
   * A worked example: session S1 of "alice" holds XSRF token "tok-A" and
   * cookie "sess-1"; logging out with both credentials and the default
   * settings drops S1, registers "tok-A" anonymously, clears the session
   * cookie and redirects to "/" with 302 Found.
   */
  lemma LogoutExample()
    ensures
      var cfg := LoginSettings("X-XSRF-Token", "xsrf-token", "session", "remember-me", "/", 900);
      var s1 := SessionRecord(Some("alice"), Some("sess-1"), Some("tok-A"), 1300);
      var req := Request(map["X-XSRF-Token" := "tok-A"], map["session" := "sess-1"]);
      var ctx := Context(Stores([s1], None), Response(200, None, map[], []));
      var r := HandleLogout(cfg, Defaults, (_: string) => LongTermCookie(false, ""), 1000, req, ctx);
      && r.stores.shortTerm == [SessionRecord(None, None, Some("tok-A"), 1900)]
      && r.calls == [LookupXsrf("tok-A"), Drop(s1), Add(SessionRecord(None, None, Some("tok-A"), 1900)), LookupCookie("sess-1")]
      && r.response.cookies == [ResponseCookie("session", "", Some("/"), None, Some(UnixEpoch), 0, false, false)]
      && r.response.statusCode == 302
      && r.response.statusMessage == Some("Found")
      && r.response.headers == map["Location" := "/"]
  {
    var cfg := LoginSettings("X-XSRF-Token", "xsrf-token", "session", "remember-me", "/", 900);
    var s1 := SessionRecord(Some("alice"), Some("sess-1"), Some("tok-A"), 1300);
    var anon := SessionRecord(None, None, Some("tok-A"), 1900);
    var req := Request(map["X-XSRF-Token" := "tok-A"], map["session" := "sess-1"]);
    var ctx := Context(Stores([s1], None), Response(200, None, map[], []));
    var parse := (_: string) => LongTermCookie(false, "");
    assert !IsWhiteSpace("tok-A"[0]);
    assert !IsWhiteSpace("sess-1"[0]);
    assert !IsWhiteSpace("/"[0]);
    HandleLogoutIsBranches(cfg, Defaults, parse, 1000, req, ctx);
    var b := BranchesOf(cfg, parse, 1000, req, ctx);
    assert SessionByXsrf(ctx.stores, "tok-A") == Some(s1);
    assert b.xsrf.stores == Stores([anon], None);
    assert b.xsrf.calls == [LookupXsrf("tok-A"), Drop(s1), Add(anon)];
    assert SessionByCookie(b.xsrf.stores, "sess-1").None?;
    assert b.session.calls == [LookupCookie("sess-1")];
    assert b.longTerm.stores == b.session.stores == b.xsrf.stores;
    assert b.longTerm.calls == [];
  }

  /**
   * Logout's response is not idempotent: with only a session cookie, the
   * first logout drops the session and clears the cookie; a second logout
   * with the same request finds nothing and leaves the cookie alone.
   */
  lemma LogoutResponseNotIdempotent()
    ensures
      var cfg := LoginSettings("X-XSRF-Token", "xsrf-token", "session", "remember-me", "/", 900);
      var s1 := SessionRecord(Some("alice"), Some("sess-1"), Some("tok-A"), 1300);
      var req := Request(map[], map["session" := "sess-1"]);
      var parse := (_: string) => LongTermCookie(false, "");
      var empty := Response(200, None, map[], []);
      var first := HandleLogout(cfg, Defaults, parse, 1000, req, Context(Stores([s1], None), empty));
      var second := HandleLogout(cfg, Defaults, parse, 1001, req, Context(first.stores, empty));
      && first.response.cookies == [ResponseCookie("session", "", Some("/"), None, Some(UnixEpoch), 0, false, false)]
      && second.response.cookies == []
  {
    assert !IsWhiteSpace("sess-1"[0]);
  }
}
