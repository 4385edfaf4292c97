/**
 * The XSRF gate (XSRFTokenRequiredHandler.HandleAsync). The gate admits a
 * request only with a non-blank XSRF header naming a stored, unexpired
 * session; it then refreshes that session once and lets the pipeline
 * continue. Every other request gets the XSRF error.
 *
 * Three collaborators are not part of this model and are parameters: the
 * expiry half of `Utility.IsNullOrExpired`, `SetXSRFError`, and
 * `RefreshSessionTokensAsync`. The last two receive the whole request and
 * context, as in the source, may change the stores and the response, and
 * may throw; nothing else is assumed about what they do.
 */
module XsrfTokenRequired {
  import opened Text
  import opened Http
  import opened LoginCommon

  /** The gate's own decision, made before any collaborator runs. */
  datatype Verdict = XsrfRejected | Proceed

  /** How a call into a collaborator ends: it returns a value, or it throws. */
  datatype Call<T> = Returns(value: T) | Throws

  /** What `SetXSRFError` leaves behind (stores and response), and the value it returns. */
  datatype ErrorReply = ErrorReply(context: Context, handled: bool)

  /**
   * The gate's outcome: its verdict, the stores and response after it, the
   * store lookups the gate itself made, the sessions handed to the refresh,
   * and the value the handler returns — `None` when a collaborator's
   * exception escapes it; `Some(false)` lets the pipeline continue.
   */
  datatype GateResult = GateResult(
    verdict: Verdict,
    context: Context,
    lookups: seq<StoreCall>,
    refreshed: seq<SessionRecord>,
    returned: Option<bool>)

  /** The session the XSRF header names, when the header is not blank. */
  function SessionForHeader(cfg: LoginSettings, req: Request, st: Stores): Option<SessionRecord> {
    var h := Header(req, cfg.xsrfHeaderName);
    if IsNullOrWhiteSpace(h) then None else SessionByXsrf(st, h.value)
  }

  /** XSRFTokenRequiredHandler.HandleAsync. */
  function HandleXsrfRequired(
    cfg: LoginSettings, req: Request, ctx: Context,
    expired: SessionRecord -> bool,
    setError: (Request, Context) -> Call<ErrorReply>,
    refresh: (Request, Context, SessionRecord) -> Call<Context>): (r: GateResult)
    ensures |r.lookups| <= 1 && |r.refreshed| <= 1
    ensures IsNullOrWhiteSpace(Header(req, cfg.xsrfHeaderName)) ==> r.lookups == [] && r.verdict == XsrfRejected
    ensures !IsNullOrWhiteSpace(Header(req, cfg.xsrfHeaderName)) ==>
      r.lookups == [LookupXsrf(req.headers[cfg.xsrfHeaderName])]
    ensures r.verdict == Proceed <==>
      var s := SessionForHeader(cfg, req, ctx.stores);
      s.Some? && !expired(s.value)
    ensures r.verdict == XsrfRejected ==>
      && r.refreshed == []
      && (setError(req, ctx).Returns? ==>
            r.context == setError(req, ctx).value.context && r.returned == Some(setError(req, ctx).value.handled))
      && (setError(req, ctx).Throws? ==> r.context == ctx && r.returned.None?)
    ensures r.verdict == Proceed ==>
      var s := SessionForHeader(cfg, req, ctx.stores).value;
      && r.refreshed == [s]
      && (refresh(req, ctx, s).Returns? ==> r.context == refresh(req, ctx, s).value && r.returned == Some(false))
      && (refresh(req, ctx, s).Throws? ==> r.context == ctx && r.returned.None?)
  {
    var xsrf := Header(req, cfg.xsrfHeaderName);
    var rejected :=
      match setError(req, ctx)
      case Returns(err) => GateResult(XsrfRejected, err.context, [], [], Some(err.handled))
      case Throws => GateResult(XsrfRejected, ctx, [], [], None);
    if IsNullOrWhiteSpace(xsrf) then rejected
    else
      var looked := [LookupXsrf(xsrf.value)];
      match SessionByXsrf(ctx.stores, xsrf.value)
      case None => rejected.(lookups := looked)
      case Some(s) =>
        if expired(s) then rejected.(lookups := looked)
        else
          match refresh(req, ctx, s)
          case Returns(after) => GateResult(Proceed, after, looked, [s], Some(false))
          case Throws => GateResult(Proceed, ctx, looked, [s], None)
  }

  /**
   * When the pipeline continues: after a completed refresh of a live
   * session, or after a rejection only if `SetXSRFError` itself returns
   * false. A refresh that throws never lets the request through.
   */
  lemma ContinuesOnlyAfterRefresh(
    cfg: LoginSettings, req: Request, ctx: Context,
    expired: SessionRecord -> bool, setError: (Request, Context) -> Call<ErrorReply>,
    refresh: (Request, Context, SessionRecord) -> Call<Context>)
    ensures var r := HandleXsrfRequired(cfg, req, ctx, expired, setError, refresh);
      var s := SessionForHeader(cfg, req, ctx.stores);
      var live := s.Some? && !expired(s.value);
      r.returned == Some(false) <==>
        || (live && refresh(req, ctx, s.value).Returns?)
        || (!live && setError(req, ctx).Returns? && !setError(req, ctx).value.handled)
  {
  }

  /**
   * The gate's own decisions read the XSRF header and nothing else from the
   * request: two requests that agree on that header get the same verdict,
   * the same lookups and the same session refreshed, whatever their cookies
   * (the XSRF cookie included) and other headers. What the collaborators then
   * do with the request is their own business.
   */
  lemma GateReadsOnlyXsrfHeader(
    cfg: LoginSettings, req1: Request, req2: Request, ctx: Context,
    expired: SessionRecord -> bool, setError: (Request, Context) -> Call<ErrorReply>,
    refresh: (Request, Context, SessionRecord) -> Call<Context>)
    requires Header(req1, cfg.xsrfHeaderName) == Header(req2, cfg.xsrfHeaderName)
    ensures var r1 := HandleXsrfRequired(cfg, req1, ctx, expired, setError, refresh);
      var r2 := HandleXsrfRequired(cfg, req2, ctx, expired, setError, refresh);
      && r1.verdict == r2.verdict
      && r1.lookups == r2.lookups
      && r1.refreshed == r2.refreshed
  {
  }

  /**
   * When the collaborators themselves treat two requests alike, so does the
   * whole gate, provided the requests agree on the XSRF header.
   */
  lemma GateOutcomeFollowsCollaborators(
    cfg: LoginSettings, req1: Request, req2: Request, ctx: Context,
    expired: SessionRecord -> bool, setError: (Request, Context) -> Call<ErrorReply>,
    refresh: (Request, Context, SessionRecord) -> Call<Context>)
    requires Header(req1, cfg.xsrfHeaderName) == Header(req2, cfg.xsrfHeaderName)
    requires setError(req1, ctx) == setError(req2, ctx)
    requires forall s :: refresh(req1, ctx, s) == refresh(req2, ctx, s)
    ensures HandleXsrfRequired(cfg, req1, ctx, expired, setError, refresh)
         == HandleXsrfRequired(cfg, req2, ctx, expired, setError, refresh)
  {
  }

  /**
   * With unique XSRF tokens in the store, a request proceeds exactly when
   * its non-blank XSRF header is the token of a stored session that has not
   * expired.
   */
  lemma GateAdmitsExactlyLiveTokens(
    cfg: LoginSettings, req: Request, ctx: Context,
    expired: SessionRecord -> bool, setError: (Request, Context) -> Call<ErrorReply>,
    refresh: (Request, Context, SessionRecord) -> Call<Context>)
    requires UniqueKeys(ctx.stores)
    ensures var r := HandleXsrfRequired(cfg, req, ctx, expired, setError, refresh);
      r.verdict == Proceed <==>
        && cfg.xsrfHeaderName in req.headers
        && !IsNullOrWhiteSpace(Some(req.headers[cfg.xsrfHeaderName]))
        && exists s :: s in ctx.stores.shortTerm && s.xsrfToken == Some(req.headers[cfg.xsrfHeaderName]) && !expired(s)
  {
    var h := Header(req, cfg.xsrfHeaderName);
    if !IsNullOrWhiteSpace(h) {
      var found := SessionByXsrf(ctx.stores, h.value);
      if found.Some? {
        assert forall s :: s in ctx.stores.shortTerm && s.xsrfToken == Some(h.value) ==> s == found.value;
      }
    }
  }
}
