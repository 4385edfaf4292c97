/**
 * The parts of Ceen's HTTP context the login handlers touch: request headers
 * and cookies read by name, and a response carrying a status, a header map
 * and the list of cookies added with `AddCookie`.
 */
module Http {
  import opened Text

  /** Request headers and cookies; a name that is absent reads as null. */
  datatype Request = Request(headers: map<string, string>, cookies: map<string, string>)

  function Header(req: Request, name: string): (v: Option<string>)
    ensures v.Some? <==> name in req.headers
    ensures v.Some? ==> v.value == req.headers[name]
  {
    if name in req.headers then Some(req.headers[name]) else None
  }

  function RequestCookie(req: Request, name: string): (v: Option<string>)
    ensures v.Some? <==> name in req.cookies
    ensures v.Some? ==> v.value == req.cookies[name]
  {
    if name in req.cookies then Some(req.cookies[name]) else None
  }

  /**
   * The instant 1970-01-01 00:00:00 on the model's clock, which counts
   * seconds; cookie expiry and session expiry are instants on it.
   */
  const UnixEpoch: int := 0

  /** One cookie added to the response (the shape of `IResponseCookie`). */
  datatype ResponseCookie = ResponseCookie(
    name: string,
    value: string,
    path: Option<string>,
    domain: Option<string>,
    expires: Option<int>,
    maxAge: int,
    secure: bool,
    httpOnly: bool)

  datatype Response = Response(
    statusCode: int,
    statusMessage: Option<string>,
    headers: map<string, string>,
    cookies: seq<ResponseCookie>)

  /** `AddCookie`: the cookie goes to the end of the list; nothing else changes. */
  function AddCookie(resp: Response, c: ResponseCookie): (r: Response)
    ensures |r.cookies| == |resp.cookies| + 1
    ensures r.cookies[..|resp.cookies|] == resp.cookies && r.cookies[|resp.cookies|] == c
    ensures r.statusCode == resp.statusCode && r.statusMessage == resp.statusMessage
    ensures r.headers == resp.headers
  {
    resp.(cookies := resp.cookies + [c])
  }
}
