/**
 * What the login handlers share: the settings of the login module, session
 * and long-term ("remember me") records, an in-memory model of the
 * short-term and long-term stores, and the trace of store calls a handler
 * makes, with its replay.
 *
 * The stores keep their records in insertion order. A lookup returns the
 * first record with the key, a drop removes every copy of the record, an
 * add appends. Lookups do not filter expired records: whether a store does
 * so is its own business, and the handlers do not rely on it.
 */
module LoginCommon {
  import opened Text
  import opened Http

  /** The configuration the login module base class supplies to every handler. */
  datatype LoginSettings = LoginSettings(
    xsrfHeaderName: string,
    xsrfCookieName: string,
    authSessionCookieName: string,
    authCookieName: string,
    cookiePath: string,
    shortTermExpirationSeconds: int)

  /** A browser session; an absent `userId` is an anonymous session. */
  datatype SessionRecord = SessionRecord(
    userId: Option<string>,
    cookie: Option<string>,
    xsrfToken: Option<string>,
    expires: int)

  /** A persistent login, named by its series. */
  datatype LongTermRecord = LongTermRecord(series: string, tokenHash: string, userId: string)

  /**
   * What parsing a long-term cookie value yields. The parser and its
   * keyed-hash check are not part of this model; handlers receive it as a
   * function.
   */
  datatype LongTermCookie = LongTermCookie(isValid: bool, series: string)

  /** The two stores; `longTerm` is `None` when no long-term storage is configured. */
  datatype Stores = Stores(shortTerm: seq<SessionRecord>, longTerm: Option<seq<LongTermRecord>>)

  /** Everything a handler may change: the stores and the response. */
  datatype Context = Context(stores: Stores, response: Response)

  /** One call a handler makes on a store, in the order it makes them. */
  datatype StoreCall =
    | LookupXsrf(token: string)
    | LookupCookie(cookie: string)
    | Drop(session: SessionRecord)
    | Add(session: SessionRecord)
    | LookupSeries(series: string)
    | DropLongTerm(login: LongTermRecord)

  /** The first element of `s` satisfying `p`, if any. */
  function FindFirst<T>(s: seq<T>, p: T -> bool): (r: Option<T>)
    ensures r.Some? ==> r.value in s && p(r.value)
    ensures r.None? <==> forall x :: x in s ==> !p(x)
  {
    if |s| == 0 then None
    else if p(s[0]) then Some(s[0])
    else FindFirst(s[1..], p)
  }

  /** `s` without any copy of `x`, order kept. */
  function RemoveAll<T(==,!new)>(s: seq<T>, x: T): (r: seq<T>)
    ensures forall y :: y in r <==> y in s && y != x
    ensures |r| <= |s|
  {
    if |s| == 0 then []
    else if s[0] == x then RemoveAll(s[1..], x)
    else [s[0]] + RemoveAll(s[1..], x)
  }

  ghost predicate HoldsXsrf(st: Stores, token: string) {
    exists s :: s in st.shortTerm && s.xsrfToken == Some(token)
  }

  ghost predicate HoldsCookie(st: Stores, cookie: string) {
    exists s :: s in st.shortTerm && s.cookie == Some(cookie)
  }

  /** `GetSessionFromXSRFAsync`. */
  function SessionByXsrf(st: Stores, token: string): (r: Option<SessionRecord>)
    ensures r.Some? ==> r.value in st.shortTerm && r.value.xsrfToken == Some(token)
    ensures r.None? <==> !HoldsXsrf(st, token)
  {
    FindFirst(st.shortTerm, (s: SessionRecord) => s.xsrfToken == Some(token))
  }

  /** `GetSessionFromCookieAsync`. */
  function SessionByCookie(st: Stores, cookie: string): (r: Option<SessionRecord>)
    ensures r.Some? ==> r.value in st.shortTerm && r.value.cookie == Some(cookie)
    ensures r.None? <==> !HoldsCookie(st, cookie)
  {
    FindFirst(st.shortTerm, (s: SessionRecord) => s.cookie == Some(cookie))
  }

  /** `DropSessionAsync`. */
  function WithoutSession(st: Stores, s: SessionRecord): (r: Stores)
    ensures forall x :: x in r.shortTerm <==> x in st.shortTerm && x != s
    ensures r.longTerm == st.longTerm
  {
    st.(shortTerm := RemoveAll(st.shortTerm, s))
  }

  /** `AddSessionAsync`. */
  function WithSession(st: Stores, s: SessionRecord): (r: Stores)
    ensures forall x :: x in r.shortTerm <==> x in st.shortTerm || x == s
    ensures r.longTerm == st.longTerm
  {
    st.(shortTerm := st.shortTerm + [s])
  }

  /** `GetLongTermLoginAsync`; nothing is found when no long-term store is configured. */
  function LongTermBySeries(st: Stores, series: string): (r: Option<LongTermRecord>)
    ensures r.Some? ==> st.longTerm.Some? && r.value in st.longTerm.value && r.value.series == series
    ensures r.None? <==> st.longTerm.None? || forall l :: l in st.longTerm.value ==> l.series != series
  {
    match st.longTerm
    case None => None
    case Some(ls) => FindFirst(ls, (l: LongTermRecord) => l.series == series)
  }

  /** `DropLongTermLoginAsync`. */
  function WithoutLongTerm(st: Stores, l: LongTermRecord): (r: Stores)
    ensures r.shortTerm == st.shortTerm
    ensures r.longTerm.Some? <==> st.longTerm.Some?
    ensures r.longTerm.Some? ==> forall x :: x in r.longTerm.value <==> x in st.longTerm.value && x != l
  {
    match st.longTerm
    case None => st
    case Some(ls) => st.(longTerm := Some(RemoveAll(ls, l)))
  }

  /** The effect of one call on the stores: lookups change nothing. */
  function Apply(st: Stores, c: StoreCall): Stores {
    match c
    case Drop(s) => WithoutSession(st, s)
    case Add(s) => WithSession(st, s)
    case DropLongTerm(l) => WithoutLongTerm(st, l)
    case _ => st
  }

  /** The stores after the calls, made one after the other. */
  function Replay(st: Stores, calls: seq<StoreCall>): Stores
    decreases |calls|
  {
    if |calls| == 0 then st else Replay(Apply(st, calls[0]), calls[1..])
  }

  lemma {:induction false} ReplayAppend(st: Stores, a: seq<StoreCall>, b: seq<StoreCall>)
    ensures Replay(st, a + b) == Replay(Replay(st, a), b)
    decreases |a|
  {
    if |a| == 0 {
      assert a + b == b;
    } else {
      assert (a + b)[0] == a[0];
      assert (a + b)[1..] == a[1..] + b;
      ReplayAppend(Apply(st, a[0]), a[1..], b);
    }
  }

  lemma ReplaySingle(st: Stores, a: StoreCall)
    ensures Replay(st, [a]) == Apply(st, a)
  {
    assert [a][1..] == [];
  }

  lemma ReplayPair(st: Stores, a: StoreCall, b: StoreCall)
    ensures Replay(st, [a, b]) == Apply(Apply(st, a), b)
  {
    assert [a, b][1..] == [b];
    ReplaySingle(Apply(st, a), b);
  }

  /** Two distinct records share neither an XSRF token nor a session cookie. */
  ghost predicate KeysDisjoint(a: SessionRecord, b: SessionRecord) {
    && (a.xsrfToken.None? || a.xsrfToken != b.xsrfToken)
    && (a.cookie.None? || a.cookie != b.cookie)
  }

  /** Every XSRF token and every session cookie addresses at most one record. */
  ghost predicate UniqueKeys(st: Stores) {
    forall a, b :: a in st.shortTerm && b in st.shortTerm && a != b ==> KeysDisjoint(a, b)
  }
}
