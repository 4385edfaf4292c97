/**
 * The decision rules of Ceen.Extras' CRUD controller helper: which access
 * types an action needs, the argument checks that answer Bad Request before
 * any database work, the mapping from known exceptions to a status, and how
 * each action turns the database's answer into a reply.
 *
 * The database work of an action (query building, the transaction, JSON
 * patching, the overridable hooks) is one oracle value per request: what
 * that work raised or returned. An action result records whether it got as
 * far as the database.
 */
module CrudHelper {
  import opened Text

  datatype AccessType = Get | Update | Add | List | Delete

  /** Every access type. */
  const FullAccess: seq<AccessType> := [Add, Delete, Get, List, Update]

  /** Reading only. */
  const ReadOnlyAccess: seq<AccessType> := [Get, List]

  datatype HttpStatus = OK | BadRequest | NotFound | MethodNotAllowed

  /** The exceptions the helper tells apart; anything else is `OtherException`. */
  datatype Exception =
    | ValidationException(member: Option<string>, message: string)
    | FilterParserException(message: string)
    | HttpException(status: HttpStatus)
    | ArgumentNullException(paramName: string)
    | OtherException(message: string)

  datatype StatusCodeResult = StatusCodeResult(status: HttpStatus, message: Option<string>)

  /** What an action answers: a status, a JSON body, or an exception left to the caller. */
  datatype Reply<T> = Status(result: StatusCodeResult) | Json(body: T) | Thrown(error: Exception)

  datatype ActionResult<T> = ActionResult(reply: Reply<T>, databaseUsed: bool)

  /** The oracle for an action's database work: it raised an exception, or it returned a value. */
  datatype DbStep<R> = Raised(error: Exception) | Returned(value: R)

  datatype ListRequest = ListRequest(offset: int, count: int, filter: Option<string>, sortOrder: Option<string>)

  datatype ListResponse<T> = ListResponse(offset: int, total: int, result: Option<seq<T>>)

  /** `new ListResponse(data)`: the result is the data and the total its length (0 for null). */
  function ListResponseOf<T>(data: Option<seq<T>>): (r: ListResponse<T>)
    ensures r.result == data
    ensures r.offset == 0
    ensures data.Some? ==> r.total == |data.value|
    ensures data.None? ==> r.total == 0
  {
    ListResponse(0, if data.Some? then |data.value| else 0, data)
  }

  /** CRUDExceptionHelper.WrapExceptionMessage. */
  function WrapExceptionMessage(ex: Exception): (r: Option<StatusCodeResult>)
    ensures r.Some? <==> ex.ValidationException? || ex.FilterParserException?
    ensures r.Some? ==> r.value.status == BadRequest && r.value.message.Some?
    ensures ex.ValidationException? && ex.member.None? ==> r.value.message == Some(ex.message)
    ensures ex.ValidationException? && ex.member.Some? ==>
      r.value.message == Some(ex.member.value + " - " + ex.message)
    ensures ex.FilterParserException? ==> r.value.message == Some("Filter error: " + ex.message)
  {
    match ex
    case ValidationException(member, message) =>
      var prefix := if member.Some? then member.value + " - " else "";
      assert member.None? ==> prefix + message == message;
      Some(StatusCodeResult(BadRequest, Some(prefix + message)))
    case FilterParserException(message) =>
      Some(StatusCodeResult(BadRequest, Some("Filter error: " + message)))
    case _ => None
  }

  /** Every reply to a known exception ends with the exception's own message. */
  lemma WrappedMessageEndsWithOriginal(ex: Exception)
    requires ex.ValidationException? || ex.FilterParserException?
    ensures var m := WrapExceptionMessage(ex).value.message.value;
      |ex.message| <= |m| && m[|m| - |ex.message|..] == ex.message
  {
    var m := WrapExceptionMessage(ex).value.message.value;
    if ex.ValidationException? && ex.member.Some? {
      assert m == (ex.member.value + " - ") + ex.message;
    }
  }

  /** What an action's `catch` block makes of an exception: a reply, or the exception rethrown. */
  datatype Recovery = Answered(result: StatusCodeResult) | Rethrown(error: Exception)

  /**
   * The default HandleExceptionAsync followed by the action's `catch`: a
   * known exception becomes its status reply, any other is rethrown.
   */
  function Recover(ex: Exception): (r: Recovery)
    ensures r.Rethrown? <==> WrapExceptionMessage(ex).None?
    ensures r.Rethrown? ==> r.error == ex
    ensures r.Answered? ==> r.result.status == BadRequest && r.result == WrapExceptionMessage(ex).value
  {
    match WrapExceptionMessage(ex)
    case Some(s) => Answered(s)
    case None => Rethrown(ex)
  }

  /** The reply an action gives for a recovered exception. */
  function RecoveredReply<T>(ex: Exception): Reply<T> {
    match Recover(ex)
    case Answered(s) => Status(s)
    case Rethrown(e) => Thrown(e)
  }

  /** The outcome of the Authorize check. */
  datatype Authorization = Granted | Refused(error: Exception)

  /**
   * CRUDHelper.Authorize: granted when the allowed list holds the access
   * type, refused with 405 Method Not Allowed otherwise. A null list makes
   * the membership test throw.
   */
  function Authorize(allowed: Option<seq<AccessType>>, access: AccessType): (r: Authorization)
    ensures r.Granted? <==> allowed.Some? && access in allowed.value
    ensures allowed.Some? && access !in allowed.value ==> r == Refused(HttpException(MethodNotAllowed))
    ensures allowed.None? ==> r == Refused(ArgumentNullException("source"))
  {
    match allowed
    case None => Refused(ArgumentNullException("source"))
    case Some(types) =>
      if access in types then Granted
      else Refused(HttpException(MethodNotAllowed))
  }

  lemma AccessListsContents()
    ensures forall a: AccessType :: a in FullAccess
    ensures forall a: AccessType :: a in ReadOnlyAccess <==> a == Get || a == List
  {
    forall a: AccessType
      ensures a in FullAccess
    {
      match a
      case Add => assert FullAccess[0] == a;
      case Delete => assert FullAccess[1] == a;
      case Get => assert FullAccess[2] == a;
      case List => assert FullAccess[3] == a;
      case Update => assert FullAccess[4] == a;
    }
  }

  /** A plain status reply, as the controller's `OK`, `BadRequest` and `NotFound` give. */
  function StatusOnly<T>(status: HttpStatus): Reply<T> {
    Status(StatusCodeResult(status, None))
  }

  /** CRUDHelper.Get; the oracle returns the selected item, or null. */
  function GetItem<T>(allowed: Option<seq<AccessType>>, db: DbStep<Option<T>>): (r: ActionResult<T>)
    ensures !Authorize(allowed, Get).Granted? ==> r == ActionResult(Thrown(Authorize(allowed, Get).error), false)
    ensures Authorize(allowed, Get).Granted? ==> r.databaseUsed
    ensures r.reply.Json? <==> Authorize(allowed, Get).Granted? && db.Returned? && db.value.Some?
    ensures r.reply.Json? ==> r.reply.body == db.value.value
    ensures r.reply == StatusOnly(NotFound) <==> Authorize(allowed, Get).Granted? && db == Returned(None)
    ensures r.databaseUsed && db.Raised? ==> r.reply == RecoveredReply(db.error)
  {
    match Authorize(allowed, Get)
    case Refused(e) => ActionResult(Thrown(e), false)
    case Granted =>
      match db
      case Raised(e) => ActionResult(RecoveredReply(e), true)
      case Returned(None) => ActionResult(StatusOnly(NotFound), true)
      case Returned(Some(item)) => ActionResult(Json(item), true)
  }

  /** What the patch transaction found: no item, or the updated row count and the reloaded item. */
  datatype PatchEffect<T> = Missing | Updated(affected: int, reloaded: T)

  /** CRUDHelper.Patch; an absent or empty set of values is a bad request. */
  function Patch<T, V>(allowed: Option<seq<AccessType>>, values: Option<map<string, V>>, db: DbStep<PatchEffect<T>>): (r: ActionResult<T>)
    ensures !Authorize(allowed, Update).Granted? ==> r == ActionResult(Thrown(Authorize(allowed, Update).error), false)
    ensures Authorize(allowed, Update).Granted? && (values.None? || |values.value| == 0) ==>
      r == ActionResult(StatusOnly(BadRequest), false)
    ensures r.databaseUsed <==> Authorize(allowed, Update).Granted? && values.Some? && |values.value| > 0
    ensures r.reply.Json? <==> r.databaseUsed && db.Returned? && db.value.Updated? && db.value.affected > 0
    ensures r.reply.Json? ==> r.reply.body == db.value.reloaded
    ensures r.databaseUsed && db.Returned? && !r.reply.Json? ==> r.reply == StatusOnly(NotFound)
    ensures r.databaseUsed && db.Raised? ==> r.reply == RecoveredReply(db.error)
  {
    match Authorize(allowed, Update)
    case Refused(e) => ActionResult(Thrown(e), false)
    case Granted =>
      if values.None? || |values.value| == 0 then ActionResult(StatusOnly(BadRequest), false)
      else
        match db
        case Raised(e) => ActionResult(RecoveredReply(e), true)
        case Returned(Missing) => ActionResult(StatusOnly(NotFound), true)
        case Returned(Updated(n, item)) =>
          ActionResult(if n > 0 then Json(item) else StatusOnly(NotFound), true)
  }

  /** CRUDHelper.Post; a null item is a bad request, otherwise the inserted item is echoed. */
  function Post<T>(allowed: Option<seq<AccessType>>, item: Option<T>, db: DbStep<T>): (r: ActionResult<T>)
    ensures !Authorize(allowed, Add).Granted? ==> r == ActionResult(Thrown(Authorize(allowed, Add).error), false)
    ensures Authorize(allowed, Add).Granted? && item.None? ==> r == ActionResult(StatusOnly(BadRequest), false)
    ensures r.databaseUsed <==> Authorize(allowed, Add).Granted? && item.Some?
    ensures r.databaseUsed && db.Returned? ==> r.reply == Json(db.value)
    ensures r.databaseUsed && db.Raised? ==> r.reply == RecoveredReply(db.error)
  {
    match Authorize(allowed, Add)
    case Refused(e) => ActionResult(Thrown(e), false)
    case Granted =>
      if item.None? then ActionResult(StatusOnly(BadRequest), false)
      else
        match db
        case Raised(e) => ActionResult(RecoveredReply(e), true)
        case Returned(inserted) => ActionResult(Json(inserted), true)
  }

  /** CRUDHelper.Delete; the oracle returns the number of rows deleted. */
  function DeleteItem(allowed: Option<seq<AccessType>>, db: DbStep<int>): (r: ActionResult<()>)
    ensures !Authorize(allowed, Delete).Granted? ==> r == ActionResult(Thrown(Authorize(allowed, Delete).error), false)
    ensures r.reply == StatusOnly(OK) <==> Authorize(allowed, Delete).Granted? && db.Returned? && db.value > 0
    ensures r.reply == StatusOnly(NotFound) <==> Authorize(allowed, Delete).Granted? && db.Returned? && db.value <= 0
    ensures r.databaseUsed <==> Authorize(allowed, Delete).Granted?
    ensures r.databaseUsed && db.Raised? ==> r.reply == RecoveredReply(db.error)
  {
    match Authorize(allowed, Delete)
    case Refused(e) => ActionResult(Thrown(e), false)
    case Granted =>
      match db
      case Raised(e) => ActionResult(RecoveredReply(e), true)
      case Returned(n) => ActionResult(if n > 0 then StatusOnly(OK) else StatusOnly(NotFound), true)
  }

  /** What the search transaction counted and selected. */
  datatype Page<T> = Page(total: int, rows: seq<T>)

  /** CRUDHelper.Search (and List, which forwards to it); a null request is a bad request. */
  function Search<T>(allowed: Option<seq<AccessType>>, request: Option<ListRequest>, db: DbStep<Page<T>>): (r: ActionResult<ListResponse<T>>)
    ensures !Authorize(allowed, List).Granted? ==> r == ActionResult(Thrown(Authorize(allowed, List).error), false)
    ensures Authorize(allowed, List).Granted? && request.None? ==> r == ActionResult(StatusOnly(BadRequest), false)
    ensures r.databaseUsed <==> Authorize(allowed, List).Granted? && request.Some?
    ensures r.reply.Json? <==> r.databaseUsed && db.Returned?
    ensures r.reply.Json? ==>
      && r.reply.body.offset == request.value.offset
      && r.reply.body.total == db.value.total
      && r.reply.body.result == Some(db.value.rows)
    ensures r.databaseUsed && db.Raised? ==> r.reply == RecoveredReply(db.error)
  {
    match Authorize(allowed, List)
    case Refused(e) => ActionResult(Thrown(e), false)
    case Granted =>
      if request.None? then ActionResult(StatusOnly(BadRequest), false)
      else
        match db
        case Raised(e) => ActionResult(RecoveredReply(e), true)
        case Returned(page) => ActionResult(Json(ListResponse(request.value.offset, page.total, Some(page.rows))), true)
  }

  /**
   * A controller that allows only `ReadOnlyAccess` serves reads and never
   * reaches the database for an update, an insert or a delete, whatever the
   * request carries; one that allows `FullAccess` is refused nothing.
   */
  lemma ReadOnlyAccessNeverWrites<T, V>(
    values: Option<map<string, V>>, item: Option<T>,
    db1: DbStep<PatchEffect<T>>, db2: DbStep<T>, db3: DbStep<int>, access: AccessType)
    ensures Authorize(Some(ReadOnlyAccess), access).Granted? <==> access == Get || access == List
    ensures Authorize(Some(FullAccess), access).Granted?
    ensures !Patch<T, V>(Some(ReadOnlyAccess), values, db1).databaseUsed
    ensures Patch<T, V>(Some(ReadOnlyAccess), values, db1).reply == Thrown(HttpException(MethodNotAllowed))
    ensures !Post(Some(ReadOnlyAccess), item, db2).databaseUsed
    ensures Post(Some(ReadOnlyAccess), item, db2).reply == Thrown(HttpException(MethodNotAllowed))
    ensures !DeleteItem(Some(ReadOnlyAccess), db3).databaseUsed
    ensures DeleteItem(Some(ReadOnlyAccess), db3).reply == Thrown(HttpException(MethodNotAllowed))
  {
    AccessListsContents();
  }

  /**
   * Authorization comes before argument checks: whatever the allowed list,
   * the arguments and the database would do, a caller whose list lacks the
   * action's access type is refused with 405 before any database work, even
   * when its arguments are also bad.
   */
  lemma AuthorizationPrecedesValidation<T, V>(
    allowed: seq<AccessType>, values: Option<map<string, V>>, item: Option<T>, request: Option<ListRequest>,
    db0: DbStep<Option<T>>, db1: DbStep<PatchEffect<T>>, db2: DbStep<T>, db3: DbStep<int>, db4: DbStep<Page<T>>)
    ensures Get !in allowed ==>
      GetItem(Some(allowed), db0) == ActionResult(Thrown(HttpException(MethodNotAllowed)), false)
    ensures Update !in allowed ==>
      Patch(Some(allowed), values, db1) == ActionResult(Thrown(HttpException(MethodNotAllowed)), false)
    ensures Add !in allowed ==>
      Post(Some(allowed), item, db2) == ActionResult(Thrown(HttpException(MethodNotAllowed)), false)
    ensures Delete !in allowed ==>
      DeleteItem(Some(allowed), db3) == ActionResult(Thrown(HttpException(MethodNotAllowed)), false)
    ensures List !in allowed ==>
      Search(Some(allowed), request, db4) == ActionResult(Thrown(HttpException(MethodNotAllowed)), false)
  {
  }

  /**
   * An action that stops before the database does not depend on it: when it
   * reports no database work, any other database behaviour gives the same
   * result. So the early answers are decided by the arguments alone.
   */
  lemma EarlyAnswersIgnoreDatabase<T, V>(
    allowed: Option<seq<AccessType>>, values: Option<map<string, V>>, item: Option<T>, request: Option<ListRequest>,
    get1: DbStep<Option<T>>, get2: DbStep<Option<T>>,
    patch1: DbStep<PatchEffect<T>>, patch2: DbStep<PatchEffect<T>>,
    post1: DbStep<T>, post2: DbStep<T>,
    delete1: DbStep<int>, delete2: DbStep<int>,
    search1: DbStep<Page<T>>, search2: DbStep<Page<T>>)
    ensures !GetItem(allowed, get1).databaseUsed ==> GetItem(allowed, get1) == GetItem(allowed, get2)
    ensures !Patch(allowed, values, patch1).databaseUsed ==> Patch(allowed, values, patch1) == Patch(allowed, values, patch2)
    ensures !Post(allowed, item, post1).databaseUsed ==> Post(allowed, item, post1) == Post(allowed, item, post2)
    ensures !DeleteItem(allowed, delete1).databaseUsed ==> DeleteItem(allowed, delete1) == DeleteItem(allowed, delete2)
    ensures !Search(allowed, request, search1).databaseUsed ==>
      Search(allowed, request, search1) == Search(allowed, request, search2)
  {
  }

  /**
   * A first page whose total is the number of rows it holds is exactly what
   * `new ListResponse(rows)` builds.
   */
  lemma FirstPageIsListResponse<T>(allowed: Option<seq<AccessType>>, request: ListRequest, rows: seq<T>)
    requires Authorize(allowed, List).Granted?
    requires request.offset == 0
    ensures Search(allowed, Some(request), Returned(Page(|rows|, rows))).reply == Json(ListResponseOf(Some(rows)))
  {
  }
}
