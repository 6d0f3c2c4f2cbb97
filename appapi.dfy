/**
  The application routes: the page and size bounds of the list queries, the
  offset they pass to the service, the fixed filters of the platform and user
  lists, and the status each service result is answered with.
*/
module AppApi {
  import opened Wrappers
  import opened Tables
  import opened AppModel
  import S = AppSchema
  import opened AppService
  import opened Store

  /** A route's answer: the response body, or an HTTP error status. */
  datatype Reply<T> = Success(body: T) | Refused(status: nat)

  const BadRequest: nat := 400
  const NotFound: nat := 404
  /** The framework's answer to a query parameter outside its declared bounds. */
  const Unprocessable: nat := 422
  /** An exception no route catches. */
  const ServerError: nat := 500

  const DeletedMessage: string := "AI应用删除成功"

  /* ------------------------------------------------------------ pagination */

  /** The declared bounds of the `page` and `size` query parameters. */
  predicate PageParamsValid(page: int, size: int) { page >= 1 && 1 <= size <= 100 }

  /** `skip = (page - 1) * size`. */
  function SkipFor(page: int, size: int): (skip: nat)
    requires PageParamsValid(page, size)
    ensures skip % size == 0 && skip / size == page - 1
  {
    PageOffset(page - 1, size);
    (page - 1) * size
  }

  lemma PageOffset(n: nat, size: nat)
    requires size >= 1
    ensures n * size % size == 0 && n * size / size == n
  {
    var q := n * size / size;
    var r := n * size % size;
    assert n * size == q * size + r && 0 <= r < size;
    assert (n - q) * size == r;
    if q < n {
      assert false;
    } else if q > n {
      assert false;
    }
  }

  /** The service's `skip // limit + 1` gives back the page the caller asked for. */
  lemma PageRoundTrip(page: int, size: int)
    requires PageParamsValid(page, size)
    ensures SkipFor(page, size) / size + 1 == page
  {
  }

  /**
    `get_ai_apps` behind the bounds: a page or size out of bounds is refused
    before the service runs; otherwise the reply carries the filtered total,
    the requested page and size, or the server error the service raises.
  */
  function ListReply(apps: seq<AppRow>, appType: Option<string>, userId: Option<string>, page: int, size: int)
    : (r: Reply<S.AppListResponse>)
    ensures r == Refused(Unprocessable) <==> !PageParamsValid(page, size)
    ensures r.Refused? ==> r.status in {Unprocessable, ServerError}
    ensures r == Refused(ServerError) <==>
              PageParamsValid(page, size) && ListApps(apps, appType, userId, SkipFor(page, size), size).Err?
    ensures r.Success? <==>
              PageParamsValid(page, size)
              && forall row :: row in Window(Filtered(apps, appType, userId), SkipFor(page, size), size) ==> Presentable(row)
    ensures r.Success? ==> r.body.page == page && r.body.size == size && r.body.total == |Filtered(apps, appType, userId)|
    ensures r.Success? ==> |r.body.apps| == |Window(Filtered(apps, appType, userId), SkipFor(page, size), size)|
    ensures r.Success? ==> forall k :: 0 <= k < |r.body.apps| ==>
              SkipFor(page, size) + k < |Filtered(apps, appType, userId)|
              && ConvertToResponse(Filtered(apps, appType, userId)[SkipFor(page, size) + k]) == Ok(r.body.apps[k])
  {
    if !PageParamsValid(page, size) then Refused(Unprocessable)
    else
      match ListApps(apps, appType, userId, SkipFor(page, size), size)
      case Ok(list) => PageRoundTrip(page, size); Success(list)
      case Err(_) => Refused(ServerError)
  }

  /** A page that is served is the window of filtered rows at its offset, every one converted. */
  lemma ReplyWindow(apps: seq<AppRow>, appType: Option<string>, userId: Option<string>, page: int, size: int)
    requires ListReply(apps, appType, userId, page, size).Success?
    ensures ConvertAll(Window(Filtered(apps, appType, userId), SkipFor(page, size), size))
            == Ok(ListReply(apps, appType, userId, page, size).body.apps)
  {
    ListedWindow(apps, appType, userId, SkipFor(page, size), size);
  }

  /** The rows of pages `1..n` of one query, `size` rows a page, as a client reads them in turn. */
  function PageBodies(apps: seq<AppRow>, appType: Option<string>, userId: Option<string>, size: int, n: nat)
    : seq<seq<S.AppResponse>>
  {
    seq(n, p => match ListReply(apps, appType, userId, p + 1, size) case Success(list) => list.apps case _ => [])
  }

  /**
    Paging through a query lists each filtered row once and in order: pages
    `1..n` together are the first `n * size` filtered rows, every one converted,
    and once `n * size` reaches the total they are all of them.
  */
  lemma ListedPagesReadPrefix(apps: seq<AppRow>, appType: Option<string>, userId: Option<string>, size: int, n: nat)
    requires PageParamsValid(1, size)
    requires forall page :: 1 <= page <= n ==> ListReply(apps, appType, userId, page, size).Success?
    ensures ConvertAll(Window(Filtered(apps, appType, userId), 0, n * size)) == Ok(Concat(PageBodies(apps, appType, userId, size, n)))
    ensures n * size >= |Filtered(apps, appType, userId)| ==>
              ConvertAll(Filtered(apps, appType, userId)) == Ok(Concat(PageBodies(apps, appType, userId, size, n)))
  {
    var rows := Filtered(apps, appType, userId);
    var pages := PageBodies(apps, appType, userId, size, n);
    forall p | 0 <= p < |pages| ensures MapAll(Window(rows, p * size, size), ConvertToResponse) == Ok(pages[p]) {
      ReplyWindow(apps, appType, userId, p + 1, size);
      NextOffset(p + 1, size);
    }
    MapAllPagesPrefix(rows, size, pages, ConvertToResponse);
    if n * size >= |rows| {
      assert Window(rows, 0, n * size) == rows;
    }
  }

  /** Page `n` starts where the first `n - 1` pages end. */
  lemma NextOffset(n: nat, size: int)
    requires n >= 1 && PageParamsValid(1, size)
    ensures SkipFor(n, size) == (n - 1) * size
  {
  }

  /** `/ai-apps/platform`: only platform applications, whatever the rows hold. */
  function PlatformApps(apps: seq<AppRow>, page: int, size: int): (r: Reply<S.AppListResponse>)
    ensures r == Refused(Unprocessable) <==> !PageParamsValid(page, size)
    ensures r.Success? ==> r.body.total == |Filtered(apps, Some("platform"), None)|
    ensures r.Success? ==> forall a :: a in r.body.apps ==> a.appType == "platform"
  {
    var r := ListReply(apps, Some("platform"), None, page, size);
    if r.Success? then
      ListedAppsMatch(apps, Some("platform"), None, SkipFor(page, size), size);
      r
    else r
  }

  /** `/ai-apps/user/{user_id}`: only that user's applications (a path segment is never empty). */
  function UserApps(apps: seq<AppRow>, userId: string, page: int, size: int): (r: Reply<S.AppListResponse>)
    ensures r == Refused(Unprocessable) <==> !PageParamsValid(page, size)
    ensures r.Success? ==> r.body.total == |Filtered(apps, None, Some(userId))|
    ensures r.Success? && userId != "" ==> forall a :: a in r.body.apps ==> a.userId == Some(userId)
  {
    var r := ListReply(apps, None, Some(userId), page, size);
    if r.Success? then
      ListedAppsMatch(apps, None, Some(userId), SkipFor(page, size), size);
      r
    else r
  }

  /* ------------------------------------------------------- single-app routes */

  /** A create failure of any kind is one generic bad request. */
  function CreateReply(c: Result<S.AppResponse, Failure>): (r: Reply<S.AppResponse>)
    ensures c.Err? <==> r == Refused(BadRequest)
    ensures c.Ok? <==> r.Success?
    ensures c.Ok? ==> r.body == c.value
  {
    match c
    case Ok(v) => Success(v)
    case Err(_) => Refused(BadRequest)
  }

  /** The get and update routes: a missing row is not found, an uncaught exception a server error. */
  function OutcomeReply(o: Outcome<S.AppResponse>): (r: Reply<S.AppResponse>)
    ensures o.Missing? <==> r == Refused(NotFound)
    ensures o.Raised? <==> r == Refused(ServerError)
    ensures o.Done? <==> r.Success?
    ensures o.Done? ==> r.body == o.value
  {
    match o
    case Missing => Refused(NotFound)
    case Done(v) => Success(v)
    case Raised(_) => Refused(ServerError)
  }

  /** The delete route: `False` is not found, `True` the confirmation message. */
  function DeleteReply(deleted: bool): (r: Reply<string>)
    ensures !deleted <==> r == Refused(NotFound)
    ensures deleted <==> r == Success(DeletedMessage)
  {
    if deleted then Success(DeletedMessage) else Refused(NotFound)
  }

  /** `GET /ai-apps/{app_id}`: not found exactly when no row has that id. */
  function GetRoute(apps: seq<AppRow>, id: string): (r: Reply<S.AppResponse>)
    ensures r == Refused(NotFound) <==> KeyFree(apps, AppId, id)
    ensures r.Success? ==> r.body.id == id
  {
    OutcomeReply(GetApp(apps, id))
  }

  /** A row whose identifier is taken can never be inserted. */
  lemma DuplicateIdentifierRefused(apps: seq<AppRow>, row: AppRow)
    requires row.identifier.Some? && !IdentifierFree(apps, row.identifier.value)
    ensures !AppsValid(apps + [row])
  {
    var i :| 0 <= i < |apps| && apps[i].identifier == row.identifier;
    var t := apps + [row];
    assert t[i] == apps[i] && t[|apps|] == row;
    assert t[i].identifier == t[|apps|].identifier;
  }

  /** `POST /ai-apps/`: a refused commit, a duplicate identifier included, is a bad request. */
  method CreateRoute(db: Database, d: S.AppCreate, id: string, now: Timestamp) returns (reply: Reply<S.AppResponse>)
    requires db.Valid()
    modifies db
    ensures db.Valid() && db.agents == old(db.agents) && db.mcps == old(db.mcps)
    ensures var row := CreatedRow(d, id, now);
            if AppsValid(old(db.apps) + [row]) then db.apps == old(db.apps) + [row] && reply == CreateReply(ConvertToResponse(row))
            else db.apps == old(db.apps) && reply == Refused(BadRequest)
    ensures !IdentifierFree(old(db.apps), d.identifier) ==> db.apps == old(db.apps) && reply == Refused(BadRequest)
  {
    ghost var before := db.apps;
    var r := CreateApp(db, d, id, now);
    reply := CreateReply(r);
    if !IdentifierFree(before, d.identifier) {
      DuplicateIdentifierRefused(before, CreatedRow(d, id, now));
    }
  }

  /** `PUT /ai-apps/{app_id}`: not found exactly when no row has that id, and then nothing changes. */
  method UpdateRoute(db: Database, id: string, p: S.AppPatch, now: Timestamp) returns (reply: Reply<S.AppResponse>)
    requires db.Valid()
    modifies db
    ensures db.Valid() && db.agents == old(db.agents) && db.mcps == old(db.mcps)
    ensures reply == Refused(NotFound) <==> KeyFree(old(db.apps), AppId, id)
    ensures match Find(old(db.apps), AppId, id)
            case None => db.apps == old(db.apps)
            case Some(i) =>
              match PatchData(p)
              case Err(_) => db.apps == old(db.apps) && reply == Refused(ServerError)
              case Ok(data) =>
                var row := Patched(old(db.apps)[i], data, now);
                if AppsValid(old(db.apps)[i := row]) then db.apps == old(db.apps)[i := row] && reply == OutcomeReply(Answer(ConvertToResponse(row)))
                else db.apps == old(db.apps) && reply == Refused(ServerError)
  {
    var r := UpdateApp(db, id, p, now);
    reply := OutcomeReply(r);
  }

  /** `DELETE /ai-apps/{app_id}`: not found exactly when no row has that id; otherwise only that row goes. */
  method DeleteRoute(db: Database, id: string) returns (reply: Reply<string>)
    requires db.Valid()
    modifies db
    ensures db.Valid() && db.agents == old(db.agents) && db.mcps == old(db.mcps)
    ensures reply == Refused(NotFound) <==> KeyFree(old(db.apps), AppId, id)
    ensures reply == Refused(NotFound) ==> db.apps == old(db.apps)
    ensures reply.Success? ==> reply.body == DeletedMessage && KeyFree(db.apps, AppId, id)
    ensures forall a :: a in db.apps <==> a in old(db.apps) && a.id != id
  {
    var deleted := DeleteApp(db, id);
    reply := DeleteReply(deleted);
  }
}
