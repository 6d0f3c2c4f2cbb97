/**
  The AI-application service: create, read, list, update and delete
  applications, the row-to-response conversion with its lenient decoding of
  the nested lists, the system-prompt builder, and the agent and connector
  summaries offered when an application is configured.
*/
module AppService {
  import opened Wrappers
  import opened Json
  import opened Tables
  import opened AppModel
  import opened Store
  import S = AppSchema
  import AgentModel
  import McpModel

  /** `f"/app/{identifier}"`: a null identifier is formatted as the text `None`. */
  function AccessUrlFor(identifier: Option<string>): (url: string)
    ensures identifier.Some? ==> url == "/app/" + identifier.value
    ensures identifier.None? ==> url == "/app/None"
  {
    "/app/" + (if identifier.Some? then identifier.value else "None")
  }

  /* ------------------------------------------------ nested lists as columns */

  /** The text create stores for a nested list: NULL for a null or empty list (`[]` is falsy). */
  function CreateColumn<T>(xs: Option<seq<T>>, toJson: T -> Json): (cell: Option<string>)
    ensures cell.None? <==> xs.None? || xs.value == []
  {
    if xs.None? || xs.value == [] then None else Some(Encode(S.ListJson(xs.value, toJson)))
  }

  /**
    `_convert_to_response`'s reading of a nested list column: NULL or empty
    text reads as null, and so does text that does not parse or whose items
    do not build (the exception is swallowed).
  */
  function DecodeColumn<T>(cell: Option<string>, of: Json -> Option<T>): (r: Option<seq<T>>)
    ensures cell.None? || cell.value == "" ==> r.None?
  {
    if cell.None? || cell.value == [] then None
    else
      match Decode(cell.value)
      case None => None
      case Some(data) => S.ListOf(data, of)
  }

  /** A list written by create reads back as itself, except that the empty list reads back as null. */
  lemma {:induction false} CreatedColumnReadsBack<T>(xs: Option<seq<T>>, toJson: T -> Json, of: Json -> Option<T>)
    requires forall x :: of(toJson(x)) == Some(x)
    ensures DecodeColumn(CreateColumn(xs, toJson), of) == if xs == Some([]) then None else xs
  {
    if xs.Some? && xs.value != [] {
      var j := S.ListJson(xs.value, toJson);
      DecodeEncode(j);
      assert Encode(j) != [] by { EncodeStart(j); }
      S.ListRoundTrip(xs.value, toJson, of);
    }
  }

  /** Text that is not the output of `json.dumps` reads as null. */
  lemma MalformedColumnIsNull<T>(s: string, of: Json -> Option<T>)
    requires forall j :: s != Encode(j)
    ensures DecodeColumn(Some(s), of).None?
  {
    if s != [] && Decode(s).Some? {
      DecodeInvertsEncode(s, Decode(s).value);
      assert false;
    }
  }

  /** Well-formed text reads as the list its parsed value builds, null when an item does not build. */
  lemma EncodedColumnReads<T>(j: Json, of: Json -> Option<T>)
    ensures DecodeColumn(Some(Encode(j)), of) == S.ListOf(j, of)
  {
    DecodeEncode(j);
    assert Encode(j) != [] by { EncodeStart(j); }
  }

  /** The text `[]`, which an update stores for an empty list, reads as the empty list. */
  lemma EmptyArrayColumnIsEmpty<T>(of: Json -> Option<T>)
    ensures DecodeColumn(Some("[]"), of) == Some([])
  {
    assert Encode(JArray([])) == "[" + EncodeItems([]) + "]" == "[]";
    EncodedColumnReads(JArray([]), of);
  }

  /* --------------------------------------------------------------- convert */

  /** What the response record's validation demands of a stored row. */
  predicate Presentable(r: AppRow)
  {
    r.name.Some? && S.ValidName(r.name.value) && r.identifier.Some? && S.ValidName(r.identifier.value)
    && FitsVarchar(r.icon, 500) && FitsVarchar(r.dashboardUrl, 500) && r.isActive.Some? && r.appType.Some?
  }

  /** `_convert_to_response`: the row with its nested lists decoded; a row the record refuses raises. */
  function ConvertToResponse(r: AppRow): (res: Result<S.AppResponse, Failure>)
    ensures res.Err? <==> !Presentable(r)
    ensures res.Err? ==> res.error == ValidationError
    ensures res.Ok? ==> res.value.id == r.id && Some(res.value.identifier) == r.identifier && res.value.accessUrl == r.accessUrl
  {
    if !Presentable(r) then Err(ValidationError)
    else
      Ok(S.AppResponse(
        r.id, r.name.value, r.identifier.value, r.icon, r.description, r.isActive.value, r.dashboardUrl,
        r.accessUrl, r.mainAgentId,
        DecodeColumn(r.agentList, S.AgentConfigOf),
        DecodeColumn(r.mcpList, S.McpConfigOf),
        DecodeColumn(r.llmConfig, S.LlmConfigOf),
        r.systemPrompt, r.appType.value, r.userId, r.createdAt, r.updatedAt))
  }

  /** A row-level exception as the outcome of a call that found its row. */
  function Answer(c: Result<S.AppResponse, Failure>): Outcome<S.AppResponse>
  {
    match c
    case Ok(v) => Done(v)
    case Err(e) => Raised(e)
  }

  /* ----------------------------------------------------------------- create */

  /** The row `create_ai_app` inserts under the fresh id `id` at time `now`. */
  function CreatedRow(d: S.AppCreate, id: string, now: Timestamp): (r: AppRow)
    ensures r.id == id && r.accessUrl == Some("/app/" + d.identifier)
    ensures r.createdAt == now && r.updatedAt.None?
  {
    AppRow(id, Some(d.name), Some(d.identifier), d.icon, d.description, Some(d.isActive), d.dashboardUrl,
           Some(AccessUrlFor(Some(d.identifier))), d.mainAgentId,
           CreateColumn(d.agentList, S.AgentConfigJson),
           CreateColumn(d.mcpList, S.McpConfigJson),
           CreateColumn(d.llmConfig, S.LlmConfigJson),
           d.systemPrompt, Some(d.appType), d.userId, now, None)
  }

  /** An empty list as null, as create's truthiness test has it. */
  function NonEmpty<T>(xs: Option<seq<T>>): Option<seq<T>>
  {
    if xs == Some([]) then None else xs
  }

  /** The response create promises: the payload, the derived `access_url`, the new id and time. */
  function ExpectedResponse(d: S.AppCreate, id: string, now: Timestamp): S.AppResponse
  {
    S.AppResponse(id, d.name, d.identifier, d.icon, d.description, d.isActive, d.dashboardUrl,
                  Some("/app/" + d.identifier), d.mainAgentId,
                  NonEmpty(d.agentList), NonEmpty(d.mcpList), NonEmpty(d.llmConfig),
                  d.systemPrompt, d.appType, d.userId, now, None)
  }

  /** Reading back a created row gives the promised response. */
  lemma CreateRoundTrip(d: S.AppCreate, id: string, now: Timestamp)
    requires S.ValidAppCreate(d)
    ensures ConvertToResponse(CreatedRow(d, id, now)) == Ok(ExpectedResponse(d, id, now))
  {
    forall x ensures S.AgentConfigOf(S.AgentConfigJson(x)) == Some(x) { S.AgentConfigRoundTrip(x); }
    forall x ensures S.McpConfigOf(S.McpConfigJson(x)) == Some(x) { S.McpConfigRoundTrip(x); }
    forall x ensures S.LlmConfigOf(S.LlmConfigJson(x)) == Some(x) { S.LlmConfigRoundTrip(x); }
    CreatedColumnReadsBack(d.agentList, S.AgentConfigJson, S.AgentConfigOf);
    CreatedColumnReadsBack(d.mcpList, S.McpConfigJson, S.McpConfigOf);
    CreatedColumnReadsBack(d.llmConfig, S.LlmConfigJson, S.LlmConfigOf);
  }

  /** Only `name` and `identifier` given: active, a platform app, no owner, every optional field null. */
  lemma MinimalCreate(name: string, identifier: string, id: string, now: Timestamp)
    requires S.ValidName(name) && S.ValidName(identifier)
    ensures ConvertToResponse(CreatedRow(S.MinimalAppCreate(name, identifier), id, now))
         == Ok(S.AppResponse(id, name, identifier, None, None, true, None, Some("/app/" + identifier), None,
                             None, None, None, None, "platform", None, now, None))
  {
    CreateRoundTrip(S.MinimalAppCreate(name, identifier), id, now);
  }

  /**
    On a valid table, a create of a valid payload commits exactly when the
    columns the payload does not bound fit, and neither the id nor the
    identifier is already taken.
  */
  lemma CreateCommitsIff(apps: seq<AppRow>, d: S.AppCreate, id: string, now: Timestamp)
    requires AppsValid(apps) && S.ValidAppCreate(d)
    ensures AppsValid(apps + [CreatedRow(d, id, now)])
        <==> |id| <= 255 && FitsVarchar(d.mainAgentId, 255) && |d.appType| <= 50 && FitsVarchar(d.userId, 255)
             && KeyFree(apps, AppId, id) && IdentifierFree(apps, d.identifier)
  {
    var row := CreatedRow(d, id, now);
    var t := apps + [row];
    assert t[|apps|] == row;
    if AppsValid(t) {
      forall i | 0 <= i < |apps| ensures apps[i].id != id && apps[i].identifier != Some(d.identifier) {
        assert t[i] == apps[i];
      }
    }
  }

  /**
    `create_ai_app` with the generated id `id` and the server time `now`: the
    commit either inserts the row or refuses it, and the stored row is read back.
  */
  method CreateApp(db: Database, d: S.AppCreate, id: string, now: Timestamp) returns (r: Result<S.AppResponse, Failure>)
    requires db.Valid()
    modifies db
    ensures db.Valid() && db.agents == old(db.agents) && db.mcps == old(db.mcps)
    ensures var row := CreatedRow(d, id, now);
            if AppsValid(old(db.apps) + [row]) then db.apps == old(db.apps) + [row] && r == ConvertToResponse(row)
            else db.apps == old(db.apps) && r == Err(DatabaseError)
  {
    var row := CreatedRow(d, id, now);
    if AppsValid(db.apps + [row]) {
      db.apps := db.apps + [row];
      r := ConvertToResponse(row);
    } else {
      r := Err(DatabaseError);
    }
  }

  /* ------------------------------------------------------------------ reads */

  /** `get_ai_app`: `Missing` for an unknown id, else the converted row. */
  function GetApp(apps: seq<AppRow>, id: string): (r: Outcome<S.AppResponse>)
    ensures r.Missing? <==> KeyFree(apps, AppId, id)
    ensures !r.Missing? ==> exists i :: 0 <= i < |apps| && apps[i].id == id && r == Answer(ConvertToResponse(apps[i]))
  {
    match Find(apps, AppId, id)
    case None => Missing
    case Some(i) => Answer(ConvertToResponse(apps[i]))
  }

  /** A non-empty filter value; Python skips a `None` or `""` filter. */
  predicate Truthy(o: Option<string>) { o.Some? && o.value != "" }

  predicate Matches(r: AppRow, appType: Option<string>, userId: Option<string>)
  {
    (!Truthy(appType) || r.appType == appType) && (!Truthy(userId) || r.userId == userId)
  }

  /** The rows the optional filters keep, in scan order. */
  function Filtered(apps: seq<AppRow>, appType: Option<string>, userId: Option<string>): (rows: seq<AppRow>)
    ensures forall r :: r in rows <==> r in apps && Matches(r, appType, userId)
  {
    Select(apps, (r: AppRow) => Matches(r, appType, userId))
  }

  /** The list comprehension of `_convert_to_response`: one refused row raises for the whole page. */
  function ConvertAll(rows: seq<AppRow>): (r: Result<seq<S.AppResponse>, Failure>)
    ensures r.Ok? <==> forall k :: 0 <= k < |rows| ==> ConvertToResponse(rows[k]).Ok?
    ensures r.Ok? ==> |r.value| == |rows| && forall k :: 0 <= k < |rows| ==> ConvertToResponse(rows[k]) == Ok(r.value[k])
    ensures r.Err? ==> r.error == ValidationError
  {
    MapAll(rows, ConvertToResponse)
  }

  /**
    `get_ai_apps`: `total` counts every filtered row, the page is the window
    `OFFSET skip LIMIT limit`, and `page = skip // limit + 1`, which divides
    by zero when `limit == 0`.
  */
  function ListApps(apps: seq<AppRow>, appType: Option<string>, userId: Option<string>, skip: nat, limit: nat)
    : (r: Result<S.AppListResponse, Failure>)
    ensures r.Ok? <==> limit > 0 && forall row :: row in Window(Filtered(apps, appType, userId), skip, limit) ==> Presentable(row)
    ensures r.Err? ==> r.error == if limit == 0 then ZeroDivisionError else ValidationError
    ensures r.Ok? ==> r.value.total == |Filtered(apps, appType, userId)| && r.value.size == limit
    ensures r.Ok? ==> r.value.page == skip / limit + 1
    ensures r.Ok? ==> |r.value.apps| == |Window(Filtered(apps, appType, userId), skip, limit)|
    ensures r.Ok? ==> forall k :: 0 <= k < |r.value.apps| ==>
              skip + k < |Filtered(apps, appType, userId)|
              && ConvertToResponse(Filtered(apps, appType, userId)[skip + k]) == Ok(r.value.apps[k])
  {
    var rows := Filtered(apps, appType, userId);
    var page := ConvertAll(Window(rows, skip, limit));
    if page.Err? then Err(page.error)
    else if limit == 0 then Err(ZeroDivisionError)
    else Ok(S.AppListResponse(page.value, |rows|, skip / limit + 1, limit))
  }

  /** A listed page is the window of filtered rows, every one converted. */
  lemma ListedWindow(apps: seq<AppRow>, appType: Option<string>, userId: Option<string>, skip: nat, limit: nat)
    requires ListApps(apps, appType, userId, skip, limit).Ok?
    ensures ConvertAll(Window(Filtered(apps, appType, userId), skip, limit)) == Ok(ListApps(apps, appType, userId, skip, limit).value.apps)
  {
  }

  /** Every listed application meets the filters that were given. */
  lemma ListedAppsMatch(apps: seq<AppRow>, appType: Option<string>, userId: Option<string>, skip: nat, limit: nat)
    requires ListApps(apps, appType, userId, skip, limit).Ok?
    ensures forall a :: a in ListApps(apps, appType, userId, skip, limit).value.apps ==>
              (Truthy(appType) ==> a.appType == appType.value) && (Truthy(userId) ==> a.userId == userId)
  {
    var rows := Filtered(apps, appType, userId);
    var listed := ListApps(apps, appType, userId, skip, limit).value.apps;
    forall a | a in listed
      ensures (Truthy(appType) ==> a.appType == appType.value) && (Truthy(userId) ==> a.userId == userId)
    {
      var k :| 0 <= k < |listed| && listed[k] == a;
      assert rows[skip + k] in rows;
    }
  }

  /** `total` does not depend on the window: any two pages of one query report the same count. */
  lemma TotalIgnoresWindow(apps: seq<AppRow>, appType: Option<string>, userId: Option<string>,
                           skip: nat, limit: nat, skip': nat, limit': nat)
    requires ListApps(apps, appType, userId, skip, limit).Ok? && ListApps(apps, appType, userId, skip', limit').Ok?
    ensures ListApps(apps, appType, userId, skip, limit).value.total == ListApps(apps, appType, userId, skip', limit').value.total
  {
  }

  /* ----------------------------------------------------------------- update */

  function TextSent(o: Option<Option<string>>): Option<Cell>
  {
    if o.Some? then Some(TextCell(o.value)) else None
  }

  /** The cell the payload sends for a column that is not a nested list or `access_url`. */
  function SentCell(p: S.AppPatch, c: AppColumn): Option<Cell>
  {
    match c
    case Name => TextSent(p.name)
    case Identifier => TextSent(p.identifier)
    case Icon => TextSent(p.icon)
    case Description => TextSent(p.description)
    case IsActive => if p.isActive.Some? then Some(FlagCell(p.isActive.value)) else None
    case DashboardUrl => TextSent(p.dashboardUrl)
    case MainAgentId => TextSent(p.mainAgentId)
    case SystemPrompt => TextSent(p.systemPrompt)
    case _ => None
  }

  const AllColumns: set<AppColumn> :=
    {Name, Identifier, Icon, Description, IsActive, DashboardUrl, AccessUrl, MainAgentId, AgentList, McpList, LlmConfig, SystemPrompt}

  /**
    `update_data["c"] = json.dumps([x.dict() for x in update_data["c"]])` for a
    sent nested list: iterating a null raises `TypeError`; the items are
    already plain dicts, so a non-empty list raises `AttributeError`; only the
    empty list goes through, as the text `[]`.
  */
  function DumpList<T>(o: Option<Option<seq<T>>>, data: map<AppColumn, Cell>, c: AppColumn): Result<map<AppColumn, Cell>, Failure>
  {
    if o.None? then Ok(data)
    else if o.value.None? then Err(TypeError)
    else if o.value.value == [] then Ok(data[c := TextCell(Some("[]"))])
    else Err(AttributeError)
  }

  /** The scalar fields of `ai_app_data.dict(exclude_unset=True)`. */
  function SentData(p: S.AppPatch): (sent: map<AppColumn, Cell>)
    ensures forall c :: c in sent <==> SentCell(p, c).Some?
    ensures forall c :: c in sent ==> sent[c] == SentCell(p, c).value
  {
    map c | c in AllColumns && SentCell(p, c).Some? :: SentCell(p, c).value
  }

  /** What a nested-list step leaves at column `d`. */
  lemma DumpListAt<T>(o: Option<Option<seq<T>>>, data: map<AppColumn, Cell>, c: AppColumn, d: AppColumn)
    requires DumpList(o, data, c).Ok?
    ensures d in DumpList(o, data, c).value <==> d in data || (o.Some? && d == c)
    ensures o.Some? && d == c ==> DumpList(o, data, c).value[d] == TextCell(Some("[]"))
    ensures d != c && d in data ==> DumpList(o, data, c).value[d] == data[d]
  {
  }

  /** `update_data` after the three nested lists and `access_url` have been handled. */
  function PatchData(p: S.AppPatch): (r: Result<map<AppColumn, Cell>, Failure>)
    ensures r.Ok? ==> AllFit(r.value)
  {
    var sent := SentData(p);
    SentDataFits(p);
    DumpListFits(p.agentList, sent, AgentList);
    var a := DumpList(p.agentList, sent, AgentList);
    if a.Err? then a
    else
      DumpListFits(p.mcpList, a.value, McpList);
      var m := DumpList(p.mcpList, a.value, McpList);
      if m.Err? then m
      else
        DumpListFits(p.llmConfig, m.value, LlmConfig);
        var l := DumpList(p.llmConfig, m.value, LlmConfig);
        if l.Err? then l
        else if p.identifier.Some? then
          TextWriteFits(l.value, AccessUrl, Some(AccessUrlFor(p.identifier.value)));
          Ok(l.value[AccessUrl := TextCell(Some(AccessUrlFor(p.identifier.value)))])
        else Ok(l.value)
  }

  lemma SentDataFits(p: S.AppPatch)
    ensures AllFit(SentData(p))
  {
  }

  /** Writing a text into a text column keeps every cell fitting its column. */
  lemma TextWriteFits(data: map<AppColumn, Cell>, c: AppColumn, t: Option<string>)
    requires AllFit(data) && c != IsActive
    ensures AllFit(data[c := TextCell(t)])
  {
  }

  lemma DumpListFits<T>(o: Option<Option<seq<T>>>, data: map<AppColumn, Cell>, c: AppColumn)
    requires AllFit(data) && c != IsActive
    ensures DumpList(o, data, c).Ok? ==> AllFit(DumpList(o, data, c).value)
  {
    if o.Some? && o.value == Some([]) {
      TextWriteFits(data, c, Some("[]"));
    }
  }

  /** A nested list field an update can take: left out, or sent as `[]`. */
  predicate Dumpable<T>(o: Option<Option<seq<T>>>) { o.None? || o.value == Some([]) }

  /** The update raises before writing anything exactly when a nested list is sent as null or non-empty. */
  lemma PatchDataRaises(p: S.AppPatch)
    ensures PatchData(p).Err? <==> !(Dumpable(p.agentList) && Dumpable(p.mcpList) && Dumpable(p.llmConfig))
    ensures p.agentList == Some(None) ==> PatchData(p) == Err(TypeError)
    ensures p.agentList.Some? && p.agentList.value.Some? && p.agentList.value.value != [] ==> PatchData(p) == Err(AttributeError)
  {
  }

  /** Whether an update names column `c`; `access_url` counts as named when `identifier` is. */
  predicate Named(p: S.AppPatch, c: AppColumn)
  {
    match c
    case AccessUrl => p.identifier.Some?
    case AgentList => p.agentList.Some?
    case McpList => p.mcpList.Some?
    case LlmConfig => p.llmConfig.Some?
    case _ => SentCell(p, c).Some?
  }

  /** `update_data` as its steps build it, for a payload whose nested lists go through. */
  lemma PatchDataSteps(p: S.AppPatch)
    requires PatchData(p).Ok?
    ensures var a := DumpList(p.agentList, SentData(p), AgentList);
            var m := DumpList(p.mcpList, a.value, McpList);
            var l := DumpList(p.llmConfig, m.value, LlmConfig);
            a.Ok? && m.Ok? && l.Ok?
            && PatchData(p).value == if p.identifier.Some? then l.value[AccessUrl := TextCell(Some(AccessUrlFor(p.identifier.value)))] else l.value
  {
  }

  /** Column `c` of `update_data`: present exactly when named, with the value its step wrote. */
  lemma PatchDataAt(p: S.AppPatch, c: AppColumn)
    requires PatchData(p).Ok?
    ensures c in PatchData(p).value <==> Named(p, c)
    ensures SentCell(p, c).Some? ==> PatchData(p).value[c] == SentCell(p, c).value
    ensures c in {AgentList, McpList, LlmConfig} && Named(p, c) ==> PatchData(p).value[c] == TextCell(Some("[]"))
    ensures c == AccessUrl && p.identifier.Some? ==> PatchData(p).value[c] == TextCell(Some(AccessUrlFor(p.identifier.value)))
  {
    PatchDataSteps(p);
    var sent := SentData(p);
    var a := DumpList(p.agentList, sent, AgentList);
    DumpListAt(p.agentList, sent, AgentList, c);
    var m := DumpList(p.mcpList, a.value, McpList);
    DumpListAt(p.mcpList, a.value, McpList, c);
    DumpListAt(p.llmConfig, m.value, LlmConfig, c);
  }

  /**
    The columns an update writes are exactly the named ones: a scalar field
    gets the value sent, a nested list `[]`, and `access_url` the path
    derived from the sent identifier, whether or not it changed.
  */
  lemma PatchDataWrites(p: S.AppPatch, c: AppColumn)
    requires PatchData(p).Ok?
    ensures c in PatchData(p).value <==> Named(p, c)
    ensures c in PatchData(p).value && SentCell(p, c).Some? ==> PatchData(p).value[c] == SentCell(p, c).value
    ensures c in {AgentList, McpList, LlmConfig} && Named(p, c) ==> PatchData(p).value[c] == TextCell(Some("[]"))
    ensures p.identifier.Some? ==> PatchData(p).value[AccessUrl] == TextCell(Some(AccessUrlFor(p.identifier.value)))
  {
    PatchDataAt(p, c);
    PatchDataAt(p, AccessUrl);
  }

  /** The `setattr` loop over `update_data`, on the row value. */
  method SetColumns(before: AppRow, data: map<AppColumn, Cell>) returns (row: AppRow)
    requires AllFit(data)
    ensures row == Assigned(before, data)
  {
    row := before;
    var pending := data.Keys;
    while pending != {}
      invariant pending <= data.Keys
      invariant SameFixed(row, before)
      invariant forall c :: Get(row, c) == if c in data && c !in pending then data[c] else Get(before, c)
      decreases |pending|
    {
      var c :| c in pending;
      row := Set(row, c, data[c]);
      pending := pending - {c};
    }
    AssignedIsUnique(before, data, row);
  }

  /**
    `update_ai_app` at server time `now`: `Missing` for an unknown id; an
    exception from the nested lists leaves the table as it was; otherwise the
    named columns are assigned, the commit either stores the row or refuses
    it, and the stored row is read back.
  */
  method UpdateApp(db: Database, id: string, p: S.AppPatch, now: Timestamp) returns (r: Outcome<S.AppResponse>)
    requires db.Valid()
    modifies db
    ensures db.Valid() && db.agents == old(db.agents) && db.mcps == old(db.mcps)
    ensures r.Missing? <==> KeyFree(old(db.apps), AppId, id)
    ensures match Find(old(db.apps), AppId, id)
            case None => db.apps == old(db.apps)
            case Some(i) =>
              match PatchData(p)
              case Err(e) => db.apps == old(db.apps) && r == Raised(e)
              case Ok(data) =>
                var row := Patched(old(db.apps)[i], data, now);
                if AppsValid(old(db.apps)[i := row]) then db.apps == old(db.apps)[i := row] && r == Answer(ConvertToResponse(row))
                else db.apps == old(db.apps) && r == Raised(DatabaseError)
  {
    var found := Find(db.apps, AppId, id);
    if found.None? {
      return Missing;
    }
    var i := found.value;
    var data := PatchData(p);
    if data.Err? {
      return Raised(data.error);
    }
    var before := db.apps[i];
    var row := SetColumns(before, data.value);
    if row != before {
      row := row.(updatedAt := Some(now));
    }
    if AppsValid(db.apps[i := row]) {
      db.apps := db.apps[i := row];
      r := Answer(ConvertToResponse(row));
    } else {
      r := Raised(DatabaseError);
    }
  }

  /**
    The row an update commits: each named column carries what `PatchData`
    wrote, every other column is as before, and `id`, `app_type`, `user_id`
    and `created_at` never change.
  */
  lemma UpdateTouchesOnlyNamed(r: AppRow, p: S.AppPatch, now: Timestamp, c: AppColumn)
    requires PatchData(p).Ok?
    ensures !Named(p, c) ==> Get(Patched(r, PatchData(p).value, now), c) == Get(r, c)
    ensures SentCell(p, c).Some? ==> Get(Patched(r, PatchData(p).value, now), c) == SentCell(p, c).value
    ensures var r' := Patched(r, PatchData(p).value, now);
            r'.id == r.id && r'.appType == r.appType && r'.userId == r.userId && r'.createdAt == r.createdAt
  {
    PatchDataWrites(p, c);
  }

  /** An explicitly null identifier writes the path `/app/None`, and the commit refuses the NULL identifier. */
  lemma NullIdentifierRefused(apps: seq<AppRow>, i: nat, p: S.AppPatch, now: Timestamp)
    requires i < |apps| && PatchData(p).Ok? && p.identifier == Some(None)
    ensures Patched(apps[i], PatchData(p).value, now).accessUrl == Some("/app/None")
    ensures !AppsValid(apps[i := Patched(apps[i], PatchData(p).value, now)])
  {
    var data := PatchData(p).value;
    PatchDataWrites(p, AccessUrl);
    PatchDataWrites(p, Identifier);
    assert Get(Patched(apps[i], data, now), AccessUrl) == data[AccessUrl];
    assert Get(Patched(apps[i], data, now), Identifier) == data[Identifier];
    assert apps[i := Patched(apps[i], data, now)][i] == Patched(apps[i], data, now);
  }

  /**
    An explicitly null `is_active` is stored (the column is nullable), and
    the response record then refuses the row: the caller sees an exception
    although the update was committed.
  */
  lemma NullActiveStoredThenRefused(r: AppRow, p: S.AppPatch, now: Timestamp)
    requires PatchData(p).Ok? && p.isActive == Some(None)
    ensures Patched(r, PatchData(p).value, now).isActive.None?
    ensures ConvertToResponse(Patched(r, PatchData(p).value, now)) == Err(ValidationError)
  {
    PatchDataWrites(p, IsActive);
    assert Get(Patched(r, PatchData(p).value, now), IsActive) == FlagCell(None);
  }

  /* ----------------------------------------------------------------- delete */

  /** `delete_ai_app`: `false` for an unknown id, `true` once that row, and only it, is gone. */
  method DeleteApp(db: Database, id: string) returns (deleted: bool)
    requires db.Valid()
    modifies db
    ensures db.Valid() && db.agents == old(db.agents) && db.mcps == old(db.mcps)
    ensures deleted <==> !KeyFree(old(db.apps), AppId, id)
    ensures !deleted ==> db.apps == old(db.apps)
    ensures deleted ==> KeyFree(db.apps, AppId, id)
    ensures forall a :: a in db.apps <==> a in old(db.apps) && a.id != id
  {
    var found := Find(db.apps, AppId, id);
    if found.None? {
      return false;
    }
    WithoutRemovesOnlyThatRow(db.apps, AppId, found.value);
    ghost var rest := Without(db.apps, found.value);
    assert IdentifiersUnique(rest) by {
      forall a, b | 0 <= a < |rest| && 0 <= b < |rest| && a != b && rest[a].identifier.Some?
        ensures rest[a].identifier != rest[b].identifier
      {
        var a' := if a < found.value then a else a + 1;
        var b' := if b < found.value then b else b + 1;
        assert rest[a] == db.apps[a'] && rest[b] == db.apps[b'];
      }
    }
    db.apps := Without(db.apps, found.value);
    deleted := true;
  }

  /* --------------------------------------------------------- system prompt */

  /** `sep.join(parts)`. */
  function Join(parts: seq<string>, sep: string): string
    decreases |parts|
  {
    if parts == [] then ""
    else if |parts| == 1 then parts[0]
    else parts[0] + sep + Join(parts[1..], sep)
  }

  /** Appending a part appends the separator and the part. */
  lemma {:induction false} JoinSnoc(parts: seq<string>, x: string, sep: string)
    requires parts != []
    ensures Join(parts + [x], sep) == Join(parts, sep) + sep + x
    decreases |parts|
  {
    if |parts| == 1 {
      assert parts + [x] == [parts[0], x];
      assert Join([x], sep) == x;
    } else {
      assert (parts + [x])[1..] == parts[1..] + [x];
      JoinSnoc(parts[1..], x, sep);
    }
  }

  function NameLine(name: string): string { "你是一个名为'" + name + "'的AI应用。" }

  function DescriptionLine(description: string): string { "应用描述：" + description }

  function AgentNames(agents: seq<S.AgentConfig>): (names: seq<string>)
    ensures |names| == |agents| && forall k :: 0 <= k < |agents| ==> names[k] == agents[k].name
  {
    seq(|agents|, k requires 0 <= k < |agents| => agents[k].name)
  }

  function McpNames(mcps: seq<S.McpConfig>): (names: seq<string>)
    ensures |names| == |mcps| && forall k :: 0 <= k < |mcps| ==> names[k] == mcps[k].name
  {
    seq(|mcps|, k requires 0 <= k < |mcps| => mcps[k].name)
  }

  function AgentsLine(agents: seq<S.AgentConfig>): string { "可用的Agent：" + Join(AgentNames(agents), ", ") }

  function McpsLine(mcps: seq<S.McpConfig>): string { "可用的MCP工具：" + Join(McpNames(mcps), ", ") }

  const Guidance: string := "\n请根据用户的需求，合理调度和使用可用的Agent和MCP工具来完成任务。\n确保回答准确、有用，并充分利用可用的工具资源。\n"

  /** A truthy list: given and non-empty. */
  predicate Listed<T>(xs: Option<seq<T>>) { xs.Some? && xs.value != [] }

  /** The text so far, followed by a newline and `line` when `present`. */
  function WithLine(text: string, present: bool, line: string): string
  {
    if present then text + "\n" + line else text
  }

  /**
    The lines before the guidance block: the name line, then the description,
    agent and connector lines, each only when its source is truthy, one
    newline between any two.
  */
  function PromptBody(req: S.PromptRequest): string
  {
    var described := WithLine(NameLine(req.appName), Truthy(req.appDescription),
                              DescriptionLine(if req.appDescription.Some? then req.appDescription.value else ""));
    var withAgents := WithLine(described, Listed(req.agentList),
                               AgentsLine(if req.agentList.Some? then req.agentList.value else []));
    WithLine(withAgents, Listed(req.mcpList), McpsLine(if req.mcpList.Some? then req.mcpList.value else []))
  }

  /** The prompt as one text: the body lines, a newline and the guidance block. */
  function PromptText(req: S.PromptRequest): string
  {
    PromptBody(req) + "\n" + Guidance
  }

  /** Appending `line` as the next part, when `present`, keeps `Join(parts)` equal to the text. */
  lemma AppendPart(parts: seq<string>, text: string, present: bool, line: string)
    requires parts != [] && Join(parts, "\n") == text
    ensures Join(if present then parts + [line] else parts, "\n") == WithLine(text, present, line)
  {
    if present {
      JoinSnoc(parts, line, "\n");
    }
  }

  /** `generate_system_prompt`: the parts appended one by one, then joined with newlines. */
  method GenerateSystemPrompt(req: S.PromptRequest) returns (prompt: string)
    ensures prompt == PromptText(req)
  {
    var parts := [NameLine(req.appName)];
    ghost var text := NameLine(req.appName);
    var present := Truthy(req.appDescription);
    var line := DescriptionLine(if req.appDescription.Some? then req.appDescription.value else "");
    AppendPart(parts, text, present, line);
    if present {
      parts := parts + [line];
    }
    text := WithLine(text, present, line);
    present := Listed(req.agentList);
    line := AgentsLine(if req.agentList.Some? then req.agentList.value else []);
    AppendPart(parts, text, present, line);
    if present {
      parts := parts + [line];
    }
    text := WithLine(text, present, line);
    present := Listed(req.mcpList);
    line := McpsLine(if req.mcpList.Some? then req.mcpList.value else []);
    AppendPart(parts, text, present, line);
    if present {
      parts := parts + [line];
    }
    text := WithLine(text, present, line);
    JoinSnoc(parts, Guidance, "\n");
    parts := parts + [Guidance];
    prompt := Join(parts, "\n");
  }

  lemma WithLineExtends(text: string, present: bool, line: string)
    ensures text <= WithLine(text, present, line)
  {
    if present {
      assert WithLine(text, present, line) == text + ("\n" + line);
    }
  }

  /** The prompt always opens with the name line and closes with the guidance block. */
  lemma PromptFrame(req: S.PromptRequest)
    ensures NameLine(req.appName) <= PromptText(req)
    ensures |Guidance| <= |PromptText(req)| && PromptText(req)[|PromptText(req)| - |Guidance|..] == Guidance
  {
    var body := PromptBody(req);
    BodyOpensWithName(req);
    SplitEnds(body, "\n");
    SplitEnds(body + "\n", Guidance);
    PrefixTrans(NameLine(req.appName), body, body + "\n");
    PrefixTrans(NameLine(req.appName), body + "\n", PromptText(req));
  }

  lemma BodyOpensWithName(req: S.PromptRequest)
    ensures NameLine(req.appName) <= PromptBody(req)
  {
    var name := NameLine(req.appName);
    var described := WithLine(name, Truthy(req.appDescription),
                              DescriptionLine(if req.appDescription.Some? then req.appDescription.value else ""));
    var withAgents := WithLine(described, Listed(req.agentList),
                               AgentsLine(if req.agentList.Some? then req.agentList.value else []));
    WithLineExtends(name, Truthy(req.appDescription),
                    DescriptionLine(if req.appDescription.Some? then req.appDescription.value else ""));
    WithLineExtends(described, Listed(req.agentList), AgentsLine(if req.agentList.Some? then req.agentList.value else []));
    WithLineExtends(withAgents, Listed(req.mcpList), McpsLine(if req.mcpList.Some? then req.mcpList.value else []));
    PrefixTrans(name, described, withAgents);
    PrefixTrans(name, withAgents, PromptBody(req));
  }

  lemma PrefixTrans(a: string, b: string, c: string)
    requires a <= b && b <= c
    ensures a <= c
  {
    assert c[..|a|] == b[..|a|];
  }

  /** A concatenation starts with its left part and ends with its right part. */
  lemma SplitEnds(x: string, y: string)
    ensures x <= x + y && (x + y)[|x|..] == y
  {
  }

  /* ------------------------------------------------ agent and MCP summaries */

  datatype AgentSummary = AgentSummary(id: string, name: Option<string>, description: Option<string>)

  datatype McpSummary = McpSummary(id: string, name: Option<string>, provider: Option<string>, model: Option<string>)

  function AgentSummaryOf(a: AgentModel.AgentRow): AgentSummary { AgentSummary(a.id, a.name, a.description) }

  function McpSummaryOf(m: McpModel.McpRow): McpSummary { McpSummary(m.id, m.name, m.provider, m.model) }

  /** `get_available_agents`: the agents whose `is_active` is true (not false, not NULL), in scan order. */
  function AvailableAgents(agents: seq<AgentModel.AgentRow>): (r: seq<AgentSummary>)
    ensures forall s :: s in r <==> exists a :: a in agents && a.isActive == Some(true) && s == AgentSummaryOf(a)
    decreases |agents|
  {
    if agents == [] then []
    else
      var rest := AvailableAgents(agents[1..]);
      assert forall a :: a in agents[1..] ==> a in agents;
      if agents[0].isActive == Some(true) then [AgentSummaryOf(agents[0])] + rest else rest
  }

  /** `get_available_mcps`: every connector, in scan order, without its API key. */
  function AvailableMcps(mcps: seq<McpModel.McpRow>): (r: seq<McpSummary>)
    ensures |r| == |mcps| && forall k :: 0 <= k < |mcps| ==> r[k] == McpSummaryOf(mcps[k])
  {
    seq(|mcps|, k requires 0 <= k < |mcps| => McpSummaryOf(mcps[k]))
  }

  /** Two tables that differ only in the API keys give the same summaries. */
  lemma AvailableMcpsHideApiKeys(mcps: seq<McpModel.McpRow>, mcps': seq<McpModel.McpRow>)
    requires |mcps'| == |mcps|
    requires forall k :: 0 <= k < |mcps| ==> mcps'[k] == mcps[k].(apiKey := mcps'[k].apiKey)
    ensures AvailableMcps(mcps') == AvailableMcps(mcps)
  {
  }
}
