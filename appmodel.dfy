/**
  The `ai_app` table: its row, the constraints the database enforces at
  commit, and the columns an update may assign.
*/
module AppModel {
  import opened Wrappers
  import opened Tables

  /**
    One row. Every column except the primary key may hold NULL in the ORM
    object; `created_at` is filled by the server when the row is inserted.
  */
  datatype AppRow = AppRow(
    id: string,
    name: Option<string>,
    identifier: Option<string>,
    icon: Option<string>,
    description: Option<string>,
    isActive: Option<bool>,
    dashboardUrl: Option<string>,
    accessUrl: Option<string>,
    mainAgentId: Option<string>,
    agentList: Option<string>,
    mcpList: Option<string>,
    llmConfig: Option<string>,
    systemPrompt: Option<string>,
    appType: Option<string>,
    userId: Option<string>,
    createdAt: Timestamp,
    updatedAt: Option<Timestamp>)

  function AppId(r: AppRow): string { r.id }

  /** The column types and NOT NULL constraints of one row. */
  predicate RowFits(r: AppRow)
  {
    |r.id| <= 255
    && RequiredVarchar(r.name, 255)
    && RequiredVarchar(r.identifier, 255)
    && FitsVarchar(r.icon, 500)
    && FitsVarchar(r.dashboardUrl, 500)
    && FitsVarchar(r.accessUrl, 500)
    && FitsVarchar(r.mainAgentId, 255)
    && FitsVarchar(r.appType, 50)
    && FitsVarchar(r.userId, 255)
  }

  /** `identifier` is UNIQUE (NULLs never collide). */
  predicate IdentifiersUnique(rows: seq<AppRow>)
  {
    forall i, j :: 0 <= i < |rows| && 0 <= j < |rows| && i != j && rows[i].identifier.Some? ==>
      rows[i].identifier != rows[j].identifier
  }

  /** Every constraint of the table: what a commit checks before it succeeds. */
  predicate AppsValid(rows: seq<AppRow>)
  {
    (forall i :: 0 <= i < |rows| ==> RowFits(rows[i]))
    && UniqueKeys(rows, AppId)
    && IdentifiersUnique(rows)
  }

  /** No row carries the identifier `s`. */
  predicate IdentifierFree(rows: seq<AppRow>, s: string)
  {
    forall i :: 0 <= i < |rows| ==> rows[i].identifier != Some(s)
  }

  /* ---------------------------------------------------- assignable columns */

  /** The columns an update assigns by name; `id`, `app_type`, `user_id` and the timestamps are not among them. */
  datatype AppColumn =
    | Name | Identifier | Icon | Description | IsActive | DashboardUrl | AccessUrl
    | MainAgentId | AgentList | McpList | LlmConfig | SystemPrompt

  /** Text in every column except the boolean `is_active`. */
  predicate Fits(c: AppColumn, v: Cell) { if c == IsActive then v.FlagCell? else v.TextCell? }

  predicate AllFit(data: map<AppColumn, Cell>) { forall c :: c in data ==> Fits(c, data[c]) }

  function Get(r: AppRow, c: AppColumn): (v: Cell)
    ensures Fits(c, v)
  {
    match c
    case Name => TextCell(r.name)
    case Identifier => TextCell(r.identifier)
    case Icon => TextCell(r.icon)
    case Description => TextCell(r.description)
    case IsActive => FlagCell(r.isActive)
    case DashboardUrl => TextCell(r.dashboardUrl)
    case AccessUrl => TextCell(r.accessUrl)
    case MainAgentId => TextCell(r.mainAgentId)
    case AgentList => TextCell(r.agentList)
    case McpList => TextCell(r.mcpList)
    case LlmConfig => TextCell(r.llmConfig)
    case SystemPrompt => TextCell(r.systemPrompt)
  }

  /** The columns outside `AppColumn`: an assignment never changes them. */
  predicate SameFixed(a: AppRow, b: AppRow)
  {
    a.id == b.id && a.appType == b.appType && a.userId == b.userId
    && a.createdAt == b.createdAt && a.updatedAt == b.updatedAt
  }

  /** Two rows that agree on every assignable and every fixed column are the same row. */
  lemma RowsAgree(a: AppRow, b: AppRow)
    requires SameFixed(a, b) && forall c :: Get(a, c) == Get(b, c)
    ensures a == b
  {
    assert Get(a, Name) == Get(b, Name) && Get(a, Identifier) == Get(b, Identifier);
    assert Get(a, Icon) == Get(b, Icon) && Get(a, Description) == Get(b, Description);
    assert Get(a, IsActive) == Get(b, IsActive) && Get(a, DashboardUrl) == Get(b, DashboardUrl);
    assert Get(a, AccessUrl) == Get(b, AccessUrl) && Get(a, MainAgentId) == Get(b, MainAgentId);
    assert Get(a, AgentList) == Get(b, AgentList) && Get(a, McpList) == Get(b, McpList);
    assert Get(a, LlmConfig) == Get(b, LlmConfig) && Get(a, SystemPrompt) == Get(b, SystemPrompt);
  }

  /** `setattr(row, c, v)`. */
  function Set(r: AppRow, c: AppColumn, v: Cell): (r': AppRow)
    requires Fits(c, v)
    ensures Get(r', c) == v
    ensures forall d :: d != c ==> Get(r', d) == Get(r, d)
    ensures SameFixed(r', r)
  {
    match c
    case Name => r.(name := v.text)
    case Identifier => r.(identifier := v.text)
    case Icon => r.(icon := v.text)
    case Description => r.(description := v.text)
    case IsActive => r.(isActive := v.flag)
    case DashboardUrl => r.(dashboardUrl := v.text)
    case AccessUrl => r.(accessUrl := v.text)
    case MainAgentId => r.(mainAgentId := v.text)
    case AgentList => r.(agentList := v.text)
    case McpList => r.(mcpList := v.text)
    case LlmConfig => r.(llmConfig := v.text)
    case SystemPrompt => r.(systemPrompt := v.text)
  }

  function TextOr(data: map<AppColumn, Cell>, c: AppColumn, current: Option<string>): Option<string>
  {
    if c in data && data[c].TextCell? then data[c].text else current
  }

  /** The row after every column named in `data` is assigned its value, in any order. */
  function Assigned(r: AppRow, data: map<AppColumn, Cell>): (r': AppRow)
    requires AllFit(data)
    ensures SameFixed(r', r)
  {
    r.(name := TextOr(data, Name, r.name),
       identifier := TextOr(data, Identifier, r.identifier),
       icon := TextOr(data, Icon, r.icon),
       description := TextOr(data, Description, r.description),
       isActive := if IsActive in data then data[IsActive].flag else r.isActive,
       dashboardUrl := TextOr(data, DashboardUrl, r.dashboardUrl),
       accessUrl := TextOr(data, AccessUrl, r.accessUrl),
       mainAgentId := TextOr(data, MainAgentId, r.mainAgentId),
       agentList := TextOr(data, AgentList, r.agentList),
       mcpList := TextOr(data, McpList, r.mcpList),
       llmConfig := TextOr(data, LlmConfig, r.llmConfig),
       systemPrompt := TextOr(data, SystemPrompt, r.systemPrompt))
  }

  /** A column named in `data` reads its new value; every other column reads as before. */
  lemma AssignedColumn(r: AppRow, data: map<AppColumn, Cell>, c: AppColumn)
    requires AllFit(data)
    ensures Get(Assigned(r, data), c) == if c in data then data[c] else Get(r, c)
  {
    if c in data {
      assert Fits(c, data[c]);
    }
  }

  lemma AssignedColumns(r: AppRow, data: map<AppColumn, Cell>)
    requires AllFit(data)
    ensures forall c :: Get(Assigned(r, data), c) == if c in data then data[c] else Get(r, c)
  {
    forall c ensures Get(Assigned(r, data), c) == if c in data then data[c] else Get(r, c) {
      AssignedColumn(r, data, c);
    }
  }

  /** `Assigned` is the only row with the fixed columns of `r` and the assigned values of `data`. */
  lemma AssignedIsUnique(r: AppRow, data: map<AppColumn, Cell>, r': AppRow)
    requires AllFit(data) && SameFixed(r', r)
    requires forall c :: Get(r', c) == if c in data then data[c] else Get(r, c)
    ensures r' == Assigned(r, data)
  {
    AssignedColumns(r, data);
    RowsAgree(r', Assigned(r, data));
  }

  /**
    The row an update commits: the assigned row, with `updated_at` stamped when
    some column actually changed (the ORM issues no UPDATE otherwise).
  */
  function Patched(r: AppRow, data: map<AppColumn, Cell>, now: Timestamp): (r': AppRow)
    requires AllFit(data)
    ensures forall c :: Get(r', c) == if c in data then data[c] else Get(r, c)
    ensures r'.id == r.id && r'.appType == r.appType && r'.userId == r.userId && r'.createdAt == r.createdAt
    ensures r'.updatedAt == if Assigned(r, data) == r then r.updatedAt else Some(now)
  {
    var a := Assigned(r, data);
    AssignedColumns(r, data);
    if a == r then a
    else
      assert forall c :: Get(a.(updatedAt := Some(now)), c) == Get(a, c);
      a.(updatedAt := Some(now))
  }
}
