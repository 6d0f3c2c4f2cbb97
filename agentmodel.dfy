/**
  The `agent` table: its row, its constraints, and the columns an update may
  assign by name.
*/
module AgentModel {
  import opened Wrappers
  import opened Tables

  /** One row; every column except the primary key may hold NULL in the ORM object. */
  datatype AgentRow = AgentRow(
    id: string,
    name: Option<string>,
    description: Option<string>,
    systemPrompt: Option<string>,
    temperature: Option<string>,
    maxTokens: Option<string>,
    isActive: Option<bool>,
    mcpId: Option<string>,
    tools: Option<string>)

  function AgentId(r: AgentRow): string { r.id }

  /** Column types and NOT NULL constraints: `name`, `system_prompt` and `mcp_id` are required. */
  predicate RowFits(r: AgentRow)
  {
    |r.id| <= 255
    && RequiredVarchar(r.name, 255)
    && r.systemPrompt.Some?
    && FitsVarchar(r.temperature, 10)
    && FitsVarchar(r.maxTokens, 10)
    && RequiredVarchar(r.mcpId, 255)
  }

  /** Every constraint of the table. No foreign key ties `mcp_id` to the `mcp` table. */
  predicate AgentsValid(rows: seq<AgentRow>)
  {
    (forall i :: 0 <= i < |rows| ==> RowFits(rows[i])) && UniqueKeys(rows, AgentId)
  }

  /** The columns an update assigns; `id` is not among them. */
  datatype AgentColumn = Name | Description | SystemPrompt | Temperature | MaxTokens | IsActive | McpId | Tools

  predicate Fits(c: AgentColumn, v: Cell) { if c == IsActive then v.FlagCell? else v.TextCell? }

  predicate AllFit(data: map<AgentColumn, Cell>) { forall c :: c in data ==> Fits(c, data[c]) }

  function Get(r: AgentRow, c: AgentColumn): (v: Cell)
    ensures Fits(c, v)
  {
    match c
    case Name => TextCell(r.name)
    case Description => TextCell(r.description)
    case SystemPrompt => TextCell(r.systemPrompt)
    case Temperature => TextCell(r.temperature)
    case MaxTokens => TextCell(r.maxTokens)
    case IsActive => FlagCell(r.isActive)
    case McpId => TextCell(r.mcpId)
    case Tools => TextCell(r.tools)
  }

  /** Two rows with the same id that agree on every assignable column are the same row. */
  lemma RowsAgree(a: AgentRow, b: AgentRow)
    requires a.id == b.id && forall c :: Get(a, c) == Get(b, c)
    ensures a == b
  {
    assert Get(a, Name) == Get(b, Name) && Get(a, Description) == Get(b, Description);
    assert Get(a, SystemPrompt) == Get(b, SystemPrompt) && Get(a, Temperature) == Get(b, Temperature);
    assert Get(a, MaxTokens) == Get(b, MaxTokens) && Get(a, IsActive) == Get(b, IsActive);
    assert Get(a, McpId) == Get(b, McpId) && Get(a, Tools) == Get(b, Tools);
  }

  /** `setattr(row, c, v)`. */
  function Set(r: AgentRow, c: AgentColumn, v: Cell): (r': AgentRow)
    requires Fits(c, v)
    ensures Get(r', c) == v
    ensures forall d :: d != c ==> Get(r', d) == Get(r, d)
    ensures r'.id == r.id
  {
    match c
    case Name => r.(name := v.text)
    case Description => r.(description := v.text)
    case SystemPrompt => r.(systemPrompt := v.text)
    case Temperature => r.(temperature := v.text)
    case MaxTokens => r.(maxTokens := v.text)
    case IsActive => r.(isActive := v.flag)
    case McpId => r.(mcpId := v.text)
    case Tools => r.(tools := v.text)
  }

  function TextOr(data: map<AgentColumn, Cell>, c: AgentColumn, current: Option<string>): Option<string>
  {
    if c in data && data[c].TextCell? then data[c].text else current
  }

  /** The row after every column named in `data` is assigned its value, in any order. */
  function Assigned(r: AgentRow, data: map<AgentColumn, Cell>): (r': AgentRow)
    requires AllFit(data)
    ensures r'.id == r.id
  {
    r.(name := TextOr(data, Name, r.name),
       description := TextOr(data, Description, r.description),
       systemPrompt := TextOr(data, SystemPrompt, r.systemPrompt),
       temperature := TextOr(data, Temperature, r.temperature),
       maxTokens := TextOr(data, MaxTokens, r.maxTokens),
       isActive := if IsActive in data then data[IsActive].flag else r.isActive,
       mcpId := TextOr(data, McpId, r.mcpId),
       tools := TextOr(data, Tools, r.tools))
  }

  /** A column named in `data` reads its new value; every other column reads as before. */
  lemma AssignedColumn(r: AgentRow, data: map<AgentColumn, Cell>, c: AgentColumn)
    requires AllFit(data)
    ensures Get(Assigned(r, data), c) == if c in data then data[c] else Get(r, c)
  {
    if c in data {
      assert Fits(c, data[c]);
    }
  }

  lemma AssignedColumns(r: AgentRow, data: map<AgentColumn, Cell>)
    requires AllFit(data)
    ensures forall c :: Get(Assigned(r, data), c) == if c in data then data[c] else Get(r, c)
  {
    forall c ensures Get(Assigned(r, data), c) == if c in data then data[c] else Get(r, c) {
      AssignedColumn(r, data, c);
    }
  }

  /** `Assigned` is the only row with the id of `r` and the assigned values of `data`. */
  lemma AssignedIsUnique(r: AgentRow, data: map<AgentColumn, Cell>, r': AgentRow)
    requires AllFit(data) && r'.id == r.id
    requires forall c :: Get(r', c) == if c in data then data[c] else Get(r, c)
    ensures r' == Assigned(r, data)
  {
    AssignedColumns(r, data);
    RowsAgree(r', Assigned(r, data));
  }
}
