/**
  The `mcp` table: its row, its constraints, and the columns an update may
  assign by name. Every assignable column holds text.
*/
module McpModel {
  import opened Wrappers
  import opened Tables

  datatype McpRow = McpRow(
    id: string,
    name: Option<string>,
    provider: Option<string>,
    model: Option<string>,
    temperature: Option<string>,
    apiKey: Option<string>,
    toolPlugins: Option<string>)

  function McpId(r: McpRow): string { r.id }

  /** `name`, `provider`, `model` and `api_key` are NOT NULL; `provider` and `model` hold at most 100 characters. */
  predicate RowFits(r: McpRow)
  {
    |r.id| <= 255
    && RequiredVarchar(r.name, 255)
    && RequiredVarchar(r.provider, 100)
    && RequiredVarchar(r.model, 100)
    && FitsVarchar(r.temperature, 10)
    && r.apiKey.Some?
  }

  predicate McpsValid(rows: seq<McpRow>)
  {
    (forall i :: 0 <= i < |rows| ==> RowFits(rows[i])) && UniqueKeys(rows, McpId)
  }

  /** The columns an update assigns; neither `id` nor `provider` is among them. */
  datatype McpColumn = Name | Model | Temperature | ApiKey | ToolPlugins

  function Get(r: McpRow, c: McpColumn): Option<string>
  {
    match c
    case Name => r.name
    case Model => r.model
    case Temperature => r.temperature
    case ApiKey => r.apiKey
    case ToolPlugins => r.toolPlugins
  }

  /** The columns an update never assigns. */
  predicate SameFixed(a: McpRow, b: McpRow) { a.id == b.id && a.provider == b.provider }

  lemma RowsAgree(a: McpRow, b: McpRow)
    requires SameFixed(a, b) && forall c :: Get(a, c) == Get(b, c)
    ensures a == b
  {
    assert Get(a, Name) == Get(b, Name) && Get(a, Model) == Get(b, Model);
    assert Get(a, Temperature) == Get(b, Temperature) && Get(a, ApiKey) == Get(b, ApiKey);
    assert Get(a, ToolPlugins) == Get(b, ToolPlugins);
  }

  /** `setattr(row, c, v)`. */
  function Set(r: McpRow, c: McpColumn, v: Option<string>): (r': McpRow)
    ensures Get(r', c) == v
    ensures forall d :: d != c ==> Get(r', d) == Get(r, d)
    ensures SameFixed(r', r)
  {
    match c
    case Name => r.(name := v)
    case Model => r.(model := v)
    case Temperature => r.(temperature := v)
    case ApiKey => r.(apiKey := v)
    case ToolPlugins => r.(toolPlugins := v)
  }

  function ValueOr(data: map<McpColumn, Option<string>>, c: McpColumn, current: Option<string>): Option<string>
  {
    if c in data then data[c] else current
  }

  /** The row after every column named in `data` is assigned its value, in any order. */
  function Assigned(r: McpRow, data: map<McpColumn, Option<string>>): (r': McpRow)
    ensures SameFixed(r', r)
  {
    r.(name := ValueOr(data, Name, r.name),
       model := ValueOr(data, Model, r.model),
       temperature := ValueOr(data, Temperature, r.temperature),
       apiKey := ValueOr(data, ApiKey, r.apiKey),
       toolPlugins := ValueOr(data, ToolPlugins, r.toolPlugins))
  }

  lemma AssignedColumns(r: McpRow, data: map<McpColumn, Option<string>>)
    ensures forall c :: Get(Assigned(r, data), c) == if c in data then data[c] else Get(r, c)
  {
    forall c ensures Get(Assigned(r, data), c) == if c in data then data[c] else Get(r, c) {
      match c
      case Name =>
      case Model =>
      case Temperature =>
      case ApiKey =>
      case ToolPlugins =>
    }
  }

  lemma AssignedIsUnique(r: McpRow, data: map<McpColumn, Option<string>>, r': McpRow)
    requires SameFixed(r', r)
    requires forall c :: Get(r', c) == if c in data then data[c] else Get(r, c)
    ensures r' == Assigned(r, data)
  {
    AssignedColumns(r, data);
    RowsAgree(r', Assigned(r, data));
  }
}
