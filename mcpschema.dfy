/**
  The connector ("MCP") records: the create payload with its defaults, the
  update payload, and the output record, which has no field for the API key.
*/
module McpSchema {
  import opened Wrappers
  import opened Json
  import opened ListField
  import opened McpModel

  /** The create payload; `temperature` and `tool_plugins` are optional, `api_key` is required. */
  datatype McpCreate = McpCreate(
    id: string,
    name: string,
    provider: string,
    model: string,
    temperature: Option<string>,
    apiKey: string,
    toolPlugins: Option<seq<string>>)

  /** A create payload naming only the required fields. */
  function NewMcp(id: string, name: string, provider: string, model: string, apiKey: string): McpCreate
  {
    McpCreate(id, name, provider, model, Some("0.7"), apiKey, Some([]))
  }

  /** An update payload; there is no field for `id` or `provider`. */
  datatype McpPatch = McpPatch(
    name: Option<Option<string>>,
    model: Option<Option<string>>,
    temperature: Option<Option<string>>,
    apiKey: Option<Option<string>>,
    toolPlugins: Option<Option<seq<string>>>)

  /** The output record: no `api_key`. */
  datatype McpOut = McpOut(
    id: string,
    name: string,
    provider: string,
    model: string,
    temperature: string,
    toolPlugins: seq<string>)

  /** The JSON value `json.dumps` receives for a plugin list (`None` dumps as `null`). */
  function PluginsJson(plugins: Option<seq<string>>): (j: Json)
    ensures plugins.None? <==> j.JNull?
    ensures plugins.Some? ==> j.JArray? && |j.items| == |plugins.value|
    ensures plugins.Some? ==> forall k :: 0 <= k < |plugins.value| ==> j.items[k] == JString(plugins.value[k])
  {
    if plugins.None? then JNull
    else JArray(seq(|plugins.value|, k requires 0 <= k < |plugins.value| => JString(plugins.value[k])))
  }

  /** Validation of `List[str]`: an array whose items are all strings. */
  function PluginsOf(j: Json): (r: Option<seq<string>>)
    ensures r.Some? <==> j.JArray? && forall k :: 0 <= k < |j.items| ==> j.items[k].JString?
    ensures r.Some? ==> |r.value| == |j.items| && forall k :: 0 <= k < |j.items| ==> j.items[k] == JString(r.value[k])
  {
    if j.JArray? && forall k :: 0 <= k < |j.items| ==> j.items[k].JString? then
      Some(seq(|j.items|, k requires 0 <= k < |j.items| => j.items[k].s))
    else None
  }

  /** A stored `tool_plugins` column read through `parse_tool_plugins`. */
  function StoredPlugins(cell: Option<string>): Option<seq<string>>
  {
    PluginsOf(ParseListField(ColumnValue(cell)))
  }

  /** The text `json.dumps` stores for a plugin list reads back as that list. */
  lemma StoredPluginsRoundTrip(plugins: seq<string>)
    ensures StoredPlugins(Some(Encode(PluginsJson(Some(plugins))))) == Some(plugins)
  {
    ParseEncoded(PluginsJson(Some(plugins)));
    var r := PluginsOf(PluginsJson(Some(plugins)));
    assert r.Some?;
    assert r.value == plugins;
  }

  /** A NULL column and a malformed text both read as the empty list. */
  lemma StoredPluginsFallback(cell: Option<string>)
    requires cell.None? || forall j :: cell.value != Encode(j)
    ensures StoredPlugins(cell) == Some([])
  {
    if cell.Some? {
      ParseMalformed(cell.value);
    }
  }

  /** `McpOut` read from a row: a NULL required column or a plugin list that does not validate refuses the row. */
  function McpOutOf(r: McpRow): (out: Option<McpOut>)
    ensures out.Some? ==> out.value.id == r.id && StoredPlugins(r.toolPlugins) == Some(out.value.toolPlugins)
    ensures out.Some? ==> r.provider == Some(out.value.provider) && r.model == Some(out.value.model)
  {
    var plugins := StoredPlugins(r.toolPlugins);
    if r.name.Some? && r.provider.Some? && r.model.Some? && r.temperature.Some? && plugins.Some? then
      Some(McpOut(r.id, r.name.value, r.provider.value, r.model.value, r.temperature.value, plugins.value))
    else None
  }

  /** The output does not depend on the stored API key. */
  lemma McpOutHidesApiKey(r: McpRow, key: Option<string>)
    ensures McpOutOf(r.(apiKey := key)) == McpOutOf(r)
  {
  }
}
