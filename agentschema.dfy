/**
  The agent records: the create payload with its defaults, the update payload,
  and the output record that reads a stored row back, parsing its tool list.
*/
module AgentSchema {
  import opened Wrappers
  import opened Json
  import opened JsonDict
  import opened ListField
  import opened AgentModel

  /** One tool configuration: a dict, its members in insertion order; nested objects are dicts too. */
  type Tool = ms: seq<Member> | DictLike(JObject(ms)) witness []

  /** The create payload; `description`, `temperature`, `max_tokens`, `is_active` and `tools` are optional. */
  datatype AgentCreate = AgentCreate(
    id: string,
    name: string,
    description: Option<string>,
    systemPrompt: string,
    temperature: Option<string>,
    maxTokens: Option<string>,
    isActive: Option<bool>,
    mcpId: string,
    tools: Option<seq<Tool>>)

  /** A create payload naming only the required fields: the declared defaults fill the rest. */
  function NewAgent(id: string, name: string, systemPrompt: string, mcpId: string): AgentCreate
  {
    AgentCreate(id, name, Some(""), systemPrompt, Some("0.7"), Some("4000"), Some(true), mcpId, Some([]))
  }

  /**
    An update payload: `None` for a field left out, `Some(v)` for a field sent,
    where `v` may be null. There is no `id` field.
  */
  datatype AgentPatch = AgentPatch(
    name: Option<Option<string>>,
    description: Option<Option<string>>,
    systemPrompt: Option<Option<string>>,
    temperature: Option<Option<string>>,
    maxTokens: Option<Option<string>>,
    isActive: Option<Option<bool>>,
    mcpId: Option<Option<string>>,
    tools: Option<Option<seq<Tool>>>)

  /** The output record; every field is required and `tools` is a list of objects. */
  datatype AgentOut = AgentOut(
    id: string,
    name: string,
    description: string,
    systemPrompt: string,
    temperature: string,
    maxTokens: string,
    isActive: bool,
    mcpId: string,
    tools: seq<Tool>)

  /** The JSON value `json.dumps` receives for a tool list (`None` dumps as `null`). */
  function ToolsJson(tools: Option<seq<Tool>>): (j: Json)
    ensures tools.None? <==> j.JNull?
    ensures tools.Some? ==> j.JArray? && |j.items| == |tools.value|
    ensures tools.Some? ==> forall k :: 0 <= k < |tools.value| ==> j.items[k] == JObject(tools.value[k])
  {
    if tools.None? then JNull
    else JArray(seq(|tools.value|, k requires 0 <= k < |tools.value| => JObject(tools.value[k])))
  }

  /**
    Validation of `List[Dict[str, Any]]`: an array whose items are all objects.
    The value comes from `json.loads`, so its objects are dicts already.
  */
  function ToolsOf(j: Json): (r: Option<seq<Tool>>)
    ensures r.Some? ==> j.JArray? && forall k :: 0 <= k < |j.items| ==> j.items[k].JObject?
    ensures DictLike(j) && j.JArray? && (forall k :: 0 <= k < |j.items| ==> j.items[k].JObject?) ==> r.Some?
    ensures r.Some? ==> |r.value| == |j.items| && forall k :: 0 <= k < |j.items| ==> j.items[k] == JObject(r.value[k])
  {
    if j.JArray? && forall k :: 0 <= k < |j.items| ==> j.items[k].JObject? && DictLike(j.items[k]) then
      Some(seq(|j.items|, k requires 0 <= k < |j.items| => j.items[k].members))
    else None
  }

  /** A dumped tool list validates back to itself. */
  lemma ToolsRoundTrip(tools: seq<Tool>)
    ensures ToolsOf(ToolsJson(Some(tools))) == Some(tools)
  {
    var r := ToolsOf(ToolsJson(Some(tools)));
    assert r.Some?;
    assert r.value == tools;
  }

  /** A stored `tools` column read through `parse_tools`: NULL or unparsable text reads as `[]`. */
  function StoredTools(cell: Option<string>): Option<seq<Tool>>
  {
    ToolsOf(ParseListField(ColumnValue(cell)))
  }

  /** The text `json.dumps` stores for a tool list reads back as that list. */
  lemma StoredToolsRoundTrip(tools: seq<Tool>)
    ensures StoredTools(Some(Encode(ToolsJson(Some(tools))))) == Some(tools)
  {
    ParseEncoded(ToolsJson(Some(tools)));
    ToolsRoundTrip(tools);
  }

  /** A stored column validates exactly when it reads as an array of objects. */
  lemma StoredToolsValidate(cell: Option<string>)
    ensures StoredTools(cell).Some? <==>
              var j := ParseListField(ColumnValue(cell));
              j.JArray? && forall k :: 0 <= k < |j.items| ==> j.items[k].JObject?
  {
  }

  /** A stored tool whose text repeats a key reads back with the key once, holding its last value. */
  lemma {:induction false} StoredToolsLastKeyWins(key: string, first: Json, second: Json)
    ensures StoredTools(Some(Encode(JArray([JObject([Member(key, first), Member(key, second)])]))))
            == Some([[Member(key, Loaded(second))]])
  {
    var o := JObject([Member(key, first), Member(key, second)]);
    ParseDumped(JArray([o]));
    LoadedRepeatedKey(key, first, second);
    var j := JArray([JObject([Member(key, Loaded(second))])]);
    assert Loaded(JArray([o])).items == [Loaded(o)];
    assert Loaded(JArray([o])) == j;
    var r := ToolsOf(j);
    assert r.Some? && |r.value| == 1 && j.items[0] == JObject(r.value[0]);
    assert r.value == [[Member(key, Loaded(second))]];
  }

  /** A NULL column and a malformed text both read as the empty list. */
  lemma StoredToolsFallback(cell: Option<string>)
    requires cell.None? || forall j :: cell.value != Encode(j)
    ensures StoredTools(cell) == Some([])
  {
    if cell.Some? {
      ParseMalformed(cell.value);
    }
  }

  /** `AgentOut` read from a row (`orm_mode`): a NULL required column or a tool list that does not validate refuses the row. */
  function AgentOutOf(r: AgentRow): (out: Option<AgentOut>)
    ensures out.Some? ==> out.value.id == r.id && StoredTools(r.tools) == Some(out.value.tools)
    ensures out.Some? ==> r.name == Some(out.value.name) && r.isActive == Some(out.value.isActive)
  {
    var tools := StoredTools(r.tools);
    if r.name.Some? && r.description.Some? && r.systemPrompt.Some? && r.temperature.Some?
       && r.maxTokens.Some? && r.isActive.Some? && r.mcpId.Some? && tools.Some?
    then
      Some(AgentOut(r.id, r.name.value, r.description.value, r.systemPrompt.value, r.temperature.value,
                    r.maxTokens.value, r.isActive.value, r.mcpId.value, tools.value))
    else None
  }
}
