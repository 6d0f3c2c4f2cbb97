/**
  The records of the AI-application API: the three nested configuration
  records with their JSON form, the create and update payloads with their
  length bounds and defaults, and the response records.
*/
module AppSchema {
  import opened Wrappers
  import opened Json
  import opened JsonDict
  import opened Tables

  /** An agent an application may call; `description` defaults to `None`. */
  datatype AgentConfig = AgentConfig(agentId: string, name: string, description: Option<string>)

  /** A connector an application may use; `customDescription` defaults to `None`. */
  datatype McpConfig = McpConfig(mcpId: string, name: string, description: string, customDescription: Option<string>)

  /** A model configuration; `temperature` is a float, carried here as its decimal literal. */
  datatype LlmConfig = LlmConfig(provider: string, model: string, temperature: Number, maxTokens: int, apiKey: Option<string>)

  /** The literal `0.7`. */
  const DefaultTemperature: Number := Number(false, 0, [7])

  const DefaultMaxTokens: int := 4000

  /* ------------------------------------------------- JSON of field values */

  function TextJson(o: Option<string>): Json { if o.Some? then JString(o.value) else JNull }

  function IntJson(i: int): Json { JNumber(Number(i < 0, if i < 0 then -i else i, [])) }

  /** The value an object gives a key; as `json.loads` builds a dict, a later duplicate wins. */
  function Lookup(members: seq<Member>, key: string): (r: Option<Json>)
    ensures r.None? <==> forall k :: 0 <= k < |members| ==> members[k].key != key
    decreases |members|
  {
    if members == [] then None
    else
      var later := Lookup(members[1..], key);
      if later.Some? then later
      else if members[0].key == key then Some(members[0].value)
      else None
  }

  /** The last member with the key gives its value. */
  lemma {:induction false} LookupFound(members: seq<Member>, k: nat)
    requires k < |members|
    requires forall l :: k < l < |members| ==> members[l].key != members[k].key
    ensures Lookup(members, members[k].key) == Some(members[k].value)
    decreases k
  {
    var key := members[k].key;
    if k == 0 {
      assert forall l :: 0 <= l < |members[1..]| ==> members[1..][l].key != key by {
        forall l | 0 <= l < |members[1..]| ensures members[1..][l].key != key {
          assert members[1..][l] == members[l + 1];
        }
      }
    } else {
      var tail := members[1..];
      assert tail[k - 1] == members[k];
      forall l | k - 1 < l < |tail| ensures tail[l].key != key {
        assert tail[l] == members[l + 1];
      }
      LookupFound(tail, k - 1);
    }
  }

  lemma LookupDistinct(members: seq<Member>, k: nat)
    requires DistinctKeys(members) && k < |members|
    ensures Lookup(members, members[k].key) == Some(members[k].value)
  {
    LookupFound(members, k);
  }

  /** A required `str` field; `None` means the model refuses the input. */
  function TextField(members: seq<Member>, key: string): Option<string>
  {
    match Lookup(members, key)
    case Some(JString(s)) => Some(s)
    case _ => None
  }

  /** An `Optional[str]` field defaulting to `None`: absent or null reads as `None`. */
  function OptionalTextField(members: seq<Member>, key: string): Option<Option<string>>
  {
    match Lookup(members, key)
    case None => Some(None)
    case Some(JNull) => Some(None)
    case Some(JString(s)) => Some(Some(s))
    case Some(_) => None
  }

  /** A `float` field with a default. */
  function NumberField(members: seq<Member>, key: string, default: Number): Option<Number>
  {
    match Lookup(members, key)
    case None => Some(default)
    case Some(JNumber(n)) => Some(n)
    case Some(_) => None
  }

  /** An `int` field with a default: a JSON number without a fraction. */
  function IntField(members: seq<Member>, key: string, default: int): Option<int>
  {
    match Lookup(members, key)
    case None => Some(default)
    case Some(JNumber(n)) =>
      if n.fraction == [] then Some(if n.negative then -(n.whole as int) else n.whole) else None
    case Some(_) => None
  }

  /* ------------------------------------------------------- nested records */

  /** `json.dumps` of `agent.dict()`: the fields in declaration order. */
  function AgentConfigJson(c: AgentConfig): Json
  {
    JObject([Member("agent_id", JString(c.agentId)), Member("name", JString(c.name)),
             Member("description", TextJson(c.description))])
  }

  /** `AgentConfig(**x)`: `None` when `x` is not an object or a field has the wrong type. */
  function AgentConfigOf(x: Json): Option<AgentConfig>
  {
    if !x.JObject? then None
    else
      var agentId := TextField(x.members, "agent_id");
      var name := TextField(x.members, "name");
      var description := OptionalTextField(x.members, "description");
      if agentId.Some? && name.Some? && description.Some? then
        Some(AgentConfig(agentId.value, name.value, description.value))
      else None
  }

  function McpConfigJson(c: McpConfig): Json
  {
    JObject([Member("mcp_id", JString(c.mcpId)), Member("name", JString(c.name)),
             Member("description", JString(c.description)),
             Member("custom_description", TextJson(c.customDescription))])
  }

  function McpConfigOf(x: Json): Option<McpConfig>
  {
    if !x.JObject? then None
    else
      var mcpId := TextField(x.members, "mcp_id");
      var name := TextField(x.members, "name");
      var description := TextField(x.members, "description");
      var custom := OptionalTextField(x.members, "custom_description");
      if mcpId.Some? && name.Some? && description.Some? && custom.Some? then
        Some(McpConfig(mcpId.value, name.value, description.value, custom.value))
      else None
  }

  function LlmConfigJson(c: LlmConfig): Json
  {
    JObject([Member("provider", JString(c.provider)), Member("model", JString(c.model)),
             Member("temperature", JNumber(c.temperature)), Member("max_tokens", IntJson(c.maxTokens)),
             Member("api_key", TextJson(c.apiKey))])
  }

  function LlmConfigOf(x: Json): Option<LlmConfig>
  {
    if !x.JObject? then None
    else
      var provider := TextField(x.members, "provider");
      var model := TextField(x.members, "model");
      var temperature := NumberField(x.members, "temperature", DefaultTemperature);
      var maxTokens := IntField(x.members, "max_tokens", DefaultMaxTokens);
      var apiKey := OptionalTextField(x.members, "api_key");
      if provider.Some? && model.Some? && temperature.Some? && maxTokens.Some? && apiKey.Some? then
        Some(LlmConfig(provider.value, model.value, temperature.value, maxTokens.value, apiKey.value))
      else None
  }

  lemma AgentConfigRoundTrip(c: AgentConfig)
    ensures AgentConfigOf(AgentConfigJson(c)) == Some(c)
  {
    AgentFields(c);
  }

  lemma AgentFields(c: AgentConfig)
    ensures var ms := AgentConfigJson(c).members;
            TextField(ms, "agent_id") == Some(c.agentId)
            && TextField(ms, "name") == Some(c.name)
            && OptionalTextField(ms, "description") == Some(c.description)
  {
    var ms := AgentConfigJson(c).members;
    assert DistinctKeys(ms);
    assert TextField(ms, "agent_id") == Some(c.agentId) by { LookupDistinct(ms, 0); }
    assert TextField(ms, "name") == Some(c.name) by { LookupDistinct(ms, 1); }
    assert OptionalTextField(ms, "description") == Some(c.description) by { LookupDistinct(ms, 2); }
  }

  lemma McpConfigRoundTrip(c: McpConfig)
    ensures McpConfigOf(McpConfigJson(c)) == Some(c)
  {
    McpFields(c);
  }

  lemma McpFields(c: McpConfig)
    ensures var ms := McpConfigJson(c).members;
            TextField(ms, "mcp_id") == Some(c.mcpId)
            && TextField(ms, "name") == Some(c.name)
            && TextField(ms, "description") == Some(c.description)
            && OptionalTextField(ms, "custom_description") == Some(c.customDescription)
  {
    var ms := McpConfigJson(c).members;
    assert DistinctKeys(ms);
    assert TextField(ms, "mcp_id") == Some(c.mcpId) by { LookupDistinct(ms, 0); }
    assert TextField(ms, "name") == Some(c.name) by { LookupDistinct(ms, 1); }
    assert TextField(ms, "description") == Some(c.description) by { LookupDistinct(ms, 2); }
    assert OptionalTextField(ms, "custom_description") == Some(c.customDescription) by { LookupDistinct(ms, 3); }
  }

  lemma LlmConfigRoundTrip(c: LlmConfig)
    ensures LlmConfigOf(LlmConfigJson(c)) == Some(c)
  {
    LlmFields(c);
  }

  lemma LlmFields(c: LlmConfig)
    ensures var ms := LlmConfigJson(c).members;
            TextField(ms, "provider") == Some(c.provider)
            && TextField(ms, "model") == Some(c.model)
            && NumberField(ms, "temperature", DefaultTemperature) == Some(c.temperature)
            && IntField(ms, "max_tokens", DefaultMaxTokens) == Some(c.maxTokens)
            && OptionalTextField(ms, "api_key") == Some(c.apiKey)
  {
    LlmTextFields(c);
    LlmNumberFields(c);
  }

  lemma LlmTextFields(c: LlmConfig)
    ensures var ms := LlmConfigJson(c).members;
            TextField(ms, "provider") == Some(c.provider)
            && TextField(ms, "model") == Some(c.model)
            && OptionalTextField(ms, "api_key") == Some(c.apiKey)
  {
    LlmLookup(c, 0);
    LlmLookup(c, 1);
    LlmLookup(c, 4);
  }

  lemma LlmNumberFields(c: LlmConfig)
    ensures var ms := LlmConfigJson(c).members;
            NumberField(ms, "temperature", DefaultTemperature) == Some(c.temperature)
            && IntField(ms, "max_tokens", DefaultMaxTokens) == Some(c.maxTokens)
  {
    LlmLookup(c, 2);
    LlmLookup(c, 3);
  }

  /** Each member of the dumped LLM configuration is the one its key finds. */
  lemma LlmLookup(c: LlmConfig, k: nat)
    requires k < 5
    ensures var ms := LlmConfigJson(c).members;
            Lookup(ms, ms[k].key) == Some(ms[k].value)
  {
    var ms := LlmConfigJson(c).members;
    assert ms[0].key == "provider" && ms[1].key == "model" && ms[2].key == "temperature"
        && ms[3].key == "max_tokens" && ms[4].key == "api_key";
    LookupFound(ms, k);
  }

  /** An object that leaves out the optional field still builds, with its default. */
  lemma AgentConfigDefaults(agentId: string, name: string)
    ensures AgentConfigOf(JObject([Member("agent_id", JString(agentId)), Member("name", JString(name))]))
         == Some(AgentConfig(agentId, name, None))
  {
    var ms := [Member("agent_id", JString(agentId)), Member("name", JString(name))];
    assert TextField(ms, "agent_id") == Some(agentId) by { LookupFound(ms, 0); }
    assert TextField(ms, "name") == Some(name) by { LookupFound(ms, 1); }
  }

  lemma McpConfigDefaults(mcpId: string, name: string, description: string)
    ensures McpConfigOf(JObject([Member("mcp_id", JString(mcpId)), Member("name", JString(name)),
                                 Member("description", JString(description))]))
         == Some(McpConfig(mcpId, name, description, None))
  {
    var ms := [Member("mcp_id", JString(mcpId)), Member("name", JString(name)),
               Member("description", JString(description))];
    assert DistinctKeys(ms);
    assert TextField(ms, "mcp_id") == Some(mcpId) by { LookupDistinct(ms, 0); }
    assert TextField(ms, "name") == Some(name) by { LookupDistinct(ms, 1); }
    assert TextField(ms, "description") == Some(description) by { LookupDistinct(ms, 2); }
  }

  /** Without `temperature`, `max_tokens` and `api_key` the record reads 0.7, 4000 and `None`. */
  lemma LlmConfigDefaults(provider: string, model: string)
    ensures LlmConfigOf(JObject([Member("provider", JString(provider)), Member("model", JString(model))]))
         == Some(LlmConfig(provider, model, DefaultTemperature, DefaultMaxTokens, None))
  {
    var ms := [Member("provider", JString(provider)), Member("model", JString(model))];
    assert TextField(ms, "provider") == Some(provider) by { LookupFound(ms, 0); }
    assert TextField(ms, "model") == Some(model) by { LookupFound(ms, 1); }
  }

  /* --------------------------------------------------------- nested lists */

  /** `[x.dict() for x in xs]`: the JSON array of the records in order. */
  function ListJson<T>(xs: seq<T>, toJson: T -> Json): (j: Json)
    ensures j.JArray? && |j.items| == |xs|
    ensures forall k :: 0 <= k < |xs| ==> j.items[k] == toJson(xs[k])
  {
    JArray(seq(|xs|, k requires 0 <= k < |xs| => toJson(xs[k])))
  }

  /** Builds every array item with `of`; one refused item fails the whole list. */
  function ItemsOf<T>(items: seq<Json>, of: Json -> Option<T>): (r: Option<seq<T>>)
    ensures r.Some? <==> forall k :: 0 <= k < |items| ==> of(items[k]).Some?
    ensures r.Some? ==> |r.value| == |items|
    ensures r.Some? ==> forall k :: 0 <= k < |items| ==> of(items[k]) == Some(r.value[k])
    decreases |items|
  {
    if items == [] then Some([])
    else
      match (of(items[0]), ItemsOf(items[1..], of))
      case (Some(x), Some(xs)) => Some([x] + xs)
      case _ => None
  }

  /**
    `[Cls(**x) for x in data]` for a parsed value `data`. Iterating an array
    visits its items; iterating an object visits its keys and iterating a
    string its characters, and `**` on a string raises, so only the empty
    object and the empty string give `[]`; iterating a number, a boolean or
    `None` raises.
  */
  function ListOf<T>(data: Json, of: Json -> Option<T>): Option<seq<T>>
  {
    match data
    case JArray(items) => ItemsOf(items, of)
    case JObject(members) => if members == [] then Some([]) else None
    case JString(s) => if s == [] then Some([]) else None
    case _ => None
  }

  lemma {:induction false} ListRoundTrip<T>(xs: seq<T>, toJson: T -> Json, of: Json -> Option<T>)
    requires forall x :: of(toJson(x)) == Some(x)
    ensures ListOf(ListJson(xs, toJson), of) == Some(xs)
  {
    var items := ListJson(xs, toJson).items;
    var r := ItemsOf(items, of);
    assert forall k :: 0 <= k < |items| ==> of(items[k]) == Some(xs[k]);
    assert r.Some?;
    assert r.value == xs;
  }

  /* ------------------------------------------------------ the app records */

  /** The create payload after validation, defaults filled in. */
  datatype AppCreate = AppCreate(
    name: string,
    identifier: string,
    icon: Option<string>,
    description: Option<string>,
    isActive: bool,
    dashboardUrl: Option<string>,
    mainAgentId: Option<string>,
    agentList: Option<seq<AgentConfig>>,
    mcpList: Option<seq<McpConfig>>,
    llmConfig: Option<seq<LlmConfig>>,
    systemPrompt: Option<string>,
    appType: string,
    userId: Option<string>)

  /** A create payload naming only the two required fields. */
  function MinimalAppCreate(name: string, identifier: string): AppCreate
  {
    AppCreate(name, identifier, None, None, true, None, None, None, None, None, None, "platform", None)
  }

  predicate ValidName(s: string) { 1 <= |s| <= 255 }

  /** The length bounds the base schema declares. */
  predicate ValidAppCreate(d: AppCreate)
  {
    ValidName(d.name) && ValidName(d.identifier) && FitsVarchar(d.icon, 500) && FitsVarchar(d.dashboardUrl, 500)
  }

  /**
    An update payload. Each field is `None` when the payload leaves it out and
    `Some(v)` when it is sent, where `v` may be null. There is no field for
    `id`, `app_type` or `user_id`.
  */
  datatype AppPatch = AppPatch(
    name: Option<Option<string>>,
    identifier: Option<Option<string>>,
    icon: Option<Option<string>>,
    description: Option<Option<string>>,
    isActive: Option<Option<bool>>,
    dashboardUrl: Option<Option<string>>,
    mainAgentId: Option<Option<string>>,
    agentList: Option<Option<seq<AgentConfig>>>,
    mcpList: Option<Option<seq<McpConfig>>>,
    llmConfig: Option<Option<seq<LlmConfig>>>,
    systemPrompt: Option<Option<string>>)

  /** A sent, non-null value must meet its field's bounds. */
  predicate SentWithin(o: Option<Option<string>>, lo: nat, hi: nat)
  {
    o.None? || o.value.None? || lo <= |o.value.value| <= hi
  }

  predicate ValidAppPatch(p: AppPatch)
  {
    SentWithin(p.name, 1, 255) && SentWithin(p.identifier, 1, 255)
    && SentWithin(p.icon, 0, 500) && SentWithin(p.dashboardUrl, 0, 500)
  }

  datatype AppResponse = AppResponse(
    id: string,
    name: string,
    identifier: string,
    icon: Option<string>,
    description: Option<string>,
    isActive: bool,
    dashboardUrl: Option<string>,
    accessUrl: Option<string>,
    mainAgentId: Option<string>,
    agentList: Option<seq<AgentConfig>>,
    mcpList: Option<seq<McpConfig>>,
    llmConfig: Option<seq<LlmConfig>>,
    systemPrompt: Option<string>,
    appType: string,
    userId: Option<string>,
    createdAt: Timestamp,
    updatedAt: Option<Timestamp>)

  datatype AppListResponse = AppListResponse(apps: seq<AppResponse>, total: nat, page: int, size: nat)

  datatype PromptRequest = PromptRequest(
    appName: string,
    appDescription: Option<string>,
    agentList: Option<seq<AgentConfig>>,
    mcpList: Option<seq<McpConfig>>)
}
