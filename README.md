# Configuration registry: the materialisation layer, in Dafny

This project models the core of a configuration registry for AI assistant
deployments. The registry has three tables:

- **connectors** (`mcp`): provider, model, credential and a list of tool plugins;
- **agents** (`agent`): a system prompt, a connector reference and a list of tool objects;
- **applications** (`ai_app`): a composite of agent references, connector
  references and model-parameter bundles, published under a derived access path.

The model covers how typed configuration objects become text columns and back,
how a sparse update touches only the fields it names, and how the list route
pages through the filtered rows.

Modules, leaves first:

- `Wrappers`: `Option` and `Result`.
- `Tables`: the pieces the SQL session provides.
  - Failures (`DatabaseError`, `ValidationError`, `TypeError`, `AttributeError`, `ZeroDivisionError`).
  - Cells.
  - `VARCHAR` bounds, NOT NULL and UNIQUE as predicates.
  - `.filter(...).first()` as `Find`, `offset`/`limit` as `Window`, row removal as `Without`.
- `Json`: JSON values with a concrete `Encode`, the single-line text
  `json.dumps` writes, and a strict recursive-descent `Decode`.
  `DecodeInvertsEncode` proves `Decode(s) == Some(j)` exactly when `s == Encode(j)`.
  So "malformed text" means any text outside the range of `Encode`.
- `JsonDict`: what `json.loads` builds from parsed text. Every object becomes a dict, so a repeated key keeps its first place and its last value.
- `ListField`: the shared `pre=True` validator (`parse_tools`, `parse_tool_plugins`).
- `AppSchema`:
  - the nested records `AgentConfig`, `MCPConfig` and `LLMConfig`, with their `json.dumps` form and how `X(**d)` rebuilds them;
  - the create and update payloads, the response and the prompt request.
- `AppModel`, `AgentModel`, `McpModel`: the row shapes.
  - Their column constraints.
  - `Get`/`Set` by column.
  - `Assigned`, the row after a `setattr` loop over a map of column values.
- `AgentSchema`, `McpSchema`: create defaults, update field sets, output records and the tool-list decoders.
- `Store`: class `Database`, holding the three tables as sequences in scan order.
  `Valid()` means every table meets its constraints.
- `AgentService`, `McpService`, `AppService`: the service functions.
  - A create, update or delete is a method on the `Database`.
  - It commits exactly when the new table is valid; otherwise it returns `DatabaseError` and leaves the table as it was.
  - Each `setattr` loop is a `while` loop over the keys of the update map, proved equal to `Assigned`.
  - `generate_system_prompt` appends its parts step by step and is proved equal to `PromptText`.
- `AppApi`: the parts of `app/api/ai_app.py` that carry logic.
  - The `page`/`size` bounds and `skip = (page - 1) * size`.
  - The fixed filters of the platform and user lists.
  - The status each service outcome is answered with.

Modelling choices:

- A patch field has type `Option<Option<T>>`. `None` means the field is not in
  the payload; `Some(None)` means it was sent as null.
- `uuid.uuid4()` is the `id` parameter of `CreateApp`. A collision is not assumed
  away: it breaks the primary key, and the commit fails.
- The database clock is the `now` parameter. `created_at` is `now` on insert.
  `updated_at` becomes `now` exactly when the update changes some column's
  value; SQLAlchemy emits no `UPDATE` for an unchanged row.
- Python truthiness is written out:
  - a filter applies only when it is neither `None` nor `""`;
  - a list is stored on create only when it is non-empty.

Where the code differs from the design description of the system, the model
follows the code:

- Create stores NULL for an empty nested list (`if ai_app_data.agent_list:`),
  so an empty list reads back as `None`, not `[]`.
- Update dumps the nested lists from `.dict(exclude_unset=True)`, which has
  already turned each record into a dict.
  - A named non-empty list raises `AttributeError`; a named null list raises `TypeError`.
  - Both happen before any `setattr`. Only `[]` stores, as `"[]"`.
- Every create failure, a duplicate identifier included, is one generic
  `400`; there is no separate conflict outcome.
- A page size of `0` is a `ZeroDivisionError` in the service, not an
  invalid-argument outcome. The route's bounds keep it out.
- `delete_agent` and `delete_mcp` return `None` for an unknown id; the model returns `false`.
- An update that sends `identifier: null` computes `"/app/None"`.
  The NOT NULL identifier column then refuses the commit, so that path is
  never stored (`NullIdentifierRefused`).
- An agent's system prompt is only NOT NULL; nothing requires it to be non-empty.
- A tool object is any JSON object, not a fixed record. It is a dict, so
  its keys are distinct (`AgentSchema.Tool`). A stored text that repeats a
  key reads back with that key once, holding its last value, as `json.loads`
  builds it (`AgentSchema.StoredToolsLastKeyWins`).
- A response that fails validation after its row committed raises after the
  commit, so the row stays stored. The create route answers it with the
  generic `400` (`AppApi.CreateRoute`), the update route with `500`
  (`AppApi.UpdateRoute`).

## Model

| member | source | states |
|---|---|---|
| Tables.InsertDefault | app/models/agent.py:11-13 | a column with a client-side default stores the given value, or the default when the value is `None`; never NULL |
| Tables.Find | app/services/ai_app.py:72 | `.filter(id == k).first()`: the first row with key `k`; nothing exactly when no row has that key |
| Tables.Select | app/services/agent_service.py:54 | a filtered query: the rows that satisfy the predicate and no others |
| Tables.Window | app/services/ai_app.py:97 | `offset(skip).limit(limit)`: at most `limit` rows, exactly the rows from position `skip` on, with the length the end of the table allows |
| Tables.Without | app/services/ai_app.py:147-148 | deleting row `i` keeps every other row in order |
| Tables.FindUnique | app/models/ai_app.py:8 | under a primary key, looking up a row's key finds that row |
| Tables.WithoutRemovesOnlyThatRow | app/services/ai_app.py:147-148 | deleting by primary key removes exactly the rows with that key and keeps the key unique |
| Tables.WindowsTile | app/services/ai_app.py:97 | the window at `skip` of size `a`, then the window at `skip + a` of size `b`, make up the window of size `a + b`: consecutive pages are disjoint and cover the rows in order |
| Tables.PagesReadPrefix | app/api/ai_app.py:60 | the first `n` pages of size `s` read exactly the first `n * s` rows |
| Tables.MapAll | app/services/ai_app.py:99 | `[f(x) for x in rows]` where `f` may raise: a result exactly when every row maps, one per row and in order; otherwise a failure that some row raised |
| Tables.MapAllAppend | app/services/ai_app.py:99 | mapping two runs one after the other maps their concatenation |
| Tables.MapAllWindowsTile | app/services/ai_app.py:97-99 | the mapped rows before `skip` followed by the mapped window at `skip` are the mapped rows before `skip + size` |
| Tables.MapAllPagesPrefix | app/services/ai_app.py:97-99 | mapped pages `0..n-1` of one size, concatenated, are the mapped first `n * size` rows |
| Json.DecodeInvertsEncode | app/schemas/agent.py:41 | `json.loads(s)` gives `j` exactly when `s` is the text `json.dumps` writes for `j` |
| Json.DecodeEncode | app/services/agent_service.py:16 | text written for a value reads back as that value |
| Json.ValueRoundTrip | app/services/ai_app.py:214 | reading the text of `j` followed by any text that ends a value gives `j` and leaves the rest |
| Json.ValueParsedIsEncoded | app/services/ai_app.py:214 | whatever the reader accepts is the text of the value it returns, followed by what it leaves |
| Json.StringRoundTrip | app/services/ai_app.py:214 | an escaped string body reads back as the string |
| Json.NumberRoundTrip | app/services/ai_app.py:230 | a number's literal reads back as that number |
| Json.DigitsRoundTrip | app/services/ai_app.py:230 | the decimal text of a digit sequence reads back as the digits |
| JsonDict.Put | app/schemas/agent.py:41 | `d[k] = v`: the new member is present, a key already present keeps its place, members with other keys stay, keys stay distinct |
| JsonDict.Dedup | app/schemas/agent.py:41 | the dict built from an object's members has distinct keys and holds only members that were given |
| JsonDict.DedupKeepsLast | app/schemas/agent.py:41 | a member no later member overrides is in the dict |
| JsonDict.DedupDistinct | app/schemas/agent.py:41 | members whose keys are already distinct are the dict unchanged |
| JsonDict.LaterKeyWins | app/schemas/agent.py:41 | of two members with one key, the dict keeps the second |
| JsonDict.Loaded | app/schemas/agent.py:41 | the value `json.loads` returns has distinct keys in every object, at any depth |
| JsonDict.LoadedRepeatedKey | app/schemas/agent.py:41 | an object repeating a key loads with that key once, holding its last value |
| JsonDict.LoadedDictLike | app/schemas/agent.py:41 | a value whose objects are dicts, which is every value `json.dumps` can write, loads as itself |
| ListField.ParseListField | app/schemas/agent.py:37-44 | `None` reads as `[]`; a value that is not a text passes unchanged; a text reads as a value whose objects are dicts |
| ListField.ParseDumped | app/schemas/agent.py:41 | the text of any value reads back as that value with its objects made dicts |
| ListField.ColumnValue | app/models/agent.py:15 | a NULL column is `None` to the validator, any text is a `str` |
| ListField.ParseEncoded | app/schemas/agent.py:41 | text written by `json.dumps` of a value whose objects are dicts reads back as that value |
| ListField.ParseMalformed | app/schemas/agent.py:42-43 | a text that does not parse reads as `[]` |
| ListField.NullTextPassesThrough | app/schemas/agent.py:41 | the text `null` parses to JSON null, which is returned as is and not replaced by `[]` |
| AppSchema.Lookup | app/services/ai_app.py:215 | the value `d[key]` holds in the dict `json.loads` builds: nothing exactly when no member has the key |
| AppSchema.LookupFound | app/services/ai_app.py:215 | the last member with a key gives the value the dict holds for it |
| AppSchema.LookupDistinct | app/services/ai_app.py:215 | in an object with distinct keys, each member's key finds that member |
| AppSchema.AgentConfigRoundTrip | app/schemas/ai_app.py:13-16 | `AgentConfig(**json.loads(json.dumps(c.dict())))` is `c` |
| AppSchema.McpConfigRoundTrip | app/schemas/ai_app.py:6-10 | `MCPConfig` rebuilt from its dumped dict is the record that was dumped |
| AppSchema.LlmConfigRoundTrip | app/schemas/ai_app.py:19-24 | `LLMConfig` rebuilt from its dumped dict is the record that was dumped |
| AppSchema.LlmFields | app/schemas/ai_app.py:19-24 | every field of a dumped `LLMConfig` is read back with its own value |
| AppSchema.AgentConfigDefaults | app/schemas/ai_app.py:16 | an `AgentConfig` object without `description` builds with `description = None` |
| AppSchema.McpConfigDefaults | app/schemas/ai_app.py:10 | an `MCPConfig` object without `custom_description` builds with `None` |
| AppSchema.LlmConfigDefaults | app/schemas/ai_app.py:22-24 | an `LLMConfig` object with only `provider` and `model` builds with temperature `0.7`, `max_tokens` 4000 and no API key |
| AppSchema.ListJson | app/services/ai_app.py:34 | `[x.dict() for x in xs]` is the array of the records in list order |
| AppSchema.ItemsOf | app/services/ai_app.py:215 | building every item succeeds exactly when each item builds; the result holds them in order |
| AppSchema.ListRoundTrip | app/services/ai_app.py:213-215 | a dumped list of records is built back as the same list |
| AppModel.Get | app/models/ai_app.py:8-30 | every column holds a cell of its type: `is_active` a flag, the others text |
| AppModel.RowsAgree | app/models/ai_app.py:8-34 | two rows that agree on every column are the same row |
| AppModel.Set | app/services/ai_app.py:133 | `setattr` writes one column and leaves the others and the fixed fields alone |
| AppModel.Assigned | app/services/ai_app.py:132-133 | the `setattr` loop never changes `id`, `app_type`, `user_id` or the timestamps |
| AppModel.AssignedColumn | app/services/ai_app.py:132-133 | after the loop a column holds its value from the update map if named, else its old value |
| AppModel.AssignedColumns | app/services/ai_app.py:132-133 | the same, for all columns at once |
| AppModel.AssignedIsUnique | app/services/ai_app.py:132-133 | any row with exactly those columns and fixed fields is the row the loop produces, whatever the order of the loop |
| AppModel.Patched | app/models/ai_app.py:33-34 | the updated row has the written columns, keeps `id`, `app_type`, `user_id` and `created_at`, and sets `updated_at` to the clock when a value changed |
| AgentModel.Get | app/models/agent.py:7-15 | every agent column holds a cell of its type |
| AgentModel.RowsAgree | app/models/agent.py:7-15 | agent rows that agree on `id` and every column are equal |
| AgentModel.Set | app/services/agent_service.py:37-39 | `setattr` writes one agent column and leaves the others alone |
| AgentModel.Assigned | app/services/agent_service.py:35-39 | the `setattr` loop never changes the agent's `id` |
| AgentModel.AssignedColumn | app/services/agent_service.py:35-39 | a named column takes the map's value; an unnamed one keeps its value |
| AgentModel.AssignedColumns | app/services/agent_service.py:35-39 | the same for all columns at once |
| AgentModel.AssignedIsUnique | app/services/agent_service.py:35-39 | the result of the loop does not depend on the order of the fields |
| McpModel.RowsAgree | app/models/mcp.py:7-13 | connector rows that agree on `id`, `provider` and every updatable column are equal |
| McpModel.Set | app/services/mcp_service.py:30-32 | `setattr` writes one connector column and never `id` or `provider` |
| McpModel.Assigned | app/services/mcp_service.py:28-32 | the `setattr` loop never changes `id` or `provider` |
| McpModel.AssignedColumns | app/services/mcp_service.py:28-32 | a named column takes the map's value; an unnamed one keeps its value |
| McpModel.AssignedIsUnique | app/services/mcp_service.py:28-32 | the result of the loop does not depend on the order of the fields |
| AgentSchema.ToolsJson | app/services/agent_service.py:16 | `json.dumps(tools)`: `null` for `None`, else the array of the tool objects in order |
| AgentSchema.ToolsOf | app/schemas/agent.py:35 | `List[Dict[str, Any]]` validation: accepted only when the value is an array of objects, and always when it is one whose objects are dicts; the tools are the objects' members in order |
| AgentSchema.ToolsRoundTrip | app/schemas/agent.py:35 | a dumped tool list validates as the same list |
| AgentSchema.StoredToolsRoundTrip | app/schemas/agent.py:37-44 | `parse_tools(json.dumps(L)) == L` for every tool list `L` |
| AgentSchema.StoredToolsValidate | app/schemas/agent.py:35-44 | a stored `tools` column validates exactly when it reads as an array of objects |
| AgentSchema.StoredToolsLastKeyWins | app/schemas/agent.py:41 | a stored tool whose text repeats a key reads back with that key once, holding its last value |
| AgentSchema.StoredToolsFallback | app/schemas/agent.py:40-44 | a NULL or malformed `tools` column reads as `[]` |
| AgentSchema.AgentOutOf | app/schemas/agent.py:26-35 | an output record keeps the row's `id`, `name`, `is_active` and parsed tools |
| McpSchema.PluginsJson | app/services/mcp_service.py:14 | `json.dumps(tool_plugins)`: `null` for `None`, else the array of the names in order |
| McpSchema.PluginsOf | app/schemas/mcp.py:27 | `List[str]` validation: accepted exactly when the value is an array of strings |
| McpSchema.StoredPluginsRoundTrip | app/schemas/mcp.py:29-36 | `parse_tool_plugins(json.dumps(P)) == P` for every plugin list `P` |
| McpSchema.StoredPluginsFallback | app/schemas/mcp.py:31-36 | a NULL or malformed `tool_plugins` column reads as `[]` |
| McpSchema.McpOutOf | app/schemas/mcp.py:21-27 | an output record keeps the row's `id`, `provider`, `model` and parsed plugins |
| McpSchema.McpOutHidesApiKey | app/schemas/mcp.py:21-27 | the output record does not depend on the stored API key |
| AgentService.CreatedAgent | app/services/agent_service.py:7-17 | the payload's fields are copied as given, and `tools` is always stored as its JSON text |
| AgentService.CreateAgent | app/services/agent_service.py:6-21 | the new row is appended when the commit succeeds; otherwise the error is returned and no table changes |
| AgentService.InsertCommitsIff | app/models/agent.py:7-15 | an insert commits exactly when the row meets the column constraints and its id is new; `mcp_id` is never checked against the connectors |
| AgentService.CreatedAgentReadsBack | app/services/agent_service.py:6-21 | a created agent reads back with its fields, the column defaults and its tool list |
| AgentService.NewAgentDefaults | app/schemas/agent.py:5-14 | with only the required fields: description `""`, `"0.7"`, `"4000"`, active, and tools stored as `"[]"` |
| AgentService.NullToolsRefused | app/schemas/agent.py:14 | an explicit `tools: null` stores `"null"`, which the output record then refuses |
| AgentService.GetAgentById | app/services/agent_service.py:26-27 | a row with that id, or nothing exactly when none has it |
| AgentService.GetAgentsByMcp | app/services/agent_service.py:53-54 | exactly the agents whose `mcp_id` is the argument |
| AgentService.UpdateData | app/services/agent_service.py:34 | `data.dict(exclude_unset=True)`: exactly the sent fields, with their values |
| AgentService.UpdateDataShaped | app/services/agent_service.py:34 | only `tools` arrives as a list |
| AgentService.Stored | app/services/agent_service.py:36-39 | the value the loop body writes has the column's type |
| AgentService.StoredAll | app/services/agent_service.py:35-39 | the loop writes exactly the sent columns |
| AgentService.Writes | app/services/agent_service.py:35-39 | the cells an update writes are exactly those of the sent fields |
| AgentService.SetFields | app/services/agent_service.py:35-39 | the `setattr` loop yields the row with the sent fields written, `tools` dumped to JSON |
| AgentService.UpdateAgent | app/services/agent_service.py:29-43 | `Missing` exactly for an unknown id; otherwise the loop result is committed, or the error is returned and the table is unchanged |
| AgentService.UpdatedAgentColumns | app/services/agent_service.py:34-39 | the update keeps `id`, leaves unsent columns alone, writes sent fields verbatim, and stores sent tools so they read back unchanged |
| AgentService.DeleteAgent | app/services/agent_service.py:45-51 | `false` exactly for an unknown id, with nothing changed; otherwise only rows with that id go |
| McpService.CreatedMcp | app/services/mcp_service.py:7-14 | the payload's fields are copied as given, and `tool_plugins` is always stored as its JSON text |
| McpService.CreateMcp | app/services/mcp_service.py:6-19 | the new row is appended when the commit succeeds; otherwise the error is returned and nothing changes |
| McpService.InsertCommitsIff | app/models/mcp.py:7-13 | an insert commits exactly when the row meets the column constraints and its id is new |
| McpService.CreatedMcpReadsBack | app/services/mcp_service.py:6-19 | a created connector reads back with its fields and its plugin list |
| McpService.NewMcpDefaults | app/schemas/mcp.py:5-12 | with only the required fields: temperature `"0.7"` and plugins stored as `"[]"` |
| McpService.UpdateData | app/services/mcp_service.py:28 | `data.dict(exclude_unset=True)`: exactly the sent fields, with their values |
| McpService.UpdateDataShaped | app/services/mcp_service.py:28 | only `tool_plugins` arrives as a list |
| McpService.StoredAll | app/services/mcp_service.py:28-32 | the loop writes exactly the sent columns |
| McpService.Writes | app/services/mcp_service.py:28-32 | the cells an update writes are exactly those of the sent fields |
| McpService.SetFields | app/services/mcp_service.py:28-32 | the `setattr` loop yields the row with the sent fields written, `tool_plugins` dumped to JSON |
| McpService.UpdateMcp | app/services/mcp_service.py:24-35 | `Missing` exactly for an unknown id; otherwise the loop result is committed, or the error is returned and the table is unchanged |
| McpService.UpdatedMcpColumns | app/services/mcp_service.py:28-32 | the update keeps `id` and `provider`, leaves unsent columns alone, and stores sent plugins so they read back unchanged |
| McpService.DeleteMcp | app/services/mcp_service.py:37-43 | `false` exactly for an unknown id; otherwise only that connector goes, and the agents that name it stay as they are |
| AppService.AccessUrlFor | app/services/ai_app.py:29 | the access path is `/app/` followed by the identifier, or `/app/None` for a null one |
| AppService.CreateColumn | app/services/ai_app.py:32-42 | a nested list is stored as NULL exactly when it is `None` or empty |
| AppService.DecodeColumn | app/services/ai_app.py:211-233 | a NULL or empty column reads as `None` |
| AppService.CreatedColumnReadsBack | app/services/ai_app.py:32-42 | a stored nested list reads back as the list, except that `[]` reads back as `None` |
| AppService.MalformedColumnIsNull | app/services/ai_app.py:213-217 | a column whose text does not parse reads as `None`; the exception is swallowed |
| AppService.EncodedColumnReads | app/services/ai_app.py:213-215 | parseable text reads as the list built from its items, or `None` when an item fails |
| AppService.EmptyArrayColumnIsEmpty | app/services/ai_app.py:212-215 | the text `[]` reads as the empty list |
| AppService.ConvertToResponse | app/services/ai_app.py:208-253 | the response keeps `id`, `identifier` and `access_url`; it fails with a validation error exactly when a required field is NULL or a text breaks the record's length bounds |
| AppService.CreatedRow | app/services/ai_app.py:26-61 | the new row has the given id, `access_url = "/app/" + identifier`, `created_at` from the clock and no `updated_at` |
| AppService.CreateRoundTrip | app/services/ai_app.py:45-67 | the response rebuilt from the stored row is the payload with the derived fields and decoded lists |
| AppService.MinimalCreate | app/schemas/ai_app.py:28-49 | with only name and identifier: active, kind `platform`, no user, every nested list and optional field `None` |
| AppService.CreateCommitsIff | app/models/ai_app.py:8-30 | an insert commits exactly when the column bounds hold and both the id and the identifier are new |
| AppService.CreateApp | app/services/ai_app.py:23-67 | a committed row is appended and answered by its response; a refused one leaves the table unchanged |
| AppService.GetApp | app/services/ai_app.py:70-75 | `Missing` exactly when no row has the id; otherwise the response of a row with that id |
| AppService.Filtered | app/services/ai_app.py:86-94 | exactly the rows that pass each truthy filter |
| AppService.ConvertAll | app/services/ai_app.py:99 | every row converted in order, or the validation error of the first that fails |
| AppService.ListApps | app/services/ai_app.py:78-106 | a result exactly when `limit > 0` and every row of the window `offset(skip).limit(limit)` of the filtered rows converts; otherwise `ZeroDivisionError` for a zero `limit` and the validation error for a refused row; the page has one converted row per window row, in order; `total` counts all filtered rows; `page = skip // limit + 1` and `size = limit` |
| AppService.ListedWindow | app/services/ai_app.py:97-99 | a listed page is the window of filtered rows, every one converted |
| AppService.ListedAppsMatch | app/services/ai_app.py:89-94 | every listed application has the filtered kind and owner |
| AppService.TotalIgnoresWindow | app/services/ai_app.py:96 | `total` does not depend on `skip` or `limit` |
| AppService.SentData | app/services/ai_app.py:116 | `dict(exclude_unset=True)`: exactly the sent fields, with their cells |
| AppService.DumpListAt | app/services/ai_app.py:119-126 | dumping a named empty list writes `"[]"` into that key and nothing else |
| AppService.PatchData | app/services/ai_app.py:116-130 | the map the loop writes has a value of the right type in every column |
| AppService.PatchDataRaises | app/services/ai_app.py:119-126 | the update raises exactly when a nested list is named as null (`TypeError`) or non-empty (`AttributeError`) |
| AppService.PatchDataSteps | app/services/ai_app.py:116-130 | the map is built in the source's order: sent fields, the three dumps, then `access_url` |
| AppService.PatchDataAt | app/services/ai_app.py:116-130 | a column is written exactly when named; sent values are kept; nested lists become `"[]"`; `access_url` follows the identifier |
| AppService.PatchDataWrites | app/services/ai_app.py:128-130 | `access_url` is recomputed whenever `identifier` is sent, even when its value is unchanged |
| AppService.SetColumns | app/services/ai_app.py:132-133 | the `setattr` loop over the map yields the row with exactly those columns written |
| AppService.UpdateApp | app/services/ai_app.py:109-138 | `Missing` exactly for an unknown id; a raising dump or a refused commit leaves the table unchanged; otherwise the patched row is stored and answered |
| AppService.UpdateTouchesOnlyNamed | app/services/ai_app.py:116-133 | unnamed columns keep their values, sent ones take the sent value, and `id`, kind, owner and `created_at` never change |
| AppService.NullIdentifierRefused | app/services/ai_app.py:129-135 | a null identifier produces `/app/None`, and the commit of that row is always refused |
| AppService.NullActiveStoredThenRefused | app/services/ai_app.py:133-138 | `is_active: null` is stored, and the response built from that row fails validation |
| AppService.DeleteApp | app/services/ai_app.py:141-149 | `false` exactly for an unknown id, with nothing changed; otherwise that row goes and no other |
| AppService.JoinSnoc | app/services/ai_app.py:178 | joining one more part adds the separator and the part at the end |
| AppService.AgentNames | app/services/ai_app.py:164 | the agent names in list order |
| AppService.McpNames | app/services/ai_app.py:169 | the connector names in list order |
| AppService.AppendPart | app/services/ai_app.py:157-170 | appending a part when its condition holds extends the joined text by a newline and that line |
| AppService.GenerateSystemPrompt | app/services/ai_app.py:152-178 | the prompt is the name line, then each optional line when its source is truthy, then the guidance, newline-joined |
| AppService.WithLineExtends | app/services/ai_app.py:159-170 | an optional line never removes text already built |
| AppService.PromptFrame | app/services/ai_app.py:157-178 | the prompt always starts with the name line and ends with the guidance block |
| AppService.BodyOpensWithName | app/services/ai_app.py:157-170 | the lines before the guidance start with the name line |
| AppService.AvailableAgents | app/services/ai_app.py:181-191 | exactly the summaries of the agents whose `is_active` is true |
| AppService.AvailableMcps | app/services/ai_app.py:194-205 | every connector in order, projected to id, name, provider and model |
| AppService.AvailableMcpsHideApiKeys | app/services/ai_app.py:197-205 | the listing does not depend on any stored API key |
| AppApi.PageOffset | app/api/ai_app.py:60 | `n * size` is a multiple of `size`, and dividing it by `size` gives back `n` |
| AppApi.SkipFor | app/api/ai_app.py:60 | the offset is a multiple of the size, and dividing by the size gives `page - 1` |
| AppApi.PageRoundTrip | app/services/ai_app.py:104 | the service's `skip // limit + 1` is the page the caller asked for |
| AppApi.ListReply | app/api/ai_app.py:44-62 | `422` exactly when `page` or `size` is out of bounds; `500` exactly when they are in bounds and the service raises; a reply exactly when they are in bounds and every row of the window at `(page - 1) * size` converts; the reply has the page, size and filtered total as asked and one converted row per window row, in order |
| AppApi.ReplyWindow | app/api/ai_app.py:60-61 | a served page is the window of filtered rows at `(page - 1) * size`, every one converted |
| AppApi.ListedPagesReadPrefix | app/api/ai_app.py:44-62 | pages `1..n` served one after another are the first `n * size` filtered rows, converted, each once and in order; all of them once `n * size` reaches the total |
| AppApi.PlatformApps | app/api/ai_app.py:155-166 | only applications of kind `platform` are listed |
| AppApi.UserApps | app/api/ai_app.py:168-180 | only the applications of the path's user are listed |
| AppApi.CreateReply | app/api/ai_app.py:39-42 | any create failure is `400`; a success carries the response |
| AppApi.OutcomeReply | app/api/ai_app.py:72-75 | `404` exactly for a missing row, `500` for an exception, otherwise the response |
| AppApi.DeleteReply | app/api/ai_app.py:112-115 | `404` exactly when nothing was deleted, otherwise the confirmation message |
| AppApi.GetRoute | app/api/ai_app.py:64-75 | `404` exactly when no row has the id; a success carries that id |
| AppApi.DuplicateIdentifierRefused | app/models/ai_app.py:10 | a row whose identifier is already taken can never be inserted |
| AppApi.CreateRoute | app/api/ai_app.py:17-42 | a refused commit, a duplicate identifier included, is `400` and leaves the table unchanged |
| AppApi.UpdateRoute | app/api/ai_app.py:77-102 | `404` exactly for an unknown id; otherwise the service's outcome, with the table stored or unchanged as it says |
| AppApi.DeleteRoute | app/api/ai_app.py:104-115 | `404` exactly for an unknown id, with nothing changed; otherwise only that row goes |

## Left out

- Route order: `GET /ai-apps/platform` is matched by `/{app_id}` (app/api/ai_app.py:64) before `/platform` (app/api/ai_app.py:155).
  `AppApi.PlatformApps` models the handler as if it were reachable.
- `app/main.py` mounts only the connector router, so the application and agent routes are unreachable as wired. The routes are modelled as written.
- `get_agents` and `get_mcps` return the table as it is. In the model that is the table field itself, with nothing further to state.
- `json.dumps` escapes every non-ASCII character as `\uXXXX` (`ensure_ascii`), and every control character other than newline, carriage return and tab as well.
  `Json.Encode` writes such characters as they are.
  The round trip and "malformed means outside the range of `Encode`" hold for that encoding.
  The stored text of a non-ASCII value differs from the real one.
- `Json.Decode` accepts exactly the texts `Encode` writes. It refuses the other whitespace, exponents and `\u` escapes that `json.loads` would read.
  All such texts are treated as malformed.
- Floating point: `LLMConfig.temperature` is carried as its decimal literal and never normalised or rounded.
- Pydantic coercions and validation beyond the declared defaults and length bounds are left out.
  For example, `"1"` for an int, or a float `max_tokens` with a zero fraction.
  The payloads are modelled as already validated.
- `max_tokens` is read as an `int` only from a number with no fraction digits.
- Database string comparison is the exact equality of `seq<char>`. Collations and trailing-space rules are left out.
- The size limit of `TEXT` columns is left out.
- Rows are listed in the order they were inserted. The database guarantees no order without `ORDER BY`.
- `Json.Decode` keeps a repeated key as it is. The tool and plugin columns go through `JsonDict.Loaded`, as `json.loads` builds them.
  The application's nested columns are read through `AppSchema.Lookup`, which takes the last member with a key, the value the dict would hold; they are not passed through `Loaded`.
- `skip` and `limit` of `get_ai_apps` are natural numbers. A negative offset only comes from a route the bounds already refuse.
- `generate_system_prompt` cannot raise, so the route's `400` branch (app/api/ai_app.py:132-133) has no model.
- The `detail` text of an `HTTPException` is left out.
- Concurrency is left out: every service call is one atomic step on `Database`.
- The uuid generator and the database clock are parameters (`id`, `now`).
- `commit`, `refresh` and `rollback` are one step: the new table if valid, else the old one.
