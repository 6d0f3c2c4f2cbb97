/**
  The agent service: create, look up, update, delete and filter agents. No
  call checks that `mcp_id` names a stored connector.
*/
module AgentService {
  import opened Wrappers
  import opened Json
  import opened Tables
  import opened AgentModel
  import opened AgentSchema
  import opened Store

  /* ----------------------------------------------------------------- create */

  /**
    The row `create_agent` inserts: the payload verbatim, the tool list as its
    JSON text (`null` for `None`), and the column defaults for a `None`
    temperature, token limit or active flag.
  */
  function CreatedAgent(d: AgentCreate): (r: AgentRow)
    ensures r.id == d.id && r.name == Some(d.name) && r.systemPrompt == Some(d.systemPrompt) && r.mcpId == Some(d.mcpId)
    ensures r.description == d.description && r.tools == Some(Encode(ToolsJson(d.tools)))
  {
    AgentRow(d.id, Some(d.name), d.description, Some(d.systemPrompt), InsertDefault(d.temperature, "0.7"),
             InsertDefault(d.maxTokens, "4000"), InsertDefault(d.isActive, true), Some(d.mcpId),
             Some(Encode(ToolsJson(d.tools))))
  }

  method CreateAgent(db: Database, d: AgentCreate) returns (r: Result<AgentRow, Failure>)
    requires db.Valid()
    modifies db
    ensures db.Valid() && db.apps == old(db.apps) && db.mcps == old(db.mcps)
    ensures var row := CreatedAgent(d);
            if AgentsValid(old(db.agents) + [row]) then db.agents == old(db.agents) + [row] && r == Ok(row)
            else db.agents == old(db.agents) && r == Err(DatabaseError)
  {
    var row := CreatedAgent(d);
    if AgentsValid(db.agents + [row]) {
      db.agents := db.agents + [row];
      r := Ok(row);
    } else {
      r := Err(DatabaseError);
    }
  }

  /** On a valid table an insert commits exactly when the row fits its columns and its id is new. */
  lemma InsertCommitsIff(agents: seq<AgentRow>, row: AgentRow)
    requires AgentsValid(agents)
    ensures AgentsValid(agents + [row]) <==> RowFits(row) && KeyFree(agents, AgentId, row.id)
  {
    var t := agents + [row];
    if AgentsValid(t) {
      assert t[|agents|] == row;
      forall i | 0 <= i < |agents| ensures agents[i].id != row.id {
        assert t[i] == agents[i];
      }
    }
  }

  /** A created agent reads back with the fields it was given and the tool list it was given. */
  lemma CreatedAgentReadsBack(d: AgentCreate)
    requires d.description.Some? && d.tools.Some?
    ensures AgentOutOf(CreatedAgent(d))
         == Some(AgentOut(d.id, d.name, d.description.value, d.systemPrompt,
                          InsertDefault(d.temperature, "0.7").value, InsertDefault(d.maxTokens, "4000").value,
                          InsertDefault(d.isActive, true).value, d.mcpId, d.tools.value))
  {
    StoredToolsRoundTrip(d.tools.value);
  }

  /** Only the required fields: the defaults, and the empty tool list stored as `[]`. */
  lemma NewAgentDefaults(id: string, name: string, systemPrompt: string, mcpId: string)
    ensures CreatedAgent(NewAgent(id, name, systemPrompt, mcpId)).tools == Some("[]")
    ensures AgentOutOf(CreatedAgent(NewAgent(id, name, systemPrompt, mcpId)))
         == Some(AgentOut(id, name, "", systemPrompt, "0.7", "4000", true, mcpId, []))
  {
    assert ToolsJson(Some([])) == JArray([]);
    assert Encode(JArray([])) == "[" + EncodeItems([]) + "]" == "[]";
    CreatedAgentReadsBack(NewAgent(id, name, systemPrompt, mcpId));
  }

  /** A tool list sent as null is stored as the text `null`, which the output record refuses. */
  lemma NullToolsRefused(d: AgentCreate)
    requires d.tools.None?
    ensures CreatedAgent(d).tools == Some("null")
    ensures AgentOutOf(CreatedAgent(d)).None?
  {
    ListField.NullTextPassesThrough();
  }

  /* ------------------------------------------------------------------ reads */

  /** `get_agent_by_id`: the row with that id, or `None`. */
  function GetAgentById(agents: seq<AgentRow>, id: string): (r: Option<AgentRow>)
    ensures r.Some? ==> r.value in agents && r.value.id == id
    ensures r.None? <==> KeyFree(agents, AgentId, id)
  {
    match Find(agents, AgentId, id)
    case None => None
    case Some(i) => Some(agents[i])
  }

  /** `get_agents_by_mcp`: the agents whose `mcp_id` is the argument, in scan order. */
  function GetAgentsByMcp(agents: seq<AgentRow>, mcpId: string): (r: seq<AgentRow>)
    ensures forall a :: a in r <==> a in agents && a.mcpId == Some(mcpId)
  {
    Select(agents, (a: AgentRow) => a.mcpId == Some(mcpId))
  }

  /* ----------------------------------------------------------------- update */

  /** A field value in `data.dict(exclude_unset=True)`: a column value, or the tool list before dumping. */
  datatype AgentValue = Plain(cell: Cell) | ToolList(tools: Option<seq<Tool>>)

  function SentText(o: Option<Option<string>>): Option<AgentValue>
  {
    if o.Some? then Some(Plain(TextCell(o.value))) else None
  }

  /** The value the payload sends for column `c`, or `None` when it leaves the field out. */
  function SentValue(p: AgentPatch, c: AgentColumn): Option<AgentValue>
  {
    match c
    case Name => SentText(p.name)
    case Description => SentText(p.description)
    case SystemPrompt => SentText(p.systemPrompt)
    case Temperature => SentText(p.temperature)
    case MaxTokens => SentText(p.maxTokens)
    case IsActive => if p.isActive.Some? then Some(Plain(FlagCell(p.isActive.value))) else None
    case McpId => SentText(p.mcpId)
    case Tools => if p.tools.Some? then Some(ToolList(p.tools.value)) else None
  }

  const AllColumns: set<AgentColumn> := {Name, Description, SystemPrompt, Temperature, MaxTokens, IsActive, McpId, Tools}

  /** `data.dict(exclude_unset=True)`: the sent fields only. */
  function UpdateData(p: AgentPatch): (data: map<AgentColumn, AgentValue>)
    ensures forall c :: c in data <==> SentValue(p, c).Some?
    ensures forall c :: c in data ==> data[c] == SentValue(p, c).value
  {
    map c | c in AllColumns && SentValue(p, c).Some? :: SentValue(p, c).value
  }

  /** The value shape the payload gives each column. */
  predicate Shaped(c: AgentColumn, v: AgentValue)
  {
    if c == Tools then v.ToolList? else v.Plain? && Fits(c, v.cell)
  }

  predicate AllShaped(data: map<AgentColumn, AgentValue>) { forall c :: c in data ==> Shaped(c, data[c]) }

  lemma UpdateDataShaped(p: AgentPatch)
    ensures AllShaped(UpdateData(p))
  {
  }

  /** The value the loop body assigns: the tool list dumped to JSON text, any other field verbatim. */
  function Stored(c: AgentColumn, v: AgentValue): (cell: Cell)
    requires Shaped(c, v)
    ensures Fits(c, cell)
  {
    if c == Tools then TextCell(Some(Encode(ToolsJson(v.tools)))) else v.cell
  }

  /** The columns a loop over `data` writes and what it writes to each. */
  function StoredAll(data: map<AgentColumn, AgentValue>): (w: map<AgentColumn, Cell>)
    requires AllShaped(data)
    ensures AllFit(w) && w.Keys == data.Keys
  {
    map c | c in data :: Stored(c, data[c])
  }

  /** The cells an update writes. */
  function Writes(p: AgentPatch): (w: map<AgentColumn, Cell>)
    ensures AllFit(w)
    ensures forall c :: c in w <==> SentValue(p, c).Some?
  {
    UpdateDataShaped(p);
    StoredAll(UpdateData(p))
  }

  /** The `setattr` loop over the sent fields, on the row value. */
  method SetFields(before: AgentRow, data: map<AgentColumn, AgentValue>) returns (row: AgentRow)
    requires AllShaped(data)
    ensures row == Assigned(before, StoredAll(data))
  {
    row := before;
    var pending := data.Keys;
    while pending != {}
      invariant pending <= data.Keys
      invariant row.id == before.id
      invariant forall c :: Get(row, c) == if c in data && c !in pending then Stored(c, data[c]) else Get(before, c)
      decreases |pending|
    {
      var c :| c in pending;
      var value := data[c];
      if c == Tools {
        row := Set(row, c, TextCell(Some(Encode(ToolsJson(value.tools)))));
      } else {
        row := Set(row, c, value.cell);
      }
      pending := pending - {c};
    }
    AssignedIsUnique(before, StoredAll(data), row);
  }

  /**
    `update_agent`: `Missing` for an unknown id; otherwise the `setattr` loop
    over the sent fields, then the commit.
  */
  method UpdateAgent(db: Database, id: string, p: AgentPatch) returns (r: Outcome<AgentRow>)
    requires db.Valid()
    modifies db
    ensures db.Valid() && db.apps == old(db.apps) && db.mcps == old(db.mcps)
    ensures r.Missing? <==> KeyFree(old(db.agents), AgentId, id)
    ensures match Find(old(db.agents), AgentId, id)
            case None => db.agents == old(db.agents)
            case Some(i) =>
              var row := Assigned(old(db.agents)[i], Writes(p));
              if AgentsValid(old(db.agents)[i := row]) then db.agents == old(db.agents)[i := row] && r == Done(row)
              else db.agents == old(db.agents) && r == Raised(DatabaseError)
  {
    var found := Find(db.agents, AgentId, id);
    if found.None? {
      return Missing;
    }
    var i := found.value;
    UpdateDataShaped(p);
    var row := SetFields(db.agents[i], UpdateData(p));
    if AgentsValid(db.agents[i := row]) {
      db.agents := db.agents[i := row];
      r := Done(row);
    } else {
      r := Raised(DatabaseError);
    }
  }

  /**
    An update leaves every unsent column as it was, writes a sent field
    verbatim, and stores a sent tool list so that it reads back unchanged.
  */
  lemma UpdatedAgentColumns(r: AgentRow, p: AgentPatch, c: AgentColumn)
    ensures Assigned(r, Writes(p)).id == r.id
    ensures SentValue(p, c).None? ==> Get(Assigned(r, Writes(p)), c) == Get(r, c)
    ensures c != Tools && SentValue(p, c).Some? ==> Get(Assigned(r, Writes(p)), c) == SentValue(p, c).value.cell
    ensures p.tools.Some? && p.tools.value.Some? ==> StoredTools(Assigned(r, Writes(p)).tools) == p.tools.value
  {
    AssignedColumn(r, Writes(p), c);
    if p.tools.Some? && p.tools.value.Some? {
      AssignedColumn(r, Writes(p), Tools);
      StoredToolsRoundTrip(p.tools.value.value);
    }
  }

  /* ----------------------------------------------------------------- delete */

  /** `delete_agent`: `false` (the source's `None`) for an unknown id, `true` once the row is gone. */
  method DeleteAgent(db: Database, id: string) returns (deleted: bool)
    requires db.Valid()
    modifies db
    ensures db.Valid() && db.apps == old(db.apps) && db.mcps == old(db.mcps)
    ensures deleted <==> !KeyFree(old(db.agents), AgentId, id)
    ensures !deleted ==> db.agents == old(db.agents)
    ensures deleted ==> KeyFree(db.agents, AgentId, id)
    ensures forall a :: a in db.agents <==> a in old(db.agents) && a.id != id
  {
    var found := Find(db.agents, AgentId, id);
    if found.None? {
      return false;
    }
    WithoutRemovesOnlyThatRow(db.agents, AgentId, found.value);
    db.agents := Without(db.agents, found.value);
    deleted := true;
  }
}
