/**
  The connector service: create, update and delete connectors. Deleting a
  connector leaves the agents that name it as they are.
*/
module McpService {
  import opened Wrappers
  import opened Json
  import opened Tables
  import opened McpModel
  import opened McpSchema
  import opened Store

  /* ----------------------------------------------------------------- create */

  /** The row `create_mcp` inserts: the payload verbatim, the plugin list as its JSON text, `0.7` for a `None` temperature. */
  function CreatedMcp(d: McpCreate): (r: McpRow)
    ensures r.id == d.id && r.name == Some(d.name) && r.provider == Some(d.provider) && r.model == Some(d.model)
    ensures r.apiKey == Some(d.apiKey) && r.toolPlugins == Some(Encode(PluginsJson(d.toolPlugins)))
  {
    McpRow(d.id, Some(d.name), Some(d.provider), Some(d.model), InsertDefault(d.temperature, "0.7"),
           Some(d.apiKey), Some(Encode(PluginsJson(d.toolPlugins))))
  }

  method CreateMcp(db: Database, d: McpCreate) returns (r: Result<McpRow, Failure>)
    requires db.Valid()
    modifies db
    ensures db.Valid() && db.apps == old(db.apps) && db.agents == old(db.agents)
    ensures var row := CreatedMcp(d);
            if McpsValid(old(db.mcps) + [row]) then db.mcps == old(db.mcps) + [row] && r == Ok(row)
            else db.mcps == old(db.mcps) && r == Err(DatabaseError)
  {
    var row := CreatedMcp(d);
    if McpsValid(db.mcps + [row]) {
      db.mcps := db.mcps + [row];
      r := Ok(row);
    } else {
      r := Err(DatabaseError);
    }
  }

  /** On a valid table an insert commits exactly when the row fits its columns and its id is new. */
  lemma InsertCommitsIff(mcps: seq<McpRow>, row: McpRow)
    requires McpsValid(mcps)
    ensures McpsValid(mcps + [row]) <==> RowFits(row) && KeyFree(mcps, McpId, row.id)
  {
    var t := mcps + [row];
    if McpsValid(t) {
      assert t[|mcps|] == row;
      forall i | 0 <= i < |mcps| ensures mcps[i].id != row.id {
        assert t[i] == mcps[i];
      }
    }
  }

  /** A created connector reads back with the fields and the plugin list it was given. */
  lemma CreatedMcpReadsBack(d: McpCreate)
    requires d.toolPlugins.Some?
    ensures McpOutOf(CreatedMcp(d))
         == Some(McpOut(d.id, d.name, d.provider, d.model, InsertDefault(d.temperature, "0.7").value, d.toolPlugins.value))
  {
    StoredPluginsRoundTrip(d.toolPlugins.value);
  }

  /** Only the required fields: temperature `0.7` and the empty plugin list stored as `[]`. */
  lemma NewMcpDefaults(id: string, name: string, provider: string, model: string, apiKey: string)
    ensures CreatedMcp(NewMcp(id, name, provider, model, apiKey)).toolPlugins == Some("[]")
    ensures McpOutOf(CreatedMcp(NewMcp(id, name, provider, model, apiKey)))
         == Some(McpOut(id, name, provider, model, "0.7", []))
  {
    assert PluginsJson(Some([])) == JArray([]);
    assert Encode(JArray([])) == "[" + EncodeItems([]) + "]" == "[]";
    CreatedMcpReadsBack(NewMcp(id, name, provider, model, apiKey));
  }

  /* ----------------------------------------------------------------- update */

  /** A field value in `data.dict(exclude_unset=True)`: a column value, or the plugin list before dumping. */
  datatype McpValue = Plain(text: Option<string>) | PluginList(plugins: Option<seq<string>>)

  function SentText(o: Option<Option<string>>): Option<McpValue>
  {
    if o.Some? then Some(Plain(o.value)) else None
  }

  /** The value the payload sends for column `c`, or `None` when it leaves the field out. */
  function SentValue(p: McpPatch, c: McpColumn): Option<McpValue>
  {
    match c
    case Name => SentText(p.name)
    case Model => SentText(p.model)
    case Temperature => SentText(p.temperature)
    case ApiKey => SentText(p.apiKey)
    case ToolPlugins => if p.toolPlugins.Some? then Some(PluginList(p.toolPlugins.value)) else None
  }

  const AllColumns: set<McpColumn> := {Name, Model, Temperature, ApiKey, ToolPlugins}

  /** `data.dict(exclude_unset=True)`: the sent fields only. */
  function UpdateData(p: McpPatch): (data: map<McpColumn, McpValue>)
    ensures forall c :: c in data <==> SentValue(p, c).Some?
    ensures forall c :: c in data ==> data[c] == SentValue(p, c).value
  {
    map c | c in AllColumns && SentValue(p, c).Some? :: SentValue(p, c).value
  }

  /** The plugin list arrives as a list, every other field as text. */
  predicate Shaped(c: McpColumn, v: McpValue) { (c == ToolPlugins) == v.PluginList? }

  predicate AllShaped(data: map<McpColumn, McpValue>) { forall c :: c in data ==> Shaped(c, data[c]) }

  lemma UpdateDataShaped(p: McpPatch)
    ensures AllShaped(UpdateData(p))
  {
  }

  /** The value the loop body assigns: the plugin list dumped to JSON text, any other field verbatim. */
  function Stored(c: McpColumn, v: McpValue): Option<string>
    requires Shaped(c, v)
  {
    if c == ToolPlugins then Some(Encode(PluginsJson(v.plugins))) else v.text
  }

  function StoredAll(data: map<McpColumn, McpValue>): (w: map<McpColumn, Option<string>>)
    requires AllShaped(data)
    ensures w.Keys == data.Keys
  {
    map c | c in data :: Stored(c, data[c])
  }

  /** The cells an update writes. */
  function Writes(p: McpPatch): (w: map<McpColumn, Option<string>>)
    ensures forall c :: c in w <==> SentValue(p, c).Some?
  {
    UpdateDataShaped(p);
    StoredAll(UpdateData(p))
  }

  /** The `setattr` loop over the sent fields, on the row value. */
  method SetFields(before: McpRow, data: map<McpColumn, McpValue>) returns (row: McpRow)
    requires AllShaped(data)
    ensures row == Assigned(before, StoredAll(data))
  {
    row := before;
    var pending := data.Keys;
    while pending != {}
      invariant pending <= data.Keys
      invariant SameFixed(row, before)
      invariant forall c :: Get(row, c) == if c in data && c !in pending then Stored(c, data[c]) else Get(before, c)
      decreases |pending|
    {
      var c :| c in pending;
      var value := data[c];
      if c == ToolPlugins {
        row := Set(row, c, Some(Encode(PluginsJson(value.plugins))));
      } else {
        row := Set(row, c, value.text);
      }
      pending := pending - {c};
    }
    AssignedIsUnique(before, StoredAll(data), row);
  }

  /** `update_mcp`: `Missing` for an unknown id; otherwise the `setattr` loop, then the commit. */
  method UpdateMcp(db: Database, id: string, p: McpPatch) returns (r: Outcome<McpRow>)
    requires db.Valid()
    modifies db
    ensures db.Valid() && db.apps == old(db.apps) && db.agents == old(db.agents)
    ensures r.Missing? <==> KeyFree(old(db.mcps), McpId, id)
    ensures match Find(old(db.mcps), McpId, id)
            case None => db.mcps == old(db.mcps)
            case Some(i) =>
              var row := Assigned(old(db.mcps)[i], Writes(p));
              if McpsValid(old(db.mcps)[i := row]) then db.mcps == old(db.mcps)[i := row] && r == Done(row)
              else db.mcps == old(db.mcps) && r == Raised(DatabaseError)
  {
    var found := Find(db.mcps, McpId, id);
    if found.None? {
      return Missing;
    }
    var i := found.value;
    UpdateDataShaped(p);
    var row := SetFields(db.mcps[i], UpdateData(p));
    if McpsValid(db.mcps[i := row]) {
      db.mcps := db.mcps[i := row];
      r := Done(row);
    } else {
      r := Raised(DatabaseError);
    }
  }

  /**
    An update never changes `id` or `provider`, leaves every unsent column as
    it was, writes a sent field verbatim, and stores a sent plugin list so
    that it reads back unchanged.
  */
  lemma UpdatedMcpColumns(r: McpRow, p: McpPatch, c: McpColumn)
    ensures SameFixed(Assigned(r, Writes(p)), r)
    ensures SentValue(p, c).None? ==> Get(Assigned(r, Writes(p)), c) == Get(r, c)
    ensures c != ToolPlugins && SentValue(p, c).Some? ==> Get(Assigned(r, Writes(p)), c) == SentValue(p, c).value.text
    ensures p.toolPlugins.Some? && p.toolPlugins.value.Some? ==>
              StoredPlugins(Assigned(r, Writes(p)).toolPlugins) == p.toolPlugins.value
  {
    AssignedColumns(r, Writes(p));
    if p.toolPlugins.Some? && p.toolPlugins.value.Some? {
      StoredPluginsRoundTrip(p.toolPlugins.value.value);
    }
  }

  /* ----------------------------------------------------------------- delete */

  /** `delete_mcp`: `false` (the source's `None`) for an unknown id, `true` once the row is gone. */
  method DeleteMcp(db: Database, id: string) returns (deleted: bool)
    requires db.Valid()
    modifies db
    ensures db.Valid() && db.apps == old(db.apps) && db.agents == old(db.agents)
    ensures deleted <==> !KeyFree(old(db.mcps), McpId, id)
    ensures !deleted ==> db.mcps == old(db.mcps)
    ensures deleted ==> KeyFree(db.mcps, McpId, id)
    ensures forall m :: m in db.mcps <==> m in old(db.mcps) && m.id != id
  {
    var found := Find(db.mcps, McpId, id);
    if found.None? {
      return false;
    }
    WithoutRemovesOnlyThatRow(db.mcps, McpId, found.value);
    db.mcps := Without(db.mcps, found.value);
    deleted := true;
  }
}
