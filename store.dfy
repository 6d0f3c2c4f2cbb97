/**
  The database: the three tables, each a sequence of rows in scan order.
  Every service call that changes a table ends in a commit, which succeeds only
  when the new table meets all of its constraints; otherwise the session rolls
  back and the table is as before.
*/
module Store {
  import AppModel
  import AgentModel
  import McpModel

  class Database {
    var apps: seq<AppModel.AppRow>
    var agents: seq<AgentModel.AgentRow>
    var mcps: seq<McpModel.McpRow>

    /** Every committed state meets the constraints of all three tables. */
    ghost predicate Valid()
      reads this
    {
      AppModel.AppsValid(apps) && AgentModel.AgentsValid(agents) && McpModel.McpsValid(mcps)
    }

    constructor ()
      ensures Valid() && apps == [] && agents == [] && mcps == []
    {
      apps := [];
      agents := [];
      mcps := [];
    }
  }
}
