/** The stored configuration: the API token and the last selected workspace,
    client and project. The config file is abstracted to the record it holds,
    or `None` when it is missing or not valid JSON. */
module ConfigStore {
  import opened Common

  datatype Config = Config(
    apiToken: Option<string>,
    lastWorkspaceId: Option<int>,
    lastClientId: Option<int>,
    lastProjectId: Option<int>)

  /** The empty object `{}`. */
  const EmptyConfig := Config(None, None, None, None)

  /** The last-selected ids, each of them possibly undefined. */
  datatype LastSelected = LastSelected(workspaceId: Option<int>, clientId: Option<int>, projectId: Option<int>)

  /** What reading the store yields: its record, or `{}` when it cannot be
      read or parsed. */
  function ReadConfig(stored: Option<Config>): (c: Config)
    ensures stored.None? ==> c == EmptyConfig
    ensures stored.Some? ==> c == stored.value
  {
    stored.GetOr(EmptyConfig)
  }

  /** The three `last*` fields of a config. */
  function LastOf(c: Config): LastSelected {
    LastSelected(c.lastWorkspaceId, c.lastClientId, c.lastProjectId)
  }

  /** `p` when it is defined, `prev` otherwise. */
  function Overwrite(prev: Option<int>, p: Option<int>): Option<int> {
    if p.Some? then p else prev
  }

  /** The config after `setLastSelected(params)`: each field whose parameter
      is defined takes the parameter, every other field keeps its value. */
  function MergeLastSelected(c: Config, params: LastSelected): (r: Config)
    ensures r.apiToken == c.apiToken
    ensures params.workspaceId.Some? ==> r.lastWorkspaceId == params.workspaceId
    ensures params.workspaceId.None? ==> r.lastWorkspaceId == c.lastWorkspaceId
    ensures params.clientId.Some? ==> r.lastClientId == params.clientId
    ensures params.clientId.None? ==> r.lastClientId == c.lastClientId
    ensures params.projectId.Some? ==> r.lastProjectId == params.projectId
    ensures params.projectId.None? ==> r.lastProjectId == c.lastProjectId
  {
    c.(lastWorkspaceId := Overwrite(c.lastWorkspaceId, params.workspaceId),
       lastClientId := Overwrite(c.lastClientId, params.clientId),
       lastProjectId := Overwrite(c.lastProjectId, params.projectId))
  }

  /** `setLastSelected({})` changes nothing. */
  lemma MergeNothing(c: Config)
    ensures MergeLastSelected(c, LastSelected(None, None, None)) == c
  {
  }

  /** Setting the same ids twice is the same as setting them once. */
  lemma MergeIdempotent(c: Config, params: LastSelected)
    ensures MergeLastSelected(MergeLastSelected(c, params), params) == MergeLastSelected(c, params)
  {
  }

  /** The config file, read afresh by every getter and rewritten by every
      setter. */
  class ConfigFile {
    var stored: Option<Config>

    constructor (stored: Option<Config>)
      ensures this.stored == stored
    {
      this.stored := stored;
    }

    function GetApiToken(): (t: Option<string>)
      reads this
      ensures stored.None? ==> t.None?
      ensures stored.Some? ==> t == stored.value.apiToken
    {
      ReadConfig(stored).apiToken
    }

    /** Stores the token; the last-selected ids are kept. */
    method SetApiToken(token: string)
      modifies this
      ensures stored == Some(ReadConfig(old(stored)).(apiToken := Some(token)))
      ensures GetApiToken() == Some(token)
      ensures GetLastSelected() == old(GetLastSelected())
    {
      var config := ReadConfig(stored);
      config := config.(apiToken := Some(token));
      stored := Some(config);
    }

    function GetLastSelected(): (r: LastSelected)
      reads this
      ensures stored.None? ==> r == LastSelected(None, None, None)
      ensures stored.Some? ==> r == LastSelected(stored.value.lastWorkspaceId, stored.value.lastClientId, stored.value.lastProjectId)
    {
      LastOf(ReadConfig(stored))
    }

    /** Overwrites the ids whose parameter is defined. */
    method SetLastSelected(params: LastSelected)
      modifies this
      ensures stored == Some(MergeLastSelected(ReadConfig(old(stored)), params))
      ensures GetApiToken() == old(GetApiToken())
    {
      var config := ReadConfig(stored);
      if params.workspaceId.Some? {
        config := config.(lastWorkspaceId := params.workspaceId);
      }
      if params.clientId.Some? {
        config := config.(lastClientId := params.clientId);
      }
      if params.projectId.Some? {
        config := config.(lastProjectId := params.projectId);
      }
      stored := Some(config);
    }
  }
}
