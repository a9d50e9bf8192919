/** The per-user settings: a default workspace and two most-recently-used
    lists of (workspace id, item id) pairs, one for projects and one for
    clients. The settings file is abstracted to the value it held at start. */
module SettingsStore {
  import opened Common
  import opened Lists

  /** How many recent items a list keeps. */
  const MaxRecent := 10

  datatype Settings = Settings(
    defaultWorkspaceId: Option<int>,
    recentProjects: seq<(int, int)>,
    recentClients: seq<(int, int)>)

  /** The settings written when there is no usable settings file. */
  function DefaultSettings(): (r: Settings)
    ensures r.defaultWorkspaceId.None? && r.recentProjects == [] && r.recentClients == []
  {
    Settings(None, [], [])
  }

  /** The pairs of `l` whose item id is not `id`, in their order. */
  function WithoutId(l: seq<(int, int)>, id: int): (r: seq<(int, int)>)
    ensures forall k :: 0 <= k < |r| ==> r[k].1 != id
    ensures forall x :: x in r <==> x in l && x.1 != id
    ensures IsSubsequence(r, l)
    ensures |r| <= |l|
  {
    if l == [] then []
    else if l[0].1 != id then
      var r := [l[0]] + WithoutId(l[1..], id);
      assert r[1..] == WithoutId(l[1..], id);
      r
    else WithoutId(l[1..], id)
  }

  /** Every other pair is kept as often as it occurs. */
  lemma {:induction false} WithoutIdCounts(l: seq<(int, int)>, id: int)
    ensures forall x :: multiset(WithoutId(l, id))[x] == if x.1 != id then multiset(l)[x] else 0
  {
    if l != [] {
      assert l == [l[0]] + l[1..];
      WithoutIdCounts(l[1..], id);
    }
  }

  /** Removing an id that does not occur changes nothing. */
  lemma {:induction false} WithoutAbsentId(l: seq<(int, int)>, id: int)
    requires forall k :: 0 <= k < |l| ==> l[k].1 != id
    ensures WithoutId(l, id) == l
  {
    if l != [] {
      WithoutAbsentId(l[1..], id);
      assert l == [l[0]] + l[1..];
    }
  }

  /** A list after recording that item `id` of workspace `w` was just used:
      any earlier pair with that item id is removed, the new pair goes in
      front, and the list is cut to `MaxRecent`. */
  function AddRecent(l: seq<(int, int)>, w: int, id: int): (r: seq<(int, int)>)
    ensures |r| >= 1 && r[0] == (w, id)
    ensures |r| <= MaxRecent
    ensures forall k :: 1 <= k < |r| ==> r[k].1 != id
    ensures IsSubsequence(r[1..], l)
    ensures |WithoutId(l, id)| < MaxRecent ==> forall x :: x in l && x.1 != id ==> x in r
    ensures |r| == if 1 + |WithoutId(l, id)| <= MaxRecent then 1 + |WithoutId(l, id)| else MaxRecent
    ensures r[1..] == WithoutId(l, id)[..|r| - 1]
  {
    var recent := [(w, id)] + WithoutId(l, id);
    var r := recent[..if |recent| < MaxRecent then |recent| else MaxRecent];
    assert r[1..] == WithoutId(l, id)[..|r| - 1];
    SubsequencePrefix(WithoutId(l, id), l, |r| - 1);
    r
  }

  /** Recording the same use twice gives the same list as recording it once. */
  lemma {:induction false} AddRecentIdempotent(l: seq<(int, int)>, w: int, id: int)
    ensures AddRecent(AddRecent(l, w, id), w, id) == AddRecent(l, w, id)
  {
    var r := AddRecent(l, w, id);
    WithoutAbsentId(r[1..], id);
    assert r == [r[0]] + r[1..];
    assert WithoutId(r, id) == r[1..];
  }

  /** The item ids of the pairs of workspace `w`, in list order. */
  function RecentIds(l: seq<(int, int)>, w: int): (r: seq<int>)
    ensures forall x :: x in r <==> (w, x) in l
    ensures |r| <= |l|
    ensures var f := Filter(l, (p: (int, int)) => p.0 == w);
      |r| == |f| && forall k :: 0 <= k < |r| ==> r[k] == f[k].1
  {
    if l == [] then []
    else if l[0].0 == w then
      var r := [l[0].1] + RecentIds(l[1..], w);
      assert r[1..] == RecentIds(l[1..], w);
      r
    else RecentIds(l[1..], w)
  }

  /** After a use in workspace `w` the item is first among that workspace's
      recent ids, and no longer listed under any other workspace. */
  lemma {:induction false} RecentAfterAdd(l: seq<(int, int)>, w: int, id: int, other: int)
    requires other != w
    ensures var r := AddRecent(l, w, id);
      RecentIds(r, w) != [] && RecentIds(r, w)[0] == id && id !in RecentIds(r, other)
  {
    var r := AddRecent(l, w, id);
    assert r == [r[0]] + r[1..];
    assert RecentIds(r, w) == [id] + RecentIds(r[1..], w);
  }

  /** The settings manager over the settings it loaded. */
  class SettingsManager {
    var settings: Settings

    /** `loaded` is the parsed settings file, or `None` when the file is
        missing, empty or not valid JSON; then the defaults are used. */
    constructor (loaded: Option<Settings>)
      ensures loaded.Some? ==> settings == loaded.value
      ensures loaded.None? ==> settings == DefaultSettings()
    {
      settings := if loaded.Some? then loaded.value else DefaultSettings();
    }

    function GetDefaultWorkspace(): Option<int>
      reads this
    {
      settings.defaultWorkspaceId
    }

    /** Sets the default workspace; the recent lists are untouched. */
    method SetDefaultWorkspace(workspaceId: int)
      modifies this
      ensures GetDefaultWorkspace() == Some(workspaceId)
      ensures settings.recentProjects == old(settings.recentProjects)
      ensures settings.recentClients == old(settings.recentClients)
    {
      settings := settings.(defaultWorkspaceId := Some(workspaceId));
    }

    method AddRecentProject(workspaceId: int, projectId: int)
      modifies this
      ensures settings == old(settings).(recentProjects := AddRecent(old(settings.recentProjects), workspaceId, projectId))
    {
      var recent := WithoutId(settings.recentProjects, projectId);
      recent := [(workspaceId, projectId)] + recent;
      settings := settings.(recentProjects := recent[..if |recent| < MaxRecent then |recent| else MaxRecent]);
    }

    method AddRecentClient(workspaceId: int, clientId: int)
      modifies this
      ensures settings == old(settings).(recentClients := AddRecent(old(settings.recentClients), workspaceId, clientId))
    {
      var recent := WithoutId(settings.recentClients, clientId);
      recent := [(workspaceId, clientId)] + recent;
      settings := settings.(recentClients := recent[..if |recent| < MaxRecent then |recent| else MaxRecent]);
    }

    function GetRecentProjects(workspaceId: int): (r: seq<int>)
      reads this
      ensures forall x :: x in r <==> (workspaceId, x) in settings.recentProjects
      ensures r == RecentIds(settings.recentProjects, workspaceId)
    {
      RecentIds(settings.recentProjects, workspaceId)
    }

    function GetRecentClients(workspaceId: int): (r: seq<int>)
      reads this
      ensures forall x :: x in r <==> (workspaceId, x) in settings.recentClients
      ensures r == RecentIds(settings.recentClients, workspaceId)
    {
      RecentIds(settings.recentClients, workspaceId)
    }
  }
}
