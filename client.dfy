/** What the API client does with the lists the server returns. Every fetch
    becomes a parameter holding the fetched list; a failed request is an
    `Err` carrying the error's message. */
module TogglClient {
  import opened Common
  import opened Text
  import opened Lists
  import opened Records

  /** The projects of one client, in the order fetched. */
  function ProjectsByClient(projects: seq<Project>, clientId: int): (r: seq<Project>)
    ensures forall p :: p in r <==> p in projects && p.clientId == Some(clientId)
    ensures IsSubsequence(r, projects)
    ensures forall p :: multiset(r)[p] == if p.clientId == Some(clientId) then multiset(projects)[p] else 0
  {
    var ofClient := (p: Project) => p.clientId == Some(clientId);
    FilterCounts(projects, ofClient);
    Filter(projects, ofClient)
  }

  function ProjectNotFound(projectId: int): string {
    "Project with ID " + IntToString(projectId) + " not found"
  }

  function ClientNotFound(clientId: int): string {
    "Client with ID " + IntToString(clientId) + " not found"
  }

  /** A project and its client: an error when no project has the id; no
      client when the project's client id is absent or zero, or when no
      client has it; otherwise the first project and client that match. */
  function ProjectDetails(projects: seq<Project>, clients: seq<Client>, projectId: int): (r: Result<(Project, Option<Client>)>)
    ensures r.Err? <==> forall k :: 0 <= k < |projects| ==> projects[k].id != projectId
    ensures r.Err? ==> r.message == ProjectNotFound(projectId)
    ensures r.Ok? ==> r.value.0 == projects[FindIndex(projects, (p: Project) => p.id == projectId)]
    ensures r.Ok? && !Truthy(r.value.0.clientId) ==> r.value.1.None?
    ensures r.Ok? && Truthy(r.value.0.clientId) ==>
      r.value.1 == Find(clients, (c: Client) => c.id == r.value.0.clientId.value)
  {
    var project := Find(projects, (p: Project) => p.id == projectId);
    if project.None? then Err(ProjectNotFound(projectId))
    else if Truthy(project.value.clientId) then
      var cid := project.value.clientId.value;
      Ok((project.value, Find(clients, (c: Client) => c.id == cid)))
    else Ok((project.value, None))
  }

  /** The first client with the id, or an error when there is none. */
  function ClientDetails(clients: seq<Client>, clientId: int): (r: Result<Client>)
    ensures r.Err? <==> forall k :: 0 <= k < |clients| ==> clients[k].id != clientId
    ensures r.Err? ==> r.message == ClientNotFound(clientId)
    ensures r.Ok? ==> r.value.id == clientId && r.value in clients
    ensures r.Ok? ==> forall k :: 0 <= k < FindIndex(clients, (c: Client) => c.id == clientId) ==> clients[k].id != clientId
    ensures r.Ok? ==> r.value == clients[FindIndex(clients, (c: Client) => c.id == clientId)]
  {
    var client := Find(clients, (c: Client) => c.id == clientId);
    if client.None? then Err(ClientNotFound(clientId)) else Ok(client.value)
  }

  /** The running entry: a failed request whose message mentions 404 means
      there is none; every other failure is passed on. */
  function CurrentTimeEntry(response: Result<Option<TimeEntry>>): (r: Result<Option<TimeEntry>>)
    ensures response.Ok? ==> r == response
    ensures response.Err? && Contains(response.message, "404") ==> r == Ok(None)
    ensures response.Err? && !Contains(response.message, "404") ==> r == response
  {
    match response
    case Ok(entry) => Ok(entry)
    case Err(message) => if Contains(message, "404") then Ok(None) else Err(message)
  }

  /** The fetched entries, narrowed to one project when a non-zero project
      id is given. */
  function RecentTimeEntries(entries: seq<TimeEntry>, projectId: Option<int>): (r: seq<TimeEntry>)
    ensures !Truthy(projectId) ==> r == entries
    ensures Truthy(projectId) ==> forall e :: e in r <==> e in entries && e.projectId == projectId
    ensures IsSubsequence(r, entries)
  {
    if Truthy(projectId) then Filter(entries, (e: TimeEntry) => e.projectId == projectId)
    else
      SubsequenceOfSelf(entries);
      entries
  }

  lemma {:induction false} SubsequenceOfSelf<X>(s: seq<X>)
    ensures IsSubsequence(s, s)
  {
    if s != [] {
      SubsequenceOfSelf(s[1..]);
    }
  }

  /** The entry's start instant when its `start` parses, as `new Date(start)`
      would read it; `timeOf` stands for that parser. */
  predicate InWindow(e: TimeEntry, workspaceId: int, since: int, now: int, timeOf: string -> Option<int>) {
    e.workspaceId == workspaceId && timeOf(e.start).Some? && since <= timeOf(e.start).value <= now
  }

  /** The start instant used to sort (only entries whose start parses are
      sorted). */
  function StartOf(timeOf: string -> Option<int>, e: TimeEntry): int {
    if timeOf(e.start).Some? then timeOf(e.start).value else 0
  }

  /** The project, and then the client, an entry is shown with: looked up by
      id in maps built from the fetched lists, the last of equal ids winning;
      a project without a client id looks up client 0. */
  function Enrich(e: TimeEntry, projects: seq<Project>, clients: seq<Client>): (r: DetailedEntry)
    ensures r.entry == e
    ensures !Truthy(e.projectId) ==> r.project.None? && r.client.None?
    ensures Truthy(e.projectId) ==> r.project == MapGet(projects, (p: Project) => p.id, e.projectId.value)
    ensures Truthy(e.projectId) ==>
      var key := if r.project.Some? && Truthy(r.project.value.clientId) then r.project.value.clientId.value else 0;
      r.client == MapGet(clients, (c: Client) => c.id, key)
  {
    if Truthy(e.projectId) then
      var project := MapGet(projects, (p: Project) => p.id, e.projectId.value);
      var clientKey := if project.Some? && Truthy(project.value.clientId) then project.value.clientId.value else 0;
      DetailedEntry(e, project, MapGet(clients, (c: Client) => c.id, clientKey))
    else DetailedEntry(e, None, None)
  }

  function EnrichAll(s: seq<TimeEntry>, projects: seq<Project>, clients: seq<Client>): (r: seq<DetailedEntry>)
    ensures |r| == |s|
    ensures forall k :: 0 <= k < |s| ==> r[k] == Enrich(s[k], projects, clients)
  {
    if s == [] then [] else [Enrich(s[0], projects, clients)] + EnrichAll(s[1..], projects, clients)
  }

  /** The entries of the workspace whose start lies in the window. */
  function InWindowOnly(entries: seq<TimeEntry>, workspaceId: int, since: int, now: int,
                        timeOf: string -> Option<int>): (r: seq<TimeEntry>)
    ensures forall e :: e in r <==> e in entries && InWindow(e, workspaceId, since, now, timeOf)
    ensures IsSubsequence(r, entries)
  {
    Filter(entries, (e: TimeEntry) => InWindow(e, workspaceId, since, now, timeOf))
  }

  /** Every entry in the window is kept as often as it occurs. */
  lemma InWindowCounts(entries: seq<TimeEntry>, workspaceId: int, since: int, now: int,
                       timeOf: string -> Option<int>)
    ensures forall e :: multiset(InWindowOnly(entries, workspaceId, since, now, timeOf))[e] ==
                        if InWindow(e, workspaceId, since, now, timeOf) then multiset(entries)[e] else 0
  {
    FilterCounts(entries, (e: TimeEntry) => InWindow(e, workspaceId, since, now, timeOf));
  }

  /** A reordering of `s`, latest start first. */
  function NewestFirst(s: seq<TimeEntry>, timeOf: string -> Option<int>): (r: seq<TimeEntry>)
    ensures multiset(r) == multiset(s)
    ensures forall k :: 0 <= k < |r| ==> r[k] in s
    ensures forall i, j :: 0 <= i < j < |r| ==> StartOf(timeOf, r[i]) >= StartOf(timeOf, r[j])
  {
    var key := (e: TimeEntry) => StartOf(timeOf, e);
    var r := SortByKeyDescending(s, key);
    assert NonIncreasing(r, key);
    assert forall k :: 0 <= k < |r| ==> r[k] in multiset(s);
    r
  }

  /** The entries listed: those in the window, newest first, cut to
      `limit` (10 by default). */
  function Listed(entries: seq<TimeEntry>, workspaceId: int, since: int, now: int,
                  timeOf: string -> Option<int>, limit: Option<int>): (r: seq<TimeEntry>)
    ensures var n := limit.GetOr(10); n >= 0 ==> |r| <= n
    ensures forall k :: 0 <= k < |r| ==> r[k] in entries && InWindow(r[k], workspaceId, since, now, timeOf)
    ensures forall i, j :: 0 <= i < j < |r| ==> StartOf(timeOf, r[i]) >= StartOf(timeOf, r[j])
    ensures r == SliceTo(NewestFirst(InWindowOnly(entries, workspaceId, since, now, timeOf), timeOf), limit.GetOr(10))
  {
    var window := InWindowOnly(entries, workspaceId, since, now, timeOf);
    var sorted := NewestFirst(window, timeOf);
    var kept := SliceTo(sorted, limit.GetOr(10));
    assert forall k :: 0 <= k < |kept| ==> kept[k] == sorted[k];
    kept
  }

  /** The recent entries with their details: the entries of the workspace
      whose start lies between `since` (a month before now) and `now`,
      newest first, at most `limit` of them, each with its project and
      client attached. */
  function RecentWithDetails(entries: seq<TimeEntry>, projects: seq<Project>, clients: seq<Client>,
                             workspaceId: int, since: int, now: int, timeOf: string -> Option<int>,
                             limit: Option<int>): (r: seq<DetailedEntry>)
    ensures var n := limit.GetOr(10); n >= 0 ==> |r| <= n
    ensures forall k :: 0 <= k < |r| ==> r[k] == Enrich(r[k].entry, projects, clients)
    ensures forall k :: 0 <= k < |r| ==> r[k].entry in entries && InWindow(r[k].entry, workspaceId, since, now, timeOf)
    ensures forall i, j :: 0 <= i < j < |r| ==> StartOf(timeOf, r[i].entry) >= StartOf(timeOf, r[j].entry)
    ensures r == EnrichAll(Listed(entries, workspaceId, since, now, timeOf, limit), projects, clients)
  {
    var kept := Listed(entries, workspaceId, since, now, timeOf, limit);
    var r := EnrichAll(kept, projects, clients);
    assert forall k :: 0 <= k < |r| ==> r[k].entry == kept[k];
    r
  }

  /** Under the limit nothing in the window is dropped: the entries listed
      are a reordering of the entries in the window. */
  lemma {:induction false} NothingDroppedUnderLimit(entries: seq<TimeEntry>, workspaceId: int, since: int, now: int,
                                                    timeOf: string -> Option<int>, limit: Option<int>)
    requires limit.GetOr(10) >= |InWindowOnly(entries, workspaceId, since, now, timeOf)|
    ensures multiset(Listed(entries, workspaceId, since, now, timeOf, limit))
      == multiset(InWindowOnly(entries, workspaceId, since, now, timeOf))
  {
    var window := InWindowOnly(entries, workspaceId, since, now, timeOf);
    var sorted := NewestFirst(window, timeOf);
    assert |sorted| == |window| by {
      assert |multiset(sorted)| == |multiset(window)|;
    }
    assert SliceTo(sorted, limit.GetOr(10)) == sorted;
  }
}
