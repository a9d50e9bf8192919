/** The records the program exchanges with the time-tracking API, reduced to
    the fields the modelled code reads. */
module Records {
  import opened Common

  /** A workspace; an empty name stands for a missing one. */
  datatype Workspace = Workspace(id: int, name: string)

  datatype Client = Client(id: int, name: string)

  /** A project; `clientId` is `client_id`, absent or zero for none. */
  datatype Project = Project(id: int, name: string, clientId: Option<int>)

  /** A time entry; `duration` is in seconds and negative while running. */
  datatype TimeEntry = TimeEntry(
    id: int,
    description: string,
    workspaceId: int,
    projectId: Option<int>,
    duration: int,
    start: string,
    stop: Option<string>)

  /** A time entry with its project and that project's client attached. */
  datatype DetailedEntry = DetailedEntry(entry: TimeEntry, project: Option<Project>, client: Option<Client>)

  /** One line of a search prompt: the text shown and the value chosen. */
  datatype Choice<V> = Choice(name: string, value: V)

  /** `vs.map(v => ({ name: nameOf(v), value: v }))`: one choice per value, in
      order, shown under its name. */
  function Labelled<V>(vs: seq<V>, nameOf: V -> string): (r: seq<Choice<V>>)
    ensures |r| == |vs|
    ensures forall k :: 0 <= k < |r| ==> r[k] == Choice(nameOf(vs[k]), vs[k])
  {
    if vs == [] then [] else [Choice(nameOf(vs[0]), vs[0])] + Labelled(vs[1..], nameOf)
  }
}
