/** Getting an API token and choosing a workspace. The environment variable,
    the token prompt's answer, the fetched workspaces and the workspace the
    search prompt returns are parameters. */
module Auth {
  import opened Common
  import opened Text
  import opened Lists
  import opened Records
  import opened ConfigStore

  const TokenRequired := "API token is required"
  const UnnamedWorkspace := "Unnamed workspace"

  /** The token prompt's validator: an empty answer is refused. */
  function TokenValidator(value: string): (v: Verdict)
    ensures v == Accept <==> value != ""
    ensures v != Accept ==> v == Message(TokenRequired)
  {
    if value != "" then Accept else Message(TokenRequired)
  }

  /** A non-empty environment token wins, then a non-empty stored token;
      only otherwise the prompt's answer is used, and it is then stored. */
  method EnsureApiToken(store: ConfigFile, envToken: Option<string>, prompted: string) returns (token: string)
    modifies store
    ensures TruthyString(envToken) ==> token == envToken.value && store.stored == old(store.stored)
    ensures !TruthyString(envToken) && TruthyString(old(store.GetApiToken())) ==>
      token == old(store.GetApiToken()).value && store.stored == old(store.stored)
    ensures !TruthyString(envToken) && !TruthyString(old(store.GetApiToken())) ==>
      && token == prompted
      && store.GetApiToken() == Some(prompted)
      && store.GetLastSelected() == old(store.GetLastSelected())
  {
    if TruthyString(envToken) {
      return envToken.value;
    }
    var stored := store.GetApiToken();
    if TruthyString(stored) {
      return stored.value;
    }
    store.SetApiToken(prompted);
    return prompted;
  }

  /** The workspace's name as listed: `ws.name || 'Unnamed workspace'`. */
  function DisplayName(w: Workspace): (n: string)
    ensures n != ""
    ensures w.name != "" ==> n == w.name
  {
    if w.name != "" then w.name else UnnamedWorkspace
  }

  function AsChoices(ws: seq<Workspace>): seq<Choice<Workspace>> {
    Labelled(ws, DisplayName)
  }


  /** Labelling keeps a subsequence a subsequence. */
  lemma {:induction false} LabelledSubsequence<V>(a: seq<V>, b: seq<V>, nameOf: V -> string)
    requires IsSubsequence(a, b)
    ensures IsSubsequence(Labelled(a, nameOf), Labelled(b, nameOf))
    decreases |b|
  {
    if a != [] {
      assert Labelled(b, nameOf)[1..] == Labelled(b[1..], nameOf);
      if a[0] == b[0] {
        assert Labelled(a, nameOf)[1..] == Labelled(a[1..], nameOf);
        LabelledSubsequence(a[1..], b[1..], nameOf);
      } else {
        LabelledSubsequence(a, b[1..], nameOf);
      }
    }
  }

  /** The workspace search: every workspace for an empty term, otherwise
      those whose own name (not the placeholder) contains the term, ignoring
      case; each listed under its display name. */
  function WorkspaceSource(ws: seq<Workspace>, term: string): (r: seq<Choice<Workspace>>)
    ensures forall k :: 0 <= k < |r| ==> r[k].name == DisplayName(r[k].value) && r[k].value in ws
    ensures term == "" ==> |r| == |ws| && forall k :: 0 <= k < |r| ==> r[k].value == ws[k]
    ensures term != "" ==> forall k :: 0 <= k < |r| ==> ContainsIgnoringCase(r[k].value.name, term)
    ensures term != "" ==> forall w :: w in ws && ContainsIgnoringCase(w.name, term) ==> Choice(DisplayName(w), w) in r
    ensures term != "" ==> IsSubsequence(r, AsChoices(ws))
  {
    if term == "" then AsChoices(ws)
    else
      var found := Filter(ws, (w: Workspace) => ContainsIgnoringCase(w.name, term));
      var r := AsChoices(found);
      LabelledSubsequence(found, ws, DisplayName);
      assert forall w :: w in found ==> Choice(DisplayName(w), w) in r by {
        forall w | w in found
          ensures Choice(DisplayName(w), w) in r
        {
          var k :| 0 <= k < |found| && found[k] == w;
          assert r[k] == Choice(DisplayName(w), w);
        }
      }
      r
  }

  /** A workspace search never matches the placeholder name of an unnamed
      workspace. */
  lemma UnnamedNeverMatches(ws: seq<Workspace>, term: string, w: Workspace)
    requires w.name == "" && term != ""
    ensures Choice(DisplayName(w), w) !in WorkspaceSource(ws, term)
  {
    assert ToLower([]) == [];
    assert !ContainsIgnoringCase(w.name, term);
  }

  /** `s` with the element at `i` taken out and put in front. */
  function MovedToFront<X>(s: seq<X>, i: nat): (r: seq<X>)
    requires i < |s|
    ensures |r| == |s| && r[0] == s[i] && r[1..] == s[..i] + s[i + 1..]
  {
    [s[i]] + (s[..i] + s[i + 1..])
  }

  lemma {:induction false} MovedToFrontPermutes<X>(s: seq<X>, i: nat)
    requires i < |s|
    ensures multiset(MovedToFront(s, i)) == multiset(s)
  {
    assert s == s[..i] + [s[i]] + s[i + 1..];
    calc {
      multiset(s);
      multiset(s[..i]) + multiset{s[i]} + multiset(s[i + 1..]);
      multiset{s[i]} + multiset(s[..i] + s[i + 1..]);
      multiset(MovedToFront(s, i));
    }
  }

  /** The workspaces as listed: the last selected one first when its id is
      non-zero and present, others in their order; unchanged otherwise. */
  function Reordered(ws: seq<Workspace>, lastId: Option<int>): (r: seq<Workspace>)
    ensures !Truthy(lastId) ==> r == ws
    ensures Truthy(lastId) && (forall k :: 0 <= k < |ws| ==> ws[k].id != lastId.value) ==> r == ws
    ensures multiset(r) == multiset(ws)
  {
    if Truthy(lastId) then
      var i := FindIndex(ws, (w: Workspace) => w.id == lastId.value);
      if i == -1 then ws
      else
        MovedToFrontPermutes(ws, i);
        MovedToFront(ws, i)
    else ws
  }

  /** When the last selected workspace is present it comes first, and the
      others keep their order. */
  lemma LastSelectedFirst(ws: seq<Workspace>, lastId: Option<int>)
    requires Truthy(lastId)
    requires exists k :: 0 <= k < |ws| && ws[k].id == lastId.value
    ensures var r := Reordered(ws, lastId);
      var i := FindIndex(ws, (w: Workspace) => w.id == lastId.value);
      && i >= 0 && r[0] == ws[i] && r[0].id == lastId.value
      && r[1..] == ws[..i] + ws[i + 1..]
  {
    var k :| 0 <= k < |ws| && ws[k].id == lastId.value;
    var i := FindIndex(ws, (w: Workspace) => w.id == lastId.value);
    assert i != -1;
  }

  /** `splice(i, 1)` then `unshift`: shifts `a[..i]` up one place and puts
      the old `a[i]` at index 0. */
  method MoveToFront<X>(a: array<X>, i: int)
    requires 0 <= i < a.Length
    modifies a
    ensures a[..] == MovedToFront(old(a[..]), i)
  {
    ghost var s := a[..];
    var x := a[i];
    var k := i;
    while k > 0
      invariant 0 <= k <= i
      invariant forall j :: 0 <= j <= k ==> a[j] == s[j]
      invariant forall j :: k < j <= i ==> a[j] == s[j - 1]
      invariant forall j :: i < j < a.Length ==> a[j] == s[j]
      decreases k
    {
      a[k] := a[k - 1];
      k := k - 1;
    }
    a[0] := x;
    ghost var r := MovedToFront(s, i);
    assert forall j :: 0 <= j < a.Length ==> a[j] == r[j] by {
      forall j | 0 <= j < a.Length
        ensures a[j] == r[j]
      {
        if 0 < j <= i {
          assert r[j] == r[1..][j - 1] == s[j - 1];
        } else if i < j {
          assert r[j] == r[1..][j - 1] == s[j];
        }
      }
    }
  }

  /** What choosing a workspace ends in. */
  datatype WorkspaceOutcome = NoWorkspaces | Selected(workspace: Workspace)

  /** Chooses a workspace: none means exit; a single one is taken without a
      prompt; otherwise the list is reordered for the search prompt and
      `chosen` is the entry picked. The result's id is recorded as last
      selected. */
  method SelectWorkspace(store: ConfigFile, workspaces: array<Workspace>, chosen: Workspace) returns (outcome: WorkspaceOutcome)
    modifies store, workspaces
    ensures workspaces.Length == 0 ==> outcome == NoWorkspaces && store.stored == old(store.stored)
    ensures workspaces.Length == 1 ==> outcome == Selected(old(workspaces[0])) && workspaces[..] == old(workspaces[..])
    ensures workspaces.Length > 1 ==>
      && outcome == Selected(chosen)
      && workspaces[..] == Reordered(old(workspaces[..]), old(store.GetLastSelected().workspaceId))
    ensures outcome.Selected? ==>
      store.stored == Some(MergeLastSelected(ReadConfig(old(store.stored)), LastSelected(Some(outcome.workspace.id), None, None)))
  {
    var lastSelected := store.GetLastSelected();
    if workspaces.Length == 0 {
      return NoWorkspaces;
    }
    if workspaces.Length == 1 {
      store.SetLastSelected(LastSelected(Some(workspaces[0].id), None, None));
      return Selected(workspaces[0]);
    }
    if Truthy(lastSelected.workspaceId) {
      var lastIndex := FindIndex(workspaces[..], (w: Workspace) => w.id == lastSelected.workspaceId.value);
      if lastIndex != -1 {
        MoveToFront(workspaces, lastIndex);
      }
    }
    store.SetLastSelected(LastSelected(Some(chosen.id), None, None));
    return Selected(chosen);
  }
}
