/** The list shaping inside the command code: the duration text, grouping
    entries by day, the client and project choice lists and their search,
    the description choices, and what a choice records. Prompts, API calls
    and console output are parameters or left out. */
module Commands {
  import opened Common
  import opened Text
  import opened Lists
  import opened Records
  import opened ConfigStore

  // ---------------------------------------------------------------------
  // Durations

  /** JavaScript's `a % b` for a positive `b`: the sign follows `a`. */
  function JsRem(a: int, b: int): (r: int)
    requires b > 0
    ensures a >= 0 ==> r == a % b
    ensures a < 0 ==> -b < r <= 0
  {
    if a >= 0 then a % b else -((-a) % b)
  }

  /** `formatDuration`: floor(minutes / 60) and minutes % 60, each padded
      to two digits, as `HHhMMm`. (Dafny's `/` by a positive number is
      floor division, as `Math.floor(minutes / 60)` is.) */
  function FormatDuration(minutes: int): string {
    var hours := minutes / 60;
    var mins := JsRem(minutes, 60);
    PadStart(IntToString(hours), 2, '0') + "h" + PadStart(IntToString(mins), 2, '0') + "m"
  }

  /** A non-negative duration reads back: its text is the hour digits, an
      `h`, the minute digits and an `m`; the hours are two digits, or more
      that do not start with a zero; the minutes are two digits below 60; and
      hours * 60 + minutes is the input. */
  lemma {:induction false} FormatDurationReadsBack(minutes: nat) returns (hs: string, ms: string)
    ensures FormatDuration(minutes) == hs + "h" + ms + "m"
    ensures IsDigits(hs) && |hs| >= 2 && (|hs| == 2 || hs[0] != '0')
    ensures IsDigits(ms) && |ms| == 2 && DecimalValue(ms) < 60
    ensures DecimalValue(hs) * 60 + DecimalValue(ms) == minutes
  {
    var hours := minutes / 60;
    var mins := minutes % 60;
    hs := PadStart(NatToString(hours), 2, '0');
    ms := PadStart(NatToString(mins), 2, '0');
    DurationParts(minutes);
    TwoDigits(mins);
    PadStartZeros(NatToString(hours), 2);
    PadStartZeros(NatToString(mins), 2);
    HoursAndMinutes(minutes);
  }

  lemma DurationParts(minutes: nat)
    ensures FormatDuration(minutes)
      == PadStart(NatToString(minutes / 60), 2, '0') + "h" + PadStart(NatToString(minutes % 60), 2, '0') + "m"
  {
    assert JsRem(minutes, 60) == minutes % 60;
  }

  lemma HoursAndMinutes(minutes: nat)
    ensures (minutes / 60) * 60 + minutes % 60 == minutes
  {
  }

  /** The minutes shown for an entry: `Math.abs(Math.floor(duration / 60))`;
      for a finished entry, the whole minutes of its duration. */
  function EntryMinutes(duration: int): (r: nat)
    ensures duration >= 0 ==> r * 60 <= duration < r * 60 + 60
    ensures duration < 0 ==> r * 60 >= -duration && (r - 1) * 60 < -duration
  {
    var m := duration / 60;
    if m < 0 then -m else m
  }

  // ---------------------------------------------------------------------
  // Grouping entries by day

  /** The entries whose day key is `k`, in input order. */
  function WithKey<X>(s: seq<X>, dayKey: X -> string, k: string): (r: seq<X>)
    ensures r == [] <==> forall j :: 0 <= j < |s| ==> dayKey(s[j]) != k
    ensures forall j :: 0 <= j < |r| ==> dayKey(r[j]) == k
  {
    if s == [] then []
    else WithKey(s[..|s| - 1], dayKey, k) + (if dayKey(s[|s| - 1]) == k then [s[|s| - 1]] else [])
  }

  /** One day's entries are exactly `entries.filter` of that day: every
      entry with the key, in input order. */
  lemma {:induction false} WithKeyIsFilter<X(!new)>(s: seq<X>, dayKey: X -> string, k: string)
    ensures WithKey(s, dayKey, k) == Filter(s, (x: X) => dayKey(x) == k)
  {
    var p := (x: X) => dayKey(x) == k;
    if s != [] {
      var init := s[..|s| - 1];
      var last := s[|s| - 1];
      WithKeyIsFilter(init, dayKey, k);
      assert s == init + [last];
      FilterSnoc(init, last, p);
    }
  }

  lemma WithKeySnoc<X>(s: seq<X>, x: X, dayKey: X -> string, k: string)
    ensures WithKey(s + [x], dayKey, k) == WithKey(s, dayKey, k) + (if dayKey(x) == k then [x] else [])
  {
    assert (s + [x])[..|s|] == s;
  }

  /** Strictly decreasing in the day-key order: newest day first. */
  predicate StrictlyDescending(s: seq<string>) {
    forall i, j :: 0 <= i < j < |s| ==> LexLess(s[j], s[i])
  }

  /** A key above every key of a descending list can go in front of it. */
  lemma {:induction false} DescendingCons(y: string, t: seq<string>)
    requires StrictlyDescending(t)
    requires forall k :: 0 <= k < |t| ==> LexLess(t[k], y)
    ensures StrictlyDescending([y] + t)
  {
    var r := [y] + t;
    forall i, j | 0 <= i < j < |r|
      ensures LexLess(r[j], r[i])
    {
      assert r[j] == t[j - 1];
      if i > 0 {
        assert r[i] == t[i - 1];
      }
    }
  }

  /** A key above the head of a descending list is above all of it. */
  lemma {:induction false} AboveHead(x: string, s: seq<string>)
    requires StrictlyDescending(s) && s != [] && LexLess(s[0], x)
    ensures StrictlyDescending([x] + s)
  {
    forall j | 0 <= j < |s|
      ensures LexLess(s[j], x)
    {
      if j > 0 {
        LexTransitive(s[j], s[0], x);
      }
    }
    DescendingCons(x, s);
  }

  function InsertDescending(x: string, s: seq<string>): (r: seq<string>)
    requires StrictlyDescending(s) && x !in s
    ensures StrictlyDescending(r)
    ensures multiset(r) == multiset(s) + multiset{x}
  {
    if s == [] then [x]
    else if LexLess(s[0], x) then
      AboveHead(x, s);
      [x] + s
    else
      LexTotal(x, s[0]);
      var tail := s[1..];
      assert StrictlyDescending(tail) by {
        forall i, j | 0 <= i < j < |tail| ensures LexLess(tail[j], tail[i]) {
          assert tail[i] == s[i + 1] && tail[j] == s[j + 1];
        }
      }
      var t := InsertDescending(x, tail);
      assert s == [s[0]] + tail;
      assert forall k :: 0 <= k < |t| ==> LexLess(t[k], s[0]) by {
        forall k | 0 <= k < |t| ensures LexLess(t[k], s[0]) {
          assert t[k] in multiset(tail) + multiset{x};
        }
      }
      DescendingCons(s[0], t);
      [s[0]] + t
  }

  predicate Distinct(s: seq<string>) {
    forall i, j :: 0 <= i < j < |s| ==> s[i] != s[j]
  }

  /** Distinct day keys sorted newest first, as `b[0].localeCompare(a[0])`
      orders them. */
  function SortDescending(s: seq<string>): (r: seq<string>)
    requires Distinct(s)
    ensures StrictlyDescending(r)
    ensures multiset(r) == multiset(s)
  {
    if s == [] then []
    else
      var tail := s[1..];
      assert s == [s[0]] + tail;
      assert Distinct(tail) by {
        forall i, j | 0 <= i < j < |tail| ensures tail[i] != tail[j] {
          assert tail[i] == s[i + 1] && tail[j] == s[j + 1];
        }
      }
      var sorted := SortDescending(tail);
      assert s[0] !in multiset(tail);
      InsertDescending(s[0], sorted)
  }

  function DayKeys<X>(days: seq<(string, seq<X>)>): set<string> {
    set t | 0 <= t < |days| :: days[t].0
  }

  /** `entriesByDay.get(key)?.push(entry)`, after creating the group when
      the key is new; a new key is also appended to the key order. */
  method FileEntry<X>(keys: seq<string>, groups: map<string, seq<X>>, key: string, entry: X)
    returns (newKeys: seq<string>, newGroups: map<string, seq<X>>)
    requires forall k :: k in groups <==> k in keys
    requires Distinct(keys)
    ensures forall k :: k in newGroups <==> k in newKeys
    ensures Distinct(newKeys)
    ensures forall k :: k in newGroups <==> k in groups || k == key
    ensures forall k :: k in newGroups ==>
      newGroups[k] == (if k in groups then groups[k] else []) + (if k == key then [entry] else [])
  {
    newKeys := keys;
    newGroups := groups;
    if key !in newGroups {
      newGroups := newGroups[key := []];
      newKeys := newKeys + [key];
    }
    newGroups := newGroups[key := newGroups[key] + [entry]];
  }

  /** `keys` and `groups` after filing every entry of `s`. */
  ghost predicate Grouped<X>(s: seq<X>, dayKey: X -> string, keys: seq<string>, groups: map<string, seq<X>>) {
    && Distinct(keys)
    && (forall k :: k in groups <==> k in keys)
    && (forall k :: k in groups ==> groups[k] == WithKey(s, dayKey, k) && groups[k] != [])
    && (forall j :: 0 <= j < |s| ==> dayKey(s[j]) in groups)
  }

  /** Filing one more entry, as `FileEntry` promises, keeps `Grouped`. */
  lemma GroupedStep<X>(s: seq<X>, entry: X, dayKey: X -> string, keys: seq<string>, groups: map<string, seq<X>>,
                       newKeys: seq<string>, newGroups: map<string, seq<X>>)
    requires Grouped(s, dayKey, keys, groups)
    requires forall k :: k in newGroups <==> k in newKeys
    requires Distinct(newKeys)
    requires forall k :: k in newGroups <==> k in groups || k == dayKey(entry)
    requires forall k :: k in newGroups ==>
      newGroups[k] == (if k in groups then groups[k] else []) + (if k == dayKey(entry) then [entry] else [])
    ensures Grouped(s + [entry], dayKey, newKeys, newGroups)
  {
    var t := s + [entry];
    forall k | k in newGroups
      ensures newGroups[k] == WithKey(t, dayKey, k) && newGroups[k] != []
    {
      WithKeySnoc(s, entry, dayKey, k);
      if k !in groups {
        assert WithKey(s, dayKey, k) == [] by {
          forall j | 0 <= j < |s| ensures dayKey(s[j]) != k {
            assert dayKey(s[j]) in groups;
          }
        }
      }
    }
    forall j | 0 <= j < |t|
      ensures dayKey(t[j]) in newGroups
    {
      if j < |s| {
        assert t[j] == s[j];
      }
    }
  }

  /** The first pass: day keys in order of first appearance, and for each
      key its entries in input order. */
  method CollectGroups<X>(entries: seq<X>, dayKey: X -> string) returns (keys: seq<string>, groups: map<string, seq<X>>)
    ensures Distinct(keys)
    ensures forall k :: k in groups <==> k in keys
    ensures forall k :: k in groups ==> groups[k] == WithKey(entries, dayKey, k) && groups[k] != []
    ensures forall j :: 0 <= j < |entries| ==> dayKey(entries[j]) in groups
  {
    keys := [];
    groups := map[];
    var i := 0;
    while i < |entries|
      invariant 0 <= i <= |entries|
      invariant Grouped(entries[..i], dayKey, keys, groups)
    {
      var entry := entries[i];
      var newKeys, newGroups := FileEntry(keys, groups, dayKey(entry), entry);
      GroupedStep(entries[..i], entry, dayKey, keys, groups, newKeys, newGroups);
      assert entries[..i + 1] == entries[..i] + [entry];
      keys, groups := newKeys, newGroups;
      i := i + 1;
    }
    assert entries[..i] == entries;
  }

  /** The second pass: each sorted key with its group. */
  method PairWithGroups<X>(sorted: seq<string>, groups: map<string, seq<X>>) returns (days: seq<(string, seq<X>)>)
    requires forall t :: 0 <= t < |sorted| ==> sorted[t] in groups
    ensures |days| == |sorted|
    ensures forall u :: 0 <= u < |days| ==> days[u] == (sorted[u], groups[sorted[u]])
  {
    days := [];
    var t := 0;
    while t < |sorted|
      invariant 0 <= t <= |sorted|
      invariant |days| == t
      invariant forall u :: 0 <= u < t ==> days[u] == (sorted[u], groups[sorted[u]])
    {
      days := days + [(sorted[t], groups[sorted[t]])];
      t := t + 1;
    }
  }

  /** Groups the entries by day key and orders the days newest first. Each
      day's group is exactly its entries in input order, no group is empty,
      the days are distinct and descending, and every entry's day is listed. */
  method GroupByDay<X>(entries: seq<X>, dayKey: X -> string) returns (days: seq<(string, seq<X>)>)
    ensures forall i, j :: 0 <= i < j < |days| ==> LexLess(days[j].0, days[i].0)
    ensures forall t :: 0 <= t < |days| ==> days[t].1 == WithKey(entries, dayKey, days[t].0) && days[t].1 != []
    ensures forall j :: 0 <= j < |entries| ==> dayKey(entries[j]) in DayKeys(days)
  {
    var keys, groups := CollectGroups(entries, dayKey);
    var sorted := SortDescending(keys);
    forall t | 0 <= t < |sorted|
      ensures sorted[t] in groups
    {
      assert sorted[t] in multiset(keys);
    }
    days := PairWithGroups(sorted, groups);
    forall t | 0 <= t < |days|
      ensures days[t].1 == WithKey(entries, dayKey, days[t].0) && days[t].1 != []
    {
      assert days[t] == (sorted[t], groups[sorted[t]]);
    }
    forall j | 0 <= j < |entries|
      ensures dayKey(entries[j]) in DayKeys(days)
    {
      var k := dayKey(entries[j]);
      assert k in multiset(keys);
      var u :| 0 <= u < |sorted| && sorted[u] == k;
      assert days[u].0 == k;
    }
  }

  // ---------------------------------------------------------------------
  // Choice lists

  const NoClientName := "No client"

  /** The "No client" choice: a client with id 0. */
  function NoClientChoice(): Choice<Client> {
    Choice(NoClientName, Client(0, NoClientName))
  }

  function ClientLine(c: Client): string {
    c.name + " (" + IntToString(c.id) + ")"
  }

  function ProjectLine(p: Project): string {
    p.name + " (" + IntToString(p.id) + ")"
  }

  function ClientLines(xs: seq<Client>): seq<Choice<Client>> {
    Labelled(xs, ClientLine)
  }


  function ProjectLines(xs: seq<Project>): seq<Choice<Project>> {
    Labelled(xs, ProjectLine)
  }


  /** The element at `i`, marked as last used, followed by the others in
      their order, each shown by `line`. */
  function LastUsedFirst<V>(xs: seq<V>, i: nat, line: V -> string): (r: seq<Choice<V>>)
    requires i < |xs|
    ensures |r| == |xs|
    ensures r[0] == Choice(line(xs[i]) + " (last used)", xs[i])
    ensures r[1..] == Labelled(xs[..i] + xs[i + 1..], line)
  {
    var lines := Labelled(xs[..i] + xs[i + 1..], line);
    var r := [Choice(line(xs[i]) + " (last used)", xs[i])] + lines;
    assert r[1..] == lines;
    r
  }

  /** The client choices: the last used client (taken out of the list) when
      its non-zero id is found, then "No client", then the other clients in
      the order fetched. */
  method ClientChoices(clients: seq<Client>, lastClientId: Option<int>) returns (choices: seq<Choice<Client>>)
    ensures |choices| >= 1
    ensures !Truthy(lastClientId) ==> choices == [NoClientChoice()] + ClientLines(clients)
    ensures Truthy(lastClientId) ==>
      var i := FindIndex(clients, (c: Client) => c.id == lastClientId.value);
      if i >= 0 then
        && |choices| == |clients| + 1
        && choices[0] == Choice(ClientLine(clients[i]) + " (last used)", clients[i])
        && choices[1] == NoClientChoice()
        && choices[2..] == ClientLines(clients[..i] + clients[i + 1..])
      else choices == [NoClientChoice()] + ClientLines(clients)
  {
    if Truthy(lastClientId) && |clients| > 0 {
      var lastIndex := FindIndex(clients, (c: Client) => c.id == lastClientId.value);
      if lastIndex != -1 {
        var listed := LastUsedFirst(clients, lastIndex, ClientLine);
        choices := [listed[0], NoClientChoice()] + listed[1..];
        assert choices[2..] == listed[1..];
        return;
      }
    }
    choices := [NoClientChoice()] + ClientLines(clients);
  }

  const SelectClientPrompt := "Select client (type to search, Enter to create new):"
  const NoClientsPrompt := "No clients found. Select \"No client\" or create new:"

  /** The client prompt's message. It tests the length of the fetched list
      after the last used client was spliced out of it, so a last used
      client that is the only one gets the "No clients found" message while
      it is listed first. */
  function ClientPromptMessage(clients: seq<Client>, lastClientId: Option<int>): (m: string)
    ensures m == SelectClientPrompt || m == NoClientsPrompt
    ensures m == NoClientsPrompt <==>
      |clients| == 0 || (|clients| == 1 && Truthy(lastClientId) && clients[0].id == lastClientId.value)
  {
    var spliced := Truthy(lastClientId) && |clients| > 0
      && FindIndex(clients, (c: Client) => c.id == lastClientId.value) != -1;
    var remaining := if spliced then |clients| - 1 else |clients|;
    if remaining > 0 then SelectClientPrompt else NoClientsPrompt
  }

  /** With distinct client ids the last used client is listed once: none of
      the remaining clients has its id. */
  lemma LastUsedListedOnce(clients: seq<Client>, lastId: int, i: nat)
    requires forall a, b :: 0 <= a < b < |clients| ==> clients[a].id != clients[b].id
    requires i < |clients| && clients[i].id == lastId
    ensures forall c :: c in clients[..i] + clients[i + 1..] ==> c.id != lastId
  {
  }

  /** The project choices: the last used project (taken out of the list)
      when its non-zero id is found, then the other projects. */
  method ProjectChoices(projects: seq<Project>, lastProjectId: Option<int>) returns (choices: seq<Choice<Project>>)
    ensures !Truthy(lastProjectId) ==> choices == ProjectLines(projects)
    ensures Truthy(lastProjectId) ==>
      var i := FindIndex(projects, (p: Project) => p.id == lastProjectId.value);
      if i >= 0 then
        && |choices| == |projects|
        && choices[0] == Choice(ProjectLine(projects[i]) + " (last used)", projects[i])
        && choices[1..] == ProjectLines(projects[..i] + projects[i + 1..])
      else choices == ProjectLines(projects)
  {
    if Truthy(lastProjectId) {
      var lastIndex := FindIndex(projects, (p: Project) => p.id == lastProjectId.value);
      if lastIndex != -1 {
        choices := LastUsedFirst(projects, lastIndex, ProjectLine);
        return;
      }
    }
    choices := ProjectLines(projects);
  }

  // ---------------------------------------------------------------------
  // Search with a "create new" fallback

  /** The search prompt's source: every choice for an empty term; otherwise
      the choices whose shown name contains the term ignoring case, or only
      `create` when none does. */
  function SearchChoices<V(==,!new)>(choices: seq<Choice<V>>, term: string, create: Choice<V>): (r: seq<Choice<V>>)
    ensures term == "" ==> r == choices
    ensures term != "" && (exists k :: 0 <= k < |choices| && ContainsIgnoringCase(choices[k].name, term)) ==>
      && (forall c :: c in r <==> c in choices && ContainsIgnoringCase(c.name, term))
      && IsSubsequence(r, choices)
      && (forall c :: multiset(r)[c] == if ContainsIgnoringCase(c.name, term) then multiset(choices)[c] else 0)
    ensures term != "" && (forall k :: 0 <= k < |choices| ==> !ContainsIgnoringCase(choices[k].name, term)) ==>
      r == [create]
    ensures forall c :: c in r && c !in choices ==> c == create && term != ""
  {
    if term == "" then choices
    else
      var matches := (c: Choice<V>) => ContainsIgnoringCase(c.name, term);
      var found := Filter(choices, matches);
      FilterCounts(choices, matches);
      if found == [] then
        assert forall k :: 0 <= k < |choices| ==> choices[k] !in found;
        [create]
      else
        assert found[0] in found;
        found
  }

  function CreateClientChoice(term: string): Choice<Client> {
    Choice("Create new client \"" + term + "\"", Client(-1, term))
  }

  function CreateProjectChoice(term: string): Choice<Project> {
    Choice("Create new project \"" + term + "\"", Project(-1, term, None))
  }

  /** A choice the client search makes up is the new client named by the
      non-empty term, so the prompt asking for a missing name is never
      reached from it. */
  lemma CreatedClientIsNamed(choices: seq<Choice<Client>>, term: string, c: Choice<Client>)
    requires c in SearchChoices(choices, term, CreateClientChoice(term)) && c !in choices
    ensures c.value.id == -1 && c.value.name == term && term != ""
  {
  }

  lemma CreatedProjectIsNamed(choices: seq<Choice<Project>>, term: string, c: Choice<Project>)
    requires c in SearchChoices(choices, term, CreateProjectChoice(term)) && c !in choices
    ensures c.value.id == -1 && c.value.name == term && term != ""
  {
  }

  // ---------------------------------------------------------------------
  // What a choice records

  /** After the client search: a new client (id -1) is created under its
      name, or the typed name when it has none, and its id recorded; "No
      client" (id 0) records nothing; any other client records its id.
      `create` stands for the API call that creates a client. */
  method RecordClientChoice(store: ConfigFile, selected: Client, typedName: string, create: string -> Client)
    returns (result: Client)
    modifies store
    ensures selected.id == -1 ==>
      && result == create(if selected.name != "" then selected.name else typedName)
      && store.stored == Some(MergeLastSelected(ReadConfig(old(store.stored)), LastSelected(None, Some(result.id), None)))
    ensures selected.id == 0 ==> result == selected && store.stored == old(store.stored)
    ensures selected.id != -1 && selected.id != 0 ==>
      && result == selected
      && store.stored == Some(MergeLastSelected(ReadConfig(old(store.stored)), LastSelected(None, Some(selected.id), None)))
  {
    if selected.id == -1 {
      var name := selected.name;
      if name == "" {
        name := typedName;
      }
      var newClient := create(name);
      store.SetLastSelected(LastSelected(None, Some(newClient.id), None));
      return newClient;
    }
    if selected.id != 0 {
      store.SetLastSelected(LastSelected(None, Some(selected.id), None));
    }
    return selected;
  }

  /** After the project search: a new project (id -1) is created and its id
      recorded; any other project, whatever its id, records its id. */
  method RecordProjectChoice(store: ConfigFile, selected: Project, typedName: string, create: string -> Project)
    returns (result: Project)
    modifies store
    ensures selected.id == -1 ==>
      && result == create(if selected.name != "" then selected.name else typedName)
      && store.stored == Some(MergeLastSelected(ReadConfig(old(store.stored)), LastSelected(None, None, Some(result.id))))
    ensures selected.id != -1 ==>
      && result == selected
      && store.stored == Some(MergeLastSelected(ReadConfig(old(store.stored)), LastSelected(None, None, Some(selected.id))))
  {
    if selected.id == -1 {
      var name := selected.name;
      if name == "" {
        name := typedName;
      }
      var newProject := create(name);
      store.SetLastSelected(LastSelected(None, None, Some(newProject.id)));
      return newProject;
    }
    store.SetLastSelected(LastSelected(None, None, Some(selected.id)));
    return selected;
  }

  // ---------------------------------------------------------------------
  // Task descriptions

  /** The index of the first occurrence of `x` in `s`. */
  function FirstIndexOf(s: seq<string>, x: string): (i: nat)
    requires x in s
    ensures i < |s| && s[i] == x && forall j :: 0 <= j < i ==> s[j] != x
  {
    if s[0] == x then 0 else 1 + FirstIndexOf(s[1..], x)
  }

  lemma {:induction false} FirstIndexOfExtend(p: seq<string>, y: string, x: string)
    requires x in p + [y]
    ensures x in p ==> FirstIndexOf(p + [y], x) == FirstIndexOf(p, x)
    ensures x !in p ==> FirstIndexOf(p + [y], x) == |p|
  {
    var q := p + [y];
    var i := FirstIndexOf(q, x);
    if x in p {
      var k := FirstIndexOf(p, x);
      assert q[k] == x;
      assert i <= k;
      assert p[i] == x;
    }
  }

  /** `Array.from(new Set(descriptions)).filter(Boolean)`: each non-empty
      description once, in the order of first occurrence. */
  function UniqueDescriptions(s: seq<string>): (r: seq<string>)
    ensures forall x :: x in r <==> x in s && x != ""
    ensures forall i, j :: 0 <= i < j < |r| ==> r[i] != r[j]
    ensures forall i, j :: 0 <= i < j < |r| ==> FirstIndexOf(s, r[i]) < FirstIndexOf(s, r[j])
  {
    if s == [] then []
    else
      var p := s[..|s| - 1];
      var last := s[|s| - 1];
      assert s == p + [last];
      var d := UniqueDescriptions(p);
      assert forall k :: 0 <= k < |d| ==> FirstIndexOf(s, d[k]) == FirstIndexOf(p, d[k]) by {
        forall k | 0 <= k < |d| ensures FirstIndexOf(s, d[k]) == FirstIndexOf(p, d[k]) {
          FirstIndexOfExtend(p, last, d[k]);
        }
      }
      if last == "" || last in d then d
      else
        FirstIndexOfExtend(p, last, last);
        d + [last]
  }

  /** The description search's source as written: every description for an
      empty term; for any other term only the choice to create it, because
      a non-empty term passes the `term.length > 0` test. */
  function DescriptionSource(descriptions: seq<string>, term: string): (r: seq<Choice<string>>)
    ensures term == "" ==> |r| == |descriptions| && forall k :: 0 <= k < |r| ==> r[k] == Choice(descriptions[k], descriptions[k])
    ensures term != "" ==> r == [Choice("Create \"" + term + "\"", term)]
  {
    if term == "" then DescriptionLines(descriptions)
    else [Choice("Create \"" + term + "\"", term)]
  }

  function DescriptionLines(ds: seq<string>): seq<Choice<string>> {
    Labelled(ds, Verbatim)
  }

  function Verbatim(d: string): string {
    d
  }


  /** Once a term is typed no recent description is offered, even one that
      contains it. */
  lemma MatchesNeverOffered(descriptions: seq<string>, term: string, d: string)
    requires term != ""
    ensures Choice(d, d) !in DescriptionSource(descriptions, term)
  {
    var create := "Create \"" + term + "\"";
    assert |create| > |term|;
  }

  /** The description search as evidently intended (`&&` in place of `||`
      in the fallback test): matching descriptions are offered, and the
      choice to create the term only when none matches. */
  function IntendedDescriptionSource(descriptions: seq<string>, term: string): (r: seq<Choice<string>>)
    ensures term == "" ==> r == DescriptionLines(descriptions)
    ensures term != "" && (forall d :: d in descriptions ==> !ContainsIgnoringCase(d, term)) ==>
      r == [Choice("Create \"" + term + "\"", term)]
    ensures term != "" && (exists d :: d in descriptions && ContainsIgnoringCase(d, term)) ==>
      && Choice("Create \"" + term + "\"", term) !in r
      && (forall c :: c in r <==> c in DescriptionLines(descriptions) && ContainsIgnoringCase(c.name, term))
      && IsSubsequence(r, DescriptionLines(descriptions))
    ensures forall c :: c in r && c.value != term ==> c == Choice(c.value, c.value) && c.value in descriptions
  {
    var lines := DescriptionLines(descriptions);
    var create := Choice("Create \"" + term + "\"", term);
    assert forall c :: c in lines ==> c == Choice(c.value, c.value) && c.value in descriptions;
    assert create !in lines by {
      assert |create.name| > |create.value|;
    }
    assert term != "" && (exists d :: d in descriptions && ContainsIgnoringCase(d, term)) ==>
      exists k :: 0 <= k < |lines| && ContainsIgnoringCase(lines[k].name, term) by {
      if term != "" && (exists d :: d in descriptions && ContainsIgnoringCase(d, term)) {
        var d :| d in descriptions && ContainsIgnoringCase(d, term);
        var k :| 0 <= k < |descriptions| && descriptions[k] == d;
        assert lines[k].name == d;
      }
    }
    SearchChoices(lines, term, create)
  }

  /** With the intended test a recent description that contains the term
      is offered. */
  lemma MatchesOffered(descriptions: seq<string>, term: string, d: string)
    requires d in descriptions && ContainsIgnoringCase(d, term)
    ensures Choice(d, d) in IntendedDescriptionSource(descriptions, term)
  {
    var lines := DescriptionLines(descriptions);
    var k :| 0 <= k < |descriptions| && descriptions[k] == d;
    assert lines[k] == Choice(d, d);
  }

  /** The description used: the chosen one, or `<client> - <project>` when
      it is empty. */
  function TaskDescription(chosen: string, clientName: string, projectName: string): (r: string)
    ensures chosen != "" ==> r == chosen
    ensures chosen == "" ==> r == clientName + " - " + projectName
  {
    if chosen != "" then chosen else clientName + " - " + projectName
  }
}
