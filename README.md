# tttui core, modelled in Dafny

tttui is a terminal client for the Toggl time tracker. This project models
the parts of it that hold logic of their own:

- **The time-entry range editor** (`TimeEntryEdit`, time_entry_edit.dfy). It is
  a keystroke-driven prompt over a start time, an optional end time and a
  description. Each editor step is written as a pure function `Step`, which
  is the specification. A class `RangeEditor` holds the prompt's state cells,
  and its `Keypress` method is proved to change them exactly as `Step` says.
  The properties the editor promises are lemmas about `Step`: focus
  navigation, the digit buffer, adjustment, the ordering check, submit, and
  highlighted rendering. Timestamps are a type parameter. The date
  library's add, set, compare and format operations are passed in as a
  `Calendar<T>` record.
- **The single-line prompt with an initial value** (`InputWithValue`,
  input_with_value.dfy). It moves idle → loading → done, or back to idle when
  validation fails. The wait for the validator is a separate `Settle` step.
- **The settings manager** (`SettingsStore`, settings.dfy). It keeps a
  default workspace and two most-recently-used lists of (workspace, item)
  pairs.
- **The configuration store** (`ConfigStore`, config.dfy). It holds the API
  token and the last selected workspace, client and project, kept in an
  in-memory record that stands for the config file.
- **Token and workspace selection** (`Auth`, auth.dfy). This covers token
  precedence, the workspace search source, and the in-place
  move-to-front of the last selected workspace.
- **The API client's post-fetch logic** (`TogglClient`, client.dfy). This
  covers lookups, the 404 rule, filtering, the newest-first sort with
  a limit, and enrichment.
- **The list shaping in the command code** (`Commands`, commands.dfy). This
  covers the duration text, grouping entries by day, the client and
  project choice lists, search with a "create new" fallback, what a choice
  records, and the task description choices.

Supporting modules:

- `Common`: Option, Result, verdicts, the prompt phase, and JavaScript
  truthiness.
- `Text`: digits, `parseInt`, `toString`, `padStart`, ASCII lower case,
  `includes`, and the key order used by `localeCompare`.
- `Lists`: `filter`, `findIndex`, `find`, last-wins `Map` lookup,
  `slice`, and a descending sort.
- `Records`: the API records.

The editor, as the code has it:

- An end time before the start shows an error but does not block submit.
- Completed digits are written into the timestamp without a range check.
  They are not discarded.
- The range editor never enters the loading phase.
- Left from the description field lands on the minute of a timestamp.

JavaScript semantics are written out where they matter:

- `%` truncates toward zero (`JsRem`).
- `slice` accepts a negative end (`SliceTo`).
- A `Map` built from pairs keeps the last pair for a key (`MapGet`).
- `||` and `if (x)` test truthiness (`Truthy`, `TruthyString`).

## Model

| member | source | states |
|---|---|---|
| TimeEntryEdit.NextField | src/prompts/timeEntryEdit.ts:77-88 | The next field is never the current one; it is the end time only when one exists; from the description it is the start time |
| TimeEntryEdit.PreviousField | src/prompts/timeEntryEdit.ts:90-101 | The previous field is never the current one; it is the end time only when one exists; from the start time it is the description |
| TimeEntryEdit.PreviousUndoesNext | src/prompts/timeEntryEdit.ts:77-101 | From every reachable field, moving back undoes moving forward, and the other way round |
| TimeEntryEdit.ValidateTimes | src/prompts/timeEntryEdit.ts:119-124 | Error exactly when an end time exists and lies before the start; the only error is 'End time must be after start time' |
| TimeEntryEdit.Capacity | src/prompts/timeEntryEdit.ts:203-220 | The buffer holds four digits for the year and two for every other component |
| TimeEntryEdit.AdjustDateField | src/prompts/timeEntryEdit.ts:134-149 | The date library's add on the component; no contract of its own: stated by `Adjustment` |
| TimeEntryEdit.SetComponent | src/prompts/timeEntryEdit.ts:226-238 | The date library's setter on the component, the month written 0-based; no contract of its own: stated by `HandleDateFieldInput` and `DigitEntry` |
| TimeEntryEdit.Part | src/prompts/timeEntryEdit.ts:173-189 | One component, wrapped in the green escape when active; no contract of its own: stated by `OnlyActiveIsWrapped` |
| TimeEntryEdit.FormatTime | src/prompts/timeEntryEdit.ts:151-166 | The plain `HH:mm YYYY-MM-DD` layout; no contract of its own: stated by `InactiveIsPlain` and `UnhighlightIsPlain` |
| TimeEntryEdit.FormatDateWithHighlight | src/prompts/timeEntryEdit.ts:168-193 | The drawn timestamp; no contract of its own: stated by `InactiveIsPlain`, `OnlyActiveIsWrapped` and `UnhighlightIsPlain` |
| TimeEntryEdit.HandleDateFieldInput | src/prompts/timeEntryEdit.ts:195-241 | Below capacity the digit only extends the buffer; a value is produced exactly when the buffer reaches capacity and parses; then the buffer empties and the parsed value is written into the component |
| TimeEntryEdit.InactiveIsPlain | src/prompts/timeEntryEdit.ts:168-193 | An inactive timestamp is drawn as the plain `HH:mm YYYY-MM-DD` layout |
| TimeEntryEdit.OnlyActiveIsWrapped | src/prompts/timeEntryEdit.ts:173-191 | The selected component of an active timestamp is wrapped in the green and reset escapes |
| TimeEntryEdit.UnhighlightIsPlain | src/prompts/timeEntryEdit.ts:168-193 | Removing the highlight escapes from the drawn timestamp gives back the plain layout |
| TimeEntryEdit.StoreDate | src/prompts/timeEntryEdit.ts:341-358 | The new value is stored; the error is set exactly when an end time exists and lies before the start, and is then the ordering message |
| TimeEntryEdit.StepKeepsInv | src/prompts/timeEntryEdit.ts:243-390 | Every keystroke keeps the editor invariant: focus is never on a missing end time; the buffer is digits below capacity and empty in the description; never loading; done exactly when a result exists |
| TimeEntryEdit.DateStepKeepsInv | src/prompts/timeEntryEdit.ts:297-389 | Every key in a date field keeps the invariant |
| TimeEntryEdit.DateMoveKeepsInv | src/prompts/timeEntryEdit.ts:300-334 | Return, Tab, Left and Right in a date field keep the invariant |
| TimeEntryEdit.DateAdjustKeepsInv | src/prompts/timeEntryEdit.ts:335-358 | Up and Down in a date field keep the invariant |
| TimeEntryEdit.DateDigitKeepsInv | src/prompts/timeEntryEdit.ts:366-389 | A typed digit keeps the buffer digits below capacity, and the completing digit empties it |
| TimeEntryEdit.NoEndStaysUnfocused | src/prompts/timeEntryEdit.ts:77-88 | Without an end time, no key creates one or focuses the end-time field, so the branch at lines 362-365 is unreachable |
| TimeEntryEdit.ForwardMove | src/prompts/timeEntryEdit.ts:281-334 | Tab, Return in a date field and Right on the day move to the next field, land on its hour, empty the buffer and change nothing else |
| TimeEntryEdit.BackwardMove | src/prompts/timeEntryEdit.ts:284-320 | Left on the hour moves to the previous field and lands on the day; Left from the description lands on the minute; the buffer is emptied and the timestamps, description, error, status and result are unchanged |
| TimeEntryEdit.WithinFieldMove | src/prompts/timeEntryEdit.ts:307-334 | Left and Right inside a field step one place through hour, minute, year, month, day and empty the buffer; nothing else changes |
| TimeEntryEdit.DigitEntry | src/prompts/timeEntryEdit.ts:366-388 | Below capacity a digit only grows the buffer; the completing digit writes its value (month 1-based) into the focused timestamp, empties the buffer and re-runs the ordering check, leaving the focus, description, status and result alone |
| TimeEntryEdit.DigitCompletes | src/prompts/timeEntryEdit.ts:366-388 | The completing digit is `StoreDate` of the parsed component written into the focused timestamp, with the buffer emptied |
| TimeEntryEdit.DateStepOnDigit | src/prompts/timeEntryEdit.ts:366-370 | A digit key in a date field goes through `HandleDateFieldInput` and stores its date when it yields one |
| TimeEntryEdit.Adjustment | src/prompts/timeEntryEdit.ts:335-358 | Up and Down shift the active component by ±1, or ±10 with shift; the result is always stored; the error is the ordering message exactly when the end is before the start, and none otherwise; the focus, description, status and result are unchanged |
| TimeEntryEdit.DateFieldOtherKeys | src/prompts/timeEntryEdit.ts:359-365 | Backspace in a date field drops the last buffered digit; other non-digit keys change nothing |
| TimeEntryEdit.Submit | src/prompts/timeEntryEdit.ts:270-280 | Enter on an empty required description sets 'Description is required' and stays idle; otherwise done with the formatted start, the formatted end or none, and the description, whatever error is shown |
| TimeEntryEdit.DateFieldsNeverSubmit | src/prompts/timeEntryEdit.ts:300-306 | No key in a date field finishes the prompt |
| TimeEntryEdit.DoneIsTerminal | src/prompts/timeEntryEdit.ts:264-266 | Once done, every key is ignored |
| TimeEntryEdit.DescriptionEditing | src/prompts/timeEntryEdit.ts:287-293 | In the description, Backspace removes the last character (no-op when empty), and another key appends its sequence; focus stays, and the timestamps, error, status and result are unchanged |
| TimeEntryEdit.Step | src/prompts/timeEntryEdit.ts:243-268 | The whole keystroke transition; no contract of its own: it is the specification the `StepKeepsInv`, move, digit, adjustment and submit lemmas and `RangeEditor.Keypress` are stated against |
| TimeEntryEdit.DescriptionStep | src/prompts/timeEntryEdit.ts:269-295 | The description branch; no contract of its own: stated by `Submit`, `DescriptionEditing`, `ForwardMove` and `BackwardMove` |
| TimeEntryEdit.DateStep | src/prompts/timeEntryEdit.ts:297-389 | The date-field branch; no contract of its own: stated by `DateStepKeepsInv`, `WithinFieldMove`, `DigitEntry`, `Adjustment` and `DateFieldOtherKeys` |
| TimeEntryEdit.Forward | src/prompts/timeEntryEdit.ts:300-306 | Moving to the next field on its hour with the buffer emptied; no contract of its own: stated by `ForwardMove` and `TabCycle` |
| TimeEntryEdit.Backward | src/prompts/timeEntryEdit.ts:307-320 | Moving to the previous field on its day with the buffer emptied; no contract of its own: stated by `BackwardMove` |
| TimeEntryEdit.DateBackspace | src/prompts/timeEntryEdit.ts:359-365 | Backspace in a date field; no contract of its own: stated by `DateFieldOtherKeys` and `NoEndStaysUnfocused` |
| TimeEntryEdit.Run | src/prompts/timeEntryEdit.ts:243-390 | Any sequence of keys keeps the invariant |
| TimeEntryEdit.TabCycle | src/prompts/timeEntryEdit.ts:77-88 | From the start time, three Tabs (two without an end time) return to its hour and change nothing but focus and buffer (Tab in a date field is lines 300-306) |
| TimeEntryEdit.RangeEditor.constructor | src/prompts/timeEntryEdit.ts:63-75 | A fresh editor: idle, no error, focus on the start hour, empty buffer, `required` defaulting to true |
| TimeEntryEdit.RangeEditor.StoreFocused | src/prompts/timeEntryEdit.ts:341-358 | Writes the focused timestamp and the ordering error, as `StoreDate` |
| TimeEntryEdit.RangeEditor.Keypress | src/prompts/timeEntryEdit.ts:243-390 | The handler changes the session cells exactly as `Step` and keeps the invariant |
| TimeEntryEdit.RangeEditor.DescriptionKeypress | src/prompts/timeEntryEdit.ts:269-295 | The description branch of the handler, as `DescriptionStep` |
| TimeEntryEdit.RangeEditor.DateKeypress | src/prompts/timeEntryEdit.ts:297-389 | The date-field branch of the handler, as `DateStep` |
| TimeEntryEdit.RangeEditor.MoveKeypress | src/prompts/timeEntryEdit.ts:300-334 | Return, Tab, Left and Right in a date field, as `DateStep` |
| TimeEntryEdit.RangeEditor.EditKeypress | src/prompts/timeEntryEdit.ts:335-389 | Up, Down, Backspace and digits in a date field, as `DateStep` |
| TimeEntryEdit.RangeEditor.BackspaceKeypress | src/prompts/timeEntryEdit.ts:359-365 | Backspace in a date field, as `DateBackspace` |
| InputWithValue.InitialValue | src/prompts/inputWithValue.ts:38 | The initial value is the configured one, or empty |
| InputWithValue.Initial | src/prompts/inputWithValue.ts:36-39 | The state before any key: idle, no error, the initial value, not initialised |
| InputWithValue.FailureMessage | src/prompts/inputWithValue.ts:104 | A non-empty string verdict is shown as is; `false` or an empty message shows 'You must provide a valid value' |
| InputWithValue.Fail | src/prompts/inputWithValue.ts:97-105 | A failed validation returns to idle with the error; clear mode empties the value, keep mode keeps it and writes it back to the line |
| InputWithValue.Seed | src/prompts/inputWithValue.ts:54-79 | The first keypress seeds the line with the initial value; no contract of its own: stated by `FirstKeySeeds` |
| InputWithValue.HandleKey | src/prompts/inputWithValue.ts:81-112 | The key's own effect; no contract of its own: stated by `BusyIgnoresKeys`, `RequiredEmptyAnswer`, `EnterSubmits` and `OtherKeyCopiesLine` |
| InputWithValue.KeyStep | src/prompts/inputWithValue.ts:43-113 | One keypress; no contract of its own: the specification of `InputPrompt.Keypress`, stated by `KeyStepKeepsInv` |
| InputWithValue.SettleStep | src/prompts/inputWithValue.ts:92-106 | The validator's verdict arrives; no contract of its own: the specification of `InputPrompt.Settle`, stated by `SettleKeepsInv`, `AcceptedAnswer` and `RejectedAnswer` |
| InputWithValue.KeyStepKeepsInv | src/prompts/inputWithValue.ts:43-113 | Every keypress keeps the invariant: loading exactly while an answer awaits validation, done exactly when answered, and the answer is then the value |
| InputWithValue.SettleKeepsInv | src/prompts/inputWithValue.ts:92-106 | The validator's return keeps the invariant |
| InputWithValue.FirstKeySeeds | src/prompts/inputWithValue.ts:55-92 | On the first keypress with an initial value, the line becomes that value followed by what was already typed; Enter as that first key submits exactly that text for validation |
| InputWithValue.BusyIgnoresKeys | src/prompts/inputWithValue.ts:82-85 | While loading or done a keypress changes nothing |
| InputWithValue.RequiredEmptyAnswer | src/prompts/inputWithValue.ts:89-105 | On an initialised prompt, or on the first keypress of one without an initial value, Enter with an empty answer, when a value is required, shows 'You must provide a value', stays idle and never finishes |
| InputWithValue.EnterSubmits | src/prompts/inputWithValue.ts:87-92 | Otherwise Enter submits the line (on an initialised prompt, or the first keypress of one without an initial value), or the value when the line is empty, and waits for the validator |
| InputWithValue.AcceptedAnswer | src/prompts/inputWithValue.ts:93-96 | An accepted answer becomes the value and the prompt's result, and the prompt is done |
| InputWithValue.RejectedAnswer | src/prompts/inputWithValue.ts:97-105 | A rejected answer returns to idle with its message; clear mode empties the value, keep mode leaves it |
| InputWithValue.IsRequired | src/prompts/inputWithValue.ts:34 | The configured `required`, false when absent |
| InputWithValue.Validator | src/prompts/inputWithValue.ts:34 | The configured validator, and one that accepts every answer when absent |
| InputWithValue.Mode | src/prompts/inputWithValue.ts:17-21 | The configured failure mode, `keep` when absent |
| InputWithValue.DefaultAcceptsAll | src/prompts/inputWithValue.ts:34 | Without a validator every submitted answer is accepted |
| InputWithValue.OtherKeyCopiesLine | src/prompts/inputWithValue.ts:107-112 | Any other key, on an initialised prompt or the first keypress of one without an initial value, copies the line into the value and clears the error |
| InputWithValue.RenderValue | src/prompts/inputWithValue.ts:115-121 | The transformer, told whether the prompt is done, is used when given; otherwise the answer style when done, the raw value before |
| InputWithValue.InputPrompt.constructor | src/prompts/inputWithValue.ts:33-39 | A fresh prompt is in the initial state |
| InputWithValue.InputPrompt.FailWith | src/prompts/inputWithValue.ts:97-105 | The failure branch, as `Fail` |
| InputWithValue.InputPrompt.Keypress | src/prompts/inputWithValue.ts:43-113 | The handler up to the awaited validator changes the cells exactly as `KeyStep` and keeps the invariant |
| InputWithValue.InputPrompt.SeedLine | src/prompts/inputWithValue.ts:55-79 | The first-keypress seeding, as `Seed` |
| InputWithValue.InputPrompt.Settle | src/prompts/inputWithValue.ts:92-106 | The validator's return, as `SettleStep`, keeping the invariant |
| SettingsStore.DefaultSettings | src/settings.ts:30-36 | No default workspace and empty recent lists |
| SettingsStore.WithoutId | src/settings.ts:70 | Only pairs whose item id differs, each such pair present, in their order |
| SettingsStore.WithoutIdCounts | src/settings.ts:70 | Each pair whose item id differs is kept as often as it occurs, the others not at all |
| SettingsStore.WithoutAbsentId | src/settings.ts:70 | Removing an id that does not occur changes nothing |
| SettingsStore.AddRecent | src/settings.ts:69-81 | The head is the new pair; the rest are the first pairs of the old list without the item id, in order; the length is one more than those pairs, capped at ten |
| SettingsStore.AddRecentIdempotent | src/settings.ts:69-74 | Recording the same use twice gives the same list as once |
| SettingsStore.RecentIds | src/settings.ts:83-89 | Exactly the item ids paired with the workspace, in list order: the k-th id is that of the k-th pair `filter` keeps for the workspace |
| SettingsStore.RecentAfterAdd | src/settings.ts:69-89 | After a use the item heads its workspace's recent ids and is gone from every other workspace's |
| SettingsStore.SettingsManager.constructor | src/settings.ts:11-54 | The loaded settings, or the defaults when there are none |
| SettingsStore.SettingsManager.GetDefaultWorkspace | src/settings.ts:60-62 | The stored default workspace id, or none; no contract of its own: read back by `SetDefaultWorkspace`'s ensures |
| SettingsStore.SettingsManager.SetDefaultWorkspace | src/settings.ts:60-67 | The default workspace then reads back as the id set; the recent lists are untouched |
| SettingsStore.SettingsManager.AddRecentProject | src/settings.ts:69-74 | The recent projects become `AddRecent` of the old ones; nothing else changes |
| SettingsStore.SettingsManager.AddRecentClient | src/settings.ts:76-81 | The recent clients become `AddRecent` of the old ones; nothing else changes |
| SettingsStore.SettingsManager.GetRecentProjects | src/settings.ts:83-85 | Exactly the project ids recorded for the workspace, as `RecentIds` of the project list, so in list order (most recent first) |
| SettingsStore.SettingsManager.GetRecentClients | src/settings.ts:87-89 | Exactly the client ids recorded for the workspace, as `RecentIds` of the client list, so in list order (most recent first) |
| ConfigStore.ReadConfig | src/config.ts:14-21 | An unreadable store reads as the empty record |
| ConfigStore.MergeLastSelected | src/config.ts:50-60 | Each defined parameter overwrites its field; omitted fields and the token are kept |
| ConfigStore.MergeNothing | src/config.ts:50-60 | Setting no ids changes nothing |
| ConfigStore.MergeIdempotent | src/config.ts:55-59 | Setting the same ids twice equals setting them once |
| ConfigStore.ConfigFile.constructor | src/config.ts:5-12 | The file's record, or none |
| ConfigStore.ConfigFile.GetApiToken | src/config.ts:27-29 | The stored token, or none when the store is unreadable |
| ConfigStore.ConfigFile.SetApiToken | src/config.ts:31-35 | The token is stored and reads back; the last-selected ids are kept |
| ConfigStore.ConfigFile.GetLastSelected | src/config.ts:37-48 | Exactly the three stored last-selected ids |
| ConfigStore.ConfigFile.SetLastSelected | src/config.ts:50-60 | The store becomes the merge of the old record and the parameters; the token is kept |
| Auth.TokenValidator | src/utils/auth.ts:15 | An empty token is refused with 'API token is required', and any other is accepted |
| Auth.EnsureApiToken | src/utils/auth.ts:6-20 | A non-empty environment token wins, then a non-empty stored token, with nothing stored; otherwise the prompted token is returned and stored, keeping the last-selected ids |
| Auth.AsChoices | src/utils/auth.ts:48-57 | Each workspace under its display name; no contract of its own: `Records.Labelled` with `DisplayName` |
| Auth.DisplayName | src/utils/auth.ts:49-57 | A workspace's own name, or 'Unnamed workspace' when it has none |
| Records.Labelled | src/utils/auth.ts:48-51 | One choice per item, in order, each shown under its label |
| Auth.WorkspaceSource | src/utils/auth.ts:44-62 | An empty term lists every workspace in order; otherwise those whose own name contains the term, ignoring case, each such one present, in the order of the (reordered) list |
| Auth.LabelledSubsequence | src/utils/auth.ts:48-59 | Labelling the filtered workspaces keeps them a subsequence of the labelled list |
| Auth.UnnamedNeverMatches | src/utils/auth.ts:55 | The placeholder name of an unnamed workspace never matches a search |
| Auth.MovedToFront | src/utils/auth.ts:39-40 | The element comes first and the others keep their order |
| Auth.MovedToFrontPermutes | src/utils/auth.ts:39-40 | Moving to the front is a permutation |
| Auth.Reordered | src/utils/auth.ts:36-42 | A permutation; a no-op when the last id is absent, zero or not found |
| Auth.LastSelectedFirst | src/utils/auth.ts:36-42 | A found last-selected workspace comes first and the others keep their order |
| Auth.MoveToFront | src/utils/auth.ts:39-40 | The in-place splice and unshift leave the array as `MovedToFront` of its old contents |
| Auth.SelectWorkspace | src/utils/auth.ts:22-66 | No workspaces: nothing chosen or stored; one: it is chosen and the array kept; more: the array is reordered and the chosen one taken; the chosen id is recorded |
| TogglClient.ProjectsByClient | src/api/client.ts:66-69 | Exactly the projects of the client, in order, each as often as it occurs |
| TogglClient.ProjectDetails | src/api/client.ts:71-89 | An error exactly when no project has the id; no client when its client id is falsy; otherwise the first matching client |
| TogglClient.ClientDetails | src/api/client.ts:199-208 | An error exactly when no client has the id; otherwise the client at the first index with it |
| TogglClient.CurrentTimeEntry | src/api/client.ts:91-100 | An error mentioning 404 becomes no entry; any other error is passed on |
| TogglClient.RecentTimeEntries | src/api/client.ts:141-147 | Narrowed to the project only when its id is truthy; always a subsequence |
| TogglClient.Enrich | src/api/client.ts:190-196 | A project only for a truthy project id, looked up last-wins; the client looked up by that project's client id, or 0 |
| TogglClient.EnrichAll | src/api/client.ts:190-196 | Each entry enriched, in order |
| TogglClient.InWindowOnly | src/api/client.ts:161-164 | Only entries of the workspace starting within the window, each such one present, in order |
| TogglClient.InWindowCounts | src/api/client.ts:161-164 | Each entry in the window is kept as often as it occurs, the others not at all |
| TogglClient.NewestFirst | src/api/client.ts:185-186 | A permutation, latest start first |
| TogglClient.Listed | src/api/client.ts:185-187 | At most the limit (10 by default), all in the window, newest first, a prefix of the sorted window |
| TogglClient.RecentWithDetails | src/api/client.ts:149-197 | Every listed entry (`Listed`: the window, newest first, cut to the limit) enriched, in order; hence at most the limit, all in the workspace and window, newest first |
| TogglClient.NothingDroppedUnderLimit | src/api/client.ts:185-187 | Under the limit, the listed entries are a reordering of the whole window |
| Lists.Filter | src/api/client.ts:68 | `filter`: only elements satisfying the test, each such one present, in order |
| Lists.FilterCounts | src/api/client.ts:68 | `filter` keeps each passing element as often as it occurs and drops the rest |
| Lists.FindIndex | src/index.ts:197 | `findIndex`: the first index whose element satisfies the test, or -1 when none does |
| Lists.Find | src/api/client.ts:76 | `find`: the first element satisfying the test, or none |
| Lists.MapGet | src/api/client.ts:181-182 | A lookup in a map built from pairs: the last element with the key, or none |
| Lists.SliceTo | src/api/client.ts:187 | `slice(0, n)`: a prefix of length n, the length less n when n is negative, bounded by the length |
| Lists.SortByKeyDescending | src/api/client.ts:186 | A permutation sorted by key, largest first |
| Text.ParseInt | src/prompts/timeEntryEdit.ts:223-224 | `parseInt` on strings without leading blanks or sign (the editor's digit buffers): no number (NaN) exactly when the string does not start with a digit |
| Text.ParseIntOfDigits | src/prompts/timeEntryEdit.ts:222-224 | A non-empty digit string parses to the number it denotes |
| Text.NatToString | src/index.ts:85 | `toString`: digits with no leading zero, denoting the number |
| Text.IntToString | src/index.ts:245-255 | `toString` of an id: the digits of the number, after a minus sign when it is negative |
| Text.PadStart | src/index.ts:85 | `padStart`: the string at the end, padded on the left to the length |
| Commands.FormatDuration | src/index.ts:82-86 | The `HHhMMm` duration text; no contract of its own: stated by `FormatDurationReadsBack` |
| Commands.FormatDurationReadsBack | src/index.ts:82-86 | The text splits into hour digits, 'h', minute digits, 'm': the hours are two digits, or more with no leading zero; the minutes are two digits below 60; hours × 60 + minutes is the input |
| Commands.EntryMinutes | src/index.ts:129 | The whole minutes of a duration in seconds, as a non-negative number |
| Commands.WithKey | src/index.ts:111-119 | Only entries of the day; empty exactly when no entry has that day |
| Commands.WithKeyIsFilter | src/index.ts:111-119 | One day's entries are exactly the `filter` of the entries with that key: every such entry, in input order |
| Lists.FilterSnoc | src/index.ts:112-119 | `filter` of a list extended at the end is the old result extended by the new element when it passes |
| Commands.SortDescending | src/index.ts:123-124 | Distinct day keys as a permutation in strictly descending order |
| Commands.FileEntry | src/index.ts:115-118 | Filing one entry: its key's group gains it at the end (a new key starts an empty group), other groups are unchanged, and the key order stays free of repeats and lists exactly the grouped keys |
| Commands.GroupedStep | src/index.ts:112-119 | Filing one more entry keeps every group equal to its day's entries in input order |
| Commands.CollectGroups | src/index.ts:111-119 | Each day seen gets exactly its entries in input order, none empty, and every entry's day is present |
| Commands.GroupByDay | src/index.ts:111-137 | Days strictly descending; each day holds exactly its entries in input order; every entry's day is listed |
| Commands.LastUsedFirst | src/index.ts:323-337 | The found item first, marked as last used, then the rest in their order without it |
| Commands.ClientPromptMessage | src/index.ts:260-264 | The 'No clients found' message exactly when no client is left after the last used one is taken out: none was fetched, or the only one is the last used |
| Commands.ClientChoices | src/index.ts:233-258 | A found last-used client first, marked, and taken out of the rest; then 'No client'; then the others in order |
| Commands.LastUsedListedOnce | src/index.ts:237 | With distinct ids the last used client does not appear again in the rest |
| Commands.ProjectChoices | src/index.ts:321-342 | A found last-used project first, marked, and taken out of the rest; then the others in order |
| Commands.SearchChoices | src/index.ts:265-281 | An empty term gives all choices; otherwise exactly the case-insensitive matches in order, each as often as it occurs, or only the create item when none match (the project search, lines 346-362, is the same) |
| Commands.CreatedClientIsNamed | src/index.ts:271-296 | A made-up client choice is id -1 named by a non-empty term |
| Commands.CreatedProjectIsNamed | src/index.ts:352-376 | A made-up project choice is id -1 named by a non-empty term |
| Commands.RecordClientChoice | src/index.ts:285-305 | A new client is created under its name (or the typed one) and its id recorded; 'No client' records nothing; another client records its id |
| Commands.RecordProjectChoice | src/index.ts:366-384 | A new project is created and its id recorded; any other project records its id |
| Commands.UniqueDescriptions | src/index.ts:394-396 | Each non-empty description exactly once, in order of first occurrence |
| Commands.DescriptionSource | src/index.ts:403-428 | As written: an empty term lists every description; any other term gives only 'Create "<term>"' |
| Commands.MatchesNeverOffered | src/index.ts:418-425 | As written, once a term is typed no recent description is offered |
| Commands.IntendedDescriptionSource | src/index.ts:403-428 | With the fallback test corrected: all descriptions for an empty term; when some description matches, exactly the matching lines in order and no create item; only the create item when nothing matches |
| Commands.MatchesOffered | src/index.ts:410-417 | With the corrected test a description containing the term is offered |
| Commands.TaskDescription | src/index.ts:431 | The chosen description, or '<client> - <project>' when it is empty |

## Left out

- HTTP transport, JSON and the authorization header. Every fetch is a parameter that holds the fetched list or an `Err` with the error's message.
- File persistence, directories and paths. The settings and config files are in-memory records. A settings file that is missing or unparsable is `None` when the manager is constructed.
- `src/toggl.ts` and `src/commands/edit.ts` are not part of this model. They are I/O and prompt wiring.
- Calendar arithmetic, setters and formatting come from the date library. They are the `Calendar<T>` parameter, so month 13 or day 32 is whatever the library does with it. The parsing of `config.startTime` is done by the caller.
- The wall clock is not modelled. "Now", the start of the one-month window and the parse of an entry's start are the parameters `now`, `since` and `timeOf`.
- `calculateDuration` is not modelled. It is floating-point duration arithmetic drawn only in the done message.
- The running-entry duration in `list` is not modelled, because it reads the clock. `formatTimeRange` is not modelled either: it returns clock-time text for the console.
- Cursor show/hide escapes are not modelled, and neither is the left-arrow escape written on the first keypress of the input prompt. Both are terminal output.
- The prompt toolkit (hooks, theme styling, the prefix) is not modelled. Readline's line is an input string. `rl.write` appends to it.
- The await in the input prompt is not interleaved. A keypress during loading is ignored, which `BusyIgnoresKeys` states, and the validator's return is the separate `Settle` step.
- Case folding covers ASCII only.
- Day keys come from `toISOString` in UTC. Here they are the given `dayKey` function.
- `localeCompare` is modelled as character-code order. That order agrees with `localeCompare` on the fixed-width `YYYY-MM-DD` keys it compares.
- The unused `projectIds`/`clientIds` sets in `getRecentTimeEntriesWithDetails` are not modelled.
- NewestFirst: the model is proved a sorted permutation. That it is stable, as JavaScript's sort is, is not proved.
- The editor's keys are a record of name, shift flag and raw sequence rather than one constructor per key. The description branch appends the raw sequence of every key it does not handle, and arrow keys carry sequences too.
- The client and project choice lists are built on sequences. The source removes the last used item from the fetched array in place with `splice`. The model does not keep that array. Its one later use, the client prompt's `clients.length` test at src/index.ts:262, is modelled on the shortened list by `ClientPromptMessage`. The workspace reorder, whose array is reused, is modelled in place (`Auth.MoveToFront`).
- ClientChoices and ProjectChoices: no lemma states that the last-used item appears once in general. `LastUsedListedOnce` states it under the condition that the fetched ids are distinct.
- Command wiring, console output and `process.exit` are not modelled. Zero workspaces is the `NoWorkspaces` outcome.

## Findings

| source | as written | input that shows it | evidently intended | confidence | as-written member | corrected member |
|---|---|---|---|---|---|---|
| src/index.ts:418 | `filtered.length === 0 \|\| term.length > 0`: every non-empty term returns only the create item; the filtered matches are computed and never shown | recent description "Standup", term "stand": only `Create "stand"` is offered | `&&`: offer the matches, and the create item only when nothing matches | medium, not executed | Commands.MatchesNeverOffered | Commands.MatchesOffered |
