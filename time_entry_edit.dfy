/** The time-entry range editor: a keystroke-driven prompt that edits a start
    time, an optional end time and a description.

    Timestamps are a type parameter `T`. Everything the editor asks of them
    (shifting one component, setting one component, comparing, printing one
    component) comes in a `Calendar<T>`, so the calendar arithmetic of the date
    library stays outside the model. */
module TimeEntryEdit {
  import opened Common
  import opened Text

  /** The top-level field with focus. */
  datatype Field = StartTime | EndTime | Description

  /** The component of the focused timestamp. */
  datatype DateField = Hour | Minute | Year | Month | Day

  /** The symbolic names of the keys the editor reacts to. `Return` is the
      carriage return; `Enter` is the line feed, which only the description
      field accepts as a submit key. */
  datatype KeyName = Return | Enter | Tab | Left | Right | Up | Down | Backspace | Other

  /** A keypress event: its name, the shift flag and the raw character
      sequence the terminal sent (arrow keys send escape sequences too). */
  datatype Key = Key(name: KeyName, shift: bool, sequence: string)

  /** The date library's operations, as the editor uses them. `setField` takes the
      month 0-based; `format` prints one component (`HH`, `mm`, `YYYY`, `MM`,
      `DD`). */
  datatype Calendar<!T> = Calendar(
    add: (T, DateField, int) -> T,
    setField: (T, DateField, int) -> T,
    isBefore: (T, T) -> bool,
    format: (T, DateField) -> string)

  /** What the prompt resolves with. */
  datatype EditResult = EditResult(startTime: string, endTime: Option<string>, description: string)

  /** One snapshot of the editor's session cells; `result` is the value passed
      to `done`, once there is one. */
  datatype State<T> = State(
    status: Status,
    errorMsg: Option<string>,
    field: Field,
    dateField: DateField,
    start: T,
    end: Option<T>,
    description: string,
    hasInitialized: bool,
    buffer: string,
    result: Option<EditResult>)

  const EndBeforeStart := "End time must be after start time"
  const DescriptionRequired := "Description is required"
  const Highlight := "\U{1B}[32m"
  const HighlightOff := "\U{1B}[39m"

  /** The sub-field order behind Left and Right. */
  const DateFields: seq<DateField> := [Hour, Minute, Year, Month, Day]

  predicate IsDateEditingField(f: Field) {
    f == StartTime || f == EndTime
  }

  function IndexOf(f: DateField): (i: nat)
    ensures i < |DateFields| && DateFields[i] == f
  {
    match f
    case Hour => 0
    case Minute => 1
    case Year => 2
    case Month => 3
    case Day => 4
  }

  /** The field after `current` going forward; the end time is skipped while
      there is none. */
  function NextField(current: Field, hasEnd: bool): (r: Field)
    ensures r != current
    ensures r == EndTime ==> hasEnd
    ensures current == Description ==> r == StartTime
  {
    match current
    case StartTime => if hasEnd then EndTime else Description
    case EndTime => Description
    case Description => StartTime
  }

  /** The field before `current` going backward. */
  function PreviousField(current: Field, hasEnd: bool): (r: Field)
    ensures r != current
    ensures r == EndTime ==> hasEnd
    ensures current == StartTime ==> r == Description
  {
    match current
    case EndTime => StartTime
    case Description => if hasEnd then EndTime else StartTime
    case StartTime => Description
  }

  /** Backward navigation undoes forward navigation, from every field the
      editor can focus. */
  lemma PreviousUndoesNext(f: Field, hasEnd: bool)
    requires f == EndTime ==> hasEnd
    ensures PreviousField(NextField(f, hasEnd), hasEnd) == f
    ensures NextField(PreviousField(f, hasEnd), hasEnd) == f
  {
  }

  /** The ordering check: an error exactly when an end time exists and lies
      strictly before the start. */
  function ValidateTimes<T>(cal: Calendar<T>, start: T, end: Option<T>): (v: Verdict)
    ensures v == Accept || v == Message(EndBeforeStart)
    ensures v != Accept <==> end.Some? && cal.isBefore(end.value, start)
  {
    if end.Some? && cal.isBefore(end.value, start) then Message(EndBeforeStart) else Accept
  }

  /** Shifts one component by `amount` units of that component. */
  function AdjustDateField<T>(cal: Calendar<T>, field: DateField, amount: int, date: T): T {
    cal.add(date, field, amount)
  }

  /** How many digits complete a component: four for the year, two otherwise. */
  function Capacity(field: DateField): (n: nat)
    ensures n == 2 || n == 4
    ensures n == 4 <==> field == Year
  {
    if field == Year then 4 else 2
  }

  /** Writes a typed value into one component; the month is typed 1-based and
      stored 0-based. No range check is made. */
  function SetComponent<T>(cal: Calendar<T>, date: T, field: DateField, value: int): T {
    cal.setField(date, field, if field == Month then value - 1 else value)
  }

  /** Appends one typed digit to the buffer. At capacity the buffer is parsed,
      the value written into the component and the buffer emptied; below it
      nothing but the buffer changes. */
  function HandleDateFieldInput<T>(cal: Calendar<T>, buffer: string, input: string,
                                   field: DateField, date: T): (r: (string, Option<T>))
    ensures r.1.None? ==> r.0 == buffer + input
    ensures r.1.Some? <==> |buffer + input| == Capacity(field) && ParseInt(buffer + input).Some?
    ensures r.1.Some? ==> r.0 == "" && r.1.value == SetComponent(cal, date, field, ParseInt(buffer + input).value)
  {
    var newBuffer := buffer + input;
    if |newBuffer| == Capacity(field) then
      match ParseInt(newBuffer)
      case Some(value) => ("", Some(SetComponent(cal, date, field, value)))
      case None => (newBuffer, None)
    else (newBuffer, None)
  }

  /** One component, highlighted when it is the active one. */
  function Part<T>(cal: Calendar<T>, date: T, shown: DateField, isActive: bool, field: DateField): string {
    if field == shown && isActive then Highlight + cal.format(date, shown) + HighlightOff
    else cal.format(date, shown)
  }

  /** The five components joined in the `HH:mm YYYY-MM-DD` layout. */
  function Layout(h: string, m: string, y: string, mo: string, d: string): string {
    h + (":" + (m + (" " + (y + ("-" + (mo + ("-" + d)))))))
  }

  /** A timestamp in the `HH:mm YYYY-MM-DD` layout. */
  function FormatTime<T>(cal: Calendar<T>, date: T): string {
    Layout(cal.format(date, Hour), cal.format(date, Minute), cal.format(date, Year),
           cal.format(date, Month), cal.format(date, Day))
  }

  /** The timestamp as the editor draws it, the active component in green. */
  function FormatDateWithHighlight<T>(cal: Calendar<T>, date: T, isActive: bool, field: DateField): string {
    Layout(Part(cal, date, Hour, isActive, field), Part(cal, date, Minute, isActive, field),
           Part(cal, date, Year, isActive, field), Part(cal, date, Month, isActive, field),
           Part(cal, date, Day, isActive, field))
  }

  /** Inactive, the highlighted form is the plain layout. */
  lemma InactiveIsPlain<T>(cal: Calendar<T>, date: T, field: DateField)
    ensures FormatDateWithHighlight(cal, date, false, field) == FormatTime(cal, date)
  {
  }

  /** Removes every highlight escape from a drawn string. */
  function Unhighlight(s: string): (r: string)
    ensures |r| <= |s|
  {
    if s == [] then []
    else if s[0] == '\U{1B}' && Highlight <= s then Unhighlight(s[|Highlight|..])
    else if s[0] == '\U{1B}' && HighlightOff <= s then Unhighlight(s[|HighlightOff|..])
    else [s[0]] + Unhighlight(s[1..])
  }

  predicate EscapeFree(s: string) {
    forall i :: 0 <= i < |s| ==> s[i] != '\U{1B}'
  }

  lemma {:induction false} UnhighlightAppend(a: string, b: string)
    requires EscapeFree(a)
    ensures Unhighlight(a + b) == a + Unhighlight(b)
  {
    if a != [] {
      assert (a + b)[0] == a[0] != '\U{1B}';
      assert (a + b)[1..] == a[1..] + b;
      assert EscapeFree(a[1..]) by {
        forall i | 0 <= i < |a[1..]| ensures a[1..][i] != '\U{1B}' {
          assert a[1..][i] == a[i + 1];
        }
      }
      UnhighlightAppend(a[1..], b);
      assert [a[0]] + (a[1..] + Unhighlight(b)) == a + Unhighlight(b);
    } else {
      assert a + b == b && a + Unhighlight(b) == Unhighlight(b);
    }
  }

  lemma UnhighlightWrapped(s: string, rest: string)
    requires EscapeFree(s)
    ensures Unhighlight(Highlight + s + HighlightOff + rest) == s + Unhighlight(rest)
  {
    var t := Highlight + s + HighlightOff + rest;
    assert Highlight <= t;
    assert t[|Highlight|..] == s + (HighlightOff + rest);
    UnhighlightAppend(s, HighlightOff + rest);
    assert HighlightOff <= HighlightOff + rest;
    assert (HighlightOff + rest)[|HighlightOff|..] == rest;
  }

  lemma UnhighlightPart<T>(cal: Calendar<T>, date: T, shown: DateField, isActive: bool, field: DateField, rest: string)
    requires EscapeFree(cal.format(date, shown))
    ensures Unhighlight(Part(cal, date, shown, isActive, field) + rest) == cal.format(date, shown) + Unhighlight(rest)
  {
    if shown == field && isActive {
      assert Part(cal, date, shown, isActive, field) + rest
        == Highlight + cal.format(date, shown) + HighlightOff + rest;
      UnhighlightWrapped(cal.format(date, shown), rest);
    } else {
      UnhighlightAppend(cal.format(date, shown), rest);
    }
  }

  /** A component is drawn wrapped in the highlight exactly when it is the
      active one. */
  lemma OnlyActiveIsWrapped<T>(cal: Calendar<T>, date: T, shown: DateField, field: DateField)
    ensures Part(cal, date, shown, true, field) == Highlight + cal.format(date, shown) + HighlightOff
      <==> shown == field
  {
  }

  /** Removing the highlight escapes from the drawn timestamp gives back the
      plain layout, whenever the components print without escapes. */
  lemma UnhighlightIsPlain<T>(cal: Calendar<T>, date: T, isActive: bool, field: DateField)
    requires forall f: DateField :: EscapeFree(cal.format(date, f))
    ensures Unhighlight(FormatDateWithHighlight(cal, date, isActive, field)) == FormatTime(cal, date)
  {
    var tail := Part(cal, date, Year, isActive, field)
      + ("-" + (Part(cal, date, Month, isActive, field) + ("-" + Part(cal, date, Day, isActive, field))));
    var plainTail := cal.format(date, Year) + ("-" + (cal.format(date, Month) + ("-" + cal.format(date, Day))));
    assert EscapeFree(cal.format(date, Year)) && EscapeFree(cal.format(date, Month)) && EscapeFree(cal.format(date, Day));
    UnhighlightDate(cal, date, isActive, field);
    var fh := cal.format(date, Hour);
    var fm := cal.format(date, Minute);
    assert EscapeFree(fh) && EscapeFree(fm);
    UnhighlightClock(cal, date, isActive, field, tail, plainTail);
  }

  /** The date half, `YYYY-MM-DD`, of the drawn timestamp. */
  lemma UnhighlightDate<T>(cal: Calendar<T>, date: T, isActive: bool, field: DateField)
    requires EscapeFree(cal.format(date, Year)) && EscapeFree(cal.format(date, Month)) && EscapeFree(cal.format(date, Day))
    ensures Unhighlight(Part(cal, date, Year, isActive, field)
      + ("-" + (Part(cal, date, Month, isActive, field) + ("-" + Part(cal, date, Day, isActive, field)))))
      == cal.format(date, Year) + ("-" + (cal.format(date, Month) + ("-" + cal.format(date, Day))))
  {
    var d := Part(cal, date, Day, isActive, field);
    var r5 := "-" + d;
    var r4 := Part(cal, date, Month, isActive, field) + r5;
    var r3 := "-" + r4;
    assert EscapeFree("") && EscapeFree("-");
    assert d + "" == d;
    UnhighlightPart(cal, date, Day, isActive, field, "");
    UnhighlightAppend("-", d);
    UnhighlightPart(cal, date, Month, isActive, field, r5);
    UnhighlightAppend("-", r4);
    UnhighlightPart(cal, date, Year, isActive, field, r3);
  }

  /** The clock half, `HH:mm `, in front of an already unhighlighted date. */
  lemma UnhighlightClock<T>(cal: Calendar<T>, date: T, isActive: bool, field: DateField, tail: string, plainTail: string)
    requires EscapeFree(cal.format(date, Hour)) && EscapeFree(cal.format(date, Minute))
    requires Unhighlight(tail) == plainTail
    ensures Unhighlight(Part(cal, date, Hour, isActive, field)
      + (":" + (Part(cal, date, Minute, isActive, field) + (" " + tail))))
      == cal.format(date, Hour) + (":" + (cal.format(date, Minute) + (" " + plainTail)))
  {
    var r1 := " " + tail;
    var r0 := Part(cal, date, Minute, isActive, field) + r1;
    assert EscapeFree(" ") && EscapeFree(":");
    UnhighlightAppend(" ", tail);
    UnhighlightPart(cal, date, Minute, isActive, field, r1);
    UnhighlightAppend(":", r0);
    UnhighlightPart(cal, date, Hour, isActive, field, ":" + r0);
  }

  // ---------------------------------------------------------------------
  // The keystroke transition

  /** The editor can focus the end-time field only while there is an end time. */
  ghost predicate Focusable<T>(s: State<T>) {
    s.field == EndTime ==> s.end.Some?
  }

  /** The invariant the editor keeps between keystrokes. */
  ghost predicate Inv<T>(s: State<T>) {
    && Focusable(s)
    && IsDigits(s.buffer)
    && |s.buffer| < Capacity(s.dateField)
    && (s.field == Description ==> s.buffer == "")
    && s.status != Loading
    && (s.status == Done <==> s.result.Some?)
  }

  /** The timestamp the focused date field edits. */
  function CurrentDate<T>(s: State<T>): T
    requires s.field != Description && Focusable(s)
  {
    if s.field == StartTime then s.start else s.end.value
  }

  /** Stores a new value of the focused timestamp and re-runs the ordering
      check; the error is set or cleared accordingly. */
  function StoreDate<T>(cal: Calendar<T>, s: State<T>, date: T): (r: State<T>)
    requires s.field != Description
    ensures r.errorMsg.Some? <==> r.end.Some? && cal.isBefore(r.end.value, r.start)
    ensures r.errorMsg.Some? ==> r.errorMsg.value == EndBeforeStart
  {
    if s.field == StartTime then
      var v := ValidateTimes(cal, date, s.end);
      s.(start := date, errorMsg := if v.Message? then Some(v.text) else None)
    else
      var v := ValidateTimes(cal, s.start, Some(date));
      s.(end := Some(date), errorMsg := if v.Message? then Some(v.text) else None)
  }

  predicate IsDigitKey(k: Key) {
    |k.sequence| == 1 && IsDigit(k.sequence[0])
  }

  predicate IsEnterKey(k: Key) {
    k.name == Return || k.name == Enter
  }

  /** A key while the description field has focus. */
  function DescriptionStep<T>(cal: Calendar<T>, required: bool, s: State<T>, key: Key): State<T> {
    if IsEnterKey(key) then
      if s.description == "" && required then s.(errorMsg := Some(DescriptionRequired))
      else
        var endText := if s.end.Some? then Some(FormatTime(cal, s.end.value)) else None;
        s.(status := Done, result := Some(EditResult(FormatTime(cal, s.start), endText, s.description)))
    else if key.name == Tab then s.(field := StartTime, dateField := Hour)
    else if key.name == Left then s.(field := if s.end.Some? then EndTime else StartTime, dateField := Minute)
    else if key.name == Backspace then
      if |s.description| > 0 then s.(description := DropLast(s.description)) else s
    else if key.sequence != "" then s.(description := s.description + key.sequence)
    else s
  }

  /** Moves forward from a date field (Return, Tab, or Right on the day). */
  function Forward<T>(s: State<T>): State<T> {
    var next := NextField(s.field, s.end.Some?);
    s.(buffer := "", field := next, dateField := if IsDateEditingField(next) then Hour else s.dateField)
  }

  /** Moves backward from a date field (Left on the hour). */
  function Backward<T>(s: State<T>): State<T> {
    var prev := PreviousField(s.field, s.end.Some?);
    s.(buffer := "", field := prev, dateField := if IsDateEditingField(prev) then Day else s.dateField)
  }

  /** Backspace in a date field. */
  function DateBackspace<T>(s: State<T>): State<T> {
    if |s.buffer| > 0 then s.(buffer := DropLast(s.buffer))
    else if s.field == EndTime && s.end.None? then s.(field := StartTime, dateField := Year)
    else s
  }

  /** A key while a date field has focus. */
  function DateStep<T>(cal: Calendar<T>, s: State<T>, key: Key): State<T>
    requires s.field != Description && Focusable(s)
  {
    if key.name == Return || key.name == Tab then Forward(s)
    else if key.name == Left then
      var i := IndexOf(s.dateField);
      if i == 0 then Backward(s) else s.(buffer := "", dateField := DateFields[i - 1])
    else if key.name == Right then
      var i := IndexOf(s.dateField);
      if i == |DateFields| - 1 then Forward(s) else s.(buffer := "", dateField := DateFields[i + 1])
    else if key.name == Up || key.name == Down then
      var amount := (if key.name == Up then 1 else -1) * (if key.shift then 10 else 1);
      StoreDate(cal, s.(buffer := ""), AdjustDateField(cal, s.dateField, amount, CurrentDate(s)))
    else if key.name == Backspace then DateBackspace(s)
    else if IsDigitKey(key) then
      var entry := HandleDateFieldInput(cal, s.buffer, key.sequence, s.dateField, CurrentDate(s));
      if entry.1.Some? then StoreDate(cal, s.(buffer := entry.0), entry.1.value)
      else s.(buffer := entry.0)
    else s
  }

  /** The whole effect of one keypress on the session. */
  function Step<T>(cal: Calendar<T>, required: bool, s: State<T>, key: Key): State<T>
    requires Focusable(s)
  {
    var s := s.(hasInitialized := true);
    if s.status != Idle then s
    else if !IsDateEditingField(s.field) then DescriptionStep(cal, required, s, key)
    else DateStep(cal, s, key)
  }

  // ---------------------------------------------------------------------
  // Properties of the transition

  /** Every keystroke keeps the invariant: the focus never rests on a missing
      end time, the buffer holds fewer digits than the active component
      takes and is empty in the description field, and `done` has been
      called exactly when the phase is done. */
  lemma StepKeepsInv<T>(cal: Calendar<T>, required: bool, s: State<T>, key: Key)
    requires Inv(s)
    ensures Inv(Step(cal, required, s, key))
  {
    var t := s.(hasInitialized := true);
    if t.status == Idle {
      if t.field == Description {
        assert Inv(DescriptionStep(cal, required, t, key));
      } else {
        DateStepKeepsInv(cal, t, key);
      }
    }
  }

  lemma DateStepKeepsInv<T>(cal: Calendar<T>, s: State<T>, key: Key)
    requires Inv(s) && s.status == Idle && s.field != Description
    ensures Inv(DateStep(cal, s, key))
  {
    if key.name == Return || key.name == Tab || key.name == Left || key.name == Right {
      DateMoveKeepsInv(cal, s, key);
    } else if key.name == Up || key.name == Down {
      DateAdjustKeepsInv(cal, s, key);
    } else if key.name == Backspace {
      if |s.buffer| > 0 {
        assert DropLast(s.buffer) == s.buffer[..|s.buffer| - 1];
      }
    } else if IsDigitKey(key) {
      DateDigitKeepsInv(cal, s, key);
    }
  }

  lemma DateMoveKeepsInv<T>(cal: Calendar<T>, s: State<T>, key: Key)
    requires Inv(s) && s.status == Idle && s.field != Description
    requires key.name == Return || key.name == Tab || key.name == Left || key.name == Right
    ensures Inv(DateStep(cal, s, key))
  {
  }

  lemma DateAdjustKeepsInv<T>(cal: Calendar<T>, s: State<T>, key: Key)
    requires Inv(s) && s.status == Idle && s.field != Description
    requires key.name == Up || key.name == Down
    ensures Inv(DateStep(cal, s, key))
  {
  }

  lemma DateDigitKeepsInv<T>(cal: Calendar<T>, s: State<T>, key: Key)
    requires Inv(s) && s.status == Idle && s.field != Description
    requires key.name != Return && key.name != Tab && key.name != Left && key.name != Right
    requires key.name != Up && key.name != Down && key.name != Backspace && IsDigitKey(key)
    ensures Inv(DateStep(cal, s, key))
  {
    var typed := s.buffer + key.sequence;
    assert IsDigits(typed);
    if |typed| == Capacity(s.dateField) {
      ParseIntOfDigits(typed);
    }
  }

  /** With no end time there never is one and the end-time field is never
      focused, so the Backspace branch that moves away from a missing end
      time cannot be taken. */
  lemma NoEndStaysUnfocused<T>(cal: Calendar<T>, required: bool, s: State<T>, key: Key)
    requires Inv(s) && s.end.None?
    ensures Step(cal, required, s, key).end.None?
    ensures Step(cal, required, s, key).field != EndTime
    ensures !(s.field == EndTime && s.end.None?)
  {
  }

  /** Forward navigation — Tab anywhere, Return in a date field, Right on the
      day — moves to the next field, lands on the hour of a date field, and
      empties the buffer. */
  lemma ForwardMove<T>(cal: Calendar<T>, required: bool, s: State<T>, key: Key)
    requires Inv(s) && s.status == Idle
    requires key.name == Tab
      || (key.name == Return && s.field != Description)
      || (key.name == Right && s.field != Description && s.dateField == Day)
    ensures var t := Step(cal, required, s, key);
      && t.field == NextField(s.field, s.end.Some?)
      && (t.field != Description ==> t.dateField == Hour)
      && t.buffer == ""
      && t.start == s.start && t.end == s.end && t.description == s.description
      && t.errorMsg == s.errorMsg && t.status == Idle
  {
  }

  /** Backward navigation: Left on the hour moves to the previous field and
      lands on its day; Left in the description lands on the minute of the
      end time, or of the start time when there is no end time. */
  lemma BackwardMove<T>(cal: Calendar<T>, required: bool, s: State<T>, key: Key)
    requires Inv(s) && s.status == Idle && key.name == Left
    requires s.field == Description || s.dateField == Hour
    ensures var t := Step(cal, required, s, key);
      && t.field == PreviousField(s.field, s.end.Some?)
      && t.dateField == (if s.field == Description then Minute
                         else if t.field == Description then s.dateField
                         else Day)
      && t.buffer == ""
      && t.start == s.start && t.end == s.end && t.description == s.description
      && t.errorMsg == s.errorMsg && t.status == Idle && t.result == s.result
  {
  }

  /** Left and Right inside a date field step through hour, minute, year,
      month, day, emptying the buffer. */
  lemma WithinFieldMove<T>(cal: Calendar<T>, required: bool, s: State<T>, key: Key)
    requires Inv(s) && s.status == Idle && s.field != Description
    requires (key.name == Left && s.dateField != Hour) || (key.name == Right && s.dateField != Day)
    ensures var t := Step(cal, required, s, key);
      && t.field == s.field && t.buffer == ""
      && IndexOf(t.dateField) == IndexOf(s.dateField) + (if key.name == Right then 1 else -1)
      && t == s.(hasInitialized := true, buffer := "", dateField := t.dateField)
  {
  }

  /** A digit below capacity only grows the buffer; the digit that completes
      it writes the parsed value (the month less one) into the active
      component of the focused timestamp, empties the buffer and re-runs the
      ordering check. */
  lemma DigitEntry<T>(cal: Calendar<T>, required: bool, s: State<T>, key: Key)
    requires Inv(s) && s.status == Idle && s.field != Description
    requires key.name == Other && IsDigitKey(key)
    ensures var t := Step(cal, required, s, key);
      var typed := s.buffer + key.sequence;
      if |typed| < Capacity(s.dateField) then
        t == s.(hasInitialized := true, buffer := typed)
      else
        var value := DecimalValue(typed);
        && t.buffer == ""
        && t.field == s.field && t.dateField == s.dateField
        && t.description == s.description && t.status == Idle && t.result == s.result && t.hasInitialized
        && (s.field == StartTime ==> t.start == SetComponent(cal, s.start, s.dateField, value) && t.end == s.end)
        && (s.field == EndTime ==> t.end == Some(SetComponent(cal, s.end.value, s.dateField, value)) && t.start == s.start)
        && (t.errorMsg.Some? <==> t.end.Some? && cal.isBefore(t.end.value, t.start))
  {
    var typed := s.buffer + key.sequence;
    assert IsDigits(typed);
    if |typed| >= Capacity(s.dateField) {
      DigitCompletes(cal, required, s, key, typed);
    }
  }

  /** The digit that fills the buffer stores the parsed component through
      `StoreDate`. */
  lemma DigitCompletes<T>(cal: Calendar<T>, required: bool, s: State<T>, key: Key, typed: string)
    requires Inv(s) && s.status == Idle && s.field != Description
    requires key.name == Other && IsDigitKey(key)
    requires typed == s.buffer + key.sequence && IsDigits(typed) && |typed| >= Capacity(s.dateField)
    ensures Step(cal, required, s, key)
      == StoreDate(cal, s.(hasInitialized := true, buffer := ""), SetComponent(cal, CurrentDate(s), s.dateField, DecimalValue(typed)))
  {
    ParseIntOfDigits(typed);
    var u := s.(hasInitialized := true);
    var entry := HandleDateFieldInput(cal, u.buffer, key.sequence, u.dateField, CurrentDate(u));
    assert entry == ("", Some(SetComponent(cal, CurrentDate(s), s.dateField, DecimalValue(typed))));
    DateStepOnDigit(cal, u, key);
    assert Step(cal, required, s, key) == DateStep(cal, u, key);
  }

  /** A digit key in a date field goes through `HandleDateFieldInput`. */
  lemma DateStepOnDigit<T>(cal: Calendar<T>, u: State<T>, key: Key)
    requires u.field != Description && Focusable(u)
    requires key.name == Other && IsDigitKey(key)
    ensures var entry := HandleDateFieldInput(cal, u.buffer, key.sequence, u.dateField, CurrentDate(u));
      DateStep(cal, u, key) == if entry.1.Some? then StoreDate(cal, u.(buffer := entry.0), entry.1.value) else u.(buffer := entry.0)
  {
  }

  /** Up and Down shift the active component of the focused timestamp by one,
      or by ten with shift, always store the result, and set the ordering
      error exactly when an end time lies before the start. */
  lemma Adjustment<T>(cal: Calendar<T>, required: bool, s: State<T>, key: Key)
    requires Inv(s) && s.status == Idle && s.field != Description
    requires key.name == Up || key.name == Down
    ensures var t := Step(cal, required, s, key);
      var amount := (if key.name == Up then 1 else -1) * (if key.shift then 10 else 1);
      && t.buffer == "" && t.field == s.field && t.dateField == s.dateField
      && (s.field == StartTime ==> t.start == cal.add(s.start, s.dateField, amount) && t.end == s.end)
      && (s.field == EndTime ==> t.end == Some(cal.add(s.end.value, s.dateField, amount)) && t.start == s.start)
      && (t.errorMsg == if t.end.Some? && cal.isBefore(t.end.value, t.start) then Some(EndBeforeStart) else None)
      && t.description == s.description && t.status == Idle && t.result == s.result
  {
  }

  /** Backspace in a date field drops the last buffered digit; other keys
      that are neither navigation, adjustment nor digits change nothing. */
  lemma DateFieldOtherKeys<T>(cal: Calendar<T>, required: bool, s: State<T>, key: Key)
    requires Inv(s) && s.status == Idle && s.field != Description
    requires key.name in {Backspace, Enter, Other} && !IsDigitKey(key)
    ensures var t := Step(cal, required, s, key);
      t == s.(hasInitialized := true, buffer := if key.name == Backspace then DropLast(s.buffer) else s.buffer)
  {
  }

  /** Return (or line feed) in the description field submits. An empty
      description that is required sets the error and stays idle; otherwise
      the prompt is done with the formatted times and the description,
      whatever ordering error is showing. */
  lemma Submit<T>(cal: Calendar<T>, required: bool, s: State<T>, key: Key)
    requires Inv(s) && s.status == Idle && s.field == Description && IsEnterKey(key)
    ensures var t := Step(cal, required, s, key);
      if s.description == "" && required then
        t == s.(hasInitialized := true, errorMsg := Some(DescriptionRequired))
      else
        && t.status == Done
        && t.result == Some(EditResult(FormatTime(cal, s.start),
                                       if s.end.Some? then Some(FormatTime(cal, s.end.value)) else None,
                                       s.description))
        && t.errorMsg == s.errorMsg
  {
  }

  /** Only the description field submits: Return in a date field navigates. */
  lemma DateFieldsNeverSubmit<T>(cal: Calendar<T>, required: bool, s: State<T>, key: Key)
    requires Inv(s) && s.status == Idle && s.field != Description
    ensures Step(cal, required, s, key).status == Idle
  {
  }

  /** Once done, every key is ignored. */
  lemma DoneIsTerminal<T>(cal: Calendar<T>, required: bool, s: State<T>, key: Key)
    requires Inv(s) && s.status == Done
    ensures Step(cal, required, s, key) == s.(hasInitialized := true)
  {
  }

  /** Editing the description: Backspace removes the last character and does
      nothing to an empty description; a key with a character sequence
      appends it (arrow keys included); focus stays put. */
  lemma DescriptionEditing<T>(cal: Calendar<T>, required: bool, s: State<T>, key: Key)
    requires Inv(s) && s.status == Idle && s.field == Description
    requires key.name in {Right, Up, Down, Backspace, Other}
    ensures var t := Step(cal, required, s, key);
      && t.field == Description && t.buffer == ""
      && t.description == (if key.name == Backspace then DropLast(s.description)
                           else s.description + key.sequence)
      && t.start == s.start && t.end == s.end && t.errorMsg == s.errorMsg
      && t.status == Idle && t.result == s.result
  {
  }

  /** The state after a sequence of keys. */
  function Run<T>(cal: Calendar<T>, required: bool, s: State<T>, keys: seq<Key>): (r: State<T>)
    requires Inv(s)
    ensures Inv(r)
    decreases |keys|
  {
    if keys == [] then s
    else
      StepKeepsInv(cal, required, s, keys[0]);
      Run(cal, required, Step(cal, required, s, keys[0]), keys[1..])
  }

  function TabKeys(n: nat): (r: seq<Key>)
    ensures |r| == n && forall i :: 0 <= i < n ==> r[i] == Key(Tab, false, "\t")
  {
    if n == 0 then [] else [Key(Tab, false, "\t")] + TabKeys(n - 1)
  }

  lemma {:induction false} RunCons<T>(cal: Calendar<T>, required: bool, s: State<T>, k: Key, ks: seq<Key>)
    requires Inv(s)
    ensures Inv(Step(cal, required, s, k))
    ensures Run(cal, required, s, [k] + ks) == Run(cal, required, Step(cal, required, s, k), ks)
  {
    StepKeepsInv(cal, required, s, k);
    assert ([k] + ks)[1..] == ks;
  }

  /** Tab cycles through the fields: three presses from the start time return
      to its hour when there is an end time, two when there is none, and
      nothing but the focus changes. */
  lemma {:induction false} TabCycle<T>(cal: Calendar<T>, required: bool, s: State<T>)
    requires Inv(s) && s.status == Idle && s.field == StartTime
    ensures var n := if s.end.Some? then 3 else 2;
      var t := Run(cal, required, s, TabKeys(n));
      t == s.(hasInitialized := true, dateField := Hour, buffer := "")
  {
    var tab := Key(Tab, false, "\t");
    var s1 := Step(cal, required, s, tab);
    RunCons(cal, required, s, tab, TabKeys(if s.end.Some? then 2 else 1));
    var s2 := Step(cal, required, s1, tab);
    if s.end.Some? {
      RunCons(cal, required, s1, tab, TabKeys(1));
      RunCons(cal, required, s2, tab, TabKeys(0));
    } else {
      RunCons(cal, required, s1, tab, TabKeys(0));
    }
  }

  // ---------------------------------------------------------------------
  // The prompt object

  /** The editor session. Its fields are the prompt's state cells; `result`
      is what was handed to `done`. */
  class RangeEditor<T> {
    const cal: Calendar<T>
    const required: bool
    var status: Status
    var errorMsg: Option<string>
    var currentField: Field
    var currentDateField: DateField
    var startTime: T
    var endTime: Option<T>
    var description: string
    var hasInitialized: bool
    var editBuffer: string
    var result: Option<EditResult>

    function Snapshot(): State<T>
      reads this
    {
      State(status, errorMsg, currentField, currentDateField, startTime, endTime,
            description, hasInitialized, editBuffer, result)
    }

    ghost predicate Valid()
      reads this
    {
      Inv(Snapshot())
    }

    /** A fresh session: idle, focus on the start hour, empty buffer, no
        error; `required` defaults to true. */
    constructor (cal: Calendar<T>, startTime: T, endTime: Option<T>, description: string, required: Option<bool>)
      ensures Valid()
      ensures this.cal == cal && this.required == required.GetOr(true)
      ensures Snapshot() == State(Idle, None, StartTime, Hour, startTime, endTime, description, false, "", None)
    {
      this.cal := cal;
      this.required := required.GetOr(true);
      status := Idle;
      errorMsg := None;
      currentField := StartTime;
      currentDateField := Hour;
      this.startTime := startTime;
      this.endTime := endTime;
      this.description := description;
      hasInitialized := false;
      editBuffer := "";
      result := None;
    }

    /** Writes a new value of the focused timestamp and the ordering error. */
    method StoreFocused(date: T)
      requires currentField != Description
      modifies this
      ensures Snapshot() == StoreDate(cal, old(Snapshot()), date)
    {
      if currentField == StartTime {
        startTime := date;
        if endTime.Some? {
          var isValid := ValidateTimes(cal, date, endTime);
          if isValid.Message? {
            errorMsg := Some(isValid.text);
            return;
          }
        }
      } else {
        endTime := Some(date);
        var isValid := ValidateTimes(cal, startTime, Some(date));
        if isValid.Message? {
          errorMsg := Some(isValid.text);
          return;
        }
      }
      errorMsg := None;
    }

    /** Handles one keypress. */
    method Keypress(key: Key)
      requires Valid()
      modifies this
      ensures Valid()
      ensures Snapshot() == Step(cal, required, old(Snapshot()), key)
    {
      StepKeepsInv(cal, required, Snapshot(), key);
      if !hasInitialized {
        hasInitialized := true;
      }
      if status != Idle {
        return;
      }
      if !IsDateEditingField(currentField) {
        DescriptionKeypress(key);
      } else {
        DateKeypress(key);
      }
    }

    /** A key while the description field has focus. */
    method DescriptionKeypress(key: Key)
      modifies this
      ensures Snapshot() == DescriptionStep(cal, required, old(Snapshot()), key)
    {
      if IsEnterKey(key) {
        if description == "" && required {
          errorMsg := Some(DescriptionRequired);
          return;
        }
        status := Done;
        var endText := if endTime.Some? then Some(FormatTime(cal, endTime.value)) else None;
        result := Some(EditResult(FormatTime(cal, startTime), endText, description));
      } else if key.name == Tab {
        currentField := StartTime;
        currentDateField := Hour;
      } else if key.name == Left {
        currentField := if endTime.Some? then EndTime else StartTime;
        currentDateField := Minute;
      } else if key.name == Backspace {
        if |description| > 0 {
          description := DropLast(description);
        }
      } else if key.sequence != "" {
        description := description + key.sequence;
      }
    }

    /** A key while a date field has focus. */
    method DateKeypress(key: Key)
      requires currentField != Description && Focusable(Snapshot())
      modifies this
      ensures Snapshot() == DateStep(cal, old(Snapshot()), key)
    {
      if key.name == Return || key.name == Tab || key.name == Left || key.name == Right {
        MoveKeypress(key);
      } else {
        EditKeypress(key);
      }
    }

    /** Return, Tab, Left and Right in a date field: move between components
        and fields, dropping the buffer. */
    method MoveKeypress(key: Key)
      requires currentField != Description && Focusable(Snapshot())
      requires key.name == Return || key.name == Tab || key.name == Left || key.name == Right
      modifies this
      ensures Snapshot() == DateStep(cal, old(Snapshot()), key)
    {
      if key.name == Return || key.name == Tab {
        editBuffer := "";
        var nextField := NextField(currentField, endTime.Some?);
        currentField := nextField;
        if IsDateEditingField(nextField) {
          currentDateField := Hour;
        }
      } else if key.name == Left {
        editBuffer := "";
        var currentIndex := IndexOf(currentDateField);
        if currentIndex == 0 {
          var prevField := PreviousField(currentField, endTime.Some?);
          currentField := prevField;
          if IsDateEditingField(prevField) {
            currentDateField := Day;
          }
        } else {
          currentDateField := DateFields[currentIndex - 1];
        }
      } else {
        editBuffer := "";
        var currentIndex := IndexOf(currentDateField);
        if currentIndex == |DateFields| - 1 {
          var nextField := NextField(currentField, endTime.Some?);
          currentField := nextField;
          if IsDateEditingField(nextField) {
            currentDateField := Hour;
          }
        } else {
          currentDateField := DateFields[currentIndex + 1];
        }
      }
    }

    /** Up, Down, Backspace and digits in a date field: change the focused
        timestamp or the buffer. */
    method EditKeypress(key: Key)
      requires currentField != Description && Focusable(Snapshot())
      requires !(key.name == Return || key.name == Tab || key.name == Left || key.name == Right)
      modifies this
      ensures Snapshot() == DateStep(cal, old(Snapshot()), key)
    {
      var isStartTime := currentField == StartTime;
      var currentDate := if isStartTime then startTime else endTime.value;
      if key.name == Up || key.name == Down {
        editBuffer := "";
        var amount := if key.name == Up then 1 else -1;
        var multiplier := if key.shift then 10 else 1;
        var newDate := AdjustDateField(cal, currentDateField, amount * multiplier, currentDate);
        StoreFocused(newDate);
      } else if key.name == Backspace {
        BackspaceKeypress();
      } else if IsDigitKey(key) {
        var entry := HandleDateFieldInput(cal, editBuffer, key.sequence, currentDateField, currentDate);
        editBuffer := entry.0;
        if entry.1.Some? {
          StoreFocused(entry.1.value);
        }
      }
    }

    /** Backspace in a date field: drop the last buffered digit, or leave an
        end-time field that has no end time. */
    method BackspaceKeypress()
      requires currentField != Description
      modifies this
      ensures Snapshot() == DateBackspace(old(Snapshot()))
    {
      if |editBuffer| > 0 {
        editBuffer := DropLast(editBuffer);
      } else if currentField == EndTime && endTime.None? {
        currentField := StartTime;
        currentDateField := Year;
      }
    }
  }
}
