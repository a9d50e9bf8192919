/** A single-line text prompt that starts from an initial value. Enter moves
    it to loading while the validator runs; acceptance finishes the prompt,
    failure shows an error and returns to idle. The readline line buffer is
    an input: every keypress carries the line as readline holds it. */
module InputWithValue {
  import opened Common

  const ValueRequired := "You must provide a value"
  const InvalidValue := "You must provide a valid value"

  /** The keys the handler tells apart. */
  datatype PromptKey = EnterKey | BackspaceKey | OtherKey

  /** What validation failure does to the value. */
  datatype FailureMode = Keep | Clear

  /** The prompt's configuration, each part possibly omitted. */
  datatype PromptConfig = PromptConfig(
    initial: Option<string>,
    required: Option<bool>,
    validate: Option<string -> Verdict>,
    mode: Option<FailureMode>)

  /** The session: the prompt's cells, the line the handler leaves in
      readline, the answer awaiting validation together with the value the
      handler saw when Enter was pressed, and the answer passed to `done`. */
  datatype PromptState = PromptState(
    status: Status,
    errorMsg: Option<string>,
    value: string,
    hasInitialized: bool,
    line: string,
    pending: Option<string>,
    seenValue: string,
    answer: Option<string>)

  /** `config.value || ''`. */
  function InitialValue(cfg: PromptConfig): (v: string)
    ensures cfg.initial.Some? ==> v == cfg.initial.value
    ensures cfg.initial.None? ==> v == ""
  {
    cfg.initial.GetOr("")
  }

  /** `required = false` by default. */
  function IsRequired(cfg: PromptConfig): (r: bool)
    ensures cfg.required.Some? ==> r == cfg.required.value
    ensures cfg.required.None? ==> !r
  {
    cfg.required.GetOr(false)
  }

  /** The validator, `() => true` when none is given. */
  function Validator(cfg: PromptConfig): (v: string -> Verdict)
    ensures cfg.validate.Some? ==> v == cfg.validate.value
    ensures cfg.validate.None? ==> forall a :: v(a) == Accept
  {
    cfg.validate.GetOr((_: string) => Accept)
  }

  /** The failure mode, `keep` by default. */
  function Mode(cfg: PromptConfig): (m: FailureMode)
    ensures cfg.mode.Some? ==> m == cfg.mode.value
    ensures cfg.mode.None? ==> m == Keep
  {
    cfg.mode.GetOr(Keep)
  }

  /** The state before any keypress. */
  function Initial(cfg: PromptConfig): (s: PromptState)
    ensures s.status == Idle && s.value == InitialValue(cfg) && s.errorMsg.None? && !s.hasInitialized
  {
    PromptState(Idle, None, InitialValue(cfg), false, "", None, "", None)
  }

  /** The invariant: loading exactly while an answer awaits validation, done
      exactly once `done` has been called, and then with the value shown. */
  ghost predicate Inv(s: PromptState) {
    && (s.status == Loading <==> s.pending.Some?)
    && (s.status == Done <==> s.answer.Some?)
    && (s.status == Done ==> s.value == s.answer.value)
    && (s.status != Idle ==> s.hasInitialized)
  }

  /** The message a failed validation shows: a non-empty string result as
      it is, anything else as the generic message. */
  function FailureMessage(v: Verdict): (m: string)
    ensures m != ""
    ensures v.Message? && v.text != "" ==> m == v.text
    ensures !(v.Message? && v.text != "") ==> m == InvalidValue
  {
    if v.Message? && v.text != "" then v.text else InvalidValue
  }

  /** Validation failed with `msg`: clear mode empties the value, keep mode
      writes the value seen at Enter back into the line; then idle. */
  function Fail(cfg: PromptConfig, s: PromptState, msg: string, seen: string): (r: PromptState)
    ensures r.status == Idle && r.errorMsg == Some(msg) && r.pending.None? && r.answer == s.answer
    ensures Mode(cfg) == Clear ==> r.value == "" && r.line == s.line
    ensures Mode(cfg) == Keep ==> r.value == s.value && r.line == s.line + seen
  {
    var s := if Mode(cfg) == Clear then s.(value := "") else s.(line := s.line + seen);
    s.(errorMsg := Some(msg), status := Idle, pending := None)
  }

  /** The line as the handler finds it is recorded; the first keypress
      seeds the line with the initial value, when there is one. */
  function Seed(cfg: PromptConfig, s: PromptState, line: string): PromptState {
    var s := s.(line := line);
    if s.hasInitialized then s
    else if InitialValue(cfg) != "" then s.(hasInitialized := true, value := "", line := InitialValue(cfg) + line)
    else s.(hasInitialized := true)
  }

  /** The key's own effect, where `seen` is the value when the handler
      started. */
  function HandleKey(cfg: PromptConfig, s: PromptState, key: PromptKey, seen: string): PromptState {
    if s.status != Idle then s
    else if key == EnterKey then
      var ans := if s.line != "" then s.line else seen;
      var s := s.(status := Loading);
      if IsRequired(cfg) && ans == "" then Fail(cfg, s, ValueRequired, seen)
      else s.(pending := Some(ans), seenValue := seen)
    else if key == BackspaceKey && seen == "" then s.(value := "")
    else s.(value := s.line, errorMsg := None)
  }

  /** One keypress; `line` is readline's line as the handler finds it. */
  function KeyStep(cfg: PromptConfig, s: PromptState, key: PromptKey, line: string): PromptState {
    HandleKey(cfg, Seed(cfg, s, line), key, s.value)
  }

  /** The validator's verdict on the pending answer arrives. */
  function SettleStep(cfg: PromptConfig, s: PromptState): PromptState
    requires s.pending.Some?
  {
    var ans := s.pending.value;
    var verdict := Validator(cfg)(ans);
    if verdict == Accept then s.(value := ans, status := Done, answer := Some(ans), pending := None)
    else Fail(cfg, s, FailureMessage(verdict), s.seenValue)
  }

  // ---------------------------------------------------------------------
  // Properties

  lemma KeyStepKeepsInv(cfg: PromptConfig, s: PromptState, key: PromptKey, line: string)
    requires Inv(s)
    ensures Inv(KeyStep(cfg, s, key, line))
  {
  }

  lemma SettleKeepsInv(cfg: PromptConfig, s: PromptState)
    requires Inv(s) && s.status == Loading
    ensures Inv(SettleStep(cfg, s))
  {
  }

  /** On the first keypress with an initial value the line becomes the
      initial value followed by what had been typed; Enter as that first
      key submits it for validation. */
  lemma FirstKeySeeds(cfg: PromptConfig, s: PromptState, key: PromptKey, line: string)
    requires !s.hasInitialized && s.status == Idle && InitialValue(cfg) != ""
    ensures var t := KeyStep(cfg, s, key, line);
      t.hasInitialized && t.line == InitialValue(cfg) + line
      && (key == OtherKey ==> t.value == InitialValue(cfg) + line)
      && (key == EnterKey ==> t.status == Loading && t.pending == Some(InitialValue(cfg) + line))
  {
  }

  /** While loading or done a keypress changes nothing but the line. */
  lemma BusyIgnoresKeys(cfg: PromptConfig, s: PromptState, key: PromptKey, line: string)
    requires s.hasInitialized && s.status != Idle
    ensures KeyStep(cfg, s, key, line) == s.(line := line)
  {
  }

  /** Enter on an empty line with nothing shown, when a value is required,
      fails at once with the required-value message and never calls `done`.
      This and the next lemmas also cover the first keypress of a prompt
      without an initial value, which only sets the initialised flag. */
  lemma RequiredEmptyAnswer(cfg: PromptConfig, s: PromptState, line: string)
    requires Inv(s) && (s.hasInitialized || InitialValue(cfg) == "") && s.status == Idle && s.answer.None?
    requires IsRequired(cfg) && line == "" && s.value == ""
    ensures var t := KeyStep(cfg, s, EnterKey, line);
      t.status == Idle && t.errorMsg == Some(ValueRequired) && t.answer.None?
  {
  }

  /** Otherwise Enter submits the line, or the value when the line is empty,
      for validation. */
  lemma EnterSubmits(cfg: PromptConfig, s: PromptState, line: string)
    requires (s.hasInitialized || InitialValue(cfg) == "") && s.status == Idle
    requires var ans := if line != "" then line else s.value; !(IsRequired(cfg) && ans == "")
    ensures var t := KeyStep(cfg, s, EnterKey, line);
      t.status == Loading && t.pending == Some(if line != "" then line else s.value)
  {
  }

  /** An accepted answer becomes the value and the prompt's result. */
  lemma AcceptedAnswer(cfg: PromptConfig, s: PromptState)
    requires s.pending.Some? && Validator(cfg)(s.pending.value) == Accept
    ensures var t := SettleStep(cfg, s);
      t.status == Done && t.value == s.pending.value && t.answer == s.pending
  {
  }

  /** A rejected answer returns to idle with the error shown; clear mode
      empties the value and keep mode leaves it. */
  lemma RejectedAnswer(cfg: PromptConfig, s: PromptState)
    requires s.pending.Some? && Validator(cfg)(s.pending.value) != Accept
    ensures var t := SettleStep(cfg, s);
      var v := Validator(cfg)(s.pending.value);
      && t.status == Idle && t.answer == s.answer
      && t.errorMsg == Some(if v.Message? && v.text != "" then v.text else InvalidValue)
      && (Mode(cfg) == Clear ==> t.value == "")
      && (Mode(cfg) == Keep ==> t.value == s.value)
  {
  }

  /** Without a validator every submitted answer is accepted. */
  lemma DefaultAcceptsAll(cfg: PromptConfig, s: PromptState)
    requires cfg.validate.None? && s.pending.Some?
    ensures SettleStep(cfg, s).status == Done
  {
  }

  /** Any key other than Enter, and other than Backspace on an empty value,
      copies the line into the value and clears the error. */
  lemma OtherKeyCopiesLine(cfg: PromptConfig, s: PromptState, key: PromptKey, line: string)
    requires (s.hasInitialized || InitialValue(cfg) == "") && s.status == Idle && key != EnterKey
    requires !(key == BackspaceKey && s.value == "")
    ensures var t := KeyStep(cfg, s, key, line);
      t.value == line && t.errorMsg.None? && t.status == Idle
  {
  }

  /** The value as drawn: through the transformer when one is given, told
      whether the prompt is done; otherwise styled as an answer once done. */
  function RenderValue(transformer: Option<(string, bool) -> string>, answerStyle: string -> string,
                       value: string, status: Status): (r: string)
    ensures transformer.Some? ==> r == transformer.value(value, status == Done)
    ensures transformer.None? && status == Done ==> r == answerStyle(value)
    ensures transformer.None? && status != Done ==> r == value
  {
    if transformer.Some? then transformer.value(value, status == Done)
    else if status == Done then answerStyle(value)
    else value
  }

  // ---------------------------------------------------------------------
  // The prompt's cells

  class InputPrompt {
    const cfg: PromptConfig
    var status: Status
    var errorMsg: Option<string>
    var value: string
    var hasInitialized: bool
    var line: string
    var pending: Option<string>
    var seenValue: string
    var answer: Option<string>

    function Snapshot(): PromptState
      reads this
    {
      PromptState(status, errorMsg, value, hasInitialized, line, pending, seenValue, answer)
    }

    ghost predicate Valid()
      reads this
    {
      Inv(Snapshot())
    }

    constructor (cfg: PromptConfig)
      ensures this.cfg == cfg && Valid()
      ensures Snapshot() == Initial(cfg)
    {
      this.cfg := cfg;
      status := Idle;
      errorMsg := None;
      value := cfg.initial.GetOr("");
      hasInitialized := false;
      line := "";
      pending := None;
      seenValue := "";
      answer := None;
    }

    /** The failure branch of the handler. */
    method FailWith(msg: string, seen: string)
      modifies this
      ensures Snapshot() == Fail(cfg, old(Snapshot()), msg, seen)
    {
      if Mode(cfg) == Clear {
        value := "";
      } else {
        line := line + seen;
      }
      errorMsg := Some(msg);
      status := Idle;
      pending := None;
    }

    /** Handles one keypress up to the point where the validator is awaited. */
    method Keypress(key: PromptKey, currentLine: string)
      requires Valid()
      modifies this
      ensures Valid()
      ensures Snapshot() == KeyStep(cfg, old(Snapshot()), key, currentLine)
    {
      KeyStepKeepsInv(cfg, Snapshot(), key, currentLine);
      var seen := value;
      SeedLine(currentLine);
      if status != Idle {
        return;
      }
      if key == EnterKey {
        var ans := if line != "" then line else seen;
        status := Loading;
        if IsRequired(cfg) && ans == "" {
          FailWith(ValueRequired, seen);
        } else {
          pending := Some(ans);
          seenValue := seen;
        }
      } else if key == BackspaceKey && seen == "" {
        value := "";
      } else {
        value := line;
        errorMsg := None;
      }
    }

    /** Records the line and, on the first keypress, writes the initial
        value in front of what had been typed. */
    method SeedLine(currentLine: string)
      modifies this
      ensures Snapshot() == Seed(cfg, old(Snapshot()), currentLine)
    {
      line := currentLine;
      if !hasInitialized {
        hasInitialized := true;
        var initial := InitialValue(cfg);
        if initial != "" {
          var currentInput := line;
          value := "";
          line := "";
          line := line + initial;
          if currentInput != "" {
            line := line + currentInput;
          } else {
            assert line == initial + currentInput;
          }
        }
      }
    }

    /** The awaited validator returns. */
    method Settle()
      requires Valid() && status == Loading
      modifies this
      ensures Valid()
      ensures Snapshot() == SettleStep(cfg, old(Snapshot()))
    {
      SettleKeepsInv(cfg, Snapshot());
      var ans := pending.value;
      var isValid := Validator(cfg)(ans);
      if isValid == Accept {
        value := ans;
        status := Done;
        answer := Some(ans);
        pending := None;
      } else {
        FailWith(FailureMessage(isValid), seenValue);
      }
    }
  }
}
