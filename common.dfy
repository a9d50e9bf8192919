/** Small value types shared by the prompts, the stores and the command code. */
module Common {

  /** A value that may be absent: JavaScript's `undefined` / `null`. */
  datatype Option<+T> = None | Some(value: T) {
    function GetOr(default: T): T {
      match this
      case Some(v) => v
      case None => default
    }
  }

  /** A value or the message of the error the source throws. */
  datatype Result<+T> = Ok(value: T) | Err(message: string)

  /** What a prompt validator returns: `true`, `false`, or a message to show. */
  datatype Verdict = Accept | Reject | Message(text: string)

  /** The phase of an interactive prompt (the prompt toolkit's `Status`). */
  datatype Status = Idle | Loading | Done

  /** JavaScript truthiness of an optional number: present and not zero. */
  predicate Truthy(n: Option<int>) {
    n.Some? && n.value != 0
  }

  /** JavaScript truthiness of an optional string: present and not empty. */
  predicate TruthyString(s: Option<string>) {
    s.Some? && s.value != ""
  }
}
