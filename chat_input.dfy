/**
 * The chat input box of the web client (WebApp/src/components/ChatInput.tsx):
 * it holds the text being typed and hands a trimmed, non-blank message to
 * the page's `onSendMessage`.
 */
module Input {
  import opened Wrappers
  import opened Strings

  /** A text `onSendMessage` may receive: non-empty, with no whitespace at either end. */
  predicate Sendable(t: string) {
    t != [] && Trimmed(t)
  }

  /**
   * The decision `handleSubmit` takes on the current input: send its
   * trimmed text, or (for whitespace-only input) nothing.
   */
  function Submission(input: string): (r: Option<string>)
    ensures r.None? <==> Blank(input)
    ensures r.Some? ==> Sendable(r.value) && r.value == Trim(input)
  {
    var t := Trim(input);
    if t != "" then Some(t) else None
  }

  /** `disabled={!input.trim()}`: the send button is disabled exactly for whitespace-only input. */
  function SendDisabled(input: string): (r: bool)
    ensures r <==> Blank(input)
  {
    Trim(input) == ""
  }

  /** The button is disabled exactly when a submission would send nothing. */
  lemma DisabledIffNothingSent(input: string)
    ensures SendDisabled(input) <==> Submission(input).None?
  {
  }

  /** The Enter key without Shift submits; Shift+Enter, and every other key, does not. */
  predicate SubmitKey(key: string, shift: bool)
    ensures SubmitKey(key, shift) ==> key == "Enter"
    ensures shift ==> !SubmitKey(key, shift)
    ensures key == "Enter" && !shift ==> SubmitKey(key, shift)
  {
    key == "Enter" && !shift
  }

  /**
   * The component's state: the `input` field, and the messages handed to
   * `onSendMessage` so far, in call order.
   */
  class ChatInput {
    var input: string
    var sent: seq<string>

    /** Everything ever handed to `onSendMessage` was sendable. */
    ghost predicate Valid()
      reads this
    {
      forall i :: 0 <= i < |sent| ==> Sendable(sent[i])
    }

    /** `useState("")`: the box starts empty, nothing sent. */
    constructor ()
      ensures Valid() && input == "" && sent == []
    {
      input := "";
      sent := [];
    }

    /** `onChange`: the input becomes the textarea's new value. */
    method Change(value: string)
      requires Valid()
      modifies this
      ensures Valid() && input == value && sent == old(sent)
    {
      input := value;
    }

    /**
     * `handleSubmit`: whitespace-only input is ignored and kept as it is;
     * otherwise its trimmed text is sent once and the box is cleared.
     */
    method Submit() returns (dispatched: Option<string>)
      requires Valid()
      modifies this
      ensures Valid()
      ensures dispatched == Submission(old(input))
      ensures dispatched.None? ==> input == old(input) && sent == old(sent)
      ensures dispatched.Some? ==> input == "" && sent == old(sent) + [Trim(old(input))]
    {
      var t := Trim(input);
      if t != "" {
        sent := sent + [t];
        input := "";
        dispatched := Some(t);
      } else {
        dispatched := None;
      }
    }

    /** `onKeyDown`: Enter without Shift submits; any other key changes nothing here. */
    method KeyDown(key: string, shift: bool) returns (dispatched: Option<string>)
      requires Valid()
      modifies this
      ensures Valid()
      ensures SubmitKey(key, shift) ==> dispatched == Submission(old(input))
      ensures !SubmitKey(key, shift) ==> dispatched == None && input == old(input) && sent == old(sent)
      ensures dispatched.None? ==> input == old(input) && sent == old(sent)
      ensures dispatched.Some? ==> input == "" && sent == old(sent) + [dispatched.value]
    {
      if key == "Enter" && !shift {
        dispatched := Submit();
      } else {
        dispatched := None;
      }
    }
  }
}
