/**
 * The submit form (QR_Code_Question/src/components/QuestionInput.tsx): one
 * text field and a submit handler. The result of the awaited `onSubmit`
 * callback is a parameter.
 */
module QuestionInput {
  import opened Wrappers
  import opened Strings

  /** The one notification each submit attempt raises. */
  datatype SubmitOutcome =
    | EmptyInputError  // nothing but whitespace was typed; no callback
    | Submitted        // `onSubmit` resolved
    | SubmitFailed     // `onSubmit` rejected

  datatype FormControls = FormControls(textareaDisabled: bool, buttonDisabled: bool)

  /** Both the textarea and the button follow the `isSubmitting` prop. */
  function Controls(isSubmitting: bool): (c: FormControls)
    ensures c.textareaDisabled == isSubmitting && c.buttonDisabled == isSubmitting
  {
    FormControls(isSubmitting, isSubmitting)
  }

  /** The `question` state of the component. */
  class QuestionForm {
    var question: string

    constructor ()
      ensures question == ""
    {
      question := "";
    }

    /** The textarea's `onChange`. */
    method Change(text: string)
      modifies this
      ensures question == text
    {
      question := text;
    }

    /**
     * `handleSubmit`. `sent` is what `onSubmit` was called with, `None` when it
     * was not called; `onSubmitSucceeds` is whether its promise resolves.
     */
    method HandleSubmit(onSubmitSucceeds: bool) returns (outcome: SubmitOutcome, sent: Option<string>)
      modifies this
      ensures Trim(old(question)) == "" ==>
        outcome == EmptyInputError && sent == None && question == old(question)
      ensures Trim(old(question)) != "" ==> sent == Some(Trim(old(question)))
      ensures Trim(old(question)) != "" && onSubmitSucceeds ==> outcome == Submitted && question == ""
      ensures Trim(old(question)) != "" && !onSubmitSucceeds ==> outcome == SubmitFailed && question == old(question)
    {
      if Trim(question) == "" {
        outcome, sent := EmptyInputError, None;
        return;
      }
      sent := Some(Trim(question));
      if onSubmitSucceeds {
        outcome := Submitted;
        question := "";
      } else {
        outcome := SubmitFailed;
      }
    }
  }

  /**
   * What reaches `onSubmit` is never blank, never begins or ends with
   * whitespace, and is the typed text once surrounding whitespace is cut.
   */
  lemma SentTextIsTrimmed(typed: string)
    requires Trim(typed) != ""
    ensures var t := Trim(typed);
      && !IsJsWhitespace(t[0]) && !IsJsWhitespace(t[|t| - 1])
      && Trim(t) == t
      && t == typed[TrimOffset(typed)..TrimOffset(typed) + |t|]
  {
    TrimIdempotent(typed);
  }
}
