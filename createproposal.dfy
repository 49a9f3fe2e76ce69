/**
 * frontend/src/components/CreateProposal.jsx: the new-proposal form. `onSubmit`
 * is the hook's `createProposal`, which reports every failure as a toast and so
 * always resolves; the form is therefore cleared after every submission.
 */
module Create {
  import opened Js

  /** The state of the form. */
  class CreateProposalForm {
    var title: string
    var description: string
    /** Every `onSubmit` call, oldest first. */
    ghost var submitted: seq<(string, string)>

    constructor ()
      ensures title == "" && description == "" && submitted == []
    {
      title := "";
      description := "";
      submitted := [];
    }

    /** The submit button is disabled exactly when `loading || disabled || !title.trim()`. */
    predicate SubmitEnabled(loading: bool, disabled: bool)
      reads this`title
    {
      !(loading || disabled || Trim(title) == "")
    }

    /**
     * The button is enabled exactly when nothing is loading, the form is not
     * disabled and the title holds a character that is not whitespace, which is
     * when a click submits.
     */
    lemma SubmitEnabledIff(loading: bool, disabled: bool)
      ensures SubmitEnabled(loading, disabled)
          <==> !loading && !disabled && exists i :: 0 <= i < |title| && !IsJsWhitespace(title[i])
    {
      TrimEmptyIff(title);
    }

    method EditTitle(value: string)
      modifies this`title
      ensures title == value
    {
      title := value;
    }

    method EditDescription(value: string)
      modifies this`description
      ensures description == value
    {
      description := value;
    }

    /**
     * `handleSubmit`: a title that is blank once trimmed submits nothing and
     * keeps the form; otherwise `onSubmit` gets both fields trimmed and the form
     * is cleared.
     */
    method HandleSubmit() returns (args: Option<(string, string)>)
      modifies this`title, this`description, this`submitted
      ensures Trim(old(title)) == "" ==>
        args == None && title == old(title) && description == old(description) && submitted == old(submitted)
      ensures Trim(old(title)) != "" ==>
        && args == Some((Trim(old(title)), Trim(old(description))))
        && submitted == old(submitted) + [args.value]
        && title == "" && description == ""
    {
      var t, d := Trim(title), Trim(description);
      if t == "" {
        return None;
      }
      args := Some((t, d));
      submitted := submitted + [(t, d)];
      title := "";
      description := "";
    }
  }

  /**
   * What `onSubmit` receives: a title that is not empty and neither starts nor
   * ends with whitespace, a description without whitespace at either end, and
   * each of them a run of characters of what was typed.
   */
  lemma SubmittedArgs(title: string, description: string)
    requires Trim(title) != ""
    ensures !IsJsWhitespace(Trim(title)[0]) && !IsJsWhitespace(Trim(title)[|Trim(title)| - 1])
    ensures Trim(description) != "" ==>
      !IsJsWhitespace(Trim(description)[0]) && !IsJsWhitespace(Trim(description)[|Trim(description)| - 1])
    ensures exists k :: OccursAt(title, Trim(title), k)
    ensures exists k :: OccursAt(description, Trim(description), k)
    ensures Trim(Trim(title)) == Trim(title)
  {
    TrimIsInfix(title);
    TrimIsInfix(description);
    TrimIdempotent(title);
  }
}
