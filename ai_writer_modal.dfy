/**
 * The AI writer dialog (components/AIWriterModal.tsx): two state cells,
 * `keywords` and `generatedText`, changed by the generate, accept and close
 * handlers, and the guards derived from them. The callbacks `onGenerate`,
 * `onAccept` and `onClose` belong to the owner: here a handler returns what
 * it passes to its callback, and the owner acts on it.
 */
module AIWriterModal {
  import opened Wrappers

  class Modal {
    var keywords: string
    var generatedText: string

    /** Both cells start empty. */
    constructor ()
      ensures keywords == "" && generatedText == ""
    {
      keywords := "";
      generatedText := "";
    }

    /** The textarea's `onChange`. */
    method SetKeywords(value: string)
      modifies this
      ensures keywords == value && generatedText == old(generatedText)
      ensures GenerateDisabled(false) <==> value == ""
    {
      keywords := value;
    }

    /**
     * The synchronous part of `handleGenerateClick`: with empty keywords it
     * returns at once and `onGenerate` is not called (`None`); otherwise
     * `onGenerate` is called with the keywords. No state changes yet.
     */
    method BeginGenerate() returns (request: Option<string>)
      ensures request.Some? <==> !GenerateDisabled(false)
      ensures request.Some? ==> request.value == keywords
    {
      if keywords == "" {
        return None;
      }
      return Some(keywords);
    }

    /** The awaited `onGenerate` resolves with `result`, which becomes the shown text. */
    method CompleteGenerate(result: string)
      modifies this
      ensures generatedText == result && keywords == old(keywords)
      ensures ShowsResult() <==> result != ""
      ensures AcceptDisabled(false) <==> result == ""
    {
      generatedText := result;
    }

    /** `handleAcceptClick`: hands the current text to `onAccept`, then empties both cells. */
    method HandleAcceptClick() returns (accepted: string)
      modifies this
      ensures accepted == old(generatedText)
      ensures !old(AcceptDisabled(false)) ==> accepted != ""
      ensures keywords == "" && generatedText == ""
      ensures GenerateDisabled(false) && AcceptDisabled(false) && !ShowsResult()
    {
      accepted := generatedText;
      keywords := "";
      generatedText := "";
    }

    /** `handleClose`: empties both cells; the owner's `onClose` then runs. */
    method HandleClose()
      modifies this
      ensures keywords == "" && generatedText == ""
      ensures GenerateDisabled(false) && AcceptDisabled(false) && !ShowsResult()
    {
      keywords := "";
      generatedText := "";
    }

    /** `disabled={isLoading || !keywords}` on the Generate button. */
    predicate GenerateDisabled(isLoading: bool)
      reads this
    {
      isLoading || keywords == ""
    }

    /** `disabled={!generatedText || isLoading}` on the accept button. */
    predicate AcceptDisabled(isLoading: bool)
      reads this
    {
      generatedText == "" || isLoading
    }

    /** `{generatedText && (...)}`: the result panel. */
    predicate ShowsResult()
      reads this
    {
      generatedText != ""
    }
  }

  /**
   * One use of the dialog: type keywords, generate, accept. With non-empty
   * keywords the request carries them, what is accepted is exactly what the
   * generation returned, and the dialog is left empty with both buttons
   * disabled.
   */
  method GenerateThenAccept(m: Modal, typed: string, result: string) returns (request: Option<string>, accepted: string)
    requires typed != ""
    modifies m
    ensures request == Some(typed)
    ensures accepted == result
    ensures m.keywords == "" && m.generatedText == ""
    ensures m.GenerateDisabled(false) && m.AcceptDisabled(false) && !m.ShowsResult()
  {
    m.SetKeywords(typed);
    request := m.BeginGenerate();
    m.CompleteGenerate(result);
    accepted := m.HandleAcceptClick();
  }
}
