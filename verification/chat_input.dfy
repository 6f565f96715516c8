/** The chat box's submit: non-blank text is sent as typed and the box is
    cleared; blank text is ignored. */
module ChatInput {
  import opened Text

  /** The box's text after the submit and the `onSend` calls it made. */
  datatype Submitted = Submitted(text: string, sent: seq<string>)

  function HandleSubmit(text: string): (r: Submitted)
    ensures AllSpace(text) ==> r == Submitted(text, [])
    ensures !AllSpace(text) ==> r == Submitted("", [text])
    ensures |r.sent| <= 1
  {
    TrimEmptyIffAllSpace(text);
    if Trim(text) != "" then Submitted("", [text]) else Submitted(text, [])
  }

  /** Submitting again right after a send sends nothing. */
  lemma NoDoubleSend(text: string)
    ensures HandleSubmit(text).sent != [] ==> HandleSubmit(HandleSubmit(text).text).sent == []
  {
    assert AllSpace("");
  }
}
