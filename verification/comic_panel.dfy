/** How a panel shows its caption, and when leaving the editable caption box
    writes text back to the strip. */
module ComicPanel {
  import opened Outcomes
  import opened Text
  import opened Types

  /** The narration marker; Ç and Ã are single precomposed characters, so it is
      nine characters long. */
  const NarrationMarker: string := "NARRAÇÃO:"

  lemma NarrationMarkerLength()
    ensures |NarrationMarker| == 9
  {
  }

  /** Narration is recognised by the marker at the start of the upper-cased text. */
  predicate IsNarration(text: string) {
    StartsWith(ToUpper(text), NarrationMarker)
  }

  /** The caption as the box renders it: for narration, what follows the marker,
      trimmed; for dialogue, the text with every quote character removed.
      It is computed from a copy and leaves the stored text alone. */
  function DisplayText(text: string): (r: string)
    ensures |r| <= |text|
    ensures IsNarration(text) ==> |r| < |text|
    ensures !IsNarration(text) ==> !HasQuote(r)
    ensures !IsNarration(text) ==> forall c :: !IsQuote(c) ==> multiset(r)[c] == multiset(text)[c]
    ensures r == text <==> !IsNarration(text) && !HasQuote(text)
  {
    if IsNarration(text) then Trim(text[|NarrationMarker|..]) else RemoveQuotes(text)
  }

  /** The marker is matched without regard to case: any spelling that upper-cases
      to it makes the text narration, and the display drops exactly that spelling
      and trims what follows. Conversely every narration text is such a spelling
      followed by the rest. */
  lemma NarrationCaseInsensitive(spelling: string, rest: string)
    requires ToUpper(spelling) == NarrationMarker
    ensures IsNarration(spelling + rest)
    ensures DisplayText(spelling + rest) == Trim(rest)
  {
  }

  lemma NarrationHasMarker(text: string)
    requires IsNarration(text)
    ensures ToUpper(text[..|NarrationMarker|]) == NarrationMarker
    ensures text == text[..|NarrationMarker|] + text[|NarrationMarker|..]
    ensures DisplayText(text) == Trim(text[|NarrationMarker|..])
  {
  }

  /** `handleBlur`: the box's text is handed to `onTextChange` (as the pair of
      panel id and new text) only when it differs from the stored text. */
  function BlurCommit(panel: Panel, boxText: string): (r: Option<(string, string)>)
    ensures r.Some? <==> boxText != panel.panelText
    ensures r.Some? ==> r.value == (panel.id, boxText)
  {
    if boxText != panel.panelText then Some((panel.id, boxText)) else None
  }

  /** The box renders `DisplayText`, so leaving it untouched still commits the
      display form whenever that differs from what is stored: on every narration
      panel and on every dialogue panel whose text holds a quote. */
  lemma UneditedBlurCommitsDisplayText(panel: Panel)
    ensures BlurCommit(panel, DisplayText(panel.panelText)).Some?
            <==> IsNarration(panel.panelText) || HasQuote(panel.panelText)
    ensures BlurCommit(panel, DisplayText(panel.panelText)).Some? ==>
            BlurCommit(panel, DisplayText(panel.panelText)).value == (panel.id, DisplayText(panel.panelText))
  {
  }

  /** The marker is written in upper case already. */
  lemma NarrationMarkerIsUpperCase()
    ensures ToUpper(NarrationMarker) == NarrationMarker
  {
  }

  lemma TrimLeadingSpace()
    ensures Trim(" Fim") == "Fim"
  {
  }

  /** An unedited blur on a narration panel commits the text without its marker,
      and the panel then renders as dialogue. */
  lemma UneditedBlurLosesNarration(id: string)
    ensures IsNarration(NarrationMarker + " Fim")
    ensures BlurCommit(Panel(id, "", NarrationMarker + " Fim", ""), DisplayText(NarrationMarker + " Fim"))
            == Some((id, "Fim"))
    ensures !IsNarration("Fim")
  {
    NarrationMarkerIsUpperCase();
    NarrationCaseInsensitive(NarrationMarker, " Fim");
    TrimLeadingSpace();
  }

  /** The evident intent of `handleBlur`: commit only what the user changed, by
      comparing the box's text with what the box was showing. */
  function BlurCommitIntended(panel: Panel, boxText: string): (r: Option<(string, string)>)
    ensures r.Some? ==> r.value == (panel.id, boxText)
  {
    if boxText != DisplayText(panel.panelText) then Some((panel.id, boxText)) else None
  }

  /** With the intended rule, leaving the box untouched never writes, and any edit
      to the shown text is written. */
  lemma BlurCommitIntendedOnlyOnEdit(panel: Panel, boxText: string)
    ensures BlurCommitIntended(panel, DisplayText(panel.panelText)) == None
    ensures BlurCommitIntended(panel, boxText).Some? <==> boxText != DisplayText(panel.panelText)
  {
  }
}
