# hqgerador — a Dafny model of the comic-strip generator's core

The app turns a user's idea into a comic strip one panel at a time: a text
model writes a scene description and a caption, an image model draws the
scene, and the panel is appended to the strip. Panels can be redone in place,
their captions edited, and the story restarted or continued with a suggested
next beat.

This project models the three pieces of logic behind that, with the generative
models replaced by their replies, given as data:

- **`App`** (`app.dfy`) — the strip's state (`AppState`: panels, the three
  input fields, the panel whose redo dialog is open, the error banner) and
  every handler as a function from old state to new state plus the gateway
  request it sent: `GeneratePanel` (start, continue and redo), `EditText`,
  `Restart`, `OpenRedo`, `CancelRedo`, `SubmitRedo`, `Suggest`.
- **`GeminiService`** (`gemini_service.dfy`) — the script prompt's two
  templates, the script's required-field check, the image prompt, the image
  list check and the `data:` URL it builds (section 3 of RFC 2397), the
  suggestion prompt and its quote cleanup, and the one fixed message each
  stage fails with. `GenerateScriptAndImage` returns an `Exchange` recording
  which prompts were sent, so "no image request unless the script passed" and
  "the image is requested with the script's own scene" are statements about
  its result.
- **`ComicPanel`** (`comic_panel.dfy`) — narration detection, the caption's
  display transform and the blur rule that writes the caption back.
- **`Text`** (`text.dfy`) — the JavaScript string operations used:
  `trim` (with ECMAScript's exact white-space set), the quote-removing
  `replace(/['"]+/g, '')`, `toUpperCase` (restricted, see below),
  `startsWith` and `join`. **`Outcomes`** and **`Types`** hold `Option`,
  `Result`, `Panel` and `Script`.

Behaviour of the code worth knowing:

- A redo for an id that is not in the strip is not excluded: `findIndex`
  yields -1 and `slice(0, -1)` then drops only the last panel from the
  context (`App.RedoOfAbsentId`).
- The image stage accepts any non-empty image list and uses the first image;
  it does not demand exactly one.
- The suggestion cleanup removes every quote character anywhere, not only
  surrounding ones, and does so after trimming.
- Starting a story does not check that the strip is empty; it reads the
  first-panel field whatever the strip holds.
- Restart clears the strip, both story inputs and the error, but leaves the
  redo draft and the open-dialog panel as they are.
- The script check's own message ("Resposta da IA inválida…") never reaches the
  user: it is thrown inside the same `try` and replaced by the generic script
  message.
- A redo is recognised by a non-empty id (`!!panelToReplaceId`); an empty id
  falls through to the start/continue path. Ids the app creates are
  `panel-<digits>` and never empty (`App.WellFormed`).

## Model

| member | source | states |
|---|---|---|
| `App.GeneratePanel` | App.tsx:27-80 | the gateway is called iff the selected field is not blank; a blank field only sets the "digite uma ideia" error; the script prompt sent is built from the request; a failure changes only the error, to the failure's message; a success clears the error |
| `App.BlankPromptRejected` | App.tsx:29-34 | a whitespace-only selected field (redo draft, continuation or first-panel field) makes no gateway call and leaves panels, all three inputs and the dialog as they were |
| `App.ContinuationUserPrompt` | App.tsx:49-50 | the continuation prompt starts with the last scene and the "O usuário adicionou" label, ends with the user's words and a closing quote, and holds nothing else |
| `App.ContinuationRequest` | App.tsx:47-50 | continuing a non-empty strip sends the last scene with the input quoted after it and all scenes joined by single spaces as context; on a well-formed strip that context is never empty |
| `App.PlainRequest` | App.tsx:41-50 | starting, or continuing an empty strip, sends the input verbatim with an empty context |
| `App.FindIndex` | App.tsx:45 | the first position holding the id, or -1 exactly when no panel holds it |
| `App.RedoRequestSeesOnlyThePast` | App.tsx:44-46 | a redo of the panel first found at position i sends the draft unwrapped and only the scenes of panels strictly before i |
| `App.RedoRequestIgnoresTheFuture` | App.tsx:44-46 | two strips that agree before position i (and on the target id) send the same redo request, whatever follows |
| `App.RedoOfFirstPanelUsesFirstPanelTemplate` | App.tsx:44-53 | redoing panel 0 sends an empty context, so the script prompt is the first-panel template and parses back to the draft |
| `App.RedoOfAbsentId` | App.tsx:44-65 | for an id in no panel the context drops just the last panel, and a success changes no panel yet closes the dialog and clears the draft |
| `App.ReplaceById` | App.tsx:63 | every panel carrying the id gets the new content with its own id, in place; length and ids are kept; every other panel is unchanged |
| `App.RedoSuccess` | App.tsx:62-65 | a successful redo keeps length and every id, overwrites image, caption and scene exactly where the id matches, leaves other panels identical, closes the dialog, clears the draft and the error, keeps both other inputs |
| `App.Decimal` | App.tsx:56 | the template literal's spelling of the clock reading is a non-empty string of digits without a leading zero that denotes exactly that number |
| `App.PanelId` | App.tsx:56 | a new panel's id is "panel-" followed by the decimal digits of the clock reading, which parse back to it |
| `App.PanelIdInjective` | App.tsx:56 | panels created at different clock readings get different ids, and equal readings give equal ids |
| `App.AppendSuccess` | App.tsx:55-72 | a successful start or continuation appends exactly one panel with the delivered content after the unchanged old strip, clears the field it read and no other, keeps the redo draft and dialog |
| `App.FailureKeepsInputs` | App.tsx:75-79 | a gateway failure keeps panels, all three inputs and the dialog, and sets the error to the failing stage's fixed message |
| `App.GeneratePanelPreservesWellFormed` | App.tsx:53-73 | generation keeps every panel's id and scene description non-empty |
| `App.SetText` | App.tsx:83 | an edit sets the caption of every panel carrying the id; length, order, ids, images and scenes are kept; other panels unchanged |
| `App.EditText` | App.tsx:82-84 | only the strip changes, and in it only the captions of panels carrying the id |
| `App.EditTextIdempotent` | App.tsx:82-84 | writing back the caption a panel already has is a no-op, and writing a caption twice equals writing it once |
| `App.Restart` | App.tsx:86-93 | a confirmed restart empties the strip and both story inputs and clears the error; a declined one changes nothing |
| `App.OpenRedo` | App.tsx:207 | the redo button opens the dialog on that panel and changes nothing else |
| `App.CancelRedo` | App.tsx:171 | cancel closes the dialog and keeps everything else, the draft included |
| `App.SubmitRedo` | App.tsx:170 | generating from the dialog calls the gateway iff the draft is not blank, and on success keeps length and ids and closes the dialog |
| `App.Suggest` | App.tsx:135-148 | on an empty strip nothing happens; otherwise the whole story is sent, a suggestion (free of quotes) replaces the continuation field and clears the error, a failure sets only the error |
| `App.HandlersPreserveWellFormed` | App.tsx:82-93 | edit, restart, opening or closing the dialog and suggesting keep the strip well formed |
| `GeminiService.FirstPanelPromptRoundTrip` | services/geminiService.ts:80-82 | with an empty context the first-panel template quotes the idea verbatim (parsing returns it) and never reads as a continuation prompt |
| `GeminiService.ContinuationPromptRoundTrip` | services/geminiService.ts:80-82 | with a non-empty context the continuation template embeds context and prompt verbatim (parsing returns both) and never reads as a first-panel prompt |
| `GeminiService.CheckScript` | services/geminiService.ts:37-49 | a script passes iff the call succeeded and both scene description and caption are present and non-empty; a pass carries exactly those fields; every failure is the one script message |
| `GeminiService.ImagePrompt` | services/geminiService.ts:53 | the image prompt starts with the scene description and ends with the fixed style text |
| `GeminiService.ImagePromptInjective` | services/geminiService.ts:53 | two image prompts are equal iff their scene descriptions are |
| `GeminiService.DataUrlRoundTrip` | services/geminiService.ts:68 | a base64 data URL for a comma-free media type parses back to that media type, the base64 flag and exactly the data |
| `GeminiService.ImageResult` | services/geminiService.ts:66-75 | an image URL results iff the call succeeded with a non-empty list; it is a JPEG base64 data URL of the first image; every failure is the one image message |
| `GeminiService.GenerateScriptAndImage` | services/geminiService.ts:79-88 | the script prompt is always sent; the image is requested iff the script passed, with the script's own scene; success iff both stages pass, carrying exactly the script's fields and the image URL; a failure names its stage's message |
| `GeminiService.CleanSuggestion` | services/geminiService.ts:100 | the cleaned suggestion holds no quote and is the trimmed reply with quotes removed, every other character kept |
| `GeminiService.CleanSuggestionNotTrimmed` | services/geminiService.ts:100 | a reply made of a quote-free word, a space and a quote yields the word and a trailing space, which trimming would change: the result need not be trimmed |
| `GeminiService.SuggestContinuation` | services/geminiService.ts:90-104 | the prompt is exactly the fixed intro, the context verbatim and the fixed request; a reply yields its cleaned text, a failure the one suggestion message |
| `ComicPanel.NarrationMarkerLength` | components/ComicPanel.tsx:29 | the marker is nine characters, so `substring(9)` drops exactly the marker |
| `ComicPanel.NarrationMarkerIsUpperCase` | components/ComicPanel.tsx:28 | the marker is its own upper case |
| `ComicPanel.NarrationCaseInsensitive` | components/ComicPanel.tsx:28-29 | any spelling that upper-cases to the marker makes the text narration, and the display is what follows it, trimmed |
| `ComicPanel.NarrationHasMarker` | components/ComicPanel.tsx:28-29 | every narration text starts with such a spelling, and its display is the trimmed rest |
| `ComicPanel.DisplayText` | components/ComicPanel.tsx:28-29 | the display is never longer than the text and is shorter for narration; dialogue display has no quote and keeps every other character; the display equals the text iff it is dialogue without quotes |
| `ComicPanel.BlurCommit` | components/ComicPanel.tsx:19-26 | blur reports the box's text for the panel's id iff it differs from the stored caption |
| `ComicPanel.UneditedBlurCommitsDisplayText` | components/ComicPanel.tsx:22-57 | since the box shows the display text, an untouched blur writes the display text exactly when the panel is narration or its caption holds a quote |
| `ComicPanel.UneditedBlurLosesNarration` | components/ComicPanel.tsx:22-57 | for "NARRAÇÃO: Fim" an untouched blur writes "Fim", which is no longer narration |
| `ComicPanel.BlurCommitIntended` | components/ComicPanel.tsx:19-26 | the corrected blur reports the box's text for the panel's id whenever it reports anything |
| `ComicPanel.BlurCommitIntendedOnlyOnEdit` | components/ComicPanel.tsx:19-26 | with the corrected rule an untouched blur writes nothing, and a blur writes iff the shown text was changed |
| `Text.Trim` | App.tsx:31 | the trimmed string is the infix left after the leading white space, with only white space after it; it neither starts nor ends with white space; it is empty iff the input is all white space |
| `Text.RemoveQuotes` | components/ComicPanel.tsx:29 | the result holds no quote, keeps the count of every other character, is shorter iff the input had a quote, and equals a quote-free input |
| `Text.RemoveQuotesAppend` | components/ComicPanel.tsx:29 | quote removal distributes over concatenation |
| `Text.ToUpper` | components/ComicPanel.tsx:28 | upper-casing keeps the length and maps each character on its own |
| `Text.JoinSnoc` | App.tsx:48 | joining one more scene adds exactly one separator before it |
| `Text.JoinEmptyIff` | App.tsx:48 | with a space separator the joined context is empty iff there is no scene or a single empty one |

## Findings

| source | as written | input that shows it | evidently intended | confidence | as-written member | corrected member |
|---|---|---|---|---|---|---|
| components/ComicPanel.tsx:19-26 | blur compares the box's text, which renders the display form (line 57), with the stored caption | a panel whose caption is "NARRAÇÃO: Fim", focused and left without typing | leaving the box untouched writes nothing, so the caption stays narration | medium; not executed | `ComicPanel.UneditedBlurLosesNarration` | `ComicPanel.BlurCommitIntendedOnlyOnEdit` |

The same comparison also drops the quotes of a dialogue caption on an
untouched blur (`ComicPanel.UneditedBlurCommitsDisplayText`). The corrected
rule compares the box's text with the text it was showing; what an actual
edit of a narration caption should store (with or without the marker) is not
settled by the code and is not modelled.

## Left out

- PDF export (`handleDownloadPdf`): DOM queries, the two CDN libraries and page geometry; the only state it touches is the loading flag and an error banner.
- The generative-model SDK calls, the `API_KEY` check and `JSON.parse`: foreign calls; their replies are the inputs `ScriptReply`, `ImageReply` and `TextReply`, with a parsed JSON body as `ScriptFields`.
- `Date.now()`: the clock reading is the `stamp` parameter; ids are not assumed unique, which is why redo and edit act on every panel carrying the id.
- `App.GeneratePanel`: applies the result to the state the request was built from. The code applies the new panels (`setPanels(prev => …)`, App.tsx:63 and 67) and clears the input when the reply arrives. The two agree only if nothing changes during the wait. The input fields are disabled while loading, but the redo dialog's "Gerar!" button (App.tsx:170) is not, so a second redo submitted during the wait is not modelled.
- React mechanics: hooks, `useCallback` dependencies, `async`/`await`, the loading and suggesting flags, the spinner and modal markup, and the `useEffect` that copies `panel.panelText` into the component's local `text`; the model takes that local copy to equal the stored caption.
- The stored caption is never altered by the display transform: `DisplayText` is a function of a string and the panel is not an argument to it, so this holds by construction and has no member of its own.
- The field setters wired to the inputs (`setPrompt`, `setContinuationPrompt`, `setRedoPrompt` on change): plain assignments of one field.
- components/PromptInput.tsx and components/Header.tsx: presentation only; the Enter-without-Shift submit gate is keyboard handling.
- The `err instanceof Error` fallback message: every error the gateway throws is an `Error`, so the fallback is not reached.
- `imageBytes` being absent inside a returned image: the model takes each image's bytes as a string.
- `Text.ToUpper`: maps only ASCII a-z and the Latin-1 letters U+00E0..U+00FE (except U+00F7), one character to one; full Unicode case mapping (including expansions such as ß to SS) is not modelled.
- `ComicPanel.UneditedBlurCommitsDisplayText`: takes the box's `innerText` to be exactly the rendered display text; browser white-space normalisation of `innerText` is not modelled.
- Strings are sequences of Unicode scalar values rather than UTF-16 code units; for the characters involved here (the marker, quotes, white space) the two agree.
