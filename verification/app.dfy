/** The strip's state and the handlers that change it: generating a panel
    (start, continue, redo), editing a caption, restarting, opening and closing
    the redo dialog, and asking for a suggested continuation.
    Each handler is a function from the old state (plus the gateway's replies
    and the clock reading) to the new state and the request it sent, if any. */
module App {
  import opened Outcomes
  import opened Text
  import opened Types
  import GeminiService

  const BlankPromptMessage: string := "Por favor, digite uma ideia!"

  /** Joins the last scene to the user's continuation. */
  const UserAddedLabel: string := ". O usuário adicionou: \""

  const PanelIdPrefix: string := "panel-"

  /** `redoing` is the panel whose redo dialog is open. */
  datatype AppState = AppState(
    panels: seq<Panel>,
    prompt: string,
    continuationPrompt: string,
    redoPrompt: string,
    redoing: Option<Panel>,
    error: Option<string>)

  const Initial: AppState := AppState([], "", "", "", None, None)

  /** The state a handler leaves, and the gateway request it sent (`None`: no call). */
  datatype Step<X> = Step(state: AppState, call: Option<X>)

  /** What a generation sends to the gateway: the user's part and the story so far. */
  datatype Request = Request(userPrompt: string, context: string)

  /** Panels the app creates carry an id and a scene description (the script
      check rejects an empty one), and the redo dialog is opened on such a panel. */
  predicate WellFormed(st: AppState) {
    && (forall i :: 0 <= i < |st.panels| ==> st.panels[i].id != "" && st.panels[i].sceneDescription != "")
    && (st.redoing.Some? ==> st.redoing.value.id != "")
  }

  function DigitChar(d: nat): (c: char)
    requires d < 10
    ensures '0' <= c <= '9'
  {
    ('0' as int + d) as char
  }

  predicate AllDigits(s: string) {
    forall k :: 0 <= k < |s| ==> '0' <= s[k] <= '9'
  }

  /** The number a string of decimal digits denotes, most significant digit first. */
  function DigitsValue(s: string): nat
    requires AllDigits(s)
  {
    if s == [] then 0
    else DigitsValue(s[..|s| - 1]) * 10 + (s[|s| - 1] as int - '0' as int)
  }

  /** The decimal spelling of a number, as a template literal prints it: digits
      only, no leading zero, and denoting `n`. */
  function Decimal(n: nat): (s: string)
    ensures |s| > 0 && AllDigits(s)
    ensures |s| == 1 || s[0] != '0'
    ensures DigitsValue(s) == n
  {
    if n < 10 then [DigitChar(n)]
    else
      var s := Decimal(n / 10) + [DigitChar(n % 10)];
      assert s[..|s| - 1] == Decimal(n / 10);
      s
  }

  /** The id of a panel created at clock reading `stamp` (`Date.now()`):
      "panel-" followed by the decimal spelling of the stamp. */
  function PanelId(stamp: nat): (id: string)
    ensures StartsWith(id, PanelIdPrefix) && |id| > |PanelIdPrefix|
    ensures AllDigits(id[|PanelIdPrefix|..]) && DigitsValue(id[|PanelIdPrefix|..]) == stamp
  {
    var id := PanelIdPrefix + Decimal(stamp);
    assert id[|PanelIdPrefix|..] == Decimal(stamp);
    id
  }

  /** Panels created at different clock readings get different ids. */
  lemma PanelIdInjective(a: nat, b: nat)
    ensures PanelId(a) == PanelId(b) <==> a == b
  {
  }

  /** A redo is requested by a panel id; JavaScript treats "" as no id. */
  predicate IsRedo(replaceId: Option<string>) {
    replaceId.Some? && replaceId.value != ""
  }

  /** The input field the handler reads: the redo draft for a redo, otherwise the
      continuation field or the first-panel field. */
  function SelectedPrompt(st: AppState, isContinuation: bool, replaceId: Option<string>): string {
    if IsRedo(replaceId) then st.redoPrompt
    else if isContinuation then st.continuationPrompt
    else st.prompt
  }

  function Scenes(panels: seq<Panel>): (r: seq<string>)
    ensures |r| == |panels|
    ensures forall i :: 0 <= i < |panels| ==> r[i] == panels[i].sceneDescription
  {
    seq(|panels|, i requires 0 <= i < |panels| => panels[i].sceneDescription)
  }

  /** The story so far: the scene descriptions in order, joined by single spaces. */
  function StoryContext(panels: seq<Panel>): string {
    Join(Scenes(panels), " ")
  }

  /** `findIndex`: the first position holding `id`, or -1 when there is none. */
  function FindIndex(panels: seq<Panel>, id: string): (i: int)
    ensures -1 <= i < |panels|
    ensures i >= 0 ==> panels[i].id == id && forall j :: 0 <= j < i ==> panels[j].id != id
    ensures i == -1 <==> forall j :: 0 <= j < |panels| ==> panels[j].id != id
  {
    if panels == [] then -1
    else if panels[0].id == id then 0
    else
      var j := FindIndex(panels[1..], id);
      if j < 0 then -1 else j + 1
  }

  /** `slice(0, end)`: a negative end counts back from the length. */
  function SliceTo(panels: seq<Panel>, end: int): seq<Panel> {
    if end >= 0 then panels[..if end <= |panels| then end else |panels|]
    else panels[..if |panels| + end >= 0 then |panels| + end else 0]
  }

  /** The prompt a continuation sends: the last scene, then the user's words in quotes. */
  function ContinuationUserPrompt(lastScene: string, input: string): (p: string)
    ensures StartsWith(p, lastScene + UserAddedLabel) && EndsWith(p, input + "\"")
    ensures |p| == |lastScene| + |UserAddedLabel| + |input| + 1
  {
    var p := lastScene + UserAddedLabel + input + "\"";
    assert p[..|lastScene + UserAddedLabel|] == lastScene + UserAddedLabel;
    p
  }

  /** What `handleGeneratePanel` sends: nothing when the selected field is blank;
      for a redo, the draft verbatim with the scenes before the target's first
      position; for a continuation of a non-empty strip, the last scene wrapped
      around the input with every scene as context; otherwise the input verbatim
      with no context. */
  function BuildRequest(st: AppState, isContinuation: bool, replaceId: Option<string>): Option<Request> {
    var selected := SelectedPrompt(st, isContinuation, replaceId);
    if IsBlank(selected) then None
    else if IsRedo(replaceId) then
      Some(Request(selected, StoryContext(SliceTo(st.panels, FindIndex(st.panels, replaceId.value)))))
    else if isContinuation && |st.panels| > 0 then
      Some(Request(ContinuationUserPrompt(st.panels[|st.panels| - 1].sceneDescription, selected),
                   StoryContext(st.panels)))
    else Some(Request(selected, ""))
  }

  /** A redo's result replaces the content of every panel carrying `id`, each
      keeping its id and position; all other panels stay as they were. */
  function ReplaceById(panels: seq<Panel>, id: string, g: GeminiService.Generated): (r: seq<Panel>)
    ensures |r| == |panels|
    ensures forall i :: 0 <= i < |r| ==> r[i].id == panels[i].id
    ensures forall i :: 0 <= i < |r| && panels[i].id == id ==>
              r[i] == Panel(id, g.imageUrl, g.panelText, g.sceneDescription)
    ensures forall i :: 0 <= i < |r| && panels[i].id != id ==> r[i] == panels[i]
  {
    if panels == [] then []
    else
      var head := if panels[0].id == id
                  then Panel(panels[0].id, g.imageUrl, g.panelText, g.sceneDescription)
                  else panels[0];
      [head] + ReplaceById(panels[1..], id, g)
  }

  /** An edit sets the caption of every panel carrying `id`; nothing else changes. */
  function SetText(panels: seq<Panel>, id: string, text: string): (r: seq<Panel>)
    ensures |r| == |panels|
    ensures forall i :: 0 <= i < |r| ==>
              && r[i].id == panels[i].id
              && r[i].imageUrl == panels[i].imageUrl
              && r[i].sceneDescription == panels[i].sceneDescription
    ensures forall i :: 0 <= i < |r| && panels[i].id == id ==> r[i].panelText == text
    ensures forall i :: 0 <= i < |r| && panels[i].id != id ==> r[i] == panels[i]
  {
    if panels == [] then []
    else
      var head := if panels[0].id == id then panels[0].(panelText := text) else panels[0];
      [head] + SetText(panels[1..], id, text)
  }

  /** `handleGeneratePanel`. A blank selected field only sets the error and calls
      nothing. Otherwise the request is sent; a failure keeps every field but the
      error, which carries the failure's message; a success clears the error and
      either replaces the redo target in place (closing the dialog and clearing
      its draft) or appends one new panel (clearing only the field it read). */
  function GeneratePanel(st: AppState, isContinuation: bool, replaceId: Option<string>,
                         script: GeminiService.ScriptReply, image: GeminiService.ImageReply,
                         stamp: nat): (r: Step<GeminiService.Exchange>)
    ensures r.call.None? <==> IsBlank(SelectedPrompt(st, isContinuation, replaceId))
    ensures r.call.None? ==> r.state == st.(error := Some(BlankPromptMessage))
    ensures r.call.Some? ==>
      && BuildRequest(st, isContinuation, replaceId).Some?
      && r.call.value.scriptPrompt == GeminiService.ScriptPrompt(
           BuildRequest(st, isContinuation, replaceId).value.userPrompt,
           BuildRequest(st, isContinuation, replaceId).value.context)
    ensures r.call.Some? && r.call.value.result.Err? ==>
      r.state == st.(error := Some(r.call.value.result.message))
    ensures r.call.Some? && r.call.value.result.Ok? ==> r.state.error == None
  {
    match BuildRequest(st, isContinuation, replaceId)
    case None => Step(st.(error := Some(BlankPromptMessage)), None)
    case Some(req) =>
      var x := GeminiService.GenerateScriptAndImage(req.userPrompt, req.context, script, image);
      match x.result
      case Err(m) => Step(st.(error := Some(m)), Some(x))
      case Ok(g) =>
        if IsRedo(replaceId) then
          Step(st.(panels := ReplaceById(st.panels, replaceId.value, g),
                   redoing := None, redoPrompt := "", error := None), Some(x))
        else
          var p := Panel(PanelId(stamp), g.imageUrl, g.panelText, g.sceneDescription);
          if isContinuation then
            Step(st.(panels := st.panels + [p], continuationPrompt := "", error := None), Some(x))
          else
            Step(st.(panels := st.panels + [p], prompt := "", error := None), Some(x))
  }

  /** The content a gateway success delivers, in terms of the replies. */
  function Delivered(script: GeminiService.ScriptReply, image: GeminiService.ImageReply): GeminiService.Generated
    requires GeminiService.CheckScript(script).Ok? && GeminiService.ImageResult(image).Ok?
  {
    GeminiService.Generated(GeminiService.CheckScript(script).value.sceneDescription,
                            GeminiService.CheckScript(script).value.panelText,
                            GeminiService.ImageResult(image).value)
  }

  /** A blank selected field never reaches the gateway: only the error is set,
      every other field (panels, the three inputs, the dialog) stays. */
  lemma BlankPromptRejected(st: AppState, isContinuation: bool, replaceId: Option<string>,
                            script: GeminiService.ScriptReply, image: GeminiService.ImageReply, stamp: nat)
    requires IsBlank(SelectedPrompt(st, isContinuation, replaceId))
    ensures var r := GeneratePanel(st, isContinuation, replaceId, script, image, stamp);
      && r.call == None
      && r.state.error == Some(BlankPromptMessage)
      && r.state.panels == st.panels && r.state.prompt == st.prompt
      && r.state.continuationPrompt == st.continuationPrompt && r.state.redoPrompt == st.redoPrompt
      && r.state.redoing == st.redoing
  {
  }

  /** Continuing a non-empty strip sends the last scene with the user's words
      quoted after it, and every scene, in order and space-separated, as context;
      on a well-formed strip that context is never "", so the continuation
      template is the one used. */
  lemma ContinuationRequest(st: AppState)
    requires |st.panels| > 0 && !IsBlank(st.continuationPrompt)
    ensures BuildRequest(st, true, None) == Some(Request(
      st.panels[|st.panels| - 1].sceneDescription + UserAddedLabel + st.continuationPrompt + "\"",
      StoryContext(st.panels)))
    ensures WellFormed(st) ==> StoryContext(st.panels) != ""
  {
  }

  /** Starting a story, or continuing an empty strip, sends the input verbatim
      with no context. */
  lemma PlainRequest(st: AppState, isContinuation: bool)
    requires !IsBlank(SelectedPrompt(st, isContinuation, None))
    requires !isContinuation || |st.panels| == 0
    ensures BuildRequest(st, isContinuation, None)
            == Some(Request(if isContinuation then st.continuationPrompt else st.prompt, ""))
  {
  }

  /** A redo of the panel first found at position `i` sends the draft verbatim
      and only the scenes of the panels strictly before `i`. */
  lemma RedoRequestSeesOnlyThePast(st: AppState, isContinuation: bool, i: nat)
    requires i < |st.panels| && st.panels[i].id != ""
    requires forall j :: 0 <= j < i ==> st.panels[j].id != st.panels[i].id
    requires !IsBlank(st.redoPrompt)
    ensures BuildRequest(st, isContinuation, Some(st.panels[i].id))
            == Some(Request(st.redoPrompt, StoryContext(st.panels[..i])))
  {
  }

  /** Hence what a redo sends does not depend on the target or on anything after it. */
  lemma RedoRequestIgnoresTheFuture(st1: AppState, st2: AppState, isContinuation: bool, i: nat)
    requires i < |st1.panels| && i < |st2.panels|
    requires st1.panels[..i] == st2.panels[..i] && st1.redoPrompt == st2.redoPrompt
    requires st1.panels[i].id == st2.panels[i].id != ""
    requires forall j :: 0 <= j < i ==> st1.panels[j].id != st1.panels[i].id
    requires !IsBlank(st1.redoPrompt)
    ensures BuildRequest(st1, isContinuation, Some(st1.panels[i].id))
            == BuildRequest(st2, isContinuation, Some(st2.panels[i].id))
  {
  }

  /** Redoing the first panel sends no context, so the first-panel template
      wraps the draft, exactly as when the story was started. */
  lemma RedoOfFirstPanelUsesFirstPanelTemplate(st: AppState, isContinuation: bool,
                                               script: GeminiService.ScriptReply,
                                               image: GeminiService.ImageReply, stamp: nat)
    requires |st.panels| > 0 && st.panels[0].id != "" && !IsBlank(st.redoPrompt)
    ensures var r := GeneratePanel(st, isContinuation, Some(st.panels[0].id), script, image, stamp);
      r.call.Some? && GeminiService.ParseFirstPanelPrompt(r.call.value.scriptPrompt) == Some(st.redoPrompt)
  {
  }

  /** A redo for an id no panel carries: `findIndex` gives -1, `slice(0, -1)`
      drops only the last panel from the context, and a success changes no panel
      while still closing the dialog and clearing the draft. */
  lemma RedoOfAbsentId(st: AppState, isContinuation: bool, id: string,
                       script: GeminiService.ScriptReply, image: GeminiService.ImageReply, stamp: nat)
    requires id != "" && !IsBlank(st.redoPrompt) && |st.panels| > 0
    requires forall j :: 0 <= j < |st.panels| ==> st.panels[j].id != id
    ensures BuildRequest(st, isContinuation, Some(id))
            == Some(Request(st.redoPrompt, StoryContext(st.panels[..|st.panels| - 1])))
    ensures GeminiService.CheckScript(script).Ok? && GeminiService.ImageResult(image).Ok? ==>
      var r := GeneratePanel(st, isContinuation, Some(id), script, image, stamp).state;
      r.panels == st.panels && r.redoing == None && r.redoPrompt == ""
  {
  }

  /** A successful redo keeps the strip's length and every id, gives each panel
      carrying the target id exactly the new content, leaves every other panel
      as it was, closes the dialog, clears the draft and the error, and keeps
      both other inputs. */
  lemma RedoSuccess(st: AppState, isContinuation: bool, id: string,
                    script: GeminiService.ScriptReply, image: GeminiService.ImageReply, stamp: nat)
    requires id != "" && !IsBlank(st.redoPrompt)
    requires GeminiService.CheckScript(script).Ok? && GeminiService.ImageResult(image).Ok?
    ensures var r := GeneratePanel(st, isContinuation, Some(id), script, image, stamp).state;
      var g := Delivered(script, image);
      && |r.panels| == |st.panels|
      && (forall i :: 0 <= i < |r.panels| ==> r.panels[i].id == st.panels[i].id)
      && (forall i :: 0 <= i < |r.panels| && st.panels[i].id == id ==>
            r.panels[i] == Panel(id, g.imageUrl, g.panelText, g.sceneDescription))
      && (forall i :: 0 <= i < |r.panels| && st.panels[i].id != id ==> r.panels[i] == st.panels[i])
      && r.redoing == None && r.redoPrompt == "" && r.error == None
      && r.prompt == st.prompt && r.continuationPrompt == st.continuationPrompt
  {
  }

  /** A successful start or continuation appends exactly one panel, stamped with
      a fresh id and carrying the delivered content, after the unchanged old
      strip; it clears the field it read and no other, and keeps the dialog. */
  lemma AppendSuccess(st: AppState, isContinuation: bool, replaceId: Option<string>,
                      script: GeminiService.ScriptReply, image: GeminiService.ImageReply, stamp: nat)
    requires !IsRedo(replaceId) && !IsBlank(SelectedPrompt(st, isContinuation, replaceId))
    requires GeminiService.CheckScript(script).Ok? && GeminiService.ImageResult(image).Ok?
    ensures var r := GeneratePanel(st, isContinuation, replaceId, script, image, stamp).state;
      var g := Delivered(script, image);
      && |r.panels| == |st.panels| + 1
      && r.panels[..|st.panels|] == st.panels
      && r.panels[|st.panels|] == Panel(PanelId(stamp), g.imageUrl, g.panelText, g.sceneDescription)
      && r.prompt == (if isContinuation then st.prompt else "")
      && r.continuationPrompt == (if isContinuation then "" else st.continuationPrompt)
      && r.redoPrompt == st.redoPrompt && r.redoing == st.redoing && r.error == None
  {
  }

  /** A gateway failure changes nothing but the error, which becomes the
      failing stage's fixed message. */
  lemma FailureKeepsInputs(st: AppState, isContinuation: bool, replaceId: Option<string>,
                           script: GeminiService.ScriptReply, image: GeminiService.ImageReply, stamp: nat)
    requires !IsBlank(SelectedPrompt(st, isContinuation, replaceId))
    requires GeminiService.CheckScript(script).Err? || GeminiService.ImageResult(image).Err?
    ensures var r := GeneratePanel(st, isContinuation, replaceId, script, image, stamp);
      && r.call.Some?
      && r.state.panels == st.panels && r.state.prompt == st.prompt
      && r.state.continuationPrompt == st.continuationPrompt && r.state.redoPrompt == st.redoPrompt
      && r.state.redoing == st.redoing
      && r.state.error == Some(if GeminiService.CheckScript(script).Err?
                               then GeminiService.ScriptFailureMessage
                               else GeminiService.ImageFailureMessage)
  {
  }

  /** Every panel a generation creates or rewrites has a non-empty id and scene. */
  lemma GeneratePanelPreservesWellFormed(st: AppState, isContinuation: bool, replaceId: Option<string>,
                                         script: GeminiService.ScriptReply, image: GeminiService.ImageReply,
                                         stamp: nat)
    requires WellFormed(st)
    ensures WellFormed(GeneratePanel(st, isContinuation, replaceId, script, image, stamp).state)
  {
    var r := GeneratePanel(st, isContinuation, replaceId, script, image, stamp);
    var req := BuildRequest(st, isContinuation, replaceId);
    if req.Some? {
      var x := GeminiService.GenerateScriptAndImage(req.value.userPrompt, req.value.context, script, image);
      if x.result.Ok? {
        var g := x.result.value;
        assert g.sceneDescription != "";
        if IsRedo(replaceId) {
          var ps := ReplaceById(st.panels, replaceId.value, g);
          assert r.state.panels == ps && r.state.redoing == None;
          assert forall i :: 0 <= i < |ps| ==> ps[i].id != "" && ps[i].sceneDescription != "";
        } else {
          var p := Panel(PanelId(stamp), g.imageUrl, g.panelText, g.sceneDescription);
          assert r.state.panels == st.panels + [p] && r.state.redoing == st.redoing;
        }
      } else {
        assert r.state == st.(error := Some(x.result.message));
      }
    }
  }

  /** `handlePanelTextChange`: only the captions of panels carrying `id` change. */
  function EditText(st: AppState, id: string, text: string): (r: AppState)
    ensures r.(panels := st.panels) == st
    ensures |r.panels| == |st.panels|
    ensures forall i :: 0 <= i < |r.panels| ==>
              r.panels[i] == (if st.panels[i].id == id then st.panels[i].(panelText := text) else st.panels[i])
  {
    st.(panels := SetText(st.panels, id, text))
  }

  /** Writing back the caption a panel already has changes nothing, and writing
      the same caption twice is the same as writing it once. */
  lemma EditTextIdempotent(st: AppState, id: string, text: string)
    ensures (forall i :: 0 <= i < |st.panels| && st.panels[i].id == id ==> st.panels[i].panelText == text)
            ==> EditText(st, id, text) == st
    ensures EditText(EditText(st, id, text), id, text) == EditText(st, id, text)
  {
  }

  /** `handleRestart`: when the user confirms, the strip, both story inputs and
      the error are cleared (the redo draft and dialog are not touched); when
      the user declines, nothing changes. */
  function Restart(st: AppState, confirmed: bool): (r: AppState)
    ensures !confirmed ==> r == st
    ensures confirmed ==> r.panels == [] && r.prompt == "" && r.continuationPrompt == "" && r.error == None
    ensures confirmed ==> r.redoPrompt == st.redoPrompt && r.redoing == st.redoing
  {
    if confirmed then st.(panels := [], prompt := "", continuationPrompt := "", error := None) else st
  }

  /** The redo button of the panel at `i` opens the dialog on that panel; the
      draft typed earlier stays. */
  function OpenRedo(st: AppState, i: nat): (r: AppState)
    requires i < |st.panels|
    ensures r.redoing == Some(st.panels[i]) && r.(redoing := st.redoing) == st
  {
    st.(redoing := Some(st.panels[i]))
  }

  /** The dialog's cancel button closes it and keeps the draft. */
  function CancelRedo(st: AppState): (r: AppState)
    ensures r.redoing == None && r.(redoing := st.redoing) == st
  {
    st.(redoing := None)
  }

  /** The dialog's generate button: a redo of the panel the dialog is open on. */
  function SubmitRedo(st: AppState, script: GeminiService.ScriptReply, image: GeminiService.ImageReply,
                      stamp: nat): (r: Step<GeminiService.Exchange>)
    requires st.redoing.Some?
    ensures st.redoing.value.id != "" ==> (r.call.None? <==> IsBlank(st.redoPrompt))
    ensures st.redoing.value.id != "" && r.call.Some? && r.call.value.result.Ok? ==>
      && |r.state.panels| == |st.panels| && r.state.redoing == None && r.state.redoPrompt == ""
      && forall i :: 0 <= i < |st.panels| ==> r.state.panels[i].id == st.panels[i].id
  {
    GeneratePanel(st, false, Some(st.redoing.value.id), script, image, stamp)
  }

  /** `handleSuggestContinuation`: nothing happens on an empty strip; otherwise
      the whole story is sent as context, a suggestion replaces the continuation
      field (and holds no quote), and a failure sets only the error. */
  function Suggest(st: AppState, reply: GeminiService.TextReply): (r: Step<GeminiService.SuggestionExchange>)
    ensures |st.panels| == 0 ==> r == Step(st, None)
    ensures |st.panels| > 0 ==> r.call.Some? && StartsWith(r.call.value.prompt,
                                                 GeminiService.SuggestionIntro + StoryContext(st.panels))
    ensures |st.panels| > 0 && reply.TextReturned? ==>
      && r.state == st.(continuationPrompt := GeminiService.CleanSuggestion(reply.text), error := None)
      && !HasQuote(r.state.continuationPrompt)
    ensures |st.panels| > 0 && reply.TextCallFailed? ==>
      r.state == st.(error := Some(GeminiService.SuggestionFailureMessage))
  {
    if |st.panels| == 0 then Step(st, None)
    else
      var x := GeminiService.SuggestContinuation(StoryContext(st.panels), reply);
      match x.result
      case Ok(s) => Step(st.(continuationPrompt := s, error := None), Some(x))
      case Err(m) => Step(st.(error := Some(m)), Some(x))
  }

  /** Every handler keeps the strip well formed. */
  lemma HandlersPreserveWellFormed(st: AppState, id: string, text: string, confirmed: bool, i: nat,
                                   reply: GeminiService.TextReply)
    requires WellFormed(st)
    ensures WellFormed(EditText(st, id, text))
    ensures WellFormed(Restart(st, confirmed))
    ensures i < |st.panels| ==> WellFormed(OpenRedo(st, i))
    ensures WellFormed(CancelRedo(st))
    ensures WellFormed(Suggest(st, reply).state)
  {
  }
}
