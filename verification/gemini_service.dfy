/** The gateway to the generative models: the prompts it builds, the checks it
    applies to what comes back, and the single message each stage fails with.
    The model calls themselves are not modelled; what they answer is an input
    (`ScriptReply`, `ImageReply`, `TextReply`), and what is sent to them is part
    of the output (`Exchange`), so that a caller can see which requests were made. */
module GeminiService {
  import opened Outcomes
  import opened Text
  import opened Types

  const ScriptFailureMessage: string :=
    "Falha ao gerar o roteiro. A IA pode estar sobrecarregada. Tente novamente."
  const ImageFailureMessage: string :=
    "Falha ao gerar a imagem. A IA pode ter recusado o prompt. Tente uma ideia diferente."
  const SuggestionFailureMessage: string :=
    "Não foi possível gerar uma sugestão. Tente novamente."

  /** Appended to every scene description to fix the artwork's style. */
  const ImageStyle: string :=
    ", in the dynamic and gritty style of a 1980s Marvel comic book, bold ink lines, "
    + "vibrant but slightly aged color palette, ben-day dots, action lines, dramatic lighting."

  /** The head of a `data:` URL (section 3 of RFC 2397) for base64-encoded JPEG data. */
  const JpegDataUrlPrefix: string := "data:image/jpeg;base64,"

  const ContextIntro: string := "CONTEXTO: A história até agora é sobre "
  const LastPanelLabel: string := ". ROTEIRO DO ÚLTIMO PAINEL: "
  const NextPanelRequest: string :=
    ". Baseado nisso, crie o roteiro para o PRÓXIMO painel, continuando a ação."
  const FirstPanelIntro: string := "Crie o roteiro " + "para o PRIMEIRO painel de uma HQ sobre: \""
  const FirstPanelClose: string := "\"."

  const SuggestionIntro: string := "CONTEXTO DA HQ: "
  const SuggestionRequest: string :=
    ". Baseado nisso, sugira uma continuação ou um final surpreendente em UMA frase curta "
    + "e impactante para o próximo painel. Seja criativo e no estilo Marvel anos 80. "
    + "Exemplo: 'O vilão revela ser seu irmão perdido!' ou 'Uma nave alienígena surge nos céus.'"

  /** The parsed JSON body of a script reply; a field the model left out is `None`. */
  datatype ScriptFields = ScriptFields(sceneDescription: Option<string>, panelText: Option<string>)

  /** What the script call produced: a parsed body, or a thrown error
      (transport, refusal, unparsable JSON). */
  datatype ScriptReply = ScriptParsed(fields: ScriptFields) | ScriptCallFailed

  /** What the image call produced: the `generatedImages` list, each entry
      given by its base64 `imageBytes` (`None` when the list is missing),
      or a thrown error. */
  datatype ImageReply = ImagesReturned(images: Option<seq<string>>) | ImageCallFailed

  /** What the suggestion call produced: the reply text, or a thrown error. */
  datatype TextReply = TextReturned(text: string) | TextCallFailed

  /** The panel content a successful generation delivers. */
  datatype Generated = Generated(sceneDescription: string, panelText: string, imageUrl: string)

  /** The requests one generation sent (the image prompt only if the script
      stage passed) and its outcome. */
  datatype Exchange = Exchange(scriptPrompt: string, imagePrompt: Option<string>, result: Result<Generated>)

  /** The requests one suggestion sent and its outcome. */
  datatype SuggestionExchange = SuggestionExchange(prompt: string, result: Result<string>)

  /** The prompt for the script model: the first-panel template when the context
      is "" (JavaScript treats "" as false), the continuation template otherwise. */
  function ScriptPrompt(userPrompt: string, context: string): string {
    if context != "" then ContextIntro + context + LastPanelLabel + userPrompt + NextPanelRequest
    else FirstPanelIntro + userPrompt + FirstPanelClose
  }

  /** Reads the user's idea back out of a first-panel prompt. */
  function ParseFirstPanelPrompt(p: string): Option<string> {
    if StartsWith(p, FirstPanelIntro) && |FirstPanelIntro| + |FirstPanelClose| <= |p|
       && EndsWith(p, FirstPanelClose)
    then Some(p[|FirstPanelIntro|..|p| - |FirstPanelClose|])
    else None
  }

  /** Reads context and user prompt back out of a continuation prompt, given how
      long the context was (the context may itself contain the label text). */
  function ParseContinuationPrompt(p: string, contextLength: nat): Option<(string, string)> {
    var head := |ContextIntro| + contextLength + |LastPanelLabel|;
    if StartsWith(p, ContextIntro) && head + |NextPanelRequest| <= |p|
       && p[head - |LastPanelLabel|..head] == LastPanelLabel && EndsWith(p, NextPanelRequest)
    then Some((p[|ContextIntro|..head - |LastPanelLabel|], p[head..|p| - |NextPanelRequest|]))
    else None
  }

  /** With no context the first-panel template is used; it embeds the user's
      idea verbatim, so parsing gives it back, and it never reads as a
      continuation prompt. */
  lemma FirstPanelPromptRoundTrip(userPrompt: string)
    ensures ParseFirstPanelPrompt(ScriptPrompt(userPrompt, "")) == Some(userPrompt)
    ensures forall n: nat :: ParseContinuationPrompt(ScriptPrompt(userPrompt, ""), n) == None
  {
    var p := ScriptPrompt(userPrompt, "");
    var a := FirstPanelIntro + userPrompt;
    assert p == a + FirstPanelClose;
    assert p[..|a|] == a;
    assert p[..|FirstPanelIntro|] == a[..|FirstPanelIntro|] == FirstPanelIntro;
    assert p[|p| - |FirstPanelClose|..] == FirstPanelClose;
    assert p[|FirstPanelIntro|..|p| - |FirstPanelClose|] == a[|FirstPanelIntro|..] == userPrompt;
    assert !StartsWith(p, ContextIntro) by {
      assert p[1] == FirstPanelIntro[1] == 'r';
      assert ContextIntro[1] == 'O';
    }
  }

  /** Where each part of a five-part concatenation sits. */
  lemma ConcatSlices(a: string, b: string, c: string, d: string, e: string)
    ensures var p := a + b + c + d + e;
      && |p| == |a| + |b| + |c| + |d| + |e|
      && p[..|a|] == a
      && p[|a|..|a| + |b|] == b
      && p[|a| + |b|..|a| + |b| + |c|] == c
      && p[|a| + |b| + |c|..|p| - |e|] == d
      && p[|p| - |e|..] == e
  {
    var p := a + b + c + d + e;
    assert p == a + (b + (c + (d + e)));
  }

  /** With a context the continuation template is used; it embeds context and
      prompt verbatim, so parsing gives both back, and it never reads as a
      first-panel prompt. */
  lemma ContinuationPromptRoundTrip(userPrompt: string, context: string)
    requires context != ""
    ensures ParseContinuationPrompt(ScriptPrompt(userPrompt, context), |context|) == Some((context, userPrompt))
    ensures ParseFirstPanelPrompt(ScriptPrompt(userPrompt, context)) == None
  {
    var p := ScriptPrompt(userPrompt, context);
    assert p == ContextIntro + context + LastPanelLabel + userPrompt + NextPanelRequest;
    ConcatSlices(ContextIntro, context, LastPanelLabel, userPrompt, NextPanelRequest);
    var head := |ContextIntro| + |context| + |LastPanelLabel|;
    assert StartsWith(p, ContextIntro);
    assert head + |NextPanelRequest| <= |p|;
    assert p[head - |LastPanelLabel|..head] == LastPanelLabel;
    assert EndsWith(p, NextPanelRequest);
    assert p[|ContextIntro|..head - |LastPanelLabel|] == context;
    assert p[head..|p| - |NextPanelRequest|] == userPrompt;
    assert !StartsWith(p, FirstPanelIntro) by {
      assert p[1] == p[..|ContextIntro|][1] == ContextIntro[1] == 'O';
      assert FirstPanelIntro[1] == 'r';
    }
  }

  /** A required script field is present when it is a non-empty string
      (JavaScript treats both a missing field and "" as false). */
  predicate Present(field: Option<string>) {
    field.Some? && field.value != ""
  }

  /** The script stage: a reply is accepted only when it carries both a scene
      description and a panel text; every failure, the missing-field check
      included, surfaces as the one script message. */
  function CheckScript(reply: ScriptReply): (r: Result<Script>)
    ensures r.Ok? <==> reply.ScriptParsed? && Present(reply.fields.sceneDescription)
                                           && Present(reply.fields.panelText)
    ensures r.Ok? ==> (r.value.sceneDescription == reply.fields.sceneDescription.value
                       && r.value.panelText == reply.fields.panelText.value)
    ensures r.Ok? ==> r.value.sceneDescription != "" && r.value.panelText != ""
    ensures r.Err? ==> r.message == ScriptFailureMessage
  {
    match reply
    case ScriptCallFailed => Err(ScriptFailureMessage)
    case ScriptParsed(f) =>
      if Present(f.sceneDescription) && Present(f.panelText)
      then Ok(Script(f.sceneDescription.value, f.panelText.value))
      else Err(ScriptFailureMessage)
  }

  /** The prompt for the image model: the scene description followed by the style. */
  function ImagePrompt(sceneDescription: string): (p: string)
    ensures StartsWith(p, sceneDescription) && EndsWith(p, ImageStyle)
    ensures |p| == |sceneDescription| + |ImageStyle|
  {
    sceneDescription + ImageStyle
  }

  /** The scene description is all an image prompt depends on, and it can be
      read back from the prompt. */
  lemma ImagePromptInjective(a: string, b: string)
    ensures ImagePrompt(a) == ImagePrompt(b) <==> a == b
  {
  }

  /** The first index of `c` in `s`, or -1, as `indexOf` returns it. */
  function IndexOf(s: string, c: char): (i: int)
    ensures -1 <= i < |s|
    ensures i >= 0 ==> s[i] == c && forall k :: 0 <= k < i ==> s[k] != c
    ensures i == -1 ==> forall k :: 0 <= k < |s| ==> s[k] != c
  {
    if s == [] then -1
    else if s[0] == c then 0
    else
      var j := IndexOf(s[1..], c);
      if j < 0 then -1 else j + 1
  }

  /** The parts of a `data:` URL (section 3 of RFC 2397):
      `data:[<mediatype>][;base64],<data>`. */
  datatype DataUrl = DataUrl(mediaType: string, isBase64: bool, data: string)

  function ParseDataUrl(u: string): Option<DataUrl> {
    if !StartsWith(u, "data:") then None
    else
      var rest := u[5..];
      var comma := IndexOf(rest, ',');
      if comma < 0 then None
      else
        var header := rest[..comma];
        var data := rest[comma + 1..];
        if EndsWith(header, ";base64")
        then Some(DataUrl(header[..|header| - 7], true, data))
        else Some(DataUrl(header, false, data))
  }

  /** `c` found after a prefix free of `c` is found exactly where the prefix ends. */
  lemma {:induction false} IndexOfAfter(a: string, c: char, b: string)
    requires forall k :: 0 <= k < |a| ==> a[k] != c
    ensures IndexOf(a + [c] + b, c) == |a|
  {
    if a != [] {
      assert (a + [c] + b)[1..] == a[1..] + [c] + b;
      IndexOfAfter(a[1..], c, b);
    }
  }

  /** A base64 data URL built from a comma-free media type parses back into
      that media type and exactly the data, whatever the data holds. */
  lemma DataUrlRoundTrip(mediaType: string, data: string)
    requires forall k :: 0 <= k < |mediaType| ==> mediaType[k] != ','
    ensures ParseDataUrl("data:" + mediaType + ";base64," + data) == Some(DataUrl(mediaType, true, data))
  {
    var u := "data:" + mediaType + ";base64," + data;
    var header := mediaType + ";base64";
    assert u[..5] == "data:";
    assert u[5..] == header + [','] + data;
    IndexOfAfter(header, ',', data);
    assert (header + [','] + data)[..|header|] == header;
    assert (header + [','] + data)[|header| + 1..] == data;
    assert header[|header| - 7..] == ";base64";
    assert header[..|header| - 7] == mediaType;
  }

  /** The image stage: the first image of a non-empty list, as a base64 JPEG data
      URL; a missing or empty list, or a thrown error, is the one image message. */
  function ImageResult(reply: ImageReply): (r: Result<string>)
    ensures r.Ok? <==> reply.ImagesReturned? && reply.images.Some? && |reply.images.value| > 0
    ensures r.Ok? ==> ParseDataUrl(r.value) == Some(DataUrl("image/jpeg", true, reply.images.value[0]))
    ensures r.Err? ==> r.message == ImageFailureMessage
  {
    if reply.ImagesReturned? && reply.images.Some? && |reply.images.value| > 0 then
      var bytes := reply.images.value[0];
      assert JpegDataUrlPrefix + bytes == "data:" + "image/jpeg" + ";base64," + bytes;
      DataUrlRoundTrip("image/jpeg", bytes);
      Ok(JpegDataUrlPrefix + bytes)
    else Err(ImageFailureMessage)
  }

  /** `generateScriptAndImage`: the script prompt is sent first; only if the
      script passes its check is the image requested, with the script's own scene
      description; the result carries exactly that script and the image. */
  function GenerateScriptAndImage(userPrompt: string, context: string,
                                  script: ScriptReply, image: ImageReply): (x: Exchange)
    ensures x.scriptPrompt == ScriptPrompt(userPrompt, context)
    ensures x.imagePrompt.Some? <==> CheckScript(script).Ok?
    ensures x.imagePrompt.Some? ==> x.imagePrompt.value == ImagePrompt(CheckScript(script).value.sceneDescription)
    ensures x.result.Ok? <==> CheckScript(script).Ok? && ImageResult(image).Ok?
    ensures x.result.Ok? ==>
      && x.result.value.sceneDescription == CheckScript(script).value.sceneDescription
      && x.result.value.panelText == CheckScript(script).value.panelText
      && x.result.value.imageUrl == ImageResult(image).value
    ensures x.result.Err? ==>
      x.result.message == (if CheckScript(script).Err? then ScriptFailureMessage else ImageFailureMessage)
  {
    var prompt := ScriptPrompt(userPrompt, context);
    match CheckScript(script)
    case Err(m) => Exchange(prompt, None, Err(m))
    case Ok(s) =>
      var imagePrompt := ImagePrompt(s.sceneDescription);
      match ImageResult(image)
      case Err(m) => Exchange(prompt, Some(imagePrompt), Err(m))
      case Ok(url) => Exchange(prompt, Some(imagePrompt), Ok(Generated(s.sceneDescription, s.panelText, url)))
  }

  /** The cleanup of a suggestion: trimmed, then every quote character removed. */
  function CleanSuggestion(text: string): (r: string)
    ensures !HasQuote(r)
    ensures |r| <= |Trim(text)|
    ensures forall c :: !IsQuote(c) ==> multiset(r)[c] == multiset(Trim(text))[c]
  {
    RemoveQuotes(Trim(text))
  }

  /** Quotes are removed after trimming, so white space they enclosed stays:
      a reply that ends in a space and a quote gives a suggestion that ends in
      a space, which is not trimmed. */
  lemma CleanSuggestionNotTrimmed(w: string)
    requires w != [] && !IsSpace(w[0]) && !HasQuote(w)
    ensures CleanSuggestion(w + " \"") == w + " "
    ensures Trim(CleanSuggestion(w + " \"")) != CleanSuggestion(w + " \"")
  {
    var u := w + " ";
    assert w + " \"" == u + "\"";
    assert !HasQuote(u) by { NoQuoteAppendSpace(w); }
    TrimUnpadded(u + "\"");
    RemoveQuotesDropsQuote(u);
    TrimDropsTrailingSpace(u);
  }

  /** `suggestContinuation`: the prompt embeds the context verbatim; a reply is
      cleaned of quotes, a thrown error becomes the one suggestion message. */
  function SuggestContinuation(context: string, reply: TextReply): (x: SuggestionExchange)
    ensures StartsWith(x.prompt, SuggestionIntro + context)
    ensures EndsWith(x.prompt, SuggestionRequest)
    ensures |x.prompt| == |SuggestionIntro| + |context| + |SuggestionRequest|
    ensures x.result.Ok? <==> reply.TextReturned?
    ensures x.result.Ok? ==> x.result.value == CleanSuggestion(reply.text) && !HasQuote(x.result.value)
    ensures x.result.Err? ==> x.result.message == SuggestionFailureMessage
  {
    var prompt := SuggestionIntro + context + SuggestionRequest;
    assert prompt[..|SuggestionIntro + context|] == SuggestionIntro + context;
    match reply
    case TextCallFailed => SuggestionExchange(prompt, Err(SuggestionFailureMessage))
    case TextReturned(t) => SuggestionExchange(prompt, Ok(CleanSuggestion(t)))
  }
}
