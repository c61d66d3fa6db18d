/**
 * The AI style studio: a simulation tab that asks the image service for a
 * new portrait and an advice tab that asks for a written consultation with
 * suggested styles. A request runs in two steps: the synchronous part of
 * the handler (guard and resets), then one of the reply handlers when the
 * service answers or fails. The service itself is not modelled: what is
 * sent is returned as a `Request` and the reply is a parameter.
 */
module StyleConsultant {
  import opened Types
  import opened JsText
  import opened TagExtraction

  datatype ConsultantTab = SimulationTab | AdviceTab

  /** One part of an image-service reply: inline image data or text. */
  datatype Part = Part(inlineData: Option<string>, text: Option<string>)

  /** What a handler hands to the service, if anything. */
  datatype Request =
    | Ignored
    | UploadFirst
    | SimulationRequest(imageUrl: string, prompt: string)
    | AdviceRequest(photo: Option<string>, extra: string)
    | StyleRequest(photoUrl: string, styleName: string)

  const UploadMessage: string := "Vui lòng tải ảnh lên để thực hiện mô phỏng."
  const ErrorMessage: string := "Có lỗi xảy ra. Vui lòng thử lại."
  const ImagePrefix: string := "data:image/png;base64,"

  /** `customPrompt || prompt`: a missing or empty custom prompt falls back
      to the typed one. */
  function EffectivePrompt(custom: Option<string>, typed: string): (r: string)
    ensures custom.Some? && custom.value != "" ==> r == custom.value
    ensures custom.None? || custom.value == "" ==> r == typed
    ensures r == "" <==> (custom.None? || custom.value == "") && typed == ""
  {
    if custom.Some? && custom.value != "" then custom.value else typed
  }

  /** The text a part contributes to the recommendation: parts carrying
      image data contribute nothing, whatever text they hold. */
  function PartText(part: Part): string {
    if part.inlineData.Some? then "" else if part.text.Some? then part.text.value else ""
  }

  /** The text parts of a reply, in reply order. */
  function TextOf(parts: seq<Part>): string {
    if parts == [] then "" else PartText(parts[0]) + TextOf(parts[1..])
  }

  /** The reply's text is the concatenation of the texts of its pieces. */
  lemma {:induction false} TextOfAppend(xs: seq<Part>, ys: seq<Part>)
    ensures TextOf(xs + ys) == TextOf(xs) + TextOf(ys)
  {
    if xs == [] {
      assert xs + ys == ys;
    } else {
      assert (xs + ys)[0] == xs[0] && (xs + ys)[1..] == xs[1..] + ys;
      TextOfAppend(xs[1..], ys);
    }
  }

  /** The image data of the last part that carries any: the one left on
      screen after the loop has set each in turn. */
  function LastImage(parts: seq<Part>): (r: Option<string>)
    ensures r.None? <==> forall i :: 0 <= i < |parts| ==> parts[i].inlineData.None?
    ensures r.Some? ==>
      exists i :: 0 <= i < |parts| && parts[i].inlineData == r && (forall j :: i < j < |parts| ==> parts[j].inlineData.None?)
  {
    if parts == [] then None
    else if parts[|parts| - 1].inlineData.Some? then parts[|parts| - 1].inlineData
    else
      var r := LastImage(parts[..|parts| - 1]);
      assert forall i :: 0 <= i < |parts| - 1 ==> parts[..|parts| - 1][i] == parts[i];
      r
  }

  /** The image on screen after the image parts of `parts` are shown, with
      `before` on screen at the start. */
  function Shown(parts: seq<Part>, before: Option<string>): Option<string>
  {
    if LastImage(parts).Some? then Some(ImagePrefix + LastImage(parts).value) else before
  }

  /** One more part: its text goes after the text so far, and its image
      data, if any, becomes the last image. */
  lemma PrefixStep(parts: seq<Part>, i: nat, before: Option<string>)
    requires i < |parts|
    ensures TextOf(parts[..i + 1]) == TextOf(parts[..i]) + PartText(parts[i])
    ensures Shown(parts[..i + 1], before) ==
      if parts[i].inlineData.Some? then Some(ImagePrefix + parts[i].inlineData.value) else Shown(parts[..i], before)
  {
    assert parts[..i + 1] == parts[..i] + [parts[i]];
    TextOfAppend(parts[..i], [parts[i]]);
    assert parts[..i + 1][..i] == parts[..i];
  }

  class Consultant {
    var activeTab: ConsultantTab
    var prompt: string
    var image: Option<string>
    var generatedImage: Option<string>
    var recommendation: string
    var suggestedStyles: seq<string>
    var loading: bool

    /** The studio opens on the simulation tab with everything empty. */
    constructor ()
      ensures activeTab == SimulationTab && prompt == "" && image == None && generatedImage == None
      ensures recommendation == "" && suggestedStyles == [] && !loading
    {
      activeTab, prompt, image, generatedImage := SimulationTab, "", None, None;
      recommendation, suggestedStyles, loading := "", [], false;
    }

    /** The file reader has produced a data URL: it becomes the photo and
        every previous result is cleared. */
    method LoadImage(dataUrl: string)
      modifies this
      ensures image == Some(dataUrl) && generatedImage == None
      ensures recommendation == "" && suggestedStyles == []
      ensures activeTab == old(activeTab) && prompt == old(prompt) && loading == old(loading)
    {
      image := Some(dataUrl);
      generatedImage := None;
      recommendation := "";
      suggestedStyles := [];
    }

    /** The prompt box's change event. */
    method TypePrompt(value: string)
      modifies this
      ensures prompt == value
      ensures activeTab == old(activeTab) && image == old(image) && generatedImage == old(generatedImage)
      ensures recommendation == old(recommendation) && suggestedStyles == old(suggestedStyles) && loading == old(loading)
    {
      prompt := value;
    }

    /** `clearImage`: the photo and every result are cleared. */
    method ClearImage()
      modifies this
      ensures image == None && generatedImage == None && recommendation == "" && suggestedStyles == []
      ensures activeTab == old(activeTab) && prompt == old(prompt) && loading == old(loading)
    {
      image := None;
      generatedImage := None;
      recommendation := "";
      suggestedStyles := [];
    }

    /** A tab button: switches tab and clears the results, keeping the photo
        and the prompt. */
    method SelectTab(tab: ConsultantTab)
      modifies this
      ensures activeTab == tab && recommendation == "" && generatedImage == None && suggestedStyles == []
      ensures image == old(image) && prompt == old(prompt) && loading == old(loading)
    {
      activeTab := tab;
      recommendation := "";
      generatedImage := None;
      suggestedStyles := [];
    }

    /** The synchronous part of `processAI`. With no photo and a blank
        effective prompt nothing happens. Otherwise the results are reset
        and loading starts; on the simulation tab without a photo the
        upload message is shown and loading ends at once. The request sent
        is returned. */
    method ProcessAI(customPrompt: Option<string>) returns (sent: Request)
      modifies this
      ensures image == old(image) && prompt == old(prompt)
      ensures sent == Ignored <==> image.None? && Trim(EffectivePrompt(customPrompt, old(prompt))) == ""
      ensures sent == Ignored ==>
        && activeTab == old(activeTab)
        && generatedImage == old(generatedImage) && recommendation == old(recommendation)
        && suggestedStyles == old(suggestedStyles) && loading == old(loading)
      ensures sent != Ignored ==>
        && generatedImage == None && suggestedStyles == [] && activeTab == old(activeTab)
      ensures sent == UploadFirst <==> old(activeTab) == SimulationTab && image.None? && Trim(EffectivePrompt(customPrompt, old(prompt))) != ""
      ensures sent == UploadFirst ==> recommendation == UploadMessage && !loading
      ensures sent.SimulationRequest? ==>
        && activeTab == SimulationTab && image.Some? && sent.imageUrl == image.value
        && sent.prompt == EffectivePrompt(customPrompt, old(prompt))
        && recommendation == "" && loading
      ensures sent.AdviceRequest? ==>
        && activeTab == AdviceTab && sent.photo == image
        && sent.extra == EffectivePrompt(customPrompt, old(prompt))
        && recommendation == "" && loading
      ensures !sent.StyleRequest?
    {
      var finalPrompt := EffectivePrompt(customPrompt, prompt);
      if image.None? && Trim(finalPrompt) == "" {
        return Ignored;
      }
      loading := true;
      recommendation := "";
      generatedImage := None;
      suggestedStyles := [];
      if activeTab == SimulationTab {
        if image.None? {
          recommendation := UploadMessage;
          loading := false;
          return UploadFirst;
        }
        sent := SimulationRequest(image.value, finalPrompt);
      } else {
        sent := AdviceRequest(image, finalPrompt);
      }
    }

    /** The simulation reply of `processAI`: each part in turn either sets
        the generated image or appends its text to the recommendation as it
        stands when the reply arrives. Loading ends. */
    method ReceiveSimulationReply(parts: seq<Part>)
      modifies this
      ensures recommendation == old(recommendation) + TextOf(parts)
      ensures generatedImage == Shown(parts, old(generatedImage))
      ensures !loading
      ensures activeTab == old(activeTab) && prompt == old(prompt) && image == old(image)
      ensures suggestedStyles == old(suggestedStyles)
    {
      // The state setters called in the loop take effect together once the
      // handler is done; `text` and `shown` hold the pending values.
      var text, shown := recommendation, generatedImage;
      var i := 0;
      while i < |parts|
        invariant 0 <= i <= |parts|
        modifies {}
        invariant text == recommendation + TextOf(parts[..i])
        invariant shown == Shown(parts[..i], generatedImage)
      {
        var part := parts[i];
        PrefixStep(parts, i, generatedImage);
        if part.inlineData.Some? {
          shown := Some(ImagePrefix + part.inlineData.value);
        } else if part.text.Some? {
          text := text + part.text.value;
        }
        i := i + 1;
      }
      assert parts[..i] == parts;
      recommendation, generatedImage, loading := text, shown, false;
    }

    /** The advice reply of `processAI` (an absent text counts as empty):
        the recommendation is the reply with its tag block removed and the
        suggestions are its tags, when a block with a non-empty capture is
        found; otherwise the reply is shown as it is and the suggestions are
        left as they were. Loading ends. */
    method ReceiveAdviceReply(fullText: string)
      modifies this
      ensures var advice := ExtractAdvice(fullText);
        && recommendation == advice.recommendation
        && suggestedStyles == (if advice.tags.Some? then advice.tags.value else old(suggestedStyles))
      ensures !loading
      ensures activeTab == old(activeTab) && prompt == old(prompt) && image == old(image)
      ensures generatedImage == old(generatedImage)
    {
      var advice := ExtractAdvice(fullText);
      if advice.tags.Some? {
        suggestedStyles := advice.tags.value;
      }
      recommendation := advice.recommendation;
      loading := false;
    }

    /** A failed `processAI` request: the error message is shown and
        loading ends. */
    method ReceiveFailure()
      modifies this
      ensures recommendation == ErrorMessage && !loading
      ensures activeTab == old(activeTab) && prompt == old(prompt) && image == old(image)
      ensures generatedImage == old(generatedImage) && suggestedStyles == old(suggestedStyles)
    {
      recommendation := ErrorMessage;
      loading := false;
    }

    /** The synchronous part of `runSimulation` for a suggested style:
        nothing without a photo; otherwise loading starts, the generated
        image is cleared and the simulation tab is shown. */
    method RunSimulation(styleName: string) returns (sent: Request)
      modifies this
      ensures image.None? <==> sent == Ignored
      ensures sent == Ignored ==>
        && activeTab == old(activeTab) && generatedImage == old(generatedImage) && loading == old(loading)
      ensures sent != Ignored ==>
        && sent == StyleRequest(image.value, styleName)
        && loading && generatedImage == None && activeTab == SimulationTab
      ensures prompt == old(prompt) && image == old(image)
      ensures recommendation == old(recommendation) && suggestedStyles == old(suggestedStyles)
    {
      if image.None? {
        return Ignored;
      }
      loading := true;
      generatedImage := None;
      activeTab := SimulationTab;
      sent := StyleRequest(image.value, styleName);
    }

    /** The reply to `runSimulation`: only image parts are read; the last
        one stays on screen. Loading ends, also when the request failed
        (then `parts` is empty). */
    method ReceiveStyleImage(parts: seq<Part>)
      modifies this
      ensures generatedImage == Shown(parts, old(generatedImage))
      ensures !loading
      ensures activeTab == old(activeTab) && prompt == old(prompt) && image == old(image)
      ensures recommendation == old(recommendation) && suggestedStyles == old(suggestedStyles)
    {
      var shown := generatedImage;
      var i := 0;
      while i < |parts|
        invariant 0 <= i <= |parts|
        modifies {}
        invariant shown == Shown(parts[..i], generatedImage)
      {
        PrefixStep(parts, i, generatedImage);
        if parts[i].inlineData.Some? {
          shown := Some(ImagePrefix + parts[i].inlineData.value);
        }
        i := i + 1;
      }
      assert parts[..i] == parts;
      generatedImage, loading := shown, false;
    }
  }
}
