/** The application component: the process state, the uploaded image and the colour
    selection kept in step across three inputs (preset swatches, free text, colour
    picker). Each event handler is a method. The asynchronous steps are split into
    separate events: selecting an image and the image's load event that reports its
    size; starting the edit request and its settling with a result or an error. */
module App {

  import opened Wrappers
  import opened Constants
  import AspectRatio
  import GeminiService

  /** The process states. `Uploading` is declared by the application but never entered. */
  datatype AppState = Idle | Uploading | Processing | Success | Error

  const DefaultPickerColor: string := "#6366f1"
  const ProcessErrorMessage: string := "处理图片时出错，请重试。"

  predicate IsHexDigit(c: char) {
    '0' <= c <= '9' || 'A' <= c <= 'F' || 'a' <= c <= 'f'
  }

  /** The test `/^#[0-9A-F]{6}$/i`: '#' then exactly six hexadecimal digits in either case. */
  predicate IsHexColor(s: string): (b: bool)
    ensures IsUpperHexColor(s) ==> b
    ensures b ==> |s| == 7 && s[0] == '#' && ',' !in s
  {
    |s| == 7 && s[0] == '#' && forall i :: 1 <= i < 7 ==> IsHexDigit(s[i])
  }

  /** The colour test on the values it is meant to tell apart. */
  lemma HexColorExamples()
    ensures IsHexColor("#ABCDEF") && IsHexColor("#abcdef") && IsHexColor(DefaultPickerColor)
    ensures !IsHexColor("Rose Gold") && !IsHexColor("#ABCDE") && !IsHexColor("#ABCDEG")
    ensures !IsHexColor("ABCDEF#") && !IsHexColor("#ABCDEF0")
  {
    assert "#ABCDEG"[6] == 'G';
    assert "ABCDEF#"[0] == 'A';
    var d := DefaultPickerColor;
    assert IsHexDigit(d[1]) && IsHexDigit(d[2]) && IsHexDigit(d[3]);
    assert IsHexDigit(d[4]) && IsHexDigit(d[5]) && IsHexDigit(d[6]);
    var u := "#ABCDEF";
    assert IsHexDigit(u[1]) && IsHexDigit(u[2]) && IsHexDigit(u[3]);
    assert IsHexDigit(u[4]) && IsHexDigit(u[5]) && IsHexDigit(u[6]);
    var l := "#abcdef";
    assert IsHexDigit(l[1]) && IsHexDigit(l[2]) && IsHexDigit(l[3]);
    assert IsHexDigit(l[4]) && IsHexDigit(l[5]) && IsHexDigit(l[6]);
  }

  /** Every preset swatch passes the colour test, so selecting a preset keeps the picker
      showing a valid colour. */
  lemma PresetHexesPassHexTest()
    ensures forall p :: p in ColorPresets ==> IsHexColor(p.hex)
  {
    PresetHexesAreUpperHex();
  }

  /** What selecting a catalogue preset relies on: the lookup by its name finds it, so the
      colour fields it sets agree with each other, its description is non-empty and its
      swatch passes the hex test. */
  lemma PresetFacts(preset: ColorPreset)
    requires preset in ColorPresets
    ensures PresetNamed(preset.name) == Some(preset)
    ensures ColorsConsistent(Some(preset.name), "", preset.promptValue)
    ensures preset.promptValue != "" && IsHexColor(preset.hex)
  {
    PresetLookup(preset);
    PresetPromptsNonEmpty();
    PresetHexesPassHexTest();
  }

  /** The colour fields agree with the selection mode: a selected preset owns the target
      text and the free-text box is empty; with no preset the target is the free text. */
  ghost predicate ColorsConsistent(selectedPreset: Option<string>, customColor: string, targetColor: string) {
    match selectedPreset
    case Some(name) =>
      PresetNamed(name).Some? && customColor == "" && targetColor == PresetNamed(name).value.promptValue
    case None =>
      targetColor == customColor
  }

  /** The arguments of one call to the editing service. */
  datatype EditCall = EditCall(image: string, mimeType: string, targetColor: string, aspectRatio: string)

  class AppModel {
    var appState: AppState
    var originalImage: Option<string>
    var mimeType: string
    var aspectRatio: string
    var processedImage: Option<string>
    var targetColor: string
    var customColor: string
    var pickerColor: string
    var selectedPreset: Option<string>
    var errorMsg: Option<string>

    /** The invariant every handler preserves. */
    ghost predicate Valid()
      reads this
    {
      ColorsConsistent(selectedPreset, customColor, targetColor)
      && AspectRatio.IsSupportedKey(aspectRatio)
      && appState != Uploading
      && (appState == AppState.Success ==> processedImage.Some?)
    }

    /** An image is present in the JavaScript sense: neither null nor the empty string. */
    predicate HasImage()
      reads this
    {
      originalImage.Some? && originalImage.value != ""
    }

    /** The submit button is enabled when there is a colour and no request is running. */
    predicate SubmitEnabled(): (enabled: bool)
      reads this
      ensures enabled ==> targetColor != "" && appState != Processing
      ensures targetColor != "" && appState in {Idle, AppState.Success, Error} ==> enabled
    {
      targetColor != "" && appState != Processing
    }

    constructor()
      ensures Valid()
      ensures appState == Idle && originalImage == None && mimeType == "" && aspectRatio == "1:1"
      ensures processedImage == None && targetColor == "" && customColor == ""
      ensures pickerColor == DefaultPickerColor && selectedPreset == None && errorMsg == None
    {
      appState := Idle;
      originalImage := None;
      mimeType := "";
      aspectRatio := "1:1";
      processedImage := None;
      targetColor := "";
      customColor := "";
      pickerColor := DefaultPickerColor;
      selectedPreset := None;
      errorMsg := None;
    }

    /** A new image replaces the old one, drops the result and the colour choice, and
        returns to Idle. The aspect ratio waits for the image's load event; the picker
        colour and the error message are kept. */
    method HandleImageSelected(base64: string, fileType: string)
      requires Valid()
      modifies this
      ensures Valid()
      ensures originalImage == Some(base64) && mimeType == fileType
      ensures processedImage == None && appState == Idle
      ensures targetColor == "" && customColor == "" && selectedPreset == None
      ensures pickerColor == old(pickerColor) && errorMsg == old(errorMsg)
      ensures aspectRatio == old(aspectRatio)
    {
      originalImage := Some(base64);
      mimeType := fileType;
      processedImage := None;
      appState := Idle;
      targetColor := "";
      customColor := "";
      selectedPreset := None;
    }

    /** The image's load event: the aspect ratio becomes the classification of its size. */
    method OnImageLoad(width: int, height: int)
      requires Valid()
      requires width > 0 && height > 0
      modifies this
      ensures Valid()
      ensures aspectRatio == AspectRatio.Classify(width, height)
      ensures appState == old(appState) && originalImage == old(originalImage)
      ensures mimeType == old(mimeType) && processedImage == old(processedImage)
      ensures targetColor == old(targetColor) && customColor == old(customColor)
      ensures pickerColor == old(pickerColor) && selectedPreset == old(selectedPreset)
      ensures errorMsg == old(errorMsg)
    {
      var ar := AspectRatio.DetermineClosestAspectRatio(width, height);
      AspectRatio.ClassifyIsNearest(width, height);
      aspectRatio := ar;
    }

    /** Selecting a catalogue preset makes it the selection, sends its description,
        empties the free text and shows its swatch in the picker. */
    method HandlePresetSelect(preset: ColorPreset)
      requires Valid()
      requires preset in ColorPresets
      modifies this
      ensures Valid()
      ensures selectedPreset == Some(preset.name) && targetColor == preset.promptValue
      ensures customColor == "" && pickerColor == preset.hex
      ensures IsHexColor(pickerColor) && targetColor != ""
      ensures old(appState) != Processing ==> SubmitEnabled()
      ensures appState == old(appState) && originalImage == old(originalImage)
      ensures mimeType == old(mimeType) && aspectRatio == old(aspectRatio)
      ensures processedImage == old(processedImage) && errorMsg == old(errorMsg)
    {
      selectedPreset := Some(preset.name);
      targetColor := preset.promptValue;
      customColor := "";
      pickerColor := preset.hex;
      // The untouched fields are settled before the catalogue facts enter the proof.
      assert appState == old(appState) && originalImage == old(originalImage);
      assert mimeType == old(mimeType) && aspectRatio == old(aspectRatio);
      assert processedImage == old(processedImage) && errorMsg == old(errorMsg);
      assert IsHexColor(pickerColor) && targetColor != "" && Valid() by {
        PresetFacts(preset);
      }
    }

    /** Typing in the free-text box: the text becomes the target, the preset is dropped,
        and the picker follows the text only when the text is a hex colour. */
    method HandleCustomColorChange(val: string)
      requires Valid()
      modifies this
      ensures Valid()
      ensures customColor == val && targetColor == val && selectedPreset == None
      ensures IsHexColor(val) ==> pickerColor == val
      ensures !IsHexColor(val) ==> pickerColor == old(pickerColor)
      ensures IsHexColor(old(pickerColor)) ==> IsHexColor(pickerColor)
      ensures appState == old(appState) && originalImage == old(originalImage)
      ensures mimeType == old(mimeType) && aspectRatio == old(aspectRatio)
      ensures processedImage == old(processedImage) && errorMsg == old(errorMsg)
    {
      customColor := val;
      targetColor := val;
      selectedPreset := None;
      if IsHexColor(val) {
        pickerColor := val;
      }
    }

    /** Picking a colour: it becomes the picker colour, the target and the free text,
        and the preset is dropped. */
    method HandlePickerChange(color: string)
      requires Valid()
      modifies this
      ensures Valid()
      ensures pickerColor == color && targetColor == color && customColor == color
      ensures selectedPreset == None
      ensures appState == old(appState) && originalImage == old(originalImage)
      ensures mimeType == old(mimeType) && aspectRatio == old(aspectRatio)
      ensures processedImage == old(processedImage) && errorMsg == old(errorMsg)
    {
      pickerColor := color;
      targetColor := color;
      customColor := color;
      selectedPreset := None;
    }

    /** The submit handler up to its await: with no image or no colour nothing happens;
        otherwise the state becomes Processing, the error is cleared and the service is
        called with the image, its media type, the colour and the aspect ratio as they are. */
    method HandleProcess() returns (call: Option<EditCall>)
      requires Valid()
      modifies this
      ensures Valid()
      ensures call.None? <==> !old(HasImage()) || old(targetColor) == ""
      ensures call.None? ==> appState == old(appState) && errorMsg == old(errorMsg)
      ensures call.Some? ==> appState == Processing && errorMsg == None && !SubmitEnabled()
      ensures call.Some? ==> call.value == EditCall(old(originalImage).value, old(mimeType),
                                                    old(targetColor), old(aspectRatio))
      ensures originalImage == old(originalImage) && mimeType == old(mimeType)
      ensures aspectRatio == old(aspectRatio) && processedImage == old(processedImage)
      ensures targetColor == old(targetColor) && customColor == old(customColor)
      ensures pickerColor == old(pickerColor) && selectedPreset == old(selectedPreset)
    {
      if originalImage.None? || originalImage.value == "" || targetColor == "" {
        return None;
      }
      appState := Processing;
      errorMsg := None;
      call := Some(EditCall(originalImage.value, mimeType, targetColor, aspectRatio));
    }

    /** The awaited call settles: a result is stored and the state becomes Success; any
        error gives Error and the fixed message, and the previous result stays. */
    method CompleteProcess(outcome: Result<string, GeminiService.ServiceError>)
      requires Valid()
      modifies this
      ensures Valid()
      ensures outcome.Success? ==> processedImage == Some(outcome.value) && appState == AppState.Success
      ensures outcome.Success? ==> errorMsg == old(errorMsg)
      ensures outcome.Failure? ==> appState == Error && errorMsg == Some(ProcessErrorMessage)
      ensures outcome.Failure? ==> processedImage == old(processedImage)
      ensures originalImage == old(originalImage) && mimeType == old(mimeType)
      ensures aspectRatio == old(aspectRatio)
      ensures targetColor == old(targetColor) && customColor == old(customColor)
      ensures pickerColor == old(pickerColor) && selectedPreset == old(selectedPreset)
    {
      match outcome
      case Success(result) =>
        processedImage := Some(result);
        appState := AppState.Success;
      case Failure(_) =>
        appState := Error;
        errorMsg := Some(ProcessErrorMessage);
    }

    /** The whole submit, with the service call in between: the key and the provider's
        reply are inputs. */
    method Process(apiKey: Option<string>, reply: GeminiService.ProviderReply)
      returns (sent: Option<GeminiService.Request>)
      requires Valid()
      modifies this
      ensures Valid()
      ensures !old(HasImage()) || old(targetColor) == "" ==>
                sent.None? && appState == old(appState) && processedImage == old(processedImage)
                && errorMsg == old(errorMsg)
      ensures old(HasImage()) && old(targetColor) != "" && !GeminiService.HasApiKey(apiKey) ==>
                sent.None? && appState == Error && errorMsg == Some(ProcessErrorMessage)
                && processedImage == old(processedImage)
      ensures old(HasImage()) && old(targetColor) != "" && GeminiService.HasApiKey(apiKey) ==>
                sent == Some(GeminiService.BuildRequest(old(originalImage).value, old(mimeType),
                                                        old(targetColor), Some(old(aspectRatio))))
      ensures sent.Some? && reply.Replied? && GeminiService.ExtractedImage(reply.parts).Success? ==>
                appState == AppState.Success && errorMsg == None
                && processedImage == Some(GeminiService.ExtractedImage(reply.parts).value)
      ensures sent.Some? && (reply.Threw? || GeminiService.ExtractedImage(reply.parts).Failure?) ==>
                appState == Error && errorMsg == Some(ProcessErrorMessage)
                && processedImage == old(processedImage)
      ensures originalImage == old(originalImage) && targetColor == old(targetColor)
      ensures customColor == old(customColor) && pickerColor == old(pickerColor)
      ensures selectedPreset == old(selectedPreset) && aspectRatio == old(aspectRatio)
      ensures mimeType == old(mimeType)
    {
      var call := HandleProcess();
      if call.None? {
        return None;
      }
      var result;
      sent, result := GeminiService.EditAccessoryColor(apiKey, call.value.image, call.value.mimeType,
                                                       call.value.targetColor, Some(call.value.aspectRatio),
                                                       reply);
      CompleteProcess(result);
      // What settled the call is the scan of the reply's parts.
      assert sent.Some? && reply.Replied? ==> result == GeminiService.ExtractedImage(reply.parts);
    }

    /** Reset drops the image and the result and returns to Idle; the colour fields, the
        media type, the aspect ratio and the error message stay. */
    method Reset()
      requires Valid()
      modifies this
      ensures Valid()
      ensures originalImage == None && processedImage == None && appState == Idle
      ensures mimeType == old(mimeType) && aspectRatio == old(aspectRatio)
      ensures targetColor == old(targetColor) && customColor == old(customColor)
      ensures pickerColor == old(pickerColor) && selectedPreset == old(selectedPreset)
      ensures errorMsg == old(errorMsg)
    {
      originalImage := None;
      processedImage := None;
      appState := Idle;
    }
  }

  /** Selecting "Gold" and then typing "Rose Gold": the preset is dropped, the text is
      sent, and the picker keeps the gold swatch because the text is not a hex colour. */
  method GoldThenRoseGold() returns (target: string, picker: string, preset: Option<string>)
    ensures target == "Rose Gold" && picker == "#F59E0B" && preset == None
  {
    var app := new AppModel();
    GoldPreset();
    var gold := PresetNamed("Gold").value;
    app.HandlePresetSelect(gold);
    assert app.targetColor == "metallic gold" && app.pickerColor == "#F59E0B";
    HexColorExamples();
    app.HandleCustomColorChange("Rose Gold");
    target, picker, preset := app.targetColor, app.pickerColor, app.selectedPreset;
  }

  /** Typing a hex colour moves the picker to it. */
  method TypedHexMovesPicker() returns (target: string, picker: string)
    ensures target == "#ABCDEF" && picker == "#ABCDEF"
  {
    var app := new AppModel();
    HexColorExamples();
    app.HandleCustomColorChange("#ABCDEF");
    target, picker := app.targetColor, app.pickerColor;
  }

  /** Submitting without a colour does nothing, even with an image. */
  method SubmitWithoutColor() returns (state: AppState, call: Option<EditCall>)
    ensures state == Idle && call == None
  {
    var app := new AppModel();
    app.HandleImageSelected("data:image/png;base64,iVBO", "image/png");
    call := app.HandleProcess();
    state := app.appState;
  }
}
