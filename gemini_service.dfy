/** The request/response logic around the single image-editing call to the provider:
    the API-key guard, the data-URL prefix strip, the instruction template, the scan of
    the response parts and the data URL built from the part it finds. The network call
    itself is not modelled: its reply is a parameter. */
module GeminiService {

  import opened Wrappers

  /** What the service throws. */
  datatype ServiceError =
    | MissingApiKey
    | NoContent
    | NoImageData
    | ProviderError(message: string)


  // ---------------------------------------------------------------------------
  // The key guard

  /** A client bound to the key it was built with. */
  datatype Client = Client(apiKey: string)

  /** A key is usable when it is present and not the empty string (JavaScript truthiness). */
  predicate HasApiKey(apiKey: Option<string>) {
    apiKey.Some? && apiKey.value != ""
  }

  /** Builds a client, or throws when the key is missing or empty. */
  function GetClient(apiKey: Option<string>): (r: Result<Client, ServiceError>)
    ensures r.Success? <==> HasApiKey(apiKey)
    ensures r.Success? ==> r.value.apiKey == apiKey.value
    ensures r.Failure? ==> r.error == MissingApiKey
  {
    if apiKey.None? || apiKey.value == "" then Failure(MissingApiKey)
    else Success(Client(apiKey.value))
  }

  // ---------------------------------------------------------------------------
  // The data-URL prefix strip

  /** JavaScript's `s.split(sep)` for a one-character separator: the maximal runs of
      characters between separators, so n separators give n + 1 pieces. */
  function Split(s: string, sep: char): (pieces: seq<string>)
    ensures |pieces| >= 1
    ensures forall k :: 0 <= k < |pieces| ==> sep !in pieces[k]
    decreases |s|
  {
    if s == [] then [""]
    else if s[0] == sep then [""] + Split(s[1..], sep)
    else
      var rest := Split(s[1..], sep);
      [[s[0]] + rest[0]] + rest[1..]
  }

  /** Joining pieces back with the separator (JavaScript's `pieces.join(sep)`). */
  function Join(pieces: seq<string>, sep: char): string
    requires |pieces| >= 1
  {
    if |pieces| == 1 then pieces[0] else pieces[0] + [sep] + Join(pieces[1..], sep)
  }

  /** Splitting loses nothing: joining the pieces gives back the input. */
  lemma {:induction false} JoinSplit(s: string, sep: char)
    ensures Join(Split(s, sep), sep) == s
  {
    if s != [] {
      JoinSplit(s[1..], sep);
      if s[0] != sep {
        var rest := Split(s[1..], sep);
        if |rest| == 1 {
          assert Join(rest, sep) == rest[0];
        } else {
          assert Join(rest, sep) == rest[0] + [sep] + Join(rest[1..], sep);
          assert [s[0]] + rest[0] + [sep] + Join(rest[1..], sep) == [s[0]] + Join(rest, sep);
        }
      }
    }
  }

  /** A run of non-separator characters glues onto the front of the first piece. */
  lemma {:induction false} SplitPlainPrefix(a: string, t: string, sep: char)
    requires sep !in a
    ensures Split(a + t, sep) == [a + Split(t, sep)[0]] + Split(t, sep)[1..]
  {
    if a != [] {
      var tail := Split(t, sep);
      assert (a + t)[0] == a[0] && a[0] != sep;
      assert (a + t)[1..] == a[1..] + t;
      SplitPlainPrefix(a[1..], t, sep);
      var rest := Split(a[1..] + t, sep);
      assert rest[0] == a[1..] + tail[0] && rest[1..] == tail[1..];
      assert [a[0]] + (a[1..] + tail[0]) == a + tail[0];
    } else {
      var tail := Split(t, sep);
      assert a + t == t && a + tail[0] == tail[0];
      assert tail == [tail[0]] + tail[1..];
    }
  }

  /** A separator-free string is one piece. */
  lemma SplitNoSeparator(a: string, sep: char)
    requires sep !in a
    ensures Split(a, sep) == [a]
  {
    SplitPlainPrefix(a, "", sep);
    assert a + "" == a;
  }

  /** Up to the first separator is the first piece; the rest is split on its own. */
  lemma SplitAtFirst(a: string, t: string, sep: char)
    requires sep !in a
    ensures Split(a + [sep] + t, sep) == [a] + Split(t, sep)
  {
    SplitPlainPrefix(a, [sep] + t, sep);
    assert a + [sep] + t == a + ([sep] + t);
    assert ([sep] + t)[1..] == t;
    assert Split([sep] + t, sep) == [""] + Split(t, sep);
    assert a + "" == a;
  }

  /** `base64Image.split(',')[1] || base64Image`: the text after the first comma up to
      the next comma, or the whole input when that piece is missing or empty. */
  function CleanBase64(s: string): (r: string)
    ensures r == s || (r != "" && ',' !in r)
  {
    var pieces := Split(s, ',');
    if |pieces| >= 2 && pieces[1] != "" then pieces[1] else s
  }

  /** Input without a comma passes through unchanged. */
  lemma CleanBase64NoComma(s: string)
    requires ',' !in s
    ensures CleanBase64(s) == s
  {
    SplitNoSeparator(s, ',');
  }

  /** For s = a,b... with a and b comma-free and b ended by a comma or the end of s, the
      strip gives b when b is non-empty and s itself otherwise. */
  lemma CleanBase64SecondPiece(a: string, b: string, rest: string)
    requires ',' !in a && ',' !in b
    requires rest == [] || rest[0] == ','
    ensures CleanBase64(a + [','] + b + rest) == if b != [] then b else a + [','] + b + rest
  {
    assert a + [','] + b + rest == a + [','] + (b + rest);
    SplitAtFirst(a, b + rest, ',');
    SplitPlainPrefix(b, rest, ',');
    if rest != [] {
      assert rest == [] + [','] + rest[1..];
      SplitAtFirst([], rest[1..], ',');
    }
  }

  /** A data URL as the browser and the service write it. */
  function DataUrl(mimeType: string, data: string): (url: string)
    ensures |url| == 13 + |mimeType| + |data|
    ensures url[..5] == "data:" && url[5..5 + |mimeType|] == mimeType
    ensures url[5 + |mimeType|..13 + |mimeType|] == ";base64," && url[13 + |mimeType|..] == data
  {
    "data:" + mimeType + ";base64," + data
  }

  /** Stripping a data URL recovers its payload when neither the media type nor the
      payload holds a comma and the payload is non-empty. */
  lemma CleanBase64DataUrl(mimeType: string, data: string)
    requires ',' !in mimeType && ',' !in data && data != ""
    ensures CleanBase64(DataUrl(mimeType, data)) == data
  {
    var head := "data:" + mimeType + ";base64";
    assert DataUrl(mimeType, data) == head + [','] + data + [];
    assert ',' !in head by {
      assert head == "data:" + mimeType + ";base64";
      forall i | 0 <= i < |head| ensures head[i] != ',' {
        if 5 <= i < 5 + |mimeType| {
          assert head[i] == mimeType[i - 5];
        }
      }
    }
    CleanBase64SecondPiece(head, data, []);
  }

  // ---------------------------------------------------------------------------
  // The instruction template

  const PromptHead: string :=
    "\n    You are an expert product photographer and editor.\n"
    + "    Task: Recolor the hair accessory (发饰) in this image to: "

  const PromptTail: string :=
    ".\n"
    + "    \n"
    + "    STRICT REQUIREMENTS:\n"
    + "    1. **Texture Fidelity**: Preserve the EXACT material properties. If it is satin, keep the sheen. If velvet, keep the soft pile. If rhinestone, keep the sharp reflections.\n"
    + "    2. **Geometry**: Do not change the shape, size, or position of the accessory.\n"
    + "    3. **High Quality & Low Noise**: The output MUST be crystal clear. Aggressively reduce digital noise and grain. Use professional studio lighting aesthetics.\n"
    + "    4. **Realism**: The result must be photorealistic.\n"
    + "    5. **Background**: Keep the background and surrounding elements (hair, skin) completely unchanged.\n"
    + "    \n"
    + "    Return only the modified image.\n"
    + "  "

  /** The instruction: a fixed text with the colour description inserted verbatim once. */
  function BuildPrompt(targetColorDescription: string): (p: string)
    ensures |p| == |PromptHead| + |targetColorDescription| + |PromptTail|
    ensures p[..|PromptHead|] == PromptHead
    ensures p[|PromptHead|..|PromptHead| + |targetColorDescription|] == targetColorDescription
    ensures p[|PromptHead| + |targetColorDescription|..] == PromptTail
  {
    PromptHead + targetColorDescription + PromptTail
  }

  /** Different descriptions give different instructions. */
  lemma BuildPromptInjective(d1: string, d2: string)
    requires BuildPrompt(d1) == BuildPrompt(d2)
    ensures d1 == d2
  {
    var p := BuildPrompt(d1);
    assert |d1| == |d2|;
    assert d1 == p[|PromptHead|..|PromptHead| + |d1|] == d2;
  }

  // ---------------------------------------------------------------------------
  // The request

  /** The media type and bytes of an inline image part; either may be missing. */
  datatype InlineData = InlineData(mimeType: Option<string>, data: Option<string>)

  /** One part of the provider's reply. */
  datatype Part = Part(inlineData: Option<InlineData>, text: Option<string>)

  /** What is sent to the provider in its single call. */
  datatype Request = Request(
    model: string,
    imageMimeType: string,
    imageData: string,
    prompt: string,
    aspectRatio: string)

  /** How the provider call ends: with a reply whose first candidate's parts may be
      absent, or by throwing. */
  datatype ProviderReply = Replied(parts: Option<seq<Part>>) | Threw(message: string)

  const ModelName: string := "gemini-2.5-flash-image"

  /** The aspect ratio parameter, which defaults to "1:1" when the caller omits it. */
  function RequestedAspectRatio(aspectRatio: Option<string>): (r: string)
    ensures aspectRatio.Some? ==> r == aspectRatio.value
    ensures aspectRatio.None? ==> r == "1:1"
  {
    match aspectRatio
    case Some(a) => a
    case None => "1:1"
  }

  /** The request: the stripped image, its media type unchanged, the instruction and the
      aspect ratio unchanged. */
  function BuildRequest(base64Image: string, mimeType: string, targetColorDescription: string,
                        aspectRatio: Option<string>): (r: Request)
    ensures r.model == ModelName && r.imageMimeType == mimeType
    ensures r.imageData == base64Image || (r.imageData != "" && ',' !in r.imageData)
    ensures |r.prompt| == |PromptHead| + |targetColorDescription| + |PromptTail|
            && r.prompt[|PromptHead|..|PromptHead| + |targetColorDescription|] == targetColorDescription
    ensures aspectRatio.Some? ==> r.aspectRatio == aspectRatio.value
    ensures aspectRatio.None? ==> r.aspectRatio == "1:1"
  {
    Request(ModelName, mimeType, CleanBase64(base64Image), BuildPrompt(targetColorDescription),
            RequestedAspectRatio(aspectRatio))
  }

  // ---------------------------------------------------------------------------
  // The response

  /** A part counts as an image when it has inline data whose payload is non-empty. */
  predicate CarriesImage(p: Part) {
    p.inlineData.Some? && p.inlineData.value.data.Some? && p.inlineData.value.data.value != ""
  }

  /** `mimeType || 'image/png'`. */
  function MimeOrDefault(m: Option<string>): (r: string)
    ensures r != ""
    ensures m.Some? && m.value != "" ==> r == m.value
    ensures m.None? || m.value == "" ==> r == "image/png"
  {
    if m.Some? && m.value != "" then m.value else "image/png"
  }

  /** The data URL the service returns for an image part. */
  function ImageUrl(p: Part): string
    requires CarriesImage(p)
  {
    DataUrl(MimeOrDefault(p.inlineData.value.mimeType), p.inlineData.value.data.value)
  }

  /** The position of the first part that carries an image, if any. */
  function FirstImageIndex(parts: seq<Part>): (r: Option<nat>)
    ensures r.Some? ==> r.value < |parts| && CarriesImage(parts[r.value])
                        && forall j :: 0 <= j < r.value ==> !CarriesImage(parts[j])
    ensures r.None? ==> forall j :: 0 <= j < |parts| ==> !CarriesImage(parts[j])
  {
    if parts == [] then None
    else if CarriesImage(parts[0]) then Some(0)
    else match FirstImageIndex(parts[1..])
      case None => None
      case Some(i) => Some(i + 1)
  }

  /** What the service makes of a reply's parts: an error when they are absent, an error
      when none carries an image, and otherwise the data URL of the first that does. */
  function ExtractedImage(parts: Option<seq<Part>>): Result<string, ServiceError> {
    match parts
    case None => Failure(NoContent)
    case Some(ps) =>
      match FirstImageIndex(ps)
      case None => Failure(NoImageData)
      case Some(i) => Success(ImageUrl(ps[i]))
  }

  /** The scan of the reply as the service writes it: a loop over the parts that returns
      at the first image part and throws when it runs out. */
  method ExtractImage(parts: Option<seq<Part>>) returns (r: Result<string, ServiceError>)
    ensures r == ExtractedImage(parts)
  {
    if parts.None? {
      return Failure(NoContent);
    }
    var ps := parts.value;
    for k := 0 to |ps|
      invariant forall j :: 0 <= j < k ==> !CarriesImage(ps[j])
    {
      var part := ps[k];
      if part.inlineData.Some? && part.inlineData.value.data.Some?
         && part.inlineData.value.data.value != "" {
        FirstImageFound(ps, k);
        return Success(DataUrl(MimeOrDefault(part.inlineData.value.mimeType),
                               part.inlineData.value.data.value));
      }
    }
    FirstImageAbsent(ps);
    return Failure(NoImageData);
  }

  /** A part that carries an image after parts that do not is the first image part. */
  lemma FirstImageFound(ps: seq<Part>, k: nat)
    requires k < |ps| && CarriesImage(ps[k])
    requires forall j :: 0 <= j < k ==> !CarriesImage(ps[j])
    ensures FirstImageIndex(ps) == Some(k)
  {
  }

  lemma FirstImageAbsent(ps: seq<Part>)
    requires forall j :: 0 <= j < |ps| ==> !CarriesImage(ps[j])
    ensures FirstImageIndex(ps) == None
  {
  }

  /** Absent parts give "No content"; present parts with no image part, the empty list
      among them, give "No image data". */
  lemma ExtractedImageErrors(parts: Option<seq<Part>>)
    ensures parts.None? ==> ExtractedImage(parts) == Failure(NoContent)
    ensures parts == Some([]) ==> ExtractedImage(parts) == Failure(NoImageData)
    ensures ExtractedImage(parts).Failure? && parts.Some?
            ==> ExtractedImage(parts) == Failure(NoImageData)
                && forall j :: 0 <= j < |parts.value| ==> !CarriesImage(parts.value[j])
    ensures ExtractedImage(parts).Success? <==>
            parts.Some? && exists j :: 0 <= j < |parts.value| && CarriesImage(parts.value[j])
  {
  }

  /** Once an image part has been seen, later parts are ignored. */
  lemma ExtractedImageIgnoresLaterParts(ps: seq<Part>, more: seq<Part>, k: nat)
    requires k < |ps| && CarriesImage(ps[k])
    ensures ExtractedImage(Some(ps + more)) == ExtractedImage(Some(ps))
  {
    var i := FirstImageIndex(ps).value;
    assert (ps + more)[i] == ps[i];
    FirstImageFound(ps + more, i);
  }

  /** The URL's media type is the part's own one, or image/png when that is missing or
      empty; the payload is the part's data. */
  lemma ImageUrlShape(m: Option<string>, data: string, text: Option<string>)
    requires data != ""
    ensures ExtractedImage(Some([Part(Some(InlineData(m, Some(data))), text)]))
            == Success(DataUrl(if m.Some? && m.value != "" then m.value else "image/png", data))
  {
  }

  // ---------------------------------------------------------------------------
  // The whole call

  /** `editAccessoryColor`: the key guard runs before anything is sent; then the single
      request goes out and its reply is scanned. Returns the request that was sent,
      if any, and the data URL or the error thrown. */
  method EditAccessoryColor(apiKey: Option<string>, base64Image: string, mimeType: string,
                            targetColorDescription: string, aspectRatio: Option<string>,
                            reply: ProviderReply)
    returns (sent: Option<Request>, r: Result<string, ServiceError>)
    ensures sent.None? <==> !HasApiKey(apiKey)
    ensures sent.None? ==> r == Failure(MissingApiKey)
    ensures sent.Some? ==>
              sent.value == BuildRequest(base64Image, mimeType, targetColorDescription, aspectRatio)
    ensures sent.Some? && reply.Threw? ==> r == Failure(ProviderError(reply.message))
    ensures sent.Some? && reply.Replied? ==> r == ExtractedImage(reply.parts)
  {
    var client := GetClient(apiKey);
    if client.Failure? {
      return None, Failure(client.error);
    }
    var cleanBase64 := CleanBase64(base64Image);
    var prompt := BuildPrompt(targetColorDescription);
    sent := Some(Request(ModelName, mimeType, cleanBase64, prompt, RequestedAspectRatio(aspectRatio)));
    match reply
    case Threw(message) =>
      r := Failure(ProviderError(message));
    case Replied(parts) =>
      r := ExtractImage(parts);
  }
}
