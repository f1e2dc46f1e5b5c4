# Hair-accessory recolouring app: a verified model of its logic

The application is a single-page React client. A user uploads a product photo and picks
or describes a target colour. The app then asks an image-editing service to recolour the
hair accessory in the photo. This project models the logic behind that in Dafny:

- **`Constants`** (`constants.dfy`): the eight colour presets, the 5 MiB size limit and
  the JPEG/PNG/WebP allow-list.
- **`AspectRatio`** (`aspect_ratio.dfy`): the classifier that snaps width/height to one
  of "1:1", "3:4", "4:3", "9:16" and "16:9". It is the source's loop as a method, proved
  against a recursive specification function and an "earliest nearest" predicate.
- **`UploadZone`** (`upload_zone.dfy`): the file checks in their order (type, then
  size, then read), as a pure validation function and a class holding the `error` and
  `isDragging` state. Calls to the `onImageSelected` callback are recorded in a
  `selections` log.
- **`GeminiService`** (`gemini_service.dfy`): the helpers around the single provider
  call. These are the API-key guard, the data-URL prefix strip
  (`split(',')[1] || s`), the instruction template, the loop that scans the reply parts
  and the data URL built from the first image part.
- **`App`** (`app.dfy`): the application component as a class with one field per
  piece of React state and one method per handler. The invariant `Valid()` is kept by
  every handler. It says the colour fields agree with the selection mode, the aspect
  ratio is a supported key, `Uploading` is never entered, and `Success` always has a
  result. The submit-enabled condition (`App.tsx:240`) is the predicate
  `AppModel.SubmitEnabled`.

The asynchronous steps become separate events. Selecting an image
(`HandleImageSelected`) is one event. The image's later load event that sets the aspect
ratio (`OnImageLoad`) is another. Submitting is split into the start (`HandleProcess`)
and the settling with a result or an error (`CompleteProcess`). `Process` composes
these with the service call for one whole round trip. The provider's reply, the API
key and the outcome of the file read are parameters.

Three details of the code that the model keeps exactly:
- The classifier uses the literals 1.33 and 1.7778 for "4:3" and "16:9" (`App.tsx:24-28`).
- Reset clears only the image and the result and returns to Idle. The colour fields and
  the error message stay as they were (`App.tsx:106-110`).
- The free-text hex test ignores case (`App.tsx:76`). The picker colour is kept unchanged
  for any other text.

## Model

| member | source | states |
|---|---|---|
| `Constants.MaxFileSizeBytes` | constants.ts:14 | The 5 MiB limit is 5 242 880 bytes. `UploadZone.ValidateFile` and `UploadZone.UploadZone.ProcessFile` compare file sizes against it. |
| `Constants.PresetNamesDistinct` | constants.ts:3-12 | There are exactly eight presets and their names are pairwise distinct. |
| `Constants.PresetHexesAreUpperHex` | constants.ts:4-11 | Every preset hex is '#' followed by six upper-case hexadecimal digits. |
| `Constants.PresetPromptsNonEmpty` | constants.ts:4-11 | Every preset's provider description is non-empty. |
| `Constants.PresetNamed` | constants.ts:3-12 | Lookup by name gives a catalogue entry with that name, or None exactly when no entry has it. |
| `Constants.FirstNamedFinds` | constants.ts:3-12 | With distinct names, looking up any entry's name in a list finds that entry. |
| `Constants.PresetLookup` | constants.ts:3-12 | Looking up a catalogue entry's name finds that very entry. |
| `Constants.GoldPreset` | constants.ts:8 | "Gold" has hex #F59E0B and description "metallic gold". |
| `Constants.AllowedTypes` | constants.ts:15 | The allow-list is exactly image/jpeg, image/png and image/webp. |
| `AspectRatio.ClosestIndex` | App.tsx:31-40 | The index the scan holds after n entries is one of those n. |
| `AspectRatio.ClosestIndexIsFirstClosest` | App.tsx:31-41 | Because of the strict `<`, the scan finds the earliest entry whose distance \|w/h − v\| is least. A later tie never replaces it. |
| `AspectRatio.FirstClosestUnique` | App.tsx:34-40 | At most one index is the earliest nearest one, so the classification is determined. |
| `AspectRatio.ClassifyByNearest` | App.tsx:21-42 | Whichever index is the earliest nearest one, the classifier returns its key. |
| `AspectRatio.ClassifyIsNearest` | App.tsx:21-42 | The classifier always returns one of the five keys, and it is the key of the earliest nearest ratio. |
| `AspectRatio.DetermineClosestAspectRatio` | App.tsx:21-42 | The loop with `closest`/`minDiff` returns the classification, the key of the earliest nearest ratio. |
| `AspectRatio.ClassifyExamples` | App.tsx:23-40 | 1000×1000→"1:1", 768×1024→"3:4", 1024×768→"4:3", 1080×1920→"9:16", 1920×1080→"16:9". The exact ties 7×8→"1:1" and 21×32→"3:4" go to the earlier entry. |
| `GeminiService.GetClient` | services/geminiService.ts:3-10 | A client is built exactly when the key is present and non-empty, and it carries that key. Otherwise the missing-key error is thrown. |
| `GeminiService.Split` | services/geminiService.ts:21 | JavaScript's one-character `split` always yields at least one piece, and no piece contains the separator. |
| `GeminiService.JoinSplit` | services/geminiService.ts:21 | Joining the pieces with the separator gives back the input. |
| `GeminiService.SplitPlainPrefix` | services/geminiService.ts:21 | Separator-free leading text joins the first piece. |
| `GeminiService.SplitNoSeparator` | services/geminiService.ts:21 | A separator-free string splits into itself alone. |
| `GeminiService.SplitAtFirst` | services/geminiService.ts:21 | Text up to the first separator is the first piece, and the rest is split on its own. |
| `GeminiService.CleanBase64` | services/geminiService.ts:21 | `split(',')[1] \|\| s` returns either the input itself or a non-empty, comma-free string (which piece, `CleanBase64SecondPiece` says). |
| `GeminiService.CleanBase64NoComma` | services/geminiService.ts:21 | Comma-free input is returned unchanged. |
| `GeminiService.CleanBase64SecondPiece` | services/geminiService.ts:21 | The strip returns the text between the first and second comma when that text is non-empty. Otherwise it returns the whole input. |
| `GeminiService.CleanBase64DataUrl` | services/geminiService.ts:21 | Stripping `data:m;base64,d` gives back d when m and d are comma-free and d is non-empty. |
| `GeminiService.BuildPrompt` | services/geminiService.ts:23-35 | The instruction is the fixed head, then the description verbatim, then the fixed tail. |
| `GeminiService.BuildPromptInjective` | services/geminiService.ts:23-35 | Different descriptions give different instructions. |
| `GeminiService.BuildRequest` | services/geminiService.ts:38-57 | The request names the image model and carries the caller's media type. Its image data is the input or a non-empty comma-free string. Its instruction contains the description verbatim at a fixed offset. Its aspect ratio is the caller's, or "1:1" when none is given. |
| `GeminiService.RequestedAspectRatio` | services/geminiService.ts:16 | The aspect ratio is passed through unchanged, and "1:1" is used when it is omitted. |
| `GeminiService.MimeOrDefault` | services/geminiService.ts:69 | The part's media type is used when it is present and non-empty, and "image/png" otherwise. |
| `GeminiService.FirstImageIndex` | services/geminiService.ts:67-71 | The result is the first part with non-empty inline data, or None when no part has any. |
| `GeminiService.ExtractImage` | services/geminiService.ts:60-73 | The for-loop scan returns the same result as the specification `ExtractedImage`. |
| `GeminiService.FirstImageFound` | services/geminiService.ts:67-70 | An image part preceded only by non-image parts is the first image part. |
| `GeminiService.FirstImageAbsent` | services/geminiService.ts:67-73 | When no part carries an image, none is found. |
| `GeminiService.ExtractedImageErrors` | services/geminiService.ts:61-73 | Absent parts give "No content". Present parts without an image part, including the empty list, give "No image data". Success happens exactly when some part carries an image. |
| `GeminiService.ExtractedImageIgnoresLaterParts` | services/geminiService.ts:67-71 | Parts after an image part do not change the result. |
| `GeminiService.DataUrl` | services/geminiService.ts:69 | The URL is "data:", then the media type, then ";base64,", then the payload, each at its fixed offset. `CleanBase64DataUrl` shows that stripping it gives the payload back. |
| `GeminiService.ImageUrlShape` | services/geminiService.ts:69 | An image part becomes `data:<mime or image/png>;base64,<data>`. |
| `GeminiService.EditAccessoryColor` | services/geminiService.ts:12-78 | A missing key throws before any request is sent. Otherwise one request is sent with the stripped image, the same media type, the template and the aspect ratio. A thrown provider error is rethrown, and a reply yields the scan's result. |
| `UploadZone.TooLargeMessage` | components/UploadZone.tsx:21 | The too-large message has the 5 MB limit written in. |
| `UploadZone.ValidateFile` | components/UploadZone.tsx:15-23 | The type is checked first and the size second. A file passes exactly when its type is allowed and its size is at most 5 242 880 bytes. |
| `UploadZone.SizeLimitBoundary` | components/UploadZone.tsx:20-23 | Exactly 5 242 880 bytes passes and one byte more is too large, because the comparison is a strict `>`. |
| `UploadZone.UploadZone.constructor` | components/UploadZone.tsx:9-10 | The zone starts not dragging, with no error, and with no selection made. |
| `UploadZone.UploadZone.ProcessFile` | components/UploadZone.tsx:12-32 | The old error is cleared. A failed check sets its error and makes no callback. A read failure sets the read error and makes no callback. A successful read leaves no error and makes exactly one callback with the file's own type. |
| `UploadZone.UploadZone.HandleDragOver` | components/UploadZone.tsx:34-37 | Sets `isDragging` and nothing else. |
| `UploadZone.UploadZone.HandleDragLeave` | components/UploadZone.tsx:39-42 | Clears `isDragging` and nothing else. |
| `UploadZone.UploadZone.HandleDrop` | components/UploadZone.tsx:44-51 | Clears `isDragging` and processes only the first dropped file. An empty drop changes nothing else. |
| `UploadZone.UploadZone.HandleInputChange` | components/UploadZone.tsx:53-57 | Processes only the first chosen file, and does nothing for a missing or empty list. |
| `UploadZone.RejectsFormatFirst` | components/UploadZone.tsx:15-18 | One example: a 10 000 000-byte GIF, which fails both checks, gets the format error and no callback. The general fact is in `ValidateFile` and `ProcessFile`. |
| `App.IsHexColor` | App.tsx:76 | `/^#[0-9A-F]{6}$/i`. Every upper-case hex colour passes. Anything that passes is seven characters long, starts with '#' and has no comma. |
| `App.HexColorExamples` | App.tsx:76 | The hex test accepts "#ABCDEF", "#abcdef" and the default "#6366f1". It rejects "Rose Gold", short or long strings, a non-hex digit and a misplaced '#'. |
| `App.PresetHexesPassHexTest` | App.tsx:76 | Every preset hex passes the free-text hex test. |
| `App.PresetFacts` | constants.ts:3-12 | For any catalogue preset, the lookup by its name finds it, the colour fields it sets agree with each other, its description is non-empty and its swatch passes the hex test. |
| `App.AppModel.SubmitEnabled` | App.tsx:240 | The button is enabled only with a non-empty target while no request is running. With a non-empty target it is enabled in Idle, Success and Error. |
| `App.AppModel.constructor` | App.tsx:9-19 | The initial state: Idle, no image, "1:1", empty colours, picker "#6366f1", no preset and no error. |
| `App.AppModel.HandleImageSelected` | App.tsx:44-52 | Sets the image and its type. Clears the result, the target, the custom text and the preset, and returns to Idle. The picker colour, the error message and the aspect ratio are kept. |
| `App.AppModel.OnImageLoad` | App.tsx:53-59 | The load event sets the aspect ratio to the classification of the image size and changes nothing else. |
| `App.AppModel.HandlePresetSelect` | App.tsx:62-67 | Sets the preset name, its description and its swatch, and empties the custom text. The picker then passes the hex test and submission becomes possible unless a request is running. The image, the result and the state are untouched. |
| `App.AppModel.HandleCustomColorChange` | App.tsx:69-79 | The text becomes both the custom and the target colour, and the preset is dropped. The picker takes the text exactly when it passes the hex test, and is unchanged otherwise. |
| `App.AppModel.HandlePickerChange` | App.tsx:81-87 | The picked colour becomes the picker, target and custom colour, and the preset is dropped. |
| `App.AppModel.HandleProcess` | App.tsx:89-96 | With no image or an empty target nothing changes. Otherwise the state becomes Processing, the error is cleared, submission is disabled, and the service gets the current image, type, target and aspect ratio. |
| `App.AppModel.CompleteProcess` | App.tsx:96-103 | Success stores the result and enters Success. Failure enters Error with the fixed message and keeps the previous result. |
| `App.AppModel.Process` | App.tsx:89-104 | The whole submit composed with the service. With no image or no target nothing is sent and the state is unchanged. Otherwise the request built from the image, media type, target and aspect ratio is sent. A missing key or any service error ends in Error with the fixed message. A reply with an image part ends in Success holding its data URL, with the error cleared. The image, its media type, the colours and the aspect ratio are untouched. |
| `App.AppModel.Reset` | App.tsx:106-110 | Clears only the image and the result and enters Idle. The colours and the error message are untouched. |
| `App.GoldThenRoseGold` | App.tsx:62-79 | "Gold" then typing "Rose Gold" sends "Rose Gold", drops the preset and leaves the picker at #F59E0B. |
| `App.TypedHexMovesPicker` | App.tsx:69-79 | Typing "#ABCDEF" sets both the target and the picker to it. |
| `App.SubmitWithoutColor` | App.tsx:89-90 | Submitting with an image but no colour stays Idle and calls nothing. |

## Left out

- Rendering, styling and the header component are not modelled. They carry no logic.
- The provider SDK call itself is left out, along with the environment lookup of the key and console logging. They are network I/O and diagnostics. The key and the reply (parts, or a thrown error) are parameters.
- The `FileReader` and `Image` decoding are left out because they are browser I/O. The read outcome and the decoded width and height are event inputs.
- `downloadImage` is left out. It only manipulates the DOM and builds a file name from the clock.
- `AspectRatio.DetermineClosestAspectRatio`: JavaScript floating point is not modelled. The ratio is a real quotient, and the width and height are required to be positive. Zero sizes (NaN and Infinity in the source) are therefore not covered. `Number.MAX_VALUE` is modelled as an infinite starting value. It differs only for ratios near the largest double.
- `App.AppModel.OnImageLoad`: requires a positive width and height, for the same reason.
- Interleaving of asynchronous completions is not modelled. That covers a load event or a reply arriving after a newer image or a reset. Each event is applied to the state as it is when it arrives. A single request in flight is expressed only by `SubmitEnabled`, as the disabled button does.
- The picker colour passing the hex test is kept only as long as the colour input supplies `#rrggbb` values. `HandlePickerChange` stores whatever it is given, as the source does.
- The texts of the errors the service throws are not modelled. The app only logs them and shows its own fixed message, so the model keeps just their kind (`GeminiService.ServiceError`).
- The unused `ProcessedImage` interface is not modelled. Image payloads and prompt text are opaque strings.
