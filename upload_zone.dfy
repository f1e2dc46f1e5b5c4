/** The upload zone: it checks a dropped or picked file (type first, then size), reads it
    and hands the data URL and media type to the application. Its own state is the error
    it shows and whether a drag is over it. The file read is asynchronous in the browser;
    here its outcome is an input to the call that starts it. */
module UploadZone {

  import opened Wrappers
  import opened Constants

  /** The parts of a browser File the zone looks at: its declared media type and its size in bytes. */
  datatype File = File(fileType: string, size: nat)

  /** How reading the file as a data URL ends. */
  datatype ReadOutcome = Loaded(dataUrl: string) | ReadFailed

  /** One call of the `onImageSelected` callback: the data URL and the media type. */
  datatype Selection = Selection(dataUrl: string, mimeType: string)

  const UnsupportedFormatMessage: string := "不支持的文件格式。请使用 JPG, PNG 或 WebP。"
  const ReadFailureMessage: string := "读取文件失败，请重试。"

  /** Decimal digits of a number, as a template literal prints it. */
  function DecimalString(n: nat): string
    decreases n
  {
    if n < 10 then ["0123456789"[n]] else DecimalString(n / 10) + ["0123456789"[n % 10]]
  }

  /** The too-large message, with the limit in mebibytes written in. */
  function TooLargeMessage(): (m: string)
    ensures m == "文件过大。最大允许 5MB。"
  {
    "文件过大。最大允许 " + DecimalString(MaxFileSizeMb) + "MB。"
  }

  /** The checks run before the read, in order: media type, then size. None means both pass. */
  function ValidateFile(file: File): (r: Option<string>)
    ensures file.fileType !in AllowedFileTypes ==> r == Some(UnsupportedFormatMessage)
    ensures file.fileType in AllowedFileTypes && file.size > MaxFileSizeBytes() ==> r == Some(TooLargeMessage())
    ensures r.None? <==> file.fileType in AllowedFileTypes && file.size <= MaxFileSizeBytes()
  {
    if file.fileType !in AllowedFileTypes then Some(UnsupportedFormatMessage)
    else if file.size > MaxFileSizeBytes() then Some(TooLargeMessage())
    else None
  }

  /** The limit is inclusive: a file of exactly 5 MiB in an allowed format passes, one byte more does not. */
  lemma SizeLimitBoundary(fileType: string)
    requires fileType in AllowedFileTypes
    ensures ValidateFile(File(fileType, 5_242_880)) == None
    ensures ValidateFile(File(fileType, 5_242_881)) == Some(TooLargeMessage())
  {
  }

  class UploadZone {
    var isDragging: bool
    var error: Option<string>
    /** The calls made so far to `onImageSelected`, oldest first. */
    var selections: seq<Selection>

    constructor()
      ensures !isDragging && error == None && selections == []
    {
      isDragging := false;
      error := None;
      selections := [];
    }

    /** `processFile`: clear the error, reject a bad type or size, else read the file and
        pass its data URL on with the file's type, or show the read-failure error. */
    method ProcessFile(file: File, read: ReadOutcome)
      modifies this
      ensures isDragging == old(isDragging)
      ensures ValidateFile(file).Some? ==> error == ValidateFile(file) && selections == old(selections)
      ensures ValidateFile(file).None? && read.ReadFailed? ==>
                error == Some(ReadFailureMessage) && selections == old(selections)
      ensures ValidateFile(file).None? && read.Loaded? ==>
                error == None && selections == old(selections) + [Selection(read.dataUrl, file.fileType)]
    {
      error := None;
      if file.fileType !in AllowedFileTypes {
        error := Some(UnsupportedFormatMessage);
        return;
      }
      if file.size > MaxFileSizeBytes() {
        error := Some(TooLargeMessage());
        return;
      }
      match read
      case Loaded(result) =>
        selections := selections + [Selection(result, file.fileType)];
      case ReadFailed =>
        error := Some(ReadFailureMessage);
    }

    method HandleDragOver()
      modifies this
      ensures isDragging
      ensures error == old(error) && selections == old(selections)
    {
      isDragging := true;
    }

    method HandleDragLeave()
      modifies this
      ensures !isDragging
      ensures error == old(error) && selections == old(selections)
    {
      isDragging := false;
    }

    /** A drop ends the drag and processes the first dropped file, if there is one. */
    method HandleDrop(files: seq<File>, read: ReadOutcome)
      modifies this
      ensures !isDragging
      ensures files == [] ==> error == old(error) && selections == old(selections)
      ensures files != [] && ValidateFile(files[0]).Some? ==>
                error == ValidateFile(files[0]) && selections == old(selections)
      ensures files != [] && ValidateFile(files[0]).None? && read.ReadFailed? ==>
                error == Some(ReadFailureMessage) && selections == old(selections)
      ensures files != [] && ValidateFile(files[0]).None? && read.Loaded? ==>
                error == None && selections == old(selections) + [Selection(read.dataUrl, files[0].fileType)]
    {
      isDragging := false;
      if |files| > 0 {
        ProcessFile(files[0], read);
      }
    }

    /** The file input processes its first file, if it has a non-empty file list. */
    method HandleInputChange(files: Option<seq<File>>, read: ReadOutcome)
      modifies this
      ensures isDragging == old(isDragging)
      ensures (files.None? || files.value == []) ==> error == old(error) && selections == old(selections)
      ensures files.Some? && files.value != [] && ValidateFile(files.value[0]).Some? ==>
                error == ValidateFile(files.value[0]) && selections == old(selections)
      ensures files.Some? && files.value != [] && ValidateFile(files.value[0]).None? && read.ReadFailed? ==>
                error == Some(ReadFailureMessage) && selections == old(selections)
      ensures files.Some? && files.value != [] && ValidateFile(files.value[0]).None? && read.Loaded? ==>
                error == None && selections == old(selections) + [Selection(read.dataUrl, files.value[0].fileType)]
    {
      if files.Some? && |files.value| > 0 {
        ProcessFile(files.value[0], read);
      }
    }
  }

  /** A file in neither an allowed format nor within the limit gets the format error, not
      the size error, and no selection is made. */
  method RejectsFormatFirst() returns (error: Option<string>, calls: nat)
    ensures error == Some(UnsupportedFormatMessage) && calls == 0
  {
    var zone := new UploadZone();
    zone.ProcessFile(File("image/gif", 10_000_000), Loaded("data:image/gif;base64,R0lG"));
    error, calls := zone.error, |zone.selections|;
  }
}
