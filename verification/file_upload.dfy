/**
 * FileUploadService's naming and validation rules: the extension of an
 * uploaded name, the stored name built from a random UUID, and the checks an
 * upload must pass before anything is written.
 */
module FileUpload {
  import opened Wrappers
  import opened JavaStrings

  const FILE_EMPTY: string := "文件不能为空"
  const NULL_POINTER: string := "NullPointerException"

  /** The position of the dot in front of a dotless tail. */
  lemma LastDotOf(a: string, b: string)
    requires '.' !in b
    ensures LastIndexOf(a + "." + b, '.') == |a|
  {
    LastIndexAfter(a + ".", b, '.');
  }

  /** getFileExtension: "" for a null, empty or dotless name; else the lowercased text after the last '.'. */
  function Extension(filename: Option<string>): (ext: string)
    ensures NullOrEmpty(filename) || '.' !in filename.value ==> ext == ""
    ensures '.' !in ext
  {
    if NullOrEmpty(filename) then ""
    else
      var dot := LastIndexOf(filename.value, '.');
      if dot == -1 then ""
      else
        var tail := filename.value[dot + 1..];
        assert forall i :: 0 <= i < |tail| ==> tail[i] != '.';
        Lower(tail)
  }

  /** The extension is the lowercased part after the last dot, whatever comes before it. */
  lemma ExtensionOfDotted(stem: string, ext: string)
    requires '.' !in ext
    ensures Extension(Some(stem + "." + ext)) == Lower(ext)
  {
    LastDotOf(stem, ext);
    assert (stem + "." + ext)[|stem| + 1..] == ext;
  }

  lemma LowerIdempotent(s: string)
    ensures Lower(Lower(s)) == Lower(s)
  {
  }

  /** generateStoredName: the UUID's 32 hex digits, then "." and the extension when there is one. */
  function StoredName(uuid: string, originalFilename: Option<string>): (r: string)
    ensures Extension(originalFilename) == "" ==> r == uuid
    ensures Extension(originalFilename) != "" ==> r == uuid + "." + Extension(originalFilename)
  {
    var ext := Extension(originalFilename);
    uuid + (if ext == "" then "" else "." + ext)
  }

  /** The stored name keeps the upload's extension, for a UUID without dots. */
  lemma StoredNameKeepsExtension(uuid: string, originalFilename: Option<string>)
    requires uuid != "" && '.' !in uuid
    ensures Extension(Some(StoredName(uuid, originalFilename))) == Extension(originalFilename)
  {
    var ext := Extension(originalFilename);
    if ext != "" {
      ExtensionOfDotted(uuid, ext);
      if originalFilename.Some? {
        var dot := LastIndexOf(originalFilename.value, '.');
        LowerIdempotent(originalFilename.value[dot + 1..]);
      }
    }
  }

  /** The upload as the validation sees it. */
  datatype Upload = Upload(size: nat, originalFilename: Option<string>)

  /** Long division, truncating toward zero as Java does. */
  function JavaDiv(a: int, b: int): (q: int)
    requires b > 0
    ensures a >= 0 ==> q == a / b
  {
    if a >= 0 then a / b else -((-a) / b)
  }

  function TooLargeMessage(maxFileSize: int): string {
    "文件大小超过限制：" + IntToString(JavaDiv(JavaDiv(maxFileSize, 1024), 1024)) + "MB"
  }

  function UnsupportedMessage(ext: string): string {
    "不支持的文件类型：" + ext
  }

  /**
   * validateFile: a present, non-empty upload, no larger than the limit, whose
   * extension, when it has one, is literally one of the comma-separated
   * allowed entries (no trimming). The allowed list is read only then, so a
   * null list fails only for a name with an extension.
   */
  function ValidateFile(file: Option<Upload>, maxFileSize: int, allowedExtensions: Option<string>): (r: Result<(), string>)
    ensures file.None? || file.value.size == 0 ==> r == Failure(FILE_EMPTY)
    ensures file.Some? && file.value.size > 0 && file.value.size > maxFileSize ==> r == Failure(TooLargeMessage(maxFileSize))
  {
    if file.None? || file.value.size == 0 then Failure(FILE_EMPTY)
    else if file.value.size > maxFileSize then Failure(TooLargeMessage(maxFileSize))
    else
      var ext := Extension(file.value.originalFilename);
      if ext == "" then Success(())
      else if allowedExtensions.None? then Failure(NULL_POINTER)
      else if ext in Split(allowedExtensions.value, ',') then Success(())
      else Failure(UnsupportedMessage(ext))
  }

  /** An upload is accepted exactly when it is non-empty, within the limit, and has no extension or an allowed one. */
  lemma ValidateIff(file: Option<Upload>, maxFileSize: int, allowed: string)
    ensures ValidateFile(file, maxFileSize, Some(allowed)).Success? <==>
      && file.Some?
      && 0 < file.value.size <= maxFileSize
      && (Extension(file.value.originalFilename) == "" || Extension(file.value.originalFilename) in Split(allowed, ','))
  {
  }

  /** The allowed list is compared entry by entry without trimming: "jpg, png" does not allow "png". */
  lemma SpaceAfterCommaRejects()
    ensures Split("jpg, png", ',') == ["jpg", " png"]
    ensures "png" !in Split("jpg, png", ',')
  {
    assert Join(["jpg", " png"], [',']) == "jpg, png";
    SplitJoin(["jpg", " png"], ',');
  }
}
