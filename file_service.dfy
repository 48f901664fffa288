/**
 * The file record store (src/services/fileService.ts): the coin threshold, the random file id,
 * the single store write of an upload, the lookup by id and the download link.
 */
module FileService {
  import opened Wrappers
  import opened Storage

  /** A browser `File` as the program sees it: name, MIME type and size in bytes. */
  datatype FileInfo = FileInfo(name: string, mimeType: string, size: nat)

  /** 100 MiB: files above this size cost a coin. */
  const MaxFreeSize: nat := 100 * 1024 * 1024

  datatype SizeCheck = SizeCheck(requiresCoin: bool, size: nat)

  /** `checkFileSize`. */
  function CheckFileSize(file: FileInfo): (r: SizeCheck)
    ensures r.size == file.size
    ensures r.requiresCoin <==> file.size > 104857600
  {
    SizeCheck(file.size > MaxFreeSize, file.size)
  }

  function Min(a: nat, b: nat): nat {
    if a <= b then a else b
  }

  /** JavaScript's `s.substring(start, end)` for `start <= end`: both ends are clamped to the length. */
  function Substring(s: string, start: nat, end: nat): (r: string)
    requires start <= end
    ensures |r| <= end - start
    ensures |s| >= end ==> |r| == end - start
    ensures |r| == Min(end, |s|) - Min(start, |s|)
    ensures forall i | 0 <= i < |r| :: start + i < |s| && r[i] == s[start + i]
  {
    s[Min(start, |s|)..Min(end, |s|)]
  }

  predicate IsBase36Digit(c: char) {
    '0' <= c <= '9' || 'a' <= c <= 'z'
  }

  /** The text `Math.random().toString(36)` gives: `"0"` or `"0."` followed by base-36 digits. */
  predicate IsRandomRendering(s: string) {
    s == "0" || ("0." <= s && forall i | 2 <= i < |s| :: IsBase36Digit(s[i]))
  }

  /**
   * `generateFileId`: two random fragments, each the digits of a rendering from the third
   * character up to the fifteenth. The renderings are the caller's, standing for `Math.random()`.
   */
  function GenerateFileId(random1: string, random2: string): (id: string)
    ensures |id| <= 26
    ensures IsRandomRendering(random1) && IsRandomRendering(random2) ==>
              forall i | 0 <= i < |id| :: IsBase36Digit(id[i])
  {
    var a := Substring(random1, 2, 15);
    var b := Substring(random2, 2, 15);
    assert forall i | 0 <= i < |a| :: a[i] == random1[2 + i];
    assert forall i | 0 <= i < |b| :: b[i] == random2[2 + i];
    a + b
  }

  /** What `FileReader` delivered: a data URL, a result that is not a string, or a read error. */
  datatype ReadResult = DataUrl(text: string) | NotText | ReadError

  /** What `setItem` does with the record: store it, or throw a quota error (code 22) or another one. */
  datatype WriteFault = NoFault | QuotaExceeded | OtherFault

  datatype UploadError = ReadFailed | TooLarge | StoreFailed

  /** The message each upload failure rejects with. */
  function UploadMessage(e: UploadError): string {
    match e
    case ReadFailed => "Failed to read file."
    case TooLarge => "The file is too large to store. Please try a smaller file."
    case StoreFailed => "Failed to store file."
  }

  /** The record `uploadFile` stores: the file's metadata, its full data URL, and `userId || null`. */
  function FileRecordFor(fileId: string, file: FileInfo, data: string, createdAt: string, userId: Option<string>)
    : (d: FileData)
    ensures d.id == fileId && d.name == file.name && d.mimeType == file.mimeType && d.size == file.size
    ensures d.data == data && d.createdAt == createdAt
    ensures d.userId.Some? <==> userId.Some? && userId.value != ""
    ensures d.userId.Some? ==> d.userId == userId
  {
    var owner := if userId.Some? && userId.value != "" then userId else None;
    FileData(fileId, file.name, file.mimeType, file.size, data, createdAt, owner)
  }

  /** What an upload resolves or rejects with, and the store it leaves. */
  datatype Upload = Upload(result: Result<string, UploadError>, store: Store)

  /** `uploadFile(file, userId)` once the read has finished and the write has been tried. */
  function UploadEffect(m: Store, file: FileInfo, userId: Option<string>, fileId: string, read: ReadResult,
                        fault: WriteFault, createdAt: string): (r: Upload)
    // it resolves, with the id, exactly when the read gave text and the write succeeded
    ensures r.result.Ok? <==> read.DataUrl? && fault == NoFault
    ensures r.result.Ok? ==> r.result.value == fileId
    // a successful upload writes exactly one key
    ensures r.result.Ok? ==>
              r.store == m[FileKey(fileId) := FileRecord(FileRecordFor(fileId, file, read.text, createdAt, userId))]
    // any failure leaves the store as it was
    ensures r.result.Err? ==> r.store == m
    ensures !read.DataUrl? ==> r.result == Err(ReadFailed)
    ensures read.DataUrl? && fault == QuotaExceeded ==> r.result == Err(TooLarge)
    ensures read.DataUrl? && fault == OtherFault ==> r.result == Err(StoreFailed)
  {
    match read
    case DataUrl(text) =>
      (match fault
       case NoFault => Upload(Ok(fileId), m[FileKey(fileId) := FileRecord(FileRecordFor(fileId, file, text, createdAt, userId))])
       case QuotaExceeded => Upload(Err(TooLarge), m)
       case OtherFault => Upload(Err(StoreFailed), m))
    case _ => Upload(Err(ReadFailed), m)
  }

  /**
   * `uploadFile` on the shared store. The random renderings, the reader's result, the outcome of
   * the write and the clock are the caller's.
   */
  method UploadFile(s: LocalStorage, file: FileInfo, userId: Option<string>, random1: string, random2: string,
                    read: ReadResult, fault: WriteFault, createdAt: string)
    returns (r: Result<string, UploadError>)
    modifies s
    ensures Upload(r, s.items) ==
            UploadEffect(old(s.items), file, userId, GenerateFileId(random1, random2), read, fault, createdAt)
  {
    var fileId := GenerateFileId(random1, random2);
    if !read.DataUrl? {
      return Err(ReadFailed);
    }
    var fileData := FileRecordFor(fileId, file, read.text, createdAt, userId);
    match fault {
      case NoFault =>
        s.SetItem(FileKey(fileId), FileRecord(fileData));
        r := Ok(fileId);
      case QuotaExceeded =>
        r := Err(TooLarge);
      case OtherFault =>
        r := Err(StoreFailed);
    }
  }

  /** `getFileById`: the parsed value under `file_<id>`, or `null` when it is absent or unparseable. */
  function GetFileById(m: Store, fileId: string): (r: Option<Value>)
    ensures r.None? <==> FileKey(fileId) !in m || m[FileKey(fileId)].Garbage?
    ensures r.Some? ==> r.value == m[FileKey(fileId)] && !r.value.Garbage?
    ensures r.Some? && WellFormed(m) ==> r.value.FileRecord?
  {
    var key := FileKey(fileId);
    if key !in m then None
    else if m[key].Garbage? then None
    else Some(m[key])
  }

  /** The message each way an upload can fail rejects with. */
  lemma UploadRejectionMessages(m: Store, file: FileInfo, userId: Option<string>, fileId: string, read: ReadResult,
                                fault: WriteFault, createdAt: string)
    ensures var r := UploadEffect(m, file, userId, fileId, read, fault, createdAt).result;
            && (!read.DataUrl? ==> UploadMessage(r.error) == "Failed to read file.")
            && (read.DataUrl? && fault == QuotaExceeded ==>
                  UploadMessage(r.error) == "The file is too large to store. Please try a smaller file.")
            && (read.DataUrl? && fault == OtherFault ==> UploadMessage(r.error) == "Failed to store file.")
  {
  }

  /** Round trip: after a successful upload the id looks up a record with the file's name, type and size. */
  lemma UploadThenGet(m: Store, file: FileInfo, userId: Option<string>, fileId: string, data: string,
                      fault: WriteFault, createdAt: string)
    requires UploadEffect(m, file, userId, fileId, DataUrl(data), fault, createdAt).result.Ok?
    ensures var after := UploadEffect(m, file, userId, fileId, DataUrl(data), fault, createdAt);
            var found := GetFileById(after.store, after.result.value);
            && found.Some? && found.value.FileRecord?
            && found.value.file.name == file.name
            && found.value.file.mimeType == file.mimeType
            && found.value.file.size == file.size
            && found.value.file.data == data
  {
  }

  /** An upload touches no account, credentials or session key, so it keeps the store invariant. */
  lemma UploadPreservesConsistency(m: Store, file: FileInfo, userId: Option<string>, fileId: string,
                                   read: ReadResult, fault: WriteFault, createdAt: string)
    requires Consistent(m)
    ensures Consistent(UploadEffect(m, file, userId, fileId, read, fault, createdAt).store)
  {
  }

  /** `createDownloadLink`: the page origin, then `/download/`, then the id. */
  function CreateDownloadLink(origin: string, fileId: string): (url: string)
    ensures origin + "/download/" <= url
    ensures url[|origin| + 10..] == fileId
  {
    origin + "/download/" + fileId
  }

  /** A character that ends a path segment of a URL. */
  predicate EndsSegment(c: char) {
    c == '/' || c == '?' || c == '#'
  }

  /** The `/download/:fileId` route (src/App.tsx): the id a URL of this origin routes to, if any. */
  function DownloadRouteId(origin: string, url: string): (r: Option<string>)
    ensures r.Some? ==> url == origin + "/download/" + r.value && r.value != ""
  {
    var prefix := origin + "/download/";
    if prefix <= url && |url| > |prefix| && forall i | |prefix| <= i < |url| :: !EndsSegment(url[i]) then
      assert url == prefix + url[|prefix|..];
      Some(url[|prefix|..])
    else None
  }

  /**
   * Link and route are partners: the link of a generated, non-empty file id routes back to that
   * id, because base-36 digits never end a path segment.
   */
  lemma DownloadLinkRoundTrip(origin: string, random1: string, random2: string)
    requires IsRandomRendering(random1) && IsRandomRendering(random2)
    requires GenerateFileId(random1, random2) != ""
    ensures DownloadRouteId(origin, CreateDownloadLink(origin, GenerateFileId(random1, random2)))
            == Some(GenerateFileId(random1, random2))
  {
  }
}
