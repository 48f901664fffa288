/**
 * The upload size gate of the file picker (src/components/ui/file-upload.tsx): a dropped or
 * chosen file is forwarded to `onFileSelected` unless it is larger than 2 GiB.
 */
module FileUpload {
  import opened Wrappers
  import opened FileService

  /** 2 GiB: the largest file the picker accepts. */
  const MaxFileSize: nat := 2 * 1024 * 1024 * 1024

  /** What the picker does with one file: reject it with a notice, or hand it to `onFileSelected`. */
  datatype Gate = Reject(message: string) | Forward(file: FileInfo)

  /** `validateAndProcessFile`. */
  function ValidateAndProcessFile(file: FileInfo): (g: Gate)
    ensures g.Forward? <==> file.size <= 2147483648
    ensures g.Forward? ==> g.file == file
    ensures g.Reject? ==> g.message == "File size cannot exceed 2GB"
  {
    if file.size > MaxFileSize then Reject("File size cannot exceed 2GB") else Forward(file)
  }

  /**
   * `handleDrop` and `handleFileInputChange` (identical apart from the event they read): a `null`
   * or empty file list does nothing; otherwise only the first file goes through the gate.
   */
  function HandleFiles(files: Option<seq<FileInfo>>): (r: Option<Gate>)
    ensures r.None? <==> files.None? || files.value == []
    ensures r.Some? ==> r.value == ValidateAndProcessFile(files.value[0])
  {
    if files.Some? && |files.value| > 0 then Some(ValidateAndProcessFile(files.value[0])) else None
  }

  /** Files after the first make no difference to a drop or a choice. */
  lemma OnlyFirstFileCounts(first: FileInfo, rest1: seq<FileInfo>, rest2: seq<FileInfo>)
    ensures HandleFiles(Some([first] + rest1)) == HandleFiles(Some([first] + rest2))
    ensures HandleFiles(Some([first] + rest1)) == Some(ValidateAndProcessFile(first))
  {
  }

  /**
   * The gate and the coin threshold together: a file the picker forwards needs a coin exactly
   * when it lies above 100 MiB, and every file the picker rejects would have needed one.
   */
  lemma GateAndCoinThreshold(file: FileInfo)
    ensures ValidateAndProcessFile(file).Forward? && CheckFileSize(file).requiresCoin <==>
            MaxFreeSize < file.size <= MaxFileSize
    ensures ValidateAndProcessFile(file).Reject? ==> CheckFileSize(file).requiresCoin
  {
  }
}
