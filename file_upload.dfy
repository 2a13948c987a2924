/**
 * The upload form (`FileUpload`): what it does to each chosen file before the
 * request (skip, compress in the browser, keep), and what it makes of the
 * answer. The compression library and the canvas encoder are oracles that
 * report the size of what they produced.
 */
module FileUpload {
  import opened Wrappers
  import opened Text
  import opened Types
  import UploadRoute

  const ClientMaxKB: nat := 5000
  /** The compression target: files of at most 5000 KiB are sent as they are. */
  const ClientMaxBytes: nat := ClientMaxKB * 1024
  /** Raw files above 25 MiB are not even tried. */
  const RawLimitBytes: nat := 25 * 1024 * 1024
  const MaxDim: nat := 2000

  datatype ClientFile = ClientFile(name: string, fileType: string, size: nat)

  /** Both compressors pass a file through unless it is an image above the target. */
  predicate WantsCompression(f: ClientFile) {
    UploadRoute.IsImage(f.fileType) && f.size > ClientMaxBytes
  }

  // ---------------------------------------------------------------- canvas geometry

  /**
   * The canvas size for an image of `width` x `height`: when an edge exceeds
   * 2000 the larger edge (the height on a tie) becomes 2000 and the other
   * keeps the proportion.
   */
  function CanvasSize(width: nat, height: nat): (r: (real, real))
    ensures r.0 <= MaxDim as real && r.1 <= MaxDim as real
    ensures width <= MaxDim && height <= MaxDim ==> r == (width as real, height as real)
    ensures (width > MaxDim || height > MaxDim) ==>
              (if width > height then r.0 == MaxDim as real else r.1 == MaxDim as real)
              && r.0 * height as real == r.1 * width as real
  {
    var w, h := width as real, height as real;
    if width > MaxDim || height > MaxDim then
      if width > height then
        ScaledEdge(h, w, MaxDim as real);
        (MaxDim as real, (h / w) * MaxDim as real)
      else
        ScaledEdge(w, h, MaxDim as real);
        ((w / h) * MaxDim as real, MaxDim as real)
    else (w, h)
  }

  /** The shorter edge scaled by `m / long` stays within `m` and keeps the proportion. */
  lemma ScaledEdge(short: real, long: real, m: real)
    requires 0.0 <= short <= long && 0.0 < long && 0.0 <= m
    ensures (short / long) * m <= m
    ensures m * short == ((short / long) * m) * long
  {
    var q := short / long;
    assert q * long == short;
    assert q <= 1.0;
    assert (1.0 - q) * m >= 0.0;
    assert (q * m) * long == (q * long) * m;
  }

  // ---------------------------------------------------------------- the `.jpg` name

  /** The index of the last `.`, if any. */
  function LastDot(s: string): (r: Option<nat>)
    ensures r.Some? ==> r.value < |s| && s[r.value] == '.' && forall j :: r.value < j < |s| ==> s[j] != '.'
    ensures r.None? ==> forall j :: 0 <= j < |s| ==> s[j] != '.'
  {
    if s == [] then None
    else if s[|s| - 1] == '.' then Some(|s| - 1)
    else LastDot(s[..|s| - 1])
  }

  /** `name.replace(/\.[^.]+$/, '.jpg')`: a final `.ext` (at least one character) becomes `.jpg`. */
  function JpgName(name: string): (r: string)
    ensures LastDot(name).Some? && LastDot(name).value + 1 < |name| ==>
              r == name[..LastDot(name).value] + ".jpg"
    ensures !(LastDot(name).Some? && LastDot(name).value + 1 < |name|) ==> r == name
  {
    match LastDot(name)
    case Some(i) => if i + 1 < |name| then name[..i] + ".jpg" else name
    case None => name
  }

  /** Renaming twice is renaming once: a `.jpg` name keeps its name. */
  lemma JpgNameIdempotent(name: string)
    ensures JpgName(JpgName(name)) == JpgName(name)
  {
    var d := LastDot(name);
    if d.Some? && d.value + 1 < |name| {
      var i := d.value;
      var r := name[..i] + ".jpg";
      assert r[i] == '.' && r[i + 1] == 'j' && r[i + 2] == 'p' && r[i + 3] == 'g';
      var e := LastDot(r);
      assert e == Some(i);
      assert r[..i] == name[..i];
    }
  }

  // ---------------------------------------------------------------- the canvas quality loop

  /**
   * Quality in tenths: attempt k is encoded at nominal quality 9 - k. The
   * source subtracts 0.1 in binary floating point, which leaves
   * 0.10000000000000014 after eight subtractions, so its `quality <= 0.1`
   * floor first holds at the tenth attempt (k = 9, nominal 0).
   */
  function NominalQuality(k: nat): int { 9 - k }

  predicate AtFloor(k: nat) { NominalQuality(k) <= 0 }

  /** A blob ends the loop when it exists and is small enough, or the floor is reached. */
  predicate Accepts(blob: Option<nat>, k: nat) {
    blob.Some? && (blob.value <= ClientMaxBytes || AtFloor(k))
  }

  datatype Attempt = Accepted(attempt: nat, size: nat) | NoBlob(attempt: nat) | Unsettled

  /**
   * The loop as written, over the first `limit` answers of `toBlob` (`blob(k)`
   * is the size of the k-th blob, None when the encoder gave null). A null
   * blob is retried like an oversized one.
   */
  function FirstAccepted(blob: nat -> Option<nat>, k: nat, limit: nat): (r: Attempt)
    decreases limit - k
    ensures r.NoBlob? == false
    ensures r.Accepted? ==> k <= r.attempt < limit && blob(r.attempt) == Some(r.size) && Accepts(blob(r.attempt), r.attempt)
                            && forall j :: k <= j < r.attempt ==> !Accepts(blob(j), j)
    ensures r.Unsettled? ==> forall j :: k <= j < limit ==> !Accepts(blob(j), j)
  {
    if k >= limit then Unsettled
    else if Accepts(blob(k), k) then Accepted(k, blob(k).value)
    else FirstAccepted(blob, k + 1, limit)
  }

  /** `tryCompress` as written, with `quality` kept in tenths. */
  method QualityLoop(blob: nat -> Option<nat>, limit: nat) returns (r: Attempt)
    ensures r == FirstAccepted(blob, 0, limit)
    ensures r.Accepted? && r.size > ClientMaxBytes ==> AtFloor(r.attempt)
  {
    var k: nat := 0;
    var quality: int := 9;
    while k < limit
      invariant k <= limit && quality == NominalQuality(k)
      invariant FirstAccepted(blob, 0, limit) == FirstAccepted(blob, k, limit)
      decreases limit - k
    {
      if blob(k).Some? && (blob(k).value <= ClientMaxBytes || quality <= 0) {
        return Accepted(k, blob(k).value);
      }
      quality := quality - 1;
      k := k + 1;
    }
    return Unsettled;
  }

  /** With a blob at each attempt, the loop as written ends by the tenth attempt. */
  lemma {:induction false} BlobsSettleByTenthAttempt(blob: nat -> Option<nat>, k: nat, limit: nat)
    requires k <= 9 < limit
    requires forall j :: k <= j <= 9 ==> blob(j).Some?
    ensures FirstAccepted(blob, k, limit).Accepted? && FirstAccepted(blob, k, limit).attempt <= 9
    decreases 9 - k
  {
    if !Accepts(blob(k), k) {
      BlobsSettleByTenthAttempt(blob, k + 1, limit);
    }
  }

  /** When the encoder keeps answering null, no number of callbacks ends the loop. */
  lemma NullBlobsNeverSettle(limit: nat)
    ensures FirstAccepted((j: nat) => None, 0, limit) == Unsettled
  {
  }

  /**
   * The evidently intended loop: a null blob gives up and keeps the original
   * file, so the loop always ends, by the tenth attempt.
   */
  function FirstSettled(blob: nat -> Option<nat>, k: nat): (r: Attempt)
    requires k <= 9
    decreases 9 - k
    ensures !r.Unsettled? && k <= r.attempt <= 9
    ensures r.Accepted? ==> blob(r.attempt) == Some(r.size) && Accepts(blob(r.attempt), r.attempt)
    ensures r.NoBlob? ==> blob(r.attempt).None?
    ensures forall j :: k <= j < r.attempt ==> blob(j).Some? && !Accepts(blob(j), j)
  {
    if blob(k).None? then NoBlob(k)
    else if Accepts(blob(k), k) then Accepted(k, blob(k).value)
    else FirstSettled(blob, k + 1)
  }

  method SettlingQualityLoop(blob: nat -> Option<nat>) returns (r: Attempt)
    ensures r == FirstSettled(blob, 0)
  {
    var k: nat := 0;
    var quality: int := 9;
    while true
      invariant k <= 9 && quality == NominalQuality(k)
      invariant FirstSettled(blob, 0) == FirstSettled(blob, k)
      decreases 9 - k
    {
      if blob(k).None? {
        return NoBlob(k);
      }
      if blob(k).value <= ClientMaxBytes || quality <= 0 {
        return Accepted(k, blob(k).value);
      }
      quality := quality - 1;
      k := k + 1;
    }
  }

  /** Where the loop as written ends, the settling loop ends the same way. */
  lemma {:induction false} SettlingAgrees(blob: nat -> Option<nat>, k: nat, limit: nat)
    requires k <= 9 && FirstAccepted(blob, k, limit).Accepted?
    requires forall j :: k <= j < FirstAccepted(blob, k, limit).attempt ==> blob(j).Some?
    ensures FirstSettled(blob, k) == FirstAccepted(blob, k, limit)
    decreases 9 - k
  {
    if !Accepts(blob(k), k) {
      assert blob(k).Some?;
      SettlingAgrees(blob, k + 1, limit);
    }
  }

  // ---------------------------------------------------------------- the two compressors

  datatype LibraryRun = LibraryOk(size: nat) | LibraryThrows

  datatype CanvasRun = ImageLoadFails | ImageLoaded(blob: nat -> Option<nat>)

  /** `compressImageCanvas`, with the settling loop; the output is a `.jpg` JPEG. */
  function CompressCanvas(f: ClientFile, run: CanvasRun): (r: ClientFile)
    ensures !WantsCompression(f) ==> r == f
    ensures WantsCompression(f) && run.ImageLoaded? && FirstSettled(run.blob, 0).Accepted? ==>
              r == ClientFile(JpgName(f.name), "image/jpeg", FirstSettled(run.blob, 0).size)
    ensures run.ImageLoadFails? || (run.ImageLoaded? && FirstSettled(run.blob, 0).NoBlob?) ==> r == f
    ensures r != f ==> r.name == JpgName(f.name) && r.fileType == "image/jpeg"
    ensures r != f && r.size > ClientMaxBytes ==> run.ImageLoaded? && FirstSettled(run.blob, 0).attempt == 9
  {
    if !WantsCompression(f) then f
    else match run
      case ImageLoadFails => f
      case ImageLoaded(blob) =>
        var a := FirstSettled(blob, 0);
        if a.Accepted? then ClientFile(JpgName(f.name), "image/jpeg", a.size) else f
  }

  /** `compressImageAdvanced`: the library first, the canvas when the library throws. */
  function CompressAdvanced(f: ClientFile, library: LibraryRun, canvas: CanvasRun): (r: ClientFile)
    ensures !WantsCompression(f) ==> r == f
    ensures library.LibraryOk? && WantsCompression(f) ==> r == ClientFile(f.name, "image/jpeg", library.size)
    ensures library.LibraryThrows? ==> r == CompressCanvas(f, canvas)
  {
    if !WantsCompression(f) then f
    else match library
      case LibraryOk(size) => ClientFile(f.name, "image/jpeg", size)
      case LibraryThrows => CompressCanvas(f, canvas)
  }

  // ---------------------------------------------------------------- preparing the form data

  /** What happens to one chosen file: the compression outcome, and whether compressing threw. */
  datatype ClientOracle = ClientOracle(compressionThrows: bool, library: LibraryRun, canvas: CanvasRun)

  datatype Step = Skipped(note: string) | Appended(file: ClientFile)

  function SkipNote(name: string): string { name + " (ไฟล์ใหญ่เกินไป)" }

  function PrepareFile(f: ClientFile, o: ClientOracle): (s: Step)
    ensures s.Skipped? <==> f.size > RawLimitBytes
    ensures s.Skipped? ==> s.note == SkipNote(f.name)
    ensures s.Appended? && (!WantsCompression(f) || o.compressionThrows) ==> s.file == f
    ensures s.Appended? && !UploadRoute.IsImage(f.fileType) ==> s.file == f
    ensures s.Appended? && UploadRoute.IsImage(f.fileType) && !o.compressionThrows ==>
              s.file == CompressAdvanced(f, o.library, o.canvas)
    ensures s.Appended? && s.file != f ==>
              s.file.fileType == "image/jpeg" && (s.file.name == f.name || s.file.name == JpgName(f.name))
  {
    if f.size > RawLimitBytes then Skipped(SkipNote(f.name))
    else if UploadRoute.IsImage(f.fileType) && !o.compressionThrows then
      Appended(CompressAdvanced(f, o.library, o.canvas))
    else Appended(f)
  }

  function Steps(files: seq<ClientFile>, oracle: nat -> ClientOracle): (ss: seq<Step>)
    ensures |ss| == |files| && forall i :: 0 <= i < |files| ==> ss[i] == PrepareFile(files[i], oracle(i))
  {
    seq(|files|, i requires 0 <= i < |files| => PrepareFile(files[i], oracle(i)))
  }

  function AppendedOf(ss: seq<Step>): seq<ClientFile> {
    if ss == [] then []
    else AppendedOf(ss[..|ss| - 1]) + (if ss[|ss| - 1].Appended? then [ss[|ss| - 1].file] else [])
  }

  function SkippedOf(ss: seq<Step>): seq<string> {
    if ss == [] then []
    else SkippedOf(ss[..|ss| - 1]) + (if ss[|ss| - 1].Skipped? then [ss[|ss| - 1].note] else [])
  }

  /** Each file is either appended or listed as skipped, never both. */
  lemma {:induction false} StepsPartition(ss: seq<Step>)
    ensures |AppendedOf(ss)| + |SkippedOf(ss)| == |ss|
  {
    if ss != [] {
      StepsPartition(ss[..|ss| - 1]);
    }
  }

  /** With no file above the raw limit, every file is appended, in order. */
  lemma {:induction false} NothingSkipped(files: seq<ClientFile>, oracle: nat -> ClientOracle)
    requires forall i :: 0 <= i < |files| ==> files[i].size <= RawLimitBytes
    ensures SkippedOf(Steps(files, oracle)) == [] && |AppendedOf(Steps(files, oracle))| == |files|
  {
    var ss := Steps(files, oracle);
    StepsPartition(ss);
    SkippedNone(ss);
  }

  lemma {:induction false} SkippedNone(ss: seq<Step>)
    requires forall i :: 0 <= i < |ss| ==> ss[i].Appended?
    ensures SkippedOf(ss) == []
  {
    if ss != [] {
      SkippedNone(ss[..|ss| - 1]);
    }
  }

  /** The loop of `handleUpload` up to the request: appended files, skip notes, and the progress counter. */
  method Prepare(files: seq<ClientFile>, oracle: nat -> ClientOracle)
    returns (appended: seq<ClientFile>, skipped: seq<string>, processedCount: nat)
    ensures appended == AppendedOf(Steps(files, oracle)) && skipped == SkippedOf(Steps(files, oracle))
    ensures processedCount == |appended|
  {
    ghost var ss := Steps(files, oracle);
    appended, skipped, processedCount := [], [], 0;
    for i := 0 to |files|
      invariant appended == AppendedOf(ss[..i]) && skipped == SkippedOf(ss[..i])
      invariant processedCount == |appended|
    {
      assert ss[..i + 1][..i] == ss[..i];
      var f := files[i];
      if f.size > RawLimitBytes {
        skipped := skipped + [SkipNote(f.name)];
        continue;
      }
      var processed := f;
      if UploadRoute.IsImage(f.fileType) && !oracle(i).compressionThrows {
        processed := CompressAdvanced(f, oracle(i).library, oracle(i).canvas);
      }
      appended := appended + [processed];
      processedCount := processedCount + 1;
    }
    assert ss[..|files|] == ss;
  }

  // ---------------------------------------------------------------- the answer

  /** The JSON the form reads; absent strings are empty (falsy). */
  datatype ApiBody = ApiBody(success: bool, files: Option<seq<Attachment>>, partialErrors: seq<string>,
                             error: string, details: string)

  datatype Response = Answered(ok: bool, body: ApiBody) | FetchThrows(message: string)

  datatype ClientOutcome =
    | NothingSelected
    | Delivered(files: seq<Attachment>, notice: Option<string>)
    | Acknowledged
    | UploadError(message: string)

  const NoFilesError := "ไม่มีไฟล์ที่สามารถอัปโหลดได้"
  const DefaultError := "เกิดข้อผิดพลาดในการอัปโหลด"

  /** `data.error || data.details || 'เกิดข้อผิดพลาดในการอัปโหลด'` */
  function ErrorText(b: ApiBody): (r: string)
    ensures r != ""
    ensures b.error != "" ==> r == b.error
  {
    if b.error != "" then b.error else if b.details != "" then b.details else DefaultError
  }

  /** The summary shown after a success; None when nothing was skipped and nothing partly failed (no alert). */
  function Notice(count: nat, skipped: seq<string>, partialErrors: seq<string>): (r: Option<string>)
    ensures r.Some? <==> skipped != [] || partialErrors != []
  {
    if skipped == [] && partialErrors == [] then None
    else
      Some("✅ อัปโหลดสำเร็จ " + NatToString(count) + " ไฟล์"
           + (if skipped != [] then "\n\n⚠️ ข้ามไฟล์:\n" + Join(skipped, "\n") else "")
           + (if partialErrors != [] then "\n\n⚠️ ข้อผิดพลาดบางส่วน:\n" + Join(partialErrors, "\n") else ""))
  }

  /** What the form concludes once the loop is over and (if anything was appended) the request answered. */
  function Conclude(appended: seq<ClientFile>, skipped: seq<string>, response: Response): (r: ClientOutcome)
    ensures appended == [] ==> r == UploadError(NoFilesError)
    ensures r.Delivered? <==> appended != [] && response.Answered? && response.ok
                              && response.body.success && response.body.files.Some?
    ensures r.Delivered? ==> r.files == response.body.files.value
                             && r.notice == Notice(|r.files|, skipped, response.body.partialErrors)
    ensures appended != [] && response.Answered? && !response.ok ==> r == UploadError(ErrorText(response.body))
    ensures appended != [] && response.FetchThrows? ==> r == UploadError(response.message)
  {
    if appended == [] then UploadError(NoFilesError)
    else match response
      case FetchThrows(m) => UploadError(m)
      case Answered(ok, body) =>
        if !ok then UploadError(ErrorText(body))
        else if body.success && body.files.Some? then
          Delivered(body.files.value, Notice(|body.files.value|, skipped, body.partialErrors))
        else Acknowledged
  }

  /** `handleUpload`: nothing happens for an empty selection; `server` answers the request for the appended files. */
  method HandleUpload(files: seq<ClientFile>, oracle: nat -> ClientOracle, server: seq<ClientFile> -> Response)
    returns (outcome: ClientOutcome)
    ensures files == [] ==> outcome == NothingSelected
    ensures files != [] ==>
              var ss := Steps(files, oracle);
              outcome == Conclude(AppendedOf(ss), SkippedOf(ss), server(AppendedOf(ss)))
  {
    if files == [] {
      return NothingSelected;
    }
    var appended, skipped, _ := Prepare(files, oracle);
    outcome := Conclude(appended, skipped, server(appended));
  }

  /** The server's reply as the form sees it. */
  function ServerResponse(r: UploadRoute.UploadReply): Response {
    match r
    case Uploaded(files, partial) => Answered(true, ApiBody(true, Some(files), partial.GetOr([]), "", ""))
    case UploadFailed(_, error, details) => Answered(false, ApiBody(false, None, [], error, details.GetOr("")))
  }

  /**
   * Against the real route: the form delivers exactly the attachments the
   * server stored, and it reports the server's own error when none was stored.
   */
  lemma FormSeesServer(appended: seq<ClientFile>, skipped: seq<string>, stored: seq<Attachment>, errors: seq<string>)
    requires appended != []
    ensures var outcome := Conclude(appended, skipped, ServerResponse(UploadRoute.Aggregate(stored, errors)));
            (outcome.Delivered? <==> stored != [])
            && (outcome.Delivered? ==> outcome.files == stored && outcome.notice == Notice(|stored|, skipped, errors))
            && (stored == [] ==> outcome == UploadError("ไม่สามารถอัปโหลดไฟล์ได้"))
  {
  }
}
