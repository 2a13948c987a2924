/**
 * `/api/upload`: the server side of attachments. POST stores each file (on
 * Google Drive when it is configured, in `public/uploads` otherwise or as a
 * fallback) and answers with the stored attachments; DELETE removes one file.
 *
 * The storage back ends, the clock and the image codec are oracles: each file
 * comes with a `FileOracle` saying what the codec produced, what the Drive
 * calls answered, what the local writes did and what `Date.now()` read.
 */
module UploadRoute {
  import opened Wrappers
  import opened Text
  import opened Types

  const MaxSizeMB: nat := 10
  const MaxSizeBytes: nat := MaxSizeMB * 1024 * 1024

  predicate IsImage(mime: string) { StartsWith(mime, "image/") }

  // ---------------------------------------------------------------- compression

  /** The resize `compressImage` asks for: the width is tested first, then the height. */
  datatype Resize = KeepSize | ToWidth(px: nat) | ToHeight(px: nat)

  /** `metadata.width` / `metadata.height` may be missing; a zero value is falsy like a missing one. */
  function ResizeTarget(width: Option<nat>, height: Option<nat>): (r: Resize)
    ensures r.ToWidth? <==> width.Some? && width.value > 2000
    ensures r.ToHeight? <==> !(width.Some? && width.value > 2000) && height.Some? && height.value > 2000
    ensures !r.KeepSize? ==> r.px == 2000
  {
    if width.Some? && width.value > 2000 then ToWidth(2000)
    else if height.Some? && height.value > 2000 then ToHeight(2000)
    else KeepSize
  }

  /** A wide image is bounded by its width only: a 2500 x 10000 image keeps a height above 2000. */
  lemma WidthCheckedFirst()
    ensures ResizeTarget(Some(2500), Some(10000)) == ToWidth(2000)
    ensures ResizeTarget(Some(1500), Some(10000)) == ToHeight(2000)
    ensures ResizeTarget(None, Some(1500)) == KeepSize
  {
  }

  /** What the sharp pipeline did with the buffer: threw (caught inside `compressImage`), or produced bytes. */
  datatype Codec = CodecThrows | CodecOutput(length: nat)

  /**
   * The number of bytes stored: the compressed buffer replaces the original
   * only for an image, with sharp loaded, when it is strictly shorter.
   */
  function StoredSize(size: nat, mime: string, sharp: bool, codec: Codec): (n: nat)
    ensures n <= size
    ensures n < size <==> IsImage(mime) && sharp && codec.CodecOutput? && codec.length < size
    ensures n != size ==> n == codec.length
  {
    if IsImage(mime) && sharp && codec.CodecOutput? && codec.length < size then codec.length else size
  }

  // ---------------------------------------------------------------- local storage

  /** The characters `[a-zA-Z0-9._-]` that survive `fileName.replace(/[^a-zA-Z0-9._-]/g, '_')`. */
  predicate IsSafeChar(c: char) {
    ('a' <= c <= 'z') || ('A' <= c <= 'Z') || ('0' <= c <= '9') || c == '.' || c == '_' || c == '-'
  }

  function SafeFileName(name: string): (r: string)
    ensures |r| == |name|
    ensures forall i :: 0 <= i < |r| ==> IsSafeChar(r[i])
    ensures forall i :: 0 <= i < |r| ==> r[i] == (if IsSafeChar(name[i]) then name[i] else '_')
  {
    seq(|name|, i requires 0 <= i < |name| => if IsSafeChar(name[i]) then name[i] else '_')
  }

  /** Cleaning a cleaned name changes nothing, and no cleaned name holds a path separator. */
  lemma SafeFileNameIdempotent(name: string)
    ensures SafeFileName(SafeFileName(name)) == SafeFileName(name)
    ensures '/' !in SafeFileName(name) && '\\' !in SafeFileName(name)
  {
    var s := SafeFileName(name);
    assert forall i :: 0 <= i < |s| ==> SafeFileName(s)[i] == s[i];
  }

  /** `${timestamp}_${safeFileName}`: the file name, and the attachment id, of a local upload. */
  function LocalId(timestamp: nat, name: string): string {
    NatToString(timestamp) + "_" + SafeFileName(name)
  }

  /** A local id splits back at its first `_` into the timestamp and the cleaned name. */
  lemma {:induction false} LocalIdParts(timestamp: nat, name: string)
    ensures Before(LocalId(timestamp, name), '_') == NatToString(timestamp)
    ensures After(LocalId(timestamp, name), '_') == Some(SafeFileName(name))
  {
    var ds := NatToString(timestamp);
    NatToStringShape(timestamp);
    BeforeNoSeparator(ds, SafeFileName(name));
  }

  lemma {:induction false} BeforeNoSeparator(ds: string, rest: string)
    requires forall i :: 0 <= i < |ds| ==> ds[i] != '_'
    ensures Before(ds + "_" + rest, '_') == ds
  {
    if ds != [] {
      assert (ds + "_" + rest)[1..] == ds[1..] + "_" + rest;
      BeforeNoSeparator(ds[1..], rest);
    }
  }

  /** Two uploads at different instants, or of differently cleaned names, get different ids. */
  lemma LocalIdInjective(t1: nat, n1: string, t2: nat, n2: string)
    requires LocalId(t1, n1) == LocalId(t2, n2)
    ensures t1 == t2 && SafeFileName(n1) == SafeFileName(n2)
  {
    LocalIdParts(t1, n1);
    LocalIdParts(t2, n2);
    NatToStringInjective(t1, t2);
  }

  /** Where a file went: its id, its URL and its thumbnail URL. */
  datatype Stored = Stored(id: string, url: string, thumbnailUrl: string)

  /** Either the stored file or the message of the error thrown. */
  datatype Outcome = Done(stored: Stored) | Failed(message: string)

  /** The local writes: the main `writeFile` threw, or it wrote and the thumbnail was (or was not) written too. */
  datatype LocalWrite = WriteFails(message: string) | Written(thumbWritten: bool)

  /** `uploadToLocal`: the thumbnail URL is the file's own unless an image thumbnail was written. */
  function UploadLocal(timestamp: nat, name: string, mime: string, sharp: bool, w: LocalWrite): (r: Outcome)
    ensures r.Failed? <==> w.WriteFails?
    ensures r.Failed? ==> r.message == w.message
    ensures r.Done? ==> r.stored.id == LocalId(timestamp, name)
                        && r.stored.url == "/uploads/" + r.stored.id
    ensures r.Done? ==>
              (r.stored.thumbnailUrl == "/uploads/thumb_" + r.stored.id <==> IsImage(mime) && sharp && w.thumbWritten)
    ensures r.Done? && !(IsImage(mime) && sharp && w.thumbWritten) ==> r.stored.thumbnailUrl == r.stored.url
  {
    match w
    case WriteFails(m) => Failed(m)
    case Written(thumb) =>
      var id := LocalId(timestamp, name);
      var url := "/uploads/" + id;
      var thumbUrl := if IsImage(mime) && sharp && thumb then "/uploads/thumb_" + id else url;
      assert url != "/uploads/thumb_" + id by {
        NatToStringShape(timestamp);
        assert url[9] == id[0] && IsDigit(id[0]);
        assert ("/uploads/thumb_" + id)[9] == 't';
      }
      Done(Stored(id, url, thumbUrl))
  }

  // ---------------------------------------------------------------- Google Drive

  /**
   * What the Drive calls of `uploadToGoogleDrive` answered: authentication
   * threw, `files.create` threw (with a message, or a non-Error value), or the
   * file was created with the returned id and the id of the thumbnail file
   * (empty when no thumbnail was made, its upload threw or its permission call threw).
   */
  datatype DriveCall = AuthFails | CreateFails(message: Option<string>) | Created(id: string, thumbId: string)

  const DriveAuthError := "Google Drive authentication failed. Please check service account credentials."
  const DriveNoIdError := "No file ID returned from Google Drive"

  function DriveUrl(id: string): string { "https://drive.google.com/uc?export=view&id=" + id }
  function DriveThumbUrl(id: string): string { "https://lh3.googleusercontent.com/d/" + id }

  function UploadDrive(mime: string, sharp: bool, c: DriveCall): (r: Outcome)
    ensures r.Done? <==> c.Created? && c.id != ""
    ensures r.Done? ==> r.stored.id == c.id && r.stored.url == DriveUrl(c.id)
    ensures r.Done? ==> r.stored.thumbnailUrl ==
                          DriveThumbUrl(if IsImage(mime) && sharp && c.thumbId != "" then c.thumbId else c.id)
    ensures c.AuthFails? ==> r == Failed(DriveAuthError)
    ensures c.CreateFails? ==> r == Failed("Failed to upload to Google Drive: " + c.message.GetOr("Unknown upload error"))
    ensures c.Created? && c.id == "" ==> r == Failed(DriveNoIdError)
  {
    match c
    case AuthFails => Failed(DriveAuthError)
    case CreateFails(m) => Failed("Failed to upload to Google Drive: " + m.GetOr("Unknown upload error"))
    case Created(id, thumbId) =>
      if id == "" then Failed(DriveNoIdError)
      else
        var thumb := if IsImage(mime) && sharp && thumbId != "" then thumbId else id;
        Done(Stored(id, DriveUrl(id), DriveThumbUrl(thumb)))
  }

  // ---------------------------------------------------------------- one file

  /** A file of the form data: its name, its (possibly empty) MIME type and its size in bytes. */
  datatype UploadFile = UploadFile(name: string, fileType: string, size: nat)

  /** Everything outside the handler that decides what happens to one file. */
  datatype FileOracle = FileOracle(timestamp: nat, codec: Codec, drive: DriveCall, local: LocalWrite)

  /** What one file contributes: the attachment stored, if any, and the error reported, if any. */
  datatype FileOutcome = FileOutcome(stored: Option<Attachment>, error: Option<string>)

  /** `file.type || 'application/octet-stream'` */
  function MimeOf(f: UploadFile): string {
    if f.fileType == "" then "application/octet-stream" else f.fileType
  }

  function TooLargeError(name: string): string {
    "ไฟล์ " + name + " ใหญ่เกินไป (สูงสุด " + NatToString(MaxSizeMB) + "MB)"
  }

  function FallbackNote(name: string, driveError: string): string {
    name + ": บันทึกในเครื่องแทน (Google Drive: " + driveError + ")"
  }

  function AsAttachment(s: Stored, f: UploadFile, size: nat): Attachment {
    Attachment(s.id, f.name, s.url, s.thumbnailUrl, MimeOf(f), size)
  }

  /**
   * One pass of the upload loop. A file over 10 MB is refused; otherwise it is
   * (maybe) compressed and sent to Drive when Drive is in use, falling back to
   * local storage when Drive throws, or stored locally straight away.
   */
  function ProcessFile(f: UploadFile, o: FileOracle, useDrive: bool, sharp: bool): (r: FileOutcome)
    ensures r.stored.Some? || r.error.Some?
    ensures f.size > MaxSizeBytes ==> r == FileOutcome(None, Some(TooLargeError(f.name)))
    ensures r.stored.Some? ==> r.stored.value.name == f.name && r.stored.value.mimeType == MimeOf(f)
                               && r.stored.value.size == StoredSize(f.size, MimeOf(f), sharp, o.codec)
                               && r.stored.value.size <= MaxSizeBytes
    ensures !useDrive && f.size <= MaxSizeBytes ==>
              (r.stored.Some? <==> o.local.Written?) && (r.error.Some? <==> o.local.WriteFails?)
    ensures useDrive && f.size <= MaxSizeBytes && UploadDrive(MimeOf(f), sharp, o.drive).Done? ==>
              r.error.None? && r.stored.Some? && r.stored.value.id == o.drive.id
    ensures useDrive && f.size <= MaxSizeBytes && UploadDrive(MimeOf(f), sharp, o.drive).Failed? ==>
              (r.stored.Some? <==> o.local.Written?) && r.error.Some?
  {
    if f.size > MaxSizeBytes then FileOutcome(None, Some(TooLargeError(f.name)))
    else
      var mime := MimeOf(f);
      var size := StoredSize(f.size, mime, sharp, o.codec);
      var local := UploadLocal(o.timestamp, f.name, mime, sharp, o.local);
      if useDrive then
        match UploadDrive(mime, sharp, o.drive)
        case Done(s) => FileOutcome(Some(AsAttachment(s, f, size)), None)
        case Failed(driveError) =>
          if local.Done? then FileOutcome(Some(AsAttachment(local.stored, f, size)), Some(FallbackNote(f.name, driveError)))
          else FileOutcome(None, Some(f.name + ": " + driveError))
      else if local.Done? then FileOutcome(Some(AsAttachment(local.stored, f, size)), None)
      else FileOutcome(None, Some(f.name + ": " + local.message))
  }

  /** When Drive throws and the local write succeeds, the file is kept and the fallback is reported. */
  lemma FallbackReported(f: UploadFile, o: FileOracle, sharp: bool)
    requires f.size <= MaxSizeBytes && o.local.Written?
    requires UploadDrive(MimeOf(f), sharp, o.drive).Failed?
    ensures ProcessFile(f, o, true, sharp).stored.Some?
    ensures ProcessFile(f, o, true, sharp).stored.value.id == LocalId(o.timestamp, f.name)
    ensures ProcessFile(f, o, true, sharp).error ==
              Some(FallbackNote(f.name, UploadDrive(MimeOf(f), sharp, o.drive).message))
  {
  }

  // ---------------------------------------------------------------- the whole request

  function Outcomes(files: seq<UploadFile>, oracle: nat -> FileOracle, useDrive: bool, sharp: bool): (rs: seq<FileOutcome>)
    ensures |rs| == |files|
    ensures forall i :: 0 <= i < |files| ==> rs[i] == ProcessFile(files[i], oracle(i), useDrive, sharp)
  {
    seq(|files|, i requires 0 <= i < |files| => ProcessFile(files[i], oracle(i), useDrive, sharp))
  }

  /** The attachments stored, in the order of the files. */
  function StoredOf(rs: seq<FileOutcome>): seq<Attachment> {
    if rs == [] then []
    else StoredOf(rs[..|rs| - 1]) + (if rs[|rs| - 1].stored.Some? then [rs[|rs| - 1].stored.value] else [])
  }

  /** The errors reported, in the order of the files. */
  function ErrorsOf(rs: seq<FileOutcome>): seq<string> {
    if rs == [] then []
    else ErrorsOf(rs[..|rs| - 1]) + (if rs[|rs| - 1].error.Some? then [rs[|rs| - 1].error.value] else [])
  }

  /** Every file is accounted for: each one is stored, reported, or both. */
  lemma {:induction false} EveryFileAccounted(rs: seq<FileOutcome>)
    requires forall i :: 0 <= i < |rs| ==> rs[i].stored.Some? || rs[i].error.Some?
    ensures |StoredOf(rs)| <= |rs| && |ErrorsOf(rs)| <= |rs|
    ensures |StoredOf(rs)| + |ErrorsOf(rs)| >= |rs|
  {
    if rs != [] {
      EveryFileAccounted(rs[..|rs| - 1]);
    }
  }

  /** With no file failing, everything is stored and nothing is reported. */
  lemma {:induction false} CleanBatch(rs: seq<FileOutcome>)
    requires forall i :: 0 <= i < |rs| ==> rs[i].stored.Some? && rs[i].error.None?
    ensures |StoredOf(rs)| == |rs| && ErrorsOf(rs) == []
    ensures forall i :: 0 <= i < |rs| ==> StoredOf(rs)[i] == rs[i].stored.value
  {
    if rs != [] {
      CleanBatch(rs[..|rs| - 1]);
    }
  }

  datatype UploadReply =
    | Uploaded(files: seq<Attachment>, partialErrors: Option<seq<string>>)
    | UploadFailed(status: nat, error: string, details: Option<string>)

  /** The answer once every file has been tried. */
  function Aggregate(uploaded: seq<Attachment>, errors: seq<string>): (r: UploadReply)
    ensures r.Uploaded? <==> uploaded != []
    ensures r.Uploaded? ==> r.files == uploaded && (r.partialErrors.Some? <==> errors != [])
                            && (r.partialErrors.Some? ==> r.partialErrors.value == errors)
    ensures r.UploadFailed? ==> r.status == 500 && r.error == "ไม่สามารถอัปโหลดไฟล์ได้"
                                && r.details == Some(if errors != [] then Join(errors, "; ") else "All uploads failed")
  {
    if uploaded == [] then
      UploadFailed(500, "ไม่สามารถอัปโหลดไฟล์ได้", Some(if errors != [] then Join(errors, "; ") else "All uploads failed"))
    else Uploaded(uploaded, if errors != [] then Some(errors) else None)
  }

  /**
   * POST. `form` is None when the form data cannot be parsed. Drive is used
   * when the folder is configured and authentication succeeds; `sharp` says
   * whether the image library loaded; `oracle(i)` is what happens to file i.
   */
  method Post(form: Option<seq<UploadFile>>, folderConfigured: bool, authOk: bool, sharp: bool,
              oracle: nat -> FileOracle)
    returns (reply: UploadReply)
    ensures form.None? ==> reply == UploadFailed(400, "ไม่สามารถอ่านข้อมูลไฟล์ได้", None)
    ensures form == Some([]) ==> reply == UploadFailed(400, "กรุณาเลือกไฟล์ที่ต้องการอัปโหลด", None)
    ensures form.Some? && form.value != [] ==>
              var rs := Outcomes(form.value, oracle, folderConfigured && authOk, sharp);
              reply == Aggregate(StoredOf(rs), ErrorsOf(rs))
  {
    if form.None? {
      return UploadFailed(400, "ไม่สามารถอ่านข้อมูลไฟล์ได้", None);
    }
    var files := form.value;
    if files == [] {
      return UploadFailed(400, "กรุณาเลือกไฟล์ที่ต้องการอัปโหลด", None);
    }
    var useDrive := folderConfigured && authOk;
    ghost var rs := Outcomes(files, oracle, useDrive, sharp);
    var uploaded: seq<Attachment> := [];
    var errors: seq<string> := [];
    for i := 0 to |files|
      invariant uploaded == StoredOf(rs[..i]) && errors == ErrorsOf(rs[..i])
    {
      var r := ProcessFile(files[i], oracle(i), useDrive, sharp);
      CollectStep(rs, i);
      if r.stored.Some? {
        uploaded := uploaded + [r.stored.value];
      }
      if r.error.Some? {
        errors := errors + [r.error.value];
      }
    }
    assert rs[..|files|] == rs;
    reply := Aggregate(uploaded, errors);
  }

  /** One more outcome adds its attachment and its error, if any, at the end. */
  lemma CollectStep(rs: seq<FileOutcome>, i: nat)
    requires i < |rs|
    ensures StoredOf(rs[..i + 1]) == StoredOf(rs[..i]) + (if rs[i].stored.Some? then [rs[i].stored.value] else [])
    ensures ErrorsOf(rs[..i + 1]) == ErrorsOf(rs[..i]) + (if rs[i].error.Some? then [rs[i].error.value] else [])
  {
    assert rs[..i + 1][..i] == rs[..i];
  }

  /** Local mode with every write succeeding and every file small enough: all files come back, with no errors. */
  lemma LocalBatchSucceeds(files: seq<UploadFile>, oracle: nat -> FileOracle, sharp: bool)
    requires files != []
    requires forall i :: 0 <= i < |files| ==> files[i].size <= MaxSizeBytes && oracle(i).local.Written?
    ensures var rs := Outcomes(files, oracle, false, sharp);
            Aggregate(StoredOf(rs), ErrorsOf(rs)).Uploaded?
            && |Aggregate(StoredOf(rs), ErrorsOf(rs)).files| == |files|
            && Aggregate(StoredOf(rs), ErrorsOf(rs)).partialErrors.None?
  {
    var rs := Outcomes(files, oracle, false, sharp);
    CleanBatch(rs);
  }

  /** A batch whose every file is over the limit is a 500 listing one size error per file. */
  lemma AllTooLarge(rs: seq<FileOutcome>, files: seq<UploadFile>)
    requires |rs| == |files|
    requires forall i :: 0 <= i < |rs| ==> rs[i] == FileOutcome(None, Some(TooLargeError(files[i].name)))
    ensures StoredOf(rs) == []
    ensures |ErrorsOf(rs)| == |files| && forall i :: 0 <= i < |files| ==> ErrorsOf(rs)[i] == TooLargeError(files[i].name)
  {
    var msgs := seq(|files|, i requires 0 <= i < |files| => TooLargeError(files[i].name));
    OnlyErrors(rs, msgs);
  }

  /** Outcomes that store nothing report exactly their own errors, in order. */
  lemma {:induction false} OnlyErrors(rs: seq<FileOutcome>, msgs: seq<string>)
    requires |rs| == |msgs|
    requires forall i :: 0 <= i < |rs| ==> rs[i] == FileOutcome(None, Some(msgs[i]))
    ensures StoredOf(rs) == [] && ErrorsOf(rs) == msgs
  {
    if rs != [] {
      var n := |rs| - 1;
      OnlyErrors(rs[..n], msgs[..n]);
      assert msgs == msgs[..n] + [msgs[n]];
    }
  }

  // ---------------------------------------------------------------- DELETE

  datatype StorageAction = Unlink(file: string) | DriveDelete(id: string)

  datatype DeleteReply = Deleted | DeleteFailed(status: nat, error: string)

  /** A file id is treated as local when it contains `_` and does not start with `http`. */
  predicate RoutesLocal(id: string) {
    Contains(id, "_") && !StartsWith(id, "http")
  }

  /**
   * DELETE. `body` is None when the JSON cannot be parsed, `Some(None)` when it
   * has no `fileId`. `mainUnlinked` says whether unlinking the main file
   * succeeded: the thumbnail is tried only after it. Storage errors are
   * swallowed: the answer is success whatever they did.
   */
  function Delete(body: Option<Option<string>>, mainUnlinked: bool): (r: (DeleteReply, seq<StorageAction>))
    ensures body.None? ==> r == (DeleteFailed(500, "Failed to delete file"), [])
    ensures body.Some? && (body.value.None? || body.value.value == "") ==>
              r == (DeleteFailed(400, "File ID is required"), [])
    ensures r.0.Deleted? <==> body.Some? && body.value.Some? && body.value.value != ""
    ensures r.0.Deleted? && RoutesLocal(body.value.value) ==>
              r.1 == [Unlink(body.value.value)] + (if mainUnlinked then [Unlink("thumb_" + body.value.value)] else [])
    ensures r.0.Deleted? && !RoutesLocal(body.value.value) ==> r.1 == [DriveDelete(body.value.value)]
  {
    match body
    case None => (DeleteFailed(500, "Failed to delete file"), [])
    case Some(None) => (DeleteFailed(400, "File ID is required"), [])
    case Some(Some(id)) =>
      if id == "" then (DeleteFailed(400, "File ID is required"), [])
      else if RoutesLocal(id) then
        (Deleted, [Unlink(id)] + (if mainUnlinked then [Unlink("thumb_" + id)] else []))
      else (Deleted, [DriveDelete(id)])
  }

  /** Every id a local upload hands out is deleted locally, with its thumbnail name. */
  lemma LocalIdsDeleteLocally(timestamp: nat, name: string, mainUnlinked: bool)
    ensures var id := LocalId(timestamp, name);
            Delete(Some(Some(id)), mainUnlinked) ==
              (Deleted, [Unlink(id)] + (if mainUnlinked then [Unlink("thumb_" + id)] else []))
  {
    var id := LocalId(timestamp, name);
    NatToStringShape(timestamp);
    var n := |NatToString(timestamp)|;
    assert OccursAt(id, "_", n);
    assert IsDigit(id[0]);
  }

  /** The two Drive URLs never route local: they start with `http`. */
  lemma DriveUrlsRouteToDrive(id: string)
    ensures !RoutesLocal(DriveUrl(id)) && !RoutesLocal(DriveThumbUrl(id))
  {
    var p, q := "https://drive.google.com/uc?export=view&id=", "https://lh3.googleusercontent.com/d/";
    assert p[0] == 'h' && p[1] == 't' && p[2] == 't' && p[3] == 'p';
    assert q[0] == 'h' && q[1] == 't' && q[2] == 't' && q[3] == 'p';
    assert p[..4] == "http" && q[..4] == "http";
    assert (p + id)[..4] == p[..4] && (q + id)[..4] == q[..4];
  }

  /** The routing looks only at the text: a Drive id that happens to hold `_` is unlinked locally instead. */
  lemma UnderscoreIdRoutesLocal()
    ensures Delete(Some(Some("1AbC_dEf")), false) == (Deleted, [Unlink("1AbC_dEf")])
  {
    var s := "1AbC_dEf";
    assert s[4] == '_' && s[4..5] == "_";
    assert OccursAt(s, "_", 4);
    assert RoutesLocal(s) by {
      assert s[..4][0] == '1';
      assert !StartsWith(s, "http");
    }
    assert s != "" && [Unlink(s)] + [] == [Unlink(s)];
  }
}
