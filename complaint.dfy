/** The complaint page (src/app/complaint/page.tsx): a subject and a content
    field, a list of attachments filled by a file picker or by dropping files
    on a drop zone, and a submit handler that refuses blank text. The
    attachment ids come from `Math.random` in the page; here they are given
    by the caller, one per offered file. */
module Complaint {
  import opened JsStrings
  import opened Options

  /** 10 MiB, the largest attachment accepted. */
  const MaxFileSize: nat := 10 * 1024 * 1024

  /** The MIME type of a .docx document, by its three dotted parts. */
  const WordDocumentType: string := "application/vnd." + "openxmlformats-officedocument." + "wordprocessingml.document"

  /** The MIME types an attachment may have. */
  const AllowedTypes: seq<string> := [
    "image/jpeg", "image/png", "image/gif", "image/webp",
    "application/pdf", "application/msword", WordDocumentType, "text/plain"
  ]

  /** The parts of a browser `File` the page reads. */
  datatype FileInfo = FileInfo(name: string, size: nat, mimeType: string)

  /** The `UploadedFile` record kept in the attachment list. */
  datatype UploadedFile = UploadedFile(file: FileInfo, id: string, name: string, size: nat, mimeType: string)

  function MakeUploaded(f: FileInfo, id: string): UploadedFile {
    UploadedFile(f, id, f.name, f.size, f.mimeType)
  }

  /** Why a file was turned away; the page shows it in an alert. */
  datatype Rejection = TooLarge | UnsupportedType

  datatype Alert = Alert(fileName: string, reason: Rejection)

  /** The two checks of `handleFileUpload`, size first. */
  function Screen(f: FileInfo): Option<Rejection> {
    if f.size > MaxFileSize then Some(TooLarge)
    else if f.mimeType !in AllowedTypes then Some(UnsupportedType)
    else None
  }

  predicate Acceptable(f: FileInfo) {
    Screen(f).None?
  }

  /** A file is accepted exactly when it is at most 10 MiB and of an allowed
      type; a file failing both checks is reported as too large. */
  lemma ScreenIff(f: FileInfo)
    ensures Acceptable(f) <==> f.size <= 10485760 && f.mimeType in AllowedTypes
    ensures Screen(f) == Some(TooLarge) <==> f.size > 10485760
  {
  }

  /** The attachments one upload adds: the accepted files, in order, each
      with the id offered alongside it. */
  function Accepted(files: seq<FileInfo>, ids: seq<string>): (r: seq<UploadedFile>)
    requires |ids| == |files|
    ensures |r| <= |files|
  {
    if files == [] then []
    else
      var n := |files| - 1;
      Accepted(files[..n], ids[..n]) + (if Acceptable(files[n]) then [MakeUploaded(files[n], ids[n])] else [])
  }

  /** The alerts one upload raises, in order. */
  function Alerts(files: seq<FileInfo>): seq<Alert> {
    if files == [] then []
    else
      var n := |files| - 1;
      Alerts(files[..n]) + (match Screen(files[n]) case Some(why) => [Alert(files[n].name, why)] case None => [])
  }

  /** Uploading two batches accepts what uploading each would: a rejected
      file is skipped and the files after it are still considered. */
  lemma {:induction false} AcceptedAppend(a: seq<FileInfo>, ia: seq<string>, b: seq<FileInfo>, ib: seq<string>)
    requires |ia| == |a| && |ib| == |b|
    ensures Accepted(a + b, ia + ib) == Accepted(a, ia) + Accepted(b, ib)
    decreases |b|
  {
    if b == [] {
      assert a + b == a && ia + ib == ia;
    } else {
      var n := |b| - 1;
      assert (a + b)[..|a| + n] == a + b[..n];
      assert (ia + ib)[..|a| + n] == ia + ib[..n];
      assert (a + b)[|a| + n] == b[n] && (ia + ib)[|a| + n] == ib[n];
      var last := if Acceptable(b[n]) then [MakeUploaded(b[n], ib[n])] else [];
      assert Accepted(a + b, ia + ib) == Accepted(a + b[..n], ia + ib[..n]) + last;
      AcceptedAppend(a, ia, b[..n], ib[..n]);
      assert Accepted(b, ib) == Accepted(b[..n], ib[..n]) + last;
    }
  }

  /** Every attachment added comes from an accepted file at the same
      position, and every accepted file is added. */
  lemma {:induction false} AcceptedExactly(files: seq<FileInfo>, ids: seq<string>)
    requires |ids| == |files|
    ensures forall u :: u in Accepted(files, ids) ==>
      exists k :: 0 <= k < |files| && Acceptable(files[k]) && u == MakeUploaded(files[k], ids[k])
    ensures forall k :: 0 <= k < |files| && Acceptable(files[k]) ==>
      MakeUploaded(files[k], ids[k]) in Accepted(files, ids)
  {
    if files != [] {
      var n := |files| - 1;
      AcceptedExactly(files[..n], ids[..n]);
      forall u | u in Accepted(files, ids)
        ensures exists k :: 0 <= k < |files| && Acceptable(files[k]) && u == MakeUploaded(files[k], ids[k])
      {
        if u in Accepted(files[..n], ids[..n]) {
          var k :| 0 <= k < n && Acceptable(files[..n][k]) && u == MakeUploaded(files[..n][k], ids[..n][k]);
          assert files[k] == files[..n][k] && ids[k] == ids[..n][k];
        } else {
          assert Acceptable(files[n]) && u == MakeUploaded(files[n], ids[n]);
        }
      }
      forall k | 0 <= k < |files| && Acceptable(files[k])
        ensures MakeUploaded(files[k], ids[k]) in Accepted(files, ids)
      {
        if k < n {
          assert files[..n][k] == files[k] && ids[..n][k] == ids[k];
        }
      }
    }
  }

  /** When every file passes, all of them are added and nothing is alerted. */
  lemma {:induction false} AllAcceptable(files: seq<FileInfo>, ids: seq<string>)
    requires |ids| == |files|
    requires forall k :: 0 <= k < |files| ==> Acceptable(files[k])
    ensures |Accepted(files, ids)| == |files|
    ensures Alerts(files) == []
  {
    if files != [] {
      var n := |files| - 1;
      AllAcceptable(files[..n], ids[..n]);
    }
  }

  /** The `forEach` loop of `handleFileUpload`, collecting the new attachments
      and the alerts. */
  method CollectUploads(files: seq<FileInfo>, ids: seq<string>) returns (newFiles: seq<UploadedFile>, alerts: seq<Alert>)
    requires |ids| == |files|
    ensures newFiles == Accepted(files, ids) && alerts == Alerts(files)
    ensures forall k :: 0 <= k < |newFiles| ==> Acceptable(newFiles[k].file)
  {
    newFiles, alerts := [], [];
    var i := 0;
    while i < |files|
      invariant 0 <= i <= |files|
      invariant newFiles == Accepted(files[..i], ids[..i])
      invariant alerts == Alerts(files[..i])
      invariant forall k :: 0 <= k < |newFiles| ==> Acceptable(newFiles[k].file)
    {
      var f := files[i];
      assert files[..i + 1][..i] == files[..i] && ids[..i + 1][..i] == ids[..i];
      match Screen(f) {
        case Some(why) => alerts := alerts + [Alert(f.name, why)];
        case None => newFiles := newFiles + [MakeUploaded(f, ids[i])];
      }
      i := i + 1;
    }
    assert files[..i] == files && ids[..i] == ids;
  }

  /** `removeFile(fileId)`: keep the attachments with another id. */
  function RemoveFile(files: seq<UploadedFile>, fileId: string): (r: seq<UploadedFile>)
    ensures |r| <= |files|
    ensures forall k :: 0 <= k < |r| ==> r[k].id != fileId
  {
    if files == [] then []
    else (if files[0].id != fileId then [files[0]] else []) + RemoveFile(files[1..], fileId)
  }

  /** Removal works entry by entry, so the attachments that stay keep their
      order. */
  lemma {:induction false} RemoveFileAppend(a: seq<UploadedFile>, b: seq<UploadedFile>, fileId: string)
    ensures RemoveFile(a + b, fileId) == RemoveFile(a, fileId) + RemoveFile(b, fileId)
  {
    if a == [] {
      assert a + b == b;
    } else {
      assert (a + b)[0] == a[0] && (a + b)[1..] == a[1..] + b;
      RemoveFileAppend(a[1..], b, fileId);
    }
  }

  /** Exactly the entries with the given id go. */
  lemma {:induction false} RemoveFileMembers(files: seq<UploadedFile>, fileId: string)
    ensures forall u :: u in RemoveFile(files, fileId) <==> u in files && u.id != fileId
  {
    if files != [] {
      RemoveFileMembers(files[1..], fileId);
    }
  }

  /** Removing the same id twice removes nothing more. */
  lemma RemoveFileIdempotent(files: seq<UploadedFile>, fileId: string)
    ensures RemoveFile(RemoveFile(files, fileId), fileId) == RemoveFile(files, fileId)
  {
    RemoveFileNoMatch(RemoveFile(files, fileId), fileId);
  }

  /** A list without the id is left as it is. */
  lemma {:induction false} RemoveFileNoMatch(files: seq<UploadedFile>, fileId: string)
    requires forall k :: 0 <= k < |files| ==> files[k].id != fileId
    ensures RemoveFile(files, fileId) == files
  {
    if files != [] {
      RemoveFileNoMatch(files[1..], fileId);
    }
  }

  /** The badge `getFileIcon` draws. */
  datatype Icon = Img | Pdf | Doc | Generic

  /** `getFileIcon`: the checks in their order of priority. */
  function FileIcon(mimeType: string): Icon {
    if StartsWith(mimeType, "image/") then Img
    else if mimeType == "application/pdf" then Pdf
    else if Contains(mimeType, "word") || Contains(mimeType, "document") then Doc
    else Generic
  }

  /** A string lacking the first character of `sub` does not include it. */
  lemma {:induction false} ContainsNeedsFirst(s: string, sub: string)
    requires sub != []
    requires forall k :: 0 <= k < |s| ==> s[k] != sub[0]
    ensures !Contains(s, sub)
    decreases |s|
  {
    if s != [] {
      assert s[0] != sub[0];
      ContainsNeedsFirst(s[1..], sub);
    }
  }

  /** An `image/` type wins over every later check, whatever else it
      contains. */
  lemma ImagePrefixWins(mimeType: string)
    requires StartsWith(mimeType, "image/")
    ensures FileIcon(mimeType) == Img
  {
  }

  /** The four allowed image types get the IMG badge. */
  lemma IconsOfImageTypes()
    ensures FileIcon("image/jpeg") == Img && FileIcon("image/png") == Img
    ensures FileIcon("image/gif") == Img && FileIcon("image/webp") == Img
  {
    assert "image/jpeg"[..6] == "image/" && "image/png"[..6] == "image/";
    assert "image/gif"[..6] == "image/" && "image/webp"[..6] == "image/";
  }

  lemma IconOfPdf()
    ensures FileIcon("application/pdf") == Pdf
  {
    assert "application/pdf"[..6][0] == 'a';
  }

  lemma IconOfMsWord()
    ensures FileIcon("application/msword") == Doc
  {
    assert "application/msword"[..6][0] == 'a';
    ContainsAt("application/msword", "word", 14);
  }

  lemma IconOfWordDocument()
    ensures FileIcon(WordDocumentType) == Doc
  {
    assert WordDocumentType[..6][0] == 'a';
    assert |WordDocumentType| == 71;
    assert WordDocumentType[46..50] == "wordprocessingml.document"[..4];
    ContainsAt(WordDocumentType, "word", 46);
  }

  lemma IconOfPlainText()
    ensures FileIcon("text/plain") == Generic
  {
    PlainTextLacks("text/plain");
  }

  /** The last check on a type with no `w` and no `d` in it. */
  lemma PlainTextLacks(t: string)
    requires |t| >= 1 && t[0] != 'i' && t[0] != 'a'
    requires forall k :: 0 <= k < |t| ==> t[k] != 'w' && t[k] != 'd'
    ensures FileIcon(t) == Generic
  {
    assert !StartsWith(t, "image/") by {
      if |t| >= 6 { assert t[..6][0] == t[0]; }
    }
    ContainsNeedsFirst(t, "word");
    ContainsNeedsFirst(t, "document");
  }

  /** `handleDrag`: entering or moving over the zone activates it, leaving
      deactivates it, any other event type leaves it as it was. */
  function DragNext(active: bool, eventType: string): bool {
    if eventType == "dragenter" || eventType == "dragover" then true
    else if eventType == "dragleave" then false
    else active
  }

  lemma DragNextCases(active: bool, eventType: string)
    ensures eventType in {"dragenter", "dragover"} ==> DragNext(active, eventType)
    ensures eventType == "dragleave" ==> !DragNext(active, eventType)
    ensures eventType !in {"dragenter", "dragover", "dragleave"} ==> DragNext(active, eventType) == active
  {
  }

  /** The field check of `handleSubmit`. */
  predicate CanSubmit(subject: string, content: string) {
    Trim(subject) != [] && Trim(content) != []
  }

  /** Submission is refused exactly when the subject or the content is
      blank. */
  lemma CanSubmitIff(subject: string, content: string)
    ensures CanSubmit(subject, content) <==> !AllWhitespace(subject) && !AllWhitespace(content)
  {
    TrimEmptyIff(subject);
    TrimEmptyIff(content);
  }

  datatype ComplaintField = Subject | Content

  /** The page's state. */
  class ComplaintPage {
    var subject: string
    var content: string
    var uploadedFiles: seq<UploadedFile>
    var isSubmitting: bool
    var isSubmitted: bool
    var dragActive: bool

    constructor ()
      ensures subject == "" && content == "" && uploadedFiles == []
      ensures !isSubmitting && !isSubmitted && !dragActive
    {
      subject, content := "", "";
      uploadedFiles := [];
      isSubmitting, isSubmitted, dragActive := false, false, false;
    }

    /** `handleInputChange`: only the named text field changes. */
    method HandleInputChange(field: ComplaintField, value: string)
      modifies this
      ensures subject == (if field == Subject then value else old(subject))
      ensures content == (if field == Content then value else old(content))
      ensures uploadedFiles == old(uploadedFiles) && dragActive == old(dragActive)
      ensures isSubmitting == old(isSubmitting) && isSubmitted == old(isSubmitted)
    {
      if field == Subject {
        subject := value;
      } else {
        content := value;
      }
    }

    /** `handleFileUpload`: a null file list changes nothing; otherwise the
        accepted files are appended after the existing ones. */
    method HandleFileUpload(files: Option<seq<FileInfo>>, ids: seq<string>) returns (alerts: seq<Alert>)
      requires files.Some? ==> |ids| == |files.value|
      modifies this
      ensures files.None? ==> uploadedFiles == old(uploadedFiles) && alerts == []
      ensures files.Some? ==>
        uploadedFiles == old(uploadedFiles) + Accepted(files.value, ids) && alerts == Alerts(files.value)
      ensures subject == old(subject) && content == old(content) && dragActive == old(dragActive)
      ensures isSubmitting == old(isSubmitting) && isSubmitted == old(isSubmitted)
    {
      alerts := [];
      if files.Some? {
        var newFiles;
        newFiles, alerts := CollectUploads(files.value, ids);
        uploadedFiles := uploadedFiles + newFiles;
      }
    }

    /** The remove button of one attachment. */
    method HandleRemoveFile(fileId: string)
      modifies this
      ensures uploadedFiles == RemoveFile(old(uploadedFiles), fileId)
      ensures subject == old(subject) && content == old(content) && dragActive == old(dragActive)
      ensures isSubmitting == old(isSubmitting) && isSubmitted == old(isSubmitted)
    {
      uploadedFiles := RemoveFile(uploadedFiles, fileId);
    }

    /** `handleDrag`, wired to dragenter, dragover and dragleave. */
    method HandleDrag(eventType: string)
      modifies this
      ensures dragActive == DragNext(old(dragActive), eventType)
      ensures uploadedFiles == old(uploadedFiles) && subject == old(subject) && content == old(content)
      ensures isSubmitting == old(isSubmitting) && isSubmitted == old(isSubmitted)
    {
      dragActive := DragNext(dragActive, eventType);
    }

    /** `handleDrop`: the zone always goes inactive, and a non-empty list of
        dropped files is uploaded. */
    method HandleDrop(files: Option<seq<FileInfo>>, ids: seq<string>) returns (alerts: seq<Alert>)
      requires files.Some? ==> |ids| == |files.value|
      modifies this
      ensures !dragActive
      ensures files.Some? && files.value != [] ==>
        uploadedFiles == old(uploadedFiles) + Accepted(files.value, ids) && alerts == Alerts(files.value)
      ensures !(files.Some? && files.value != []) ==> uploadedFiles == old(uploadedFiles) && alerts == []
      ensures subject == old(subject) && content == old(content)
      ensures isSubmitting == old(isSubmitting) && isSubmitted == old(isSubmitted)
    {
      dragActive := false;
      alerts := [];
      if files.Some? && files.value != [] {
        alerts := HandleFileUpload(files, ids);
      }
    }

    /** `handleSubmit` up to the start of the simulated request. */
    method HandleSubmit() returns (accepted: bool)
      modifies this
      ensures accepted == CanSubmit(subject, content)
      ensures isSubmitting == (accepted || old(isSubmitting))
      ensures subject == old(subject) && content == old(content) && uploadedFiles == old(uploadedFiles)
      ensures isSubmitted == old(isSubmitted) && dragActive == old(dragActive)
    {
      accepted := CanSubmit(subject, content);
      if accepted {
        isSubmitting := true;
      }
    }

    /** The first timer callback. */
    method FinishSubmission()
      modifies this
      ensures !isSubmitting && isSubmitted
      ensures subject == old(subject) && content == old(content) && uploadedFiles == old(uploadedFiles)
      ensures dragActive == old(dragActive)
    {
      isSubmitting := false;
      isSubmitted := true;
    }

    /** The second timer callback: clear the text, the attachments and the
        success screen. */
    method ResetAfterSubmission()
      modifies this
      ensures subject == "" && content == "" && uploadedFiles == [] && !isSubmitted
      ensures isSubmitting == old(isSubmitting) && dragActive == old(dragActive)
    {
      subject, content := "", "";
      uploadedFiles := [];
      isSubmitted := false;
    }
  }
}
