/** The upload endpoint for notice attachments: it checks that a file was
    sent, that it is at most 10 MiB and of an allowed type, stores it under
    `notices/<uuid>.<extension>` in the notice-files bucket, and answers with
    the file's public address and a coarse category.

    The uuid, the storage call's outcome and the bucket's public address are
    parameters. */
module Upload {
  import opened Wrappers
  import opened Types
  import opened Text

  /** 10 MiB. */
  const MaxFileSize: nat := 10 * 1024 * 1024

  const PdfType := "application/pdf"
  const DocType := "application/msword"
  /** The Word document type, written in pieces so that its characters can be reasoned about. */
  const DocxType := "application/" + "vnd.openxmlformats-" + "officedocument." + "wordprocessingml." + "document"
  const JpegType := "image/jpeg"
  const JpgType := "image/jpg"
  const PngType := "image/png"
  const TextType := "text/plain"

  const AllowedTypes: seq<string> := [PdfType, DocType, DocxType, JpegType, JpgType, PngType, TextType]

  const SizeError := "File size exceeds 10MB limit"
  const TypeError := "File type not allowed. Please upload PDF, DOC, DOCX, JPG, PNG, or TXT files only."

  /** The `file` field of the submitted form. */
  datatype FormFile = FormFile(name: string, mimeType: string, size: nat)

  datatype UploadReply = Rejected(status: nat, error: string) | Accepted(response: FileUploadResponse)

  /** The stored file's name: the uuid, a dot, and the text after the last
      dot of the original name (all of it when it has no dot). */
  function StoredName(uuid: string, name: string): string
  {
    uuid + "." + LastSegment(name, '.')
  }

  function StoredPath(uuid: string, name: string): string
  {
    "notices/" + StoredName(uuid, name)
  }

  /** The storage client's public address of a path in the bucket. */
  function PublicUrl(bucketUrl: string, path: string): string
  {
    bucketUrl + "/" + path
  }

  /** The coarse category reported to the client; the tests run in this order. */
  function FileCategory(mimeType: string): string
  {
    if StartsWith(mimeType, "image/") then "image"
    else if mimeType == "application/pdf" then "pdf"
    else if Contains(mimeType, "word") || Contains(mimeType, "document") then "document"
    else if mimeType == "text/plain" then "text"
    else "other"
  }

  /** The handler. */
  function Post(file: Option<FormFile>, uuid: string, storageError: Option<string>, bucketUrl: string): (r: UploadReply)
    ensures r.Accepted? <==> (file.Some? && file.value.size <= MaxFileSize
      && file.value.mimeType in AllowedTypes && storageError.None?)
    ensures r.Rejected? ==> r.status == 400 || r.status == 500
    ensures (r.Rejected? && r.status == 500) <==> (storageError.Some?
      && file.Some? && file.value.size <= MaxFileSize && file.value.mimeType in AllowedTypes)
    ensures r.Accepted? ==>
      var f := file.value;
      var path := StoredPath(uuid, f.name);
      r.response == FileUploadResponse(PublicUrl(bucketUrl, path), PublicUrl(bucketUrl, path),
        f.name, StoredName(uuid, f.name), f.mimeType, f.size, FileCategory(f.mimeType))
  {
    match file
    case None => Rejected(400, "No file provided")
    case Some(f) =>
      if f.size > MaxFileSize then Rejected(400, SizeError)
      else if f.mimeType !in AllowedTypes then Rejected(400, TypeError)
      else
        var id := StoredName(uuid, f.name);
        var path := "notices/" + id;
        match storageError
        case Some(message) => Rejected(500, "Upload failed: " + message)
        case None =>
          var url := PublicUrl(bucketUrl, path);
          Accepted(FileUploadResponse(url, url, f.name, id, f.mimeType, f.size, FileCategory(f.mimeType)))
  }

  /** Which error a rejected upload reports: a missing file first, then the
      size (even when the type is also wrong), then the type, then storage. */
  lemma RejectionReasons(file: Option<FormFile>, uuid: string, storageError: Option<string>, bucketUrl: string)
    ensures var r := Post(file, uuid, storageError, bucketUrl);
      (file.None? ==> r == Rejected(400, "No file provided"))
      && (file.Some? && file.value.size > MaxFileSize ==> r == Rejected(400, SizeError))
      && ((file.Some? && file.value.size <= MaxFileSize && file.value.mimeType !in AllowedTypes)
          ==> r == Rejected(400, TypeError))
      && ((file.Some? && file.value.size <= MaxFileSize && file.value.mimeType in AllowedTypes
           && storageError.Some?) ==> r == Rejected(500, "Upload failed: " + storageError.value))
  {
  }

  /** The limit is inclusive: a file of exactly 10 MiB passes, one byte more does not. */
  lemma SizeBoundary(name: string, mimeType: string, uuid: string, bucketUrl: string)
    requires mimeType in AllowedTypes
    ensures Post(Some(FormFile(name, mimeType, 10485760)), uuid, None, bucketUrl).Accepted?
    ensures Post(Some(FormFile(name, mimeType, 10485761)), uuid, None, bucketUrl) == Rejected(400, SizeError)
  {
  }

  /** The stored name keeps the original's extension. */
  lemma StoredNameKeepsExtension(uuid: string, name: string)
    ensures LastSegment(StoredName(uuid, name), '.') == LastSegment(name, '.')
  {
    var parts := Split(name, '.');
    assert '.' !in parts[|parts| - 1];
    LastSegmentOfJoin(uuid, '.', LastSegment(name, '.'));
  }

  /** A name without a dot is its own extension. */
  lemma StoredNameWithoutDot(uuid: string, name: string)
    requires '.' !in name
    ensures StoredName(uuid, name) == uuid + "." + name
  {
    LastSegmentWithoutSeparator(name, '.');
  }

  lemma WordTypesAreDocuments()
    ensures FileCategory(DocType) == "document"
    ensures FileCategory(DocxType) == "document"
  {
    assert !StartsWith(DocType, "image/") by { assert DocType[0] == 'a'; }
    assert !StartsWith(DocxType, "image/") by { assert DocxType[0] == 'a'; }
    assert OccursAt(DocType, "word", 14);
    assert OccursAt(DocxType, "word", 46);
  }

  lemma PdfAndText()
    ensures FileCategory(PdfType) == "pdf"
    ensures FileCategory(TextType) == "text"
  {
    assert !StartsWith(PdfType, "image/") by { assert PdfType[0] == 'a'; }
    assert !StartsWith(TextType, "image/") by { assert TextType[0] == 't'; }
    if Contains(TextType, "word") {
      ContainsFirst(TextType, "word");
    }
    if Contains(TextType, "document") {
      ContainsFirst(TextType, "document");
    }
  }

  lemma Images()
    ensures FileCategory(JpegType) == "image"
    ensures FileCategory(JpgType) == "image"
    ensures FileCategory(PngType) == "image"
  {
  }

  /** Every allowed type has a category other than `other`. */
  lemma AllowedTypesCategorised()
    ensures forall i :: 0 <= i < |AllowedTypes| ==> FileCategory(AllowedTypes[i]) != "other"
  {
    WordTypesAreDocuments();
    PdfAndText();
    Images();
  }
}
