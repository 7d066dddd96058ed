/** The administrators' notice editor: a toolbar that wraps the selected
    text of the content box in HTML tags, a form that uploads an optional
    attachment and then creates the notice, and a list with a delete button.

    The answers of the upload and notices endpoints, the confirmation dialog
    and the five-second timer that clears the message are parameters or
    methods of their own. */
module AdminNotices {
  import opened Wrappers
  import opened Types
  import opened Seqs
  import opened Text
  import Upload
  import NoticesApi
  import NoticeView

  // ---------------------------------------------------------------------------
  // Tag insertion

  datatype Format = Bold | Italic | Underline | BulletList | NumberedList {
    predicate IsList()
    {
      BulletList? || NumberedList?
    }

    function Open(): string
    {
      match this
      case Bold => "<strong>"
      case Italic => "<em>"
      case Underline => "<u>"
      case BulletList => "<ul>"
      case NumberedList => "<ol>"
    }

    function Close(): string
    {
      match this
      case Bold => "</strong>"
      case Italic => "</em>"
      case Underline => "</u>"
      case BulletList => "</ul>"
      case NumberedList => "</ol>"
    }

    /** The number the editor adds to a position to step over the opening
        tag of an inline format. */
    function Shift(): nat
    {
      match this
      case Bold => 8
      case Italic => 4
      case Underline => 3
      case _ => 4
    }
  }

  /** The toolbar's format names. */
  function ParseFormat(name: string): (r: Option<Format>)
    ensures r.Some? <==> name in {"bold", "italic", "underline", "list-ul", "list-ol"}
    ensures r == Some(Bold) <==> name == "bold"
    ensures r == Some(Italic) <==> name == "italic"
    ensures r == Some(Underline) <==> name == "underline"
    ensures r == Some(BulletList) <==> name == "list-ul"
    ensures r == Some(NumberedList) <==> name == "list-ol"
  {
    match name
    case "bold" => Some(Bold)
    case "italic" => Some(Italic)
    case "underline" => Some(Underline)
    case "list-ul" => Some(BulletList)
    case "list-ol" => Some(NumberedList)
    case _ => None
  }

  /** The content after an edit, and the selection the editor then sets. */
  datatype Edit = Edit(text: string, selStart: int, selEnd: int)

  /** Each line wrapped in `<li>` and `</li>`, joined with nothing between. */
  function ListItems(lines: seq<string>): string
  {
    if lines == [] then "" else "<li>" + lines[0] + "</li>" + ListItems(lines[1..])
  }

  /** `formatText` with the selection `start..end` of `content`. For a list
      the end of the new selection is the old end, plus what the items added
      to the text, plus `listEnd`. */
  function FormatWith(content: string, start: nat, end: nat, format: string, listEnd: int): Option<Edit>
    requires start <= end <= |content|
  {
    var selected := content[start..end];
    var before := content[..start];
    var after := content[end..];
    match ParseFormat(format)
    case None => None
    case Some(f) =>
      if !f.IsList() then
        if selected != "" then
          Some(Edit(before + f.Open() + selected + f.Close() + after, start + f.Shift(), end + f.Shift()))
        else
          Some(Edit(before + f.Open() + f.Close() + after, start + f.Shift(), start + f.Shift()))
      else if selected != "" then
        var items := ListItems(Split(selected, '\n'));
        Some(Edit(before + f.Open() + items + f.Close() + after, start + 4, end + (|items| - |selected|) + listEnd))
      else
        Some(Edit(before + f.Open() + "<li></li>" + f.Close() + after, start + 8, start + 8))
  }

  /** The text before the selection and the text after it are kept at both
      ends of the new content. */
  predicate KeepsAround(content: string, start: nat, end: nat, text: string)
    requires start <= end <= |content|
  {
    start + (|content| - end) <= |text|
    && text[..start] == content[..start]
    && text[|text| - (|content| - end)..] == content[end..]
  }

  lemma KeepsAroundConcat(content: string, start: nat, end: nat, middle: string)
    requires start <= end <= |content|
    ensures KeepsAround(content, start, end, content[..start] + middle + content[end..])
  {
    var text := content[..start] + middle + content[end..];
    assert text[..start] == content[..start];
    assert text[|text| - (|content| - end)..] == content[end..];
  }

  /** `formatText` as written: a list selection ends 9 characters after the
      items' growth. */
  function FormatTextAsWritten(content: string, start: nat, end: nat, format: string): (r: Option<Edit>)
    requires start <= end <= |content|
    ensures r.None? <==> ParseFormat(format).None?
    ensures r.Some? ==> KeepsAround(content, start, end, r.value.text)
  {
    FormatKeepsAround(content, start, end, format, 9);
    FormatWith(content, start, end, format, 9)
  }

  /** `formatText` with the list selection ending at the end of the items,
      as the inline formats' selection ends at the end of the selected text. */
  function FormatText(content: string, start: nat, end: nat, format: string): (r: Option<Edit>)
    requires start <= end <= |content|
    ensures r.None? <==> ParseFormat(format).None?
    ensures r.Some? ==> KeepsAround(content, start, end, r.value.text)
    ensures r.Some? ==> 0 <= r.value.selStart <= r.value.selEnd <= |r.value.text|
  {
    FormatKeepsAround(content, start, end, format, 4);
    FormatWith(content, start, end, format, 4)
  }

  lemma FormatKeepsAround(content: string, start: nat, end: nat, format: string, listEnd: int)
    requires start <= end <= |content|
    ensures FormatWith(content, start, end, format, listEnd).Some? ==>
      KeepsAround(content, start, end, FormatWith(content, start, end, format, listEnd).value.text)
  {
    if ParseFormat(format).None? {
      return;
    }
    var f := ParseFormat(format).value;
    var selected := content[start..end];
    if !f.IsList() {
      if selected != "" {
        assert content[..start] + f.Open() + selected + f.Close() + content[end..]
          == content[..start] + (f.Open() + selected + f.Close()) + content[end..];
        KeepsAroundConcat(content, start, end, f.Open() + selected + f.Close());
      } else {
        assert content[..start] + f.Open() + f.Close() + content[end..]
          == content[..start] + (f.Open() + f.Close()) + content[end..];
        KeepsAroundConcat(content, start, end, f.Open() + f.Close());
      }
    } else if selected != "" {
      var items := ListItems(Split(selected, '\n'));
      assert content[..start] + f.Open() + items + f.Close() + content[end..]
        == content[..start] + (f.Open() + items + f.Close()) + content[end..];
      KeepsAroundConcat(content, start, end, f.Open() + items + f.Close());
    } else {
      assert content[..start] + f.Open() + "<li></li>" + f.Close() + content[end..]
        == content[..start] + (f.Open() + "<li></li>" + f.Close()) + content[end..];
      KeepsAroundConcat(content, start, end, f.Open() + "<li></li>" + f.Close());
    }
  }

  /** Bold, italic and underline: the new selection is exactly the text that
      was selected, right after the opening tag and right before the closing
      one; with nothing selected it is a caret between the two tags. */
  lemma InlineSelection(content: string, start: nat, end: nat, format: string)
    requires start <= end <= |content|
    requires ParseFormat(format).Some? && !ParseFormat(format).value.IsList()
    ensures var e := FormatText(content, start, end, format).value;
      var f := ParseFormat(format).value;
      |f.Open()| <= e.selStart <= e.selEnd && e.selEnd + |f.Close()| <= |e.text|
      && e.text[e.selStart..e.selEnd] == content[start..end]
      && e.text[e.selStart - |f.Open()|..e.selStart] == f.Open()
      && e.text[e.selEnd..e.selEnd + |f.Close()|] == f.Close()
  {
    var f := ParseFormat(format).value;
    var selected := content[start..end];
    var e := FormatText(content, start, end, format).value;
    assert e.text == content[..start] + f.Open() + selected + f.Close() + content[end..];
    assert e.selStart == start + |f.Open()| && e.selEnd == end + |f.Open()|;
    assert e.text[e.selStart..e.selEnd] == selected;
    assert e.text[e.selStart - |f.Open()|..e.selStart] == f.Open();
    assert e.text[e.selEnd..e.selEnd + |f.Close()|] == f.Close();
  }

  /** Lists: every line of a selection becomes an item, and the new
      selection is exactly the items, between the list's two tags. */
  lemma ListSelection(content: string, start: nat, end: nat, format: string)
    requires start < end <= |content|
    requires ParseFormat(format).Some? && ParseFormat(format).value.IsList()
    ensures var e := FormatText(content, start, end, format).value;
      var f := ParseFormat(format).value;
      var items := ListItems(Split(content[start..end], '\n'));
      e.selStart == start + |f.Open()| && e.selEnd == e.selStart + |items|
      && e.text[..e.selStart] == content[..start] + f.Open()
      && e.text[e.selStart..e.selEnd] == items
      && e.text[e.selEnd..] == f.Close() + content[end..]
  {
    var f := ParseFormat(format).value;
    var selected := content[start..end];
    var items := ListItems(Split(selected, '\n'));
    var e := FormatText(content, start, end, format).value;
    assert e.text == (content[..start] + f.Open()) + items + (f.Close() + content[end..]);
  }

  /** A single line becomes one item. */
  lemma SingleLineList(selected: string)
    requires '\n' !in selected
    ensures ListItems(Split(selected, '\n')) == "<li>" + selected + "</li>"
  {
    SplitWithoutSeparator(selected, '\n');
  }

  /** Lists with nothing selected: an empty list with one empty item, and
      the caret inside the item. */
  lemma EmptyListCaret(content: string, start: nat, format: string)
    requires start <= |content|
    requires ParseFormat(format).Some? && ParseFormat(format).value.IsList()
    ensures var e := FormatText(content, start, start, format).value;
      var f := ParseFormat(format).value;
      e.selStart == e.selEnd == start + 8
      && e.text[..e.selStart] == content[..start] + f.Open() + "<li>"
      && e.text[e.selStart..] == "</li>" + f.Close() + content[start..]
  {
    var f := ParseFormat(format).value;
    var e := FormatText(content, start, start, format).value;
    assert e.text == (content[..start] + f.Open() + "<li>") + ("</li>" + f.Close() + content[start..]);
  }

  /** An unknown format changes nothing. */
  lemma UnknownFormat(content: string, start: nat, end: nat, format: string)
    requires start <= end <= |content|
    requires format !in {"bold", "italic", "underline", "list-ul", "list-ol"}
    ensures FormatText(content, start, end, format).None?
    ensures FormatTextAsWritten(content, start, end, format).None?
  {
  }

  /** As written, a list's selection also takes in the list's closing tag
      but not its opening one: selecting `a` and choosing a bullet list
      selects `<li>a</li></ul>`. */
  lemma ListSelectionAsWritten()
    ensures FormatTextAsWritten("a", 0, 1, "list-ul") == Some(Edit("<ul><li>a</li></ul>", 4, 19))
    ensures "<ul><li>a</li></ul>"[4..19] == "<li>a</li></ul>"
    ensures FormatText("a", 0, 1, "list-ul") == Some(Edit("<ul><li>a</li></ul>", 4, 14))
  {
    BulletA(9);
    BulletA(4);
    assert "<ul><li>a</li></ul>"[4..19] == "<li>a</li></ul>";
  }

  lemma BulletA(listEnd: int)
    ensures FormatWith("a", 0, 1, "list-ul", listEnd) == Some(Edit("<ul><li>a</li></ul>", 4, 10 + listEnd))
  {
    SingleLineList("a");
    var items := ListItems(Split("a", '\n'));
    assert items == "<li>a</li>";
    assert "a"[0..1] == "a" && "a"[..0] == "" && "a"[1..] == "";
    assert "" + "<ul>" + items + "</ul>" + "" == "<ul><li>a</li></ul>";
  }

  /** As written, every list's selection ends 5 characters later, after the
      closing tag. */
  lemma ListSelectionAsWrittenEnd(content: string, start: nat, end: nat, format: string)
    requires start < end <= |content|
    requires ParseFormat(format).Some? && ParseFormat(format).value.IsList()
    ensures var w := FormatTextAsWritten(content, start, end, format).value;
      var e := FormatText(content, start, end, format).value;
      var f := ParseFormat(format).value;
      w.text == e.text && w.selStart == e.selStart && w.selEnd == e.selEnd + |f.Close()|
      && w.text[w.selStart..w.selEnd] == e.text[e.selStart..e.selEnd] + f.Close()
  {
    ListSelection(content, start, end, format);
    var e := FormatText(content, start, end, format).value;
    var f := ParseFormat(format).value;
    ListEndShift(content, start, end, format);
    ClosingTagAfter(e.text, e.selStart, e.selEnd, f.Close(), content[end..]);
  }

  /** The two list-end offsets give the same text and start, and ends five
      characters apart. */
  lemma ListEndShift(content: string, start: nat, end: nat, format: string)
    requires start < end <= |content|
    requires ParseFormat(format).Some? && ParseFormat(format).value.IsList()
    ensures var w := FormatTextAsWritten(content, start, end, format).value;
      var e := FormatText(content, start, end, format).value;
      w.text == e.text && w.selStart == e.selStart && w.selEnd == e.selEnd + 5
  {
  }

  lemma ClosingTagAfter(t: string, i: nat, j: nat, close: string, rest: string)
    requires i <= j <= |t| && t[j..] == close + rest
    ensures j + |close| <= |t| && t[i..j + |close|] == t[i..j] + close
  {
    assert t[j..j + |close|] == t[j..][..|close|] == close;
    assert t[i..j + |close|] == t[i..j] + t[j..j + |close|];
  }

  // ---------------------------------------------------------------------------
  // Error messages

  /** How a non-ok answer's body reads as JSON: not at all, or as an object
      with an `error` field that may be missing. */
  datatype ParsedBody = Unparsable | ParsedObject(error: Option<string>)

  /** The body both endpoints send with an error status, for an error text
      that needs no escaping. */
  function JsonErrorBody(error: string): string
  {
    "{\"error\":\"" + error + "\"}"
  }

  /** The message as written: the error raised from the parsed object is
      caught by the same block's own `catch`, which raises the raw body
      instead, so the parsed `error` is never shown. */
  function FailureTextAsWritten(body: string, parsed: ParsedBody, fallback: string): string
  {
    if body != "" then body else fallback
  }

  /** The message the code is evidently after: the parsed `error` field, or
      the raw body when it is not JSON. */
  function FailureText(body: string, parsed: ParsedBody, fallback: string): string
  {
    match parsed
    case Unparsable => if body != "" then body else fallback
    case ParsedObject(error) => if Truthy(error) then error.value else fallback
  }

  /** An upload the endpoint refuses for its size is reported as the raw
      JSON text rather than the endpoint's message. */
  lemma FailureTextAsWrittenShowsJson()
    ensures var body := JsonErrorBody(Upload.SizeError);
      FailureTextAsWritten(body, ParsedObject(Some(Upload.SizeError)), "Upload failed") == body
      && body != Upload.SizeError
  {
    var body := JsonErrorBody(Upload.SizeError);
    assert body[0] == '{' && Upload.SizeError[0] == 'F';
  }

  /** Corrected, the endpoint's own message is shown, and a body that is not
      JSON is shown as it is. */
  lemma FailureTextShowsError(error: string, body: string, fallback: string)
    requires error != ""
    ensures FailureText(JsonErrorBody(error), ParsedObject(Some(error)), fallback) == error
    ensures FailureText(body, Unparsable, fallback) == FailureTextAsWritten(body, Unparsable, fallback)
    ensures FailureText(body, ParsedObject(None), fallback) == fallback
  {
  }

  // ---------------------------------------------------------------------------
  // Submission

  /** The payload sent to create a notice: trimmed text, and the upload's
      fields or `''` and `0` when there is none. */
  function Payload(title: string, content: string, upload: Option<FileUploadResponse>): NoticesApi.NoticeBody
  {
    NoticesApi.NoticeBody(
      None,
      Some(Trim(title)),
      Some(Trim(content)),
      Some(if upload.Some? then upload.value.fileUrl else ""),
      Some(if upload.Some? then upload.value.fileName else ""),
      Some(if upload.Some? then upload.value.fileType else ""),
      Some(if upload.Some? then upload.value.fileSize as int else 0))
  }

  /** Without an attachment the payload carries `''` and `0`, which the
      endpoint stores as no attachment at all. */
  lemma PayloadWithoutUpload(title: string, content: string)
    requires Trim(title) != "" && Trim(content) != ""
    requires Utf16Length(Trim(title)) <= NoticesApi.MaxTitleLength
    ensures var body := Payload(title, content, None);
      body.fileUrl == Some("") && body.fileName == Some("") && body.fileType == Some("")
      && body.fileSize == Some(0)
    ensures var r := NoticesApi.Post(Payload(title, content, None), None);
      r.Saved? && r.record == NoticesApi.NoticeRecord(Trim(title), Trim(content), None, None, None, None, None)
  {
    TrimIdempotent(title);
    TrimIdempotent(content);
  }

  /** With an attachment the endpoint stores the address and the type of the
      uploaded file, and a later delete removes exactly that object. */
  lemma PayloadStoresUpload(title: string, content: string, file: Upload.FormFile, uuid: string, bucketUrl: string)
    requires Trim(title) != "" && Trim(content) != ""
    requires Utf16Length(Trim(title)) <= NoticesApi.MaxTitleLength
    requires Upload.Post(Some(file), uuid, None, bucketUrl).Accepted?
    requires '/' !in uuid && '/' !in file.name
    ensures var response := Upload.Post(Some(file), uuid, None, bucketUrl).response;
      var r := NoticesApi.Post(Payload(title, content, Some(response)), None);
      r.Saved? && r.record.fileUrl == Some(response.fileUrl) && r.record.fileType == Some(file.mimeType)
      && NoticesApi.StorageKey(r.record.fileUrl) == Some(Upload.StoredPath(uuid, file.name))
  {
    TrimIdempotent(title);
    TrimIdempotent(content);
    var response := Upload.Post(Some(file), uuid, None, bucketUrl).response;
    assert |response.fileUrl| > 0 by {
      assert response.fileUrl == Upload.PublicUrl(bucketUrl, Upload.StoredPath(uuid, file.name));
    }
    assert file.mimeType != "" by {
      assert file.mimeType in Upload.AllowedTypes;
    }
    NoticesApi.DeleteRemovesUploadedFile(bucketUrl, uuid, file.name);
  }

  /** What came of the upload request. */
  datatype UploadOutcome =
    | Uploaded(data: FileUploadResponse)
    | UploadRefused(body: string, parsed: ParsedBody)
    | UploadThrew(reason: string)

  /** What came of the create request. */
  datatype CreateOutcome =
    | Created
    | CreateRefused(body: string, parsed: ParsedBody)
    | CreateThrew(reason: string)

  /** What came of a delete request: its status and body, or an exception. */
  datatype DeleteAnswer = DeleteAnswered(status: int, body: string) | DeleteThrew(reason: string)

  function UploadError(upload: UploadOutcome): string
  {
    match upload
    case Uploaded(_) => ""
    case UploadRefused(body, parsed) => FailureText(body, parsed, "Upload failed")
    case UploadThrew(reason) => reason
  }

  function CreateError(create: CreateOutcome): string
  {
    match create
    case Created => ""
    case CreateRefused(body, parsed) => FailureText(body, parsed, "Failed to create notice")
    case CreateThrew(reason) => reason
  }

  /** An upload the endpoint refuses is reported with the endpoint's message. */
  lemma UploadRefusalMessage(file: Option<Upload.FormFile>, uuid: string, storageError: Option<string>, bucketUrl: string)
    requires Upload.Post(file, uuid, storageError, bucketUrl).Rejected?
    ensures var e := Upload.Post(file, uuid, storageError, bucketUrl).error;
      UploadError(UploadRefused(JsonErrorBody(e), ParsedObject(Some(e)))) == e
  {
    var r := Upload.Post(file, uuid, storageError, bucketUrl);
    if file.Some? && file.value.size <= Upload.MaxFileSize && file.value.mimeType in Upload.AllowedTypes {
      assert r.error == "Upload failed: " + storageError.value;
      assert r.error[0] == 'U';
    }
  }

  predicate DeleteOk(answer: DeleteAnswer)
  {
    answer.DeleteAnswered? && 200 <= answer.status < 300
  }

  function DeleteError(answer: DeleteAnswer): string
  {
    match answer
    case DeleteAnswered(_, body) => body
    case DeleteThrew(reason) => reason
  }

  /** What the endpoint's DELETE handler answers. */
  function DeleteAnswerOf(reply: NoticesApi.ApiReply): DeleteAnswer
  {
    match reply
    case Failure(status, error) => DeleteAnswered(status, JsonErrorBody(error))
    case _ => DeleteAnswered(200, "")
  }

  /** The page takes a delete to have worked exactly when the handler removed
      the notice. */
  lemma DeleteOkIffRemoved(id: Option<string>, lookup: NoticesApi.LookupResult, deleteError: Option<string>)
    ensures DeleteOk(DeleteAnswerOf(NoticesApi.Delete(id, lookup, deleteError).reply))
      <==> NoticesApi.Delete(id, lookup, deleteError).reply.Removed?
  {
  }

  function OtherThan(id: string): Notice -> bool
  {
    (n: Notice) => n.id != id
  }

  /** Dropping a notice from the list keeps every other notice, in order,
      and no notice with that id. */
  lemma DropNotice(notices: seq<Notice>, id: string)
    ensures var r := Filter(notices, OtherThan(id));
      IsSubsequence(r, notices)
      && (forall i :: 0 <= i < |r| ==> r[i].id != id)
      && (forall i :: 0 <= i < |notices| && notices[i].id != id ==> notices[i] in r)
  {
    FilterIsSubsequence(notices, OtherThan(id));
  }

  class NoticeEditor {
    var title: string
    var content: string
    var file: Option<Upload.FormFile>
    var notices: seq<Notice>
    var message: string
    var messageIsError: bool
    /** The selection the editor last set in the content box. */
    var selStart: int
    var selEnd: int

    constructor ()
      ensures title == "" && content == "" && file.None? && notices == []
      ensures message == "" && !messageIsError
    {
      title, content, file, notices := "", "", None, [];
      message, messageIsError := "", false;
      selStart, selEnd := 0, 0;
    }

    method ShowMessage(text: string, isError: bool)
      modifies this`message, this`messageIsError
      ensures message == text && messageIsError == isError
    {
      message, messageIsError := text, isError;
    }

    /** The timer set by a message has run out. */
    method MessageTimeout()
      modifies this`message
      ensures message == ""
    {
      message := "";
    }

    /** `fetchNotices`: an ok answer with a JSON body replaces the list;
        anything else (a refusal, a body that is not JSON, an exception) keeps
        the list and reports an error. */
    method FetchNotices(answer: NoticeView.FetchResult)
      modifies this`notices, this`message, this`messageIsError
      ensures NoticeView.LoadedOk(answer) ==> (notices == NoticeView.Received(answer)
        && message == old(message) && messageIsError == old(messageIsError))
      ensures !NoticeView.LoadedOk(answer) ==> (notices == old(notices)
        && message == "Failed to load notices" && messageIsError)
      ensures NoticeView.BodyThrows(answer) ==> (notices == old(notices)
        && message == "Failed to load notices" && messageIsError)
    {
      if NoticeView.LoadedOk(answer) {
        notices := NoticeView.Received(answer);
      } else {
        ShowMessage("Failed to load notices", true);
      }
    }

    /** A toolbar button on the selection `start..end` of the content box. */
    method ApplyFormat(format: string, start: nat, end: nat)
      requires start <= end <= |content|
      modifies this`content, this`selStart, this`selEnd
      ensures FormatText(old(content), start, end, format).None? ==>
        (content == old(content) && selStart == old(selStart) && selEnd == old(selEnd))
      ensures FormatText(old(content), start, end, format).Some? ==>
        (var e := FormatText(old(content), start, end, format).value;
         content == e.text && selStart == e.selStart && selEnd == e.selEnd)
    {
      var r := FormatText(content, start, end, format);
      if r.Some? {
        content, selStart, selEnd := r.value.text, r.value.selStart, r.value.selEnd;
      }
    }

    /** `handleSubmit`. `upload` is what came of the upload request, used only
        when a file is chosen, `create` what came of the create request, and
        `refreshed` the answer to the list request that follows a creation.
        Returns the file sent for upload and the payload sent to create. */
    method Submit(upload: UploadOutcome, create: CreateOutcome, refreshed: NoticeView.FetchResult)
      returns (uploadSent: Option<Upload.FormFile>, sent: Option<NoticesApi.NoticeBody>)
      modifies this`title, this`content, this`file, this`notices, this`message, this`messageIsError
      ensures var valid := Trim(old(title)) != "" && Trim(old(content)) != "";
        (!valid ==> (uploadSent.None? && sent.None?
           && message == "Please fill in all required fields" && messageIsError))
        && (valid ==> uploadSent == old(file))
        && (sent.Some? <==> valid && (old(file).None? || upload.Uploaded?))
      ensures sent.Some? ==>
        sent.value == Payload(old(title), old(content), if old(file).Some? then Some(upload.data) else None)
      ensures (Trim(old(title)) != "" && Trim(old(content)) != "" && old(file).Some? && !upload.Uploaded?) ==>
        (message == "Error: " + UploadError(upload) && messageIsError)
      ensures (sent.Some? && !create.Created?) ==>
        (message == "Error: " + CreateError(create) && messageIsError)
      ensures (sent.Some? && create.Created?) ==>
        (title == "" && content == "" && file.None?
         && (NoticeView.LoadedOk(refreshed) ==> (notices == NoticeView.Received(refreshed)
               && message == "Notice created successfully!" && !messageIsError))
         && (!NoticeView.LoadedOk(refreshed) ==> (notices == old(notices)
               && message == "Failed to load notices" && messageIsError)))
      ensures !(sent.Some? && create.Created?) ==>
        (title == old(title) && content == old(content) && file == old(file) && notices == old(notices))
    {
      uploadSent, sent := None, None;
      if Trim(title) == "" || Trim(content) == "" {
        ShowMessage("Please fill in all required fields", true);
        return;
      }
      message := "";
      var uploadData: Option<FileUploadResponse> := None;
      if file.Some? {
        uploadSent := file;
        if !upload.Uploaded? {
          ShowMessage("Error: " + UploadError(upload), true);
          return;
        }
        uploadData := Some(upload.data);
      }
      sent := Some(Payload(title, content, uploadData));
      if !create.Created? {
        ShowMessage("Error: " + CreateError(create), true);
        return;
      }
      ShowMessage("Notice created successfully!", false);
      title, content, file := "", "", None;
      FetchNotices(refreshed);
    }

    /** `deleteNotice`. `confirmed` is the answer to the confirmation dialog,
        `first` the answer at `/api/notices/<id>`, `second` the answer at
        `/api/notices?id=<id>`, asked only when the first is 404 or 405, and
        `refreshed` the answer to the list request made after a failure.
        Returns whether the second request was made. */
    method DeleteNotice(id: string, confirmed: bool, first: DeleteAnswer, second: DeleteAnswer,
                        refreshed: NoticeView.FetchResult)
      returns (secondSent: bool)
      modifies this`notices, this`message, this`messageIsError
      ensures secondSent <==> confirmed && first.DeleteAnswered? && first.status in {404, 405}
      ensures !confirmed ==>
        (notices == old(notices) && message == old(message) && messageIsError == old(messageIsError))
      ensures var answer := if secondSent then second else first;
        (confirmed && DeleteOk(answer) ==>
           (notices == Filter(old(notices), OtherThan(id)) && message == "Notice deleted" && !messageIsError))
        && (confirmed && !DeleteOk(answer) && NoticeView.LoadedOk(refreshed) ==>
           (notices == NoticeView.Received(refreshed)
            && message == "Delete failed: " + DeleteError(answer) && messageIsError))
        && (confirmed && !DeleteOk(answer) && !NoticeView.LoadedOk(refreshed) ==>
           (notices == old(notices) && message == "Failed to load notices" && messageIsError))
    {
      secondSent := false;
      if !confirmed {
        return;
      }
      var answer := first;
      if first.DeleteAnswered? && (first.status == 404 || first.status == 405) {
        secondSent := true;
        answer := second;
      }
      if DeleteOk(answer) {
        notices := Filter(notices, OtherThan(id));
        ShowMessage("Notice deleted", false);
      } else {
        ShowMessage("Delete failed: " + DeleteError(answer), true);
        FetchNotices(refreshed);
      }
    }
  }
}
