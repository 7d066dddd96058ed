/** Display rules the three notice pages share: the attachment icon, the
    size label, the attachment test, the truncated preview with its
    Read More / Show Less button, the set of expanded notices, and what the
    pages make of an answer from the notices endpoint. */
module NoticeView {
  import opened Wrappers
  import opened Types
  import opened Text
  import Upload
  import NoticesApi

  // ---------------------------------------------------------------------------
  // Attachment icon

  const Paperclip := "\U{1F4CE}"
  const Picture := "\U{1F5BC}\U{FE0F}"
  const Page := "\U{1F4C4}"
  const Memo := "\U{1F4DD}"

  /** `getFileIcon`; the tests run in this order. */
  function FileIcon(fileType: Option<string>): string
  {
    if !Truthy(fileType) then Paperclip
    else
      var t := fileType.value;
      if StartsWith(t, "image/") then Picture
      else if t == "application/pdf" then Page
      else if Contains(t, "word") || Contains(t, "document") then Memo
      else if t == "text/plain" then Page
      else Paperclip
  }

  /** The icon of each category the upload endpoint reports. */
  function CategoryIcon(category: string): string
  {
    match category
    case "image" => Picture
    case "pdf" => Page
    case "document" => Memo
    case "text" => Page
    case _ => Paperclip
  }

  /** The icon agrees with the category the upload endpoint gave the file. */
  lemma IconFollowsCategory(fileType: string)
    requires fileType != ""
    ensures FileIcon(Some(fileType)) == CategoryIcon(Upload.FileCategory(fileType))
  {
  }

  /** Every type the upload endpoint accepts gets an icon of its own, not the
      paperclip kept for unknown types. */
  lemma UploadedFilesHaveIcons(i: nat)
    requires i < |Upload.AllowedTypes|
    ensures FileIcon(Some(Upload.AllowedTypes[i])) != Paperclip
  {
    Upload.AllowedTypesCategorised();
    IconFollowsCategory(Upload.AllowedTypes[i]);
  }

  // ---------------------------------------------------------------------------
  // Size label

  /** What `formatFileSize` shows, before the number is rounded to one
      decimal: nothing, megabytes or kilobytes. */
  datatype SizeLabel = NoSize | Megabytes(mb: real) | Kilobytes(kb: real)

  function FileSizeLabel(bytes: Option<int>): (r: SizeLabel)
    ensures r.NoSize? <==> !TruthyNumber(bytes)
    ensures r.Megabytes? <==> TruthyNumber(bytes) && bytes.value >= 1048576
    ensures r.Megabytes? ==> r.mb >= 1.0 && r.mb * 1048576.0 == bytes.value as real
    ensures r.Kilobytes? ==> r.kb < 1024.0 && r.kb * 1024.0 == bytes.value as real
  {
    if !TruthyNumber(bytes) then NoSize
    else
      var kb := bytes.value as real / 1024.0;
      var mb := kb / 1024.0;
      if mb >= 1.0 then Megabytes(mb) else Kilobytes(kb)
  }

  /** The attachment block is shown only when the notice has both a file
      name and a file address. */
  predicate HasAttachment(n: Notice)
  {
    Truthy(n.fileName) && Truthy(n.fileUrl)
  }

  // ---------------------------------------------------------------------------
  // Preview

  /** The content shown for a notice: its first `limit` characters and
      `...` when it is longer than that and not expanded. */
  function Preview(content: string, limit: nat, expanded: bool): (r: string)
    ensures (expanded || |content| <= limit) ==> r == content
    ensures (!expanded && |content| > limit) ==>
      (|r| == limit + 3 && r[..limit] <= content && r[limit..] == "...")
  {
    if |content| > limit && !expanded then content[..limit] + "..." else content
  }

  /** The toggle under the content. */
  datatype ToggleButton = NoButton | ReadMore | ShowLess

  function Button(content: string, limit: nat, expanded: bool): ToggleButton
  {
    if |content| <= limit then NoButton
    else if expanded then ShowLess
    else ReadMore
  }

  /** Unless Read More is offered the whole content is shown; when it is,
      the first `limit` characters are shown, and a button appears exactly
      when the content is longer than the limit. */
  lemma ButtonMatchesPreview(content: string, limit: nat, expanded: bool)
    ensures Button(content, limit, expanded) != ReadMore ==> Preview(content, limit, expanded) == content
    ensures Button(content, limit, expanded) == ReadMore ==>
      Preview(content, limit, expanded) == content[..limit] + "..."
    ensures Button(content, limit, expanded) != NoButton <==> |content| > limit
  {
  }

  // ---------------------------------------------------------------------------
  // Expanded set

  /** `toggleExpand`: adds the id when absent, removes it when present. */
  function Toggle(expanded: set<string>, id: string): (r: set<string>)
    ensures id in r <==> id !in expanded
    ensures forall x :: x != id ==> (x in r <==> x in expanded)
  {
    if id in expanded then expanded - {id} else expanded + {id}
  }

  /** Toggling twice restores the set. */
  lemma ToggleTwice(expanded: set<string>, id: string)
    ensures Toggle(Toggle(expanded, id), id) == expanded
  {
  }

  // ---------------------------------------------------------------------------
  // Answers from the notices endpoint

  /** A response body as `response.json()` reads it: text that is not JSON
      (the read throws), a JSON array of notices, or some other JSON value. */
  datatype Body = NotJson | NoticeArray(rows: seq<Notice>) | OtherJson

  /** What a page gets back from `fetch('/api/notices?...')`: an exception,
      or a response with its `ok` flag, its body and its `X-Total-Count`
      header. */
  datatype FetchResult =
    | Thrown
    | Answered(ok: bool, body: Body, totalHeader: Option<string>)

  /** The answer came with an ok status and its body read as JSON. */
  predicate LoadedOk(answer: FetchResult)
  {
    answer.Answered? && answer.ok && !answer.body.NotJson?
  }

  /** The answer came with an ok status, but reading its body as JSON
      throws, so the page's catch runs. */
  predicate BodyThrows(answer: FetchResult)
  {
    answer.Answered? && answer.ok && answer.body.NotJson?
  }

  /** The notices a page keeps, `Array.isArray(data) ? data : []`: the array
      of an ok answer, and otherwise none. */
  function Received(answer: FetchResult): (r: seq<Notice>)
    ensures (LoadedOk(answer) && answer.body.NoticeArray?) ==> r == answer.body.rows
    ensures !(LoadedOk(answer) && answer.body.NoticeArray?) ==> r == []
  {
    if LoadedOk(answer) && answer.body.NoticeArray? then answer.body.rows else []
  }

  /** The answer the endpoint's GET handler gives: its list with status 200
      and the count header, or an error status and an error object. */
  function ResponseOf(reply: NoticesApi.ApiReply): FetchResult
    requires reply.Listed? || reply.Failure?
  {
    match reply
    case Listed(notices, totalCount) => Answered(true, NoticeArray(notices), Some(totalCount))
    case Failure(status, error) => Answered(200 <= status < 300, OtherJson, None)
  }

  /** A page shows exactly the rows the store returned, and after a store
      error shows nothing; the endpoint always answers JSON. */
  lemma PagesShowStoreRows(result: NoticesApi.ListResult)
    ensures !BodyThrows(ResponseOf(NoticesApi.Get(result)))
    ensures result.ListRows? ==> Received(ResponseOf(NoticesApi.Get(result))) == result.data.GetOr([])
    ensures result.ListError? ==> Received(ResponseOf(NoticesApi.Get(result))) == []
  {
  }
}
