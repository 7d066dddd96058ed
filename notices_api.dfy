/** The notices endpoint: GET lists notices newest first in a requested
    range and reports the total in an `X-Total-Count` header; POST and PUT
    validate and store a notice; DELETE removes a notice and then, best
    effort, its attachment.

    The store's replies are parameters. A reply's body is modelled by what
    the handler puts in it. */
module NoticesApi {
  import opened Wrappers
  import opened Types
  import opened Text
  import Upload

  /** The fields of a POST or PUT body; a field that is absent or not a
      string (a number for `file_size`) is `None`. */
  datatype NoticeBody = NoticeBody(
    id: Option<string>,
    title: Option<string>,
    content: Option<string>,
    fileUrl: Option<string>,
    fileName: Option<string>,
    fileType: Option<string>,
    fileSize: Option<int>)

  /** The row the handler asks the store to write. */
  datatype NoticeRecord = NoticeRecord(
    title: string,
    content: string,
    fileUrl: Option<string>,
    fileName: Option<string>,
    fileType: Option<string>,
    fileSize: Option<int>,
    updatedAt: Option<string>)

  datatype ApiReply =
    | Failure(status: nat, error: string)
    | Listed(notices: seq<Notice>, totalCount: string)
    | Saved(record: NoticeRecord, message: string)
    | Removed(message: string)

  // ---------------------------------------------------------------------------
  // GET

  /** `parseInt(param || fallback)`. The fallbacks the handler writes are
      decimal literals, which read as their own value (`FallbacksParse`), so
      the fallback is taken here as that value. */
  function IntParam(param: Option<string>, fallback: nat): Option<int>
  {
    if Truthy(param) then ParseInt(param.value) else Some(fallback)
  }

  /** The literals `'50'` and `'0'` read as 50 and 0. */
  lemma FallbacksParse()
    ensures ParseInt("50") == Some(50) && ParseInt("0") == Some(0)
  {
    ParseIntNatToString(50);
    ParseIntNatToString(0);
    assert NatToString(50) == "50" && NatToString(0) == "0";
  }

  const DefaultLimit: nat := 50

  /** The inclusive row range passed to the store: from `offset` to
      `offset + limit - 1`, with 50 and 0 as defaults; `None` when either
      parameter is not a number (NaN). */
  function RequestedRange(limitParam: Option<string>, offsetParam: Option<string>): Option<(int, int)>
  {
    var limit := IntParam(limitParam, DefaultLimit);
    var offset := IntParam(offsetParam, 0);
    if limit.Some? && offset.Some? then Some((offset.value, offset.value + limit.value - 1)) else None
  }

  /** Without parameters (or with empty ones) the first 50 rows are requested. */
  lemma DefaultRange(limitParam: Option<string>, offsetParam: Option<string>)
    requires !Truthy(limitParam) && !Truthy(offsetParam)
    ensures RequestedRange(limitParam, offsetParam) == Some((0, 49))
  {
  }

  /** Non-empty parameters that read as numbers give the rows from the
      offset up to, and not including, offset plus limit. */
  lemma NumericRange(limitParam: string, offsetParam: string, limit: int, offset: int)
    requires limitParam != "" && ParseInt(limitParam) == Some(limit)
    requires offsetParam != "" && ParseInt(offsetParam) == Some(offset)
    ensures RequestedRange(Some(limitParam), Some(offsetParam)) == Some((offset, offset + limit - 1))
  {
    IntParamReads(limitParam, DefaultLimit, limit);
    IntParamReads(offsetParam, 0, offset);
    RangeOfValues(Some(limitParam), Some(offsetParam), limit, offset);
  }

  /** The range depends only on the two values read. */
  lemma RangeOfValues(limitParam: Option<string>, offsetParam: Option<string>, limit: int, offset: int)
    requires IntParam(limitParam, DefaultLimit) == Some(limit) && IntParam(offsetParam, 0) == Some(offset)
    ensures RequestedRange(limitParam, offsetParam) == Some((offset, offset + limit - 1))
  {
  }

  /** A non-empty parameter is read with `parseInt`, and the fallback is not used. */
  lemma IntParamReads(param: string, fallback: nat, value: int)
    requires param != "" && ParseInt(param) == Some(value)
    ensures IntParam(Some(param), fallback) == Some(value)
  {
    assert Truthy(Some(param));
  }

  /** A client that writes the limit and the offset as decimal numbers gets
      exactly `limit` rows starting at `offset`. */
  lemma WrittenRange(limit: nat, offset: nat)
    ensures RequestedRange(Some(NatToString(limit)), Some(NatToString(offset)))
      == Some((offset, offset + limit - 1))
  {
    ParseIntNatToString(limit);
    ParseIntNatToString(offset);
    NumericRange(NatToString(limit), NatToString(offset), limit, offset);
  }

  /** A non-numeric limit makes the range NaN, which the store refuses. */
  lemma NonNumericLimit(limitParam: Option<string>, offsetParam: Option<string>)
    requires Truthy(limitParam) && ParseInt(limitParam.value).None?
    ensures RequestedRange(limitParam, offsetParam).None?
  {
  }

  /** A hexadecimal limit is read in base 16: `limit=0x10` asks for rows 0
      to 15, and `limit=0xZ` is NaN. */
  lemma HexLimit()
    ensures RequestedRange(Some("0x10"), None) == Some((0, 15))
    ensures RequestedRange(Some("0xZ"), None).None?
  {
    HexSixteen();
    HexWithoutDigits();
    assert Truthy(Some("0x10")) && Truthy(Some("0xZ"));
  }

  /** `count?.toString() || '0'`. */
  function TotalCountHeader(count: Option<nat>): (h: string)
    ensures AllDigits(h) && h != ""
  {
    if count.Some? then NatToString(count.value) else "0"
  }

  /** The header reads back as the count, 0 when the store gave none. */
  lemma TotalCountRoundTrip(count: Option<nat>)
    ensures ParseInt(TotalCountHeader(count)) == Some(count.GetOr(0))
  {
    ParseIntNatToString(count.GetOr(0));
  }

  /** The store's answer to the list query. */
  datatype ListResult = ListError(message: string) | ListRows(data: Option<seq<Notice>>, count: Option<nat>)

  function Get(result: ListResult): (r: ApiReply)
    ensures result.ListError? <==> r.Failure?
    ensures r.Failure? ==> r.status == 500
    ensures result.ListRows? ==> r.Listed? && r.totalCount == TotalCountHeader(result.count)
    ensures r.Listed? ==> (r.notices == result.data.GetOr([])
      && ParseInt(r.totalCount) == Some(result.count.GetOr(0)))
  {
    match result
    case ListError(message) => Failure(500, "Failed to fetch notices: " + message)
    case ListRows(data, count) =>
      TotalCountRoundTrip(count);
      Listed(data.GetOr([]), TotalCountHeader(count))
  }

  // ---------------------------------------------------------------------------
  // POST and PUT

  const MaxTitleLength := 255

  /** `value || null`. */
  function OrNull(s: Option<string>): (r: Option<string>)
    ensures r.Some? <==> Truthy(s)
    ensures r.Some? ==> r == s
  {
    if Truthy(s) then s else None
  }

  function OrNullNumber(n: Option<int>): (r: Option<int>)
    ensures r.Some? <==> TruthyNumber(n)
    ensures r.Some? ==> r == n
  {
    if TruthyNumber(n) then n else None
  }

  /** The stored row: title and content trimmed, falsy file fields null. */
  function RecordOf(body: NoticeBody, updatedAt: Option<string>): NoticeRecord
    requires body.title.Some? && body.content.Some?
  {
    NoticeRecord(Trim(body.title.value), Trim(body.content.value),
      OrNull(body.fileUrl), OrNull(body.fileName), OrNull(body.fileType),
      OrNullNumber(body.fileSize), updatedAt)
  }

  /** POST. `insertError` is the store's error, if any. */
  function Post(body: NoticeBody, insertError: Option<string>): (r: ApiReply)
    ensures r.Saved? <==> (Truthy(body.title) && Truthy(body.content)
      && Utf16Length(body.title.value) <= MaxTitleLength && insertError.None?)
    ensures r.Saved? ==> r == Saved(RecordOf(body, None), "Notice created successfully")
    ensures r.Failure? ==> r.status == 400 || r.status == 500
    ensures !(Truthy(body.title) && Truthy(body.content)) ==> r == Failure(400, "Title and content are required")
  {
    if !Truthy(body.title) || !Truthy(body.content) then
      Failure(400, "Title and content are required")
    else if Utf16Length(body.title.value) > MaxTitleLength then
      Failure(400, "Title must be 255 characters or less")
    else match insertError
      case Some(message) => Failure(500, "Failed to create notice: " + message)
      case None => Saved(RecordOf(body, None), "Notice created successfully")
  }

  /** The length limit applies to the title before it is trimmed, and a
      title of nothing but spaces passes and is stored empty. */
  lemma PostTitleQuirks(content: string)
    requires content != ""
    ensures var long := seq(255, i => 'a') + " ";
      Trim(long) == seq(255, i => 'a')
      && Post(NoticeBody(None, Some(long), Some(content), None, None, None, None), None)
         == Failure(400, "Title must be 255 characters or less")
    ensures Post(NoticeBody(None, Some("   "), Some(content), None, None, None, None), None).Saved?
    ensures Post(NoticeBody(None, Some("   "), Some(content), None, None, None, None), None).record.title == ""
  {
    var a := seq(255, i => 'a');
    var long := a + " ";
    assert LeadingSpaces(long) == 0 by { assert long[0] == 'a'; }
    assert TrailingSpaces(long) == 1 by {
      assert long[..|long| - 1] == a;
      assert a[|a| - 1] == 'a';
    }
    assert long[..|long| - 1] == a;
    Utf16LengthAscii(long);
    assert AllSpace("   ");
    TrimEmptyIff("   ");
  }

  lemma {:induction false} Utf16LengthAscii(s: string)
    requires forall i :: 0 <= i < |s| ==> s[i] as int < 0x10000
    ensures Utf16Length(s) == |s|
  {
    if s != [] {
      Utf16LengthAscii(s[1..]);
    }
  }

  /** The body checks PUT shares, in its order: the id, then title and content. */
  function PutChecks(body: NoticeBody): (r: Option<ApiReply>)
    ensures r.None? <==> Truthy(body.id) && Truthy(body.title) && Truthy(body.content)
    ensures r.Some? ==> r.value.Failure? && r.value.status == 400
    ensures !Truthy(body.id) ==> r == Some(Failure(400, "Notice ID is required"))
  {
    if !Truthy(body.id) then Some(Failure(400, "Notice ID is required"))
    else if !Truthy(body.title) || !Truthy(body.content) then Some(Failure(400, "Title and content are required"))
    else None
  }

  /** PUT as written: the update goes through a store client named
      `supabase`, which the module never defines, so once the checks pass the
      reference throws and the handler's catch answers 500. */
  function PutAsWritten(body: NoticeBody): (r: ApiReply)
    ensures r.Failure?
  {
    match PutChecks(body)
    case Some(reply) => reply
    case None => Failure(500, "Internal server error while updating notice")
  }

  /** No PUT request, however well formed, updates a notice. */
  lemma PutAsWrittenNeverUpdates(body: NoticeBody)
    ensures !PutAsWritten(body).Saved?
    ensures PutChecks(body).None? ==>
      PutAsWritten(body) == Failure(500, "Internal server error while updating notice")
  {
  }

  /** PUT through the module's own store client, as POST does. `now` is the
      new `updated_at`; `updateError` is the store's error, which includes
      the case of no notice with this id. Unlike POST, PUT does not check the
      title's length. */
  function Put(body: NoticeBody, now: string, updateError: Option<string>): (r: ApiReply)
    ensures r.Saved? <==> PutChecks(body).None? && updateError.None?
    ensures r.Saved? ==> r == Saved(RecordOf(body, Some(now)), "Notice updated successfully")
    ensures PutChecks(body).Some? ==> r == PutChecks(body).value
  {
    match PutChecks(body)
    case Some(reply) => reply
    case None =>
      match updateError
      case Some(message) => Failure(500, "Failed to update notice: " + message)
      case None => Saved(RecordOf(body, Some(now)), "Notice updated successfully")
  }

  /** Corrected, a well-formed PUT that the store accepts stores the trimmed
      fields and stamps the update time. */
  lemma PutUpdates(body: NoticeBody, now: string)
    requires Truthy(body.id) && Truthy(body.title) && Truthy(body.content)
    ensures Put(body, now, None).Saved?
    ensures Put(body, now, None).record.title == Trim(body.title.value)
    ensures Put(body, now, None).record.updatedAt == Some(now)
  {
  }

  // ---------------------------------------------------------------------------
  // DELETE

  /** The store's answer to the lookup of the notice's `file_url`; a lookup
      that finds no row is an error. */
  datatype LookupResult = LookupError(message: string) | LookupRow(fileUrl: Option<string>)

  /** The reply, and the storage key whose removal is then attempted. */
  datatype DeleteOutcome = DeleteOutcome(reply: ApiReply, removes: Option<string>)

  /** The storage key of an attachment: the text after the last `/` of its
      address, under `notices/`; none when the address is empty or ends in `/`. */
  function StorageKey(fileUrl: Option<string>): Option<string>
  {
    if !Truthy(fileUrl) then None
    else
      var name := LastSegment(fileUrl.value, '/');
      if name == "" then None else Some("notices/" + name)
  }

  /** DELETE. The outcome of removing the attachment is not looked at. */
  function Delete(id: Option<string>, lookup: LookupResult, deleteError: Option<string>): (r: DeleteOutcome)
    ensures r.reply.Removed? <==> Truthy(id) && lookup.LookupRow? && deleteError.None?
    ensures r.removes.Some? ==> r.reply.Removed?
    ensures r.reply.Removed? ==> r.removes == StorageKey(lookup.fileUrl)
  {
    if !Truthy(id) then DeleteOutcome(Failure(400, "Notice ID is required"), None)
    else match lookup
      case LookupError(message) => DeleteOutcome(Failure(500, "Failed to fetch notice: " + message), None)
      case LookupRow(fileUrl) =>
        match deleteError
        case Some(message) => DeleteOutcome(Failure(500, "Failed to delete notice: " + message), None)
        case None => DeleteOutcome(Removed("Notice deleted successfully"), StorageKey(fileUrl))
  }

  /** A request without an id is refused whatever the store holds. */
  lemma DeleteWithoutId(id: Option<string>, l1: LookupResult, e1: Option<string>, l2: LookupResult, e2: Option<string>)
    requires !Truthy(id)
    ensures Delete(id, l1, e1) == Delete(id, l2, e2)
    ensures Delete(id, l1, e1) == DeleteOutcome(Failure(400, "Notice ID is required"), None)
  {
  }

  /** Deleting a notice whose attachment came from the upload endpoint
      removes exactly the object the upload stored. */
  lemma DeleteRemovesUploadedFile(bucketUrl: string, uuid: string, name: string)
    requires '/' !in uuid && '/' !in name
    ensures var url := Upload.PublicUrl(bucketUrl, Upload.StoredPath(uuid, name));
      StorageKey(Some(url)) == Some(Upload.StoredPath(uuid, name))
  {
    var stored := Upload.StoredName(uuid, name);
    var url := Upload.PublicUrl(bucketUrl, Upload.StoredPath(uuid, name));
    var ext := LastSegment(name, '.');
    assert '/' !in ext by {
      var parts := Split(name, '.');
      forall j | 0 <= j < |ext| ensures ext[j] != '/' {
        SplitPartChars(name, '.', |parts| - 1, j);
      }
    }
    assert stored == uuid + "." + ext;
    assert '/' !in stored;
    assert url == (bucketUrl + "/notices") + ['/'] + stored;
    LastSegmentOfJoin(bucketUrl + "/notices", '/', stored);
    assert stored != "" by { assert |stored| >= 1 + |uuid|; }
  }
}
