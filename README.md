# School portal: quiz platform and notice board, modelled in Dafny

The portal is a Next.js site with two parts that share a store.

The **quiz platform**:
- A student picks a category and a quiz type on the solve page and fills in their name, email and mobile number. They then take a timed quiz of multiple-choice questions.
- A short quiz is 20 questions in 30 minutes. A full quiz is 100 questions in 3 hours.
- The attempt is scored and saved. The result screen ranks it among the attempts of the same category and quiz type and shows a grade, a performance band, badges and a per-question review.
- The student dashboard shows the five most recent attempts and four statistics.
- Administrators keep the question bank. Its serial numbers count within each category, and the list can be narrowed by search term, category and difficulty.

The **notice board**:
- The notices endpoint lists notices newest first, by page, with a total-count header. It also creates, updates and deletes notices.
- The upload endpoint stores an attachment of at most 10 MiB and one of seven allowed types, under a fresh name that keeps the file's extension.
- The administrators' editor wraps the selected text in HTML tags, uploads an optional attachment and creates the notice.
- The public board shows ten notices a page, with search, Read More and pagination. The home page shows the three newest notices.

One Dafny module stands for each core file:

| module | file |
|---|---|
| `Types` | `types/index.ts` |
| `QuestionPool` | `app/api/questions/route.ts` |
| `Upload` | `app/api/upload/route.ts` |
| `NoticesApi` | `app/api/notices/route.ts` |
| `Quiz` | `components/Quiz.tsx` |
| `QuizResult` | `components/QuizResult.tsx` |
| `StudentSolve` | `app/student/solve/page.tsx` |
| `StudentDashboard` | `app/student/page.tsx` |
| `AdminQuestions` | `app/admin/questions/page.tsx` |
| `AdminNotices` | `app/admin/notices/page.tsx` |
| `NoticeBoard` | `app/notices/page.tsx` |
| `Home` | the notices section of `app/page.tsx` |

Three further modules are shared:
- `NoticeView` holds the display rules the three notice pages repeat: the file icon, the size label, the preview, the toggle set and the reading of an endpoint answer.
- `Text` and `Seqs` model the JavaScript string and array operations the code relies on: `toLowerCase`, `trim`, `includes`, `split`, `parseInt`, `filter`, `slice` and padding.
- `Wrappers` holds `Option`.

How the model is built:
- The React components that keep state (`Quiz`, `QuizResult`'s view, the solve page, the question bank, the notice editor, the board and the home section) are classes. Their fields are the `useState` variables, and each handler is a method that changes only what it names.
- The endpoints are functions from the request and the store's replies to their answer.
- The store, `fetch`, the clock, `randomUUID` and `Math.random` do not appear inside the model. Their outcomes are parameters of the operations that use them.
- Scores and percentages are exact reals. `Math.round`, `Math.ceil`, `Math.floor` and JavaScript's `%` are written out.

## Model

| member | source | states |
|---|---|---|
| Types.ParseCategoryType | types/index.ts:5 | a string read as a category type is the tag that type writes |
| Types.ParseDifficulty | types/index.ts:20 | a string read as a difficulty is that difficulty's tag |
| Types.ParseQuizType | types/index.ts:30 | a string read as a quiz type is that type's tag |
| Types.ParseLetter | types/index.ts:18 | a string read as an option letter is that letter's tag |
| Types.TagsRoundTrip | types/index.ts:5-30 | every enumeration's tag reads back as the value that wrote it, so the tags are distinct |
| QuestionPool.Cap | app/api/questions/route.ts:32-36 | a cap exists exactly for `short` (20) and `full` (100); any other value serves everything |
| QuestionPool.GetQuestions | app/api/questions/route.ts:16-39 | a store error is exactly the 500 answer; otherwise the served questions all match the category and each appear no more often than in the selection; their number is the cap or the selection's size, whichever is smaller; uncapped, they are a permutation of the selection |
| Upload.Post | app/api/upload/route.ts:29-97 | accepted exactly when a file is present, at most 10 MiB, of an allowed type, and stored without error; a 500 comes exactly from a storage error after the checks pass; the answer carries the public address of `notices/<uuid>.<ext>`, the original name, the stored name, the type, the size and the category |
| Upload.RejectionReasons | app/api/upload/route.ts:34-80 | the error reported is the first failing check: missing file, then size (even when the type is also wrong), then type, then storage |
| Upload.SizeBoundary | app/api/upload/route.ts:42-47 | the size limit is inclusive: 10485760 bytes pass and 10485761 do not |
| Upload.StoredNameKeepsExtension | app/api/upload/route.ts:58-59 | the stored name's extension is the original file's extension |
| Upload.StoredName | app/api/upload/route.ts:58-59 | the UUID, a dot and the extension; StoredNameKeepsExtension and StoredNameWithoutDot state its meaning |
| Upload.StoredNameWithoutDot | app/api/upload/route.ts:58-59 | a name without a dot becomes its own extension: `<uuid>.<name>` |
| Upload.WordTypesAreDocuments | app/api/upload/route.ts:111 | both Word types are categorised as documents through the `word` test |
| Upload.PdfAndText | app/api/upload/route.ts:110-112 | PDF is `pdf` and plain text is `text`, which the word/document test does not catch first |
| Upload.Images | app/api/upload/route.ts:109 | the three image types are `image` |
| Upload.AllowedTypesCategorised | app/api/upload/route.ts:108-114 | no allowed type falls through to `other` |
| Upload.FileCategory | app/api/upload/route.ts:108-114 | the file category; WordTypesAreDocuments, PdfAndText, Images and AllowedTypesCategorised state its meaning |
| NoticesApi.FallbacksParse | app/api/notices/route.ts:21-22 | the fallback literals `'50'` and `'0'` read as 50 and 0 |
| NoticesApi.RequestedRange | app/api/notices/route.ts:21-28 | the range passed to `.range`; its meaning is stated by DefaultRange, NumericRange, WrittenRange, HexLimit and NonNumericLimit |
| NoticesApi.DefaultRange | app/api/notices/route.ts:21-28 | without a limit or an offset, rows 0 to 49 are requested |
| NoticesApi.NumericRange | app/api/notices/route.ts:21-28 | parameters that `parseInt` reads as numbers, in decimal or with a `0x` prefix, request the rows from the offset to offset + limit - 1 |
| NoticesApi.WrittenRange | app/api/notices/route.ts:21-28 | a limit and an offset written in decimal request exactly `limit` rows from `offset` |
| NoticesApi.NonNumericLimit | app/api/notices/route.ts:21-28 | a limit that `parseInt` reads as NaN, such as `abc` or `0xZ`, makes the range NaN |
| NoticesApi.HexLimit | app/api/notices/route.ts:21-28 | `limit=0x10` is read in base 16 and requests rows 0 to 15; `limit=0xZ` is NaN |
| NoticesApi.TotalCountHeader | app/api/notices/route.ts:40 | the header is a non-empty string of digits |
| NoticesApi.TotalCountRoundTrip | app/api/notices/route.ts:40 | the header reads back as the store's count, or 0 without one |
| NoticesApi.Get | app/api/notices/route.ts:18-42 | a store error is exactly a 500; the store's rows are always listed, as they came or as `[]`, with the `X-Total-Count` header, which reads back as the count |
| NoticesApi.OrNull | app/api/notices/route.ts:77-79 | a field is kept exactly when it is truthy, and is then unchanged |
| NoticesApi.OrNullNumber | app/api/notices/route.ts:80 | the size is kept exactly when it is a non-zero number |
| NoticesApi.Post | app/api/notices/route.ts:53-101 | saved exactly when title and content are truthy, the title is at most 255 UTF-16 units and the insert succeeds; the stored row is trimmed, with falsy file fields null; a missing field is the 400 |
| NoticesApi.PostTitleQuirks | app/api/notices/route.ts:66-75 | the length check comes before trimming: 255 letters and a space are refused though they trim to 255; a title of spaces passes and is stored empty |
| NoticesApi.Utf16LengthAscii | app/api/notices/route.ts:66 | for text inside the Basic Multilingual Plane, `length` is the number of characters |
| NoticesApi.PutAsWritten | app/api/notices/route.ts:112-169 | as written, PUT always fails: the checks' 400s, and otherwise the catch's 500 |
| NoticesApi.PutAsWrittenNeverUpdates | app/api/notices/route.ts:141 | no request, however well formed, is saved; one that passes the checks gets the 500 |
| NoticesApi.Put | app/api/notices/route.ts:112-160 | corrected: saved exactly when the id, title and content are truthy and the update succeeds; the row is trimmed and stamped; a failing check gives its 400 |
| NoticesApi.PutUpdates | app/api/notices/route.ts:131-139 | a well-formed update stores the trimmed title and the new update time |
| NoticesApi.Delete | app/api/notices/route.ts:171-230 | removed exactly with an id, a found notice and a delete without error; an attachment's removal is attempted only after a removal, and for the attachment's storage key |
| NoticesApi.DeleteWithoutId | app/api/notices/route.ts:176-181 | without an id the answer is the 400, whatever the store holds |
| NoticesApi.DeleteRemovesUploadedFile | app/api/notices/route.ts:213-219 | deleting a notice whose address came from the upload endpoint removes exactly the object the upload stored |
| NoticesApi.StorageKey | app/api/notices/route.ts:213-219 | `notices/` and the address's last path segment; DeleteRemovesUploadedFile states that it is the uploaded object |
| NoticesApi.RecordOf | app/api/notices/route.ts:74-81 | title and content trimmed and falsy file fields null (OrNull, OrNullNumber); Post and PutUpdates state what is stored |
| NoticesApi.PutChecks | app/api/notices/route.ts:116-129 | no refusal exactly when id, title and content are truthy; each refusal is a 400, the id checked first |
| NoticesApi.IntParam | app/api/notices/route.ts:21-22 | `parseInt` of the parameter, or of the fallback when it is empty; IntParamReads and FallbacksParse state its meaning |
| NoticeView.IconFollowsCategory | app/notices/page.tsx:74-82 | the pages' file icon agrees with the category the upload endpoint assigns |
| NoticeView.FileIcon | app/notices/page.tsx:74-82 | the attachment icon; IconFollowsCategory and UploadedFilesHaveIcons state its meaning |
| NoticeView.UploadedFilesHaveIcons | app/notices/page.tsx:74-82 | every type the upload endpoint accepts gets an icon other than the paperclip |
| NoticeView.FileSizeLabel | app/notices/page.tsx:84-91 | no label for a missing or zero size; megabytes exactly from 1 MiB, kilobytes below, each equal to the size in its unit |
| NoticeView.Preview | app/notices/page.tsx:202-216 | expanded or short contents are shown whole; otherwise the first `limit` characters and `...` |
| NoticeView.ButtonMatchesPreview | app/notices/page.tsx:202-224 | Read More is offered exactly when the content is cut; a button appears exactly when the content is longer than the limit |
| NoticeView.Toggle | app/notices/page.tsx:57-65 | the id's membership flips and every other id's stays |
| NoticeView.ToggleTwice | app/notices/page.tsx:57-65 | toggling twice restores the set |
| NoticeView.Received | app/notices/page.tsx:33-43 | the page keeps the array of an ok answer and nothing otherwise |
| NoticeView.PagesShowStoreRows | app/notices/page.tsx:33-37 | a page shows exactly the rows the store returned, and nothing after a store error; the endpoint's body always reads as JSON |
| NoticeBoard.Offset | app/notices/page.tsx:20 | the offset of a page is a non-negative multiple of ten, ten before the page's end |
| NoticeBoard.QueryRange | app/notices/page.tsx:20-23 | the board asks the endpoint for exactly the ten rows of its page |
| NoticeBoard.TotalPages | app/notices/page.tsx:98 | the page count is the least number of ten-row pages that holds the total, and NaN exactly for an unreadable total |
| NoticeBoard.PageButtons | app/notices/page.tsx:285-286 | there are as many numbered buttons as pages, at most five |
| NoticeBoard.PagesStayInRange | app/notices/page.tsx:277-305 | Previous, Next and every numbered button lead to a page between 1 and the page count |
| NoticeBoard.PagingEnds | app/notices/page.tsx:277-306 | Previous stops at the first page and Next at the last |
| NoticeBoard.ShowingMatchesQuery | app/notices/page.tsx:319 | the "Showing" line starts right after the requested offset; it ends at the requested range's end on a full page and at the total on the last page |
| NoticeBoard.Showing | app/notices/page.tsx:319 | the two numbers of the "Showing" line; ShowingMatchesQuery and ShowingWithoutTotal state their meaning |
| NoticeBoard.ShowingWithoutTotal | app/notices/page.tsx:319 | with a NaN total the line still starts after the offset and ends at NaN |
| NoticeBoard.SearchSpec | app/notices/page.tsx:93-96 | search keeps exactly the notices whose title or content contains the term, ignoring case, in their order |
| NoticeBoard.Search | app/notices/page.tsx:93-96 | the search filter; SearchSpec and EmptySearch state its meaning |
| NoticeBoard.EmptySearch | app/notices/page.tsx:93-96 | an empty search keeps every notice |
| NoticeBoard.NewForTenDays | app/notices/page.tsx:67-72 | a notice is new until exactly ten days after its creation, and a later notice is new whenever an earlier one is |
| NoticeBoard.IsNew | app/notices/page.tsx:67-72 | the `NEW` test; NewForTenDays states its meaning |
| NoticeBoard.HeaderGivesCount | app/notices/page.tsx:35-38 | the total the board keeps is the store's count, carried through the endpoint's header |
| NoticeBoard.TotalFromHeader | app/notices/page.tsx:35-38 | `total ? parseInt(total) : 0`; HeaderGivesCount states that it recovers the store's count |
| NoticeBoard.Board.constructor | app/notices/page.tsx:8-14 | page 1, loading, with no notices, no error, no search and a total of 0 |
| NoticeBoard.Board.FetchNotices | app/notices/page.tsx:17-51 | an ok answer with a JSON body sets the notices and the header's total and clears the error; a refused answer empties the list with "Failed to load notices"; an exception, and an ok answer whose body is not JSON, empty it with "Error loading notices"; both keep the total; loading ends |
| NoticeBoard.Board.ShowingLine | app/notices/page.tsx:316-319 | the line is shown exactly when the list is shown and the page holds notices, even when the total is NaN |
| NoticeBoard.Board.SetSearch | app/notices/page.tsx:130 | the search box sets the term |
| NoticeBoard.Board.ToggleExpand | app/notices/page.tsx:57-65 | the notice's expanded state flips |
| NoticeBoard.Board.Previous | app/notices/page.tsx:277 | the page goes back one, not below 1 |
| NoticeBoard.Board.Next | app/notices/page.tsx:305 | the page goes forward one, not beyond the page count |
| NoticeBoard.Board.GoToPage | app/notices/page.tsx:291 | a numbered button goes to its own page |
| Home.HomeQuery | app/page.tsx:35 | the box asks the endpoint for the three newest notices |
| Home.NoticesSection.constructor | app/page.tsx:26-28 | loading, with no notices and none expanded |
| Home.NoticesSection.FetchNotices | app/page.tsx:31-56 | the box keeps an ok answer's array and is empty after a refusal, a non-array body, a body that is not JSON or an exception; loading ends |
| Home.NoticesSection.Rendered | app/page.tsx:114 | the box shows the first three notices, and all of them when there are at most three |
| Home.NoticesSection.ToggleExpand | app/page.tsx:61-69 | the notice's expanded state flips |
| Home.ShowLessOnlyWhenLong | app/page.tsx:132-154 | Show Less appears only for a content longer than 100 expanded in full; a short content has no button |
| AdminNotices.ParseFormat | app/admin/notices/page.tsx:81-140 | exactly the toolbar's five names are read as formats, each as its own: `bold`, `italic`, `underline`, `list-ul` as the bullet list and `list-ol` as the numbered list |
| AdminNotices.KeepsAroundConcat | app/admin/notices/page.tsx:84 | inserting text in place of the selection keeps what is before and after it |
| AdminNotices.FormatTextAsWritten | app/admin/notices/page.tsx:69-141 | as written: an unknown format changes nothing; any other keeps the text around the selection |
| AdminNotices.FormatText | app/admin/notices/page.tsx:69-141 | corrected: as written, and the new selection lies within the new content |
| AdminNotices.FormatKeepsAround | app/admin/notices/page.tsx:81-138 | every format keeps the text before and after the selection |
| AdminNotices.InlineSelection | app/admin/notices/page.tsx:82-114 | bold, italic and underline select exactly the old selection, right between the opening and closing tags |
| AdminNotices.ListSelection | app/admin/notices/page.tsx:115-138 | corrected lists: every line becomes an item, and the selection is exactly the items, between the list's tags |
| AdminNotices.SingleLineList | app/admin/notices/page.tsx:117 | a selection without a line break becomes one item |
| AdminNotices.EmptyListCaret | app/admin/notices/page.tsx:122-136 | a list with nothing selected inserts one empty item and puts the caret inside it |
| AdminNotices.UnknownFormat | app/admin/notices/page.tsx:139-140 | a format outside the toolbar's five changes nothing |
| AdminNotices.ListSelectionAsWritten | app/admin/notices/page.tsx:119-120 | as written, a bullet list over `a` selects `<li>a</li></ul>` instead of `<li>a</li>` |
| AdminNotices.ListSelectionAsWrittenEnd | app/admin/notices/page.tsx:120-132 | as written, every list selection ends just past the closing tag, five characters later than the items' end |
| AdminNotices.FailureTextAsWrittenShowsJson | app/admin/notices/page.tsx:178-184 | as written, an upload refused for its size is reported as the raw JSON text, not the endpoint's message |
| AdminNotices.FailureTextShowsError | app/admin/notices/page.tsx:178-210 | corrected: the parsed `error` is shown, a non-JSON body is shown as it is, and a missing field falls back |
| AdminNotices.FailureTextAsWritten | app/admin/notices/page.tsx:178-184 | the error text as written; FailureTextAsWrittenShowsJson states that it shows the raw body |
| AdminNotices.FailureText | app/admin/notices/page.tsx:178-210 | corrected: the error text; FailureTextShowsError states its meaning |
| AdminNotices.PayloadWithoutUpload | app/admin/notices/page.tsx:189-196 | without an attachment the payload's `''` and `0` are stored as no attachment |
| AdminNotices.Payload | app/admin/notices/page.tsx:189-196 | the body posted: trimmed text and the upload's fields or `''` and `0`; PayloadWithoutUpload and PayloadStoresUpload state its meaning |
| AdminNotices.PayloadStoresUpload | app/admin/notices/page.tsx:173-196 | with an attachment, the stored notice has the uploaded address and type, and deleting it removes exactly the uploaded object |
| AdminNotices.UploadRefusalMessage | app/admin/notices/page.tsx:178-184 | corrected: the upload endpoint's refusals are reported with its own message; as written the raw JSON is shown (see Findings) |
| AdminNotices.DeleteOkIffRemoved | app/admin/notices/page.tsx:237 | the page takes a delete to have worked exactly when the endpoint removed the notice |
| AdminNotices.DropNotice | app/admin/notices/page.tsx:239 | dropping a notice keeps every other notice, in order, and none with that id |
| AdminNotices.NoticeEditor.constructor | app/admin/notices/page.tsx:17-23 | empty form, no file, no notices, no message |
| AdminNotices.NoticeEditor.ShowMessage | app/admin/notices/page.tsx:46-49 | the message and its kind are set |
| AdminNotices.NoticeEditor.MessageTimeout | app/admin/notices/page.tsx:49 | the message is cleared when its timer runs out |
| AdminNotices.NoticeEditor.FetchNotices | app/admin/notices/page.tsx:30-44 | an ok answer with a JSON body replaces the list; a refusal, a body that is not JSON and an exception keep it and show "Failed to load notices" |
| AdminNotices.NoticeEditor.ApplyFormat | app/admin/notices/page.tsx:69-153 | the content and the selection become the formatted edit's; an unknown format changes neither |
| AdminNotices.NoticeEditor.Submit | app/admin/notices/page.tsx:161-227 | blank fields send nothing and ask for them; the chosen file is uploaded; the notice is sent exactly when the fields are filled and any upload succeeded; each failure shows its message and keeps the form; success clears the form and reloads the list |
| AdminNotices.NoticeEditor.DeleteNotice | app/admin/notices/page.tsx:230-247 | nothing happens unless confirmed; the second address is tried exactly after a 404 or 405; success drops the notice; failure shows the reason and reloads the list |
| AdminQuestions.ComputeSerials | app/admin/questions/page.tsx:62-80 | the second pass's map, and per-category counts of the first pass, one per category present |
| AdminQuestions.CountNoneOutside | app/admin/questions/page.tsx:66-69 | a category no question has counts none |
| AdminQuestions.LastAdded | app/admin/questions/page.tsx:72-78 | appending a question adds its id and its category to the list's sets |
| AdminQuestions.SerialsKeys | app/admin/questions/page.tsx:72-78 | the map is keyed only by question ids and category ids |
| AdminQuestions.FreshLast | app/admin/questions/page.tsx:72-78 | with distinct ids, the ones before the last question are distinct too, and the last question's id is neither an earlier id nor an earlier category, nor is its category an earlier id |
| AdminQuestions.LastStep | app/admin/questions/page.tsx:74-77 | with distinct ids, the last question gets its category's count plus one, which becomes the category's counter |
| AdminQuestions.CounterFacts | app/admin/questions/page.tsx:72-78 | with distinct ids, each category's counter is the number of its questions |
| AdminQuestions.CounterStep | app/admin/questions/page.tsx:72-78 | the step keeps every other category's counter equal to its count |
| AdminQuestions.SerialsSpec | app/admin/questions/page.tsx:72-78 | with distinct ids, each question's serial is its position within its category, counting in list order |
| AdminQuestions.Serials | app/admin/questions/page.tsx:72-78 | the serial map of the second pass; SerialsSpec and SerialsKeys state its meaning |
| AdminQuestions.SerialShown | app/admin/questions/page.tsx:255 | the serial, or the dash when there is none; SerialShownForListed states its meaning |
| AdminQuestions.SerialShownForListed | app/admin/questions/page.tsx:255 | a listed question shows its position within its category, at least 1; an id that is neither a question nor a category shows the dash |
| AdminQuestions.FilteredSpec | app/admin/questions/page.tsx:97-103 | the list keeps exactly the questions that pass all three filters, in order |
| AdminQuestions.Filtered | app/admin/questions/page.tsx:97-103 | the filtered list; FilteredSpec and NoFilters state its meaning |
| AdminQuestions.NoFilters | app/admin/questions/page.tsx:97-103 | with no filter set, the whole bank is listed |
| AdminQuestions.DifficultyCount | app/admin/questions/page.tsx:145-171 | a difficulty's count is at most the bank's size |
| AdminQuestions.DifficultyCountsSum | app/admin/questions/page.tsx:145-171 | the three counts add up to the bank's size |
| AdminQuestions.QuestionBank.constructor | app/admin/questions/page.tsx:16-24 | empty bank, no filters, loading, no serials |
| AdminQuestions.QuestionBank.RenumberQuestions | app/admin/questions/page.tsx:60-82 | a non-empty list gets the serial map; an empty list keeps the old numbers |
| AdminQuestions.QuestionBank.Load | app/admin/questions/page.tsx:26-57 | the store's rows (or none) become the lists, loading ends, and the serials follow |
| AdminQuestions.QuestionBank.DeleteQuestion | app/admin/questions/page.tsx:84-95 | a confirmed, successful delete reloads the list and renumbers; otherwise nothing changes |
| AdminQuestions.QuestionBank.ShowingCounts | app/admin/questions/page.tsx:230 | "Showing n of m": n is at most m, and m is the bank's size |
| Quiz.Duration | components/Quiz.tsx:22 | the clock starts at 10800 seconds (three hours) for a full quiz and 1800 (thirty minutes) for a short one |
| Quiz.PercentBounds | components/Quiz.tsx:55-56 | a quiz with questions scores between 0 and 100: 100 exactly when all answers are correct and 0 exactly when none is; NaN exactly without questions |
| Quiz.Percent | components/Quiz.tsx:55-56 | `correct / total * 100`, NaN without questions; PercentBounds and PercentMonotone state its meaning |
| Quiz.PercentMonotone | components/Quiz.tsx:55-56 | more correct answers never score lower |
| Quiz.CountCorrect | components/Quiz.tsx:45-52 | the loop counts the questions whose chosen letter is the correct one |
| Quiz.TickStep | components/Quiz.tsx:97-108 | no timer runs at zero; the tick that finds one second left submits; any other counts down by one |
| Quiz.Countdown | components/Quiz.tsx:97-111 | left alone, the clock loses one second per tick and submits exactly once, by the tick that ends the time |
| Quiz.ClockRoundTrip | components/Quiz.tsx:136-141 | below 100 hours the clock shows `HH:MM:SS`, which reads back as the seconds left |
| Quiz.FormatClock | components/Quiz.tsx:136-141 | `HH:MM:SS`; ClockRoundTrip states that it reads back as the seconds |
| Quiz.IdsOfSize | components/Quiz.tsx:143-145 | there are no more distinct question ids than questions |
| Quiz.IdsOfContains | components/Quiz.tsx:116 | every loaded question's id is among the ids |
| Quiz.SubsetSize | components/Quiz.tsx:143-149 | the answered ids are no more than the question ids |
| Quiz.QuizSession.constructor | components/Quiz.tsx:18-28 | no questions or answers, loading, with the clock at the quiz type's duration |
| Quiz.QuizSession.CurrentScreen | components/Quiz.tsx:151-189 | loading first, then the result, then the no-questions screen, then the question screen, which always has a question under the cursor |
| Quiz.QuizSession.QuestionsLoaded | components/Quiz.tsx:29-41 | an ok answer's questions are kept; loading ends either way |
| Quiz.QuizSession.SelectAnswer | components/Quiz.tsx:113-118 | the current question's letter is set, and every other answer is kept |
| Quiz.QuizSession.Next | components/Quiz.tsx:120-124 | the cursor moves forward unless on the last question |
| Quiz.QuizSession.Previous | components/Quiz.tsx:126-130 | the cursor moves back unless on the first question |
| Quiz.QuizSession.Navigate | components/Quiz.tsx:132-134 | a navigator cell moves the cursor to its question |
| Quiz.QuizSession.AnsweredCount | components/Quiz.tsx:143-145 | the answered count is at most the number of questions |
| Quiz.QuizSession.UnansweredCount | components/Quiz.tsx:147-149 | never negative, and zero exactly when every question is answered |
| Quiz.QuizSession.OffersSubmit | components/Quiz.tsx:347 | Submit replaces Next exactly on the last question |
| Quiz.QuizSession.Progress | components/Quiz.tsx:190 | the progress is positive, at most 100, and 100 exactly on the last question |
| Quiz.QuizSession.CellMark | components/Quiz.tsx:241-246 | the current cell is marked first, then an answered one |
| Quiz.QuizSession.RequestSubmit | components/Quiz.tsx:357 | Submit opens the confirmation dialog |
| Quiz.QuizSession.CancelSubmit | components/Quiz.tsx:390 | Cancel closes the dialog and changes nothing else |
| Quiz.QuizSession.Submit | components/Quiz.tsx:43-91 | the posted record has the student's details, the question count, the correct count, wrong = total - correct, score = accuracy = the percentage, and whole seconds taken; an ok save shows the result under the new id, and anything else leaves the quiz on screen |
| Quiz.QuizSession.ConfirmSubmit | components/Quiz.tsx:396-399 | Submit Now closes the dialog and submits |
| Quiz.QuizSession.Tick | components/Quiz.tsx:97-111 | one second of the clock, as `TickStep` says; the expiring tick submits the current answers |
| QuizResult.Round | components/QuizResult.tsx:63 | `Math.round` gives the integer within a half of the value |
| QuizResult.Ceil | components/QuizResult.tsx:487 | `Math.ceil` gives the least integer at least the value |
| QuizResult.Insert | components/QuizResult.tsx:59 | inserting into a list sorted by score keeps it sorted and adds exactly one element |
| QuizResult.InsertAfterHead | components/QuizResult.tsx:59 | the insertion step keeps the head in front, sorted |
| QuizResult.SortByScore | components/QuizResult.tsx:59 | the ranking is sorted by score, best first, and is a permutation of its input; its stability is stated by SortStable |
| QuizResult.SortStable | components/QuizResult.tsx:59 | the sort is stable: the attempts of any one score keep the order in which they were fetched |
| QuizResult.FindIndex | components/QuizResult.tsx:61 | the first position holding the id, or -1 exactly when no attempt has it |
| QuizResult.RankRange | components/QuizResult.tsx:55-62 | the rank is between 1 and the number of competitors exactly when the attempt competes, and 0 otherwise |
| QuizResult.Rank | components/QuizResult.tsx:61 | `findIndex(...) + 1` over the sorted group; RankRange and RankByScore state its meaning |
| QuizResult.ComputeRank | components/QuizResult.tsx:55-69 | the rank data; RankRange, RankByScore and PercentileBounds state its meaning |
| QuizResult.AboveOnlyBefore | components/QuizResult.tsx:59-61 | in a sorted ranking, only attempts before a position score more than it |
| QuizResult.AtLeastUpTo | components/QuizResult.tsx:59-61 | in a sorted ranking, every attempt up to a position scores at least as much |
| QuizResult.RankByScore | components/QuizResult.tsx:55-61 | the rank is one more than the number of competitors scoring more, plus the attempt's position among the competitors with its score, in fetch order; so it comes after every better score and no later than the last equal one |
| QuizResult.PercentileBounds | components/QuizResult.tsx:63 | the percentile is between 0 and 100: 0 for the last place, 100 for rank 0 |
| QuizResult.Percentile | components/QuizResult.tsx:63 | the rounded share of competitors below; PercentileBounds and PercentileMonotone state its range and monotonicity |
| QuizResult.PercentileMonotone | components/QuizResult.tsx:63 | a better rank never has a lower percentile |
| QuizResult.GradeOf | components/QuizResult.tsx:100-107 | each grade holds exactly on its band: A+ from 90, A on [80, 90), B+ on [70, 80), B on [60, 70), C on [50, 60), F below 50 |
| QuizResult.GradeMonotone | components/QuizResult.tsx:100-107 | a higher score never gets a lower grade |
| QuizResult.GradeColour | components/QuizResult.tsx:93-98 | the badge colour ladder (90, 75, 60); its relation to the grades is stated by ColourAgreesWithGrade |
| QuizResult.ColourAgreesWithGrade | components/QuizResult.tsx:93-107 | green is A+ only, red is C or F only, yellow is a B+ or a B, blue an A or a B+ |
| QuizResult.PerformanceMessage | components/QuizResult.tsx:109-116 | the message for a score; MessageAgreesWithGrade states that it is the grade's own, one per grade |
| QuizResult.MessageAgreesWithGrade | components/QuizResult.tsx:109-116 | the six messages are distinct, and the one shown is the grade's |
| QuizResult.PerformanceBand | components/QuizResult.tsx:288-290 | the 10%, 25% and 50% bands of the rank; BandsAndBadges states that they nest |
| QuizResult.ExcellenceBadge | components/QuizResult.tsx:475 | awarded from 90; BandsAndBadges states that it implies High Achiever |
| QuizResult.HighAchieverBadge | components/QuizResult.tsx:481 | awarded from 80; BandsAndBadges relates it to Excellence |
| QuizResult.Top10Badge | components/QuizResult.tsx:487 | the rank within the rounded-up 10%; BandsAndBadges and BadgeAndBandDisagree relate it to the band |
| QuizResult.SpeedMasterBadge | components/QuizResult.tsx:493 | 20 minutes for a short quiz, 2 hours for a full one; its meaning is stated by SpeedMasterWithinTwoThirds |
| QuizResult.SpeedMasterWithinTwoThirds | components/QuizResult.tsx:493 | the badge is earned exactly by finishing within two thirds of the quiz's time limit |
| QuizResult.BandsAndBadges | components/QuizResult.tsx:288-487 | a better rank is never in a worse band; Excellence implies High Achiever; the Top 10% band implies the Top 10% badge |
| QuizResult.BadgeAndBandDisagree | components/QuizResult.tsx:288-487 | the badge rounds 10% up and the band does not: a sole participant gets the badge but the Bottom 50% band |
| QuizResult.Mod60 | components/QuizResult.tsx:86 | the seconds are the remainder after the whole minutes |
| QuizResult.DurationParts | components/QuizResult.tsx:83-86 | for a non-negative time: hours, minutes below 60 and seconds below 60 that add back up to it |
| QuizResult.FormatDuration | components/QuizResult.tsx:83-91 | `1h 2m 3s`, or `2m 3s` below an hour; FormatDurationShowsHours and DurationParts state its meaning |
| QuizResult.FormatDurationShowsHours | components/QuizResult.tsx:87-91 | the hours are written exactly for an hour or more |
| QuizResult.ReviewMarks | components/QuizResult.tsx:318-319 | one mark per question, set exactly when its answer is correct |
| QuizResult.ReviewAgreesWithScore | components/QuizResult.tsx:318-319 | the review marks as correct exactly as many questions as the quiz counted |
| QuizResult.ResultView.constructor | components/QuizResult.tsx:35-37 | no attempt, loading, with an all-zero ranking |
| QuizResult.ResultView.Screen | components/QuizResult.tsx:144-169 | the results are shown exactly when loading is over and the attempt was found |
| QuizResult.ResultView.FetchResults | components/QuizResult.tsx:41-77 | a found attempt is kept; with every attempt delivered too, the ranking is that of its group; loading ends |
| StudentSolve.FirstMatch | app/student/solve/page.tsx:10-28 | the first rule that matches; no earlier rule matches |
| StudentSolve.Pick | app/student/solve/page.tsx:10-28 | the label of the first matching rule, or the default when none matches |
| StudentSolve.SubjectIcon | app/student/solve/page.tsx:10-29 | the icon of the first keyword rule the lowercase name matches; the books exactly when none matches |
| StudentSolve.IconIgnoresCase | app/student/solve/page.tsx:11 | the icon does not depend on the case of the name |
| StudentSolve.FirstRuleWins | app/student/solve/page.tsx:12-13 | a name with both mathematics and physics gets the mathematics icon |
| StudentSolve.DescriptionSpec | app/student/solve/page.tsx:32-49 | the exam-preparation text exactly for competitive categories; the general text exactly for subjects no keyword names |
| StudentSolve.SubjectDescription | app/student/solve/page.tsx:32-49 | the description ladder; DescriptionSpec states its meaning |
| StudentSolve.Distinct | app/student/solve/page.tsx:319 | the type headers are the categories' types, each once; DistinctOrder states their first-occurrence order |
| StudentSolve.DistinctOrder | app/student/solve/page.tsx:319 | the headers come in the order in which their types first occur among the categories, as `Array.from(new Set(...))` keeps insertion order |
| StudentSolve.EachCategoryOnce | app/student/solve/page.tsx:319-353 | each category appears under exactly one header, its type's |
| StudentSolve.EmailShapeIff | app/student/solve/page.tsx:89 | `\S+@\S+\.\S+` matches exactly when a non-space precedes an `@`, which begins a run of non-spaces ending in a dot that a non-space follows |
| StudentSolve.MatchGivesShape | app/student/solve/page.tsx:89 | a match of the pattern has that shape |
| StudentSolve.ShapeGivesMatch | app/student/solve/page.tsx:89 | that shape is a match of the pattern |
| StudentSolve.EmailUnanchored | app/student/solve/page.tsx:89 | the test is unanchored: text around a passing address keeps it passing |
| StudentSolve.EmailAccepted | app/student/solve/page.tsx:89 | `a@b.c` passes, also inside other text |
| StudentSolve.EmailRejected | app/student/solve/page.tsx:89 | `a@b` and `a @b.c` fail |
| StudentSolve.PassingFieldsAreFilled | app/student/solve/page.tsx:87-97 | an address or number that passes its test is never blank |
| StudentSolve.ValidateForm | app/student/solve/page.tsx:80-101 | FieldMessages: one message per failing field, "required" for a blank one and "invalid" otherwise; valid exactly when there are no messages, exactly when the details are accepted |
| StudentSolve.ReadyLineAgrees | app/student/solve/page.tsx:443-447 | the line under the start button agrees with the endpoint's cap and the quiz clock |
| StudentSolve.SolvePage.constructor | app/student/solve/page.tsx:52-62 | no categories, no selection, a short quiz, no form, no quiz |
| StudentSolve.SolvePage.FetchCategories | app/student/solve/page.tsx:68-78 | an ok answer's categories are kept |
| StudentSolve.SolvePage.SelectCategory | app/student/solve/page.tsx:360 | a card selects its category |
| StudentSolve.SolvePage.SelectQuizType | app/student/solve/page.tsx:253-276 | a button selects its quiz type |
| StudentSolve.SolvePage.EditInfo | app/student/solve/page.tsx:57-61 | typing replaces the details |
| StudentSolve.SolvePage.StartQuiz | app/student/solve/page.tsx:103-109 | the alert is raised exactly without a category; otherwise the form opens |
| StudentSolve.SolvePage.SubmitForm | app/student/solve/page.tsx:111-117 | the errors become the form's per-field messages (FieldMessages), empty exactly for accepted details, which close the form and start the quiz |
| StudentSolve.SolvePage.QuizBack | app/student/solve/page.tsx:123-128 | both screens close and the details and the category are cleared |
| StudentSolve.SolvePage.CancelForm | app/student/solve/page.tsx:224 | the form closes |
| StudentDashboard.BestScore | app/student/page.tsx:52 | the best score is some attempt's score and no lower than any |
| StudentDashboard.SumAtMost | app/student/page.tsx:50 | scores bounded above by b sum to at most n·b |
| StudentDashboard.SumAtLeast | app/student/page.tsx:50 | scores bounded below by b sum to at least n·b |
| StudentDashboard.StatsSpec | app/student/page.tsx:49-60 | with attempts: count, average × count = total score, total time, best score is the maximum, and the average is at most the best |
| StudentDashboard.StatsOf | app/student/page.tsx:49-60 | the four statistics; StatsSpec, AverageInRange and NoAttemptsNoStats state their meaning |
| StudentDashboard.AverageTimesCount | app/student/page.tsx:57 | the average times the count is the total score |
| StudentDashboard.AverageInRange | app/student/page.tsx:57 | percentages give an average, and a rounded display, between 0 and 100 |
| StudentDashboard.RecentAttempts | app/student/page.tsx:47 | the recent list is the first five attempts, or all when fewer |
| StudentDashboard.NoAttemptsNoStats | app/student/page.tsx:22-49 | without attempts the statistics stay at zero, and loading ends |
| StudentDashboard.Load | app/student/page.tsx:34-67 | `fetchData`; RecentAttempts and NoAttemptsNoStats state what it keeps and that loading ends |
| StudentDashboard.FormatTimeDropsSeconds | app/student/page.tsx:70-77 | the dashboard's time is the result screen's without its seconds |
| StudentDashboard.FormatTimeParts | app/student/page.tsx:70-77 | the hours are written exactly from an hour; the minutes are the whole minutes past them |
| StudentDashboard.FormatTime | app/student/page.tsx:70-77 | hours and minutes; FormatTimeParts and FormatTimeDropsSeconds state its meaning |
| StudentDashboard.ScoreColour | app/student/page.tsx:232-234 | a recent score is green, yellow or red, never blue |
| StudentDashboard.ScoreColourAgreesWithGrade | app/student/page.tsx:232-234 | green exactly for an A or A+; red exactly where the result screen is red |
| Text.TrimEmptyIff | app/student/solve/page.tsx:83 | `trim()` is empty exactly for whitespace-only text |
| Text.TrimIdempotent | app/api/notices/route.ts:75-76 | trimming twice is trimming once |
| Text.LowerIdempotent | app/student/solve/page.tsx:11 | lowering twice is lowering once |
| Text.JoinSplit | app/admin/notices/page.tsx:117 | `split` loses nothing: joining the parts gives the text back |
| Text.ParseIntNatToString | app/api/notices/route.ts:21-22 | `parseInt` reads a decimal numeral back as its value |
| Text.ParseInt | app/api/notices/route.ts:21-22 | radix-less `parseInt`; ParseIntNatToString and ParseIntHex state how it reads decimal and hexadecimal numerals |
| Text.ParseIntHex | app/api/notices/route.ts:21-22 | after `0x` the longest run of hexadecimal digits is read in base 16, and no digit at all is NaN |

## Left out

- The store and storage (Supabase), `fetch`, the browser's `confirm`, `alert`, `setTimeout` and `window.open`. Their replies and outcomes are parameters. The asynchronous interleaving of React state updates and effects is not modelled: each handler runs to completion.
- `Math.random`'s shuffle in the questions endpoint is modelled by an arbitrary permutation. The endpoint's catch-all 500 for an exception is not modelled.
- Request bodies that are not JSON, and the catch-all 500s of the notices and upload endpoints, are not modelled. A body field that is absent or not a string is `None`.
- `NoticesApi.Get`: the row order (`created_at` descending) and the paging are the store's. The model takes the store's rows as given.
- `Upload.Post`: the public address is modelled as the bucket's address, a `/`, and the stored path. The storage client's exact URL format is not part of this model.
- Floating point: scores, percentages and averages are exact reals. `toFixed(1)` in the size label is not modelled, so `NoticeView.FileSizeLabel` gives the unrounded value.
- `Text.ParseInt` reads integers exactly. JavaScript's `parseInt` returns a double, which loses precision beyond 2^53; that rounding is not modelled.
- `Text.Lower` lowers only the ASCII letters. `toLowerCase` on other scripts is not modelled.
- String positions in the editor's selection, `substring` in the previews, and `content.length` on the pages count characters, not UTF-16 code units. Only the endpoint's 255-unit title check uses UTF-16 lengths.
- JSON escaping of error bodies is not modelled: `AdminNotices.JsonErrorBody` stands for an error text that needs no escaping.
- `NoticeBoard.IsNew` takes the instants as milliseconds. Ten days is 864000000 ms, and `setDate` across a daylight-saving change is not modelled. The `NEW` badge's date parsing is a parameter.
- `AdminNotices.NoticeEditor.ApplyFormat` uses the corrected list selection (see Findings). The focus and caret setting done in `setTimeout` is modelled as the new selection.
- `AdminNotices.NoticeEditor.Submit` uses the corrected error text (see Findings). `AdminNotices.NoticeEditor.DeleteNotice` shows the raw body, as the page does. The `isUploading` flag and the clearing of the file input element are not modelled.
- `AdminNotices.NoticeEditor.DeleteNotice`: the route `/api/notices/<id>` is not part of this repository, so in practice its first answer is a 404. The model keeps both answers as parameters.
- `Quiz.QuizSession.Submit`: the `onComplete` callback and the `/api/quiz-attempts` endpoint are not part of this model. The ISO timestamps are modelled as milliseconds. Nothing prevents a second submission while the first is pending, and the model does not either.
- `Quiz.QuizSession.Tick` runs on every screen, as the effect does. The interval's re-creation on each change is not modelled.
- `QuizResult`: sharing a result (`navigator.share`, the clipboard) is left out as browser I/O. The review's expand and collapse state is presentational and is left out.
- `Types` leaves out `ApiResponse`, which no core operation builds.
- The categories endpoint (`/api/categories`) is not part of this model. Its answer is a parameter of the pages.
- The question editor (`AddQuestionModal`) is not part of this model.
- In `AdminQuestions`, the first pass's per-category counts are returned by `ComputeSerials`, though the page never reads them. A question bank whose ids repeat, or whose question ids clash with category ids, gets the source's numbers, but `AdminQuestions.SerialsSpec` states their meaning only when the ids are distinct.
- The board's "Showing" line counts the page's notices, not those the search leaves. The model follows the code.
- `NoticeBoard.Board.ShowingLine` gives the line's first two numbers. The third, the total, is the board's `totalCount`.
- Headers, texts, colours and animations that carry no logic are left out.

## Findings

| source | as written | input that shows it | evidently intended | confidence | as-written member | corrected member |
|---|---|---|---|---|---|---|
| app/api/notices/route.ts:141 | the PUT handler updates through `supabase`, which the module never defines (it defines `supabaseAdmin`), so every well-formed update throws and is answered 500 | any PUT with an id, a title and a content | update through `supabaseAdmin`, as the other handlers do | not executed; high | NoticesApi.PutAsWritten (NoticesApi.PutAsWrittenNeverUpdates) | NoticesApi.Put (NoticesApi.PutUpdates) |
| app/admin/notices/page.tsx:178-210 | the error raised with the parsed `error` field is caught by the same block's `catch`, which raises the raw body instead, so the endpoint's message is never shown | an upload over 10 MiB: the page shows `Error: {"error":"File size exceeds 10MB limit"}` | show the parsed `error` field, and the raw body only when it is not JSON | not executed; high | AdminNotices.FailureTextAsWritten (AdminNotices.FailureTextAsWrittenShowsJson) | AdminNotices.FailureText (AdminNotices.FailureTextShowsError) |
| app/admin/notices/page.tsx:120-132 | the list formats end the new selection at `end + growth + 9`, which takes in the closing tag but not the opening one | content `a`, selection 0..1, bullet list: the selection is `<li>a</li></ul>` | end at `end + growth + 4`, the end of the items, as the inline formats select just the wrapped text | not executed; medium | AdminNotices.FormatTextAsWritten (AdminNotices.ListSelectionAsWritten) | AdminNotices.FormatText (AdminNotices.ListSelection) |
