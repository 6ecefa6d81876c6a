# Online school quiz site: a verified model of its decision logic

The system is a small web front end for an online school. Students sign in by
email. Unknown or inactive users can file a sign-up request. Signed-in users
take entrance quizzes in five subjects, and the score is logged. All data
lives in a spreadsheet with four sheets: `users`, `tests`, `results` and
`signup`.

This project models the deterministic core under the user interface and the
spreadsheet client, in four Dafny modules:

- `PyValues` (`py_values.dfy`) holds the loosely typed values that spreadsheet
  rows carry (`None`, booleans, integers, strings, and one level of nested
  dict). It defines the Python operations the code applies to them:
  truthiness, `or`, `dict.get`, `str()`, `int()` on text, `.strip()` and
  `.lower()`.
- `SheetsBackend` (`sheets_backend.dfy`, modelling `sheets_backend.py`) models the spreadsheet as a map from
  sheet title to worksheet. `Sheets` is a class whose `book` field its methods
  update. It covers:
  - lazy sheet creation with a header row, and appending a row;
  - the bounded read-retry loop, over a script of read outcomes;
  - user lookup by normalised email, counting results, and the `tests` filter
    that coerces `qid`.
- `TestsCore` (`tests_core.dfy`, modelling `tests_core.py`) covers:
  - question-row normalisation;
  - the loader, which filters by group and subject, buckets by subject and
    sorts stably by qid with missing qids last;
  - answer collection and scoring, with the widget values as inputs.
- `App` (`app.dfy`, modelling `app.py`) covers:
  - the account-activity parser;
  - the login and sign-up handlers, as transitions of a `Session` class whose
    `state` field is the session-state map;
  - the JSON text of the sign-up request;
  - the guard that decides whether a quiz result is written.

The model follows what the code does:
- reads are retried once per delay of the four-delay schedule, plus one final
  read, and then give `[]`;
- writes are never retried;
- there is no taxonomy of transient and permanent errors;
- `total_mcq` counts every non-open question, including the ones the form
  skips for lack of options.

## Model

| member | source | states |
|---|---|---|
| PyValues.NormIdempotent | app.py:66 | normalising an email (strip, then lower) twice is the same as once |
| PyValues.NormPadded | sheets_backend.py:56-58 | whitespace around an email does not change its normalised form |
| PyValues.StripIdempotent | tests_core.py:9 | stripping a stripped text changes nothing |
| PyValues.StripEnds | tests_core.py:9 | the result of strip neither starts nor ends with whitespace |
| PyValues.StripIsSlice | tests_core.py:9 | strip removes only leading and trailing whitespace: the result is a contiguous slice of the input |
| PyValues.PyIntOfStr | sheets_backend.py:71 | `int(str(n))` gives back `n` for every integer `n` |
| SheetsBackend.EnsureSheetSpec | sheets_backend.py:20-32 | after `_get_ws` the sheet exists and other sheets are unchanged; a new sheet has `len(headers)` columns, or 10 without headers; row 1 becomes the header exactly when a header is given and row 1 was empty, the rows after row 1 are always untouched, so a new sheet given headers holds only the header row |
| SheetsBackend.EnsureSheetIdempotent | sheets_backend.py:20-32 | a second identical `_get_ws` changes nothing |
| SheetsBackend.Sheets.GetWs | sheets_backend.py:20-32 | the new spreadsheet is the ensured one, and the sheet returned is the one held in it |
| SheetsBackend.AfterAppendSpec | sheets_backend.py:49-51 | `append_row` first ensures the sheet with its `HEADERS` entry, then adds exactly one row at the end of that sheet; every other sheet is unchanged |
| SheetsBackend.Sheets.AppendRow | sheets_backend.py:49-51 | the new spreadsheet is the old one after ensuring the sheet and appending the row |
| SheetsBackend.RecordOfSpec | sheets_backend.py:38 | a record has exactly the header's keys; each key maps to the cell under its last column (empty when the row is short) |
| SheetsBackend.RecordsAppend | sheets_backend.py:49-51 | appending a row adds exactly one record, built from that row, at the end of the records |
| SheetsBackend.FirstOkSpec | sheets_backend.py:34-46 | the read that succeeds is the first successful one in the script, and no read succeeding means every attempt raised an API error |
| SheetsBackend.FirstOkExtend | sheets_backend.py:36-41 | once a read has succeeded, later attempts do not change which read that was |
| SheetsBackend.GetAllRecordsRetry | sheets_backend.py:34-46 | makes between 1 and `len(attempts)+1` reads, stops at the first success and returns its records, and returns `[]` when every read raises an API error |
| SheetsBackend.DefaultReadsBounded | sheets_backend.py:34 | the default schedule makes at most 5 reads |
| SheetsBackend.RetryExample | sheets_backend.py:34-46 | two failures and then a success take three reads and return the sheet's records; five failures return `[]` |
| SheetsBackend.FindUserSpec | sheets_backend.py:53-60 | `get_user` returns `None` iff no record's normalised email equals the normalised query; otherwise it returns the record at the first matching position |
| SheetsBackend.Sheets.GetUser | sheets_backend.py:53-60 | ensures the `users` sheet with its header, and returns the first match among the records the retry loop read |
| SheetsBackend.CountBounded | sheets_backend.py:77-81 | the count is at most the number of records |
| SheetsBackend.CountAppend | sheets_backend.py:77-81 | one more record raises the count by 1 exactly when its email matches, and leaves it unchanged otherwise |
| SheetsBackend.CountPositive | sheets_backend.py:81 | the count is positive iff some record's email matches |
| SheetsBackend.CountColumn | sheets_backend.py:81 | the count is positive iff the normalised query occurs in the email column |
| SheetsBackend.CountFound | sheets_backend.py:53-60 | over one list of records, the count of matching emails is positive iff the first-match search `FindUser` finds a record for the same email |
| SheetsBackend.Sheets.CountResults | sheets_backend.py:77-81 | ensures the `results` sheet with its header, and returns the count over the records the retry loop read |
| SheetsBackend.AppendThenCount | sheets_backend.py:49-51 | appending a row to `results` raises that email's count by 1 exactly when the appended record's email matches |
| SheetsBackend.ResultsEmailColumn | sheets_backend.py:10 | under the standard `results` header, the email of a record is the row's second cell |
| SheetsBackend.CoerceQidSpec | sheets_backend.py:70-73 | only `qid` changes: it becomes its integer value when `int()` parses it, and is left as it is otherwise |
| SheetsBackend.CoerceQidIdempotent | sheets_backend.py:70-73 | coercing a coerced record changes nothing |
| SheetsBackend.TestRowsSpec | sheets_backend.py:62-75 | every row `get_tests` returns has a truthy subject and is an input row with its qid coerced; every input row with a truthy subject is returned, coerced; there are no more rows than in the input |
| SheetsBackend.TestRowsSingle | sheets_backend.py:68-74 | one row is kept, with its qid coerced, exactly when its subject is truthy |
| SheetsBackend.TestRowsAt | sheets_backend.py:67-74 | each input row contributes its coerced self or nothing, between the output of the rows before it and that of the rows after it |
| SheetsBackend.TestRowsAppend | sheets_backend.py:66-75 | the filter works row by row, in order: filtering a concatenation concatenates the filtered parts |
| SheetsBackend.TestRowsIdempotent | sheets_backend.py:62-75 | filtering the output of `get_tests` again changes nothing |
| SheetsBackend.Sheets.GetTests | sheets_backend.py:62-75 | ensures the `tests` sheet with its header, and returns the filtered and coerced records the retry loop read |
| TestsCore.QuestionType | tests_core.py:12-18 | the type is always `mcq` or `open`; an explicit type is kept when it is `open`, and anything else becomes `mcq`; an absent type is `open` iff no flat option a-d is truthy |
| TestsCore.NormalizeRowSpec | tests_core.py:7-41 | the normalised question is canonical: the options have exactly the keys a-d, taken from the `options` dict or else the flat columns; `correct` is the trimmed, lowercased label if it is one of a-d and the type is `mcq`, else ""; `text` falls back from `text` to `question`, trimmed; `group` is trimmed and lowercased; subject and qid pass through unchanged |
| TestsCore.NormalizeFixpoint | tests_core.py:7-41 | normalising an already canonical question gives it back unchanged |
| TestsCore.NormalizeExample | tests_core.py:14-38 | a row with flat options and correct label "B" gives option b "3", correct "b" and type `mcq` |
| TestsCore.BucketsSelected | tests_core.py:55-66 | after the bucketing loop the keys are exactly the subjects with a kept question, and each bucket holds exactly the kept questions with that subject, in input order |
| TestsCore.SelectedSound | tests_core.py:55-66 | every bucketed question comes from the input, passes the group filter, has a non-blank stripped subject, and sits under that subject |
| TestsCore.SelectedComplete | tests_core.py:55-66 | every kept question is in the bucket of its stripped subject |
| TestsCore.Bucket | tests_core.py:55-66 | the loop's map has the non-empty selections as keys, and each key's value is its selection in input order |
| TestsCore.SortBuckets | tests_core.py:69-70 | the keys are the same and each bucket is replaced by its qid sort |
| TestsCore.LoadSubjects | tests_core.py:46-71 | a subject is a key iff some kept question has it, and its list is those questions sorted by qid |
| TestsCore.LoadSubjectsFromSheet | tests_core.py:46-71 | reads the tests through `get_tests` and returns the loader's map over the rows read |
| TestsCore.BucketSound | tests_core.py:55-70 | every question in a sorted bucket is a kept input question with that subject |
| TestsCore.BucketComplete | tests_core.py:55-70 | every kept question appears in the sorted bucket of its subject |
| TestsCore.GroupFilterExample | tests_core.py:57-60 | a senior question is dropped for `junior` and kept for `senior` or no group; a question with no group is kept for every group |
| TestsCore.SortByQidPerm | tests_core.py:69-70 | the sort is a permutation of its input |
| TestsCore.InsertPerm | tests_core.py:70 | inserting one question adds exactly that question to the multiset of questions |
| TestsCore.SortByQidSorted | tests_core.py:69-70 | the result is ordered by the key `(qid is None, qid)`: integer qids ascending, then the missing ones |
| TestsCore.InsertSorted | tests_core.py:70 | inserting into a sorted list keeps it sorted |
| TestsCore.InsertWithKey | tests_core.py:70 | an inserted element goes after all elements with its own key |
| TestsCore.SortByQidStable | tests_core.py:69-70 | the sort is stable: the questions sharing a key keep their input order |
| TestsCore.SortExample | tests_core.py:69-70 | qids 5, None, 1, None sort to 1, 5, None, None, and the None entries keep their order |
| TestsCore.ScoreBounded | tests_core.py:124-135 | `0 <= score <= total_mcq` |
| TestsCore.TotalMcqZero | tests_core.py:89 | `total_mcq` is 0 iff every question is open |
| TestsCore.AnswerKeys | tests_core.py:94-117 | a dict key has an answer iff a question whose qid is that key is shown, that is, it is open or has all four options; `True`/`1` and `False`/`0` are one key |
| TestsCore.LastAnswerWins | tests_core.py:94-117 | the answer stored under a qid's dict key is the one from the last shown question with that key: open text trimmed, a chosen label as it is |
| TestsCore.RenderTestForm | tests_core.py:84-135 | no questions, or an unsubmitted form, gives `(0, 0, {})`; otherwise the total is the number of non-open questions, the answers are the collected ones, the score counts non-open questions whose non-empty correct label equals their answer, and `score <= total` |
| TestsCore.CollectLoop | tests_core.py:94-117 | the answer-collecting loop builds exactly the map of answers the form defines |
| TestsCore.ScoreLoop | tests_core.py:124-135 | the scoring loop returns exactly the number of scoring questions |
| TestsCore.BoolQidMerges | tests_core.py:101-131 | answers are keyed as a Python dict keys them: an open question with qid `True` after a multiple-choice question with qid `1` overwrites that answer, leaving `{1: "zzz"}` and score 0 |
| TestsCore.ScoringExample | tests_core.py:124-135 | two multiple-choice questions with one right answer give score 1 of total 2 |
| App.InactiveWithoutFlag | app.py:75-79 | a record without `active` is not active |
| App.ActivePadding | app.py:78 | whitespace around the `active` text does not change the verdict |
| App.ActiveTrue | app.py:78-79 | a TRUE checkbox cell makes the user active |
| App.InactiveFalse | app.py:78-79 | a FALSE checkbox cell does not |
| App.ActiveOne | app.py:78-79 | the number 1 makes the user active |
| App.InactiveZero | app.py:78-79 | the number 0 does not |
| App.ActiveDa | app.py:78-79 | the Russian word " Да ", padded, makes the user active |
| App.ActiveYes | app.py:78-79 | "YES" in capitals makes the user active |
| App.InactiveNo | app.py:78-79 | "no" does not |
| App.BeforeAtSpec | app.py:84 | `email.split("@")[0]` is the longest prefix without "@": the next character, if any, is "@" |
| App.DisplayNameFallback | app.py:84 | the name is the user's `name`, else the typed name, else the part of the email before "@"; it is empty only when all three are |
| App.GroupCode | app.py:120 | the group code is `junior` iff the choice is "Младшая", and `senior` otherwise |
| App.EscapeRoundTrip | app.py:129 | the JSON escaping of a request field can be decoded back to the same text |
| App.EscapePlain | app.py:129 | text without quotes, backslashes or control characters is written unchanged |
| App.LoginActive | app.py:81-85 | an active user gets `auth` = {normalised email, display name}, and no other key changes |
| App.LoginSignup | app.py:88-94 | otherwise `auth` is untouched, `signup_mode` and `signup_open` are true, `signup_email` is the normalised email, `signup_name` is the typed name or else the found record's name, and `signup_known` is true exactly when an (inactive) record was found; exactly these five keys are written, so every other key, `signup_success` and `signup_error` included, is unchanged |
| App.SignupOutcome | app.py:132-139 | a sign-up submit sets `signup_success` on a successful write or `signup_error` on a failed one, and leaves the other flag as it was; it ends sign-up mode, keeps the block open and changes nothing else |
| App.SignupExactlyOne | app.py:132-139 | with neither message pending, a sign-up submit leaves `signup_success` set iff the write succeeded and `signup_error` set iff it raised |
| App.SignupAfterPop | app.py:49-52 | after the messages are popped at the top of the login view, a sign-up submit leaves exactly one of them pending |
| App.SignupCarriesLoginEmail | app.py:90-99 | after a rejected login the sign-up branch runs, with the email that the login normalised |
| App.ResultRowEmail | app.py:186-196 | a result row, read back under the standard header, carries the signed-in email |
| App.ResultRaisesCount | app.py:186-196 | writing a result raises the user's `count_results` by exactly one |
| App.Session.PopSignupMessages | app.py:49-52 | returns whether each outcome flag was set, and removes both keys |
| App.Session.LoginSubmit | app.py:65-94 | an email without "@" after normalising changes neither the session nor the spreadsheet; otherwise the user is looked up by the normalised email and the session becomes the active or the sign-up transition |
| App.Session.SignupSubmit | app.py:117-139 | one `signup` row is appended with the time, name, normalised email and request JSON when the write succeeds, and the spreadsheet is unchanged when it fails; the session becomes the sign-up outcome |
| App.Session.DashboardTab | app.py:175-200 | a result row is written iff the total is non-zero and the write succeeds, so no row is written without questions, for an unsubmitted form, or when every question is open; for a submitted form the written total is the number of non-open questions and the written score is the score of the collected answers |

## Left out

- TestsCore.DictKey: answers are keyed by the canonical key (`1` for `True`, `0` for `False`). Python keeps the key object first inserted, so the returned dict may show `True` where the model has `1`; only the JSON text of the answers, which is a parameter, could tell them apart.
- The user interface is not modelled: rendering, forms, tabs, the expander, `st.rerun`, `st.stop`, widget keys and labels, form prefill (app.py:55-56), the logout button, the "tests passed" metric (app.py:158-163) and the `main` dispatch. Widget results (submitted flag, chosen labels, typed text) are inputs.
- The spreadsheet client is not modelled: `gspread`, service-account authentication and `open_by_url` are foreign code. The store is a map of worksheets.
- `SheetsBackend.RecordOf` assumes a client for which the last column wins when a header key repeats. Some gspread versions raise on a repeated header instead; that error is not modelled.
- Spreadsheet value parsing is not modelled: `numericise` on read, and `USER_ENTERED` parsing on write. A written cell is read back as written.
- Worksheet limits are not modelled: the 1000-row grid of a new sheet, resizing, and cells beyond the header width.
- `time.sleep` and real delays are left out. Only the number of reads is modelled.
- Exceptions other than the API error of a records read are left out. The script of read outcomes holds only "success" and "API error", so the `except Exception` fallback of the login lookup (app.py:72-73) never fires in the model.
- `Sheets.GetWs` never fails: API errors raised by `_get_ws` itself (opening, creating or heading a worksheet, sheets_backend.py:23-31) are not modelled. In the source such an error during login would be caught at app.py:72-73 and send the user to sign-up with `signup_known` false.
- A write that raises is modelled as leaving the spreadsheet unchanged. Partial effects of a failed write are not modelled.
- Timestamps (`datetime.now().isoformat()`) are a text parameter.
- The JSON text of the answers dict (app.py:194) is a text parameter, because Python dict order is not in the model. The sign-up request JSON is modelled.
- Python `.lower()` is modelled for the ASCII capitals, the Latin-1 capitals U+00C0-U+00DE (except U+00D7) and the Cyrillic capitals U+0400-U+042F only. Every other character, including further Cyrillic capitals such as U+0490 and U+04D8, is left unchanged, although Python lowers it.
- `int()` on text accepts optional whitespace, a sign and ASCII digits. Unicode digits and `_` separators are left out.
- The loader normalises all rows in one pass before the bucketing loop. The source normalises each row inside the loop. Normalisation is pure, so both give the same buckets.
- Sorting by text qids is excluded. `TestsCore.Loadable` requires every kept question's qid to be an integer or missing. An unparsed text qid next to an integer one makes the source raise `TypeError`; a bucket whose present qids are all text sorts without raising in the source (as strings), but is excluded as well, because string ordering is not modelled.
- `TestsCore.Normalizable` restricts the rows normalisation is modelled on. Non-string text, type, correct or group values make the source raise on `.strip()`. A truthy dict-valued flat option column does not raise in the source: it becomes the `str()` repr of the dict (tests_core.py:23, 33-36). Python reprs are not modelled, so such rows are excluded too.
- The read-retry members require a script with at least one outcome per possible read (`|delays| < |script|`). This does not restrict the source, which never makes more reads.
- Concurrent sessions writing to the shared spreadsheet are not modelled.
