/** The record-store adapter (sheets_backend.py): a spreadsheet is a map from
    sheet title to worksheet; a worksheet's first row is its header and every
    later row is a record keyed by the header. Reads go through a bounded
    retry loop whose outcomes (success, or an API error) are given as a
    script. */
module SheetsBackend {
  import opened PyValues

  /** A worksheet: the column count it was created with and the rows of
      values the API returns for it, row 1 first. */
  datatype Worksheet = Worksheet(cols: nat, grid: seq<seq<Cell>>)

  type Book = map<string, Worksheet>

  /** The header each known sheet starts with. */
  const HEADERS: map<string, seq<string>> := map[
    "users" := ["email", "name", "role", "active"],
    "tests" := ["subject", "qid", "question", "a", "b", "c", "d", "correct"],
    "results" := ["timestamp", "email", "subject", "score", "total", "answers"],
    "signup" := ["timestamp", "name", "email", "request"]]

  /** `HEADERS.get(sheet)`. */
  function HeadersFor(sheet: string): Option<seq<string>> {
    if sheet in HEADERS then Some(HEADERS[sheet]) else None
  }

  /** The columns a sheet created by `_get_ws` gets. */
  function NewSheetCols(headers: Option<seq<string>>): nat {
    if headers.Some? && headers.value != [] then |headers.value| else 10
  }

  function HeaderRow(h: seq<string>): (row: seq<Cell>)
    ensures |row| == |h| && forall i :: 0 <= i < |h| ==> row[i] == Str(h[i])
  {
    seq(|h|, i requires 0 <= i < |h| => Str(h[i]))
  }

  /** An empty cell: the API leaves it out of `row_values`. */
  predicate Blank(c: Cell) {
    c == Null || c == Str("")
  }

  /** `not ws.row_values(1)`: the sheet has no row 1, or row 1 is blank. */
  predicate FirstRowEmpty(ws: Worksheet) {
    ws.grid == [] || forall i :: 0 <= i < |ws.grid[0]| ==> Blank(ws.grid[0][i])
  }

  /** `ws.update("1:1", [headers])`. */
  function WriteHeader(ws: Worksheet, h: seq<string>): Worksheet {
    Worksheet(ws.cols, if ws.grid == [] then [HeaderRow(h)] else [HeaderRow(h)] + ws.grid[1..])
  }

  /** The store after `_get_ws(title, headers)`: the sheet is created when
      missing, and row 1 is written when headers are given and row 1 is
      empty. */
  function EnsureSheet(book: Book, title: string, headers: Option<seq<string>>): Book {
    var ws := if title in book then book[title] else Worksheet(NewSheetCols(headers), []);
    var ws' := if headers.Some? && headers.value != [] && FirstRowEmpty(ws) then WriteHeader(ws, headers.value) else ws;
    book[title := ws']
  }

  /** What `_get_ws` promises: the sheet exists and no other sheet changes; a
      new sheet has as many columns as headers, or 10 without headers; row 1
      becomes the headers exactly when they are given and row 1 was empty,
      and nothing else in the sheet changes, so a new sheet given headers
      holds only the header row. */
  lemma EnsureSheetSpec(book: Book, title: string, headers: Option<seq<string>>)
    ensures var b := EnsureSheet(book, title, headers);
            && title in b && b.Keys == book.Keys + {title}
            && (forall t :: t in book && t != title ==> b[t] == book[t])
            && (title !in book ==> b[title].cols == NewSheetCols(headers))
            && (title in book ==> b[title].cols == book[title].cols)
            && var old_ := if title in book then book[title] else Worksheet(NewSheetCols(headers), []);
               if headers.Some? && headers.value != [] && FirstRowEmpty(old_) then
                 b[title].grid == [HeaderRow(headers.value)] + (if old_.grid == [] then [] else old_.grid[1..])
               else b[title].grid == old_.grid
  {
  }

  /** `_get_ws` is idempotent: a second identical call changes nothing. */
  lemma EnsureSheetIdempotent(book: Book, title: string, headers: Option<seq<string>>)
    ensures EnsureSheet(EnsureSheet(book, title, headers), title, headers) == EnsureSheet(book, title, headers)
  {
    var b := EnsureSheet(book, title, headers);
    var ws := b[title];
    if headers.Some? && headers.value != [] && FirstRowEmpty(ws) {
      assert ws.grid != [] && ws.grid[0] == HeaderRow(headers.value);
      assert WriteHeader(ws, headers.value).grid == [HeaderRow(headers.value)] + ws.grid[1..] == ws.grid;
    }
  }

  /** `ws.append_row(row)`: one row added at the end of sheet `title`. */
  function AppendTo(book: Book, title: string, row: seq<Cell>): Book
    requires title in book
  {
    book[title := Worksheet(book[title].cols, book[title].grid + [row])]
  }

  /** The store after `append_row(sheet, row)`. */
  function AfterAppend(book: Book, sheet: string, row: seq<Cell>): Book {
    AppendTo(EnsureSheet(book, sheet, HeadersFor(sheet)), sheet, row)
  }

  /** `append_row` adds exactly one row, at the end of its own sheet, after
      ensuring that sheet and its header; every other sheet is unchanged. */
  lemma AfterAppendSpec(book: Book, sheet: string, row: seq<Cell>)
    ensures var e := EnsureSheet(book, sheet, HeadersFor(sheet));
            var b := AfterAppend(book, sheet, row);
            && sheet in e && b.Keys == book.Keys + {sheet}
            && b[sheet].grid == e[sheet].grid + [row]
            && b[sheet].cols == e[sheet].cols
            && forall t :: t in book && t != sheet ==> b[t] == book[t]
  {
    EnsureSheetSpec(book, sheet, HeadersFor(sheet));
  }

  // ---------- get_all_records ----------

  /** A cell as `get_all_records` returns it: an empty cell reads as "". */
  function ReadCell(c: Cell): Cell {
    if c == Null then Str("") else c
  }

  /** The key a header cell gives its column. */
  function KeyText(c: Cell): string {
    PyStr(ReadCell(c))
  }

  /** The keys of row 1, in column order. */
  function HeaderKeys(ws: Worksheet): seq<string> {
    if ws.grid == [] then [] else seq(|ws.grid[0]|, i requires 0 <= i < |ws.grid[0]| => KeyText(ws.grid[0][i]))
  }

  /** `dict(zip(keys, row))`, with a short row padded with "". For a
      repeated key the last column wins; this assumes a client that builds
      records that way, where some gspread versions reject a repeated
      header instead. */
  function RecordOf(keys: seq<string>, row: seq<Cell>): Record {
    if keys == [] then map[]
    else
      var n := |keys| - 1;
      RecordOf(keys[..n], row)[keys[n] := CellAt(row, n)]
  }

  /** The cell of column `i` as a record holds it: "" past the row's end. */
  function CellAt(row: seq<Cell>, i: int): Cell {
    if 0 <= i < |row| then ReadCell(row[i]) else Str("")
  }

  /** The last column with key `k`, or -1 when there is none. */
  function LastIndex(keys: seq<string>, k: string): (i: int)
    ensures -1 <= i < |keys|
  {
    if keys == [] then -1
    else if keys[|keys| - 1] == k then |keys| - 1
    else LastIndex(keys[..|keys| - 1], k)
  }

  lemma {:induction false} LastIndexSpec(keys: seq<string>, k: string)
    ensures LastIndex(keys, k) == -1 <==> k !in keys
    ensures LastIndex(keys, k) >= 0 ==>
              keys[LastIndex(keys, k)] == k && forall j :: LastIndex(keys, k) < j < |keys| ==> keys[j] != k
  {
    if keys != [] && keys[|keys| - 1] != k {
      var n := |keys| - 1;
      LastIndexSpec(keys[..n], k);
      assert k in keys <==> k in keys[..n] by {
        if k in keys {
          var i :| 0 <= i < |keys| && keys[i] == k;
          assert keys[..n][i] == k;
        }
      }
    }
  }

  /** The keys of a record are the header's keys, and each key holds the
      cell of its last column. */
  lemma {:induction false} RecordOfSpec(keys: seq<string>, row: seq<Cell>, k: string)
    ensures k in RecordOf(keys, row) <==> k in keys
    ensures k in keys ==> RecordOf(keys, row)[k] == CellAt(row, LastIndex(keys, k))
  {
    if keys != [] {
      var n := |keys| - 1;
      RecordOfSpec(keys[..n], row, k);
      LastIndexSpec(keys, k);
      LastIndexSpec(keys[..n], k);
      assert k in keys <==> k in keys[..n] || k == keys[n] by {
        if k in keys {
          var i :| 0 <= i < |keys| && keys[i] == k;
          if i < n { assert keys[..n][i] == k; }
        }
      }
    }
  }

  /** `ws.get_all_records()`: one record per row after the header. */
  function Records(ws: Worksheet): (rs: seq<Record>)
    ensures |rs| == if ws.grid == [] then 0 else |ws.grid| - 1
  {
    if ws.grid == [] then []
    else seq(|ws.grid| - 1, i requires 0 <= i < |ws.grid| - 1 => RecordOf(HeaderKeys(ws), ws.grid[i + 1]))
  }

  /** A row appended under a header becomes one more record at the end. */
  lemma RecordsAppend(ws: Worksheet, row: seq<Cell>)
    requires ws.grid != []
    ensures Records(Worksheet(ws.cols, ws.grid + [row])) == Records(ws) + [RecordOf(HeaderKeys(ws), row)]
  {
    var ws' := Worksheet(ws.cols, ws.grid + [row]);
    assert HeaderKeys(ws') == HeaderKeys(ws);
    assert forall i :: 1 <= i < |ws.grid| ==> ws'.grid[i] == ws.grid[i];
  }

  // ---------- _get_all_records_retry ----------

  /** The outcome of one `get_all_records` call. */
  datatype ReadOutcome = Ok | ApiError

  /** The default schedule `(0.0, 0.3, 0.7, 1.2)`, in milliseconds. */
  const DefaultDelays: seq<nat> := [0, 300, 700, 1200]

  /** The first of the first `n` reads that succeeds. */
  function FirstOk(script: seq<ReadOutcome>, n: nat): (r: Option<nat>)
    requires n <= |script|
    ensures r.Some? ==> r.value < n
  {
    if n == 0 then None
    else match FirstOk(script, n - 1)
      case Some(i) => Some(i)
      case None => if script[n - 1].Ok? then Some(n - 1) else None
  }

  /** FirstOk finds the first success, and None means every read failed. */
  lemma {:induction false} FirstOkSpec(script: seq<ReadOutcome>, n: nat)
    requires n <= |script|
    ensures FirstOk(script, n).None? <==> forall j :: 0 <= j < n ==> script[j] == ApiError
    ensures FirstOk(script, n).Some? ==>
              && script[FirstOk(script, n).value] == Ok
              && forall j :: 0 <= j < FirstOk(script, n).value ==> script[j] == ApiError
  {
    if n > 0 {
      FirstOkSpec(script, n - 1);
    }
  }

  /** A success among the first reads stays the first success. */
  lemma {:induction false} FirstOkExtend(script: seq<ReadOutcome>, m: nat, n: nat)
    requires m <= n <= |script| && FirstOk(script, m).Some?
    ensures FirstOk(script, n) == FirstOk(script, m)
  {
    if n > m {
      FirstOkExtend(script, m, n - 1);
    }
  }

  /** What the retry loop returns: the records on the first success, [] if
      every one of the `|delays| + 1` reads fails. */
  function RetryRows(ws: Worksheet, delays: seq<nat>, script: seq<ReadOutcome>): seq<Record>
    requires |delays| < |script|
  {
    if FirstOk(script, |delays| + 1).Some? then Records(ws) else []
  }

  /** How many reads the retry loop makes: up to and including the first
      success, or all `|delays| + 1` when every read fails. */
  function RetryReads(delays: seq<nat>, script: seq<ReadOutcome>): nat
    requires |delays| < |script|
  {
    match FirstOk(script, |delays| + 1)
    case Some(i) => i + 1
    case None => |delays| + 1
  }

  /** `_get_all_records_retry(ws, attempts)`: one read per delay, stopping
      at the first success, then a last read; `script[i]` is the outcome of
      read `i` (the sleeps, and the caught error the source keeps in a
      variable it never reads, are not modelled). Returns the rows and the
      number of reads made. */
  method GetAllRecordsRetry(ws: Worksheet, delays: seq<nat>, script: seq<ReadOutcome>)
    returns (rows: seq<Record>, tries: nat)
    requires |delays| < |script|
    ensures 1 <= tries <= |delays| + 1
    ensures tries == RetryReads(delays, script)
    ensures rows == RetryRows(ws, delays, script)
  {
    tries := 0;
    while tries < |delays|
      invariant 0 <= tries <= |delays|
      invariant FirstOk(script, tries) == None
    {
      var outcome := script[tries];
      tries := tries + 1;
      if outcome == Ok {
        assert FirstOk(script, tries) == Some(tries - 1);
        FirstOkExtend(script, tries, |delays| + 1);
        return Records(ws), tries;
      }
    }
    var outcome := script[tries];
    tries := tries + 1;
    if outcome == Ok {
      rows := Records(ws);
    } else {
      rows := [];
    }
  }

  /** The default schedule makes at most five reads. */
  lemma DefaultReadsBounded(script: seq<ReadOutcome>)
    requires |DefaultDelays| < |script|
    ensures RetryReads(DefaultDelays, script) <= 5
  {
  }

  /** Two failures and then a success: three reads, and the rows of the
      third. */
  lemma RetryExample(ws: Worksheet)
    ensures RetryReads(DefaultDelays, [ApiError, ApiError, Ok, ApiError, ApiError]) == 3
    ensures RetryRows(ws, DefaultDelays, [ApiError, ApiError, Ok, ApiError, ApiError]) == Records(ws)
    ensures RetryRows(ws, DefaultDelays, [ApiError, ApiError, ApiError, ApiError, ApiError]) == []
  {
    var s := [ApiError, ApiError, Ok, ApiError, ApiError];
    assert FirstOk(s, 1) == None;
    assert FirstOk(s, 2) == None;
    assert FirstOk(s, 3) == Some(2);
    assert FirstOk(s, 5) == Some(2);
    FirstOkSpec([ApiError, ApiError, ApiError, ApiError, ApiError], 5);
  }

  // ---------- get_user and count_results ----------

  /** `(email or "").strip().lower()`, the query side of the email match.
      It is the string normalisation `Norm`; the separate name keeps the
      query apart from the record side in the proofs below. */
  function NormEmail(email: string): string {
    Norm(email)
  }

  /** `str(r.get("email", "")).strip().lower()`. */
  function RecordEmail(r: Record): string {
    Norm(PyStr(GetOr(r, "email", Str(""))))
  }

  /** The first record whose email matches. */
  function FindUser(rows: seq<Record>, email: string): Option<Record> {
    if rows == [] then None
    else if RecordEmail(rows[0]) == NormEmail(email) then Some(rows[0])
    else FindUser(rows[1..], email)
  }

  /** FindUser is a first-match search: None exactly when no record matches,
      and otherwise the record at the first matching position. */
  lemma {:induction false} FindUserSpec(rows: seq<Record>, email: string)
    ensures FindUser(rows, email).None? <==> forall i :: 0 <= i < |rows| ==> RecordEmail(rows[i]) != NormEmail(email)
    ensures FindUser(rows, email).Some? ==>
              exists i :: 0 <= i < |rows| && rows[i] == FindUser(rows, email).value
                && RecordEmail(rows[i]) == NormEmail(email)
                && forall j :: 0 <= j < i ==> RecordEmail(rows[j]) != NormEmail(email)
  {
    var em := NormEmail(email);
    if rows != [] && RecordEmail(rows[0]) != em {
      var tail := rows[1..];
      FindUserSpec(tail, email);
      assert forall i :: 1 <= i < |rows| ==> rows[i] == tail[i - 1];
      if FindUser(rows, email).Some? {
        var i :| 0 <= i < |tail| && tail[i] == FindUser(rows, email).value
                 && RecordEmail(tail[i]) == em
                 && forall j :: 0 <= j < i ==> RecordEmail(tail[j]) != em;
        assert rows[i + 1] == tail[i];
        forall j | 0 <= j < i + 1 ensures RecordEmail(rows[j]) != em {
          if j > 0 { assert rows[j] == tail[j - 1]; }
        }
      }
    }
  }

  /** The number of records whose email matches. */
  function CountEmail(rows: seq<Record>, email: string): nat {
    if rows == [] then 0
    else CountEmail(rows[..|rows| - 1], email) + if RecordEmail(rows[|rows| - 1]) == NormEmail(email) then 1 else 0
  }

  lemma {:induction false} CountBounded(rows: seq<Record>, email: string)
    ensures CountEmail(rows, email) <= |rows|
  {
    if rows != [] {
      CountBounded(rows[..|rows| - 1], email);
    }
  }

  /** One more record raises the count by one exactly when its email matches. */
  lemma CountAppend(rows: seq<Record>, r: Record, email: string)
    ensures CountEmail(rows + [r], email) == CountEmail(rows, email) + if RecordEmail(r) == NormEmail(email) then 1 else 0
  {
    assert (rows + [r])[..|rows|] == rows;
  }

  /** The normalised emails of the records, in order. */
  function EmailColumn(rows: seq<Record>): (es: seq<string>)
    ensures |es| == |rows| && forall i :: 0 <= i < |rows| ==> es[i] == RecordEmail(rows[i])
  {
    seq(|rows|, i requires 0 <= i < |rows| => RecordEmail(rows[i]))
  }

  lemma EmailColumnSnoc(rows: seq<Record>)
    requires rows != []
    ensures EmailColumn(rows) == EmailColumn(rows[..|rows| - 1]) + [RecordEmail(rows[|rows| - 1])]
  {
    var n := |rows| - 1;
    var es := EmailColumn(rows);
    forall j | 0 <= j < n ensures EmailColumn(rows[..n])[j] == es[j] {
      assert rows[..n][j] == rows[j];
    }
  }

  lemma {:induction false} CountColumn(rows: seq<Record>, email: string)
    ensures CountEmail(rows, email) > 0 <==> NormEmail(email) in EmailColumn(rows)
  {
    if rows != [] {
      var n := |rows| - 1;
      CountColumn(rows[..n], email);
      EmailColumnSnoc(rows);
    }
  }

  /** The count is positive exactly when some record matches. */
  lemma CountPositive(rows: seq<Record>, email: string)
    ensures CountEmail(rows, email) > 0 <==> exists i :: 0 <= i < |rows| && RecordEmail(rows[i]) == NormEmail(email)
  {
    CountColumn(rows, email);
    var es := EmailColumn(rows);
    if NormEmail(email) in es {
      var i :| 0 <= i < |es| && es[i] == NormEmail(email);
      assert RecordEmail(rows[i]) == NormEmail(email);
    }
  }

  /** A user has results exactly when a results record with that email
      exists: the count is positive iff the first-match search finds one. */
  lemma CountFound(rows: seq<Record>, email: string)
    ensures CountEmail(rows, email) > 0 <==> FindUser(rows, email).Some?
  {
    FindUserSpec(rows, email);
    CountPositive(rows, email);
  }

  // ---------- get_tests ----------

  /** `r["qid"] = int(r.get("qid"))` when that succeeds; a missing qid
      (`int(None)` raises) or one that does not parse is left as it is. */
  function CoerceQid(r: Record): Record {
    if "qid" in r && PyInt(r["qid"]).Some? then r["qid" := Int(PyInt(r["qid"]).value)] else r
  }

  /** CoerceQid touches only `qid`, keeps the keys, and replaces a parsable
      qid by its integer. */
  lemma CoerceQidSpec(r: Record)
    ensures CoerceQid(r).Keys == r.Keys
    ensures forall k :: k in r && k != "qid" ==> CoerceQid(r)[k] == r[k]
    ensures "qid" in r ==> CoerceQid(r)["qid"] == if PyInt(r["qid"]).Some? then Int(PyInt(r["qid"]).value) else r["qid"]
  {
  }

  /** Coercing twice is coercing once. */
  lemma CoerceQidIdempotent(r: Record)
    ensures CoerceQid(CoerceQid(r)) == CoerceQid(r)
  {
  }

  /** `not r.get("subject")` fails: the row has a truthy subject. */
  predicate HasSubject(r: Record) {
    CellTruthy(GetOr(r, "subject", Null))
  }

  /** The rows `get_tests` returns: those with a truthy subject, in order,
      with their qids coerced. */
  function TestRows(rows: seq<Record>): seq<Record> {
    if rows == [] then []
    else
      var n := |rows| - 1;
      TestRows(rows[..n]) + if HasSubject(rows[n]) then [CoerceQid(rows[n])] else []
  }

  /** The filter distributes over concatenation, so it keeps input order. */
  lemma {:induction false} TestRowsAppend(a: seq<Record>, b: seq<Record>)
    ensures TestRows(a + b) == TestRows(a) + TestRows(b)
  {
    if b != [] {
      var n := |b| - 1;
      assert (a + b)[..|a + b| - 1] == a + b[..n];
      TestRowsAppend(a, b[..n]);
    } else {
      assert a + b == a;
    }
  }

  /** Every returned row has a subject and is an input row with its qid
      coerced, and every input row with a subject is returned, coerced. */
  lemma {:induction false} TestRowsSpec(rows: seq<Record>)
    ensures forall r :: r in TestRows(rows) ==> HasSubject(r) && exists i :: 0 <= i < |rows| && r == CoerceQid(rows[i])
    ensures forall i :: 0 <= i < |rows| && HasSubject(rows[i]) ==> CoerceQid(rows[i]) in TestRows(rows)
    ensures |TestRows(rows)| <= |rows|
  {
    if rows != [] {
      var n := |rows| - 1;
      TestRowsSpec(rows[..n]);
      TestRowsComplete(rows);
      forall r | r in TestRows(rows)
        ensures HasSubject(r) && exists i :: 0 <= i < |rows| && r == CoerceQid(rows[i])
      {
        if r in TestRows(rows[..n]) {
          var i :| 0 <= i < n && r == CoerceQid(rows[..n][i]);
          assert rows[i] == rows[..n][i];
        } else {
          assert r == CoerceQid(rows[n]);
          CoerceQidSpec(rows[n]);
          assert GetOr(r, "subject", Null) == GetOr(rows[n], "subject", Null);
        }
      }
    }
  }

  /** A single row is kept, coerced, exactly when it has a subject. */
  lemma TestRowsSingle(r: Record)
    ensures TestRows([r]) == if HasSubject(r) then [CoerceQid(r)] else []
  {
    assert [r][..0] == [];
  }

  /** Row `i` contributes its coerced self, or nothing, exactly between the
      output of the rows before it and the output of the rows after it. */
  lemma {:induction false} TestRowsAt(rows: seq<Record>, i: nat)
    requires i < |rows|
    ensures TestRows(rows) == TestRows(rows[..i]) + (if HasSubject(rows[i]) then [CoerceQid(rows[i])] else []) + TestRows(rows[i + 1..])
  {
    var front, mid, back := rows[..i], [rows[i]], rows[i + 1..];
    var kept := if HasSubject(rows[i]) then [CoerceQid(rows[i])] else [];
    calc {
      TestRows(rows);
      { assert rows == front + (mid + back); }
      TestRows(front + (mid + back));
      { TestRowsAppend(front, mid + back); }
      TestRows(front) + TestRows(mid + back);
      { TestRowsAppend(mid, back); TestRowsSingle(rows[i]); }
      TestRows(front) + (kept + TestRows(back));
    }
  }

  /** Every input row with a subject is returned, coerced. */
  lemma TestRowsComplete(rows: seq<Record>)
    ensures forall i :: 0 <= i < |rows| && HasSubject(rows[i]) ==> CoerceQid(rows[i]) in TestRows(rows)
  {
    forall i | 0 <= i < |rows| && HasSubject(rows[i])
      ensures CoerceQid(rows[i]) in TestRows(rows)
    {
      TestRowsAt(rows, i);
    }
  }

  /** `get_tests` applied to its own output returns it unchanged. */
  lemma {:induction false} TestRowsIdempotent(rows: seq<Record>)
    ensures TestRows(TestRows(rows)) == TestRows(rows)
  {
    if rows != [] {
      var n := |rows| - 1;
      TestRowsIdempotent(rows[..n]);
      var front := TestRows(rows[..n]);
      if HasSubject(rows[n]) {
        var c := CoerceQid(rows[n]);
        CoerceQidSpec(rows[n]);
        assert GetOr(c, "subject", Null) == GetOr(rows[n], "subject", Null);
        CoerceQidIdempotent(rows[n]);
        TestRowsAppend(front, [c]);
        assert [c][..0] == [];
        assert TestRows([c]) == [c];
      } else {
        assert TestRows(rows) == front;
      }
    }
  }

  // ---------- the store ----------

  /** The spreadsheet behind a `Sheets` client. */
  class Sheets {
    var book: Book

    /** `Sheets(url, sa_info)`, opened on a spreadsheet holding `book`. */
    constructor(initial: Book)
      ensures book == initial
    {
      book := initial;
    }

    /** `_get_ws(title, headers)`. */
    method GetWs(title: string, headers: Option<seq<string>>) returns (ws: Worksheet)
      modifies this
      ensures book == EnsureSheet(old(book), title, headers)
      ensures title in book && ws == book[title]
    {
      if title in book {
        ws := book[title];
      } else {
        ws := Worksheet(NewSheetCols(headers), []);
      }
      if headers.Some? && headers.value != [] {
        if FirstRowEmpty(ws) {
          ws := WriteHeader(ws, headers.value);
        }
      }
      book := book[title := ws];
    }

    /** `append_row(sheet, row)`. */
    method AppendRow(sheet: string, row: seq<Cell>)
      modifies this
      ensures book == AfterAppend(old(book), sheet, row)
    {
      var ws := GetWs(sheet, HeadersFor(sheet));
      book := book[sheet := Worksheet(ws.cols, ws.grid + [row])];
    }

    /** `get_user(email)`: the first users record whose email matches. */
    method GetUser(email: string, script: seq<ReadOutcome>) returns (user: Option<Record>)
      requires |DefaultDelays| < |script|
      modifies this
      ensures book == EnsureSheet(old(book), "users", Some(HEADERS["users"]))
      ensures user == FindUser(RetryRows(book["users"], DefaultDelays, script), email)
    {
      var ws := GetWs("users", Some(HEADERS["users"]));
      var rows, _ := GetAllRecordsRetry(ws, DefaultDelays, script);
      var em := NormEmail(email);
      var i := 0;
      while i < |rows|
        invariant 0 <= i <= |rows|
        invariant FindUser(rows[i..], email) == FindUser(rows, email)
      {
        assert rows[i..][0] == rows[i] && rows[i..][1..] == rows[i + 1..];
        if RecordEmail(rows[i]) == em {
          return Some(rows[i]);
        }
        i := i + 1;
      }
      assert rows[i..] == [];
      return None;
    }

    /** `get_tests()`: the tests records with a subject, qids coerced. */
    method GetTests(script: seq<ReadOutcome>) returns (out: seq<Record>)
      requires |DefaultDelays| < |script|
      modifies this
      ensures book == EnsureSheet(old(book), "tests", Some(HEADERS["tests"]))
      ensures out == TestRows(RetryRows(book["tests"], DefaultDelays, script))
    {
      var ws := GetWs("tests", Some(HEADERS["tests"]));
      var rows, _ := GetAllRecordsRetry(ws, DefaultDelays, script);
      out := [];
      var i := 0;
      while i < |rows|
        invariant 0 <= i <= |rows|
        invariant out == TestRows(rows[..i])
      {
        assert rows[..i + 1][..i] == rows[..i];
        var r := rows[i];
        if HasSubject(r) {
          if "qid" in r && PyInt(r["qid"]).Some? {
            r := r["qid" := Int(PyInt(r["qid"]).value)];
          }
          out := out + [r];
        }
        i := i + 1;
      }
      assert rows[..i] == rows;
    }

    /** `count_results(email)`: how many results records have that email. */
    method CountResults(email: string, script: seq<ReadOutcome>) returns (n: nat)
      requires |DefaultDelays| < |script|
      modifies this
      ensures book == EnsureSheet(old(book), "results", Some(HEADERS["results"]))
      ensures n == CountEmail(RetryRows(book["results"], DefaultDelays, script), email)
    {
      var ws := GetWs("results", Some(HEADERS["results"]));
      var rows, _ := GetAllRecordsRetry(ws, DefaultDelays, script);
      var em := NormEmail(email);
      n := 0;
      var i := 0;
      while i < |rows|
        invariant 0 <= i <= |rows|
        invariant n == CountEmail(rows[..i], email)
      {
        assert rows[..i + 1][..i] == rows[..i];
        if RecordEmail(rows[i]) == em {
          n := n + 1;
        }
        i := i + 1;
      }
      assert rows[..i] == rows;
    }
  }

  // ---------- writing a result and counting it ----------

  /** Appending a results row and counting again (with reads that succeed)
      gives one more exactly when the appended row's email matches. */
  lemma AppendThenCount(book: Book, row: seq<Cell>, email: string)
    ensures var before := EnsureSheet(book, "results", HeadersFor("results"))["results"];
            var after := AfterAppend(book, "results", row)["results"];
            && before.grid != []
            && CountEmail(Records(after), email)
               == CountEmail(Records(before), email)
                  + if RecordEmail(RecordOf(HeaderKeys(before), row)) == NormEmail(email) then 1 else 0
  {
    var e := EnsureSheet(book, "results", HeadersFor("results"));
    EnsureSheetSpec(book, "results", HeadersFor("results"));
    AfterAppendSpec(book, "results", row);
    var before := e["results"];
    assert before.grid != [];
    var after := AfterAppend(book, "results", row)["results"];
    assert after == Worksheet(before.cols, before.grid + [row]);
    RecordsAppend(before, row);
    CountAppend(Records(before), RecordOf(HeaderKeys(before), row), email);
  }

  /** Under the standard results header, the appended record's email is the
      row's second cell. */
  lemma ResultsEmailColumn(ws: Worksheet, row: seq<Cell>)
    requires ws.grid != [] && ws.grid[0] == HeaderRow(HEADERS["results"])
    requires |row| >= 2
    ensures GetOr(RecordOf(HeaderKeys(ws), row), "email", Str("")) == ReadCell(row[1])
  {
    HeaderKeysOfRow(ws);
    ResultsEmailIndex();
    RecordOfSpec(HEADERS["results"], row, "email");
  }

  /** Reading back a header written by `_get_ws` gives the header's names. */
  lemma HeaderKeysOfRow(ws: Worksheet)
    requires ws.grid != [] && ws.grid[0] == HeaderRow(HEADERS["results"])
    ensures HeaderKeys(ws) == HEADERS["results"]
  {
    var h := HEADERS["results"];
    var keys := HeaderKeys(ws);
    forall i | 0 <= i < |h| ensures keys[i] == h[i] {
      assert ws.grid[0][i] == Str(h[i]);
    }
  }

  /** `email` is the second results column, and the only one. */
  lemma ResultsEmailIndex()
    ensures LastIndex(HEADERS["results"], "email") == 1
  {
    var h := HEADERS["results"];
    assert h == ["timestamp", "email", "subject", "score", "total", "answers"];
    LastIndexSpec(h, "email");
    var l := LastIndex(h, "email");
    assert h[1] == "email";
    assert l >= 1;
  }
}
