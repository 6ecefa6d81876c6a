/** The decision logic of the front end (app.py): the active-flag parser,
    the login and sign-up handlers as transitions of the session-state map,
    and the guard that decides when a quiz result is written. */
module App {
  import opened PyValues
  import opened SheetsBackend
  import opened TestsCore

  // ---------- _is_active ----------

  /** The values of `active` that make an account active. */
  const ActiveTokens: set<string> := {"true", "1", "yes", "y", "да"}

  /** `str(u.get("active", "")).strip().lower()`. */
  function ActiveText(u: Record): string {
    Norm(PyStr(GetOr(u, "active", Str(""))))
  }

  /** `_is_active(u)`: false for no user or an empty record, otherwise
      whether the normalised `active` text is one of the tokens. */
  predicate IsActive(u: Option<Record>) {
    u.Some? && u.value != map[] && ActiveText(u.value) in ActiveTokens
  }

  /** A record without `active` is never active. */
  lemma InactiveWithoutFlag(u: Record)
    requires "active" !in u
    ensures !IsActive(Some(u))
  {
    assert ActiveText(u) == Norm("");
  }

  /** Only the normalised text counts: surrounding whitespace is ignored. */
  lemma ActivePadding(u: Record, p: string, s: string, q: string)
    requires AllSpace(p) && AllSpace(q)
    ensures IsActive(Some(u["active" := Str(p + s + q)])) <==> IsActive(Some(u["active" := Str(s)]))
  {
    NormPadded(p, s, q);
  }

  /** Setting `active` to `c` makes the normalised flag `Norm(str(c))`. */
  lemma ActiveTextOf(u: Record, c: Cell)
    ensures ActiveText(u["active" := c]) == Norm(PyStr(c))
    ensures u["active" := c] != map[]
  {
    assert "active" in u["active" := c];
  }

  lemma NormTrueText()
    ensures Norm(PyStr(Bool(true))) == "true" && Norm(PyStr(Bool(false))) == "false"
  {
    StripNoop("True");
    StripNoop("False");
  }

  lemma NormNumberText()
    ensures Norm(PyStr(Int(1))) == "1" && Norm(PyStr(Int(0))) == "0"
  {
    assert PyStr(Int(1)) == "1" && PyStr(Int(0)) == "0";
    NormNoop("1");
    NormNoop("0");
  }

  lemma StripDa()
    ensures Strip(" Да ") == "Да"
  {
    assert " Да " == " " + "Да" + " ";
    StripPadded(" ", "Да", " ");
    StripNoop("Да");
  }

  lemma NormDaText()
    ensures Norm(" Да ") == "да"
  {
    StripDa();
    assert Lower("Да") == "да";
  }

  lemma NormYesText()
    ensures Norm("YES") == "yes"
  {
    StripNoop("YES");
    assert Lower("YES") == "yes";
  }

  /** A TRUE checkbox cell is active. */
  lemma ActiveTrue(u: Record)
    ensures IsActive(Some(u["active" := Bool(true)]))
  {
    ActiveTextOf(u, Bool(true));
    NormTrueText();
  }

  /** A FALSE checkbox cell is not. */
  lemma InactiveFalse(u: Record)
    ensures !IsActive(Some(u["active" := Bool(false)]))
  {
    ActiveTextOf(u, Bool(false));
    NormTrueText();
  }

  /** The number 1 is active. */
  lemma ActiveOne(u: Record)
    ensures IsActive(Some(u["active" := Int(1)]))
  {
    ActiveTextOf(u, Int(1));
    NormNumberText();
  }

  /** The number 0 is not. */
  lemma InactiveZero(u: Record)
    ensures !IsActive(Some(u["active" := Int(0)]))
  {
    ActiveTextOf(u, Int(0));
    NormNumberText();
  }

  /** The Russian "да" counts, with any spacing and case. */
  lemma ActiveDa(u: Record)
    ensures IsActive(Some(u["active" := Str(" Да ")]))
  {
    ActiveTextOf(u, Str(" Да "));
    NormDaText();
  }

  /** "YES" in capitals counts. */
  lemma ActiveYes(u: Record)
    ensures IsActive(Some(u["active" := Str("YES")]))
  {
    ActiveTextOf(u, Str("YES"));
    NormYesText();
  }

  /** "no" is not a token. */
  lemma InactiveNo(u: Record)
    ensures !IsActive(Some(u["active" := Str("no")]))
  {
    ActiveTextOf(u, Str("no"));
    NormNoop("no");
  }

  // ---------- names, groups and the request payload ----------

  /** `s.split("@")[0]`: the text before the first "@". */
  function BeforeAt(s: string): string {
    if s == [] || s[0] == '@' then [] else [s[0]] + BeforeAt(s[1..])
  }

  /** BeforeAt is the longest prefix without "@". */
  lemma {:induction false} BeforeAtSpec(s: string)
    ensures var b := BeforeAt(s);
            && |b| <= |s| && b == s[..|b|] && '@' !in b
            && (|b| < |s| ==> s[|b|] == '@')
  {
    if s != [] && s[0] != '@' {
      BeforeAtSpec(s[1..]);
      assert BeforeAt(s) == [s[0]] + BeforeAt(s[1..]);
    }
  }

  /** The name `auth` gets: `user.get("name") or name or email.split("@")[0]`. */
  function DisplayName(u: Record, name: string, email: string): Cell {
    CellOr(GetOr(u, "name", Null), CellOr(Str(name), Str(BeforeAt(email))))
  }

  /** The name falls back from the sheet, to the typed name, to the email's
      local part, taking the first that is non-empty. */
  lemma DisplayNameFallback(u: Record, name: string, email: string)
    ensures CellTruthy(GetOr(u, "name", Null)) ==> DisplayName(u, name, email) == GetOr(u, "name", Null)
    ensures !CellTruthy(GetOr(u, "name", Null)) && name != "" ==> DisplayName(u, name, email) == Str(name)
    ensures !CellTruthy(GetOr(u, "name", Null)) && name == "" ==> DisplayName(u, name, email) == Str(BeforeAt(email))
    ensures !CellTruthy(DisplayName(u, name, email)) <==>
              !CellTruthy(GetOr(u, "name", Null)) && name == "" && (email == [] || email[0] == '@')
  {
  }

  /** The group code of a sign-up or dashboard group choice. */
  function GroupCode(choice: string): (code: string)
    ensures code == "junior" || code == "senior"
    ensures code == "junior" <==> choice == "Младшая"
  {
    if choice == "Младшая" then "junior" else "senior"
  }

  function HexDigit(d: nat): (c: char)
    requires d < 16
  {
    if d < 10 then ('0' as int + d) as char else ('a' as int + d - 10) as char
  }

  function HexValue(c: char): int {
    if '0' <= c <= '9' then c as int - '0' as int
    else if 'a' <= c <= 'f' then c as int - 'a' as int + 10
    else if 'A' <= c <= 'F' then c as int - 'A' as int + 10
    else -1
  }

  /** How `json.dumps(..., ensure_ascii=False)` writes one character inside a
      string: quote and backslash escaped, the five short control escapes,
      the other control characters as `\u00XX`, everything else as it is. */
  function EscapeChar(c: char): string {
    if c == '"' then "\\\""
    else if c == '\\' then "\\\\"
    else if c == '\n' then "\\n"
    else if c == '\r' then "\\r"
    else if c == '\t' then "\\t"
    else if c == '\U{8}' then "\\b"
    else if c == '\U{C}' then "\\f"
    else if c < ' ' then ['\\', 'u', '0', '0', HexDigit(c as int / 16), HexDigit(c as int % 16)]
    else [c]
  }

  function Escape(s: string): string {
    if s == [] then [] else EscapeChar(s[0]) + Escape(s[1..])
  }

  /** A JSON string literal. */
  function JsonString(s: string): string {
    "\"" + Escape(s) + "\""
  }

  /** `json.dumps({"group": group, "comment": comment}, ensure_ascii=False)`. */
  function RequestJson(group: string, comment: string): string {
    "{\"group\": " + JsonString(group) + ", \"comment\": " + JsonString(comment) + "}"
  }

  /** The character a short escape `\x` stands for. */
  function ShortEscape(x: char): Option<char> {
    if x == '"' then Some('"')
    else if x == '\\' then Some('\\')
    else if x == '/' then Some('/')
    else if x == 'n' then Some('\n')
    else if x == 'r' then Some('\r')
    else if x == 't' then Some('\t')
    else if x == 'b' then Some('\U{8}')
    else if x == 'f' then Some('\U{C}')
    else None
  }

  /** Decoding the inside of a JSON string (section 7 of RFC 8259, without
      surrogate pairs): None for a raw quote or control character or a bad
      escape. */
  function Unescape(t: string): Option<string>
    decreases |t|
  {
    if t == [] then Some([])
    else if t[0] == '\\' then
      if |t| >= 2 && ShortEscape(t[1]).Some? then
        match Unescape(t[2..])
        case Some(rest) => Some([ShortEscape(t[1]).value] + rest)
        case None => None
      else if |t| >= 6 && t[1] == 'u' && HexValue(t[2]) >= 0 && HexValue(t[3]) >= 0 && HexValue(t[4]) >= 0 && HexValue(t[5]) >= 0 then
        var v := HexValue(t[2]) * 4096 + HexValue(t[3]) * 256 + HexValue(t[4]) * 16 + HexValue(t[5]);
        if v < 0xD800 || 0xE000 <= v then
          match Unescape(t[6..])
          case Some(rest) => Some([v as char] + rest)
          case None => None
        else None
      else None
    else if t[0] == '"' || t[0] < ' ' then None
    else
      match Unescape(t[1..])
      case Some(rest) => Some([t[0]] + rest)
      case None => None
  }

  /** Decoding undoes one escaped character. */
  lemma UnescapeChar(c: char, rest: string)
    ensures Unescape(EscapeChar(c) + rest)
         == match Unescape(rest) case Some(r) => Some([c] + r) case None => None
  {
    var e := EscapeChar(c);
    var t := e + rest;
    if c < ' ' && c != '\n' && c != '\r' && c != '\t' && c != '\U{8}' && c != '\U{C}' {
      var hi := c as int / 16;
      var lo := c as int % 16;
      assert hi < 2;
      assert HexValue(HexDigit(hi)) == hi && HexValue(HexDigit(lo)) == lo;
      assert t[2] == '0' && t[3] == '0' && t[4] == HexDigit(hi) && t[5] == HexDigit(lo);
      assert t[6..] == rest;
      assert HexValue(t[2]) * 4096 + HexValue(t[3]) * 256 + HexValue(t[4]) * 16 + HexValue(t[5]) == c as int;
    } else if |e| == 2 {
      assert t[2..] == rest;
    } else {
      assert t[1..] == rest;
    }
  }

  /** The payload text decodes back to what was written: escaping loses
      nothing. */
  lemma {:induction false} EscapeRoundTrip(s: string)
    ensures Unescape(Escape(s)) == Some(s)
  {
    if s != [] {
      EscapeRoundTrip(s[1..]);
      UnescapeChar(s[0], Escape(s[1..]));
      assert [s[0]] + s[1..] == s;
    }
  }

  /** Text without quotes, backslashes or control characters is written
      as it is. */
  lemma {:induction false} EscapePlain(s: string)
    requires forall i :: 0 <= i < |s| ==> s[i] >= ' ' && s[i] != '"' && s[i] != '\\'
    ensures Escape(s) == s
  {
    if s != [] {
      EscapePlain(s[1..]);
      assert [s[0]] + s[1..] == s;
    }
  }

  // ---------- the session state ----------

  /** A value stored in `st.session_state`. */
  datatype Entry = Flag(b: bool) | Text(s: string) | Val(c: Cell) | Auth(email: string, name: Cell)

  type State = map<string, Entry>

  predicate EntryTruthy(e: Entry) {
    match e
    case Flag(b) => b
    case Text(s) => s != ""
    case Val(c) => CellTruthy(c)
    case Auth(_, _) => true
  }

  /** `bool(st.session_state.get(key))`. */
  predicate IsSet(s: State, key: string) {
    key in s && EntryTruthy(s[key])
  }

  /** `bool(user)`: a user record was found (and has fields). */
  predicate Found(u: Option<Record>) {
    u.Some? && u.value != map[]
  }

  /** `name or (user.get("name", "") if user else "")`. */
  function SignupName(u: Option<Record>, name: string): Cell {
    if name != "" then Str(name) else if Found(u) then GetOr(u.value, "name", Str("")) else Str("")
  }

  /** The keys the sign-up flow uses. */
  const SignupKeys: set<string> := {"signup_mode", "signup_email", "signup_name", "signup_known", "signup_open", "signup_success", "signup_error"}

  /** The session after a valid login attempt whose email normalised to `em`
      and whose lookup returned `user`. */
  function AfterLogin(s: State, em: string, user: Option<Record>, name: string): State {
    if Found(user) && IsActive(user) then
      s["auth" := Auth(em, DisplayName(user.value, name, em))]
    else
      s["signup_mode" := Flag(true)]["signup_email" := Text(em)]["signup_name" := Val(SignupName(user, name))]
       ["signup_known" := Flag(Found(user))]["signup_open" := Flag(true)]
  }

  /** An active user is signed in with the normalised email, and no sign-up
      key changes. */
  lemma LoginActive(s: State, em: string, user: Option<Record>, name: string)
    requires IsActive(user)
    ensures var t := AfterLogin(s, em, user, name);
            && t["auth"] == Auth(em, DisplayName(user.value, name, em))
            && t.Keys == s.Keys + {"auth"}
            && forall k :: k in s && k != "auth" ==> t[k] == s[k]
  {
  }

  /** Anyone else is sent to sign-up mode: sign-up is open with the
      normalised email and the prefilled name, `signup_known` says whether a
      (necessarily inactive) record was found, and no key but those five is
      written (`auth` and the two sign-up messages included). */
  lemma LoginSignup(s: State, em: string, user: Option<Record>, name: string)
    requires !IsActive(user)
    ensures var t := AfterLogin(s, em, user, name);
            && ("auth" in t <==> "auth" in s) && ("auth" in s ==> t["auth"] == s["auth"])
            && t["signup_mode"] == Flag(true) && t["signup_open"] == Flag(true)
            && t["signup_email"] == Text(em)
            && t["signup_name"] == Val(SignupName(user, name))
            && t["signup_known"] == Flag(Found(user))
            && (t["signup_known"].b ==> user.Some? && !IsActive(user))
            && t.Keys == s.Keys + {"signup_mode", "signup_email", "signup_name", "signup_known", "signup_open"}
            && forall k :: k in s && k !in {"signup_mode", "signup_email", "signup_name", "signup_known", "signup_open"} ==> t[k] == s[k]
  {
  }

  /** The session after a sign-up submit whose write succeeded (`ok`) or raised. */
  function AfterSignup(s: State, ok: bool): State {
    (if ok then s["signup_success" := Flag(true)] else s["signup_error" := Flag(true)])
      ["signup_open" := Flag(true)]["signup_mode" := Flag(false)]
  }

  /** After `login_view` has popped both messages, a sign-up submit leaves
      exactly one of them set: success iff the write succeeded. */
  lemma SignupExactlyOne(s: State, ok: bool)
    requires "signup_success" !in s && "signup_error" !in s
    ensures var t := AfterSignup(s, ok);
            && (IsSet(t, "signup_success") <==> ok)
            && (IsSet(t, "signup_error") <==> !ok)
  {
  }

  /** The messages popped at the top of `login_view`, then a sign-up submit
      in the same run: exactly one message is pending for the next run. */
  lemma SignupAfterPop(s: State, ok: bool)
    ensures var t := AfterSignup(s - {"signup_success", "signup_error"}, ok);
            && (IsSet(t, "signup_success") <==> ok)
            && (IsSet(t, "signup_error") <==> !ok)
  {
    SignupExactlyOne(s - {"signup_success", "signup_error"}, ok);
  }

  /** A sign-up submit sets the flag of its outcome, leaves the other flag as
      it was, ends sign-up mode, keeps the block open and changes nothing
      else. */
  lemma SignupOutcome(s: State, ok: bool)
    ensures var t := AfterSignup(s, ok);
            && (ok ==> t["signup_success"] == Flag(true) && ("signup_error" in t <==> "signup_error" in s))
            && (!ok ==> t["signup_error"] == Flag(true) && ("signup_success" in t <==> "signup_success" in s))
            && t["signup_mode"] == Flag(false) && t["signup_open"] == Flag(true)
            && !IsSet(t, "signup_mode")
            && forall k :: k in s && k != "signup_success" && k != "signup_error" && k != "signup_open" && k != "signup_mode" ==> t[k] == s[k]
  {
  }

  /** `st.session_state.get("signup_email", "")`. */
  function SignupEmail(s: State): string {
    if "signup_email" in s && s["signup_email"].Text? then s["signup_email"].s else ""
  }

  /** The `signup` row: time, name, email and the request payload. */
  function SignupRow(now: string, sName: string, email: string, sGroup: string, sComment: string): seq<Cell> {
    [Str(now), Str(sName), Str(email), Str(RequestJson(GroupCode(sGroup), sComment))]
  }

  /** The sign-up row carries the email the login normalised. */
  lemma SignupCarriesLoginEmail(s: State, em: string, user: Option<Record>, name: string)
    requires !IsActive(user)
    ensures IsSet(AfterLogin(s, em, user, name), "signup_mode")
    ensures SignupEmail(AfterLogin(s, em, user, name)) == em
  {
  }

  /** The `results` row: time, email, subject code, score, total, answers. */
  function ResultRow(now: string, email: string, code: string, score: nat, total: nat, answersText: string): seq<Cell> {
    [Str(now), Str(email), Str(code), Int(score), Int(total), Str(answersText)]
  }

  /** A result row holds the signed-in email in the column the results
      header names `email`. */
  lemma ResultRowEmail(ws: Worksheet, now: string, email: string, code: string, score: nat, total: nat, answersText: string)
    requires ws.grid != [] && ws.grid[0] == HeaderRow(HEADERS["results"])
    ensures RecordEmail(RecordOf(HeaderKeys(ws), ResultRow(now, email, code, score, total, answersText))) == Norm(email)
  {
    ResultsEmailColumn(ws, ResultRow(now, email, code, score, total, answersText));
  }

  /** A saved result raises the signed-in user's `count_results` by exactly
      one, whenever the results sheet carries the standard header. */
  lemma ResultRaisesCount(book: Book, now: string, email: string, code: string, score: nat, total: nat, answersText: string)
    requires var ws := EnsureSheet(book, "results", HeadersFor("results"))["results"];
             ws.grid != [] && ws.grid[0] == HeaderRow(HEADERS["results"])
    ensures var before := EnsureSheet(book, "results", HeadersFor("results"))["results"];
            var after := AfterAppend(book, "results", ResultRow(now, email, code, score, total, answersText))["results"];
            CountEmail(Records(after), email) == CountEmail(Records(before), email) + 1
  {
    var before := EnsureSheet(book, "results", HeadersFor("results"))["results"];
    var row := ResultRow(now, email, code, score, total, answersText);
    AppendThenCount(book, row, email);
    ResultRowEmail(before, now, email, code, score, total, answersText);
  }

  class Session {
    var state: State

    /** A fresh session. */
    constructor()
      ensures state == map[]
    {
      state := map[];
    }

    /** The start of `login_view`: pop and return the sign-up outcome flags. */
    method PopSignupMessages() returns (success: bool, error: bool)
      modifies this
      ensures success == IsSet(old(state), "signup_success")
      ensures error == IsSet(old(state), "signup_error")
      ensures state == old(state) - {"signup_success", "signup_error"}
    {
      success := IsSet(state, "signup_success");
      state := state - {"signup_success"};
      error := IsSet(state, "signup_error");
      state := state - {"signup_error"};
    }

    /** The login form submitted with `email` and `name`; `script` gives the
        outcomes of the users-sheet reads. */
    method LoginSubmit(sheets: Sheets, email: string, name: string, script: seq<ReadOutcome>)
      requires |DefaultDelays| < |script|
      modifies this, sheets
      ensures '@' !in Norm(email) ==> state == old(state) && sheets.book == old(sheets.book)
      ensures '@' in Norm(email) ==>
                && sheets.book == EnsureSheet(old(sheets.book), "users", Some(HEADERS["users"]))
                && state == AfterLogin(old(state), Norm(email),
                                       FindUser(RetryRows(sheets.book["users"], DefaultDelays, script), Norm(email)), name)
    {
      var emailNorm := Norm(email);
      if '@' !in emailNorm {
        return;
      }
      var user := sheets.GetUser(emailNorm, script);
      if Found(user) && IsActive(user) {
        state := state["auth" := Auth(emailNorm, DisplayName(user.value, name, emailNorm))];
      } else {
        state := state["signup_mode" := Flag(true)];
        state := state["signup_email" := Text(emailNorm)];
        state := state["signup_name" := Val(SignupName(user, name))];
        state := state["signup_known" := Flag(Found(user))];
        state := state["signup_open" := Flag(true)];
      }
    }

    /** The sign-up form submitted in sign-up mode; `writeOk` says whether
        `append_row` returned or raised (a failed write changes no sheet). */
    method SignupSubmit(sheets: Sheets, sName: string, sGroup: string, sComment: string, now: string, writeOk: bool)
      requires IsSet(state, "signup_mode")
      modifies this, sheets
      ensures sheets.book == if writeOk then AfterAppend(old(sheets.book), "signup", SignupRow(now, sName, SignupEmail(old(state)), sGroup, sComment))
                             else old(sheets.book)
      ensures state == AfterSignup(old(state), writeOk)
    {
      var emailNorm := SignupEmail(state);
      var payload := RequestJson(GroupCode(sGroup), sComment);
      if writeOk {
        sheets.AppendRow("signup", [Str(now), Str(sName), Str(emailNorm), Str(payload)]);
        state := state["signup_success" := Flag(true)];
      } else {
        state := state["signup_error" := Flag(true)];
      }
      state := state["signup_open" := Flag(true)];
      state := state["signup_mode" := Flag(false)];
    }

    /** One subject tab of `dashboard_view` for the signed-in user: the form
        is rendered over `inputs`, and a results row is attempted only when
        the total is non-zero (`answersText` is the JSON text of the
        answers, `writeOk` whether the write returned). */
    method DashboardTab(sheets: Sheets, code: string, questions: seq<Question>, inputs: seq<string>, submitted: bool,
                        now: string, answersText: string, writeOk: bool)
      returns (score: nat, total: nat, saved: bool)
      requires "auth" in state && state["auth"].Auth?
      requires |inputs| == |questions|
      requires forall i :: 0 <= i < |questions| ==> questions[i].qid.Plain?
      modifies sheets
      ensures questions == [] || !submitted || (forall i :: 0 <= i < |questions| ==> IsOpen(questions[i])) ==>
                !saved && sheets.book == old(sheets.book)
      ensures saved <==> total != 0 && writeOk
      ensures sheets.book == if saved then AfterAppend(old(sheets.book), "results", ResultRow(now, state["auth"].email, code, score, total, answersText))
                             else old(sheets.book)
      ensures questions != [] && submitted ==> total == TotalMcq(questions) && score <= total
      ensures questions != [] && submitted ==> score == Score(questions, CollectAnswers(questions, inputs))
    {
      if questions == [] {
        return 0, 0, false;
      }
      var answers;
      score, total, answers := RenderTestForm(questions, inputs, submitted);
      TotalMcqZero(questions);
      saved := false;
      if total != 0 {
        if writeOk {
          sheets.AppendRow("results", ResultRow(now, state["auth"].email, code, score, total, answersText));
          saved := true;
        }
      }
    }
  }
}
