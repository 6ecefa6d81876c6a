/** The quiz bank (tests_core.py): normalising loosely typed sheet rows into
    questions, bucketing them by subject with an optional group filter,
    ordering each bucket by question id, and scoring a submitted quiz form. */
module TestsCore {
  import opened PyValues
  import SheetsBackend

  /** The four option labels of a multiple-choice question. */
  const Labels: set<string> := {"a", "b", "c", "d"}

  /** A question in canonical form, as `_normalize_row` builds it. Subject and
      qid are passed through from the row unchanged. */
  datatype Question = Question(
    subject: Field,
    qid: Field,
    text: string,
    options: map<string, string>,
    correct: string,
    group: string,
    qtype: string)

  // ---------- _normalize_row ----------

  /** A truthy flat option column is a scalar: `str()` of a dict-valued
      column (its Python repr) is not part of this model. */
  predicate FlatOptionOk(r: Row, k: string) {
    Truthy(Get(r, k)) ==> Get(r, k).Plain?
  }

  /** The rows this model normalises: the text, type, correct and group
      fields, after `or ""`, are strings (`_normalize_row` calls `.strip()`
      on them, which raises otherwise), and a flat option used for `options`
      is a scalar (the repr of a dict value is not modelled). */
  predicate Normalizable(r: Row) {
    && IsStr(OrEmpty(Or(Get(r, "text"), Get(r, "question"))))
    && IsStr(OrEmpty(Get(r, "type")))
    && IsStr(OrEmpty(Get(r, "correct")))
    && IsStr(OrEmpty(Get(r, "group")))
    && (!Get(r, "options").Nested? ==>
          FlatOptionOk(r, "a") && FlatOptionOk(r, "b") && FlatOptionOk(r, "c") && FlatOptionOk(r, "d"))
  }

  /** `any(flat_opts.values())`: some flat option column is truthy. */
  predicate AnyFlatOption(r: Row) {
    Truthy(Get(r, "a")) || Truthy(Get(r, "b")) || Truthy(Get(r, "c")) || Truthy(Get(r, "d"))
  }

  /** The explicit type, stripped and lower-cased ("" when absent). */
  function ExplicitType(r: Row): string
    requires IsStr(OrEmpty(Get(r, "type")))
  {
    Norm(TextOf(OrEmpty(Get(r, "type"))))
  }

  /** The question type: an explicit "mcq" or "open" is kept, any other
      explicit value becomes "mcq", and an absent type is inferred from the
      flat option columns. */
  function QuestionType(r: Row): (t: string)
    requires IsStr(OrEmpty(Get(r, "type")))
    ensures t == "mcq" || t == "open"
    ensures ExplicitType(r) != "" ==> t == (if ExplicitType(r) == "open" then "open" else "mcq")
    ensures ExplicitType(r) == "" ==> (t == "open" <==> !AnyFlatOption(r))
  {
    var t0 := ExplicitType(r);
    var t1 := if t0 == "" then (if !AnyFlatOption(r) then "open" else "mcq") else t0;
    if t1 == "mcq" || t1 == "open" then t1 else "mcq"
  }

  /** The text of option `k`: from the `options` dict when the row has one,
      otherwise from the flat column; a missing or falsy value gives "". */
  function OptionText(r: Row, k: string): string
    requires Normalizable(r)
    requires k in Labels
  {
    var opts := Get(r, "options");
    if opts.Nested? then
      var c := if k in opts.entries then opts.entries[k] else Null;
      if CellTruthy(c) then PyStr(c) else ""
    else
      var f := Get(r, k);
      if Truthy(f) then PyStr(f.cell) else ""
  }

  /** The invariants every normalised question satisfies. */
  predicate Canonical(q: Question) {
    && (q.qtype == "mcq" || q.qtype == "open")
    && q.options.Keys == Labels
    && (q.correct == "" || q.correct in Labels)
    && (q.qtype == "open" ==> q.correct == "")
    && Strip(q.text) == q.text
    && Norm(q.group) == q.group
  }

  /** `_normalize_row`. */
  function NormalizeRow(r: Row): Question
    requires Normalizable(r)
  {
    var text := Strip(TextOf(OrEmpty(Or(Get(r, "text"), Get(r, "question")))));
    var qtype := QuestionType(r);
    var correct := Norm(TextOf(OrEmpty(Get(r, "correct"))));
    Question(
      Get(r, "subject"),
      Get(r, "qid"),
      text,
      map["a" := OptionText(r, "a"), "b" := OptionText(r, "b"),
          "c" := OptionText(r, "c"), "d" := OptionText(r, "d")],
      if qtype == "mcq" then (if correct in Labels then correct else "") else "",
      Norm(TextOf(OrEmpty(Get(r, "group")))),
      qtype)
  }

  /** What `_normalize_row` guarantees: the question is canonical; subject
      and qid are the row's own; the type follows QuestionType; each option
      is OptionText; the correct label is the stripped, lower-cased input when
      that is a label of a multiple-choice question and "" otherwise. */
  lemma NormalizeRowSpec(r: Row)
    requires Normalizable(r)
    ensures var q := NormalizeRow(r);
            && Canonical(q)
            && q.subject == Get(r, "subject") && q.qid == Get(r, "qid")
            && q.qtype == QuestionType(r)
            && (forall k :: k in Labels ==> q.options[k] == OptionText(r, k))
            && q.correct == (if q.qtype == "mcq" && Norm(TextOf(OrEmpty(Get(r, "correct")))) in Labels
                             then Norm(TextOf(OrEmpty(Get(r, "correct")))) else "")
            && q.text == Strip(TextOf(OrEmpty(Or(Get(r, "text"), Get(r, "question")))))
            && q.group == Norm(TextOf(OrEmpty(Get(r, "group"))))
  {
    StripIdempotent(TextOf(OrEmpty(Or(Get(r, "text"), Get(r, "question")))));
    NormIdempotent(TextOf(OrEmpty(Get(r, "group"))));
  }

  /** A question written back as a row with its fields as strings and its
      options as a dict. */
  function ToRow(q: Question): Row {
    map["subject" := q.subject, "qid" := q.qid, "text" := Plain(Str(q.text)),
        "options" := Nested(map k | k in q.options :: Str(q.options[k])),
        "correct" := Plain(Str(q.correct)), "group" := Plain(Str(q.group)),
        "type" := Plain(Str(q.qtype))]
  }

  /** The option labels and the type names are already normalised. */
  lemma NormalWords(s: string)
    requires s in Labels || s == "mcq" || s == "open" || s == ""
    ensures Norm(s) == s
  {
    if s != "" {
      NormNoop(s);
    }
  }

  /** The fields `_normalize_row` reads from a written-back question. */
  lemma ToRowFields(q: Question)
    ensures var r := ToRow(q);
            && Get(r, "subject") == q.subject && Get(r, "qid") == q.qid
            && Get(r, "text") == Plain(Str(q.text)) && Get(r, "question") == Plain(Null)
            && Get(r, "type") == Plain(Str(q.qtype)) && Get(r, "correct") == Plain(Str(q.correct))
            && Get(r, "group") == Plain(Str(q.group))
            && Get(r, "options") == Nested(map k | k in q.options :: Str(q.options[k]))
  {
  }

  /** A written-back canonical question can be normalised. */
  lemma ToRowNormalizable(q: Question)
    requires Canonical(q)
    ensures Normalizable(ToRow(q))
  {
    ToRowFields(q);
  }

  /** The options of a written-back canonical question read back unchanged. */
  lemma ToRowOptions(q: Question)
    requires Canonical(q)
    ensures Normalizable(ToRow(q))
    ensures forall k :: k in Labels ==> OptionText(ToRow(q), k) == q.options[k]
  {
    ToRowNormalizable(q);
    ToRowFields(q);
    var r := ToRow(q);
    forall k | k in Labels
      ensures OptionText(r, k) == q.options[k]
    {
      assert Get(r, "options").entries[k] == Str(q.options[k]);
    }
  }

  /** The type of a written-back canonical question reads back unchanged. */
  lemma ToRowType(q: Question)
    requires Canonical(q)
    ensures Normalizable(ToRow(q)) && QuestionType(ToRow(q)) == q.qtype
  {
    ToRowNormalizable(q);
    ToRowFields(q);
    NormalWords(q.qtype);
    assert ExplicitType(ToRow(q)) == q.qtype;
  }

  /** Normalisation is a projection: a canonical question, written back as a
      row, normalises to itself. In particular normalising a normalised
      question changes nothing. */
  lemma NormalizeFixpoint(q: Question)
    requires Canonical(q)
    ensures Normalizable(ToRow(q))
    ensures NormalizeRow(ToRow(q)) == q
  {
    var r := ToRow(q);
    ToRowFields(q);
    ToRowOptions(q);
    ToRowType(q);
    ToRowText(q);
    LabelMap(q.options);
    assert OptionText(r, "a") == q.options["a"] && OptionText(r, "b") == q.options["b"];
    assert OptionText(r, "c") == q.options["c"] && OptionText(r, "d") == q.options["d"];
  }

  /** A map over exactly the four labels is its own four-entry display. */
  lemma LabelMap(m: map<string, string>)
    requires m.Keys == Labels
    ensures m == map["a" := m["a"], "b" := m["b"], "c" := m["c"], "d" := m["d"]]
  {
  }

  /** The text, correct label and group of a written-back canonical question
      read back unchanged. */
  lemma ToRowText(q: Question)
    requires Canonical(q)
    ensures Normalizable(ToRow(q))
    ensures var r := ToRow(q);
            && Strip(TextOf(OrEmpty(Or(Get(r, "text"), Get(r, "question"))))) == q.text
            && Norm(TextOf(OrEmpty(Get(r, "correct")))) == q.correct
            && Norm(TextOf(OrEmpty(Get(r, "group")))) == q.group
  {
    ToRowNormalizable(q);
    ToRowFields(q);
    NormalWords(q.correct);
  }

  /** A flat row: option columns a..d, no options dict, no type. */
  function FlatExampleRow(): Row {
    map["subject" := Plain(Str("math")), "qid" := Plain(Str("3")),
        "a" := Plain(Str("2")), "b" := Plain(Str("3")), "c" := Plain(Str("4")),
        "d" := Plain(Str("5")), "correct" := Plain(Str("B"))]
  }

  /** Normalising the flat row: option b is "3", the correct label "B"
      becomes "b", and the type is inferred as "mcq". */
  lemma NormalizeExample()
    ensures Normalizable(FlatExampleRow())
    ensures NormalizeRow(FlatExampleRow()).options["b"] == "3"
    ensures NormalizeRow(FlatExampleRow()).correct == "b"
    ensures NormalizeRow(FlatExampleRow()).qtype == "mcq"
  {
    var r := FlatExampleRow();
    FlatExampleFields();
    NormB();
    assert Norm("") == "";
    assert ExplicitType(r) == "";
    assert QuestionType(r) == "mcq";
    assert OptionText(r, "b") == "3";
  }

  /** The fields of the flat example row that normalisation reads. */
  lemma FlatExampleFields()
    ensures var r := FlatExampleRow();
            && Get(r, "text") == Plain(Null) && Get(r, "question") == Plain(Null)
            && Get(r, "type") == Plain(Null) && Get(r, "group") == Plain(Null)
            && Get(r, "options") == Plain(Null)
            && Get(r, "a") == Plain(Str("2")) && Get(r, "b") == Plain(Str("3"))
            && Get(r, "correct") == Plain(Str("B"))
            && Normalizable(r) && AnyFlatOption(r)
  {
  }

  lemma NormB()
    ensures Norm("B") == "b"
  {
    StripNoop("B");
    assert Lower("B") == "b";
  }

  // ---------- load_subjects_from_sheet ----------

  /** The group filter: a question is dropped only when a group code is
      given, the question has a group of its own, and the two differ. */
  predicate PassesGroup(q: Question, groupCode: Option<string>) {
    !(groupCode.Some? && groupCode.value != "" && q.group != "" && q.group != groupCode.value)
  }

  predicate HasSubjectText(q: Question) {
    IsStr(OrEmpty(q.subject))
  }

  /** The bucket a question goes to: its subject, stripped (blank when the
      subject is not text, a case in which the source raises and which
      `Loadable` excludes). */
  function SubjectKey(q: Question): string {
    if HasSubjectText(q) then Strip(TextOf(OrEmpty(q.subject))) else ""
  }

  /** Whether a question survives the loader's two tests (group, then subject). */
  predicate Kept(q: Question, groupCode: Option<string>) {
    PassesGroup(q, groupCode) && HasSubjectText(q) && SubjectKey(q) != ""
  }

  /** A qid the sort key can compare: an int, or None. */
  predicate SortableQid(q: Question) {
    q.qid == Plain(Null) || (q.qid.Plain? && q.qid.cell.Int?)
  }

  /** The rows, normalised one by one. */
  function Normalized(rows: seq<Row>): (qs: seq<Question>)
    requires forall i :: 0 <= i < |rows| ==> Normalizable(rows[i])
    ensures |qs| == |rows|
    ensures forall i :: 0 <= i < |rows| ==> qs[i] == NormalizeRow(rows[i])
  {
    seq(|rows|, i requires 0 <= i < |rows| => NormalizeRow(rows[i]))
  }

  /** What the loader needs of its rows to run without raising: every row
      normalises, a question that passes the group filter has a string (or
      falsy) subject, and a kept question has an int or None qid (mixed-type
      qids make Python's sort raise; a bucket of text qids alone, which
      Python sorts as strings, is excluded too). */
  predicate Loadable(rows: seq<Row>, groupCode: Option<string>) {
    && (forall i :: 0 <= i < |rows| ==> Normalizable(rows[i]))
    && var qs := Normalized(rows);
       forall i :: 0 <= i < |qs| ==>
         && (PassesGroup(qs[i], groupCode) ==> HasSubjectText(qs[i]))
         && (Kept(qs[i], groupCode) ==> SortableQid(qs[i]))
  }

  /** The kept questions with subject key `k`, in input order. */
  function Selected(qs: seq<Question>, groupCode: Option<string>, k: string): seq<Question> {
    if qs == [] then []
    else
      var n := |qs| - 1;
      Selected(qs[..n], groupCode, k)
      + if PassesGroup(qs[n], groupCode) && SubjectKey(qs[n]) == k && k != "" then [qs[n]] else []
  }

  /** One step of the loader's first loop: a question that passes the group
      filter and has a non-blank subject key is appended to that key's list. */
  function AddQuestion(buckets: map<string, seq<Question>>, q: Question, groupCode: Option<string>): map<string, seq<Question>> {
    if PassesGroup(q, groupCode) && SubjectKey(q) != "" then
      var subj := SubjectKey(q);
      buckets[subj := (if subj in buckets then buckets[subj] else []) + [q]]
    else buckets
  }

  /** The map the loader's first loop builds from `qs`. */
  function Buckets(qs: seq<Question>, groupCode: Option<string>): map<string, seq<Question>> {
    if qs == [] then map[] else AddQuestion(Buckets(qs[..|qs| - 1], groupCode), qs[|qs| - 1], groupCode)
  }

  /** The buckets are exactly the non-empty selections: the loop groups the
      kept questions by key and keeps their input order. */
  lemma {:induction false} BucketsSelected(qs: seq<Question>, groupCode: Option<string>)
    ensures forall k :: k in Buckets(qs, groupCode) <==> Selected(qs, groupCode, k) != []
    ensures forall k :: k in Buckets(qs, groupCode) ==> Buckets(qs, groupCode)[k] == Selected(qs, groupCode, k)
  {
    if qs != [] {
      BucketsSelected(qs[..|qs| - 1], groupCode);
    }
  }

  /** Every question in a bucket is a kept question whose subject key is the
      bucket's key; the empty key has no bucket. */
  lemma {:induction false} SelectedSound(qs: seq<Question>, groupCode: Option<string>, k: string, q: Question)
    requires q in Selected(qs, groupCode, k)
    ensures k != "" && q in qs && Kept(q, groupCode) && SubjectKey(q) == k
  {
    var n := |qs| - 1;
    if !(PassesGroup(qs[n], groupCode) && SubjectKey(qs[n]) == k && k != "" && q == qs[n]) {
      SelectedSound(qs[..n], groupCode, k, q);
      assert q in qs[..n];
    }
  }

  /** Every kept question is in the bucket of its subject key. */
  lemma {:induction false} SelectedComplete(qs: seq<Question>, groupCode: Option<string>, i: nat)
    requires i < |qs| && Kept(qs[i], groupCode)
    ensures qs[i] in Selected(qs, groupCode, SubjectKey(qs[i]))
  {
    var n := |qs| - 1;
    if i < n {
      assert qs[..n][i] == qs[i];
      SelectedComplete(qs[..n], groupCode, i);
    }
  }

  // ---------- ordering by qid ----------

  /** The int qid of a question, or None for any other qid. */
  function QidKey(q: Question): Option<int> {
    if q.qid.Plain? && q.qid.cell.Int? then Some(q.qid.cell.n) else None
  }

  /** The order of the sort key `(qid is None, qid)`: int qids ascending, then
      the missing ones. */
  predicate KeyLe(x: Question, y: Question) {
    if QidKey(x).Some? && QidKey(y).Some? then QidKey(x).value <= QidKey(y).value
    else QidKey(y).None?
  }

  predicate SortedByQid(s: seq<Question>) {
    forall i, j :: 0 <= i < j < |s| ==> KeyLe(s[i], s[j])
  }

  /** The questions in `s` whose sort key is `key`, in their order in `s`. */
  function WithKey(s: seq<Question>, key: Option<int>): seq<Question> {
    if s == [] then []
    else WithKey(s[..|s| - 1], key) + if QidKey(s[|s| - 1]) == key then [s[|s| - 1]] else []
  }

  /** Insert `x`, which comes after every element of `s` in the input, into
      sorted `s` after all elements with a key not above its own. */
  function Insert(s: seq<Question>, x: Question): seq<Question> {
    if s == [] then [x]
    else if KeyLe(s[|s| - 1], x) then s + [x]
    else Insert(s[..|s| - 1], x) + [s[|s| - 1]]
  }

  /** Python's stable `list.sort(key=lambda x: (x.get("qid") is None, x.get("qid")))`,
      as a stable insertion sort. */
  function SortByQid(s: seq<Question>): seq<Question> {
    if s == [] then [] else Insert(SortByQid(s[..|s| - 1]), s[|s| - 1])
  }

  /** Insertion adds exactly `x`. */
  lemma {:induction false} InsertPerm(s: seq<Question>, x: Question)
    ensures multiset(Insert(s, x)) == multiset(s) + multiset{x}
  {
    if s != [] {
      var n := |s| - 1;
      assert s == s[..n] + [s[n]];
      if !KeyLe(s[n], x) {
        InsertPerm(s[..n], x);
      }
    }
  }

  /** The sort is a permutation: it neither loses nor adds a question. */
  lemma {:induction false} SortByQidPerm(s: seq<Question>)
    ensures multiset(SortByQid(s)) == multiset(s)
  {
    if s != [] {
      var n := |s| - 1;
      assert s == s[..n] + [s[n]];
      SortByQidPerm(s[..n]);
      InsertPerm(SortByQid(s[..n]), s[n]);
    }
  }

  lemma {:induction false} InsertSorted(s: seq<Question>, x: Question)
    requires SortedByQid(s)
    ensures SortedByQid(Insert(s, x))
  {
    if s != [] {
      var n := |s| - 1;
      var last := s[n];
      if KeyLe(last, x) {
        assert forall i :: 0 <= i < |s| ==> KeyLe(s[i], x) by {
          forall i | 0 <= i < |s| ensures KeyLe(s[i], x) {
            if i < n { assert KeyLe(s[i], last); }
          }
        }
      } else {
        var front := s[..n];
        InsertSorted(front, x);
        var ins := Insert(front, x);
        InsertPerm(front, x);
        forall i | 0 <= i < |ins| ensures KeyLe(ins[i], last) {
          assert ins[i] in multiset(ins);
          if ins[i] in multiset(front) {
            var j :| 0 <= j < |front| && front[j] == ins[i];
            assert KeyLe(s[j], s[n]);
          }
        }
      }
    }
  }

  /** The result of SortByQid is ordered by the sort key. */
  lemma {:induction false} SortByQidSorted(s: seq<Question>)
    ensures SortedByQid(SortByQid(s))
  {
    if s != [] {
      SortByQidSorted(s[..|s| - 1]);
      InsertSorted(SortByQid(s[..|s| - 1]), s[|s| - 1]);
    }
  }

  lemma WithKeySnoc(s: seq<Question>, x: Question, key: Option<int>)
    ensures WithKey(s + [x], key) == WithKey(s, key) + if QidKey(x) == key then [x] else []
  {
    assert (s + [x])[..|s|] == s;
  }

  /** Inserting `x` puts it after every question with its own key. */
  lemma {:induction false} InsertWithKey(s: seq<Question>, x: Question, key: Option<int>)
    ensures WithKey(Insert(s, x), key) == WithKey(s, key) + if QidKey(x) == key then [x] else []
  {
    if s == [] {
      WithKeySnoc([], x, key);
      assert [] + [x] == [x];
    } else {
      var n := |s| - 1;
      var last := s[n];
      assert s == s[..n] + [last];
      if KeyLe(last, x) {
        WithKeySnoc(s, x, key);
      } else {
        var ins := Insert(s[..n], x);
        assert Insert(s, x) == ins + [last];
        InsertWithKey(s[..n], x, key);
        WithKeySnoc(ins, last, key);
        WithKeySnoc(s[..n], last, key);
        assert QidKey(last) != QidKey(x);
      }
    }
  }

  /** The sort is stable: the questions with any one key keep their input
      order. Together with SortByQidSorted and the multiset equality this
      pins the result down completely. */
  lemma {:induction false} SortByQidStable(s: seq<Question>, key: Option<int>)
    ensures WithKey(SortByQid(s), key) == WithKey(s, key)
  {
    if s != [] {
      var n := |s| - 1;
      SortByQidStable(s[..n], key);
      InsertWithKey(SortByQid(s[..n]), s[n], key);
    }
  }

  lemma SortPairExample(q5: Question, m1: Question)
    requires q5.qid == Plain(Int(5)) && m1.qid == Plain(Null)
    ensures SortByQid([q5, m1]) == [q5, m1]
  {
    assert [q5, m1][..1] == [q5];
    assert [q5][..0] == [];
    assert SortByQid([q5]) == [q5];
    assert KeyLe(q5, m1);
  }

  lemma InsertFrontExample(q5: Question, m1: Question, q1: Question)
    requires q5.qid == Plain(Int(5)) && q1.qid == Plain(Int(1)) && m1.qid == Plain(Null)
    ensures Insert([q5, m1], q1) == [q1, q5, m1]
  {
    assert !KeyLe(m1, q1) && !KeyLe(q5, q1);
    assert [q5, m1][..1] == [q5];
    assert [q5][..0] == [];
    assert Insert([q5], q1) == Insert([], q1) + [q5];
  }

  lemma SortTripleExample(q5: Question, m1: Question, q1: Question)
    requires q5.qid == Plain(Int(5)) && q1.qid == Plain(Int(1)) && m1.qid == Plain(Null)
    ensures SortByQid([q5, m1, q1]) == [q1, q5, m1]
  {
    assert [q5, m1, q1][..2] == [q5, m1];
    SortPairExample(q5, m1);
    InsertFrontExample(q5, m1, q1);
  }

  /** A sort example: qids [5, None, 1, None] come out as
      [1, 5, None, None], the two missing ones in their input order. */
  lemma SortExample(q5: Question, m1: Question, q1: Question, m2: Question)
    requires q5.qid == Plain(Int(5)) && q1.qid == Plain(Int(1))
    requires m1.qid == Plain(Null) && m2.qid == Plain(Null)
    ensures SortByQid([q5, m1, q1, m2]) == [q1, q5, m1, m2]
  {
    var s := [q5, m1, q1, m2];
    assert s[..3] == [q5, m1, q1];
    SortTripleExample(q5, m1, q1);
    var t := [q1, q5, m1];
    assert KeyLe(t[2], m2);
    assert Insert(t, m2) == t + [m2];
  }

  // ---------- the loader ----------

  /** `load_subjects_from_sheet` after `sheets.get_tests()` returned `rows`:
      one bucket per non-blank subject key among the kept questions, holding
      exactly that key's kept questions, stably ordered by qid. */
  method LoadSubjects(rows: seq<Row>, groupCode: Option<string>) returns (subjects: map<string, seq<Question>>)
    requires Loadable(rows, groupCode)
    ensures forall k :: k in subjects <==> Selected(Normalized(rows), groupCode, k) != []
    ensures forall k :: k in subjects ==> subjects[k] == SortByQid(Selected(Normalized(rows), groupCode, k))
  {
    var buckets := Bucket(Normalized(rows), groupCode);
    subjects := SortBuckets(buckets);
  }

  /** A record read from a sheet, as a row of scalar fields. */
  function SheetRow(r: Record): (row: Row)
    ensures row.Keys == r.Keys && forall k :: k in r ==> row[k] == Plain(r[k])
  {
    map k | k in r :: Plain(r[k])
  }

  function SheetRows(rs: seq<Record>): (rows: seq<Row>)
    ensures |rows| == |rs| && forall i :: 0 <= i < |rs| ==> rows[i] == SheetRow(rs[i])
  {
    seq(|rs|, i requires 0 <= i < |rs| => SheetRow(rs[i]))
  }

  /** `load_subjects_from_sheet(sheets, group_code)`: the tests sheet is read
      through `get_tests` (with read outcomes `script`) and its rows loaded. */
  method LoadSubjectsFromSheet(sheets: SheetsBackend.Sheets, script: seq<SheetsBackend.ReadOutcome>, groupCode: Option<string>)
    returns (subjects: map<string, seq<Question>>)
    requires |SheetsBackend.DefaultDelays| < |script|
    requires Loadable(SheetRows(SheetsBackend.TestRows(SheetsBackend.RetryRows(
      SheetsBackend.EnsureSheet(sheets.book, "tests", Some(SheetsBackend.HEADERS["tests"]))["tests"],
      SheetsBackend.DefaultDelays, script))), groupCode)
    modifies sheets
    ensures sheets.book == SheetsBackend.EnsureSheet(old(sheets.book), "tests", Some(SheetsBackend.HEADERS["tests"]))
    ensures var rows := SheetRows(SheetsBackend.TestRows(SheetsBackend.RetryRows(sheets.book["tests"], SheetsBackend.DefaultDelays, script)));
            && (forall k :: k in subjects <==> Selected(Normalized(rows), groupCode, k) != [])
            && (forall k :: k in subjects ==> subjects[k] == SortByQid(Selected(Normalized(rows), groupCode, k)))
  {
    var records := sheets.GetTests(script);
    subjects := LoadSubjects(SheetRows(records), groupCode);
  }

  /** The loader's first loop, over the normalised rows: each kept question
      appended to its subject's list. */
  method Bucket(qs: seq<Question>, groupCode: Option<string>) returns (buckets: map<string, seq<Question>>)
    ensures buckets == Buckets(qs, groupCode)
    ensures forall k :: k in buckets <==> Selected(qs, groupCode, k) != []
    ensures forall k :: k in buckets ==> buckets[k] == Selected(qs, groupCode, k)
  {
    buckets := map[];
    var i := 0;
    while i < |qs|
      invariant 0 <= i <= |qs|
      invariant buckets == Buckets(qs[..i], groupCode)
    {
      var q := qs[i];
      assert qs[..i + 1][..i] == qs[..i];
      if PassesGroup(q, groupCode) {
        var subj := SubjectKey(q);
        if subj != "" {
          var bucket := if subj in buckets then buckets[subj] else [];
          buckets := buckets[subj := bucket + [q]];
        }
      }
      i := i + 1;
    }
    assert qs[..|qs|] == qs;
    BucketsSelected(qs, groupCode);
  }

  /** The loader's second loop: every bucket sorted by qid. */
  method SortBuckets(buckets: map<string, seq<Question>>) returns (sorted: map<string, seq<Question>>)
    ensures sorted.Keys == buckets.Keys
    ensures forall k :: k in sorted ==> sorted[k] == SortByQid(buckets[k])
  {
    sorted := buckets;
    var todo := buckets.Keys;
    while todo != {}
      invariant todo <= sorted.Keys && sorted.Keys == buckets.Keys
      invariant forall k :: k in sorted ==> sorted[k] == if k in todo then buckets[k] else SortByQid(buckets[k])
      decreases |todo|
    {
      var k :| k in todo;
      sorted := sorted[k := SortByQid(sorted[k])];
      todo := todo - {k};
    }
  }

  /** Read with the loader's postcondition: every question in a loaded
      bucket is a kept question whose subject key is the bucket's key (so
      the key is not blank and the question is in no other bucket). */
  lemma {:induction false} BucketSound(qs: seq<Question>, groupCode: Option<string>, k: string, q: Question)
    requires q in SortByQid(Selected(qs, groupCode, k))
    ensures k != "" && q in qs && Kept(q, groupCode) && SubjectKey(q) == k
  {
    SortByQidPerm(Selected(qs, groupCode, k));
    assert q in multiset(SortByQid(Selected(qs, groupCode, k)));
    SelectedSound(qs, groupCode, k, q);
  }

  /** Read with the loader's postcondition: every kept question is loaded,
      in the bucket of its own subject key. */
  lemma {:induction false} BucketComplete(qs: seq<Question>, groupCode: Option<string>, i: nat)
    requires i < |qs| && Kept(qs[i], groupCode)
    ensures qs[i] in SortByQid(Selected(qs, groupCode, SubjectKey(qs[i])))
  {
    SelectedComplete(qs, groupCode, i);
    SortByQidPerm(Selected(qs, groupCode, SubjectKey(qs[i])));
    assert qs[i] in multiset(Selected(qs, groupCode, SubjectKey(qs[i])));
  }

  /** A group-filter example: a "senior" question is
      dropped for "junior" and kept for "senior" or no group; a question with
      no group is kept under every group code. */
  lemma GroupFilterExample(q: Question, g: Option<string>)
    ensures q.group == "senior" ==>
              !PassesGroup(q, Some("junior")) && PassesGroup(q, Some("senior")) && PassesGroup(q, None)
    ensures q.group == "" ==> PassesGroup(q, g)
  {
  }

  // ---------- render_test_form: answers and score ----------

  /** `(q.get("type") or "").strip().lower() == "open"`. */
  predicate IsOpen(q: Question) {
    Norm(q.qtype) == "open"
  }

  predicate OptionSet(q: Question, k: string) {
    k in q.options && q.options[k] != ""
  }

  /** `all(opts.get(k) for k in ("a", "b", "c", "d"))`. */
  predicate HasAllOptions(q: Question) {
    OptionSet(q, "a") && OptionSet(q, "b") && OptionSet(q, "c") && OptionSet(q, "d")
  }

  /** A question the form shows: open, or multiple-choice with all four options. */
  predicate Rendered(q: Question) {
    IsOpen(q) || HasAllOptions(q)
  }

  /** What the form records for a shown question given the widget's value:
      open text trimmed, the chosen label as it is. */
  function Answer(q: Question, input: string): string {
    if IsOpen(q) then Strip(input) else input
  }

  /** `total_mcq`: the number of questions that are not open, shown or not. */
  function TotalMcq(qs: seq<Question>): nat {
    if qs == [] then 0 else TotalMcq(qs[..|qs| - 1]) + if IsOpen(qs[|qs| - 1]) then 0 else 1
  }

  /** A qid as a Python dict key: `True` and `1` are one key, and so are
      `False` and `0`; every other scalar is its own key. */
  function DictKey(qid: Field): Field {
    if qid.Plain? && qid.cell.Bool? then Plain(Int(if qid.cell.b then 1 else 0)) else qid
  }

  /** The `answers` dict after the form loop, keyed by qid; a later question
      with the same qid overwrites an earlier one. */
  function CollectAnswers(qs: seq<Question>, inputs: seq<string>): map<Field, string>
    requires |inputs| == |qs|
  {
    if qs == [] then map[]
    else
      var n := |qs| - 1;
      var m := CollectAnswers(qs[..n], inputs[..n]);
      if Rendered(qs[n]) then m[DictKey(qs[n].qid) := Answer(qs[n], inputs[n])] else m
  }

  /** A question earns a point: it is not open, its correct label is set,
      and the recorded answer for its qid equals that label. */
  predicate Scores(q: Question, answers: map<Field, string>) {
    !IsOpen(q) && Norm(q.correct) != "" && DictKey(q.qid) in answers && answers[DictKey(q.qid)] == Norm(q.correct)
  }

  function Score(qs: seq<Question>, answers: map<Field, string>): nat {
    if qs == [] then 0 else Score(qs[..|qs| - 1], answers) + if Scores(qs[|qs| - 1], answers) then 1 else 0
  }

  /** The score never exceeds the number of multiple-choice questions. */
  lemma {:induction false} ScoreBounded(qs: seq<Question>, answers: map<Field, string>)
    ensures Score(qs, answers) <= TotalMcq(qs)
  {
    if qs != [] {
      ScoreBounded(qs[..|qs| - 1], answers);
    }
  }

  /** The total is zero exactly when every question is open. */
  lemma {:induction false} TotalMcqZero(qs: seq<Question>)
    ensures TotalMcq(qs) == 0 <==> forall i :: 0 <= i < |qs| ==> IsOpen(qs[i])
  {
    if qs != [] {
      var n := |qs| - 1;
      TotalMcqZero(qs[..n]);
      assert forall i :: 0 <= i < n ==> qs[..n][i] == qs[i];
    }
  }

  /** The answers have a key exactly for the qids of the questions shown. */
  lemma {:induction false} AnswerKeys(qs: seq<Question>, inputs: seq<string>, k: Field)
    requires |inputs| == |qs|
    ensures k in CollectAnswers(qs, inputs) <==> exists i :: 0 <= i < |qs| && Rendered(qs[i]) && DictKey(qs[i].qid) == k
  {
    if qs != [] {
      var n := |qs| - 1;
      AnswerKeys(qs[..n], inputs[..n], k);
      var shown := Rendered(qs[n]);
      assert CollectAnswers(qs, inputs).Keys == CollectAnswers(qs[..n], inputs[..n]).Keys + (if shown then {DictKey(qs[n].qid)} else {});
      assert forall i :: 0 <= i < n ==> qs[..n][i] == qs[i];
    }
  }

  /** For the last shown question with a given qid, the answers hold what the
      form recorded for it. */
  lemma {:induction false} LastAnswerWins(qs: seq<Question>, inputs: seq<string>, i: nat)
    requires |inputs| == |qs| && i < |qs| && Rendered(qs[i])
    requires forall j :: i < j < |qs| && Rendered(qs[j]) ==> DictKey(qs[j].qid) != DictKey(qs[i].qid)
    ensures DictKey(qs[i].qid) in CollectAnswers(qs, inputs)
    ensures CollectAnswers(qs, inputs)[DictKey(qs[i].qid)] == Answer(qs[i], inputs[i])
  {
    var n := |qs| - 1;
    assert qs[..n + 1] == qs && inputs[..n + 1] == inputs;
    CollectStep(qs, inputs, n);
    if i < n {
      var front, ins := qs[..n], inputs[..n];
      assert front[i] == qs[i] && ins[i] == inputs[i];
      assert forall j :: i < j < n ==> front[j] == qs[j];
      LastAnswerWins(front, ins, i);
    }
  }

  /** One more question extends the answers by that question's entry. */
  lemma CollectStep(qs: seq<Question>, inputs: seq<string>, i: nat)
    requires |inputs| == |qs| && i < |qs|
    ensures CollectAnswers(qs[..i + 1], inputs[..i + 1])
         == var m := CollectAnswers(qs[..i], inputs[..i]);
            if Rendered(qs[i]) then m[DictKey(qs[i].qid) := Answer(qs[i], inputs[i])] else m
  {
    assert qs[..i + 1][..i] == qs[..i] && inputs[..i + 1][..i] == inputs[..i];
    assert qs[..i + 1][i] == qs[i] && inputs[..i + 1][i] == inputs[i];
  }

  /** One more question adds its point, if it earns one. */
  lemma ScoreStep(qs: seq<Question>, answers: map<Field, string>, j: nat)
    requires j < |qs|
    ensures Score(qs[..j + 1], answers) == Score(qs[..j], answers) + if Scores(qs[j], answers) then 1 else 0
  {
    assert qs[..j + 1][..j] == qs[..j] && qs[..j + 1][j] == qs[j];
  }

  /** The form loop of `render_test_form`: one answer per shown question,
      keyed by qid. */
  method CollectLoop(questions: seq<Question>, inputs: seq<string>) returns (collected: map<Field, string>)
    requires |inputs| == |questions|
    ensures collected == CollectAnswers(questions, inputs)
  {
    collected := map[];
    var i := 0;
    while i < |questions|
      invariant 0 <= i <= |questions|
      invariant collected == CollectAnswers(questions[..i], inputs[..i])
    {
      var q := questions[i];
      CollectStep(questions, inputs, i);
      if IsOpen(q) {
        collected := collected[DictKey(q.qid) := Strip(inputs[i])];
      } else if HasAllOptions(q) {
        collected := collected[DictKey(q.qid) := inputs[i]];
      }
      i := i + 1;
    }
    assert questions[..i] == questions && inputs[..i] == inputs;
  }

  /** The loop's test `sel and corr and sel == corr` on a non-open
      question is the point test. */
  lemma ScoresCheck(q: Question, answers: map<Field, string>)
    ensures Scores(q, answers) <==>
              && !IsOpen(q)
              && var sel := if DictKey(q.qid) in answers then answers[DictKey(q.qid)] else "";
                 sel != "" && Norm(q.correct) != "" && sel == Norm(q.correct)
  {
  }

  /** The scoring loop of `render_test_form`. */
  method ScoreLoop(questions: seq<Question>, answers: map<Field, string>) returns (points: nat)
    ensures points == Score(questions, answers)
  {
    points := 0;
    var j := 0;
    while j < |questions|
      invariant 0 <= j <= |questions|
      invariant points == Score(questions[..j], answers)
    {
      var q := questions[j];
      ScoreStep(questions, answers, j);
      ScoresCheck(q, answers);
      if !IsOpen(q) {
        var corr := Norm(q.correct);
        var sel := if DictKey(q.qid) in answers then answers[DictKey(q.qid)] else "";
        if sel != "" && corr != "" && sel == corr {
          points := points + 1;
        }
      }
      j := j + 1;
    }
    assert questions[..j] == questions;
  }

  /** `render_test_form` once the widgets have produced `inputs` (the text of
      each open question's text area, the label chosen in each multiple-choice
      question's radio group) and the submit button produced `submitted`. */
  method RenderTestForm(questions: seq<Question>, inputs: seq<string>, submitted: bool)
    returns (score: nat, total: nat, answers: map<Field, string>)
    requires |inputs| == |questions|
    requires forall i :: 0 <= i < |questions| ==> questions[i].qid.Plain?
    ensures questions == [] || !submitted ==> score == 0 && total == 0 && answers == map[]
    ensures questions != [] && submitted ==>
              && total == TotalMcq(questions)
              && answers == CollectAnswers(questions, inputs)
              && score == Score(questions, answers)
    ensures score <= total
  {
    if questions == [] {
      return 0, 0, map[];
    }
    var totalMcq := TotalMcq(questions);
    var collected := CollectLoop(questions, inputs);
    if !submitted {
      return 0, 0, map[];
    }
    var points := ScoreLoop(questions, collected);
    ScoreBounded(questions, collected);
    return points, totalMcq, collected;
  }

  /** A scoring example: two multiple-choice questions
      with correct labels a and c, answered a and b, score 1 out of 2. */
  lemma ScoringExample(q1: Question, q2: Question)
    requires HasAllOptions(q1) && HasAllOptions(q2)
    requires q1.qid == Plain(Int(1)) && q2.qid == Plain(Int(2))
    requires q1.qtype == "mcq" && q2.qtype == "mcq" && q1.correct == "a" && q2.correct == "c"
    ensures TotalMcq([q1, q2]) == 2
    ensures Score([q1, q2], CollectAnswers([q1, q2], ["a", "b"])) == 1
  {
    NormalWords("mcq");
    NormalWords("a");
    NormalWords("c");
    assert !IsOpen(q1) && !IsOpen(q2) && Rendered(q1) && Rendered(q2);
    var qs := [q1, q2];
    assert qs[..1] == [q1] && [q1][..0] == [];
    assert ["a", "b"][..1] == ["a"] && ["a"][..0] == [];
    assert TotalMcq([q1]) == 1;
    assert Answer(q1, "a") == "a" && Answer(q2, "b") == "b";
    var m0 := CollectAnswers([], []);
    assert m0 == map[];
    var m1 := CollectAnswers([q1], ["a"]);
    assert m1 == m0[DictKey(q1.qid) := "a"];
    var answers := CollectAnswers(qs, ["a", "b"]);
    assert answers == m1[DictKey(q2.qid) := "b"];
    assert DictKey(q1.qid) != DictKey(q2.qid);
    assert answers[DictKey(q1.qid)] == "a" && answers[DictKey(q2.qid)] == "b";
    assert Scores(q1, answers) && !Scores(q2, answers);
    assert Score([q1], answers) == 1;
  }

  /** Python's dict merges the keys `1` and `True`: an open question with
      qid `True` after a multiple-choice question with qid `1` overwrites its
      answer, so the right label "a" earns no point. */
  lemma BoolQidMerges(q1: Question, q2: Question)
    requires HasAllOptions(q1) && q1.qtype == "mcq" && q1.correct == "a" && q1.qid == Plain(Int(1))
    requires q2.qtype == "open" && q2.qid == Plain(Bool(true))
    ensures CollectAnswers([q1, q2], ["a", "zzz"]) == map[Plain(Int(1)) := "zzz"]
    ensures Score([q1, q2], CollectAnswers([q1, q2], ["a", "zzz"])) == 0
  {
    NormalWords("mcq");
    NormalWords("open");
    StripNoop("zzz");
    assert !IsOpen(q1) && IsOpen(q2) && Rendered(q1) && Rendered(q2);
    var qs := [q1, q2];
    assert qs[..1] == [q1] && [q1][..0] == [];
    assert ["a", "zzz"][..1] == ["a"] && ["a"][..0] == [];
    assert Answer(q1, "a") == "a" && Answer(q2, "zzz") == "zzz";
    var m0 := CollectAnswers([], []);
    assert m0 == map[];
    var m1 := CollectAnswers([q1], ["a"]);
    assert m1 == m0[DictKey(q1.qid) := "a"];
    var answers := CollectAnswers(qs, ["a", "zzz"]);
    assert answers == m1[DictKey(q2.qid) := "zzz"];
    assert DictKey(q2.qid) == Plain(Int(1));
    assert answers == map[Plain(Int(1)) := "zzz"];
    assert !Scores(q1, answers) && !Scores(q2, answers);
    assert Score([q1], answers) == 0;
  }
}
