/**
 * The batch report: keep the runs whose status is "complete", flatten
 * run -> answers -> criteria into one row per criterion with missing fields
 * defaulted, copy the run-level metadata onto every row, and put the columns
 * in the canonical order. Run files are given already parsed, in sorted
 * file-name order.
 */
module Aggregate {
  import opened Wrappers
  import opened Seqs

  /** A JSON value as the parser hands it over; `Null` is also Python's `None`. */
  datatype Value = Null | Bool(b: bool) | Int(i: int) | Str(s: string) | List(items: seq<Value>)

  /** A criterion entry of an answer; `None` marks an absent key. */
  datatype CriterionRecord = CriterionRecord(
    id: Option<Value>,
    awardedPoints: Option<Value>,
    maxPoints: Option<Value>,
    notes: Option<Value>)

  /** An answer of a run; `criterion` is `None` when the key is absent. */
  datatype AnswerRecord = AnswerRecord(
    questionId: Option<Value>,
    modelAnswer: Option<Value>,
    questionNotes: Option<Value>,
    timestamp: Option<Value>,
    criterion: Option<seq<CriterionRecord>>)

  /** A parsed run file; `answers` is `None` when the key is absent. */
  datatype RunRecord = RunRecord(
    runId: Option<Value>,
    modelName: Option<Value>,
    provider: Option<Value>,
    modelVersion: Option<Value>,
    temperature: Option<Value>,
    evaluator: Option<Value>,
    toolsUsed: Option<Value>,
    utcTimestamp: Option<Value>,
    runNotes: Option<Value>,
    status: Option<Value>,
    answers: Option<seq<AnswerRecord>>)

  /** The run-level metadata copied onto every row of a run. */
  datatype RunMeta = RunMeta(
    runId: Value,
    modelName: Value,
    provider: Value,
    modelVersion: Value,
    temperature: Value,
    evaluator: Value,
    toolsUsed: Value,
    utcTimestamp: Value,
    runNotes: Value)

  /** One flattened report row: one criterion of one answer of one complete run. */
  datatype Row = Row(
    benchmarkId: Value,
    criterion: Value,
    awardedPoints: Value,
    maxPoints: Value,
    criterionNotes: Value,
    modelAnswer: Value,
    questionNotes: Value,
    questionTimestamp: Value,
    meta: RunMeta)

  /** How the batch job ends; every outcome exits with status 0. */
  datatype Outcome = NoRunFiles | NoCompleteRuns | Report(columns: seq<string>, rows: seq<Row>)

  // ---------------------------------------------------------------------
  // Filtering and flattening

  /** Only a status that is exactly the string "complete" counts. */
  predicate IsComplete(run: RunRecord)
  {
    run.status == Some(Str("complete"))
  }

  function Answers(run: RunRecord): seq<AnswerRecord>
  {
    run.answers.GetOr([])
  }

  function Criteria(ans: AnswerRecord): seq<CriterionRecord>
  {
    ans.criterion.GetOr([])
  }

  /** The run's metadata fields; an absent key becomes `Null`. */
  function MetaOf(run: RunRecord): RunMeta
  {
    RunMeta(
      run.runId.GetOr(Null), run.modelName.GetOr(Null), run.provider.GetOr(Null),
      run.modelVersion.GetOr(Null), run.temperature.GetOr(Null), run.evaluator.GetOr(Null),
      run.toolsUsed.GetOr(Null), run.utcTimestamp.GetOr(Null), run.runNotes.GetOr(Null))
  }

  /** The row for one criterion entry: the question id, criterion id and points
      default to `Null`, the notes, answer text, question notes and question
      timestamp default to the empty string. */
  function MakeRow(meta: RunMeta, ans: AnswerRecord, crit: CriterionRecord): Row
  {
    Row(
      ans.questionId.GetOr(Null),
      crit.id.GetOr(Null),
      crit.awardedPoints.GetOr(Null),
      crit.maxPoints.GetOr(Null),
      crit.notes.GetOr(Str("")),
      ans.modelAnswer.GetOr(Str("")),
      ans.questionNotes.GetOr(Str("")),
      ans.timestamp.GetOr(Str("")),
      meta)
  }

  /** Each metadata field is the run's value when the key is present, `Null` otherwise. */
  lemma MetaOfDefaults(run: RunRecord)
    ensures MetaOf(run).runId == (if run.runId.Some? then run.runId.value else Null)
    ensures MetaOf(run).modelName == (if run.modelName.Some? then run.modelName.value else Null)
    ensures MetaOf(run).provider == (if run.provider.Some? then run.provider.value else Null)
    ensures MetaOf(run).modelVersion == (if run.modelVersion.Some? then run.modelVersion.value else Null)
    ensures MetaOf(run).temperature == (if run.temperature.Some? then run.temperature.value else Null)
    ensures MetaOf(run).evaluator == (if run.evaluator.Some? then run.evaluator.value else Null)
    ensures MetaOf(run).toolsUsed == (if run.toolsUsed.Some? then run.toolsUsed.value else Null)
    ensures MetaOf(run).utcTimestamp == (if run.utcTimestamp.Some? then run.utcTimestamp.value else Null)
    ensures MetaOf(run).runNotes == (if run.runNotes.Some? then run.runNotes.value else Null)
  {
  }

  /** Which row fields default to `Null` and which to the empty string. */
  lemma MakeRowDefaults(meta: RunMeta, ans: AnswerRecord, crit: CriterionRecord)
    ensures MakeRow(meta, ans, crit).meta == meta
    ensures ans.questionId.None? ==> MakeRow(meta, ans, crit).benchmarkId == Null
    ensures ans.questionId.Some? ==> MakeRow(meta, ans, crit).benchmarkId == ans.questionId.value
    ensures crit.id.None? ==> MakeRow(meta, ans, crit).criterion == Null
    ensures crit.id.Some? ==> MakeRow(meta, ans, crit).criterion == crit.id.value
    ensures crit.awardedPoints.None? ==> MakeRow(meta, ans, crit).awardedPoints == Null
    ensures crit.awardedPoints.Some? ==> MakeRow(meta, ans, crit).awardedPoints == crit.awardedPoints.value
    ensures crit.maxPoints.None? ==> MakeRow(meta, ans, crit).maxPoints == Null
    ensures crit.maxPoints.Some? ==> MakeRow(meta, ans, crit).maxPoints == crit.maxPoints.value
    ensures crit.notes.None? ==> MakeRow(meta, ans, crit).criterionNotes == Str("")
    ensures crit.notes.Some? ==> MakeRow(meta, ans, crit).criterionNotes == crit.notes.value
    ensures ans.modelAnswer.None? ==> MakeRow(meta, ans, crit).modelAnswer == Str("")
    ensures ans.modelAnswer.Some? ==> MakeRow(meta, ans, crit).modelAnswer == ans.modelAnswer.value
    ensures ans.questionNotes.None? ==> MakeRow(meta, ans, crit).questionNotes == Str("")
    ensures ans.questionNotes.Some? ==> MakeRow(meta, ans, crit).questionNotes == ans.questionNotes.value
    ensures ans.timestamp.None? ==> MakeRow(meta, ans, crit).questionTimestamp == Str("")
    ensures ans.timestamp.Some? ==> MakeRow(meta, ans, crit).questionTimestamp == ans.timestamp.value
  {
  }

  /** The rows of one answer, one per criterion entry, in entry order. */
  function AnswerRows(meta: RunMeta, ans: AnswerRecord): (rows: seq<Row>)
    ensures |rows| == |Criteria(ans)|
    ensures forall k :: 0 <= k < |rows| ==> rows[k] == MakeRow(meta, ans, Criteria(ans)[k])
  {
    seq(|Criteria(ans)|, k requires 0 <= k < |Criteria(ans)| => MakeRow(meta, ans, Criteria(ans)[k]))
  }

  /** Number of criterion entries over a list of answers. */
  function EntryCount(answers: seq<AnswerRecord>): (n: nat)
    decreases |answers|
  {
    if |answers| == 0 then 0 else |Criteria(answers[0])| + EntryCount(answers[1..])
  }

  /** The rows of a list of answers, answer after answer. */
  function AnswersRows(meta: RunMeta, answers: seq<AnswerRecord>): (rows: seq<Row>)
    ensures |rows| == EntryCount(answers)
    ensures forall k :: 0 <= k < |rows| ==> rows[k].meta == meta
    decreases |answers|
  {
    if |answers| == 0 then []
    else AnswerRows(meta, answers[0]) + AnswersRows(meta, answers[1..])
  }

  /** The rows of one run: its answers flattened, each row carrying the run's metadata. */
  function RunRows(run: RunRecord): (rows: seq<Row>)
    ensures |rows| == EntryCount(Answers(run))
    ensures forall k :: 0 <= k < |rows| ==> rows[k].meta == MetaOf(run)
  {
    AnswersRows(MetaOf(run), Answers(run))
  }

  /** Number of criterion entries over the complete runs. */
  function CompleteEntryCount(runs: seq<RunRecord>): (n: nat)
    decreases |runs|
  {
    if |runs| == 0 then 0
    else (if IsComplete(runs[0]) then EntryCount(Answers(runs[0])) else 0) + CompleteEntryCount(runs[1..])
  }

  /** The rows one run file contributes: its rows when complete, none otherwise. */
  function Contribution(run: RunRecord): seq<Row>
  {
    if IsComplete(run) then RunRows(run) else []
  }

  /** The report rows: complete runs only, in file order, each flattened. */
  function Aggregate(runs: seq<RunRecord>): (rows: seq<Row>)
    ensures |rows| == CompleteEntryCount(runs)
    decreases |runs|
  {
    if |runs| == 0 then [] else Contribution(runs[0]) + Aggregate(runs[1..])
  }

  /** Every report row carries the metadata of a complete run among the files. */
  lemma {:induction false} AggregateRowsFromCompleteRuns(runs: seq<RunRecord>)
    ensures forall row :: row in Aggregate(runs) ==>
      exists run :: run in runs && IsComplete(run) && row.meta == MetaOf(run)
    decreases |runs|
  {
    if |runs| > 0 {
      AggregateRowsFromCompleteRuns(runs[1..]);
      forall row | row in Aggregate(runs)
        ensures exists run :: run in runs && IsComplete(run) && row.meta == MetaOf(run)
      {
        if row in Contribution(runs[0]) {
          assert IsComplete(runs[0]) && row.meta == MetaOf(runs[0]);
        } else {
          assert row in Aggregate(runs[1..]);
          var run :| run in runs[1..] && IsComplete(run) && row.meta == MetaOf(run);
          assert run in runs;
        }
      }
    }
  }

  /** The complete runs, in file order. */
  function CompleteRuns(runs: seq<RunRecord>): (kept: seq<RunRecord>)
    ensures forall run :: run in kept <==> run in runs && IsComplete(run)
    decreases |runs|
  {
    if |runs| == 0 then []
    else (if IsComplete(runs[0]) then [runs[0]] else []) + CompleteRuns(runs[1..])
  }

  // ---------------------------------------------------------------------
  // Order of the rows

  /** Rows of earlier files come before rows of later files. */
  lemma {:induction false} AggregateAppend(runs1: seq<RunRecord>, runs2: seq<RunRecord>)
    ensures Aggregate(runs1 + runs2) == Aggregate(runs1) + Aggregate(runs2)
    decreases |runs1|
  {
    if |runs1| == 0 {
      assert runs1 + runs2 == runs2;
    } else {
      var head, tail := runs1[0], runs1[1..];
      assert runs1 == [head] + tail;
      assert runs1 + runs2 == [head] + (tail + runs2);
      AggregateCons(head, tail + runs2);
      AggregateAppend(tail, runs2);
      AggregateCons(head, tail);
    }
  }

  lemma AggregateCons(run: RunRecord, rest: seq<RunRecord>)
    ensures Aggregate([run] + rest) == Contribution(run) + Aggregate(rest)
  {
    assert ([run] + rest)[0] == run;
    assert ([run] + rest)[1..] == rest;
  }

  /** A single file contributes its run's rows if the run is complete, and nothing otherwise. */
  lemma AggregateSingle(run: RunRecord)
    ensures IsComplete(run) ==> Aggregate([run]) == RunRows(run)
    ensures !IsComplete(run) ==> Aggregate([run]) == []
  {
  }

  /** Within a run, rows of earlier answers come before rows of later answers. */
  lemma {:induction false} AnswersRowsAppend(meta: RunMeta, answers1: seq<AnswerRecord>, answers2: seq<AnswerRecord>)
    ensures AnswersRows(meta, answers1 + answers2) == AnswersRows(meta, answers1) + AnswersRows(meta, answers2)
    decreases |answers1|
  {
    if |answers1| == 0 {
      assert answers1 + answers2 == answers2;
    } else {
      assert (answers1 + answers2)[0] == answers1[0];
      assert (answers1 + answers2)[1..] == answers1[1..] + answers2;
      AnswersRowsAppend(meta, answers1[1..], answers2);
    }
  }

  /** Dropping the incomplete runs beforehand changes nothing. */
  lemma {:induction false} AggregateIgnoresIncomplete(runs: seq<RunRecord>)
    ensures Aggregate(CompleteRuns(runs)) == Aggregate(runs)
    decreases |runs|
  {
    if |runs| > 0 {
      AggregateIgnoresIncomplete(runs[1..]);
      var head := if IsComplete(runs[0]) then [runs[0]] else [];
      AggregateAppend(head, CompleteRuns(runs[1..]));
      AggregateSingle(runs[0]);
      if !IsComplete(runs[0]) {
        assert head + CompleteRuns(runs[1..]) == CompleteRuns(runs[1..]);
      }
    }
  }

  /** An incomplete run anywhere in the file list contributes no rows. */
  lemma IncompleteRunContributesNothing(before: seq<RunRecord>, run: RunRecord, after: seq<RunRecord>)
    requires !IsComplete(run)
    ensures Aggregate(before + [run] + after) == Aggregate(before) + Aggregate(after)
  {
    AggregateAppend(before + [run], after);
    AggregateAppend(before, [run]);
    AggregateSingle(run);
  }

  // ---------------------------------------------------------------------
  // Column order

  /** The report's column order. */
  const Canonical: seq<string> := [
    "benchmark_id", "criterion", "awarded_points", "max_points", "criterion_notes",
    "model_answer", "question_notes", "question_timestamp",
    "model_name", "provider", "model_version", "temperature", "evaluator", "tools_used",
    "utc_timestamp", "run_notes", "run_id"]

  /** The keys of a row in insertion order: the per-criterion keys, then the
      run metadata keys in the order they are read. */
  const RowKeys: seq<string> := [
    "benchmark_id", "criterion", "awarded_points", "max_points", "criterion_notes",
    "model_answer", "question_notes", "question_timestamp",
    "run_id", "model_name", "provider", "model_version", "temperature", "evaluator", "tools_used",
    "utc_timestamp", "run_notes"]

  /** The members of `canon` that occur in `cols`, in `canon`'s order. */
  function Present(canon: seq<string>, cols: seq<string>): (r: seq<string>)
    ensures forall c :: c in r <==> c in canon && c in cols
    ensures SubsequenceOf(r, canon)
    decreases |canon|
  {
    if |canon| == 0 then []
    else if canon[0] in cols then [canon[0]] + Present(canon[1..], cols)
    else Present(canon[1..], cols)
  }

  /** The members of `cols` that are not in `canon`, in `cols`'s order. */
  function Extras(cols: seq<string>, canon: seq<string>): (r: seq<string>)
    ensures forall c :: c in r <==> c in cols && c !in canon
    ensures SubsequenceOf(r, cols)
    decreases |cols|
  {
    if |cols| == 0 then []
    else if cols[0] !in canon then [cols[0]] + Extras(cols[1..], canon)
    else Extras(cols[1..], canon)
  }

  /** The columns of `canon` that are present, in `canon`'s order, then every
      other column in encounter order. */
  function OrderColumns(canon: seq<string>, cols: seq<string>): (ordered: seq<string>)
    ensures forall c :: c in ordered <==> c in cols
    ensures |Present(canon, cols)| <= |ordered|
    ensures forall i :: 0 <= i < |Present(canon, cols)| ==> ordered[i] in canon
    ensures forall i :: |Present(canon, cols)| <= i < |ordered| ==> ordered[i] !in canon
    ensures SubsequenceOf(ordered[..|Present(canon, cols)|], canon)
    ensures SubsequenceOf(ordered[|Present(canon, cols)|..], cols)
  {
    var p := Present(canon, cols);
    var e := Extras(cols, canon);
    assert (p + e)[..|p|] == p;
    assert (p + e)[|p|..] == e;
    p + e
  }

  /** A subsequence of a duplicate-free sequence has no duplicates. */
  lemma {:induction false} SubsequenceDistinct(a: seq<string>, b: seq<string>)
    requires SubsequenceOf(a, b) && Distinct(b)
    ensures Distinct(a)
    decreases |b|
  {
    if |a| > 0 {
      assert Distinct(b[1..]);
      if a[0] == b[0] && SubsequenceOf(a[1..], b[1..]) {
        SubsequenceDistinct(a[1..], b[1..]);
        SubsequenceMembers(a[1..], b[1..]);
        assert a[0] !in b[1..];
        forall i, j | 0 <= i < j < |a| ensures a[i] != a[j] {
          if i == 0 {
            assert a[j] == a[1..][j - 1];
          } else {
            assert a[i] == a[1..][i - 1] && a[j] == a[1..][j - 1];
          }
        }
      } else {
        SubsequenceDistinct(a, b[1..]);
      }
    }
  }

  /** Every member of a subsequence is a member of the sequence. */
  lemma {:induction false} SubsequenceMembers(a: seq<string>, b: seq<string>)
    requires SubsequenceOf(a, b)
    ensures forall x :: x in a ==> x in b
    decreases |b|
  {
    if |a| > 0 {
      if a[0] == b[0] && SubsequenceOf(a[1..], b[1..]) {
        SubsequenceMembers(a[1..], b[1..]);
        assert a == [a[0]] + a[1..];
      } else {
        SubsequenceMembers(a, b[1..]);
      }
    }
  }

  /** With distinct column names, ordering the columns loses nothing and duplicates nothing. */
  lemma OrderColumnsPermutes(canon: seq<string>, cols: seq<string>)
    requires Distinct(canon) && Distinct(cols)
    ensures multiset(OrderColumns(canon, cols)) == multiset(cols)
  {
    var p := Present(canon, cols);
    var e := Extras(cols, canon);
    SubsequenceDistinct(p, canon);
    SubsequenceDistinct(e, cols);
    assert Distinct(p + e) by {
      forall i, j | 0 <= i < j < |p + e| ensures (p + e)[i] != (p + e)[j] {
        if i < |p| && |p| <= j {
          assert (p + e)[i] in p && (p + e)[j] in e;
        }
      }
    }
    DistinctSameMembersPermutation(p + e, cols);
  }

  /** `Present` and `Extras` only look at which names occur. */
  lemma {:induction false} PresentSameMembers(canon: seq<string>, cols1: seq<string>, cols2: seq<string>)
    requires forall c :: c in cols1 <==> c in cols2
    ensures Present(canon, cols1) == Present(canon, cols2)
    decreases |canon|
  {
    if |canon| > 0 {
      PresentSameMembers(canon[1..], cols1, cols2);
    }
  }

  /** Extras of a concatenation are the extras of its parts. */
  lemma {:induction false} ExtrasAppend(a: seq<string>, b: seq<string>, canon: seq<string>)
    ensures Extras(a + b, canon) == Extras(a, canon) + Extras(b, canon)
    decreases |a|
  {
    if |a| == 0 {
      assert a + b == b;
    } else {
      assert (a + b)[0] == a[0];
      assert (a + b)[1..] == a[1..] + b;
      ExtrasAppend(a[1..], b, canon);
    }
  }

  /** A list of canonical names has no extras; a list of other names is all extras. */
  lemma {:induction false} ExtrasOfCanonical(a: seq<string>, canon: seq<string>)
    requires forall c :: c in a ==> c in canon
    ensures Extras(a, canon) == []
    decreases |a|
  {
    if |a| > 0 {
      assert a[0] in canon;
      ExtrasOfCanonical(a[1..], canon);
    }
  }

  lemma {:induction false} ExtrasOfOthers(a: seq<string>, canon: seq<string>)
    requires forall c :: c in a ==> c !in canon
    ensures Extras(a, canon) == a
    decreases |a|
  {
    if |a| > 0 {
      assert a[0] !in canon;
      ExtrasOfOthers(a[1..], canon);
      assert [a[0]] + a[1..] == a;
    }
  }

  /** Ordering the columns twice is the same as ordering them once. */
  lemma OrderColumnsIdempotent(canon: seq<string>, cols: seq<string>)
    ensures OrderColumns(canon, OrderColumns(canon, cols)) == OrderColumns(canon, cols)
  {
    var p := Present(canon, cols);
    var e := Extras(cols, canon);
    var o := p + e;
    PresentSameMembers(canon, o, cols);
    ExtrasAppend(p, e, canon);
    ExtrasOfCanonical(p, canon);
    ExtrasOfOthers(e, canon);
    assert [] + e == e;
  }

  /** Every canonical column that occurs is kept, in canonical order. */
  lemma {:induction false} PresentAll(canon: seq<string>, cols: seq<string>)
    requires forall c :: c in canon ==> c in cols
    ensures Present(canon, cols) == canon
    decreases |canon|
  {
    if |canon| > 0 {
      PresentAll(canon[1..], cols);
    }
  }

  lemma CanonicalDistinct()
    ensures Distinct(Canonical)
  {
  }

  lemma RowKeysDistinct()
    ensures Distinct(RowKeys)
  {
  }

  /** The row keys and the canonical columns are the same names. */
  lemma SameNames()
    ensures forall c :: c in Canonical <==> c in RowKeys
  {
  }

  /** Columns that are exactly the canonical names come out in canonical order. */
  lemma OrderColumnsOfCanonicalNames(canon: seq<string>, cols: seq<string>)
    requires Distinct(canon) && Distinct(cols)
    requires forall c :: c in canon <==> c in cols
    ensures OrderColumns(canon, cols) == canon
    ensures multiset(canon) == multiset(cols)
  {
    PresentAll(canon, cols);
    ExtrasOfCanonical(cols, canon);
    OrderColumnsPermutes(canon, cols);
  }

  /** The report's header is exactly the canonical column list, a
      rearrangement of the row keys with no name twice. */
  lemma RowKeysOrdered()
    ensures OrderColumns(Canonical, RowKeys) == Canonical
    ensures Distinct(RowKeys) && multiset(Canonical) == multiset(RowKeys)
  {
    CanonicalDistinct();
    RowKeysDistinct();
    SameNames();
    OrderColumnsOfCanonicalNames(Canonical, RowKeys);
  }

  // ---------------------------------------------------------------------
  // The batch job

  /** The table's columns: the keys every row has, or none when there are no rows. */
  function FrameColumns(rows: seq<Row>): seq<string>
  {
    if |rows| == 0 then [] else RowKeys
  }

  /** The batch job over the parsed run files, in sorted file order: with no
      files, or with no row from any complete run, it reports and stops before
      writing anything; otherwise it writes the table with ordered columns. */
  function AggregateRuns(files: seq<RunRecord>): (o: Outcome)
    ensures o.NoRunFiles? <==> |files| == 0
    ensures o.NoCompleteRuns? <==> |files| > 0 && CompleteEntryCount(files) == 0
    ensures o.Report? ==> o.rows == Aggregate(files) && |o.rows| == CompleteEntryCount(files) > 0
  {
    if |files| == 0 then NoRunFiles
    else
      var rows := Aggregate(files);
      if |rows| == 0 then NoCompleteRuns
      else Report(OrderColumns(Canonical, FrameColumns(rows)), rows)
  }

  /** A written report's header is exactly the canonical column list. */
  lemma ReportColumnsCanonical(files: seq<RunRecord>)
    ensures AggregateRuns(files).Report? ==> AggregateRuns(files).columns == Canonical
  {
    RowKeysOrdered();
  }

  /** The lines the job prints; `csvPath` and `xlsxPath` are the two output files. */
  function Messages(o: Outcome, csvPath: string, xlsxPath: string): (lines: seq<string>)
    ensures |lines| == 1 <==> !o.Report?
    ensures o.NoRunFiles? ==> lines == ["No run files found."]
    ensures o.NoCompleteRuns? ==> lines == ["No complete runs found."]
    ensures o.Report? ==> |lines| == 2 && lines[0] == "Wrote " + csvPath && lines[1] == "Wrote " + xlsxPath
  {
    match o
    case NoRunFiles => ["No run files found."]
    case NoCompleteRuns => ["No complete runs found."]
    case Report(_, _) => ["Wrote " + csvPath, "Wrote " + xlsxPath]
  }
}
