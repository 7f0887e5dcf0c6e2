/**
 * The scoring form's logic: one bounded score per rubric criterion, the
 * running subtotal, the item maximum, the per-criterion rows, the item-level
 * metadata stamped onto every row, and the identifier the saved evaluation
 * is filed under. Widgets are replaced by their results: the scores the
 * evaluator entered, the metadata text fields, the pasted answer.
 */
module Scoring {
  import opened Wrappers
  import opened Seqs

  /** One rubric criterion of a benchmark item; `points` is negative for a penalty. */
  datatype Criterion = Criterion(id: string, description: string, points: int)

  /** A benchmark item; `maxPoints` is the optional explicit item maximum. */
  datatype Item = Item(id: string, title: string, prompt: string, rubric: seq<Criterion>, maxPoints: Option<int>)

  /** The run metadata text fields, as typed (possibly empty). */
  datatype RunMetadata = RunMetadata(
    modelName: string,
    provider: string,
    modelVersion: string,
    temperature: string,
    evaluator: string,
    runNotes: string)

  /** A row built while scoring, before the item-level columns are added. */
  datatype CriterionRow = CriterionRow(criterion: string, description: string, maxPoints: int, awardedPoints: int)

  /** A row of the saved table: the criterion columns plus the item-level columns. */
  datatype SavedRow = SavedRow(
    criterion: string,
    description: string,
    maxPoints: int,
    awardedPoints: int,
    benchmarkId: string,
    modelName: string,
    provider: string,
    modelVersion: string,
    temperature: string,
    evaluator: string,
    utcTimestamp: string,
    subtotal: int,
    runNotes: string,
    answerHash: string)

  /** What one press of "Save evaluation" produces: the run identifier, the
      table file with its header and rows, and the answer file and its text.
      `SaveHeader` builds the header for a given item. */
  datatype Evaluation = Evaluation(
    runId: string,
    csvName: string,
    answerName: string,
    answerText: string,
    header: seq<string>,
    rows: seq<SavedRow>)

  // ---------------------------------------------------------------------
  // Per-criterion bound, subtotal and item maximum

  function Min(a: int, b: int): int { if a <= b then a else b }

  function Max(a: int, b: int): int { if a >= b then a else b }

  /** The admissible score interval `(lo, hi)` of a criterion worth `pts`:
      the smallest interval holding both 0 and `pts`. */
  function ScoreRange(pts: int): (range: (int, int))
    ensures range.0 <= 0 <= range.1
    ensures range.0 <= pts <= range.1
    ensures (range.0 == 0 || range.0 == pts) && (range.1 == 0 || range.1 == pts)
  {
    (Min(0, pts), Max(pts, 0))
  }

  predicate Admissible(c: Criterion, score: int)
  {
    ScoreRange(c.points).0 <= score <= ScoreRange(c.points).1
  }

  /** One score per criterion, each inside its criterion's interval. */
  predicate AllAdmissible(rubric: seq<Criterion>, scores: seq<int>)
  {
    |scores| == |rubric| && forall i :: 0 <= i < |rubric| ==> Admissible(rubric[i], scores[i])
  }

  /** Sum over the rubric of the positive parts of the points. */
  function PositivePoints(rubric: seq<Criterion>): (r: int)
    ensures r >= 0
    decreases |rubric|
  {
    if |rubric| == 0 then 0
    else PositivePoints(rubric[..|rubric| - 1]) + Max(0, rubric[|rubric| - 1].points)
  }

  /** Sum over the rubric of the negative parts of the points. */
  function NegativePoints(rubric: seq<Criterion>): (r: int)
    ensures r <= 0
    decreases |rubric|
  {
    if |rubric| == 0 then 0
    else NegativePoints(rubric[..|rubric| - 1]) + Min(0, rubric[|rubric| - 1].points)
  }

  /** The item maximum: the explicit value when the item sets one, otherwise
      the sum of the positive criterion points. */
  function ItemMaxPoints(item: Item): (m: int)
    ensures item.maxPoints.Some? ==> m == item.maxPoints.value
    ensures item.maxPoints.None? ==> m >= 0 && m == PositivePoints(item.rubric)
  {
    item.maxPoints.GetOr(PositivePoints(item.rubric))
  }

  /** With every score inside its interval, the subtotal lies between the
      penalty total and the bonus total. */
  lemma {:induction false} SubtotalWithinPoints(rubric: seq<Criterion>, scores: seq<int>)
    requires AllAdmissible(rubric, scores)
    ensures NegativePoints(rubric) <= Sum(scores) <= PositivePoints(rubric)
    decreases |rubric|
  {
    if |rubric| > 0 {
      var n := |rubric| - 1;
      assert AllAdmissible(rubric[..n], scores[..n]);
      SubtotalWithinPoints(rubric[..n], scores[..n]);
      assert Admissible(rubric[n], scores[n]);
    }
  }

  /** Without an explicit maximum, an admissible subtotal never exceeds the item maximum. */
  lemma SubtotalAtMostDefaultMax(item: Item, scores: seq<int>)
    requires item.maxPoints.None?
    requires AllAdmissible(item.rubric, scores)
    ensures Sum(scores) <= ItemMaxPoints(item)
  {
    SubtotalWithinPoints(item.rubric, scores);
  }

  /** The scoring loop: one row per criterion in rubric order, carrying the
      criterion's declared points, plus the running subtotal and the item maximum.
      `scores` holds what the evaluator entered for each criterion. */
  method ScoreItem(item: Item, scores: seq<int>) returns (rows: seq<CriterionRow>, total: int, maxPoints: int)
    requires |scores| == |item.rubric|
    ensures |rows| == |item.rubric|
    ensures forall i :: 0 <= i < |rows| ==>
      rows[i].criterion == item.rubric[i].id && rows[i].description == item.rubric[i].description
      && rows[i].maxPoints == item.rubric[i].points && rows[i].awardedPoints == scores[i]
    ensures total == Sum(scores)
    ensures maxPoints == ItemMaxPoints(item)
    ensures AllAdmissible(item.rubric, scores) ==> NegativePoints(item.rubric) <= total <= PositivePoints(item.rubric)
  {
    rows := [];
    total := 0;
    var i := 0;
    while i < |item.rubric|
      invariant 0 <= i <= |item.rubric|
      invariant |rows| == i
      invariant forall k :: 0 <= k < i ==>
        rows[k] == CriterionRow(item.rubric[k].id, item.rubric[k].description, item.rubric[k].points, scores[k])
      invariant total == Sum(scores[..i])
    {
      var crit := item.rubric[i];
      var score := scores[i];
      total := total + score;
      rows := rows + [CriterionRow(crit.id, crit.description, crit.points, score)];
      assert scores[..i + 1][..i] == scores[..i];
      i := i + 1;
    }
    assert scores[..i] == scores;
    maxPoints := ItemMaxPoints(item);
    if AllAdmissible(item.rubric, scores) {
      SubtotalWithinPoints(item.rubric, scores);
    }
  }

  // ---------------------------------------------------------------------
  // Answer hash and run identifier

  const HexDigits := "0123456789abcdef"

  /** A SHA-256 hex digest: 64 lower-case hexadecimal characters. */
  predicate IsHexDigest(d: string)
  {
    |d| == 64 && forall i :: 0 <= i < |d| ==> d[i] in HexDigits
  }

  /** A `%Y%m%dT%H%M%SZ` timestamp: eight digits, `T`, six digits, `Z`. */
  predicate IsUtcStamp(t: string)
  {
    |t| == 16 && t[8] == 'T' && t[15] == 'Z'
    && forall i :: 0 <= i < 15 && i != 8 ==> '0' <= t[i] <= '9'
  }

  /** The answer hash: the first 12 digest characters of a non-empty answer,
      the literal "noanswer" for an empty one. `sha256Hex` stands for the
      library digest. */
  function AnswerHash(modelAnswer: string, sha256Hex: string -> string): (h: string)
    requires |modelAnswer| > 0 ==> IsHexDigest(sha256Hex(modelAnswer))
    ensures h == "noanswer" <==> |modelAnswer| == 0
    ensures |modelAnswer| > 0 ==> |h| == 12 && h == sha256Hex(modelAnswer)[..12]
    ensures '_' !in h
  {
    if |modelAnswer| > 0 then sha256Hex(modelAnswer)[..12] else "noanswer"
  }

  /** A blank model name is filed as "unknown". */
  function ModelLabel(modelName: string): string
  {
    if |modelName| > 0 then modelName else "unknown"
  }

  /** The run identifier: item id, model label, timestamp and answer hash joined by `_`. */
  function RunId(itemId: string, modelName: string, timestamp: string, answerHash: string): (id: string)
    ensures |id| == |itemId| + |ModelLabel(modelName)| + |timestamp| + |answerHash| + 3
    ensures id[..|itemId| + 1] == itemId + "_"
    ensures id[|id| - |answerHash| - 1..] == "_" + answerHash
  {
    itemId + "_" + ModelLabel(modelName) + "_" + timestamp + "_" + answerHash
  }

  /** Splits `s` at its last `sep`: `Some((before, after))` with `sep` not in `after`,
      or `None` when `sep` does not occur. */
  function SplitAtLast(s: string, sep: char): (r: Option<(string, string)>)
    ensures r.None? <==> sep !in s
    ensures r.Some? ==> s == r.value.0 + [sep] + r.value.1 && sep !in r.value.1
    decreases |s|
  {
    if |s| == 0 then None
    else if s[|s| - 1] == sep then Some((s[..|s| - 1], ""))
    else match SplitAtLast(s[..|s| - 1], sep)
      case None => None
      case Some(parts) => Some((parts.0, parts.1 + [s[|s| - 1]]))
  }

  /** A split point followed by no further separator is the last one. */
  lemma {:induction false} SplitAtLastUnique(a: string, b: string, sep: char)
    requires sep !in b
    ensures SplitAtLast(a + [sep] + b, sep) == Some((a, b))
    decreases |b|
  {
    var s := a + [sep] + b;
    if |b| > 0 {
      var b' := b[..|b| - 1];
      assert s[..|s| - 1] == a + [sep] + b';
      SplitAtLastUnique(a, b', sep);
      assert b' + [b[|b| - 1]] == b;
    } else {
      assert s[..|s| - 1] == a;
    }
  }

  /** The timestamp and the answer hash can be read back from a run identifier:
      they are its last two `_`-separated fields. */
  lemma RunIdRecoversStampAndHash(itemId: string, modelName: string, timestamp: string, modelAnswer: string, sha256Hex: string -> string)
    requires IsUtcStamp(timestamp)
    requires |modelAnswer| > 0 ==> IsHexDigest(sha256Hex(modelAnswer))
    ensures var h := AnswerHash(modelAnswer, sha256Hex);
            var head := itemId + "_" + ModelLabel(modelName);
            SplitAtLast(RunId(itemId, modelName, timestamp, h), '_') == Some((head + "_" + timestamp, h))
            && SplitAtLast(head + "_" + timestamp, '_') == Some((head, timestamp))
  {
    var h := AnswerHash(modelAnswer, sha256Hex);
    var head := itemId + "_" + ModelLabel(modelName);
    assert '_' !in timestamp by {
      forall i | 0 <= i < |timestamp| ensures timestamp[i] != '_' {
        if i != 8 && i != 15 { assert '0' <= timestamp[i] <= '9'; }
      }
    }
    assert RunId(itemId, modelName, timestamp, h) == (head + "_" + timestamp) + ['_'] + h;
    SplitAtLastUnique(head + "_" + timestamp, h, '_');
    assert head + "_" + timestamp == head + ['_'] + timestamp;
    SplitAtLastUnique(head, timestamp, '_');
  }

  // ---------------------------------------------------------------------
  // Saved table

  const CriterionColumns: seq<string> := ["criterion", "description", "max_points", "awarded_points"]

  /** The item-level columns, in the order the save step adds them. */
  const MetadataColumns: seq<string> := [
    "benchmark_id", "model_name", "provider", "model_version", "temperature", "evaluator",
    "utc_timestamp", "subtotal", "max_points", "run_notes", "answer_hash"]

  /** Adds each name as a new last column unless a column of that name exists
      already, in which case that column is overwritten in place. */
  function AddColumns(cols: seq<string>, names: seq<string>): (r: seq<string>)
    ensures |r| >= |cols| && r[..|cols|] == cols
    decreases |names|
  {
    if |names| == 0 then cols
    else AddColumns(if names[0] in cols then cols else cols + [names[0]], names[1..])
  }

  /** The column list of the saved table; an empty rubric builds a table with no
      criterion columns at all. */
  function SavedColumns(hasRows: bool): seq<string>
  {
    AddColumns(if hasRows then CriterionColumns else [], MetadataColumns)
  }

  /** Names that are all new are appended in order. */
  lemma {:induction false} AddColumnsFresh(cols: seq<string>, names: seq<string>)
    requires forall n :: n in names ==> n !in cols
    requires Distinct(names)
    ensures AddColumns(cols, names) == cols + names
    decreases |names|
  {
    if |names| > 0 {
      assert names[0] !in cols;
      assert AddColumns(cols, names) == AddColumns(cols + [names[0]], names[1..]);
      forall n | n in names[1..] ensures n !in cols + [names[0]] {
        var k :| 0 <= k < |names[1..]| && names[1..][k] == n;
        assert n == names[k + 1];
      }
      assert Distinct(names[1..]);
      AddColumnsFresh(cols + [names[0]], names[1..]);
      assert cols + [names[0]] + names[1..] == cols + names;
    }
  }

  /** A name that is already a column is only overwritten. */
  lemma AddColumnsExisting(cols: seq<string>, name: string, names: seq<string>)
    requires name in cols
    ensures AddColumns(cols, [name] + names) == AddColumns(cols, names)
  {
    assert ([name] + names)[1..] == names;
  }

  /** Adding a list of names is adding its parts one after the other. */
  lemma {:induction false} AddColumnsSplit(cols: seq<string>, names1: seq<string>, names2: seq<string>)
    ensures AddColumns(cols, names1 + names2) == AddColumns(AddColumns(cols, names1), names2)
    decreases |names1|
  {
    if |names1| > 0 {
      var cols' := if names1[0] in cols then cols else cols + [names1[0]];
      assert (names1 + names2)[0] == names1[0];
      assert (names1 + names2)[1..] == names1[1..] + names2;
      assert AddColumns(cols, names1 + names2) == AddColumns(cols', names1[1..] + names2);
      AddColumnsSplit(cols', names1[1..], names2);
    } else {
      assert names1 + names2 == names2;
    }
  }

  // The item-level columns before and after `max_points`.
  const MetadataFront: seq<string> := [
    "benchmark_id", "model_name", "provider", "model_version", "temperature", "evaluator",
    "utc_timestamp", "subtotal"]
  const MetadataBack: seq<string> := ["run_notes", "answer_hash"]

  lemma AddMetadataFront()
    ensures AddColumns(CriterionColumns, MetadataFront) == CriterionColumns + MetadataFront
  {
    assert Distinct(MetadataFront);
    assert forall n :: n in MetadataFront ==> n !in CriterionColumns;
    AddColumnsFresh(CriterionColumns, MetadataFront);
  }

  lemma AddMetadataBack()
    ensures AddColumns(CriterionColumns + MetadataFront, ["max_points"] + MetadataBack)
         == CriterionColumns + MetadataFront + MetadataBack
  {
    var c := CriterionColumns + MetadataFront;
    assert c[2] == "max_points";
    MetadataBackIsNew();
    AddColumnsExisting(c, "max_points", MetadataBack);
    AddColumnsFresh(c, MetadataBack);
  }

  lemma MetadataBackIsNew()
    ensures Distinct(MetadataBack)
    ensures forall n :: n in MetadataBack ==> n !in CriterionColumns + MetadataFront
  {
  }

  /** With criterion rows, the saved header keeps `max_points` in third place
      without repeating it; the other item-level columns follow in the order
      they were added. */
  lemma SavedColumnsWithRows()
    ensures SavedColumns(true) == CriterionColumns + MetadataFront + MetadataBack
  {
    var c, f, b := CriterionColumns, MetadataFront, MetadataBack;
    calc {
      SavedColumns(true);
      AddColumns(c, MetadataColumns);
      { assert MetadataColumns == f + (["max_points"] + b); }
      AddColumns(c, f + (["max_points"] + b));
      { AddColumnsSplit(c, f, ["max_points"] + b); }
      AddColumns(AddColumns(c, f), ["max_points"] + b);
      { AddMetadataFront(); }
      AddColumns(c + f, ["max_points"] + b);
      { AddMetadataBack(); }
      c + f + b;
    }
  }

  /** Without criterion rows, the saved header is exactly the item-level columns. */
  lemma SavedColumnsWithoutRows()
    ensures SavedColumns(false) == MetadataColumns
  {
    AddColumnsFresh([], MetadataColumns);
  }

  /** The header of the table saved for `item`: with criterion rows, the four
      criterion columns and then the item-level columns without a second
      `max_points`; with an empty rubric, just the item-level columns. */
  lemma SavedHeader(item: Item)
    ensures |item.rubric| > 0 ==> SavedColumns(|item.rubric| > 0) == CriterionColumns + MetadataFront + MetadataBack
    ensures |item.rubric| == 0 ==> SavedColumns(|item.rubric| > 0) == MetadataColumns
  {
    if |item.rubric| > 0 {
      SavedColumnsWithRows();
    } else {
      SavedColumnsWithoutRows();
    }
  }

  /** Stamps the item-level values onto every row: each criterion row keeps its
      id, description and awarded points, its own `max_points` is replaced by the
      item maximum, and every row gets the same item, run and hash values. */
  function Stamp(rows: seq<CriterionRow>, itemId: string, meta: RunMetadata, timestamp: string,
                 subtotal: int, maxPoints: int, answerHash: string): (saved: seq<SavedRow>)
    ensures |saved| == |rows|
    ensures forall i :: 0 <= i < |saved| ==>
      saved[i].criterion == rows[i].criterion && saved[i].description == rows[i].description
      && saved[i].awardedPoints == rows[i].awardedPoints
    ensures forall i :: 0 <= i < |saved| ==>
      saved[i].maxPoints == maxPoints && saved[i].subtotal == subtotal
      && saved[i].benchmarkId == itemId && saved[i].answerHash == answerHash
      && saved[i].utcTimestamp == timestamp && saved[i].modelName == meta.modelName
      && saved[i].provider == meta.provider && saved[i].modelVersion == meta.modelVersion
      && saved[i].temperature == meta.temperature && saved[i].evaluator == meta.evaluator
      && saved[i].runNotes == meta.runNotes
  {
    seq(|rows|, i requires 0 <= i < |rows| =>
      SavedRow(rows[i].criterion, rows[i].description, maxPoints, rows[i].awardedPoints,
               itemId, meta.modelName, meta.provider, meta.modelVersion, meta.temperature,
               meta.evaluator, timestamp, subtotal, meta.runNotes, answerHash))
  }

  /** Builds the header of the table saved for `item`: pandas assigns the
      item-level columns to a table holding the criterion rows, if any. */
  method SaveHeader(item: Item) returns (header: seq<string>)
    ensures |item.rubric| > 0 ==> header == CriterionColumns + MetadataFront + MetadataBack
    ensures |item.rubric| == 0 ==> header == MetadataColumns
  {
    header := SavedColumns(|item.rubric| > 0);
    SavedHeader(item);
  }

  /** The awarded-points column of a saved table. */
  function AwardedColumn(rows: seq<SavedRow>): (col: seq<int>)
    ensures |col| == |rows|
    ensures forall i :: 0 <= i < |rows| ==> col[i] == rows[i].awardedPoints
  {
    seq(|rows|, i requires 0 <= i < |rows| => rows[i].awardedPoints)
  }

  /** Pressing "Save evaluation": score the item, derive the answer hash and run
      identifier from the given clock reading, and build the saved table and the
      answer file. */
  method SaveEvaluation(item: Item, meta: RunMetadata, modelAnswer: string, scores: seq<int>,
                        timestamp: string, sha256Hex: string -> string) returns (saved: Evaluation)
    requires |scores| == |item.rubric|
    requires |modelAnswer| > 0 ==> IsHexDigest(sha256Hex(modelAnswer))
    ensures |saved.rows| == |item.rubric|
    ensures forall i :: 0 <= i < |saved.rows| ==>
      saved.rows[i].criterion == item.rubric[i].id && saved.rows[i].awardedPoints == scores[i]
      && saved.rows[i].description == item.rubric[i].description
    ensures forall i :: 0 <= i < |saved.rows| ==>
      saved.rows[i].utcTimestamp == timestamp && saved.rows[i].modelName == meta.modelName
      && saved.rows[i].provider == meta.provider && saved.rows[i].modelVersion == meta.modelVersion
      && saved.rows[i].temperature == meta.temperature && saved.rows[i].evaluator == meta.evaluator
      && saved.rows[i].runNotes == meta.runNotes
    ensures forall i :: 0 <= i < |saved.rows| ==>
      saved.rows[i].benchmarkId == item.id && saved.rows[i].maxPoints == ItemMaxPoints(item)
      && saved.rows[i].subtotal == Sum(AwardedColumn(saved.rows))
      && saved.rows[i].answerHash == AnswerHash(modelAnswer, sha256Hex)
    ensures saved.runId == RunId(item.id, meta.modelName, timestamp, AnswerHash(modelAnswer, sha256Hex))
    ensures saved.csvName == saved.runId + ".csv" && saved.answerName == saved.runId + ".answer.txt"
    ensures saved.answerText == modelAnswer
    ensures |item.rubric| > 0 ==> saved.header == CriterionColumns + MetadataFront + MetadataBack
    ensures |item.rubric| == 0 ==> saved.header == MetadataColumns
  {
    var header := SaveHeader(item);
    var rows, total, maxPoints := ScoreItem(item, scores);
    var answerHash := AnswerHash(modelAnswer, sha256Hex);
    var runId := RunId(item.id, meta.modelName, timestamp, answerHash);
    var stamped := Stamp(rows, item.id, meta, timestamp, total, maxPoints, answerHash);
    assert AwardedColumn(stamped) == scores by {
      forall i | 0 <= i < |scores| ensures AwardedColumn(stamped)[i] == scores[i] {
      }
    }
    assert forall i :: 0 <= i < |stamped| ==>
      stamped[i].benchmarkId == item.id && stamped[i].maxPoints == ItemMaxPoints(item)
      && stamped[i].subtotal == Sum(AwardedColumn(stamped)) && stamped[i].answerHash == answerHash;
    saved := Evaluation(runId, runId + ".csv", runId + ".answer.txt", modelAnswer, header, stamped);
  }
}
