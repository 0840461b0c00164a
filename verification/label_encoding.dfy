/** The data preparation of the BERT training task
    (`api/activetigger/tasks/train_bert.py`): rows with a missing label or
    text are dropped, the distinct labels are sorted and numbered, the label
    column is replaced by the numbers, and on success the parameters are saved
    with the split size and the base model. The training itself (tokenizer,
    model, trainer) is a parameter: it either succeeds or fails at some
    point. `clean` inspects the value a finished task returns. */
module LabelEncoding {
  import opened Base
  import opened LexOrder

  /** One row of the labelled frame: the text and label cells, `None` for a
      missing value. */
  datatype Row = Row(text: Option<string>, tag: Option<string>)

  predicate HasLabel(r: Row) { r.tag.Some? }
  predicate HasText(r: Row) { r.text.Some? }
  predicate Complete(r: Row) { r.tag.Some? && r.text.Some? }

  // ---------------------------------------------------------------------
  // Dropping missing values
  // ---------------------------------------------------------------------

  /** Boolean-mask selection `df[mask]`: the rows satisfying `keep`, in order. */
  function Filter(rows: seq<Row>, keep: Row -> bool): (r: seq<Row>)
    ensures forall x :: x in r ==> x in rows && keep(x)
    ensures forall x :: x in rows && keep(x) ==> x in r
    ensures IsSubsequence(r, rows)
  {
    if |rows| == 0 then []
    else if keep(rows[0]) then
      var t := Filter(rows[1..], keep);
      assert ([rows[0]] + t)[1..] == t;
      [rows[0]] + t
    else Filter(rows[1..], keep)
  }

  /** A mask that keeps everything changes nothing. */
  lemma {:induction false} FilterKeepsAll(rows: seq<Row>, keep: Row -> bool)
    requires forall i :: 0 <= i < |rows| ==> keep(rows[i])
    ensures Filter(rows, keep) == rows
  {
    if |rows| > 0 {
      FilterKeepsAll(rows[1..], keep);
    }
  }

  /** Filtering twice is filtering once by both conditions. */
  lemma {:induction false} FilterFilter(rows: seq<Row>)
    ensures Filter(Filter(rows, HasLabel), HasText) == Filter(rows, Complete)
  {
    if |rows| > 0 {
      FilterFilter(rows[1..]);
    }
  }

  /** Lines 99-100: the label filter, applied when some label is missing. */
  function DropMissingLabels(rows: seq<Row>): (r: seq<Row>)
    ensures r == Filter(rows, HasLabel)
  {
    if exists i :: 0 <= i < |rows| && rows[i].tag.None? then Filter(rows, HasLabel)
    else
      FilterKeepsAll(rows, HasLabel);
      rows
  }

  /** Lines 104-105: the text filter, applied when some text is missing. */
  function DropMissingTexts(rows: seq<Row>): (r: seq<Row>)
    ensures r == Filter(rows, HasText)
  {
    if exists i :: 0 <= i < |rows| && rows[i].text.None? then Filter(rows, HasText)
    else
      FilterKeepsAll(rows, HasText);
      rows
  }

  /** The frame the rest of the training works on. */
  function Clean(rows: seq<Row>): (r: seq<Row>)
    ensures forall x :: x in r ==> x in rows && Complete(x)
  {
    DropMissingTexts(DropMissingLabels(rows))
  }

  /** The cleaned frame is exactly the complete rows, in their original order:
      no missing label or text survives and no complete row is lost. */
  lemma CleanKeepsCompleteRows(rows: seq<Row>)
    ensures Clean(rows) == Filter(rows, Complete)
    ensures forall x :: x in Clean(rows) ==> x.tag.Some? && x.text.Some?
    ensures forall x :: x in rows && x.tag.Some? && x.text.Some? ==> x in Clean(rows)
    ensures IsSubsequence(Clean(rows), rows)
  {
    FilterFilter(rows);
  }

  // ---------------------------------------------------------------------
  // Label numbering
  // ---------------------------------------------------------------------

  /** `dropna()` on a column. */
  function DropNa(cells: seq<Option<string>>): (r: seq<string>)
    ensures forall l :: l in r <==> Some(l) in cells
  {
    if |cells| == 0 then []
    else if cells[0].None? then DropNa(cells[1..])
    else
      assert cells == [cells[0]] + cells[1..];
      [cells[0].value] + DropNa(cells[1..])
  }

  /** The label column. */
  function Tags(rows: seq<Row>): seq<Option<string>>
  {
    seq(|rows|, i requires 0 <= i < |rows| => rows[i].tag)
  }

  /** Line 110: `sorted(list(df[col_label].dropna().unique()))`. */
  function Labels(rows: seq<Row>): (r: seq<string>)
    ensures StrictlySorted(r)
    ensures NoDuplicates(r)
    ensures forall l :: l in r <==> Some(l) in Tags(rows)
  {
    var r := SortedDistinct(DropNa(Tags(rows)));
    SortedIsDistinct(r);
    r
  }

  /** Line 111: `{j: i for i, j in enumerate(labels)}`, built entry by
      entry, so a repeated label keeps its last position. */
  function Label2Id(labels: seq<string>): (r: map<string, int>)
    ensures r.Keys == set x | x in labels
    ensures forall x :: x in r ==> 0 <= r[x] < |labels|
  {
    if |labels| == 0 then map[]
    else Label2Id(labels[..|labels| - 1])[labels[|labels| - 1] := |labels| - 1]
  }

  /** `label2id` has a key for every label and maps it to the label's last
      position. */
  lemma {:induction false} Label2IdLastPosition(labels: seq<string>)
    ensures forall x :: x in Label2Id(labels) <==> x in labels
    ensures forall x :: x in Label2Id(labels) ==>
              0 <= Label2Id(labels)[x] < |labels| && labels[Label2Id(labels)[x]] == x
    ensures forall x, j :: x in Label2Id(labels) && Label2Id(labels)[x] < j < |labels| ==> labels[j] != x
  {
    if |labels| > 0 {
      var n := |labels| - 1;
      var init := labels[..n];
      Label2IdLastPosition(init);
      assert labels == init + [labels[n]];
      forall x | x in Label2Id(init) && x != labels[n]
        ensures Label2Id(labels)[x] == Label2Id(init)[x]
        ensures labels[Label2Id(init)[x]] == x
        ensures forall j :: Label2Id(init)[x] < j < |labels| ==> labels[j] != x
      {
        assert forall j :: Label2Id(init)[x] < j < n ==> init[j] != x;
      }
    }
  }

  /** Line 112: `{i: j for i, j in enumerate(labels)}`. */
  function Id2Label(labels: seq<string>): (r: map<int, string>)
    ensures forall i :: i in r <==> 0 <= i < |labels|
    ensures r.Values == set x | x in labels
  {
    var r := map i | 0 <= i < |labels| :: labels[i];
    assert forall i :: 0 <= i < |labels| ==> labels[i] in r.Values by {
      forall i | 0 <= i < |labels| ensures labels[i] in r.Values {
        assert r[i] == labels[i];
      }
    }
    r
  }

  /** On a duplicate-free label list the two maps are mutual inverses and the
      ids are exactly `0 .. len(labels) - 1`. */
  lemma LabelMapsInverse(labels: seq<string>)
    requires NoDuplicates(labels)
    ensures forall i :: i in Label2Id(labels).Values <==> 0 <= i < |labels|
    ensures forall i :: i in Id2Label(labels) <==> 0 <= i < |labels|
    ensures forall x :: x in Label2Id(labels) ==>
              Label2Id(labels)[x] in Id2Label(labels) && Id2Label(labels)[Label2Id(labels)[x]] == x
    ensures forall i :: i in Id2Label(labels) ==>
              Id2Label(labels)[i] in Label2Id(labels) && Label2Id(labels)[Id2Label(labels)[i]] == i
  {
    var m := Label2Id(labels);
    Label2IdLastPosition(labels);
    forall i | 0 <= i < |labels| ensures labels[i] in m && m[labels[i]] == i {
      assert labels[i] in labels;
    }
    forall i | 0 <= i < |labels| ensures i in m.Values {
      assert m[labels[i]] == i;
    }
  }

  /** A label cell after `.replace(label2id)`: a number when the label is a
      key, the value unchanged otherwise, a missing cell untouched. */
  datatype Encoded = Id(id: int) | Kept(value: string) | Missing

  function Replace(cell: Option<string>, label2id: map<string, int>): (e: Encoded)
    ensures cell.None? ==> e == Missing
    ensures cell.Some? && cell.value in label2id ==> e == Id(label2id[cell.value])
    ensures cell.Some? && cell.value !in label2id ==> e == Kept(cell.value)
  {
    match cell
    case None => Missing
    case Some(l) => if l in label2id then Id(label2id[l]) else Kept(l)
  }

  /** Line 114: the encoded `labels` column. */
  function EncodeColumn(rows: seq<Row>, label2id: map<string, int>): (c: seq<Encoded>)
    ensures |c| == |rows|
    ensures forall i :: 0 <= i < |rows| ==> c[i] == Replace(rows[i].tag, label2id)
  {
    seq(|rows|, i requires 0 <= i < |rows| => Replace(rows[i].tag, label2id))
  }

  /** On the cleaned frame every cell becomes a number in
      `[0, len(labels))`, and `id2label` maps it back to the original label. */
  lemma EncodingInRange(rows: seq<Row>)
    ensures var c := Clean(rows);
            var labels := Labels(c);
            var enc := EncodeColumn(c, Label2Id(labels));
            forall i :: 0 <= i < |c| ==>
              && enc[i].Id?
              && 0 <= enc[i].id < |labels|
              && Id2Label(labels)[enc[i].id] == c[i].tag.value
  {
    var c := Clean(rows);
    var labels := Labels(c);
    var m := Label2Id(labels);
    var enc := EncodeColumn(c, m);
    CleanKeepsCompleteRows(rows);
    Label2IdLastPosition(labels);
    forall i | 0 <= i < |c|
      ensures enc[i].Id? && 0 <= enc[i].id < |labels| && Id2Label(labels)[enc[i].id] == c[i].tag.value
    {
      assert c[i] in c;
      var l := c[i].tag.value;
      assert Tags(c)[i] == Some(l);
      assert l in labels;
      assert enc[i] == Id(m[l]);
    }
  }

  // ---------------------------------------------------------------------
  // Saved parameters
  // ---------------------------------------------------------------------

  /** A JSON-serialisable parameter value. */
  datatype ParamValue = Str(s: string) | Num(x: real) | Flag(b: bool)

  /** Lines 211-212: the parameters written to `parameters.json`. */
  function SavedParams(params: map<string, ParamValue>, testSize: real, baseModel: string): (r: map<string, ParamValue>)
    ensures r.Keys == params.Keys + {"test_size", "base_model"}
    ensures r["test_size"] == Num(testSize) && r["base_model"] == Str(baseModel)
    ensures forall k :: k in params && k != "test_size" && k != "base_model" ==> r[k] == params[k]
  {
    params["test_size" := Num(testSize)]["base_model" := Str(baseModel)]
  }

  /** Saving parameters that were already saved with the same split and base
      model writes the same file: a model retrained from its own saved
      parameters records them unchanged. */
  lemma SavedParamsIdempotent(params: map<string, ParamValue>, testSize: real, baseModel: string)
    ensures SavedParams(SavedParams(params, testSize, baseModel), testSize, baseModel)
            == SavedParams(params, testSize, baseModel)
  {
  }

  // ---------------------------------------------------------------------
  // The saved training data and the outcome of `process`
  // ---------------------------------------------------------------------

  /** A two-column data frame: its column names and its rows. */
  datatype Table = Table(columns: seq<string>, data: seq<(Option<string>, Option<string>)>)

  /** `DataFrame.to_parquet`: a frame whose column names repeat is refused
      with pyarrow's `ValueError`; any other frame is written as it is. */
  function ToParquet(t: Table): (r: Result<Table>)
    ensures r.Ok? <==> NoDuplicates(t.columns)
    ensures r.Ok? ==> r.value == t
  {
    if NoDuplicates(t.columns) then Ok(t)
    else Raised("ValueError: Duplicate column names found")
  }

  /** A column list naming one column twice has duplicates. */
  lemma RepeatedColumn(col: string)
    ensures !NoDuplicates([col, col])
  {
    assert [col, col][0] == [col, col][1];
  }

  /** Line 113 as written: `df[[col_label, col_label]]`, the label column
      selected twice. */
  function TrainingDataAsWritten(rows: seq<Row>, colLabel: string): (r: Table)
    ensures r.columns == [colLabel, colLabel]
    ensures |r.data| == |rows|
    ensures forall i :: 0 <= i < |rows| ==> r.data[i].0 == r.data[i].1 == rows[i].tag
  {
    Table([colLabel, colLabel], seq(|rows|, i requires 0 <= i < |rows| => (rows[i].tag, rows[i].tag)))
  }

  /** The frame built at line 113 cannot be written: its column name repeats
      whatever the rows and the column's name are. */
  lemma TrainingDataAsWrittenUnwritable(rows: seq<Row>, colLabel: string)
    ensures ToParquet(TrainingDataAsWritten(rows, colLabel)).Raised?
  {
    RepeatedColumn(colLabel);
  }

  /** The texts are not even in the frame built at line 113: two frames
      with the same labels row by row give the same one, whatever their
      texts. */
  lemma TrainingDataAsWrittenLosesTexts(a: seq<Row>, b: seq<Row>, colLabel: string)
    requires |a| == |b|
    requires forall i :: 0 <= i < |a| ==> a[i].tag == b[i].tag
    ensures TrainingDataAsWritten(a, colLabel) == TrainingDataAsWritten(b, colLabel)
  {
    var ta := TrainingDataAsWritten(a, colLabel);
    var tb := TrainingDataAsWritten(b, colLabel);
    assert forall i :: 0 <= i < |ta.data| ==> ta.data[i] == tb.data[i];
  }

  /** An instance: two cleaned one-row frames whose texts differ. */
  lemma TrainingDataAsWrittenLosesTextsExample()
    ensures var a := [Row(Some("first text"), Some("pos"))];
            var b := [Row(Some("second text"), Some("pos"))];
            Clean(a) != Clean(b) && TrainingDataAsWritten(Clean(a), "label") == TrainingDataAsWritten(Clean(b), "label")
  {
    var a := [Row(Some("first text"), Some("pos"))];
    var b := [Row(Some("second text"), Some("pos"))];
    assert Clean(a) == a by { FilterKeepsAll(a, HasLabel); FilterKeepsAll(a, HasText); }
    assert Clean(b) == b by { FilterKeepsAll(b, HasLabel); FilterKeepsAll(b, HasText); }
    assert a[0] != b[0];
    TrainingDataAsWrittenLosesTexts(a, b, "label");
  }

  /** The training data as evidently intended: `df[[col_text, col_label]]`. */
  function TrainingData(rows: seq<Row>, colText: string, colLabel: string): (r: Table)
    ensures r.columns == [colText, colLabel]
    ensures |r.data| == |rows|
  {
    Table([colText, colLabel], seq(|rows|, i requires 0 <= i < |rows| => (rows[i].text, rows[i].tag)))
  }

  /** Rows rebuilt from saved training data. */
  function RowsOf(data: seq<(Option<string>, Option<string>)>): seq<Row>
  {
    seq(|data|, i requires 0 <= i < |data| => Row(data[i].0, data[i].1))
  }

  /** The corrected training data loses nothing: the cleaned frame is rebuilt
      from it. */
  lemma TrainingDataRoundTrip(rows: seq<Row>, colText: string, colLabel: string)
    ensures RowsOf(TrainingData(rows, colText, colLabel).data) == rows
  {
    assert forall i :: 0 <= i < |rows| ==> RowsOf(TrainingData(rows, colText, colLabel).data)[i] == rows[i];
  }

  /** The corrected training data can be written exactly when the text and
      label columns are two different columns. */
  lemma TrainingDataWritable(rows: seq<Row>, colText: string, colLabel: string)
    ensures ToParquet(TrainingData(rows, colText, colLabel)).Ok? <==> colText != colLabel
  {
    if colText == colLabel {
      RepeatedColumn(colText);
    }
  }

  /** How far the training got, which the model cannot compute: finished;
      raised inside the `try` before or after `trainer` was bound (for
      instance a missing parameter key before, a trainer error after); or
      raised before the `try` even began (the tokenizer or model load, the
      `"adapt"` parameter, the train/test split), with that exception. */
  datatype Training = Trained | FailedBeforeTrainer | FailedAfterTrainer | FailedBeforeTry(error: string)

  /** What a successful run leaves on disk and in the model configuration. */
  datatype Saved = Saved(
    trainingData: Table,
    params: map<string, ParamValue>,
    labels: seq<string>,
    label2id: map<string, int>,
    id2label: map<int, string>)

  /** `process` as written. Inside the `try`, a finished training first writes
      the frame of line 113, which `to_parquet` refuses; the `except` branch
      then deletes the whole model directory and `process` returns `None`.
      A trainer failure ends the same way. The `finally` clause deletes
      `trainer`, which a failure before line 190 left unbound, so that
      failure surfaces as `UnboundLocalError`. A failure before the `try`
      runs neither clause: its exception leaves `process` unchanged. */
  function ProcessAsWritten(rows: seq<Row>, params: map<string, ParamValue>, testSize: real,
                            baseModel: string, colLabel: string, training: Training): (r: Result<Option<Saved>>)
    ensures r.Raised? <==> training == FailedBeforeTrainer || training.FailedBeforeTry?
    ensures training.FailedBeforeTry? ==> r == Raised(training.error)
    ensures training == FailedBeforeTrainer ==> r == Raised("UnboundLocalError")
    ensures r.Ok? ==> r.value.None?
  {
    var c := Clean(rows);
    var labels := Labels(c);
    match training
    case Trained =>
      TrainingDataAsWrittenUnwritable(c, colLabel);
      (match ToParquet(TrainingDataAsWritten(c, colLabel))
       case Raised(_) => Ok(None)
       case Ok(t) =>
         Ok(Some(Saved(t, SavedParams(params, testSize, baseModel),
                       labels, Label2Id(labels), Id2Label(labels)))))
    case FailedBeforeTrainer => Raised("UnboundLocalError")
    case FailedAfterTrainer => Ok(None)
    case FailedBeforeTry(e) => Raised(e)
  }

  /** As written, `process` never saves a model: a finished training is
      discarded exactly like a failed one. */
  lemma ProcessAsWrittenNeverSucceeds(rows: seq<Row>, params: map<string, ParamValue>, testSize: real,
                                      baseModel: string, colLabel: string)
    ensures ProcessAsWritten(rows, params, testSize, baseModel, colLabel, Trained)
            == ProcessAsWritten(rows, params, testSize, baseModel, colLabel, FailedAfterTrainer)
            == Ok(None)
  {
  }

  /** An early failure, which the `except` branch was written to absorb,
      escapes as a different exception. */
  lemma ProcessAsWrittenEarlyFailureEscapes(rows: seq<Row>, params: map<string, ParamValue>, testSize: real,
                                            baseModel: string, colLabel: string)
    ensures ProcessAsWritten(rows, params, testSize, baseModel, colLabel, FailedBeforeTrainer).Raised?
    ensures ProcessAsWritten(rows, params, testSize, baseModel, colLabel, FailedBeforeTrainer) == Raised("UnboundLocalError")
  {
  }

  /** `process` as evidently intended: any failure inside the `try` is
      absorbed and reported as `None`; on success the saved artefacts carry
      the texts, the numbered labels and the augmented parameters. Writing
      the training data still fails when the text and label columns are the
      same column. A failure before the `try` propagates, as in the code. */
  function Process(rows: seq<Row>, params: map<string, ParamValue>, testSize: real,
                   baseModel: string, colText: string, colLabel: string, training: Training): (r: Result<Option<Saved>>)
    ensures r.Raised? <==> training.FailedBeforeTry?
    ensures training.FailedBeforeTry? ==> r == Raised(training.error)
    ensures r.Ok? ==> (r.value.None? <==> training != Trained || colText == colLabel)
    ensures r.Ok? && r.value.Some? ==> RowsOf(r.value.value.trainingData.data) == Clean(rows)
    ensures r.Ok? && r.value.Some? ==> r.value.value.trainingData.columns == [colText, colLabel]
    ensures r.Ok? && r.value.Some? ==> r.value.value.params == SavedParams(params, testSize, baseModel)
    ensures r.Ok? && r.value.Some? ==> StrictlySorted(r.value.value.labels)
    ensures r.Ok? && r.value.Some? ==> forall x :: x in r.value.value.label2id ==>
              r.value.value.label2id[x] in r.value.value.id2label
              && r.value.value.id2label[r.value.value.label2id[x]] == x
    ensures r.Ok? && r.value.Some? ==> forall i :: 0 <= i < |r.value.value.labels| <==> i in r.value.value.id2label
  {
    var c := Clean(rows);
    var labels := Labels(c);
    match training
    case FailedBeforeTry(e) => Raised(e)
    case Trained =>
      TrainingDataRoundTrip(c, colText, colLabel);
      TrainingDataWritable(c, colText, colLabel);
      LabelMapsInverse(labels);
      (match ToParquet(TrainingData(c, colText, colLabel))
       case Raised(_) => Ok(None)
       case Ok(t) =>
         Ok(Some(Saved(t, SavedParams(params, testSize, baseModel),
                       labels, Label2Id(labels), Id2Label(labels)))))
    case FailedBeforeTrainer => Ok(None)
    case FailedAfterTrainer => Ok(None)
  }

  /** The code and the corrected `process` agree on every failure the code
      absorbs and on every failure before the `try`; they part only on a
      finished training, which the corrected one saves and the code
      discards. */
  lemma ProcessAsWrittenVersusCorrected(rows: seq<Row>, params: map<string, ParamValue>, testSize: real,
                                        baseModel: string, colText: string, colLabel: string, training: Training)
    requires training != FailedBeforeTrainer
    ensures var w := ProcessAsWritten(rows, params, testSize, baseModel, colLabel, training);
            var p := Process(rows, params, testSize, baseModel, colText, colLabel, training);
            && (training.FailedBeforeTry? ==> w == p == Raised(training.error))
            && (!training.FailedBeforeTry? ==> w == Ok(None) && p.Ok?)
            && (p.Ok? && p.value.Some? <==> training == Trained && colText != colLabel)
  {
  }

  // ---------------------------------------------------------------------
  // clean
  // ---------------------------------------------------------------------

  /** The Python values a task can hand back. */
  datatype PyObj =
    | PyDict(entries: map<string, PyObj>)
    | PyStr(s: string)
    | PyList(items: seq<PyObj>)
    | PyInt(n: int)
    | PyNone

  /** Python's `sub in s` on two strings: the recursive search. */
  predicate IsSubstring(sub: string, s: string)
    ensures sub == [] ==> IsSubstring(sub, s)
    ensures IsSubstring(sub, s) ==> |sub| <= |s|
    decreases |s|
  {
    |sub| <= |s| && (s[..|sub|] == sub || IsSubstring(sub, s[1..]))
  }

  /** A pattern occurs in any string it ends. */
  lemma {:induction false} IsSubstringOfSuffix(sub: string, s: string)
    requires |sub| <= |s| && s[|s| - |sub|..] == sub
    ensures IsSubstring(sub, s)
    decreases |s|
  {
    if s[..|sub|] != sub {
      assert s[1..][|s[1..]| - |sub|..] == s[|s| - |sub|..];
      IsSubstringOfSuffix(sub, s[1..]);
    }
  }

  /** `sub` occurs in `s` starting at position `i`. */
  predicate OccursAt(sub: string, s: string, i: int)
  {
    0 <= i <= |s| - |sub| && s[i..i + |sub|] == sub
  }

  /** The search finds `sub` exactly when it occurs somewhere in `s`. */
  lemma {:induction false} IsSubstringAt(sub: string, s: string)
    ensures IsSubstring(sub, s) <==> exists i :: OccursAt(sub, s, i)
    decreases |s|
  {
    if |sub| <= |s| && s[..|sub|] != sub {
      IsSubstringAt(sub, s[1..]);
      if IsSubstring(sub, s) {
        var i :| OccursAt(sub, s[1..], i);
        assert s[1..][i..i + |sub|] == s[i + 1..i + 1 + |sub|];
        assert OccursAt(sub, s, i + 1);
      }
      if exists i :: OccursAt(sub, s, i) {
        var i :| OccursAt(sub, s, i);
        assert i != 0;
        assert s[1..][i - 1..i - 1 + |sub|] == s[i..i + |sub|];
        assert OccursAt(sub, s[1..], i - 1);
      }
    } else if |sub| <= |s| {
      assert OccursAt(sub, s, 0);
    }
  }

  /** Python's `item in container` for a string `item`. */
  function Contains(container: PyObj, item: string): (r: Result<bool>)
    ensures container.PyStr? ==> r == Ok(IsSubstring(item, container.s))
    ensures container.PyList? ==> r == Ok(PyStr(item) in container.items)
    ensures container.PyDict? ==> r == Ok(item in container.entries)
    ensures r.Raised? <==> container.PyInt? || container.PyNone?
  {
    match container
    case PyStr(s) => Ok(IsSubstring(item, s))
    case PyList(items) => Ok(PyStr(item) in items)
    case PyDict(entries) => Ok(item in entries)
    case PyInt(_) => Raised("TypeError: argument of type 'int' is not iterable")
    case PyNone => Raised("TypeError: argument of type 'NoneType' is not iterable")
  }

  const PredictionFile := "predict_train.parquet"

  /** `clean(result)`: raises on anything but a dict; returns the path when it
      names the training predictions, `None` otherwise. */
  function CleanResult(result: PyObj): (r: Result<Option<PyObj>>)
    ensures !result.PyDict? ==> r == Raised("Probleme with the function")
    ensures result.PyDict? && "path" !in result.entries ==> r == Ok(None)
    ensures result.PyDict? && "path" in result.entries ==>
              match Contains(result.entries["path"], PredictionFile)
              case Raised(e) => r == Raised(e)
              case Ok(found) => r == if found then Ok(Some(result.entries["path"])) else Ok(None)
  {
    if !result.PyDict? then Raised("Probleme with the function")
    else if "path" !in result.entries then Ok(None)
    else
      var path := result.entries["path"];
      match Contains(path, PredictionFile)
      case Raised(e) => Raised(e)
      case Ok(found) => if found then Ok(Some(path)) else Ok(None)
  }

  /** For a string path: `clean` returns it exactly when the file name occurs
      in it, and otherwise returns `None`. */
  lemma CleanReturnsPredictionPath(result: PyObj)
    requires result.PyDict? && "path" in result.entries && result.entries["path"].PyStr?
    ensures var p := result.entries["path"].s;
            CleanResult(result) == if exists i :: OccursAt(PredictionFile, p, i)
                                   then Ok(Some(result.entries["path"])) else Ok(None)
  {
    IsSubstringAt(PredictionFile, result.entries["path"].s);
  }

  /** Whatever `clean` returns is the `path` entry of the dict it was given. */
  lemma CleanReturnsOnlyThePath(result: PyObj)
    requires CleanResult(result).Ok? && CleanResult(result).value.Some?
    ensures result.PyDict? && "path" in result.entries
    ensures CleanResult(result).value.value == result.entries["path"]
  {
  }
}
