/**
 * The Excel writer: flattening `(qa_pairs, source, content)` triples into
 * spreadsheet rows, and naming the output file.
 *
 * The pandas/openpyxl write, the clock and directory creation are not
 * modelled: whether the write succeeds and the formatted timestamp are inputs.
 */
module ExcelOutput {
  import opened Wrappers
  import opened Json
  import Paths
  import Sequences
  import opened QaGeneration

  const DefaultOutputDir: string := "output"

  /** One spreadsheet row: `{'question': ..., 'answer': ..., 'source': ...}`. */
  datatype Row = Row(question: Json, answer: Json, source: string)

  /** `qa_pair.get(key, '')` on a dict. */
  function FieldOrEmpty(fields: map<string, Json>, key: string): Json
  {
    if key in fields then fields[key] else JString("")
  }

  /** The row of one pair; `None` stands for the AttributeError that `.get`
      raises on anything but a dict. */
  function PairRow(pair: Json, source: string): (r: Option<Row>)
    ensures r.Some? <==> pair.JObject?
    ensures r.Some? ==> r.value == Row(FieldOrEmpty(pair.fields, "question"), FieldOrEmpty(pair.fields, "answer"), source)
  {
    match (Get(pair, "question", JString("")), Get(pair, "answer", JString("")))
    case (Some(q), Some(a)) => Some(Row(q, a, source))
    case _ => None
  }

  /** The rows of a list of pairs, in list order. */
  function PairsRows(pairs: seq<Json>, source: string): Option<seq<Row>>
  {
    if pairs == [] then Some([])
    else
      match (PairsRows(pairs[..|pairs| - 1], source), PairRow(pairs[|pairs| - 1], source))
      case (Some(rows), Some(row)) => Some(rows + [row])
      case _ => None
  }

  /**
   * The rows of one triple, from `for qa_pair in qa_pairs`: a list gives its
   * entries; an empty str or dict gives nothing; a non-empty str or dict gives
   * strings, whose `.get` raises; any other value is not iterable.
   */
  function TripleRows(t: Triple): Option<seq<Row>>
  {
    match t.qaPairs
    case JArray(items) => PairsRows(items, t.source)
    case JString(s) => if s == "" then Some([]) else None
    case JObject(fields) => if fields == map[] then Some([]) else None
    case _ => None
  }

  /** The `data` list `save_qa_pairs` builds, or `None` when building it raises. */
  function Rows(qaPairsList: seq<Triple>): Option<seq<Row>>
  {
    if qaPairsList == [] then Some([])
    else
      match (Rows(qaPairsList[..|qaPairsList| - 1]), TripleRows(qaPairsList[|qaPairsList| - 1]))
      case (Some(rows), Some(more)) => Some(rows + more)
      case _ => None
  }

  /** `qa_pairs_<timestamp>.xlsx`. */
  function OutputName(timestamp: string): string
  {
    "qa_pairs_" + timestamp + ".xlsx"
  }

  /** The saved file is `qa_pairs_`, the timestamp and `.xlsx`, inside the
      output directory: a timestamp without `/` (as `%Y%m%d_%H%M%S` gives)
      makes the output name the basename of the returned path. */
  lemma SavedFileName(outputDir: string, timestamp: string)
    requires '/' !in timestamp
    ensures var name := OutputName(timestamp);
      |name| == |timestamp| + 14 &&
      name[..9] == "qa_pairs_" && name[9..|name| - 5] == timestamp && name[|name| - 5..] == ".xlsx" &&
      Paths.Basename(Paths.Join(outputDir, name)) == name
  {
    var name := OutputName(timestamp);
    assert name[..9] == "qa_pairs_";
    assert name[9..|name| - 5] == timestamp;
    assert name[|name| - 5..] == ".xlsx";
    assert '/' !in name;
    Paths.BasenameOfJoin(outputDir, name);
  }

  /** The pair containers the writer can iterate without raising. */
  predicate Writable(v: Json)
  {
    match v
    case JArray(items) => forall i :: 0 <= i < |items| ==> items[i].JObject?
    case JString(s) => s == ""
    case JObject(fields) => fields == map[]
    case _ => false
  }

  /** How many pairs a container holds, `len(qa_pairs)` where it is defined. */
  function PairCount(v: Json): nat
  {
    if Len(v).Some? then Len(v).value else 0
  }

  function TotalPairs(qaPairsList: seq<Triple>): nat
  {
    if qaPairsList == [] then 0
    else TotalPairs(qaPairsList[..|qaPairsList| - 1]) + PairCount(qaPairsList[|qaPairsList| - 1].qaPairs)
  }

  /** Every entry of a list of dicts gives its row, in order, carrying the
      given source; a list with a non-dict entry gives none. */
  lemma {:induction false} PairsRowsSpec(pairs: seq<Json>, source: string)
    ensures PairsRows(pairs, source).Some? <==> forall i :: 0 <= i < |pairs| ==> pairs[i].JObject?
    ensures PairsRows(pairs, source).Some? ==>
      var rows := PairsRows(pairs, source).value;
      |rows| == |pairs| &&
      forall i :: 0 <= i < |pairs| ==>
        rows[i] == Row(FieldOrEmpty(pairs[i].fields, "question"), FieldOrEmpty(pairs[i].fields, "answer"), source)
  {
    if pairs != [] {
      var init := pairs[..|pairs| - 1];
      PairsRowsSpec(init, source);
      assert forall i :: 0 <= i < |init| ==> init[i] == pairs[i];
    }
  }

  /** One triple's rows exist exactly when its container is writable, and then
      there is one row per pair. */
  lemma TripleRowsSpec(t: Triple)
    ensures TripleRows(t).Some? <==> Writable(t.qaPairs)
    ensures TripleRows(t).Some? ==> |TripleRows(t).value| == PairCount(t.qaPairs)
  {
    if t.qaPairs.JArray? {
      PairsRowsSpec(t.qaPairs.items, t.source);
    } else if t.qaPairs.JObject? && t.qaPairs.fields == map[] {
      assert |t.qaPairs.fields| == 0;
    }
  }

  /** A file is written exactly when every triple's container is writable; then
      the number of rows is the total number of pairs. */
  lemma {:induction false} RowsSpec(qaPairsList: seq<Triple>)
    ensures Rows(qaPairsList).Some? <==> forall k :: 0 <= k < |qaPairsList| ==> Writable(qaPairsList[k].qaPairs)
    ensures Rows(qaPairsList).Some? ==> |Rows(qaPairsList).value| == TotalPairs(qaPairsList)
  {
    if qaPairsList != [] {
      var init := qaPairsList[..|qaPairsList| - 1];
      RowsSpec(init);
      TripleRowsSpec(qaPairsList[|qaPairsList| - 1]);
      assert forall k :: 0 <= k < |init| ==> init[k] == qaPairsList[k];
    }
  }

  /** Rows follow triple order: the rows of a concatenation are the
      concatenated rows. */
  lemma {:induction false} RowsAppend(a: seq<Triple>, b: seq<Triple>)
    ensures Rows(a + b) ==
      if Rows(a).Some? && Rows(b).Some? then Some(Rows(a).value + Rows(b).value) else None
    decreases |b|
  {
    if b == [] {
      assert a + b == a;
      if Rows(a).Some? {
        Sequences.AppendEmpty(Rows(a).value);
      }
    } else {
      var b', last := b[..|b| - 1], b[|b| - 1];
      Sequences.DropLastOfAppend(a, b);
      RowsAppend(a, b');
      if Rows(a).Some? && Rows(b').Some? && TripleRows(last).Some? {
        Sequences.AppendAssoc(Rows(a).value, Rows(b').value, TripleRows(last).value);
      }
    }
  }

  /** The triple's third component never reaches the rows. */
  lemma {:induction false} RowsIgnoreContent(qaPairsList: seq<Triple>, contents: seq<string>)
    requires |contents| == |qaPairsList|
    ensures Rows(qaPairsList) ==
      Rows(seq(|qaPairsList|, k requires 0 <= k < |qaPairsList| => qaPairsList[k].(content := contents[k])))
  {
    if qaPairsList != [] {
      var n := |qaPairsList|;
      var other := seq(n, k requires 0 <= k < n => qaPairsList[k].(content := contents[k]));
      var init := qaPairsList[..n - 1];
      RowsIgnoreContent(init, contents[..n - 1]);
      assert other[..n - 1] == seq(n - 1, k requires 0 <= k < n - 1 => init[k].(content := contents[..n - 1][k]));
    }
  }

  /** The rows of the first `k + 1` triples extend those of the first `k`. */
  lemma RowsStep(qaPairsList: seq<Triple>, k: nat)
    requires k < |qaPairsList|
    ensures Rows(qaPairsList[..k + 1]) ==
      match (Rows(qaPairsList[..k]), TripleRows(qaPairsList[k]))
      case (Some(rows), Some(more)) => Some(rows + more)
      case _ => None
  {
    Sequences.PrefixStep(qaPairsList, k);
  }

  /** The rows of the first `p + 1` pairs extend those of the first `p`. */
  lemma PairsRowsStep(pairs: seq<Json>, p: nat, source: string)
    requires p < |pairs|
    ensures PairsRows(pairs[..p + 1], source) ==
      match (PairsRows(pairs[..p], source), PairRow(pairs[p], source))
      case (Some(rows), Some(row)) => Some(rows + [row])
      case _ => None
  {
    Sequences.PrefixStep(pairs, p);
  }

  /** The writer for one output directory. */
  class ExcelWriter {
    const outputDir: string

    constructor(outputDir: string := DefaultOutputDir)
      ensures this.outputDir == outputDir
    {
      this.outputDir := outputDir;
    }

    /**
     * `save_qa_pairs`: `sheet` is what the file receives and `filepath` what
     * the call returns; `""` and no file when building the rows or the write
     * (`writeSucceeds`) fails.
     */
    method SaveQaPairs(qaPairsList: seq<Triple>, timestamp: string, writeSucceeds: bool)
      returns (filepath: string, sheet: Option<seq<Row>>)
      ensures sheet == if Rows(qaPairsList).Some? && writeSucceeds then Rows(qaPairsList) else None
      ensures filepath == if sheet.Some? then Paths.Join(outputDir, OutputName(timestamp)) else ""
    {
      var data: seq<Row> := [];
      for k := 0 to |qaPairsList|
        invariant Rows(qaPairsList[..k]) == Some(data)
      {
        RowsStep(qaPairsList, k);
        var t := qaPairsList[k];
        match t.qaPairs {
          case JArray(qaPairs) =>
            ghost var before := data;
            for p := 0 to |qaPairs|
              invariant PairsRows(qaPairs[..p], t.source).Some?
              invariant data == before + PairsRows(qaPairs[..p], t.source).value
            {
              PairsRowsStep(qaPairs, p, t.source);
              var qaPair := qaPairs[p];
              if !qaPair.JObject? {
                RowsFailAt(qaPairsList, k, qaPairs, p, t.source);
                return "", None;
              }
              var row := Row(FieldOrEmpty(qaPair.fields, "question"), FieldOrEmpty(qaPair.fields, "answer"), t.source);
              Sequences.AppendAssoc(before, PairsRows(qaPairs[..p], t.source).value, [row]);
              data := data + [row];
            }
            Sequences.TakeAll(qaPairs);
          case JString(s) =>
            if s != "" {
              RowsFailFrom(qaPairsList, k);
              return "", None;
            }
            Sequences.AppendEmpty(data);
          case JObject(fields) =>
            if fields != map[] {
              RowsFailFrom(qaPairsList, k);
              return "", None;
            }
            Sequences.AppendEmpty(data);
          case _ =>
            RowsFailFrom(qaPairsList, k);
            return "", None;
        }
      }
      Sequences.TakeAll(qaPairsList);
      if !writeSucceeds {
        return "", None;
      }
      var filename := OutputName(timestamp);
      filepath := Paths.Join(outputDir, filename);
      sheet := Some(data);
    }
  }

  /** A triple whose rows cannot be built makes the whole list fail. */
  lemma RowsFailFrom(qaPairsList: seq<Triple>, k: nat)
    requires k < |qaPairsList| && TripleRows(qaPairsList[k]).None?
    ensures Rows(qaPairsList).None?
  {
    RowsSpec(qaPairsList);
    TripleRowsSpec(qaPairsList[k]);
  }

  /** A non-dict pair makes its triple, and so the whole list, fail. */
  lemma RowsFailAt(qaPairsList: seq<Triple>, k: nat, qaPairs: seq<Json>, p: nat, source: string)
    requires k < |qaPairsList| && qaPairsList[k].qaPairs == JArray(qaPairs) && qaPairsList[k].source == source
    requires p < |qaPairs| && !qaPairs[p].JObject?
    ensures Rows(qaPairsList).None?
  {
    PairsRowsSpec(qaPairs, source);
    RowsFailFrom(qaPairsList, k);
  }
}
