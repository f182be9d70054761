/**
 * The QA generator: one file's extraction-then-generation step, and the
 * fan-out over all PDF files of the directory with collection of the
 * non-empty results.
 *
 * The thread pool is not modelled. `as_completed` hands back each submitted
 * future once, in an order the model takes as the input `order`: a
 * permutation of the submission indices.
 */
module QaGeneration {
  import opened Wrappers
  import opened Json
  import Paths
  import Sequences
  import opened PdfProcessing
  import opened DeepSeek

  const DefaultPdfDir: string := "pdf_files"
  const DefaultNumQaPairs: int := 20
  const DefaultMaxWorkers: int := 3
  /** The `ValueError` message `ThreadPoolExecutor` raises for a pool size below one. */
  const PoolSizeMessage: string := "max_workers must be greater than 0"

  /**
   * An exception from outside the modelled steps (extraction and generation
   * catch their own): one caught by `process_pdf`'s handler, or one that
   * escapes it and is re-raised by `future.result()`.
   */
  datatype Fault = NoFault | RaisedInProcess | RaisedInFuture

  /** Everything the outside world decides for one file: its PDF, the
      service's reply, and whether an unforeseen exception occurs. */
  datatype FileRun = FileRun(doc: PdfDocument, reply: ChatOutcome, fault: Fault)

  /** `(qa_pairs, filename, content)`. */
  datatype Triple = Triple(qaPairs: Json, source: string, content: string)

  /** A finished `process_pdf` call: its triple and the chat requests it sent. */
  datatype FileResult = FileResult(triple: Triple, requests: seq<ChatRequest>)

  /** What `future.result()` does: return a result or raise. */
  datatype Completion = Completed(result: FileResult) | Raised

  /** `process_pdf(pdf_path)` as a value. */
  function ProcessOutcome(client: DeepSeekClient, numQaPairs: int, pdfPath: string, run: FileRun,
                          loads: string -> Loaded): Completion
  {
    if run.fault.RaisedInFuture? then Raised
    else if run.fault.RaisedInProcess? then
      Completed(FileResult(Triple(EmptyList, Paths.Basename(pdfPath), ""), []))
    else
      var (content, filename) := Extraction(pdfPath, run.doc);
      if content == "" then Completed(FileResult(Triple(EmptyList, filename, ""), []))
      else
        var g := client.GenerateQaPairs(content, run.reply, loads, numQaPairs);
        Completed(FileResult(Triple(g.pairs, filename, content), [g.request]))
  }

  /** Every triple names its file by basename, and its pairs are a value
      `len` accepts. */
  lemma ProcessTripleShape(client: DeepSeekClient, numQaPairs: int, pdfPath: string, run: FileRun,
                           loads: string -> Loaded)
    requires ProcessOutcome(client, numQaPairs, pdfPath, run, loads).Completed?
    ensures var t := ProcessOutcome(client, numQaPairs, pdfPath, run, loads).result.triple;
      t.source == Paths.Basename(pdfPath) && Len(t.qaPairs).Some?
  {
  }

  /** Empty extracted text: no request is sent, and the result is
      `([], filename, "")` whatever the service would have answered. */
  lemma EmptyContentSkipsGeneration(client: DeepSeekClient, numQaPairs: int, pdfPath: string,
                                    run: FileRun, reply: ChatOutcome, loads: string -> Loaded)
    requires run.fault.NoFault? && Extraction(pdfPath, run.doc).0 == ""
    ensures ProcessOutcome(client, numQaPairs, pdfPath, run, loads) ==
      Completed(FileResult(Triple(EmptyList, Paths.Basename(pdfPath), ""), []))
    ensures ProcessOutcome(client, numQaPairs, pdfPath, run.(reply := reply), loads) ==
      ProcessOutcome(client, numQaPairs, pdfPath, run, loads)
  {
  }

  /** Non-empty extracted text: exactly one request, for the unmodified text
      and the generator's pair count; the triple carries that text. */
  lemma ContentGeneratesOnce(client: DeepSeekClient, numQaPairs: int, pdfPath: string, run: FileRun,
                             loads: string -> Loaded)
    requires run.fault.NoFault? && Extraction(pdfPath, run.doc).0 != ""
    ensures var content := Extraction(pdfPath, run.doc).0;
      var g := client.GenerateQaPairs(content, run.reply, loads, numQaPairs);
      ProcessOutcome(client, numQaPairs, pdfPath, run, loads) ==
        Completed(FileResult(Triple(g.pairs, Paths.Basename(pdfPath), content), [g.request]))
  {
    ExtractionSpec(pdfPath, run.doc);
  }

  /** The submission indices `0 .. n-1`. */
  function Range(n: nat): (r: seq<nat>)
    ensures |r| == n && forall i :: 0 <= i < n ==> r[i] == i
  {
    seq(n, i => i)
  }

  lemma RangeInit(n: nat)
    ensures Range(n + 1)[..n] == Range(n) && Range(n + 1)[n] == n
  {
    assert Range(n + 1)[..n] == Range(n);
  }

  /** The completion order visits every submitted future exactly once. */
  ghost predicate IsPermutation(order: seq<nat>, n: nat)
  {
    multiset(order) == multiset(Range(n))
  }

  /** A completion order holds `n` entries, each the index of a submitted future. */
  lemma PermutationBounds(order: seq<nat>, n: nat)
    requires IsPermutation(order, n)
    ensures |order| == n
    ensures forall k :: 0 <= k < |order| ==> order[k] < n
  {
    assert |multiset(order)| == |multiset(Range(n))|;
    forall k | 0 <= k < |order|
      ensures order[k] < n
    {
      assert order[k] in multiset(Range(n));
    }
  }

  /** The concatenation of `f(i)` over `order`. */
  function ConcatMap<T>(order: seq<nat>, f: nat -> seq<T>): seq<T>
  {
    if order == [] then []
    else ConcatMap(order[..|order| - 1], f) + f(order[|order| - 1])
  }

  /** One more completion appends that future's piece. */
  lemma ConcatMapStep<T>(order: seq<nat>, c: nat, f: nat -> seq<T>)
    requires c < |order|
    ensures ConcatMap(order[..c + 1], f) == ConcatMap(order[..c], f) + f(order[c])
  {
    assert order[..c + 1][..c] == order[..c];
  }

  lemma {:induction false} ConcatMapAppend<T>(a: seq<nat>, b: seq<nat>, f: nat -> seq<T>)
    ensures ConcatMap(a + b, f) == ConcatMap(a, f) + ConcatMap(b, f)
    decreases |b|
  {
    if b == [] {
      assert a + b == a;
      Sequences.AppendEmpty(ConcatMap(a, f));
    } else {
      var b', last := b[..|b| - 1], b[|b| - 1];
      Sequences.DropLastOfAppend(a, b);
      ConcatMapAppend(a, b', f);
      Sequences.AppendAssoc(ConcatMap(a, f), ConcatMap(b', f), f(last));
    }
  }

  lemma MultisetCancel(a: seq<nat>, b1: seq<nat>, b2: seq<nat>, x: nat)
    requires multiset(a + [x]) == multiset(b1 + [x] + b2)
    ensures multiset(a) == multiset(b1 + b2)
  {
    assert multiset(a + [x]) == multiset(a) + multiset{x};
    assert multiset(b1 + [x] + b2) == multiset(b1) + multiset{x} + multiset(b2);
    assert multiset(b1 + b2) == multiset(b1) + multiset(b2);
    assert multiset(a) == multiset(a + [x]) - multiset{x};
  }

  /** Reordering the indices reorders the pieces and nothing more. */
  lemma {:induction false} ConcatMapPermutation<T>(a: seq<nat>, b: seq<nat>, f: nat -> seq<T>)
    requires multiset(a) == multiset(b)
    ensures multiset(ConcatMap(a, f)) == multiset(ConcatMap(b, f))
    decreases |a|
  {
    if a == [] {
      assert |b| == |multiset(b)| == 0;
    } else {
      var a', x := a[..|a| - 1], a[|a| - 1];
      Sequences.SplitAt(a, |a| - 1);
      assert a == a' + [x];
      assert x in multiset(b);
      var j :| 0 <= j < |b| && b[j] == x;
      var b1, b2 := b[..j], b[j + 1..];
      Sequences.SplitAt(b, j);
      MultisetCancel(a', b1, b2, x);
      ConcatMapPermutation(a', b1 + b2, f);
      ConcatMapAppend(b1, b2, f);
      ConcatMapAppend(b1 + [x], b2, f);
      ConcatMapAppend(b1, [x], f);
      assert ConcatMap([x], f) == f(x) by {
        assert [x][..0] == [];
      }
      var c1, c2, cx := ConcatMap(b1, f), ConcatMap(b2, f), f(x);
      assert ConcatMap(b, f) == c1 + cx + c2;
      assert ConcatMap(a, f) == ConcatMap(a', f) + cx;
      assert multiset(ConcatMap(a', f)) == multiset(c1) + multiset(c2);
      assert multiset(c1 + cx + c2) == multiset(c1) + multiset(cx) + multiset(c2);
    }
  }

  lemma {:induction false} ConcatMapMembership<T>(order: seq<nat>, f: nat -> seq<T>, x: T)
    ensures x in ConcatMap(order, f) <==> exists k :: 0 <= k < |order| && x in f(order[k])
  {
    if order != [] {
      var init := order[..|order| - 1];
      ConcatMapMembership(init, f, x);
      assert forall k :: 0 <= k < |init| ==> init[k] == order[k];
    }
  }

  lemma {:induction false} ConcatMapLength<T>(order: seq<nat>, f: nat -> seq<T>)
    requires forall k :: 0 <= k < |order| ==> |f(order[k])| <= 1
    ensures |ConcatMap(order, f)| <= |order|
  {
    if order != [] {
      var init := order[..|order| - 1];
      assert forall k :: 0 <= k < |init| ==> init[k] == order[k];
      ConcatMapLength(init, f);
    }
  }

  /** The triple one file's future adds to `results`: present when the future
      completed and `qa_pairs` is truthy. */
  function KeptTriple(client: DeepSeekClient, numQaPairs: int, pdfPath: string, run: FileRun,
                      loads: string -> Loaded): Option<Triple>
  {
    match ProcessOutcome(client, numQaPairs, pdfPath, run, loads)
    case Completed(r) => if Truthy(r.triple.qaPairs) then Some(r.triple) else None
    case Raised => None
  }

  /** A file is kept exactly when its future completed with a non-empty
      `qa_pairs`; a kept triple is the one `process_pdf` returned. */
  lemma KeptTripleIff(client: DeepSeekClient, numQaPairs: int, pdfPath: string, run: FileRun,
                      loads: string -> Loaded)
    ensures var c := ProcessOutcome(client, numQaPairs, pdfPath, run, loads);
      KeptTriple(client, numQaPairs, pdfPath, run, loads).Some? <==>
        c.Completed? && Len(c.result.triple.qaPairs).value > 0
    ensures KeptTriple(client, numQaPairs, pdfPath, run, loads).Some? ==>
      KeptTriple(client, numQaPairs, pdfPath, run, loads).value ==
        ProcessOutcome(client, numQaPairs, pdfPath, run, loads).result.triple
  {
    var c := ProcessOutcome(client, numQaPairs, pdfPath, run, loads);
    if c.Completed? {
      ProcessTripleShape(client, numQaPairs, pdfPath, run, loads);
      TruthyIffNonEmpty(c.result.triple.qaPairs);
    }
  }

  /** What file `i`'s future adds to `results`. */
  function Contributions(client: DeepSeekClient, numQaPairs: int, pdfFiles: seq<string>,
                         world: string -> FileRun, loads: string -> Loaded): nat -> seq<Triple>
  {
    (i: nat) =>
      if i < |pdfFiles| then
        match KeptTriple(client, numQaPairs, pdfFiles[i], world(pdfFiles[i]), loads)
        case Some(t) => [t]
        case None => []
      else []
  }

  /** The file of each index, as a one-element piece. */
  function Singletons(pdfFiles: seq<string>): nat -> seq<string>
  {
    (i: nat) => if i < |pdfFiles| then [pdfFiles[i]] else []
  }

  lemma {:induction false} SingletonsInOrder(pdfFiles: seq<string>, n: nat)
    requires n <= |pdfFiles|
    ensures ConcatMap(Range(n), Singletons(pdfFiles)) == pdfFiles[..n]
  {
    if n > 0 {
      RangeInit(n - 1);
      SingletonsInOrder(pdfFiles, n - 1);
      Sequences.TakeStep(pdfFiles, n - 1);
    }
  }

  /** `generate_qa_from_pdfs`'s results for files `pdfFiles` completing in `order`. */
  function Collected(client: DeepSeekClient, numQaPairs: int, pdfFiles: seq<string>,
                     world: string -> FileRun, loads: string -> Loaded, order: seq<nat>): seq<Triple>
  {
    ConcatMap(order, Contributions(client, numQaPairs, pdfFiles, world, loads))
  }

  /** Whatever the completion order, the results are the same triples as in
      submission order, each as often. */
  lemma CollectedIsPermutation(client: DeepSeekClient, numQaPairs: int, pdfFiles: seq<string>,
                               world: string -> FileRun, loads: string -> Loaded, order: seq<nat>)
    requires IsPermutation(order, |pdfFiles|)
    ensures multiset(Collected(client, numQaPairs, pdfFiles, world, loads, order)) ==
      multiset(Collected(client, numQaPairs, pdfFiles, world, loads, Range(|pdfFiles|)))
  {
    ConcatMapPermutation(order, Range(|pdfFiles|), Contributions(client, numQaPairs, pdfFiles, world, loads));
  }

  lemma ContributionAt(client: DeepSeekClient, numQaPairs: int, pdfFiles: seq<string>,
                       world: string -> FileRun, loads: string -> Loaded, i: nat, t: Triple)
    requires i < |pdfFiles|
    ensures t in Contributions(client, numQaPairs, pdfFiles, world, loads)(i) <==>
      KeptTriple(client, numQaPairs, pdfFiles[i], world(pdfFiles[i]), loads) == Some(t)
  {
  }

  /** A triple is in the results exactly when some file's future kept it. */
  lemma CollectedMembership(client: DeepSeekClient, numQaPairs: int, pdfFiles: seq<string>,
                            world: string -> FileRun, loads: string -> Loaded, order: seq<nat>, t: Triple)
    requires IsPermutation(order, |pdfFiles|)
    ensures t in Collected(client, numQaPairs, pdfFiles, world, loads, order) <==>
      exists i :: 0 <= i < |pdfFiles| && KeptTriple(client, numQaPairs, pdfFiles[i], world(pdfFiles[i]), loads) == Some(t)
  {
    var f := Contributions(client, numQaPairs, pdfFiles, world, loads);
    var n := |pdfFiles|;
    var inOrder, inRange := ConcatMap(order, f), ConcatMap(Range(n), f);
    CollectedIsPermutation(client, numQaPairs, pdfFiles, world, loads, order);
    assert multiset(inOrder) == multiset(inRange);
    assert (t in inOrder) == (t in multiset(inOrder));
    assert (t in inRange) == (t in multiset(inRange));
    ConcatMapMembership(Range(n), f, t);
    forall i | 0 <= i < n
      ensures t in f(Range(n)[i]) <==> KeptTriple(client, numQaPairs, pdfFiles[i], world(pdfFiles[i]), loads) == Some(t)
    {
      ContributionAt(client, numQaPairs, pdfFiles, world, loads, i, t);
    }
  }

  /** At most one result per submitted file. */
  lemma CollectedLength(client: DeepSeekClient, numQaPairs: int, pdfFiles: seq<string>,
                        world: string -> FileRun, loads: string -> Loaded, order: seq<nat>)
    requires IsPermutation(order, |pdfFiles|)
    ensures |Collected(client, numQaPairs, pdfFiles, world, loads, order)| <= |pdfFiles|
  {
    assert |order| == |multiset(order)| == |multiset(Range(|pdfFiles|))| == |pdfFiles|;
    ConcatMapLength(order, Contributions(client, numQaPairs, pdfFiles, world, loads));
  }

  /** The completion order with the futures of `path` removed. */
  function Without(pdfFiles: seq<string>, order: seq<nat>, path: string): seq<nat>
  {
    if order == [] then []
    else
      var i := order[|order| - 1];
      Without(pdfFiles, order[..|order| - 1], path) +
        (if i < |pdfFiles| && pdfFiles[i] == path then [] else [i])
  }

  /** A file whose future raises drops out of the results and changes nothing
      for any other file. */
  lemma {:induction false} FaultIsolated(client: DeepSeekClient, numQaPairs: int, pdfFiles: seq<string>,
                                         world: string -> FileRun, world': string -> FileRun,
                                         loads: string -> Loaded, order: seq<nat>, path: string)
    requires world'(path).fault.RaisedInFuture?
    requires forall p :: p != path ==> world'(p) == world(p)
    ensures Collected(client, numQaPairs, pdfFiles, world', loads, order) ==
      Collected(client, numQaPairs, pdfFiles, world, loads, Without(pdfFiles, order, path))
  {
    var f := Contributions(client, numQaPairs, pdfFiles, world, loads);
    var f' := Contributions(client, numQaPairs, pdfFiles, world', loads);
    if order != [] {
      var init, i := order[..|order| - 1], order[|order| - 1];
      FaultIsolated(client, numQaPairs, pdfFiles, world, world', loads, init, path);
      var rest := Without(pdfFiles, init, path);
      assert ConcatMap(order, f') == ConcatMap(init, f') + f'(i);
      assert ConcatMap(init, f') == ConcatMap(rest, f);
      if i < |pdfFiles| && pdfFiles[i] == path {
        assert f'(i) == [];
        assert Without(pdfFiles, order, path) == rest;
      } else {
        if i < |pdfFiles| {
          assert world'(pdfFiles[i]) == world(pdfFiles[i]);
        }
        assert f'(i) == f(i);
        assert Without(pdfFiles, order, path) == rest + [i];
        assert (rest + [i])[..|rest + [i]| - 1] == rest;
        assert ConcatMap(rest + [i], f) == ConcatMap(rest, f) + f(i);
      }
    }
  }

  /** The generator: a PDF processor for its directory, a client, the number
      of pairs asked per file and the pool size. */
  class QaGenerator {
    const pdfProcessor: PdfProcessor
    const deepseekClient: DeepSeekClient
    const numQaPairs: int
    const maxWorkers: int

    constructor(pdfDir: string, deepseekClient: DeepSeekClient,
                numQaPairs: int := DefaultNumQaPairs, maxWorkers: int := DefaultMaxWorkers)
      ensures fresh(pdfProcessor) && pdfProcessor.pdfDir == pdfDir
      ensures this.deepseekClient == deepseekClient
      ensures this.numQaPairs == numQaPairs && this.maxWorkers == maxWorkers
    {
      pdfProcessor := new PdfProcessor(pdfDir);
      this.deepseekClient := deepseekClient;
      this.numQaPairs := numQaPairs;
      this.maxWorkers := maxWorkers;
    }

    /** `process_pdf`: `run` is what the outside world does for this file. */
    method ProcessPdf(pdfPath: string, run: FileRun, loads: string -> Loaded) returns (c: Completion)
      ensures c == ProcessOutcome(deepseekClient, numQaPairs, pdfPath, run, loads)
    {
      if run.fault.RaisedInFuture? {
        return Raised;
      }
      if run.fault.RaisedInProcess? {
        return Completed(FileResult(Triple(EmptyList, Paths.Basename(pdfPath), ""), []));
      }
      var content, filename := pdfProcessor.ExtractTextFromPdf(pdfPath, run.doc);
      if content == "" {
        return Completed(FileResult(Triple(EmptyList, filename, ""), []));
      }
      var g := deepseekClient.GenerateQaPairs(content, run.reply, loads, numQaPairs);
      return Completed(FileResult(Triple(g.pairs, filename, content), [g.request]));
    }

    /**
     * `generate_qa_from_pdfs`: submits every PDF of the listing once and keeps,
     * in completion order, the triples whose `qa_pairs` is non-empty.
     * `processed` lists the files in the order their futures are collected.
     * With PDF files to process, a pool size below one makes the
     * `ThreadPoolExecutor` constructor raise `ValueError`, which the method
     * does not catch: that is the `Failure` outcome.
     */
    method GenerateQaFromPdfs(listing: Option<seq<string>>, world: string -> FileRun,
                              loads: string -> Loaded, order: seq<nat>)
      returns (outcome: Result<seq<Triple>, string>, ghost processed: seq<string>)
      requires IsPermutation(order, |PdfPaths(pdfProcessor.pdfDir, listing)|)
      ensures var pdfFiles := PdfPaths(pdfProcessor.pdfDir, listing);
        outcome.Failure? <==> pdfFiles != [] && maxWorkers <= 0
      ensures outcome.Failure? ==> outcome.error == PoolSizeMessage && processed == []
      ensures outcome.Success? ==> var pdfFiles := PdfPaths(pdfProcessor.pdfDir, listing);
        outcome.value == Collected(deepseekClient, numQaPairs, pdfFiles, world, loads, order) &&
        multiset(processed) == multiset(pdfFiles)
      ensures PdfPaths(pdfProcessor.pdfDir, listing) == [] ==> outcome == Success([])
    {
      var pdfFiles := pdfProcessor.GetPdfFiles(listing);
      ghost var f := Contributions(deepseekClient, numQaPairs, pdfFiles, world, loads);
      ghost var g := Singletons(pdfFiles);
      PermutationBounds(order, |pdfFiles|);
      if pdfFiles == [] {
        return Success([]), [];
      }
      if maxWorkers <= 0 {
        return Failure(PoolSizeMessage), [];
      }
      var futureToPdf := map i | 0 <= i < |pdfFiles| :: pdfFiles[i];
      var results: seq<Triple> := [];
      processed := [];
      for c := 0 to |order|
        invariant results == ConcatMap(order[..c], f)
        invariant processed == ConcatMap(order[..c], g)
      {
        ConcatMapStep(order, c, f);
        ConcatMapStep(order, c, g);
        var pdf := futureToPdf[order[c]];
        assert f(order[c]) ==
          match KeptTriple(deepseekClient, numQaPairs, pdf, world(pdf), loads)
          case Some(t) => [t]
          case None => [];
        results := CollectFuture(pdf, world(pdf), loads, results);
        processed := processed + [pdf];
      }
      Sequences.TakeAll(order);
      ConcatMapPermutation(order, Range(|pdfFiles|), g);
      SingletonsInOrder(pdfFiles, |pdfFiles|);
      Sequences.TakeAll(pdfFiles);
      outcome := Success(results);
    }

    /** One turn of the `as_completed` loop: `future.result()` is unpacked and
        the triple appended when its `qa_pairs` is truthy; a raised future
        adds nothing. */
    method CollectFuture(pdf: string, run: FileRun, loads: string -> Loaded, results: seq<Triple>)
      returns (updated: seq<Triple>)
      ensures updated == results +
        match KeptTriple(deepseekClient, numQaPairs, pdf, run, loads)
        case Some(t) => [t]
        case None => []
    {
      Sequences.AppendEmpty(results);
      updated := results;
      var outcome := ProcessPdf(pdf, run, loads);
      if outcome.Completed? {
        var (qaPairs, filename, content) := (outcome.result.triple.qaPairs, outcome.result.triple.source,
                                             outcome.result.triple.content);
        if Truthy(qaPairs) {
          updated := results + [Triple(qaPairs, filename, content)];
        }
      }
    }
  }

  /** `QAGenerator(pdf_dir, num_qa_pairs, max_workers)`: fails with the client's
      ValueError when no API key is configured in `env`. */
  method NewQaGenerator(env: map<string, string>, pdfDir: string := DefaultPdfDir,
                        numQaPairs: int := DefaultNumQaPairs, maxWorkers: int := DefaultMaxWorkers)
    returns (r: Result<QaGenerator, ClientError>)
    ensures r.Failure? <==> NewDeepSeekClient(env).Failure?
    ensures r.Failure? ==> r.error == NewDeepSeekClient(env).error
    ensures r.Success? ==>
      && fresh(r.value) && r.value.pdfProcessor.pdfDir == pdfDir
      && r.value.deepseekClient == NewDeepSeekClient(env).value
      && r.value.numQaPairs == numQaPairs && r.value.maxWorkers == maxWorkers
  {
    var client := NewDeepSeekClient(env);
    if client.Failure? {
      return Failure(client.error);
    }
    var generator := new QaGenerator(pdfDir, client.value, numQaPairs, maxWorkers);
    return Success(generator);
  }
}
