# pdf_build_qa — a Dafny model of the PDF-to-QA pipeline

This project models the four core classes of `pdf_build_qa`, a tool that turns a
directory of PDF files into question/answer pairs and saves them to a spreadsheet:

- `PDFProcessor` (module `PdfProcessing`, class `PdfProcessor`) lists the `.pdf` files of a directory.
  It also concatenates the pages' text: each non-empty page text, followed by a newline.
- `DeepSeekClient` (module `DeepSeek`) reads the API key and base URL from the environment.
  It builds the Chinese generation prompt, with the content cut to 10000 characters.
  It then turns the chat reply into a JSON value:
  - a direct `json.loads` first;
  - on a `JSONDecodeError`, the `\[\s*{.*}\s*\]` repair search;
  - `[]` on every failure.
- `QAGenerator` (module `QaGeneration`, class `QaGenerator`) processes one PDF into a
  `(qa_pairs, source, content)` triple. It runs all files through a thread
  pool and keeps the triples whose `qa_pairs` is non-empty. With PDF files to process and a
  pool size below one, the pool's constructor raises `ValueError`, and so does the whole call.
- `ExcelWriter` (module `ExcelOutput`, class `ExcelWriter`) flattens the triples into
  `question`/`answer`/`source` rows. It names the file `qa_pairs_<timestamp>.xlsx` in the output
  directory and returns `""` on any failure.

Supporting modules:

- `Wrappers` has `Option` and `Result`.
- `Json` models Python's JSON values and the `len`, truthiness and `dict.get` operations the code uses.
- `Paths` has POSIX `os.path.join` and `os.path.basename`.
- `Decimal` has the decimal rendering of an `int` in an f-string, and its inverse.
- `ArraySearch` is the regex search, written as a function and proved equal to the leftmost-longest
  match definition: leftmost `[`, whitespace, `{`, then the last `}` followed by whitespace and `]`.

The environment the source consults becomes parameters:
- the environment variables are a `map`: the environment after `load_dotenv` has filled it from `.env`;
- the directory listing is an `Option` (`None` when `os.listdir` raises);
- the PDF is a document value whose pages have text, no text, or raise;
- the chat endpoint's reply is a `ChatOutcome`;
- `json.loads` is a function parameter `loads` that yields a value, a `JSONDecodeError`, or another error;
- the order in which the thread pool completes futures is a permutation `order` of the submission indices;
- the timestamp and whether the spreadsheet write succeeds are inputs.

An exception that escapes the extractor and the client is caught by `process_pdf`'s own handler
(`src/qa_generator.py:55-57`). An exception that escapes that handler makes `future.result()`
raise. Neither can come from code inside the model, so both are a per-file `Fault` input.

On these inputs, the model states and proves these results:
- the file list is exactly the `.pdf` names (ASCII case-insensitive), in listing order, joined to the directory;
- the repair step parses exactly the substring the regex matches;
- the prompt embeds the count and the truncated content, and determines both;
- the collected triples are the kept per-file triples in completion order. Any completion order yields the same multiset;
- a file whose future raises simply drops out;
- the spreadsheet gets one row per pair, in order.

The command-line runner and the web application call `QAGenerator` with options that this
revision of its constructor does not take:
- API retries and a retry delay (`main.py:72-78`, `app.py:194-202`);
- a question level and a LaTeX OCR switch (`app.py:194-202`).

They also expect `generate_qa_from_pdfs` to return a pair of results and failed files (`main.py:84`).
The model follows the four core classes as they are:
- one call to the chat endpoint, with no retry (`src/deepseek_client.py:50-57`);
- the content cut at 10000 characters (`src/deepseek_client.py:39`);
- the parsed value returned without validation (`src/deepseek_client.py:82-83`);
- a plain list of triples as the result (`src/qa_generator.py:90`).

A consequence the proofs make visible (`ExcelOutput.RowsSpec`): `generate_qa_pairs` returns
whatever non-list JSON value `len` accepts, for instance a dict wrapping the pairs. Such a value
is truthy, so `generate_qa_from_pdfs` keeps it. Then `save_qa_pairs` raises on it and writes no
file at all, for every file of the run.

## Model

| member | source | states |
|---|---|---|
| Json.Get | src/excel_writer.py:47-48 | `qa_pair.get(key, '')`: defined exactly on dicts (anything else raises); the field's value when the key is present, the default otherwise |
| Json.TruthyIffNonEmpty | src/qa_generator.py:84 | for a str, list or dict, `if qa_pairs:` holds exactly when its length is positive |
| Paths.Join | src/pdf_processor.py:35 | an absolute second part replaces the directory; `BasenameOfJoin` proves that the joined path's basename is the file name |
| Paths.Basename | src/pdf_processor.py:53 | the basename has no `/` and is the suffix of the path that starts right after its last `/`, or the whole path when it has no `/` |
| Paths.BasenameOfJoin | src/pdf_processor.py:35 | the basename of `os.path.join(dir, name)` is `name` for any directory, when `name` has no `/` |
| Decimal.NatToString | src/deepseek_client.py:36 | the decimal text of a non-negative count is a non-empty string of digits without leading zeros that reads back as the count |
| Decimal.IntToString | src/deepseek_client.py:36 | the text of `num_pairs` in the f-string is `str(num_pairs)`: a `-` exactly for negative values, then digits without leading zeros (no `-0`), reading back as `num_pairs` |
| ArraySearch.Search | src/deepseek_client.py:71-72 | a found span lies inside the reply and is non-empty; `SearchSound`, `SearchComplete` and `SearchResultUnique` prove it is exactly the match `re.search` reports |
| ArraySearch.SearchSound | src/deepseek_client.py:71 | when the search finds a span, it is a match of the pattern that starts leftmost and, among those, ends rightmost |
| ArraySearch.SearchComplete | src/deepseek_client.py:71 | the search finds nothing exactly when the text contains no match of `\[\s*{.*}\s*\]` at all |
| ArraySearch.MatchFromParts | src/deepseek_client.py:71 | a `[` whose whitespace run ends in `{`, and a later `}` whose whitespace run ends in `]`, delimit a match of the pattern |
| ArraySearch.SearchResultsAgree | src/deepseek_client.py:71 | two spans that are both leftmost-then-longest matches are the same span |
| ArraySearch.SearchResultUnique | src/deepseek_client.py:71 | any leftmost-then-longest match is the one the search returns: the match `re.search` reports is unique |
| DeepSeek.NewDeepSeekClient | src/deepseek_client.py:15-28 | raises `ValueError("请设置DEEPSEEK_API_KEY环境变量")` exactly when the key is unset or empty; otherwise it keeps the key, and the base URL from `DEEPSEEK_API_URL` or `https://api.deepseek.com/v1` |
| DeepSeek.Truncate | src/deepseek_client.py:39 | `content[:10000]`: a prefix of the content of length `min(len, 10000)`, the content itself when it is no longer |
| DeepSeek.DeepSeekClient.GenerateQaPairs | src/deepseek_client.py:32-87 | sends one `deepseek-chat` request, a single user message and temperature 0.7 / 4000 tokens holding the prompt, and returns a value `len` is defined on |
| DeepSeek.Returned | src/deepseek_client.py:82-87 | a parsed value is returned as is when `len` accepts it; a non-sized value (number, bool, null) or another parse error yields `[]` |
| DeepSeek.ParseReply | src/deepseek_client.py:59-87 | the result always has a length; a failed call or a `None` content gives `[]`; a reply that is not a JSON decode error gives what `json.loads` gives (or `[]` when that raises otherwise) |
| DeepSeek.DirectParseReturnedAsIs | src/deepseek_client.py:66-68 | a reply that parses directly to a sized value is returned unchanged, without the repair step |
| DeepSeek.RepairParsesSearchResult | src/deepseek_client.py:69-77 | after a decode error, the result is the parse of exactly the substring `[i..e)` that the regex matches |
| DeepSeek.RepairWithoutMatchIsEmpty | src/deepseek_client.py:69-80 | after a decode error, a reply with no match of the pattern gives `[]` |
| DeepSeek.RepairedResultFromSubstring | src/deepseek_client.py:69-77 | after a decode error, any non-empty result is the successful parse of the substring the regex matched |
| DeepSeek.Prompt | src/deepseek_client.py:36-45 | no contract of its own: the f-string template; `PromptEmbedsTruncatedContent`, `PromptStatesPairCount` and `PromptInjective` state what it holds and that it determines count and content |
| DeepSeek.RequestFor | src/deepseek_client.py:50-57 | no contract of its own: the single `deepseek-chat` user-message request at temperature 0.7 and 4000 tokens, which `GenerateQaPairs`' contract and `DefaultRequestsTwentyPairs` pin down |
| DeepSeek.PromptEmbedsTruncatedContent | src/deepseek_client.py:36-45 | the prompt is the fixed lead, the count, the fixed instruction text, the truncated content and the fixed JSON-format tail, in that order |
| DeepSeek.PromptStatesPairCount | src/deepseek_client.py:36 | the count's decimal text follows the lead of the prompt and parses back to `num_pairs` |
| DeepSeek.DefaultRequestsTwentyPairs | src/deepseek_client.py:32-57 | with the default `num_pairs`, the one message sent asks for `20` pairs about the truncated content |
| DeepSeek.PromptInjective | src/deepseek_client.py:36-45 | equal prompts come from equal counts and equal truncated contents: the prompt determines both |
| PdfProcessing.IsPdfName | src/pdf_processor.py:34 | no contract of its own: `file.lower().endswith('.pdf')`, characterised by `PdfNameIff` and `PdfNameExamples` |
| PdfProcessing.PdfPathsOf | src/pdf_processor.py:33-35 | no contract of its own: the joined PDF names in listing order, characterised by `PdfPathsOfAppend`, `PdfPathsOfSingle`, `PdfPathsOfMembership` and `PdfPathsOfLength` |
| PdfProcessing.PdfPaths | src/pdf_processor.py:31-40 | no contract of its own: `PdfPathsOf` of the listing, or `[]` when listing raises; `GetPdfFiles` is proved equal to it |
| PdfProcessing.PdfNameIff | src/pdf_processor.py:34 | `file.lower().endswith('.pdf')` holds exactly when the last four characters are `.` and p, d, f in either case |
| PdfProcessing.PdfNameExamples | src/pdf_processor.py:34 | `X.PDF` and `report.Pdf` are kept; `x.txt` and `pdf` are not |
| PdfProcessing.PdfPathsOfAppend | src/pdf_processor.py:33-35 | listing order is kept: the paths of a concatenated listing are the concatenated paths |
| PdfProcessing.PdfPathsOfSingle | src/pdf_processor.py:34-35 | one name contributes its joined path exactly when it is a PDF name |
| PdfProcessing.PdfPathsOfMembership | src/pdf_processor.py:33-35 | a path is listed exactly when it is the join of the directory with some listed PDF name |
| PdfProcessing.PdfPathsOfLength | src/pdf_processor.py:31-37 | no more paths than names |
| PdfProcessing.PdfPathBasename | src/pdf_processor.py:35 | every listed path's basename is one of the listed names and a PDF name |
| PdfProcessing.PagesText | src/pdf_processor.py:59-62 | no contract of its own: the pages' text in page order, characterised by `PagesTextAppend`, `PagesTextEmptyIff` and `PagesTextEndsWithNewline` |
| PdfProcessing.ReadPages | src/pdf_processor.py:59-62 | no contract of its own: the page loop, whose result `ReadPagesSpec` states |
| PdfProcessing.Extraction | src/pdf_processor.py:52-68 | no contract of its own: `extract_text_from_pdf`'s result, which `ExtractionSpec` states and `ExtractTextFromPdf` is proved equal to |
| PdfProcessing.ReadPagesSpec | src/pdf_processor.py:59-62 | the page loop fails exactly when some page's `extract_text()` raises, and otherwise yields the pages' text |
| PdfProcessing.ExtractionSpec | src/pdf_processor.py:52-68 | the extraction returns the path's basename, and the pages' text unless the file cannot be read or a page raises, in which case `""` |
| PdfProcessing.ReadPagesFailsFromPrefix | src/pdf_processor.py:59-60 | once a page raises, the loop fails whatever pages follow |
| PdfProcessing.PagesTextAppend | src/pdf_processor.py:59-62 | the text of consecutive page runs is the concatenation of their texts, in page order |
| PdfProcessing.PagesTextEmptyIff | src/pdf_processor.py:59-62 | the text is empty exactly when no page has (non-empty) text |
| PdfProcessing.PagesTextEndsWithNewline | src/pdf_processor.py:61-62 | non-empty extracted text ends with a newline |
| PdfProcessing.PdfProcessor.constructor | src/pdf_processor.py:14-22 | the processor keeps the directory it is given |
| PdfProcessing.PdfProcessor.GetPdfFiles | src/pdf_processor.py:24-40 | the loop's result is the PDF paths of the listing, and `[]` when listing the directory raises |
| PdfProcessing.PdfProcessor.ExtractTextFromPdf | src/pdf_processor.py:42-68 | the loop's result is the pages' text and the basename; `("", basename)` when the file cannot be read or any page raises |
| QaGeneration.ProcessOutcome | src/qa_generator.py:31-57 | no contract of its own: `process_pdf`'s result, characterised by `ProcessTripleShape`, `EmptyContentSkipsGeneration` and `ContentGeneratesOnce`; `ProcessPdf` is proved equal to it |
| QaGeneration.ProcessTripleShape | src/qa_generator.py:31-57 | when `process_pdf` completes, the triple carries the path's basename and a sized `qa_pairs` |
| QaGeneration.EmptyContentSkipsGeneration | src/qa_generator.py:43-47 | a PDF without text gives `([], filename, "")`, sends no request, and does not depend on the endpoint's reply |
| QaGeneration.ContentGeneratesOnce | src/qa_generator.py:43-53 | a PDF with text calls `generate_qa_pairs` once, on the full extracted text and `num_qa_pairs`, so it logs exactly that one request, and returns that call's pairs with the filename and the full content |
| QaGeneration.KeptTriple | src/qa_generator.py:82-85 | no contract of its own: the triple one future appends, if any, characterised by `KeptTripleIff` |
| QaGeneration.Collected | src/qa_generator.py:80-85 | no contract of its own: the results in completion order, characterised by `CollectedIsPermutation`, `CollectedMembership`, `CollectedLength` and `FaultIsolated` |
| QaGeneration.KeptTripleIff | src/qa_generator.py:82-87 | a file contributes a triple exactly when its future completes with non-empty `qa_pairs`, and then it contributes that triple |
| QaGeneration.ConcatMapAppend | src/qa_generator.py:80-85 | results are appended in completion order: the results of consecutive completions concatenate |
| QaGeneration.ConcatMapPermutation | src/qa_generator.py:80-85 | completion orders with the same multiset of futures collect the same multiset of results |
| QaGeneration.ConcatMapMembership | src/qa_generator.py:80-85 | a result is collected exactly when some completed future contributes it |
| QaGeneration.ConcatMapLength | src/qa_generator.py:84-85 | each future appends at most one triple, so there are no more results than futures |
| QaGeneration.SingletonsInOrder | src/qa_generator.py:77 | futures are submitted once per PDF path, in the order `get_pdf_files` returned them |
| QaGeneration.CollectedIsPermutation | src/qa_generator.py:75-88 | the thread pool's completion order changes only the order of the results, never which triples are collected |
| QaGeneration.ContributionAt | src/qa_generator.py:81-85 | the future of file `i` contributes exactly that file's kept triple |
| QaGeneration.CollectedMembership | src/qa_generator.py:66-90 | a triple is in the results exactly when some PDF file's processing completed with it non-empty |
| QaGeneration.CollectedLength | src/qa_generator.py:84-89 | there are never more results than PDF files |
| QaGeneration.FaultIsolated | src/qa_generator.py:82-87 | a file whose `future.result()` raises only drops its own triple; the others are collected as if it had never been submitted |
| QaGeneration.QaGenerator.constructor | src/qa_generator.py:16-28 | the generator keeps a fresh processor for its directory, its client, the pair count and the worker count |
| QaGeneration.QaGenerator.ProcessPdf | src/qa_generator.py:31-57 | the method's completion is the specified per-file outcome, including the `([], basename, "")` handler for a raised fault |
| QaGeneration.QaGenerator.CollectFuture | src/qa_generator.py:81-87 | one collected future appends its file's triple exactly when it completed with non-empty `qa_pairs`, and appends nothing otherwise |
| QaGeneration.QaGenerator.GenerateQaFromPdfs | src/qa_generator.py:59-90 | fails with `max_workers must be greater than 0` exactly when there are PDF files and the pool size is below one; otherwise the loop over completed futures collects the specified results and processes every PDF file exactly once; no PDF files gives `[]` |
| QaGeneration.NewQaGenerator | src/qa_generator.py:16-28 | construction fails with the client's `ValueError` exactly when the client cannot be built, and otherwise holds the given settings |
| ExcelOutput.PairRow | src/excel_writer.py:45-50 | one pair's row holds its `question` and `answer` (or `''`) and the triple's source, and exists exactly for dicts |
| ExcelOutput.PairsRows | src/excel_writer.py:45-50 | no contract of its own: the rows of one list of pairs, characterised by `PairsRowsSpec` |
| ExcelOutput.TripleRows | src/excel_writer.py:44-50 | no contract of its own: the rows of one triple, characterised by `TripleRowsSpec` |
| ExcelOutput.Rows | src/excel_writer.py:43-50 | no contract of its own: the `data` list, characterised by `RowsSpec`, `RowsAppend`, `RowsIgnoreContent`, `RowsFailFrom` and `RowsFailAt` |
| ExcelOutput.PairsRowsSpec | src/excel_writer.py:45-50 | a list's rows exist exactly when every entry is a dict; then there is one row per entry, in order, each with the entry's fields and the source |
| ExcelOutput.TripleRowsSpec | src/excel_writer.py:44-50 | a triple yields rows exactly when its container is a list of dicts or an empty str or dict, one row per pair |
| ExcelOutput.RowsSpec | src/excel_writer.py:41-51 | the rows exist exactly when every triple's container is writable, and then their number is the total number of pairs |
| ExcelOutput.RowsAppend | src/excel_writer.py:44-50 | rows follow triple order: the rows of consecutive triples concatenate, and one failing triple fails all |
| ExcelOutput.RowsIgnoreContent | src/excel_writer.py:44 | the triple's content component never affects the rows |
| ExcelOutput.RowsFailFrom | src/excel_writer.py:44-68 | one triple whose rows cannot be built makes the whole save fail |
| ExcelOutput.RowsFailAt | src/excel_writer.py:45-47 | one non-dict pair, at any position, makes the whole save fail |
| ExcelOutput.SavedFileName | src/excel_writer.py:56-58 | the file name is `qa_pairs_`, the timestamp and `.xlsx`, and for a timestamp without `/` it is the basename of the returned path |
| ExcelOutput.ExcelWriter.constructor | src/excel_writer.py:15-22 | the writer keeps the output directory it is given, `output` by default |
| ExcelOutput.ExcelWriter.SaveQaPairs | src/excel_writer.py:31-68 | the nested loops write exactly the specified rows to `os.path.join(output_dir, "qa_pairs_<timestamp>.xlsx")` and return that path; they write nothing and return `""` when a row cannot be built or the write fails |

## Left out

- Network: the OpenAI SDK call is not modelled; its reply, or the exception it raises, is the `ChatOutcome` input. The endpoint URL and key are kept but not used for anything.
- JSON parsing: `json.loads` is an abstract function parameter; JSON numbers are `real`, so floating-point representation is not modelled.
- PDF parsing: PyPDF2's `PdfReader` and `extract_text` are not modelled; a document is given as its pages' outcomes.
- Spreadsheets: pandas' `DataFrame` and `to_excel` are not modelled; only the rows handed to it and whether the write succeeds.
- Clock: `datetime.now().strftime` is not modelled; the formatted timestamp is an input.
- Logging does not affect any result and is left out.
- `load_dotenv` (`src/deepseek_client.py:10`) is not modelled as a step. The `env` map stands for the environment after it has run.
- `ExcelWriter.__init__` creates the output directory with `os.makedirs` (`src/excel_writer.py:25-26`). That call can raise out of the constructor, which the model does not capture. Whether the directory exists, so that `to_excel` can write into it, is folded into the `writeSucceeds` input of `SaveQaPairs`.
- PdfProcessing.IsPdfName: `str.lower` is modelled for ASCII letters only. A non-ASCII character that lowers to `p`, `d` or `f` is not handled this way.
- QaGeneration.QaGenerator.GenerateQaFromPdfs: the thread pool is not modelled as concurrency. Tasks run one after another, and the completion order is an input that must be a permutation of the files. `max_workers` matters only through the `ValueError` the pool raises for a value below one; the number of threads is not modelled.
- QaGeneration.ProcessOutcome: the exceptions `process_pdf` and `future.result()` catch can only come from outside the model (the chat client and the extractor catch their own). They are the per-file `Fault` input.
- The command-line runner, the web application and its front end, which only call these classes, are not part of this model.
- The retry, question-level and OCR options and the failed-file list that `main.py` and `app.py` pass or expect are not accepted by this revision of the core classes, so they are not in the model.
