# Boann document ingestion, modelled in Dafny

This project models the document-ingestion core of the Boann security risk
agent and proves properties about it:

- the `DocumentProcessorManager`: choosing a processor by file suffix,
  flattening JSON documents into text and metadata, assembling PDF metadata,
  validating a document in `process_document`, and the two-phase
  `chunk_text` chunker (sentences packed with an overlap, then over-long
  chunks split on words);
- the admin API's `POST /ingest` handler: the guards in front of it, one
  outcome per uploaded file, the batch of chunk records sent to the vector
  store, the counters and the summary message;
- the ingestion script: screening directory entries (safety, size,
  format), adding up the admin API's replies, the base URL and `run`;
- the public API's pgvector score correction and the per-chunk metadata
  list of a query;
- the command-line client's configuration precedence, its base URL and
  headers, and the request bodies of its commands.

Modules, one per file: `Wrappers` (Option/Result), `Text` (the Python string
built-ins the code relies on: `strip`, `split`, `re.sub(r"\s+", " ", ...)`,
`lower`, `rstrip`, `str(int)`), `Values` (parsed JSON and metadata values),
`Chunker` (the specification of `chunk_text` and its lemmas),
`JsonProcessor`, `PdfProcessor`, `DocumentProcessor`, `AdminApi`,
`IngestScript`, `PublicApi` and `Cli`.

The loops of the source are methods with loop invariants, each proved equal
to a recursive function (`ChunkText`, `PackSentences`, `RefineChunks`,
`SplitWords`, `ExtractTextRecursive`, `ExtractMetadata`, `GetProcessor`,
`BuildBatch`, `ProcessFiles`, `ScreenEntries`, `SendAll`,
`ProcessDirectory`); the properties are lemmas about those functions. The
manager's settings never change after construction, so the manager is a
value passed to each operation. The admin API refuses to load without a
non-empty `BOANN_ADMIN_API_KEY`, so the configured key is a non-empty string
(`AdminApi.AdminKey`).

Where the prose description of the system and the code differ, the code is
followed:
- the text of a document counts as blank when `strip()` leaves nothing, so
  `process_document` rejects whitespace-only PDFs and text files alike;
- a JSON file that does not parse gives metadata `{}` and text `""`, not an
  error;
- the chunk that follows a closed one starts with the closed buffer's last
  `chunk_overlap` raw characters; since the closed chunk itself is stored
  stripped, the overlap property (`Chunker.Follows`) is stated against the
  stripped chunk, with leading whitespace of the carried tail removed.

## Model

| member | source | states |
|---|---|---|
| DocumentProcessor.DefaultManager | src/shared/document_processor.py:201-209 | without the environment variables the chunk size is 1000, the overlap 200 and the size limit 100 MiB |
| DocumentProcessor.RFind | src/shared/document_processor.py:31-33 | the result is -1 or the index of `c`, and no later character is `c` (the last dot of a name, as `Path.suffix` finds it) |
| DocumentProcessor.Suffix | src/shared/document_processor.py:31-33 | a suffix is empty, or a dot followed by at least one character and no further dot |
| DocumentProcessor.GetProcessor | src/shared/document_processor.py:211-216 | the loop returns the first processor, in the order PDF then JSON, whose `can_process` holds, or None |
| DocumentProcessor.DispatchBySuffix | src/shared/document_processor.py:31-33 | PDF is chosen iff pypdf is present and the lower-cased suffix is `.pdf`; JSON iff it is `.json`; no processor otherwise |
| DocumentProcessor.PdfOutputMetadata | src/shared/document_processor.py:70-116 | PDF metadata names its processor and holds no document id |
| DocumentProcessor.JsonOutputMetadata | src/shared/document_processor.py:158-195 | JSON metadata of a non-blank text names its processor and holds no document id |
| DocumentProcessor.DirectOutputMetadata | src/shared/document_processor.py:335-345 | a file read as plain text keeps its text, and its metadata is exactly the suffix, processing method "direct_file_read" and processor "none" |
| DocumentProcessor.ExtractedMetadata | src/shared/document_processor.py:325-345 | whichever reader produced a non-blank text, its metadata names a processor and sets no document id |
| DocumentProcessor.ProcessDocumentSpec | src/shared/document_processor.py:297-358 | success iff no `..` in the path, the file exists and is regular, its size is known and at most the limit, and the extracted text is not blank; a failure is exactly `("", {}, False)`; a success returns the extracted text unchanged with the reader's metadata, which names a processor and has no document id |
| DocumentProcessor.DotDotRejected | src/shared/document_processor.py:218-229 | a path containing `..` is rejected whatever the file system holds |
| DocumentProcessor.PdfMetadataErrorKeepsText | src/shared/document_processor.py:324-354 | a PDF whose pages read but whose document information raises is still accepted, with its stripped text and the basic metadata record |
| DocumentProcessor.ChunkText | src/shared/document_processor.py:231-295 | the method returns `Chunker.Chunks` of the text, with the default chunk size when none is given and the manager's overlap |
| DocumentProcessor.AddSentence | src/shared/document_processor.py:252-266 | one loop turn: a sentence that does not fit a non-empty buffer closes it and seeds the next buffer with the last `overlap` characters and the sentence (or the sentence alone); otherwise it is appended with one space; the chunks still to come are unchanged |
| DocumentProcessor.PackSentences | src/shared/document_processor.py:251-270 | the first-phase loop returns `Chunker.Pack` of the sentences |
| DocumentProcessor.ChunkPieces | src/shared/document_processor.py:274-293 | a chunk within the size is kept; a longer one is split on words (`Chunker.Piece`) |
| DocumentProcessor.RefineChunks | src/shared/document_processor.py:272-295 | the second-phase loop returns `Chunker.Refine` of the first phase's chunks |
| DocumentProcessor.SplitWords | src/shared/document_processor.py:279-293 | the word loop returns `Chunker.PackWords` of the words |
| Chunker.SentencesFrom | src/shared/document_processor.py:249 | splitting after `.`, `!` or `?` followed by whitespace always yields at least one piece |
| Chunker.SplitSentencesShape | src/shared/document_processor.py:249 | the sentences of cleaned text are non-empty, cleaned, and joined with single spaces give back the text |
| Chunker.SentencesFromShape | src/shared/document_processor.py:249 | the same for the scan from any split point |
| Chunker.PackNonEmpty | src/shared/document_processor.py:251-270 | the first phase never emits an empty chunk |
| Chunker.PackHead | src/shared/document_processor.py:251-270 | the chunk a buffer ends up as starts with that buffer, less its leading whitespace |
| Chunker.PackOverlap | src/shared/document_processor.py:257-261 | with a positive overlap, every first-phase chunk longer than the overlap is followed by a chunk that starts with its last `overlap` characters (less leading whitespace) |
| Chunker.ChunksOverlap | src/shared/document_processor.py:240-270 | for text longer than the chunk size, the first phase has the overlap property, and those are the final chunks when all of them fit |
| Chunker.PackJoin | src/shared/document_processor.py:251-270 | without overlap the first phase only regroups sentences: its chunks are cleaned and joined with spaces give back the sentences joined |
| Chunker.PackWordsFit | src/shared/document_processor.py:279-293 | every piece of the word pass fits the size or is a single word |
| Chunker.PackWordsJoin | src/shared/document_processor.py:279-293 | the pieces of the word pass joined with spaces are the words joined with spaces |
| Chunker.PieceShape | src/shared/document_processor.py:274-293 | one chunk's pieces fit and join back to the chunk |
| Chunker.RefineShape | src/shared/document_processor.py:272-295 | the second phase keeps every chunk's text in order and only leaves chunks that fit or are single words |
| Chunker.RefineFit | src/shared/document_processor.py:272-295 | after the second phase every chunk is non-empty and fits or is a single word |
| Chunker.RefineKeeps | src/shared/document_processor.py:275-276 | chunks that already fit pass the second phase unchanged |
| Chunker.ChunksFit | src/shared/document_processor.py:236-295 | blank text gives `[]`; cleaned text within the size gives exactly `[cleaned]`; otherwise no chunk is empty and each fits or is one word longer than the size |
| Chunker.ChunksJoin | src/shared/document_processor.py:240-295 | without overlap the chunks joined with single spaces are exactly the cleaned text, and there are none iff the text is blank |
| JsonProcessor.ExtractTextRecursive | src/shared/document_processor.py:135-149 | the recursive flattener appends exactly `Lines` of the value to the list it is given |
| JsonProcessor.ExtractMembers | src/shared/document_processor.py:136-141 | the dictionary loop appends each entry's lines in insertion order |
| JsonProcessor.ExtractItems | src/shared/document_processor.py:142-147 | the list loop appends each element's lines in index order |
| JsonProcessor.ExtractText | src/shared/document_processor.py:126-156 | the text is the lines joined by newlines, and "" for a file that does not parse |
| JsonProcessor.LinesShape | src/shared/document_processor.py:135-149 | one line per scalar of the document, each starting with the prefix it was reached under |
| JsonProcessor.EntryShape | src/shared/document_processor.py:136-141 | an entry's lines start with `prefix + key + ": "`, one per scalar of its value |
| JsonProcessor.ElementShape | src/shared/document_processor.py:142-147 | element `i`'s lines start with `prefix + "[i] "`, one per scalar |
| JsonProcessor.ConcatShape | src/shared/document_processor.py:135-147 | gathering the pieces keeps the line count and the common prefix |
| JsonProcessor.NestedExample | src/shared/document_processor.py:135-149 | `{"a": {"b": 1}, "c": [2, 3]}` flattens to `a: b: 1`, `c: [0] 2`, `c: [1] 3` |
| JsonProcessor.ExtractMetadata | src/shared/document_processor.py:158-195 | the method builds `JsonMetadata` of the parsed document |
| JsonProcessor.CopyWellKnown | src/shared/document_processor.py:176-186 | the field loop adds exactly the well-known fields the dictionary has, with their values |
| JsonProcessor.ReservedKeysNotWellKnown | src/shared/document_processor.py:171-186 | copying well-known fields cannot overwrite the structure, keys, processor, extension or method entries |
| JsonProcessor.JsonObjectMetadata | src/shared/document_processor.py:171-186 | a dictionary root gives structure "object", its keys in order, and each well-known field iff present with its value |
| JsonProcessor.JsonMetadataSpec | src/shared/document_processor.py:158-195 | a parse failure gives `{}`; any parsed document names JSONProcessor and `.json`; an array root gives "array" and its length; no document id |
| PdfProcessor.ExtractText | src/shared/document_processor.py:54-68 | the page loop returns the pages' text, each followed by a newline, stripped; "" for a file pypdf cannot read; failure without pypdf |
| PdfProcessor.PagesTextJoin | src/shared/document_processor.py:60-65 | the page texts are joined by newlines with one trailing newline |
| PdfProcessor.InfoKeysApart | src/shared/document_processor.py:84-103 | the information keys never collide with the fixed keys, `page_count` or `document_id` |
| PdfProcessor.InfoFieldsCopied | src/shared/document_processor.py:84-100 | each information field is in the metadata iff it is present (a text field also non-empty), with its value |
| PdfProcessor.TitleCopied | src/shared/document_processor.py:84-86 | the title is copied only when it is a non-empty string |
| PdfProcessor.InfoEntriesBase | src/shared/document_processor.py:84-100 | copying the information fields leaves the processor, extension and method entries alone |
| PdfProcessor.ReadsIndependent | src/shared/document_processor.py:54-108 | the text does not depend on whether the document information could be read, nor the metadata on whether the pages' text could be extracted |
| PdfProcessor.PdfMetadataSpec | src/shared/document_processor.py:70-116 | without pypdf, for an unreadable file or when reading the document information raises, the metadata is the basic record; otherwise the pypdf record with the page count; always PDFProcessor and `.pdf`, never a document id |
| AdminApi.BuildBatch | src/api/admin_api.py:137-152 | the loop builds `Batch`, one record per chunk |
| AdminApi.ProcessUpload | src/api/admin_api.py:103-192 | the loop body computes the file's outcome (`Outcome`) |
| AdminApi.Outcomes | src/api/admin_api.py:102-192 | one outcome per uploaded file |
| AdminApi.OutcomesPrefix | src/api/admin_api.py:102-192 | each file's outcome depends only on that file, so outcomes extend file by file |
| AdminApi.StatsStep | src/api/admin_api.py:162-192 | each file adds one to processed or one error, and its batch if it went in |
| AdminApi.ProcessFiles | src/api/admin_api.py:102-192 | the loop over the files keeps processed, failed, errors and the inserted batches equal to the counts, messages and batches of the outcomes so far, in file order |
| AdminApi.IngestDocuments | src/api/admin_api.py:96-215 | the handler returns the guarded summary and inserts exactly the batches of the ingested files, in file order |
| AdminApi.CountsAddUp | src/api/admin_api.py:102-192 | processed plus errors is the number of files, and one batch per processed file |
| AdminApi.IngestTotals | src/api/admin_api.py:194-215 | processed + failed = number of files, one error per failure, success iff something was processed, one insert per processed file |
| AdminApi.GuardSpec | src/api/admin_api.py:24-93 | no bearer token 403 "Not authenticated", a wrong non-empty token 401, missing client 500, RAG off 400, in that order and before any file; the request proceeds iff none applies; a refused request inserts nothing |
| AdminApi.RagOffByDefault | src/api/admin_api.py:88-93 | with `ENABLE_RAG` unset the request is refused with 400 |
| AdminApi.EmptyUpload | src/api/admin_api.py:194-205 | an empty upload says "Successfully ingested 0 documents" with success false |
| AdminApi.MessageCases | src/api/admin_api.py:198-205 | all processed: "Successfully ingested n documents"; some: "Partially successful: ..."; none of several: "Failed to ingest any documents. ..." |
| AdminApi.OversizeRejected | src/api/admin_api.py:105-115 | a declared size above the limit fails the file with the size message, before anything is written |
| AdminApi.DotDotFilenameRejected | src/api/admin_api.py:117-167 | a file name with `..` makes the temporary path unsafe, so the file fails with the extraction message |
| AdminApi.IngestedIff | src/api/admin_api.py:105-175 | a file goes in iff it passes the size check, its temporary copy is written, the processor accepts it and the insert succeeds |
| AdminApi.BatchSpec | src/api/admin_api.py:137-152 | records carry the chunks in order with index i, total n, the file name, document id = file name, chunk id `<file>_chunk_<i>`; other metadata keys are copied unchanged |
| AdminApi.ChunkIdsDistinct | src/api/admin_api.py:147 | no two records of a batch share a chunk id |
| AdminApi.IngestedChunksFit | src/api/admin_api.py:133-152 | every inserted record holds a non-empty chunk within the chunk size or a single longer word |
| AdminApi.BatchFits | src/api/admin_api.py:137-152 | a batch of fitting chunks has fitting contents |
| IngestScript.BaseUrlShape | scripts/ingest_documents.py:55-62 | the URL is `host:port` when the host names its scheme, else `http://host:port`; it always has a scheme and ends with the port |
| IngestScript.NewScriptSpec | scripts/ingest_documents.py:53-73 | the script exists iff an API key is set; defaults are `http://localhost:8001`, 100 MiB and the default formats |
| IngestScript.DefaultFormatList | scripts/ingest_documents.py:68-70 | the default format list splits into pdf, json and txt |
| IngestScript.ScreenEntries | scripts/ingest_documents.py:182-217 | the screening loop counts the regular files, records the validation errors in order (failed = their number) and queues the valid files in order |
| IngestScript.SendAll | scripts/ingest_documents.py:229-245 | the sending loop sums the replies' processed and failed counts and gathers their errors in order |
| IngestScript.ProcessDirectory | scripts/ingest_documents.py:157-257 | the method returns `ProcessDirectorySpec` |
| IngestScript.ScreenPartition | scripts/ingest_documents.py:182-217 | every regular file is exactly one of: failed validation, skipped for format, queued |
| IngestScript.QueuedAreValid | scripts/ingest_documents.py:182-217 | only safe, statable, small enough files of a supported format are queued, and none has `..` in its path |
| IngestScript.UnsafeReported | scripts/ingest_documents.py:187-191 | an unsafe file fails with "Unsafe file path: " and its path |
| IngestScript.ProcessDirectoryTotals | scripts/ingest_documents.py:219-257 | no queued file: success false, "No valid files found to process", processed 0, the validation failures and errors only; otherwise processed is the replies' sum, failed the validation plus reply failures, errors the validation errors followed by the reply errors, the file total every regular file, success iff processed > 0 |
| IngestScript.ProcessedPositive | scripts/ingest_documents.py:229-256 | when no reply reports a negative count, the processed total is positive iff some reply reports a processed file |
| IngestScript.RunRejects | scripts/ingest_documents.py:259-277 | a missing, empty or non-existent path gives exactly success false, "Directory not found: " and the path ("None" when missing), no counts and that one error, whatever the directory holds (nothing is sent); any other path gives `process_directory`'s result |
| IngestScript.MissingDirectory | scripts/ingest_documents.py:157-168 | `process_directory` refuses a missing directory with the bare "Directory not found", no counts and that one error, whatever the directory holds |
| IngestScript.LowerSuffixShape | scripts/ingest_documents.py:93-96 | the lower-cased suffix is empty or a dot followed by dot-free text |
| IngestScript.DefaultFormatsSupported | scripts/ingest_documents.py:93-96 | with the default formats a file is sent iff its lower-cased suffix is `.pdf`, `.json` or `.txt` |
| PublicApi.CorrectedRange | src/api/public_api.py:39-97 | "N/A", None and unparsable scores pass unchanged; every number maps into [0, 1]; only +infinity reaches 1 |
| PublicApi.SmallScoresVanish | src/api/public_api.py:74-88 | every score up to 1/2 (and every score <= 0) maps to 0 |
| PublicApi.ScoreOneIsHalf | src/api/public_api.py:77-88 | a score of 1 maps to 0.5 |
| PublicApi.ClosedForm | src/api/public_api.py:77-88 | above 1/2 no clamping happens and the result is `1 - 1/(2s)` |
| PublicApi.Recover | src/api/public_api.py:77-88 | above 1/2 the correction is invertible: `1 / (2 (1 - r))` gives back the raw score |
| PublicApi.Monotone | src/api/public_api.py:74-88 | a higher raw score never gives a lower corrected one |
| PublicApi.ChunkMetadataListSpec | src/api/public_api.py:270-296 | one entry per chunk, numbered from 1, "N/A" past the scores, corrected only for the pgvector provider, file name or "" |
| PublicApi.PgvectorScoresInRange | src/api/public_api.py:270-296 | with pgvector every reported score is "N/A" or in [0, 1] when the store's scores are numbers or infinities |
| Cli.OrElse | src/boann_cli.py:185-186 | Python's `a or b` returns one of its operands |
| Cli.LoadConfigSpec | src/boann_cli.py:176-209 | the key is the argument, else the environment's, and its absence stops the program (exit 1 without a parser); the URL is the argument, else the environment's, else the local default; `--insecure` gives no checking even with a CA file, else a given CA file is used, else the system store |
| Cli.NewClientSpec | src/boann_cli.py:19-48 | a CA file must exist and be a regular file; the base URL is the given one less trailing slashes, stable when built again; the bearer header carries the key; request URLs are base + "/query" and base + "/health" |
| Cli.TrailingSlashIgnored | src/boann_cli.py:26 | a base URL with a trailing slash reaches the same query endpoint |
| Cli.ReportRequestSpec | src/boann_cli.py:340-359 | the report request is the fixed sentence followed by the product, which can be read back; streaming is the negation of `--no-stream`, as for `query` |
| Text.Strip | src/shared/document_processor.py:236-240 | `strip()` is empty iff the text is all whitespace, and otherwise neither starts nor ends with whitespace |
| Text.NormalizeShape | src/shared/document_processor.py:240 | the cleaning step leaves only single spaces between non-space runs, and gives "" iff the text is blank |
| Text.WordsJoin | src/shared/document_processor.py:279 | splitting cleaned text on whitespace and joining the words with spaces gives the text back |
| Text.Lower | src/shared/document_processor.py:31-33 | `lower()` keeps the length and maps each character |
| Text.RStrip | src/boann_cli.py:26 | `rstrip("/")` removes exactly the trailing slashes |
| Text.SplitOnJoin | scripts/ingest_documents.py:68-70 | splitting on a separator is undone by joining with it, and no piece holds it |
| Text.NatToStringRoundTrip | src/api/admin_api.py:147 | the decimal rendering of a chunk index reads back as the index |
| Text.NatToStringInjective | src/api/admin_api.py:147 | distinct indexes render differently |

## Left out

- PDF reading through pypdf: a readable PDF is given as its pages' text, its
  information dictionary and whether extracting the text or reading the
  information raises; what pypdf makes of the bytes is not modelled.
- `json.load` and UTF-8 decoding: the parsed value, or its absence, is an
  input of each file; a dictionary's keys are assumed distinct.
- Python's `str()` rendering of JSON scalars: each number carries its text;
  string escaping in `repr` is not modelled.
- `Text.Lower`: maps ASCII letters only, because Unicode case mapping is
  not modelled.
- `pathlib` normalisation of paths beyond `Path.name`/`Path.suffix`: paths
  are strings and existence, file type and size are inputs.
- File-system effects (`tempfile`, `shutil.copyfileobj`, `unlink`,
  `rglob`, `stat`): each is an input of the upload or directory entry; the
  temporary file's random name is the input `tempName`, and the clean-up in
  the `finally` block (src/api/admin_api.py:177-184) changes no result and
  is left out.
- HTTP, streaming and async code: the admin API's replies to the script,
  the vector store's insert failure and the client's responses are inputs;
  the LLM agent, SSE streams and health probes are not modelled.
- AdminApi.GuardSpec: the bearer token is the credential `HTTPBearer` hands
  on, with the empty string for a missing header or an empty token; a header
  whose scheme is not `Bearer` (refused with 403 "Invalid authentication
  credentials") is not modelled, because the header text is not an input.
- Environment variables: the settings they give are passed in as values.
- Logging, `tqdm` progress bars and `time.sleep`: no effect on results.
- Floating point in `correct_pgvector_score`: modelled over the reals, so
  rounding and NaN are not modelled.
- The `run` exception branch that reports "Script error"
  (scripts/ingest_documents.py:279-288) and the `main` functions with
  their argument parsing are left out; they only report.
- Chunker.ChunksJoin: stated for overlap ≤ 0 only, because with a positive
  overlap the chunks repeat text on purpose.
- Chunker.ChunksOverlap: the overlap is proved for the first phase; it is
  tied to the final chunks only when the word pass changes nothing, since
  the word pass re-cuts chunks without regard to the overlap.
- An overlap at least as large as the chunk size is accepted as the source
  accepts it; no property is claimed about the chunk sizes it then gives
  beyond `Chunker.ChunksFit`.
