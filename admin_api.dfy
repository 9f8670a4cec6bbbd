/** The admin API's `POST /ingest` handler: each uploaded file is checked,
    written to a temporary file, read by the document processor, chunked
    and sent to the vector store in one batch; the handler then reports how
    many files made it. The settings it reads from the environment, the
    client and each upload's fate in the file system and the vector store
    are inputs. */
module AdminApi {
  import opened Wrappers
  import opened Text
  import opened Values
  import Chunker
  import DP = DocumentProcessor
  import PdfProcessor

  /** `BOANN_ADMIN_API_KEY`: the module refuses to load when it is unset
      or empty, so a running handler always has a non-empty key. */
  type AdminKey = k: string | k != "" witness "key"

  /** The handler's settings: the document processor manager (built from
      `CHUNK_SIZE`, `CHUNK_OVERLAP` and `MAX_DOCUMENT_SIZE`, which the
      handler also reads itself), `ENABLE_RAG`, `VECTOR_DB_ID` and the
      admin key. */
  datatype AdminConfig = AdminConfig(
    manager: DP.Manager,
    enableRag: Option<string>,
    vectorDbId: string,
    adminKey: AdminKey)

  /** What the temporary file holds once the upload is copied into it. */
  datatype Content = Content(
    byteCount: nat,
    pdf: Option<PdfProcessor.PdfDocument>,
    json: Option<Json>,
    utf8: Option<string>)

  /** One uploaded file and how its handling goes: `size` is what the
      client declared, `tempError` the exception creating or filling the
      temporary file raises, `tempName` the name `tempfile` picks before the
      `_<filename>` suffix, and `insertError` the exception the vector
      store's insert raises. */
  datatype Upload = Upload(
    filename: string,
    size: Option<int>,
    tempError: Option<string>,
    tempName: string,
    content: Content,
    insertError: Option<string>)

  datatype HttpError = HttpError(status: int, detail: string)

  /** One element of the batch sent to `vector_io.insert`. */
  datatype ChunkRecord = ChunkRecord(content: string, metadata: Metadata)

  /** The `IngestResponse` model. */
  datatype IngestResponse = IngestResponse(
    success: bool,
    message: string,
    processedFiles: nat,
    failedFiles: nat,
    errors: seq<string>)

  /** What happened to one file: its batch went in, or it failed with a
      message. */
  datatype FileOutcome = Ingested(batch: seq<ChunkRecord>) | Rejected(error: string)

  // ---------------------------------------------------------------------
  // Guards

  /** `HTTPBearer()`, which raises on its own: a request without a bearer
      token (the empty string here) is refused before the key is compared. */
  function Authenticate(credential: string): Option<HttpError> {
    if credential == "" then Some(HttpError(403, "Not authenticated")) else None
  }

  /** `verify_admin_api_key`: the bearer token must equal the configured
      key. */
  function Authorize(cfg: AdminConfig, credential: string): Option<HttpError> {
    if credential != cfg.adminKey then Some(HttpError(401, "Invalid admin API key")) else None
  }

  /** The checks before any file is looked at, in the order they run. */
  function Guard(cfg: AdminConfig, credential: string, clientAvailable: bool): Option<HttpError> {
    if Authenticate(credential).Some? then Authenticate(credential)
    else if Authorize(cfg, credential).Some? then Authorize(cfg, credential)
    else if !clientAvailable then Some(HttpError(500, "LlamaStack client not available"))
    else if Lower(cfg.enableRag.GetOr("false")) != "true" then
      Some(HttpError(400, "RAG is not enabled. Set ENABLE_RAG=true to use this endpoint."))
    else None
  }

  // ---------------------------------------------------------------------
  // One file

  /** The temporary file: `NamedTemporaryFile(suffix=f"_{filename}")`. */
  function TempFile(u: Upload): DP.FileEntry {
    DP.FileEntry(u.tempName + "_" + u.filename, true, true, Some(u.content.byteCount),
                 u.content.pdf, u.content.json, u.content.utf8)
  }

  /** `file.size and file.size > max_size`: an unknown or zero size passes. */
  predicate TooLarge(size: Option<int>, max: int) {
    size.Some? && size.value != 0 && size.value > max
  }

  function OversizeError(filename: string, max: int): string {
    "File " + filename + " exceeds maximum size (" + IntToString(max) + " bytes)"
  }

  function ExtractError(filename: string): string {
    "Failed to extract text from " + filename
  }

  function ProcessingError(filename: string, e: string): string {
    "Processing error for " + filename + ": " + e
  }

  function FileHandlingError(filename: string, e: string): string {
    "File handling error for " + filename + ": " + e
  }

  /** The metadata of chunk `i` of `total`: the document's metadata with the
      chunk's position, the file name, the document id (the document's own,
      else the file name) and a chunk id made of the two. */
  function ChunkMetadata(meta: Metadata, i: nat, total: nat, filename: string): Metadata {
    var docId := Get(meta, "document_id", MStr(filename));
    meta["chunk_index" := MInt(i)]["total_chunks" := MInt(total)]["file_name" := MStr(filename)]
        ["document_id" := docId]["chunk_id" := MStr(Render(docId) + "_chunk_" + NatToString(i))]
  }

  /** The batch built for one document. */
  function Batch(meta: Metadata, chunks: seq<string>, filename: string): seq<ChunkRecord> {
    seq(|chunks|, i requires 0 <= i < |chunks| => ChunkRecord(chunks[i], ChunkMetadata(meta, i, |chunks|, filename)))
  }

  /** The fate of one upload, as the body of the handler's loop decides it. */
  function Outcome(cfg: AdminConfig, u: Upload): FileOutcome {
    var m := cfg.manager;
    if TooLarge(u.size, m.maxFileSize) then Rejected(OversizeError(u.filename, m.maxFileSize))
    else if u.tempError.Some? then Rejected(FileHandlingError(u.filename, u.tempError.value))
    else StoreOutcome(cfg, u)
  }

  /** The inner `try` block: process the temporary file, chunk its text and
      insert the batch. */
  function StoreOutcome(cfg: AdminConfig, u: Upload): FileOutcome {
    var m := cfg.manager;
    var r := DP.ProcessDocument(m, TempFile(u));
    if r.success && Strip(r.text) != [] then
      var chunks := Chunker.Chunks(r.text, m.chunkSize, m.chunkOverlap);
      if u.insertError.Some? then Rejected(ProcessingError(u.filename, u.insertError.value))
      else Ingested(Batch(r.metadata, chunks, u.filename))
    else Rejected(ExtractError(u.filename))
  }

  /** The loop that builds the batch. */
  method BuildBatch(meta: Metadata, chunks: seq<string>, filename: string) returns (batch: seq<ChunkRecord>)
    ensures batch == Batch(meta, chunks, filename)
  {
    batch := [];
    var i := 0;
    while i < |chunks|
      invariant 0 <= i <= |chunks|
      invariant batch == Batch(meta, chunks, filename)[..i]
    {
      batch := batch + [ChunkRecord(chunks[i], ChunkMetadata(meta, i, |chunks|, filename))];
      i := i + 1;
    }
    assert Batch(meta, chunks, filename)[..i] == Batch(meta, chunks, filename);
  }

  /** The body of the handler's loop for one file. */
  method ProcessUpload(cfg: AdminConfig, u: Upload) returns (outcome: FileOutcome)
    ensures outcome == Outcome(cfg, u)
  {
    var m := cfg.manager;
    if TooLarge(u.size, m.maxFileSize) {
      return Rejected(OversizeError(u.filename, m.maxFileSize));
    }
    if u.tempError.Some? {
      return Rejected(FileHandlingError(u.filename, u.tempError.value));
    }
    var r := DP.ProcessDocument(m, TempFile(u));
    if r.success && Strip(r.text) != [] {
      var chunks := DP.ChunkText(m, r.text, Some(m.chunkSize));
      var batch := BuildBatch(r.metadata, chunks, u.filename);
      if u.insertError.Some? {
        return Rejected(ProcessingError(u.filename, u.insertError.value));
      }
      return Ingested(batch);
    }
    return Rejected(ExtractError(u.filename));
  }

  // ---------------------------------------------------------------------
  // The whole request

  function Outcomes(cfg: AdminConfig, files: seq<Upload>): (os: seq<FileOutcome>)
    ensures |os| == |files|
    decreases |files|
  {
    if files == [] then [] else Outcomes(cfg, files[..|files| - 1]) + [Outcome(cfg, files[|files| - 1])]
  }

  /** How many files went in. */
  function CountIngested(os: seq<FileOutcome>): nat {
    if os == [] then 0 else CountIngested(os[..|os| - 1]) + (if os[|os| - 1].Ingested? then 1 else 0)
  }

  /** The error messages, in file order. */
  function ErrorsOf(os: seq<FileOutcome>): seq<string> {
    if os == [] then []
    else ErrorsOf(os[..|os| - 1]) + (if os[|os| - 1].Rejected? then [os[|os| - 1].error] else [])
  }

  /** The batches inserted, in file order. */
  function BatchesOf(os: seq<FileOutcome>): seq<seq<ChunkRecord>> {
    if os == [] then []
    else BatchesOf(os[..|os| - 1]) + (if os[|os| - 1].Ingested? then [os[|os| - 1].batch] else [])
  }

  /** The response message for `processed` of `total` files. */
  function Message(processed: nat, failed: nat, total: nat): string {
    if processed == total then "Successfully ingested " + NatToString(processed) + " documents"
    else if processed > 0 then
      "Partially successful: " + NatToString(processed) + "/" + NatToString(total) + " documents ingested"
    else "Failed to ingest any documents. " + NatToString(failed) + " files failed"
  }

  function Summary(os: seq<FileOutcome>): IngestResponse {
    var processed := CountIngested(os);
    var errors := ErrorsOf(os);
    IngestResponse(processed > 0, Message(processed, |errors|, |os|), processed, |errors|, errors)
  }

  /** `ingest_documents`: the guards, then one outcome per file. */
  function Ingest(cfg: AdminConfig, credential: string, clientAvailable: bool, files: seq<Upload>)
    : Result<IngestResponse, HttpError>
  {
    match Guard(cfg, credential, clientAvailable)
    case Some(e) => Failure(e)
    case None => Success(Summary(Outcomes(cfg, files)))
  }

  /** The batches the request inserts. */
  function Inserted(cfg: AdminConfig, credential: string, clientAvailable: bool, files: seq<Upload>)
    : seq<seq<ChunkRecord>>
  {
    if Guard(cfg, credential, clientAvailable).Some? then [] else BatchesOf(Outcomes(cfg, files))
  }

  lemma OutcomesPrefix(cfg: AdminConfig, files: seq<Upload>, i: nat)
    requires i < |files|
    ensures Outcomes(cfg, files[..i + 1]) == Outcomes(cfg, files[..i]) + [Outcome(cfg, files[i])]
  {
    assert files[..i + 1][..i] == files[..i];
  }

  lemma StatsStep(os: seq<FileOutcome>, o: FileOutcome)
    ensures CountIngested(os + [o]) == CountIngested(os) + (if o.Ingested? then 1 else 0)
    ensures ErrorsOf(os + [o]) == ErrorsOf(os) + (if o.Rejected? then [o.error] else [])
    ensures BatchesOf(os + [o]) == BatchesOf(os) + (if o.Ingested? then [o.batch] else [])
  {
    assert (os + [o])[..|os|] == os;
  }

  /** The handler's loop over the files: the stats dictionary becomes three
      counters updated once per file, and `inserts` lists the batches the
      vector store accepted. */
  method ProcessFiles(cfg: AdminConfig, files: seq<Upload>)
    returns (processed: nat, failed: nat, errors: seq<string>, inserts: seq<seq<ChunkRecord>>)
    ensures processed == CountIngested(Outcomes(cfg, files))
    ensures errors == ErrorsOf(Outcomes(cfg, files)) && failed == |errors|
    ensures inserts == BatchesOf(Outcomes(cfg, files))
  {
    processed, failed, errors, inserts := 0, 0, [], [];
    ghost var seen: seq<FileOutcome> := [];
    var i := 0;
    while i < |files|
      invariant 0 <= i <= |files|
      invariant seen == Outcomes(cfg, files[..i])
      invariant processed == CountIngested(seen)
      invariant errors == ErrorsOf(seen) && failed == |errors|
      invariant inserts == BatchesOf(seen)
    {
      var outcome := ProcessUpload(cfg, files[i]);
      OutcomesPrefix(cfg, files, i);
      StatsStep(seen, outcome);
      seen := seen + [outcome];
      match outcome {
        case Ingested(batch) =>
          inserts := inserts + [batch];
          processed := processed + 1;
        case Rejected(e) =>
          failed := failed + 1;
          errors := errors + [e];
      }
      i := i + 1;
    }
    assert files[..i] == files;
  }

  /** The handler: the guards, then the loop over the files and the
      summary. */
  method IngestDocuments(cfg: AdminConfig, credential: string, clientAvailable: bool, files: seq<Upload>)
    returns (r: Result<IngestResponse, HttpError>, inserts: seq<seq<ChunkRecord>>)
    ensures r == Ingest(cfg, credential, clientAvailable, files)
    ensures inserts == Inserted(cfg, credential, clientAvailable, files)
  {
    var guard := Guard(cfg, credential, clientAvailable);
    if guard.Some? {
      return Failure(guard.value), [];
    }
    var processed, failed, errors;
    processed, failed, errors, inserts := ProcessFiles(cfg, files);
    var message := Message(processed, failed, |files|);
    r := Success(IngestResponse(processed > 0, message, processed, failed, errors));
  }

  // ---------------------------------------------------------------------
  // Properties

  lemma {:induction false} CountsAddUp(os: seq<FileOutcome>)
    ensures CountIngested(os) + |ErrorsOf(os)| == |os|
    ensures |BatchesOf(os)| == CountIngested(os)
  {
    if os != [] {
      CountsAddUp(os[..|os| - 1]);
    }
  }

  /** Every file is counted once, as processed or as failed with one error
      message; one batch goes in per processed file; the request succeeds
      exactly when at least one file went in. */
  lemma IngestTotals(cfg: AdminConfig, credential: string, clientAvailable: bool, files: seq<Upload>)
    requires Ingest(cfg, credential, clientAvailable, files).Success?
    ensures var resp := Ingest(cfg, credential, clientAvailable, files).value;
            resp.processedFiles + resp.failedFiles == |files|
            && |resp.errors| == resp.failedFiles
            && (resp.success <==> resp.processedFiles > 0)
            && |Inserted(cfg, credential, clientAvailable, files)| == resp.processedFiles
  {
    CountsAddUp(Outcomes(cfg, files));
  }

  /** The request is refused before any file is read: no bearer token
      gives 403, a wrong key 401, a missing client 500, RAG switched off
      400; it goes ahead exactly when the key matches, the client is there
      and `ENABLE_RAG` is "true" in any case. */
  lemma GuardSpec(cfg: AdminConfig, credential: string, clientAvailable: bool, files: seq<Upload>)
    ensures credential == "" ==>
              Ingest(cfg, credential, clientAvailable, files) == Failure(HttpError(403, "Not authenticated"))
    ensures credential != "" && cfg.adminKey != credential ==>
              Ingest(cfg, credential, clientAvailable, files) == Failure(HttpError(401, "Invalid admin API key"))
    ensures cfg.adminKey == credential && !clientAvailable ==>
              Ingest(cfg, credential, clientAvailable, files)
                == Failure(HttpError(500, "LlamaStack client not available"))
    ensures cfg.adminKey == credential && clientAvailable && Lower(cfg.enableRag.GetOr("false")) != "true" ==>
              Ingest(cfg, credential, clientAvailable, files).Failure?
              && Ingest(cfg, credential, clientAvailable, files).error.status == 400
    ensures Ingest(cfg, credential, clientAvailable, files).Success? <==>
              cfg.adminKey == credential && clientAvailable && Lower(cfg.enableRag.GetOr("false")) == "true"
    ensures Ingest(cfg, credential, clientAvailable, files).Failure? ==>
              Inserted(cfg, credential, clientAvailable, files) == []
  {
  }

  /** With RAG left at its default nothing is ingested. */
  lemma RagOffByDefault(cfg: AdminConfig, credential: string, files: seq<Upload>)
    requires cfg.enableRag.None? && cfg.adminKey == credential
    ensures Ingest(cfg, credential, true, files).Failure?
    ensures Ingest(cfg, credential, true, files).error.status == 400
  {
    assert Lower("false") == "false";
  }

  /** An empty upload reports "Successfully ingested 0 documents" while its
      success flag is false. */
  lemma EmptyUpload(cfg: AdminConfig, credential: string)
    requires Ingest(cfg, credential, true, []).Success?
    ensures Ingest(cfg, credential, true, []).value.message == "Successfully ingested 0 documents"
    ensures !Ingest(cfg, credential, true, []).value.success
  {
  }

  /** When some but not all files go in the message says how many; when
      none does it counts the failures. */
  lemma MessageCases(processed: nat, failed: nat, total: nat)
    ensures processed == total ==>
              Message(processed, failed, total) == "Successfully ingested " + NatToString(processed) + " documents"
    ensures 0 < processed < total ==>
              StartsWith(Message(processed, failed, total), "Partially successful: ")
    ensures processed == 0 < total ==> StartsWith(Message(processed, failed, total), "Failed to ingest any documents. ")
  {
  }

  /** A declared size above the limit fails the file before anything is
      written. */
  lemma OversizeRejected(cfg: AdminConfig, u: Upload)
    requires u.size.Some? && u.size.value > cfg.manager.maxFileSize && u.size.value != 0
    ensures Outcome(cfg, u) == Rejected(OversizeError(u.filename, cfg.manager.maxFileSize))
  {
  }

  /** A file name holding `..` puts `..` in the temporary path, which the
      document processor refuses, so the file fails with the extraction
      message whatever its content. */
  lemma DotDotFilenameRejected(cfg: AdminConfig, u: Upload)
    requires Contains(u.filename, "..")
    requires !TooLarge(u.size, cfg.manager.maxFileSize) && u.tempError.None?
    ensures Outcome(cfg, u) == Rejected(ExtractError(u.filename))
  {
    ContainsAfter(u.tempName + "_", u.filename, "..");
    assert TempFile(u).path == u.tempName + "_" + u.filename;
  }

  /** A file goes in exactly when it passes the size check, its temporary
      copy is written, the document processor accepts it and the insert
      succeeds. */
  lemma IngestedIff(cfg: AdminConfig, u: Upload)
    ensures Outcome(cfg, u).Ingested? <==>
              !TooLarge(u.size, cfg.manager.maxFileSize) && u.tempError.None?
              && DP.ProcessDocument(cfg.manager, TempFile(u)).success && u.insertError.None?
  {
    DP.ProcessDocumentSpec(cfg.manager, TempFile(u));
  }

  /** The records of a batch carry the chunks in order; each names its
      position, the total, the file and the document, whose id is the file
      name since the processors never set one; every other key of the
      document's metadata is copied unchanged. */
  lemma BatchSpec(meta: Metadata, chunks: seq<string>, filename: string)
    requires "document_id" !in meta
    ensures var b := Batch(meta, chunks, filename);
            |b| == |chunks|
            && forall i :: 0 <= i < |b| ==>
                 b[i].content == chunks[i]
                 && b[i].metadata["chunk_index"] == MInt(i)
                 && b[i].metadata["total_chunks"] == MInt(|chunks|)
                 && b[i].metadata["file_name"] == MStr(filename)
                 && b[i].metadata["document_id"] == MStr(filename)
                 && b[i].metadata["chunk_id"] == MStr(filename + "_chunk_" + NatToString(i))
    ensures forall i, k :: 0 <= i < |chunks| && k in meta ==>
              k in Batch(meta, chunks, filename)[i].metadata
              && (k !in {"chunk_index", "total_chunks", "file_name", "chunk_id"} ==>
                    Batch(meta, chunks, filename)[i].metadata[k] == meta[k])
  {
  }

  /** Within a batch no two records share a chunk id. */
  lemma ChunkIdsDistinct(meta: Metadata, chunks: seq<string>, filename: string, i: nat, j: nat)
    requires i < |chunks| && j < |chunks| && i != j
    ensures Batch(meta, chunks, filename)[i].metadata["chunk_id"] != Batch(meta, chunks, filename)[j].metadata["chunk_id"]
  {
    var docId := Render(Get(meta, "document_id", MStr(filename)));
    var a := docId + "_chunk_" + NatToString(i);
    var b := docId + "_chunk_" + NatToString(j);
    if a == b {
      var n := |docId + "_chunk_"|;
      assert a[n..] == NatToString(i);
      assert b[n..] == NatToString(j);
      NatToStringInjective(i, j);
    }
  }

  /** Every record of an inserted batch holds a non-empty chunk within the
      configured size, or a single word longer than it. */
  lemma IngestedChunksFit(cfg: AdminConfig, u: Upload)
    requires Outcome(cfg, u).Ingested?
    ensures var b := Outcome(cfg, u).batch;
            forall i :: 0 <= i < |b| ==>
              b[i].content != [] && (|b[i].content| <= cfg.manager.chunkSize || NoSpace(b[i].content))
  {
    var m := cfg.manager;
    var r := DP.ProcessDocument(m, TempFile(u));
    var chunks := Chunker.Chunks(r.text, m.chunkSize, m.chunkOverlap);
    Chunker.ChunksFit(r.text, m.chunkSize, m.chunkOverlap);
    assert Outcome(cfg, u) == StoreOutcome(cfg, u);
    assert StoreOutcome(cfg, u).batch == Batch(r.metadata, chunks, u.filename);
    BatchFits(r.metadata, chunks, u.filename, m.chunkSize);
  }

  lemma BatchFits(meta: Metadata, chunks: seq<string>, filename: string, cs: int)
    requires Chunker.AllFit(chunks, cs)
    ensures var b := Batch(meta, chunks, filename);
            forall i :: 0 <= i < |b| ==> b[i].content != [] && (|b[i].content| <= cs || NoSpace(b[i].content))
  {
  }
}
