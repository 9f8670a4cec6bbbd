/** `DocumentProcessorManager`: choosing a processor by file suffix,
    validating and reading one document, and splitting text into chunks.
    The manager's settings never change after it is built, so it is a value
    passed to each operation. */
module DocumentProcessor {
  import opened Wrappers
  import opened Text
  import opened Values
  import Chunker
  import JsonProcessor
  import PdfProcessor

  /** The settings `DocumentProcessorManager.__init__` reads from the
      environment, and whether the pypdf library could be imported. */
  datatype Manager = Manager(chunkSize: int, chunkOverlap: int, maxFileSize: int, pypdfAvailable: bool)

  /** The settings when none of `CHUNK_SIZE`, `CHUNK_OVERLAP` and
      `MAX_DOCUMENT_SIZE` is set. */
  function DefaultManager(pypdfAvailable: bool): (m: Manager)
    ensures m.chunkSize == 1000 && m.chunkOverlap == 200
    ensures m.maxFileSize == 100 * 1024 * 1024
  {
    Manager(1000, 200, 104857600, pypdfAvailable)
  }

  // ---------------------------------------------------------------------
  // Paths

  /** The last component of a path as `pathlib` sees it: empty components
      and `.` components do not count. */
  function LastComponent(parts: seq<string>): string {
    if parts == [] then ""
    else
      var p := parts[|parts| - 1];
      if p == "" || p == "." then LastComponent(parts[..|parts| - 1]) else p
  }

  /** `Path(path).name`. */
  function Name(path: string): string {
    LastComponent(SplitOn(path, '/'))
  }

  /** The index of the last `c` in `s`, or -1 (`str.rfind`). */
  function RFind(s: string, c: char): (i: int)
    ensures -1 <= i < |s|
    ensures i >= 0 ==> s[i] == c
    ensures forall k :: i < k < |s| ==> s[k] != c
  {
    if s == [] then -1
    else if s[|s| - 1] == c then |s| - 1
    else RFind(s[..|s| - 1], c)
  }

  /** `Path(path).suffix`: from the last dot of the name on, unless that dot
      starts or ends the name. */
  function Suffix(path: string): (r: string)
    ensures r == [] || (r[0] == '.' && 2 <= |r| && forall k :: 1 <= k < |r| ==> r[k] != '.')
  {
    var name := Name(path);
    var i := RFind(name, '.');
    if 0 < i < |name| - 1 then name[i..] else ""
  }

  /** `".." in str(path)`: the path-traversal test. */
  predicate HasDotDot(path: string) {
    Contains(path, "..")
  }

  // ---------------------------------------------------------------------
  // Processor dispatch

  datatype Processor = Pdf | Json

  /** The manager's processors, in the order `get_processor` tries them. */
  const Processors: seq<Processor> := [Pdf, Json]

  /** `supported_extensions`: the PDF processor disables itself without pypdf. */
  function Extensions(m: Manager, p: Processor): seq<string> {
    match p
    case Pdf => if m.pypdfAvailable then [".pdf"] else []
    case Json => [".json"]
  }

  /** `can_process`: the lower-cased suffix is one of the processor's. */
  predicate CanProcess(m: Manager, p: Processor, path: string) {
    Lower(Suffix(path)) in Extensions(m, p)
  }

  /** The first processor that can handle the path. */
  function FirstProcessor(m: Manager, path: string): Option<Processor> {
    if CanProcess(m, Pdf, path) then Some(Pdf)
    else if CanProcess(m, Json, path) then Some(Json)
    else None
  }

  /** `get_processor`: the loop over the processors. */
  method GetProcessor(m: Manager, path: string) returns (r: Option<Processor>)
    ensures r == FirstProcessor(m, path)
  {
    var i := 0;
    while i < |Processors|
      invariant 0 <= i <= |Processors|
      invariant forall k :: 0 <= k < i ==> !CanProcess(m, Processors[k], path)
    {
      if CanProcess(m, Processors[i], path) {
        return Some(Processors[i]);
      }
      i := i + 1;
    }
    assert !CanProcess(m, Processors[0], path) && !CanProcess(m, Processors[1], path);
    return None;
  }

  /** A file goes to the PDF processor exactly when pypdf is there and its
      suffix is `.pdf` in any case, to the JSON processor exactly when its
      suffix is `.json` in any case, and to neither otherwise. */
  lemma DispatchBySuffix(m: Manager, path: string)
    ensures FirstProcessor(m, path) == Some(Pdf) <==> m.pypdfAvailable && Lower(Suffix(path)) == ".pdf"
    ensures FirstProcessor(m, path) == Some(Json) <==> Lower(Suffix(path)) == ".json"
    ensures FirstProcessor(m, path).None? <==>
              Lower(Suffix(path)) != ".json" && (Lower(Suffix(path)) != ".pdf" || !m.pypdfAvailable)
  {
  }

  // ---------------------------------------------------------------------
  // Reading one document

  /** Everything `process_document` learns about one path from the file
      system: whether it exists and is a regular file, its size (`None` when
      `stat` fails), and what the readers make of its content: pypdf's view
      (`None` when pypdf cannot read it), the parsed JSON (`None` when it is
      not valid JSON in UTF-8) and the UTF-8 text (`None` when it does not
      decode). */
  datatype FileEntry = FileEntry(
    path: string,
    present: bool,
    isFile: bool,
    size: Option<nat>,
    pdf: Option<PdfProcessor.PdfDocument>,
    json: Option<Json>,
    utf8: Option<string>)

  /** `_is_safe_path`. */
  predicate IsSafePath(f: FileEntry) {
    !HasDotDot(f.path) && f.present && f.isFile
  }

  /** The metadata of a file no processor handles, read as plain text. */
  function DirectMetadata(path: string): Metadata {
    map["file_extension" := MStr(Suffix(path)), "processing_method" := MStr("direct_file_read"),
        "processor" := MStr("none")]
  }

  /** What the PDF processor gives: `None` when `extract_text` raises. */
  function PdfOutput(m: Manager, f: FileEntry): Option<(string, Metadata)> {
    match PdfProcessor.PdfText(m.pypdfAvailable, f.pdf)
    case None => None
    case Some(t) => Some((t, PdfProcessor.PdfMetadata(m.pypdfAvailable, f.pdf)))
  }

  /** What the JSON processor gives; it never raises. */
  function JsonOutput(f: FileEntry): Option<(string, Metadata)> {
    Some((JsonProcessor.JsonText(f.json), JsonProcessor.JsonMetadata(f.json)))
  }

  /** The file read as UTF-8 text: `None` when that raises. */
  function DirectOutput(f: FileEntry): Option<(string, Metadata)> {
    match f.utf8
    case None => None
    case Some(t) => Some((t, DirectMetadata(f.path)))
  }

  /** Text and metadata from the chosen processor, or from reading the file
      as text; `None` when that raises. */
  function Extracted(m: Manager, f: FileEntry): Option<(string, Metadata)> {
    match FirstProcessor(m, f.path)
    case Some(Pdf) => PdfOutput(m, f)
    case Some(Json) => JsonOutput(f)
    case None => DirectOutput(f)
  }

  /** The triple `process_document` returns. */
  datatype Processed = Processed(text: string, metadata: Metadata, success: bool)

  const Failed := Processed("", map[], false)

  /** `process_document`: unsafe paths, files whose size cannot be read or
      exceeds the limit, and files that give no text all fail with
      `("", {}, False)`. */
  function ProcessDocument(m: Manager, f: FileEntry): Processed {
    if !IsSafePath(f) then Failed
    else if f.size.None? || f.size.value > m.maxFileSize then Failed
    else match Extracted(m, f)
      case None => Failed
      case Some((text, meta)) => if Strip(text) == [] then Failed else Processed(text, meta, true)
  }

  lemma PdfOutputMetadata(m: Manager, f: FileEntry)
    requires PdfOutput(m, f).Some?
    ensures "processor" in PdfOutput(m, f).value.1
    ensures "document_id" !in PdfOutput(m, f).value.1
  {
    PdfProcessor.PdfMetadataSpec(m.pypdfAvailable, f.pdf);
  }

  lemma JsonOutputMetadata(f: FileEntry)
    requires Strip(JsonOutput(f).value.0) != []
    ensures "processor" in JsonOutput(f).value.1
    ensures "document_id" !in JsonOutput(f).value.1
  {
    JsonProcessor.JsonMetadataSpec(f.json);
  }

  /** A file read as plain text keeps its text and gets exactly three
      entries: its suffix, the direct read and processor "none". */
  lemma DirectOutputMetadata(f: FileEntry)
    requires DirectOutput(f).Some?
    ensures DirectOutput(f).value.0 == f.utf8.value
    ensures DirectOutput(f).value.1.Keys == {"file_extension", "processing_method", "processor"}
    ensures DirectOutput(f).value.1["file_extension"] == MStr(Suffix(f.path))
    ensures DirectOutput(f).value.1["processing_method"] == MStr("direct_file_read")
    ensures DirectOutput(f).value.1["processor"] == MStr("none")
    ensures "document_id" !in DirectOutput(f).value.1
  {
    assert DirectMetadata(f.path).Keys == {"file_extension", "processing_method", "processor"};
  }

  /** Whatever reads a non-blank text also names its processor and sets no
      document id. */
  lemma ExtractedMetadata(m: Manager, f: FileEntry)
    requires Extracted(m, f).Some? && Strip(Extracted(m, f).value.0) != []
    ensures "processor" in Extracted(m, f).value.1
    ensures "document_id" !in Extracted(m, f).value.1
  {
    match FirstProcessor(m, f.path)
    case Some(Pdf) => PdfOutputMetadata(m, f);
    case Some(Json) => JsonOutputMetadata(f);
    case None => DirectOutputMetadata(f);
  }

  /** A document is accepted exactly when its path is safe (no `..`, a
      present regular file), its size is known and within the limit, and
      the text read from it is not blank; a rejected document gives
      `("", {}, False)`; an accepted one carries the processor's metadata,
      which names the processor and never holds a document id. */
  lemma ProcessDocumentSpec(m: Manager, f: FileEntry)
    ensures ProcessDocument(m, f).success <==>
              !HasDotDot(f.path) && f.present && f.isFile && f.size.Some? && f.size.value <= m.maxFileSize
              && Extracted(m, f).Some? && Strip(Extracted(m, f).value.0) != []
    ensures !ProcessDocument(m, f).success ==> ProcessDocument(m, f) == Processed("", map[], false)
    ensures ProcessDocument(m, f).success ==>
              (ProcessDocument(m, f).text, ProcessDocument(m, f).metadata) == Extracted(m, f).value
              && Strip(ProcessDocument(m, f).text) != []
              && "processor" in ProcessDocument(m, f).metadata
              && "document_id" !in ProcessDocument(m, f).metadata
  {
    if ProcessDocument(m, f).success {
      ExtractedMetadata(m, f);
    }
  }

  /** A PDF whose pages read but whose document information raises is
      still accepted, with its text and the basic metadata record. */
  lemma PdfMetadataErrorKeepsText(m: Manager, f: FileEntry)
    requires IsSafePath(f) && f.size.Some? && f.size.value <= m.maxFileSize
    requires FirstProcessor(m, f.path) == Some(Pdf)
    requires f.pdf.Some? && !f.pdf.value.textError && f.pdf.value.metadataError
    requires Strip(PdfProcessor.PagesText(f.pdf.value.pages)) != []
    ensures ProcessDocument(m, f)
              == Processed(Strip(PdfProcessor.PagesText(f.pdf.value.pages)), PdfProcessor.BasicMetadata, true)
  {
    PdfMetadataErrorOutput(m, f);
    var t := Strip(PdfProcessor.PagesText(f.pdf.value.pages));
    assert !IsSpace(t[0]);
  }

  lemma PdfMetadataErrorOutput(m: Manager, f: FileEntry)
    requires FirstProcessor(m, f.path) == Some(Pdf)
    requires f.pdf.Some? && !f.pdf.value.textError && f.pdf.value.metadataError
    ensures Extracted(m, f) == Some((Strip(PdfProcessor.PagesText(f.pdf.value.pages)), PdfProcessor.BasicMetadata))
  {
    assert CanProcess(m, Pdf, f.path);
    assert m.pypdfAvailable;
    var d := f.pdf.value;
    assert PdfProcessor.PdfText(true, f.pdf) == Some(Strip(PdfProcessor.PagesText(d.pages)));
    assert PdfProcessor.PdfMetadata(true, f.pdf) == PdfProcessor.BasicMetadata;
  }

  /** A path holding `..` is refused whatever the file is. */
  lemma DotDotRejected(m: Manager, f: FileEntry)
    requires HasDotDot(f.path)
    ensures ProcessDocument(m, f) == Failed
  {
  }

  // ---------------------------------------------------------------------
  // chunk_text

  /** `chunk_text(text, chunk_size)`: the sentence pass, then the word pass
      for chunks that are still too long. The overlap always comes from the
      manager. */
  method ChunkText(m: Manager, text: string, chunkSizeArg: Option<int>) returns (chunks: seq<string>)
    ensures chunks == Chunker.Chunks(text, chunkSizeArg.GetOr(m.chunkSize), m.chunkOverlap)
  {
    var size := chunkSizeArg.GetOr(m.chunkSize);
    if Strip(text) == [] {
      return [];
    }
    var t := Normalize(text);
    if |t| <= size {
      return [t];
    }
    var packed := PackSentences(Chunker.SplitSentences(t), size, m.chunkOverlap);
    chunks := RefineChunks(packed, size);
  }

  /** One sentence of the first pass: a sentence that does not fit closes
      the buffer, and the next one starts with the carried-over tail or
      with the sentence alone; a sentence that fits is added to the
      buffer. What is still to come is the same before and after. */
  method AddSentence(ghost ss: seq<string>, ghost i: nat, sentence: string, size: int, overlap: int,
                     packed: seq<string>, current: string)
    returns (packed': seq<string>, current': string)
    requires i < |ss| && sentence == ss[i]
    ensures packed' + Chunker.Pack(ss[i + 1..], size, overlap, current')
            == packed + Chunker.Pack(ss[i..], size, overlap, current)
  {
    assert ss[i..][1..] == ss[i + 1..];
    if |current| + |sentence| > size && current != [] {
      packed' := packed + [Strip(current)];
      if overlap > 0 && |current| > overlap {
        current' := current[|current| - overlap..] + " " + sentence;
      } else {
        current' := sentence;
      }
      Chunker.PackSplits(ss[i..], size, overlap, current, current');
    } else {
      packed' := packed;
      if current != [] {
        current' := current + " " + sentence;
      } else {
        current' := sentence;
      }
      Chunker.PackGrows(ss[i..], size, overlap, current);
    }
  }

  /** The first pass of `chunk_text`: whole sentences packed into chunks,
      each new chunk opening with the last `overlap` characters of the one
      before. */
  method PackSentences(sentences: seq<string>, size: int, overlap: int) returns (packed: seq<string>)
    ensures packed == Chunker.Pack(sentences, size, overlap, "")
  {
    packed := [];
    var current := "";
    var i := 0;
    while i < |sentences|
      invariant 0 <= i <= |sentences|
      invariant packed + Chunker.Pack(sentences[i..], size, overlap, current)
                == Chunker.Pack(sentences, size, overlap, "")
    {
      packed, current := AddSentence(sentences, i, sentences[i], size, overlap, packed, current);
      i := i + 1;
    }
    assert sentences[i..] == [];
    if Strip(current) != [] {
      packed := packed + [Strip(current)];
    }
  }

  /** One chunk of the second pass, as `Chunker.Piece` describes it. */
  method ChunkPieces(chunk: string, size: int) returns (pieces: seq<string>)
    ensures pieces == Chunker.Piece(chunk, size)
  {
    if |chunk| <= size {
      pieces := [chunk];
    } else {
      pieces := SplitWords(Words(chunk), size);
    }
  }

  lemma RefineStep(cs: seq<string>, j: nat, size: int)
    requires j < |cs|
    ensures Chunker.Refine(cs[j..], size) == Chunker.Piece(cs[j], size) + Chunker.Refine(cs[j + 1..], size)
  {
    assert cs[j..][1..] == cs[j + 1..];
  }

  /** The second pass of `chunk_text`: chunks within the size are kept,
      longer ones are split on words. */
  method RefineChunks(packed: seq<string>, size: int) returns (chunks: seq<string>)
    ensures chunks == Chunker.Refine(packed, size)
  {
    chunks := [];
    var j := 0;
    while j < |packed|
      invariant 0 <= j <= |packed|
      invariant chunks + Chunker.Refine(packed[j..], size) == Chunker.Refine(packed, size)
    {
      var pieces := ChunkPieces(packed[j], size);
      RefineStep(packed, j, size);
      chunks := chunks + pieces;
      j := j + 1;
    }
    assert packed[j..] == [];
  }

  /** Words packed greedily into pieces of at most `size` characters; a
      word longer than that is a piece of its own. */
  method SplitWords(words: seq<string>, size: int) returns (pieces: seq<string>)
    ensures pieces == Chunker.PackWords(words, size, "")
  {
    pieces := [];
    var sub := "";
    var k := 0;
    while k < |words|
      invariant 0 <= k <= |words|
      invariant pieces + Chunker.PackWords(words[k..], size, sub) == Chunker.PackWords(words, size, "")
    {
      var word := words[k];
      assert words[k..][1..] == words[k + 1..];
      if |sub| + |word| + 1 <= size {
        if sub != [] {
          sub := sub + " " + word;
        } else {
          sub := word;
        }
      } else {
        if sub != [] {
          pieces := pieces + [sub];
        }
        sub := word;
      }
      k := k + 1;
    }
    assert words[k..] == [];
    if sub != [] {
      pieces := pieces + [sub];
    }
  }
}
