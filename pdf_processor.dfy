/** `PDFProcessor`: the text of a PDF is its pages' text, each followed by
    a newline, stripped; its metadata is the document information pypdf
    reads, or a basic record when pypdf is missing or the file cannot be
    read. */
module PdfProcessor {
  import opened Wrappers
  import opened Text
  import opened Values

  /** The document information dictionary as pypdf exposes it. A date
      carries the text `str()` gives for pypdf's datetime. */
  datatype PdfInfo = PdfInfo(
    title: Option<string>,
    author: Option<string>,
    subject: Option<string>,
    creator: Option<string>,
    producer: Option<string>,
    creationDate: Option<string>,
    modificationDate: Option<string>)

  /** What `pypdf.PdfReader` makes of a readable file: the text of each page
      and the information dictionary (`None` when missing or empty).
      `extract_text` and `extract_metadata` each read the file on their own
      and catch their own exceptions: `textError` says a page's text could
      not be extracted, `metadataError` that reading the information
      dictionary raised. */
  datatype PdfDocument = PdfDocument(pages: seq<string>, info: Option<PdfInfo>, textError: bool, metadataError: bool)

  /** The pages' text, each followed by a newline, in order. */
  function PagesText(pages: seq<string>): string {
    if pages == [] then [] else PagesText(pages[..|pages| - 1]) + pages[|pages| - 1] + "\n"
  }

  /** `PDFProcessor.extract_text`: `None` stands for the RuntimeError raised
      without pypdf; `doc` is `None` when the file cannot be read, which
      gives "", as does a page whose text cannot be extracted. */
  function PdfText(pypdfAvailable: bool, doc: Option<PdfDocument>): Option<string> {
    if !pypdfAvailable then None
    else match doc
      case None => Some("")
      case Some(d) => if d.textError then Some("") else Some(Strip(PagesText(d.pages)))
  }

  /** The loop that concatenates the pages. */
  method ExtractText(pypdfAvailable: bool, doc: Option<PdfDocument>) returns (r: Option<string>)
    ensures r == PdfText(pypdfAvailable, doc)
  {
    if !pypdfAvailable {
      return None;
    }
    if doc.None? || doc.value.textError {
      return Some("");
    }
    var pages := doc.value.pages;
    var text := "";
    var i := 0;
    while i < |pages|
      invariant 0 <= i <= |pages|
      invariant text == PagesText(pages[..i])
    {
      assert pages[..i + 1][..i] == pages[..i];
      text := text + pages[i] + "\n";
      i := i + 1;
    }
    assert pages[..i] == pages;
    r := Some(Strip(text));
  }

  /** The page texts end up joined by newlines with one trailing newline,
      so nothing of any page is lost and pages stay in order. */
  lemma {:induction false} PagesTextJoin(pages: seq<string>)
    ensures pages == [] ==> PagesText(pages) == []
    ensures pages != [] ==> PagesText(pages) == Join(pages, "\n") + "\n"
    decreases |pages|
  {
    if |pages| > 1 {
      var n := |pages| - 1;
      PagesTextJoin(pages[..n]);
      JoinSnoc(pages[..n], pages[n], "\n");
      assert pages[..n] + [pages[n]] == pages;
    } else if |pages| == 1 {
      assert pages[..0] == [];
    }
  }

  lemma JoinSnoc(xs: seq<string>, x: string, sep: string)
    requires xs != []
    ensures Join(xs + [x], sep) == Join(xs, sep) + sep + x
  {
    JoinAppend(xs, [x], sep);
  }

  // ---------------------------------------------------------------------
  // Metadata

  /** `_basic_metadata`: the record used when pypdf cannot help. */
  const BasicMetadata: Metadata :=
    map["file_extension" := MStr(".pdf"), "processing_method" := MStr("basic"),
        "processor" := MStr("PDFProcessor")]

  const PypdfBase: Metadata :=
    map["file_extension" := MStr(".pdf"), "processing_method" := MStr("pypdf"),
        "processor" := MStr("PDFProcessor")]

  /** The metadata keys the information dictionary can fill. */
  const InfoKeys: set<string> :=
    {"title", "author", "subject", "creator", "producer", "creation_date", "modification_date"}

  /** The information field copied to `key`, and whether it is a date. */
  function InfoField(info: PdfInfo, key: string): (Option<string>, bool) {
    if key == "title" then (info.title, false)
    else if key == "author" then (info.author, false)
    else if key == "subject" then (info.subject, false)
    else if key == "creator" then (info.creator, false)
    else if key == "producer" then (info.producer, false)
    else if key == "creation_date" then (info.creationDate, true)
    else (info.modificationDate, true)
  }

  /** The source's `if value:` test: a text field must be a non-empty
      string, a date only present. */
  predicate Copied(field: (Option<string>, bool)) {
    field.0.Some? && (field.1 || field.0.value != "")
  }

  /** The seven `if pdf_meta.<field>: metadata[<key>] = ...` statements. */
  function InfoEntries(m: Metadata, info: PdfInfo): Metadata {
    m + map k | k in InfoKeys && Copied(InfoField(info, k)) :: MStr(InfoField(info, k).0.value)
  }

  /** `PDFProcessor.extract_metadata`. */
  function PdfMetadata(pypdfAvailable: bool, doc: Option<PdfDocument>): Metadata {
    if !pypdfAvailable || doc.None? || doc.value.metadataError then BasicMetadata
    else
      var d := doc.value;
      var withInfo := if d.info.Some? then InfoEntries(PypdfBase, d.info.value) else PypdfBase;
      withInfo["page_count" := MInt(|d.pages|)]
  }

  lemma InfoKeysApart()
    ensures forall k :: k in InfoKeys ==> k !in PypdfBase && k != "page_count" && k != "document_id"
  {
  }

  /** Each field of the information dictionary is in the metadata exactly
      when the source's truth test holds for it, and then with its value;
      nothing else of the dictionary is copied. */
  lemma InfoFieldsCopied(info: PdfInfo, pages: seq<string>, textError: bool)
    ensures forall k :: k in InfoKeys ==>
              var meta := PdfMetadata(true, Some(PdfDocument(pages, Some(info), textError, false)));
              (k in meta <==> Copied(InfoField(info, k)))
              && (Copied(InfoField(info, k)) ==> meta[k] == MStr(InfoField(info, k).0.value))
    ensures PdfMetadata(true, Some(PdfDocument(pages, Some(info), textError, false))).Keys
              <= PypdfBase.Keys + InfoKeys + {"page_count"}
  {
    InfoKeysApart();
  }

  /** The title, for instance, is copied only when it is a non-empty string. */
  lemma TitleCopied(info: PdfInfo, pages: seq<string>, textError: bool)
    ensures var meta := PdfMetadata(true, Some(PdfDocument(pages, Some(info), textError, false)));
            "title" in meta <==> info.title.Some? && info.title.value != ""
  {
    InfoFieldsCopied(info, pages, textError);
  }

  /** Without pypdf, for an unreadable file or when reading the document
      information raises, the metadata is the basic record, whatever became
      of the text; otherwise it says pypdf read it, counts the pages and
      copies the document information. No document id is ever set. */
  lemma PdfMetadataSpec(pypdfAvailable: bool, doc: Option<PdfDocument>)
    ensures !pypdfAvailable || doc.None? || doc.value.metadataError ==>
              PdfMetadata(pypdfAvailable, doc) == BasicMetadata
    ensures pypdfAvailable && doc.Some? && !doc.value.metadataError ==>
              PdfMetadata(pypdfAvailable, doc)["processing_method"] == MStr("pypdf")
              && PdfMetadata(pypdfAvailable, doc)["page_count"] == MInt(|doc.value.pages|)
              && (doc.value.info.None? ==>
                    PdfMetadata(pypdfAvailable, doc).Keys ==
                      {"file_extension", "processing_method", "processor", "page_count"})
    ensures PdfMetadata(pypdfAvailable, doc)["processor"] == MStr("PDFProcessor")
    ensures PdfMetadata(pypdfAvailable, doc)["file_extension"] == MStr(".pdf")
    ensures "document_id" !in PdfMetadata(pypdfAvailable, doc)
  {
    if pypdfAvailable && doc.Some? && !doc.value.metadataError && doc.value.info.Some? {
      InfoEntriesBase(doc.value.info.value);
    }
  }

  /** The two reads fail on their own: the text does not depend on whether
      the document information could be read, nor the metadata on whether
      the pages' text could be extracted. */
  lemma ReadsIndependent(pypdfAvailable: bool, d: PdfDocument, b: bool)
    ensures PdfText(pypdfAvailable, Some(d.(metadataError := b))) == PdfText(pypdfAvailable, Some(d))
    ensures PdfMetadata(pypdfAvailable, Some(d.(textError := b))) == PdfMetadata(pypdfAvailable, Some(d))
  {
  }

  /** Copying the information dictionary leaves the fixed entries alone. */
  lemma InfoEntriesBase(info: PdfInfo)
    ensures var m := InfoEntries(PypdfBase, info);
            m["processor"] == MStr("PDFProcessor") && m["file_extension"] == MStr(".pdf")
            && m["processing_method"] == MStr("pypdf") && "document_id" !in m
  {
    InfoKeysApart();
  }
}
