/** The document ingestion script: it walks a directory, screens each file
    (safe path, size, format), sends the files that pass to the admin API
    one at a time and adds up what the API reports. The directory listing,
    each file's status and each API reply are inputs. */
module IngestScript {
  import opened Wrappers
  import opened Text
  import DP = DocumentProcessor

  /** The environment the script reads: `BOANN_ADMIN_HOST`,
      `BOANN_ADMIN_PORT`, `BOANN_ADMIN_API_KEY`, `MAX_DOCUMENT_SIZE` (already
      an integer) and `SUPPORTED_FORMATS`. */
  datatype ScriptEnv = ScriptEnv(
    adminHost: Option<string>,
    adminPort: Option<string>,
    adminApiKey: Option<string>,
    maxDocumentSize: int,
    supportedFormats: Option<string>)

  /** The settings `DocumentIngestionScript.__init__` computes; they do not
      change afterwards. */
  datatype Script = Script(adminApiBaseUrl: string, adminApiKey: string, maxFileSize: int, formats: seq<string>)

  /** The admin API's base URL: a host that already names its scheme is
      used as it is, any other gets `http://`. */
  function BaseUrl(host: string, port: string): string {
    if StartsWith(host, "http://") || StartsWith(host, "https://") then host + ":" + port
    else "http://" + host + ":" + port
  }

  const DefaultFormats := "pdf,json,txt"

  /** `DocumentIngestionScript()`: a missing or empty API key raises. */
  function NewScript(env: ScriptEnv): Result<Script, string> {
    var key := env.adminApiKey.GetOr("");
    if key == "" then Failure("BOANN_ADMIN_API_KEY environment variable must be set")
    else
      var url := BaseUrl(env.adminHost.GetOr("localhost"), env.adminPort.GetOr("8001"));
      Success(Script(url, key, env.maxDocumentSize, SplitOn(env.supportedFormats.GetOr(DefaultFormats), ',')))
  }

  /** The base URL always carries a scheme and ends with the port. */
  lemma BaseUrlShape(host: string, port: string)
    ensures var url := BaseUrl(host, port);
            (StartsWith(url, "http://") || StartsWith(url, "https://"))
            && |port| + 1 <= |url| && url[|url| - |port| - 1..] == ":" + port
  {
    var url := BaseUrl(host, port);
    if StartsWith(host, "http://") || StartsWith(host, "https://") {
      assert url == host + (":" + port);
      assert url[..|host|] == host;
    } else {
      assert url == "http://" + (host + ":" + port);
    }
  }

  /** A script exists exactly when an API key is set; with neither host nor
      port set it talks to `http://localhost:8001`. */
  lemma NewScriptSpec(env: ScriptEnv)
    ensures NewScript(env).Success? <==> env.adminApiKey.Some? && env.adminApiKey.value != ""
    ensures NewScript(env).Success? ==>
              NewScript(env).value.adminApiBaseUrl == BaseUrl(env.adminHost.GetOr("localhost"), env.adminPort.GetOr("8001"))
    ensures env.adminHost.None? && env.adminPort.None? && NewScript(env).Success? ==>
              NewScript(env).value.adminApiBaseUrl == "http://localhost:8001"
  {
    assert "localhost"[..7][0] != "http://"[0];
    assert "localhost"[..8][0] != "https://"[0];
  }

  /** Splitting a separator-free word followed by the separator. */
  lemma {:induction false} SplitFromWord(w: string, rest: string, sep: char, cur: string)
    requires sep !in w
    ensures SplitFrom(w + [sep] + rest, sep, cur) == [cur + w] + SplitFrom(rest, sep, [])
    ensures SplitFrom(w, sep, cur) == [cur + w]
    decreases |w|
  {
    if w == [] {
      assert w + [sep] + rest == [sep] + rest;
      assert ([sep] + rest)[1..] == rest;
      assert cur + w == cur;
    } else {
      assert w[0] != sep;
      assert (w + [sep] + rest)[1..] == w[1..] + [sep] + rest;
      assert (w + [sep] + rest)[0] == w[0];
      SplitFromWord(w[1..], rest, sep, cur + [w[0]]);
      assert cur + [w[0]] + w[1..] == cur + w;
    }
  }

  /** The default format list is the three names. */
  lemma DefaultFormatList()
    ensures SplitOn(DefaultFormats, ',') == ["pdf", "json", "txt"]
  {
    var rest := "json" + [','] + "txt";
    assert DefaultFormats == "pdf" + [','] + rest;
    assert ',' !in "pdf" && ',' !in "json" && ',' !in "txt";
    SplitFromWord("pdf", rest, ',', []);
    SplitFromWord("json", "txt", ',', []);
    SplitFromWord("txt", [], ',', []);
    assert [] + "pdf" == "pdf" && [] + "json" == "json" && [] + "txt" == "txt";
    assert SplitFrom(rest, ',', []) == ["json"] + ["txt"];
  }

  // ---------------------------------------------------------------------
  // Screening

  /** One entry `rglob("*")` yields: whether it is a regular file and what
      `stat` gives for it (its size, or the exception's text); `reply` is
      what the admin API answers when the file is sent. */
  datatype DirEntry = DirEntry(path: string, isFile: bool, present: bool, stat: Result<int, string>, reply: ApiReply)

  /** The reply as the script reads it with `result.get(...)`: each field may
      be missing. */
  datatype ApiReply = ApiReply(processedFiles: Option<int>, failedFiles: Option<int>, errors: Option<seq<string>>)

  /** `_is_safe_path`. */
  predicate IsSafePath(e: DirEntry) {
    !DP.HasDotDot(e.path) && e.present && e.isFile
  }

  /** `_is_supported_format`: the lower-cased suffix without its dot is one
      of the configured formats. */
  predicate IsSupportedFormat(formats: seq<string>, path: string) {
    LStrip(Lower(DP.Suffix(path)), '.') in formats
  }

  /** What the screening loop does with one entry. */
  datatype Screening = NotAFile | Invalid(error: string) | Unsupported | Queued

  function Screen(s: Script, e: DirEntry): Screening {
    if !e.isFile then NotAFile
    else if !IsSafePath(e) then Invalid("Unsafe file path: " + e.path)
    else match e.stat
      case Failure(err) => Invalid("File stat error: " + e.path + ": " + err)
      case Success(size) =>
        if size > s.maxFileSize then Invalid("File too large: " + e.path)
        else if !IsSupportedFormat(s.formats, e.path) then Unsupported
        else Queued
  }

  /** The regular files among the entries. */
  function FileCount(s: Script, es: seq<DirEntry>): nat {
    if es == [] then 0 else FileCount(s, es[..|es| - 1]) + (if es[|es| - 1].isFile then 1 else 0)
  }

  /** The validation errors, in listing order. */
  function ScreenErrors(s: Script, es: seq<DirEntry>): seq<string> {
    if es == [] then []
    else
      var sc := Screen(s, es[|es| - 1]);
      ScreenErrors(s, es[..|es| - 1]) + (if sc.Invalid? then [sc.error] else [])
  }

  /** The files queued for sending, in listing order. */
  function Queue(s: Script, es: seq<DirEntry>): seq<DirEntry> {
    if es == [] then []
    else Queue(s, es[..|es| - 1]) + (if Screen(s, es[|es| - 1]).Queued? then [es[|es| - 1]] else [])
  }

  /** The regular files skipped for their format. */
  function SkippedCount(s: Script, es: seq<DirEntry>): nat {
    if es == [] then 0
    else SkippedCount(s, es[..|es| - 1]) + (if Screen(s, es[|es| - 1]).Unsupported? then 1 else 0)
  }

  // ---------------------------------------------------------------------
  // Sending

  function Processed(q: seq<DirEntry>): int {
    if q == [] then 0 else Processed(q[..|q| - 1]) + q[|q| - 1].reply.processedFiles.GetOr(0)
  }

  function FailedReported(q: seq<DirEntry>): int {
    if q == [] then 0 else FailedReported(q[..|q| - 1]) + q[|q| - 1].reply.failedFiles.GetOr(0)
  }

  function ReplyErrors(q: seq<DirEntry>): seq<string> {
    if q == [] then [] else ReplyErrors(q[..|q| - 1]) + q[|q| - 1].reply.errors.GetOr([])
  }

  /** The dictionary `process_directory` and `run` return; early returns carry
      a message and no file total, the final statistics the reverse. */
  datatype Stats = Stats(
    success: bool,
    message: Option<string>,
    totalFiles: Option<nat>,
    processedFiles: int,
    failedFiles: int,
    errors: seq<string>)

  /** `process_directory`. */
  function ProcessDirectorySpec(s: Script, directoryExists: bool, es: seq<DirEntry>): Stats {
    if !directoryExists then Stats(false, Some("Directory not found"), None, 0, 0, ["Directory not found"])
    else
      var failed := |ScreenErrors(s, es)|;
      var q := Queue(s, es);
      if q == [] then Stats(false, Some("No valid files found to process"), None, 0, failed, ScreenErrors(s, es))
      else
        Stats(Processed(q) > 0, None, Some(FileCount(s, es)), Processed(q), FailedReported(q) + failed,
              ScreenErrors(s, es) + ReplyErrors(q))
  }

  lemma ScreenStep(s: Script, es: seq<DirEntry>, i: nat)
    requires i < |es|
    ensures var e := es[i]; var sc := Screen(s, e); var p := es[..i];
            es[..i + 1] == p + [e]
            && FileCount(s, es[..i + 1]) == FileCount(s, p) + (if e.isFile then 1 else 0)
            && ScreenErrors(s, es[..i + 1]) == ScreenErrors(s, p) + (if sc.Invalid? then [sc.error] else [])
            && Queue(s, es[..i + 1]) == Queue(s, p) + (if sc.Queued? then [e] else [])
  {
    assert es[..i + 1][..i] == es[..i];
  }

  /** The first loop: count the regular files, record why the invalid ones
      fail and queue the rest whose format is supported. */
  method ScreenEntries(s: Script, es: seq<DirEntry>)
    returns (totalFiles: nat, failedFiles: nat, errors: seq<string>, validFiles: seq<DirEntry>)
    ensures totalFiles == FileCount(s, es)
    ensures errors == ScreenErrors(s, es) && failedFiles == |errors|
    ensures validFiles == Queue(s, es)
  {
    totalFiles, failedFiles, errors, validFiles := 0, 0, [], [];
    var i := 0;
    while i < |es|
      invariant 0 <= i <= |es|
      invariant totalFiles == FileCount(s, es[..i])
      invariant errors == ScreenErrors(s, es[..i]) && failedFiles == |errors|
      invariant validFiles == Queue(s, es[..i])
    {
      var e := es[i];
      ScreenStep(s, es, i);
      if e.isFile {
        totalFiles := totalFiles + 1;
        if !IsSafePath(e) {
          failedFiles := failedFiles + 1;
          errors := errors + ["Unsafe file path: " + e.path];
        } else if e.stat.Failure? {
          failedFiles := failedFiles + 1;
          errors := errors + ["File stat error: " + e.path + ": " + e.stat.error];
        } else if e.stat.value > s.maxFileSize {
          failedFiles := failedFiles + 1;
          errors := errors + ["File too large: " + e.path];
        } else if IsSupportedFormat(s.formats, e.path) {
          validFiles := validFiles + [e];
        }
      }
      i := i + 1;
    }
    assert es[..i] == es;
  }

  lemma SendStep(q: seq<DirEntry>, i: nat)
    requires i < |q|
    ensures var p := q[..i]; var r := q[i].reply;
            Processed(q[..i + 1]) == Processed(p) + r.processedFiles.GetOr(0)
            && FailedReported(q[..i + 1]) == FailedReported(p) + r.failedFiles.GetOr(0)
            && ReplyErrors(q[..i + 1]) == ReplyErrors(p) + r.errors.GetOr([])
  {
    assert q[..i + 1][..i] == q[..i];
  }

  /** The second loop: each queued file's reply is added to the totals. */
  method SendAll(q: seq<DirEntry>) returns (totalProcessed: int, totalFailed: int, apiErrors: seq<string>)
    ensures totalProcessed == Processed(q) && totalFailed == FailedReported(q) && apiErrors == ReplyErrors(q)
  {
    totalProcessed, totalFailed, apiErrors := 0, 0, [];
    var i := 0;
    while i < |q|
      invariant 0 <= i <= |q|
      invariant totalProcessed == Processed(q[..i]) && totalFailed == FailedReported(q[..i])
      invariant apiErrors == ReplyErrors(q[..i])
    {
      var reply := q[i].reply;
      SendStep(q, i);
      totalProcessed := totalProcessed + reply.processedFiles.GetOr(0);
      totalFailed := totalFailed + reply.failedFiles.GetOr(0);
      apiErrors := apiErrors + reply.errors.GetOr([]);
      i := i + 1;
    }
    assert q[..i] == q;
  }

  /** `process_directory`: screen, then send. */
  method ProcessDirectory(s: Script, directoryExists: bool, es: seq<DirEntry>) returns (r: Stats)
    ensures r == ProcessDirectorySpec(s, directoryExists, es)
  {
    if !directoryExists {
      return Stats(false, Some("Directory not found"), None, 0, 0, ["Directory not found"]);
    }
    var totalFiles, failedFiles, errors, validFiles := ScreenEntries(s, es);
    if validFiles == [] {
      return Stats(false, Some("No valid files found to process"), None, 0, failedFiles, errors);
    }
    var totalProcessed, totalFailed, apiErrors := SendAll(validFiles);
    r := Stats(totalProcessed > 0, None, Some(totalFiles), totalProcessed, totalFailed + failedFiles,
               errors + apiErrors);
  }

  /** `run` refuses the path before anything is read: it is missing, empty,
      or names nothing that exists. */
  predicate RunRefuses(directoryPath: Option<string>, directoryExists: bool) {
    directoryPath.None? || directoryPath.value == "" || !directoryExists
  }

  /** The message of a refused path, which Python formats as "None" when
      the path is missing. */
  function NotFoundMessage(directoryPath: Option<string>): string {
    "Directory not found: " + (if directoryPath.None? then "None" else directoryPath.value)
  }

  /** `run`. */
  function Run(s: Script, directoryPath: Option<string>, directoryExists: bool, es: seq<DirEntry>): Stats {
    if RunRefuses(directoryPath, directoryExists) then
      var msg := NotFoundMessage(directoryPath);
      Stats(false, Some(msg), None, 0, 0, [msg])
    else ProcessDirectorySpec(s, directoryExists, es)
  }

  // ---------------------------------------------------------------------
  // Properties

  /** Every regular file is exactly one of: failed validation, skipped for
      its format, queued. */
  lemma {:induction false} ScreenPartition(s: Script, es: seq<DirEntry>)
    ensures FileCount(s, es) == |ScreenErrors(s, es)| + SkippedCount(s, es) + |Queue(s, es)|
  {
    if es != [] {
      ScreenPartition(s, es[..|es| - 1]);
    }
  }

  /** Only safe, readable, small enough files of a supported format are
      sent; so a path holding `..` never reaches the API. */
  lemma {:induction false} QueuedAreValid(s: Script, es: seq<DirEntry>)
    ensures forall e :: e in Queue(s, es) ==>
              e in es && IsSafePath(e) && e.stat.Success? && e.stat.value <= s.maxFileSize
              && IsSupportedFormat(s.formats, e.path)
    ensures forall e :: e in Queue(s, es) ==> !DP.HasDotDot(e.path)
  {
    if es != [] {
      QueuedAreValid(s, es[..|es| - 1]);
    }
  }

  /** An unsafe regular file is reported by its path. */
  lemma UnsafeReported(s: Script, e: DirEntry)
    requires e.isFile && DP.HasDotDot(e.path)
    ensures Screen(s, e) == Invalid("Unsafe file path: " + e.path)
  {
  }

  /** The totals: the failures are the validation failures plus those the
      API reports, the errors keep that order, the file total counts every
      regular file, and the run succeeds exactly when the API processed
      something. With nothing queued the result says so and counts only the
      validation failures. */
  lemma ProcessDirectoryTotals(s: Script, es: seq<DirEntry>)
    ensures var r := ProcessDirectorySpec(s, true, es);
            r.failedFiles == |ScreenErrors(s, es)| + (if Queue(s, es) == [] then 0 else FailedReported(Queue(s, es)))
            && r.errors[..|ScreenErrors(s, es)|] == ScreenErrors(s, es)
            && (r.success <==> r.processedFiles > 0)
            && (Queue(s, es) == [] ==>
                  r.message == Some("No valid files found to process") && r.processedFiles == 0 && !r.success)
            && (Queue(s, es) == [] ==> r.errors == ScreenErrors(s, es))
            && (Queue(s, es) != [] ==>
                  r.totalFiles == Some(|ScreenErrors(s, es)| + SkippedCount(s, es) + |Queue(s, es)|)
                  && r.processedFiles == Processed(Queue(s, es))
                  && r.errors == ScreenErrors(s, es) + ReplyErrors(Queue(s, es)))
  {
    ScreenPartition(s, es);
  }

  /** When no reply reports a negative count, the API processed something
      exactly when some reply says so, so a run succeeds exactly when one
      of the queued files was processed. */
  lemma {:induction false} ProcessedPositive(q: seq<DirEntry>)
    requires forall i :: 0 <= i < |q| ==> q[i].reply.processedFiles.GetOr(0) >= 0
    ensures Processed(q) >= 0
    ensures Processed(q) > 0 <==> exists i :: 0 <= i < |q| && q[i].reply.processedFiles.GetOr(0) > 0
  {
    if q != [] {
      var p := q[..|q| - 1];
      ProcessedPositive(p);
      assert forall i :: 0 <= i < |p| ==> p[i] == q[i];
    }
  }

  /** A missing or empty path, or a directory that does not exist, is
      refused with a failure naming the path, no counts and that one error;
      no entry is looked at, so nothing is sent whatever the directory holds.
      Any other path is handed to `process_directory` unchanged. */
  lemma RunRejects(s: Script, directoryPath: Option<string>, directoryExists: bool, es: seq<DirEntry>)
    ensures RunRefuses(directoryPath, directoryExists) ==>
              var msg := NotFoundMessage(directoryPath);
              Run(s, directoryPath, directoryExists, es) == Stats(false, Some(msg), None, 0, 0, [msg])
              && Run(s, directoryPath, directoryExists, es) == Run(s, directoryPath, directoryExists, [])
    ensures directoryPath.None? ==> NotFoundMessage(directoryPath) == "Directory not found: None"
    ensures directoryPath.Some? ==> NotFoundMessage(directoryPath) == "Directory not found: " + directoryPath.value
    ensures !RunRefuses(directoryPath, directoryExists) ==>
              Run(s, directoryPath, directoryExists, es) == ProcessDirectorySpec(s, true, es)
  {
    assert "Directory not found: " + "None" == "Directory not found: None";
  }

  /** `process_directory` on its own refuses a missing directory with the
      bare "Directory not found", no counts and that one error, without
      looking at an entry. */
  lemma MissingDirectory(s: Script, es: seq<DirEntry>)
    ensures ProcessDirectorySpec(s, false, es)
              == Stats(false, Some("Directory not found"), None, 0, 0, ["Directory not found"])
              == ProcessDirectorySpec(s, false, [])
  {
  }

  /** The lower-cased suffix is empty, or a dot followed by at least one
      character that is not a dot. */
  lemma LowerSuffixShape(path: string)
    ensures var x := Lower(DP.Suffix(path));
            x == [] || (2 <= |x| && x[0] == '.' && x[1] != '.' && LStrip(x, '.') == x[1..])
  {
    var x := Lower(DP.Suffix(path));
    if x != [] {
      assert x[1..][0] == x[1];
    }
  }

  /** A file is sent for its format exactly when its suffix names one of the
      configured formats in any case; with the default list those are PDF,
      JSON and text files. */
  lemma DefaultFormatsSupported(path: string)
    ensures IsSupportedFormat(SplitOn(DefaultFormats, ','), path) <==>
              Lower(DP.Suffix(path)) in [".pdf", ".json", ".txt"]
  {
    DefaultFormatList();
    LowerSuffixShape(path);
    var x := Lower(DP.Suffix(path));
    if x != [] {
      var y := x[1..];
      assert x == "." + y;
      DotMember(y);
    }
  }

  lemma DotMember(y: string)
    ensures y in ["pdf", "json", "txt"] <==> "." + y in [".pdf", ".json", ".txt"]
  {
    var z := "." + y;
    assert z[1..] == y;
    if z == ".pdf" {
      assert y == ".pdf"[1..] == "pdf";
    } else if z == ".json" {
      assert y == ".json"[1..] == "json";
    } else if z == ".txt" {
      assert y == ".txt"[1..] == "txt";
    }
  }
}
