/** The command-line client: where its settings come from (argument, then
    environment, then default), how the client object derives its base URL
    and headers, and the requests the commands make. */
module Cli {
  import opened Wrappers
  import opened Text

  /** Python's `a or b` on optional strings: an empty string is false. */
  function OrElse(a: Option<string>, b: Option<string>): (r: Option<string>)
    ensures r == a || r == b
  {
    if a.Some? && a.value != "" then a else b
  }

  /** How TLS certificates are checked: not at all, against the system
      store, or against a CA file. */
  datatype Verify = NoVerify | SystemStore | CaFile(path: string)

  /** The command-line options `load_config` reads and the environment
      (`BOANN_API_KEY`, `BOANN_API_URL`). */
  datatype Args = Args(apiKey: Option<string>, url: Option<string>, insecure: bool, cacert: Option<string>)
  datatype Env = Env(apiKey: Option<string>, apiUrl: Option<string>)

  datatype Config = Config(baseUrl: string, apiKey: string, verify: Verify)

  /** How the program stops when no key is found: through the argument
      parser's error (exit status 2) or with exit status 1. */
  datatype Exit = ParserError(message: string) | ExitStatus(code: int)

  const DefaultUrl := "http://localhost:8000"

  /** `load_config`. */
  function LoadConfig(args: Args, env: Env, withParser: bool): Result<Config, Exit> {
    var key := OrElse(args.apiKey, env.apiKey);
    var url := OrElse(OrElse(args.url, env.apiUrl), Some(DefaultUrl)).value;
    if key.None? || key.value == "" then
      if withParser then
        Failure(ParserError("API key must be provided via --api-key argument or BOANN_API_KEY environment variable"))
      else Failure(ExitStatus(1))
    else
      var verify :=
        if args.insecure then NoVerify
        else if args.cacert.Some? && args.cacert.value != "" then CaFile(args.cacert.value)
        else SystemStore;
      Success(Config(url, key.value, verify))
  }

  /** The argument names no URL. */
  predicate NoUrlArg(args: Args) {
    args.url.None? || args.url.value == ""
  }

  /** Neither the argument nor the environment names a URL. */
  predicate NoUrl(args: Args, env: Env) {
    (args.url.None? || args.url.value == "") && (env.apiUrl.None? || env.apiUrl.value == "")
  }

  /** The key is the argument when one is given, else the environment's; a
      run without either stops. The URL is the argument, else the
      environment's, else the local default. `--insecure` switches checking
      off even when a CA file is named. */
  lemma LoadConfigSpec(args: Args, env: Env, withParser: bool)
    ensures LoadConfig(args, env, withParser).Failure? <==>
              (args.apiKey.None? || args.apiKey.value == "") && (env.apiKey.None? || env.apiKey.value == "")
    ensures LoadConfig(args, env, withParser).Success? ==>
              var c := LoadConfig(args, env, withParser).value;
              c.apiKey != ""
              && (args.apiKey.Some? && args.apiKey.value != "" ==> c.apiKey == args.apiKey.value)
              && (args.apiKey.None? || args.apiKey.value == "" ==> Some(c.apiKey) == env.apiKey)
              && (args.url.Some? && args.url.value != "" ==> c.baseUrl == args.url.value)
              && (NoUrlArg(args) && env.apiUrl.Some? && env.apiUrl.value != "" ==> c.baseUrl == env.apiUrl.value)
              && (NoUrl(args, env) ==> c.baseUrl == DefaultUrl)
              && (args.insecure <==> c.verify == NoVerify)
              && (!args.insecure && args.cacert.Some? && args.cacert.value != "" ==> c.verify == CaFile(args.cacert.value))
              && (!args.insecure && (args.cacert.None? || args.cacert.value == "") ==> c.verify == SystemStore)
    ensures LoadConfig(args, env, false).Failure? ==> LoadConfig(args, env, false).error == ExitStatus(1)
  {
  }

  // ---------------------------------------------------------------------
  // The client

  /** What the file system says about a CA file: whether it exists, whether
      it is a regular file, and its resolved absolute path. */
  datatype CertFile = CertFile(exists_: bool, isFile: bool, resolved: string)

  datatype Client = Client(baseUrl: string, apiKey: string, verify: Verify, headers: map<string, string>)

  /** `BoannClient(base_url, api_key, verify_ssl)`: trailing slashes go, the
      key becomes a bearer header, and a CA file must exist and be a
      regular file, whose resolved path is then used. */
  function NewClient(baseUrl: string, apiKey: string, verify: Verify, cert: CertFile): Result<Client, string> {
    var headers := map["Authorization" := "Bearer " + apiKey, "Content-Type" := "application/json"];
    match verify
    case CaFile(p) =>
      if !cert.exists_ then Failure("CA certificate file does not exist: " + p)
      else if !cert.isFile then Failure("CA certificate path is not a file: " + p)
      else Success(Client(RStrip(baseUrl, '/'), apiKey, CaFile(cert.resolved), headers))
    case _ => Success(Client(RStrip(baseUrl, '/'), apiKey, verify, headers))
  }

  function QueryUrl(c: Client): string {
    c.baseUrl + "/query"
  }

  function HealthUrl(c: Client): string {
    c.baseUrl + "/health"
  }

  /** The client's base URL is the given one without its trailing slashes,
      so building a client from it again changes nothing, and the request
      URLs add exactly one slash before the path. */
  lemma NewClientSpec(baseUrl: string, apiKey: string, verify: Verify, cert: CertFile)
    ensures NewClient(baseUrl, apiKey, verify, cert).Success? <==> !verify.CaFile? || (cert.exists_ && cert.isFile)
    ensures NewClient(baseUrl, apiKey, verify, cert).Success? ==>
              var c := NewClient(baseUrl, apiKey, verify, cert).value;
              (c.baseUrl == [] || c.baseUrl[|c.baseUrl| - 1] != '/')
              && baseUrl[..|c.baseUrl|] == c.baseUrl
              && (forall i :: |c.baseUrl| <= i < |baseUrl| ==> baseUrl[i] == '/')
              && NewClient(c.baseUrl, apiKey, verify, cert).value.baseUrl == c.baseUrl
              && c.headers["Authorization"] == "Bearer " + apiKey
              && QueryUrl(c) == c.baseUrl + "/query" && HealthUrl(c) == c.baseUrl + "/health"
  {
    var r := RStrip(baseUrl, '/');
    assert RStrip(r, '/') == r;
  }

  /** A URL with a trailing slash reaches the same endpoint as without. */
  lemma TrailingSlashIgnored(baseUrl: string, apiKey: string, verify: Verify, cert: CertFile)
    requires NewClient(baseUrl, apiKey, verify, cert).Success?
    ensures NewClient(baseUrl + "/", apiKey, verify, cert).Success?
    ensures QueryUrl(NewClient(baseUrl + "/", apiKey, verify, cert).value)
            == QueryUrl(NewClient(baseUrl, apiKey, verify, cert).value)
  {
    assert (baseUrl + "/")[..|baseUrl|] == baseUrl;
  }

  // ---------------------------------------------------------------------
  // Commands

  /** The body of a query request. */
  datatype QueryRequest = QueryRequest(query: string, stream: bool)

  const ReportPrefix := "Generate a draft security posture report for "

  /** The `report` command: a fixed request naming the product; streaming
      unless `--no-stream`. */
  function ReportRequest(product: string, noStream: bool): QueryRequest {
    QueryRequest(ReportPrefix + product, !noStream)
  }

  /** The `query` command sends the text as it is. */
  function QueryCommand(text: string, noStream: bool): QueryRequest {
    QueryRequest(text, !noStream)
  }

  /** The report request starts with the fixed sentence and the product can
      be read back from it, so different products give different
      requests. */
  lemma ReportRequestSpec(product: string, noStream: bool)
    ensures StartsWith(ReportRequest(product, noStream).query, ReportPrefix)
    ensures ReportRequest(product, noStream).query[|ReportPrefix|..] == product
    ensures ReportRequest(product, noStream).stream <==> !noStream
    ensures QueryCommand(product, noStream).stream == ReportRequest(product, noStream).stream
  {
    var q := ReportRequest(product, noStream).query;
    assert q[..|ReportPrefix|] == ReportPrefix;
  }
}
