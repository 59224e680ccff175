/** The API client object: its configuration, the bounded retry around one
    upload, the recursive directory upload, and the deployment of a static
    site that ties site lookup, the walk and the summary together. The
    server and the local file system are oracles, passed in as values. */
module Api {
  import opened Wrappers
  import opened Paths
  import opened IgnoreFilter
  import opened Signer
  import opened Sites
  import opened Upload
  import opened Walker

  /** What the local file system says about the directory to deploy. */
  datatype LocalRoot = Missing | NotADirectory | Directory(entries: seq<Entry>)

  /** The prefix every deployment error carries, and the messages of the
      errors raised inside a deployment. */
  const UploadFilesFailed := "Upload files failed: "
  const NoSitePath := "Cannot get website physical path"
  const UndefinedSite := "Cannot read properties of undefined (reading 'sitePath')"
  const SourceMissing := "Source directory does not exist: "
  const NotADirectoryFailed := "ENOTDIR: not a directory, scandir '"

  /** The remote directory the site's files are deployed into, when the site
      has a usable physical path (an absent or empty `sitePath` is falsy). */
  function SiteRoot(site: Site): (root: Option<string>)
    ensures root.Some? <==> site.sitePath.Some? && site.sitePath.value != ""
    ensures root.Some? ==> root.value == Join(site.sitePath.value, "index")
  {
    match site.sitePath
    case Some(p) => if p == "" then None else Some(Join(p, "index"))
    case None => None
  }

  /** The normalised remote root of a site: `sitePath/index/`, or
      `sitePath` followed directly by `index/` when `sitePath` already ends
      in `/`; without a backslash when `sitePath` has none. */
  lemma IndexRoot(sitePath: string)
    requires sitePath != "" && '\\' !in sitePath
    ensures NormalizeTarget(Join(sitePath, "index")) == Join(sitePath, "index") + "/"
    ensures '\\' !in NormalizeTarget(Join(sitePath, "index"))
  {
    var root := Join(sitePath, "index") + "/";
    assert root == sitePath + (if sitePath[|sitePath| - 1] == '/' then "" else "/") + "index" + "/";
  }

  /** Every file a deployment records, uploaded or not, was aimed at the
      site's `index` directory or a directory below it. */
  lemma TargetsUnderSiteIndex(ignoreFiles: seq<string>, transport: Transport, sitePath: string,
                              sourceDirPath: string, entries: seq<Entry>)
    requires sitePath != "" && '\\' !in sitePath
    ensures var root := Join(sitePath, "index") + "/";
      forall o :: o in Summarize(Walk(IgnoredBy(ignoreFiles), UploaderFor(transport, NormalizeTarget(Join(sitePath, "index"))),
                                      sourceDirPath, [], entries)).details ==>
        |root| <= |o.targetPath| && o.targetPath[..|root|] == root
  {
    IndexRoot(sitePath);
    TargetsStayUnder(ignoreFiles, transport, sourceDirPath, NormalizeTarget(Join(sitePath, "index")), [], entries);
  }

  /** In a deployment to `sitePath`, files at the top of the source go to
      `index/` and files in `assets` to `index/assets`. */
  lemma ExampleTargets(sitePath: string)
    requires sitePath != "" && '\\' !in sitePath
    ensures TargetFor(NormalizeTarget(Join(sitePath, "index")), []) == NormalizeTarget(Join(sitePath, "index"))
    ensures TargetFor(NormalizeTarget(Join(sitePath, "index")), ["assets"]) == NormalizeTarget(Join(sitePath, "index")) + "assets"
  {
    IndexRoot(sitePath);
    assert RelativePath(["assets"]) == "assets";
    TargetForPlain(Join(sitePath, "index"), ["assets"]);
  }

  /** Deploying a build output `www` holding `index.html`, `assets/app.js`
      and `.env` with the default patterns: two files are attempted, in that
      order, the page into the site's `index/` directory and the script into
      `index/assets`; `.env` is never sent. */
  lemma DeployExample(transport: Transport, sitePath: string)
    requires sitePath != "" && '\\' !in sitePath
    ensures var root := NormalizeTarget(Join(sitePath, "index"));
      var results := Walk(IgnoredBy(DefaultIgnoreFiles), UploaderFor(transport, root), "www", [],
                          [File("index.html"), Dir("assets", [File("app.js")]), File(".env")]);
      && |results| == 2 && Summarize(results).totalFiles == 2
      && results[0].file == "index.html" && results[0].targetPath == root
      && results[1].file == "app.js" && results[1].targetPath == root + "assets"
  {
    var root := NormalizeTarget(Join(sitePath, "index"));
    var upload := UploaderFor(transport, root);
    ExamplePageUploaded();
    ExampleAssetsUploaded();
    ExampleScriptUploaded();
    ExampleSecretIgnored();
    ExampleWalk(IgnoredBy(DefaultIgnoreFiles), upload, "www", "index.html", "assets", "app.js", ".env");
    var page := FoundFile("index.html", Join("www", "index.html"), []);
    var script := FoundFile("app.js", Join(Join("www", "assets"), "app.js"), ["assets"]);
    ExampleTargets(sitePath);
    FileOutcomeRecord(transport, root, page);
    FileOutcomeRecord(transport, root, script);
  }

  class OnePanelApi {
    /** The API base every request is sent to. */
    const apiBase: string
    const apiKey: string
    const languageCode: Option<string>
    const ignoreFiles: seq<string>

    /** The client for a server at `baseUrl`; each request it sends is signed
        by `Sign`, which is `Intercept` with this `apiKey` and `languageCode`. */
    constructor (baseUrl: string, apiKey: string, languageCode: Option<string>)
      ensures this.apiBase == baseUrl + "/api/v1"
      ensures this.apiKey == apiKey && this.languageCode == languageCode
      ensures this.ignoreFiles == DefaultIgnoreFiles
    {
      this.apiBase := baseUrl + "/api/v1";
      this.apiKey := apiKey;
      this.languageCode := languageCode;
      this.ignoreFiles := DefaultIgnoreFiles;
    }

    /** The request interceptor as this client installs it: every request is
        signed with the client's own key and language. */
    function Sign(headers: map<string, string>, nowMs: nat, md5: string -> string): (h: map<string, string>)
      ensures h.Keys == headers.Keys + {TokenHeader, TimestampHeader, LanguageHeader}
      ensures h[TimestampHeader] == Timestamp(nowMs)
      ensures h[TokenHeader] == md5(SignedContent(apiKey, Timestamp(nowMs)))
      ensures h[LanguageHeader] == AcceptLanguage(languageCode)
      ensures forall k :: k in headers && k !in {TokenHeader, TimestampHeader, LanguageHeader} ==> h[k] == headers[k]
    {
      Intercept(apiKey, languageCode, headers, nowMs, md5)
    }

    /** `uploadSingleFileWithRetry`: try the upload up to `retryCount` times,
        waiting `retryDelay` between a failed attempt and the next, stop at
        the first success, and rethrow the last error unchanged. `trace` is
        the sequence of attempts and waits made. */
    method UploadSingleFileWithRetry(filePath: string, targetDir: string, retryCount: nat, retryDelay: nat,
                                     transport: Transport)
      returns (r: Result<Payload>, trace: seq<Event>)
      requires retryCount >= 1
      ensures r == RetryResult(transport, filePath, targetDir, retryCount)
      ensures trace == Schedule(AttemptsMade(transport, filePath, targetDir, retryCount), retryDelay)
    {
      var lastError: Option<string> := None;
      trace := [];
      var attempt: nat := 1;
      while attempt <= retryCount
        invariant 1 <= attempt <= retryCount + 1
        invariant forall j :: 1 <= j < attempt ==> AttemptResult(transport, filePath, targetDir, j).Err?
        invariant attempt > 1 ==> lastError == Some(AttemptResult(transport, filePath, targetDir, attempt - 1).error)
        invariant trace == Schedule(attempt - 1, retryDelay) + (if 1 < attempt <= retryCount then [Delay(retryDelay)] else [])
        decreases retryCount + 1 - attempt
      {
        var outcome := UploadSingleFile(filePath, targetDir, transport(filePath, targetDir, attempt));
        trace := trace + [Attempt(attempt)];
        if outcome.Ok? {
          SucceedsAfterFailures(transport, filePath, targetDir, retryCount, attempt - 1, retryDelay);
          return outcome, trace;
        }
        lastError := Some(outcome.error);
        if attempt < retryCount {
          trace := trace + [Delay(retryDelay)];
        }
        attempt := attempt + 1;
      }
      Exhausted(transport, filePath, targetDir, retryCount, retryDelay);
      r := Err(lastError.value);
    }

    /** `uploadDirectory(sourceDir, targetDir, basePath)`, where `rel` is the
        directory `sourceDir` below the walk's base and `entries` its listing:
        the outcomes of the walk of that listing. */
    method UploadDirectory(sourceDir: string, targetDir: string, rel: seq<string>, entries: seq<Entry>,
                           transport: Transport)
      returns (results: seq<UploadOutcome>)
      ensures results == Walk(IgnoredBy(ignoreFiles), UploaderFor(transport, NormalizeTarget(targetDir)),
                              sourceDir, rel, entries)
      decreases entries, 1
    {
      var normalizedTargetDir := NormalizeTarget(targetDir);
      ghost var skip := IgnoredBy(ignoreFiles);
      ghost var upload := UploaderFor(transport, normalizedTargetDir);
      results := [];
      var i := 0;
      while i < |entries|
        invariant 0 <= i <= |entries|
        invariant results == Walk(skip, upload, sourceDir, rel, entries[..i])
      {
        var entryResults := UploadEntry(sourceDir, normalizedTargetDir, rel, entries, i, transport);
        WalkExtend(skip, upload, sourceDir, rel, entries, i);
        results := results + entryResults;
        i := i + 1;
      }
      assert entries[..|entries|] == entries;
    }

    /** One pass of the loop in `uploadDirectory`, for the entry `entries[i]`:
        skip it if the filter says so, upload a subdirectory recursively into
        the same normalised target, or upload a file with the default retry
        and record its outcome. */
    method UploadEntry(sourceDir: string, normalizedTargetDir: string, rel: seq<string>, entries: seq<Entry>,
                       i: nat, transport: Transport)
      returns (results: seq<UploadOutcome>)
      requires i < |entries|
      requires NormalizeTarget(normalizedTargetDir) == normalizedTargetDir
      ensures results == Walk(IgnoredBy(ignoreFiles), UploaderFor(transport, normalizedTargetDir),
                              sourceDir, rel, [entries[i]])
      decreases entries, 0
    {
      var entry := entries[i];
      var sourcePath := Join(sourceDir, entry.name);
      WalkOne(IgnoredBy(ignoreFiles), UploaderFor(transport, normalizedTargetDir), sourceDir, rel, entry);
      if ShouldIgnore(ignoreFiles, sourcePath) {
        return [];
      }
      var currentTargetDir := TargetFor(normalizedTargetDir, rel);
      match entry
      case Dir(name, children) =>
        results := UploadDirectory(sourcePath, normalizedTargetDir, rel + [name], children, transport);
      case File(name) =>
        var result, _ := UploadSingleFileWithRetry(sourcePath, currentTargetDir, DefaultRetryCount,
                                                   DefaultRetryDelay, transport);
        FileOutcomeOf(transport, normalizedTargetDir, FoundFile(name, sourcePath, rel), result);
        match result
        case Ok(value) =>
          results := [Uploaded(name, currentTargetDir, value)];
        case Err(message) =>
          results := [NotUploaded(name, currentTargetDir, message)];
    }

    /** `uploadStaticFiles(domain, sourceDirPath)`: look the site up, check
        its physical path and the local directory, walk the directory into
        the site's `index` directory, and summarise. Every failure before the
        walk aborts the deployment with the wrapped message; failures of
        single files do not. */
    method UploadStaticFiles(domain: string, sourceDirPath: string, listing: Result<seq<Site>>,
                             local: LocalRoot, transport: Transport)
      returns (r: Result<Summary>)
      ensures listing.Err? ==> r == Err(UploadFilesFailed + DetailFailed + ListFailed + listing.error)
      ensures listing.Ok? && FindByDomain(listing.value, domain).None? ==> r == Err(UploadFilesFailed + UndefinedSite)
      ensures listing.Ok? && FindByDomain(listing.value, domain).Some? ==>
        var site := FindByDomain(listing.value, domain).value;
        && (SiteRoot(site).None? ==> r == Err(UploadFilesFailed + NoSitePath))
        && (SiteRoot(site).Some? && local.Missing? ==> r == Err(UploadFilesFailed + SourceMissing + sourceDirPath))
        && (SiteRoot(site).Some? && local.NotADirectory? ==>
              r == Err(UploadFilesFailed + NotADirectoryFailed + sourceDirPath + "'"))
        && (SiteRoot(site).Some? && local.Directory? ==>
              r == Ok(Summarize(Walk(IgnoredBy(ignoreFiles), UploaderFor(transport, NormalizeTarget(SiteRoot(site).value)),
                                     sourceDirPath, [], local.entries))))
    {
      var detail := GetWebsiteDetail(domain, listing);
      if detail.Err? {
        return Err(UploadFilesFailed + detail.error);
      }
      if detail.value.None? {
        return Err(UploadFilesFailed + UndefinedSite);
      }
      var siteDetail := detail.value.value;
      if siteDetail.sitePath.None? || siteDetail.sitePath.value == "" {
        return Err(UploadFilesFailed + NoSitePath);
      }
      var sitePath := siteDetail.sitePath.value;
      if local.Missing? {
        return Err(UploadFilesFailed + SourceMissing + sourceDirPath);
      }
      if local.NotADirectory? {
        return Err(UploadFilesFailed + NotADirectoryFailed + sourceDirPath + "'");
      }
      var targetPath := Join(sitePath, "index");
      var results := UploadDirectory(sourceDirPath, targetPath, [], local.entries, transport);
      var successCount := |Successes(results)|;
      var failCount := |Failures(results)|;
      r := Ok(Summary(|results|, successCount, failCount, results));
    }
  }
}
