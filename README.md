# 1Panel static-site deployer, modelled in Dafny

This project models the engine of a command-line tool that deploys a local
directory of static files to a site on a 1Panel server. The engine is the
`OnePanelAPI` client object in `src/api.mjs`. It:

- signs every request with an MD5 token over `"1panel" + apiKey + seconds`;
- lists the server's sites and finds one by its primary domain, or creates one;
- uploads a single file once, or with a bounded retry (three attempts with
  one second between them);
- filters local paths through a fixed list of ignore patterns;
- walks a local directory tree recursively, working out the remote
  directory for each file and collecting one outcome record per file;
  a failed file does not stop the walk;
- turns the outcome list into a summary of totals, successes and failures.

Each module follows one part of that object:

| module | file | models |
|---|---|---|
| `Wrappers` | `wrappers.dfy` | `Option` and `Result` |
| `Paths` | `paths.dfy` | `path.join`, `path.basename`, the normalisation of the target directory, and the remote directory of a nested file |
| `IgnoreFilter` | `ignore_filter.dfy` | `shouldIgnore` and the default patterns |
| `Signer` | `signer.dfy` | the request interceptor, i.e. the timestamp, token and language headers |
| `Sites` | `sites.dfy` | `getWebsiteList`, `getWebsiteDetail`, `createWebsite` |
| `Upload` | `upload.dfy` | `uploadSingleFile`, and the retry defined as a search for the first success plus a trace of attempts and waits |
| `Walker` | `walker.dfy` | the tree walk `uploadDirectory` as a function, its outcome records, and the summary counts |
| `Api` | `api.dfy` | the class `OnePanelApi`, with its constructor and with the retry loop, the directory upload and `uploadStaticFiles` as methods proved against the functions above |

Everything the engine gets from outside is a parameter:

- **The server.** Each call the engine makes is an oracle value:
  - a site listing `Result<seq<Site>>`;
  - the creation call's failure message;
  - a `Transport` function `(filePath, targetDir, attempt) -> Response` saying
    how the server answered each upload attempt.
- **The local file system.** A directory is a value: `LocalRoot`, which is
  missing, not a directory, or a listing of `Entry` values in `fs.readdir`
  order. A `Dir` entry is one `fs.stat` calls a directory.
- **The clock.** Milliseconds since the epoch. Retry waits are recorded in
  a trace of `Attempt`/`Delay` events instead of being slept.
- **MD5.** An uninterpreted `string -> string` parameter.

The walk is a function over a filter `skip` and a per-file step `upload`.
The methods instantiate them with `IgnoredBy(ignoreFiles)` (which is
`shouldIgnore`) and `UploaderFor(transport, target)` (the retried upload
and its record). `path.relative(basePath, sourceDir)` is modelled by
carrying the list `rel` of directory names between the walk's base and the
directory being listed. `RelativePath(rel)` joins them with `/`.

Where the code does something other than its description suggests, the
model follows the code:

- `createWebsite` returns the found site or `undefined`; it raises no
  separate "not found after create" error. `Sites.CreateWebsite` returns
  `Ok(None)` in that case.
- In `uploadStaticFiles`, a domain with no site is not reported as a missing
  path. The code reads `.sitePath` of `undefined`, which throws a
  `TypeError`. `Api.OnePanelApi.UploadStaticFiles` returns that error's
  message with the usual wrapping.
- The doc comment of the constructor says the language defaults to `zh`.
  The code sends `en` when no language or an empty one is given, and
  `Signer.AcceptLanguage` does the same.
- The ignore test reads the whole joined path, so the part contributed by
  the source directory counts too. If `sourceDirPath` itself contains a
  pattern, as `./site.env/dist` does, nothing is uploaded.
  `Walker.MatchingRootYieldsNothing` proves this.

## Model

| member | source | states |
|---|---|---|
| Api.OnePanelApi.constructor | src/api.mjs:19-35 | the API base is `baseURL + "/api/v1"`, the key and language are kept, and the ignore patterns are the five defaults |
| Api.OnePanelApi.Sign | src/api.mjs:23-33 | every request the client sends carries the timestamp `Timestamp(nowMs)`, the MD5 of `"1panel"` + the client's own key + that timestamp, and the client's language or `en`; exactly these three headers are added and the rest are kept |
| Signer.Timestamp | src/api.mjs:24 | the timestamp is a non-empty decimal digit string with no leading zero (other than `0` itself) whose value is the current time in whole seconds (milliseconds divided by 1000, rounded down) |
| Signer.DecimalRoundTrip | src/api.mjs:24 | reading back the decimal string of a number gives that number |
| Signer.DecimalInjective | src/api.mjs:24 | different seconds give different timestamp strings |
| Signer.AcceptLanguage | src/api.mjs:31 | the language header is the configured code when that is present and non-empty, and `en` when it is absent or empty |
| Signer.Intercept | src/api.mjs:23-32 | the interceptor adds exactly the token, timestamp and language headers. The timestamp is `Timestamp(nowMs)`, the canonical decimal of the current second, the token is the MD5 of `"1panel" + apiKey + timestamp`, and every other header is unchanged |
| Signer.SignedContent | src/api.mjs:26 | definition: the digested content is `"1panel"` followed by the API key and the timestamp (no contract of its own; `SignedContentInjective` states what it guarantees) |
| Signer.SignedContentInjective | src/api.mjs:26 | the signed content determines the timestamp it was built from |
| Signer.SigningBindsToTheSecond | src/api.mjs:24-30 | requests in the same second carry identical signing headers; requests in different seconds sign different content, in both directions |
| Sites.GetWebsiteList | src/api.mjs:92-107 | a successful search yields the listed sites unchanged; a failed one yields an error whose message is `Get website list failed: ` plus the cause |
| Sites.FindByDomain | src/api.mjs:118 | nothing is found exactly when no site has that primary domain; otherwise the result is the first site in list order whose primary domain matches |
| Sites.FirstMatchWins | src/api.mjs:118 | with duplicate domains, the earliest listed match is returned |
| Sites.GetWebsiteDetail | src/api.mjs:114-124 | the lookup fails exactly when the listing fails, with the message wrapped once more; otherwise it returns the first match, or none, which is not an error |
| Sites.LookupExamples | src/api.mjs:114-124 | looking up `x.com` among `a.com` and `x.com` finds the second site; among `a.com` alone it finds nothing, without error |
| Sites.CreateWebsite | src/api.mjs:43-86 | a failed creation call gives `Create website failed: ` plus its message. Otherwise the result is the lookup's: the first match or none, or the lookup's error wrapped once more |
| Upload.UploadSingleFile | src/api.mjs:132-148 | fails exactly when the server call fails, with `Upload file failed: <path> - <cause>`. Otherwise it returns the response payload, or the marker `Upload success` when the payload is absent or empty |
| Upload.AttemptResult | src/api.mjs:163 | definition: attempt number `n` is `uploadSingleFile` against the server's answer to that attempt (no contract of its own) |
| Upload.RetryResult | src/api.mjs:158-175 | definition of what the retry returns or throws: the outcome of the last attempt made (no contract of its own; `SucceedsAfterFailures`, `Exhausted` and `RetrySucceedsIff` state its properties) |
| Upload.Schedule | src/api.mjs:161-171 | definition of the trace of `n` attempts with one wait between consecutive attempts (no contract of its own; `ScheduleShape` states it) |
| Upload.FirstSuccessFrom | src/api.mjs:161-163 | the first successful attempt in the range, with every earlier attempt failed; none exactly when every attempt in the range fails |
| Upload.AttemptsMade | src/api.mjs:158-175 | the retry makes at least one attempt and at most `retryCount` |
| Upload.ScheduleShape | src/api.mjs:161-171 | `n` attempts alternate with `n - 1` waits of the fixed delay, numbered 1 to `n`, with no wait after the last attempt |
| Upload.SucceedsAfterFailures | src/api.mjs:158-175 | if the first `k` attempts fail and attempt `k + 1` succeeds, the retry returns that success after `k + 1` attempts and `k` waits |
| Upload.Exhausted | src/api.mjs:158-175 | when every attempt fails, exactly `retryCount` attempts and `retryCount - 1` waits are made, and the last attempt's error is rethrown as it is, not wrapped again |
| Upload.RetrySucceedsIff | src/api.mjs:158-175 | the retry succeeds if and only if some attempt within the bound succeeds |
| Api.OnePanelApi.UploadSingleFileWithRetry | src/api.mjs:158-175 | the loop returns the outcome of the first successful attempt, or rethrows the last error. Its trace has exactly as many attempts and waits as the retry function says are made |
| IgnoreFilter.DefaultIgnoreFiles | src/api.mjs:34 | the client's ignore list: `node_modules/`, `.git/`, `.vscode/`, `.env`, `.env.local`, in that order (a constant; `EnvLocalIsRedundant` and the example lemmas state what it filters) |
| IgnoreFilter.Matches | src/api.mjs:184 | definition of the test applied to one pattern: the pattern is a substring of the path, or equals its basename (no contract of its own; `ShouldIgnore` is stated through it) |
| IgnoreFilter.Includes | src/api.mjs:184 | `filePath.includes(pattern)`: true if and only if the pattern occurs at some offset |
| IgnoreFilter.ShouldIgnore | src/api.mjs:182-186 | a path is ignored if and only if some pattern occurs in it as a substring or equals its basename |
| IgnoreFilter.ShouldIgnoreConcat | src/api.mjs:183-185 | the filter over two pattern lists is the OR of the filters over each |
| IgnoreFilter.IgnoredBelowMatchingPath | src/api.mjs:184 | once a path contains a pattern, every path extending it is ignored |
| IgnoreFilter.ChildOfMarkedDirectoryIgnored | src/api.mjs:182-186 | for a pattern `name/`, every entry inside a directory called `name` is ignored |
| IgnoreFilter.NodeModulesEntryVersusChild | src/api.mjs:182-186 | with the default patterns, a `node_modules` entry under a parent without `/` or `.` that does not itself end in `node_modules` is not ignored itself, but everything inside it is |
| IgnoreFilter.NotIgnoredByDefaultChars | src/api.mjs:182-186 | a path that lacks the letters `o`, `g` and `v` passes the default patterns |
| IgnoreFilter.ExamplePageUploaded | src/api.mjs:182-186 | `www/index.html` passes the default patterns |
| IgnoreFilter.ExampleAssetsUploaded | src/api.mjs:182-186 | `www/assets` passes the default patterns |
| IgnoreFilter.ExampleScriptUploaded | src/api.mjs:182-186 | `www/assets/app.js` passes the default patterns |
| IgnoreFilter.ExampleSecretIgnored | src/api.mjs:182-186 | `www/.env` is ignored by the default patterns |
| IgnoreFilter.NamedEntryIgnored | src/api.mjs:184 | an entry whose name is a pattern is ignored, in any directory |
| IgnoreFilter.EnvLocalIsRedundant | src/api.mjs:34 | the default pattern `.env.local` never changes a verdict, because `.env` already catches every path it catches |
| Paths.Join | src/api.mjs:205 | definition of `path.join(dir, name)` for a directory in normal form: `name` alone after an empty directory, appended directly after a trailing `/`, otherwise with one `/` between (no contract of its own; `JoinExtends` and `BasenameOfJoin` state what it guarantees) |
| Paths.JoinExtends | src/api.mjs:205 | the directory is a prefix of every path joined onto it |
| Paths.Basename | src/api.mjs:184 | definition of POSIX `path.basename`: what follows the last `/` once trailing separators are dropped (no contract of its own; `BasenameShape` states it) |
| Paths.BasenameShape | src/api.mjs:184 | the basename holds no `/`, and it is the final part of the path with trailing separators dropped, preceded by a `/` unless it is the whole of it |
| Paths.RelativePath | src/api.mjs:213 | definition of `path.relative(basePath, sourceDir)` for a directory reached by descending into the names `rel`: those names joined by `/`, empty at the base (no contract of its own; `RelativePathEmpty` states when it is empty) |
| Paths.TargetFor | src/api.mjs:213-216 | definition of `currentTargetDir`: the normalised target when the relative path is empty, otherwise the target joined with the relative path with every backslash turned into `/` (no contract of its own; `TargetForShape`, `TargetForPlain` and `TargetStaysUnder` state its properties) |
| Paths.BasenameOfJoin | src/api.mjs:184 | the basename of a directory joined with an entry name is that name |
| Paths.NormalizeTarget | src/api.mjs:196 | the normalised target ends in `/` and extends the given directory by at most that one `/`; a target already ending in `/` is returned unchanged |
| Paths.NormalizeTargetIdempotent | src/api.mjs:196 | normalising again, as the recursive call does, changes nothing |
| Paths.ReplaceBackslashes | src/api.mjs:215 | same length, every backslash replaced by `/`, every other character in place |
| Paths.RelativePathEmpty | src/api.mjs:213-214 | the relative path is empty exactly when the walk is at its base directory |
| Paths.JoinAllExtends | src/api.mjs:220 | every directory the walk descends into extends its base path |
| Paths.TargetForShape | src/api.mjs:213-216 | a file directly under the base goes to the normalised target. A nested file goes to the target followed by its relative path, with no backslash |
| Paths.TargetForPlain | src/api.mjs:213-216 | without backslashes in the inputs, a file in `a/b` goes to the normalised target followed by `a/b` |
| Paths.TargetStaysUnder | src/api.mjs:213-216 | when the target has no backslash, every computed remote directory lies below the normalised target |
| Walker.IgnoredBy | src/api.mjs:182-186 | definition: the filter the walk consults is `shouldIgnore` over the client's patterns (no contract of its own) |
| Walker.FileOutcome | src/api.mjs:224-241 | definition of one file's record: the retried upload into the computed remote directory, recorded as a success with the result or a failure with the thrown message (no contract of its own; `FileOutcomeRecord` states it) |
| Walker.UploaderFor | src/api.mjs:224-241 | definition: the per-file step of the walk is `FileOutcome` against the upload oracle and the normalised target (no contract of its own) |
| Walker.Files | src/api.mjs:204-222 | definition of the filtered traversal: the files below a directory in listing order, with ignored entries and everything below them left out (no contract of its own; `FoundFilesArePassed` states what it finds) |
| Walker.Walk | src/api.mjs:195-246 | definition of `uploadDirectory` on a listing: the outcomes of the first entry followed by those of the rest (no contract of its own; the walker lemmas and `Api.OnePanelApi.UploadDirectory` state its properties) |
| Walker.WalkHead | src/api.mjs:205-242 | definition of what the first entry contributes: nothing when ignored, the walk of its own listing when it is a directory, one record when it is a file (no contract of its own; `WalkOne` states it) |
| Walker.FileOutcomeRecord | src/api.mjs:224-241 | each file's record names the file and its computed remote directory, and is a success exactly when the retried upload succeeded |
| Walker.Outcomes | src/api.mjs:225-241 | one record per file, in order |
| Walker.WalkAppend | src/api.mjs:204-243 | the walk of a listing is the walk of its first part followed by the walk of the rest |
| Walker.WalkUploadsFoundFiles | src/api.mjs:204-245 | the walk uploads exactly the files the filtered traversal discovers, in discovery order, with subdirectory results spliced in place |
| Walker.OneOutcomePerFile | src/api.mjs:224-241 | outcome `i` belongs to discovered file `i` and carries its remote directory. It is a success with the result exactly when the retried upload succeeded, and a failure with the thrown message otherwise; a failure does not stop the walk |
| Walker.FoundFilesArePassed | src/api.mjs:205-222 | every discovered file passes the filter, its local path is its directory joined with its name, its basename is its name, and its directory lies below the starting one |
| Walker.FileEntryFound | src/api.mjs:204-222 | a listed file the filter lets through is discovered, with its joined path and the current relative directory |
| Walker.DirEntrySpliced | src/api.mjs:204-222 | a listed directory the filter lets through is entered, and everything found inside it is found by the walk of the listing |
| Walker.ListedFileUploaded | src/api.mjs:204-242 | every listed file the filter lets through gets an upload outcome in the walk |
| Walker.WalkOne | src/api.mjs:205-242 | a single entry contributes nothing when ignored, the walk of its own listing (one level deeper, with its name added to the relative path) when it is a directory, and one upload record when it is a file |
| Walker.WalkExtend | src/api.mjs:204-243 | each loop pass appends the current entry's outcomes to those collected so far |
| Walker.IgnoredEntryIsInvisible | src/api.mjs:207-210 | the walk gives the same outcomes whether or not an ignored entry is present, whatever that entry contains |
| Walker.AllIgnoredYieldsNothing | src/api.mjs:207-210 | a listing whose entries are all ignored yields no outcomes |
| Walker.MarkedDirectoryYieldsNothing | src/api.mjs:218-222 | a directory named by a `name/` pattern is entered, but nothing inside it is uploaded |
| Walker.MatchingRootYieldsNothing | src/api.mjs:205-207 | when the starting directory's own path contains a pattern, nothing at all is uploaded |
| Walker.TargetsStayUnder | src/api.mjs:213-216 | when the target has no backslash, every outcome's remote directory lies below the normalised target |
| Walker.ExampleWalk | src/api.mjs:204-243 | a page, a directory with a script, and an ignored secret give two outcomes: the page at the top, then the script with its directory as relative path |
| Api.OnePanelApi.UploadEntry | src/api.mjs:205-242 | one loop pass returns exactly what the walk assigns to that entry: nothing for an ignored entry, the recursive upload into the same normalised target for a directory, and a success or failure record for a file |
| Api.OnePanelApi.UploadDirectory | src/api.mjs:195-246 | the loop and its recursion return exactly the walk of the listing with the ignore patterns and the retried upload into the normalised target |
| Walker.Successes | src/api.mjs:273 | the `success` records are exactly the successful outcomes |
| Walker.Failures | src/api.mjs:274 | the `!success` records are exactly the failed outcomes |
| Walker.OutcomesPartition | src/api.mjs:273-274 | successes and failures together hold every outcome exactly as often as the list does, so the counts add up to the total |
| Walker.Summarize | src/api.mjs:278-283 | the summary carries the full list and its length, and the success and failure counts sum to the total |
| Api.SiteRoot | src/api.mjs:258-269 | a site has an upload root exactly when its `sitePath` is present and non-empty, and the root is `sitePath` joined with `index` |
| Api.IndexRoot | src/api.mjs:269 | the normalised upload root is `sitePath` joined with `index` followed by `/` |
| Api.TargetsUnderSiteIndex | src/api.mjs:269-271 | when `sitePath` has no backslash, every file a deployment records was aimed at the site's `index/` directory or below it |
| Api.ExampleTargets | src/api.mjs:269 | top-level files go to `index/`, files in `assets` to `index/assets` |
| Api.DeployExample | src/api.mjs:254-287 | deploying `index.html`, `assets/app.js` and `.env` with the defaults attempts two files in that order, the page into `index/` and the script into `index/assets` |
| Api.OnePanelApi.UploadStaticFiles | src/api.mjs:254-287 | each error before the walk carries its wrapped message: a failed listing, an unknown domain, a missing or empty site path, a missing source, a source that is not a directory. Otherwise the result is the summary of the walk of the source into `sitePath/index` |

## Left out

- The command-line front end in `src/index.mjs` (argument parsing, environment variables, exit codes) is not part of this model.
- HTTP, axios, multipart encoding and file streaming are not modelled. Every server call is an oracle value, and `fs.createReadStream` of the file is not modelled.
- The MD5 digest is an uninterpreted function, so the model cannot say that different content gives different tokens. `Signer.SigningBindsToTheSecond` goes only as far as different signed content.
- The clock and `setTimeout` are not modelled. The current time is a parameter, and waits are recorded in the `Attempt`/`Delay` trace rather than performed.
- Console logging and warnings are left out; they have no effect on results.
- `createWebsite`'s request body is left out. It is a constant object with no branches.
- The search request's paging constants in `getWebsiteList` are left out.
- A search response without `data.data.items` is not modelled; the listing oracle is either a list of sites or an error message.
- Path normalisation is left out. `path.join` is modelled as joining with exactly one `/`, for directory paths in normal form: `.`, `..` and repeated separators are not resolved.
- Windows separators are left out. Backslash replacement is modelled as it is written, but paths never contain backslashes as separators.
- The `basePath` argument of `uploadDirectory` is replaced by the list `rel` of directories below the base, so `path.relative` is exact only for directories the walk itself descended into.
- The difference `fs.existsSync` and `fs.stat` make between a missing path and one that cannot be read is not modelled. `fs.stat` failing on an entry, for example a broken symbolic link, is not modelled either: every entry is a file or a directory.
- A server payload is modelled as absent or as its text. The empty text falls back to the marker, as `""` does in JavaScript; other falsy payloads (`0`, `false`, `null`) must be given to the oracle as absent.
- Concurrency is left out: the walk, like the source, awaits each upload before the next.
