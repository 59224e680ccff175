/** The tree walk: which local files a deployment uploads, where each one
    goes on the server, and the per-file outcome records it collects. The
    local directory tree is a value (`fs.readdir` in listing order, with
    `fs.stat` deciding directory or not). */
module Walker {
  import opened Wrappers
  import opened Paths
  import opened IgnoreFilter
  import opened Upload

  /** A directory entry: a directory with its own listing, or anything else,
      which is uploaded as a file. */
  datatype Entry = File(name: string) | Dir(name: string, entries: seq<Entry>)

  /** Every name in the tree is one `fs.readdir` can return. */
  predicate WellFormed(entries: seq<Entry>)
    decreases entries
  {
    forall i :: 0 <= i < |entries| ==>
      ValidName(entries[i].name) && (entries[i].Dir? ==> WellFormed(entries[i].entries))
  }

  /** One record per file the walk tried to upload. */
  datatype UploadOutcome =
    | Uploaded(file: string, targetPath: string, result: Payload)
    | NotUploaded(file: string, targetPath: string, error: string)
  {
    predicate Success() { Uploaded? }
  }

  /** A file the walk reaches: its name, its local path, and the directory
      segments between the walk's base and the directory holding it. */
  datatype FoundFile = FoundFile(name: string, sourcePath: string, rel: seq<string>)

  /** The filter the walk consults for each entry's local path. */
  function IgnoredBy(ignoreFiles: seq<string>): string -> bool
  {
    filePath => ShouldIgnore(ignoreFiles, filePath)
  }

  /** Uploading one found file with the default retry: a success record with
      the result, or a failure record with the thrown message. */
  function FileOutcome(transport: Transport, normalizedTargetDir: string, f: FoundFile): UploadOutcome
  {
    var targetPath := TargetFor(normalizedTargetDir, f.rel);
    match RetryResult(transport, f.sourcePath, targetPath, DefaultRetryCount)
    case Ok(result) => Uploaded(f.name, targetPath, result)
    case Err(message) => NotUploaded(f.name, targetPath, message)
  }

  /** Whatever the upload does, its record names the file and the remote
      directory computed for it; it is a success exactly when the retry is. */
  lemma FileOutcomeRecord(transport: Transport, normalizedTargetDir: string, f: FoundFile)
    ensures FileOutcome(transport, normalizedTargetDir, f).file == f.name
    ensures FileOutcome(transport, normalizedTargetDir, f).targetPath == TargetFor(normalizedTargetDir, f.rel)
    ensures FileOutcome(transport, normalizedTargetDir, f).Success()
        <==> RetryResult(transport, f.sourcePath, TargetFor(normalizedTargetDir, f.rel), DefaultRetryCount).Ok?
  {
  }

  /** The record of a file whose retried upload produced `r`. */
  lemma FileOutcomeOf(transport: Transport, normalizedTargetDir: string, f: FoundFile, r: Result<Payload>)
    requires r == RetryResult(transport, f.sourcePath, TargetFor(normalizedTargetDir, f.rel), DefaultRetryCount)
    ensures r.Ok? ==> FileOutcome(transport, normalizedTargetDir, f) == Uploaded(f.name, TargetFor(normalizedTargetDir, f.rel), r.value)
    ensures r.Err? ==> FileOutcome(transport, normalizedTargetDir, f) == NotUploaded(f.name, TargetFor(normalizedTargetDir, f.rel), r.error)
  {
  }

  /** The per-file step the walk performs against the upload oracle. */
  function UploaderFor(transport: Transport, normalizedTargetDir: string): FoundFile -> UploadOutcome
  {
    f => FileOutcome(transport, normalizedTargetDir, f)
  }

  /** The files below `sourceDir` that pass the filter `skip`, in traversal
      order; a skipped directory is not entered. */
  function Files(skip: string -> bool, sourceDir: string, rel: seq<string>, entries: seq<Entry>): seq<FoundFile>
    decreases entries, 1
  {
    if entries == [] then []
    else
      FilesHead(skip, sourceDir, rel, entries) + Files(skip, sourceDir, rel, entries[1..])
  }

  function FilesHead(skip: string -> bool, sourceDir: string, rel: seq<string>, entries: seq<Entry>): seq<FoundFile>
    requires entries != []
    decreases entries, 0
  {
    var sourcePath := Join(sourceDir, entries[0].name);
    if skip(sourcePath) then []
    else match entries[0]
      case Dir(name, children) => Files(skip, sourcePath, rel + [name], children)
      case File(name) => [FoundFile(name, sourcePath, rel)]
  }

  function Outcomes(upload: FoundFile -> UploadOutcome, files: seq<FoundFile>): (rs: seq<UploadOutcome>)
    ensures |rs| == |files|
    ensures forall i :: 0 <= i < |files| ==> rs[i] == upload(files[i])
  {
    if files == [] then [] else [upload(files[0])] + Outcomes(upload, files[1..])
  }

  /** `uploadDirectory(sourceDir, ...)` for the directory `rel` below the
      walk's base: entries in listing order, skipped ones left out, the
      outcomes of a subdirectory spliced in place, one record per file. */
  function Walk(skip: string -> bool, upload: FoundFile -> UploadOutcome, sourceDir: string,
                rel: seq<string>, entries: seq<Entry>): seq<UploadOutcome>
    decreases entries, 1
  {
    if entries == [] then []
    else
      WalkHead(skip, upload, sourceDir, rel, entries) + Walk(skip, upload, sourceDir, rel, entries[1..])
  }

  /** The outcomes contributed by the first entry: none if it is skipped, the
      walk of its listing if it is a directory, one upload record otherwise. */
  function WalkHead(skip: string -> bool, upload: FoundFile -> UploadOutcome, sourceDir: string,
                    rel: seq<string>, entries: seq<Entry>): seq<UploadOutcome>
    requires entries != []
    decreases entries, 0
  {
    var sourcePath := Join(sourceDir, entries[0].name);
    if skip(sourcePath) then []
    else match entries[0]
      case Dir(name, children) => Walk(skip, upload, sourcePath, rel + [name], children)
      case File(name) => [upload(FoundFile(name, sourcePath, rel))]
  }

  lemma {:induction false} WalkAppend(skip: string -> bool, upload: FoundFile -> UploadOutcome, sourceDir: string,
                                      rel: seq<string>, a: seq<Entry>, b: seq<Entry>)
    ensures Walk(skip, upload, sourceDir, rel, a + b)
         == Walk(skip, upload, sourceDir, rel, a) + Walk(skip, upload, sourceDir, rel, b)
    decreases |a|
  {
    if a == [] {
      assert a + b == b;
    } else {
      var ab := a + b;
      assert ab[0] == a[0] && ab[1..] == a[1..] + b;
      WalkAppend(skip, upload, sourceDir, rel, a[1..], b);
      assert WalkHead(skip, upload, sourceDir, rel, ab) == WalkHead(skip, upload, sourceDir, rel, a);
    }
  }

  lemma {:induction false} FilesAppend(skip: string -> bool, sourceDir: string, rel: seq<string>, a: seq<Entry>, b: seq<Entry>)
    ensures Files(skip, sourceDir, rel, a + b) == Files(skip, sourceDir, rel, a) + Files(skip, sourceDir, rel, b)
    decreases |a|
  {
    if a == [] {
      assert a + b == b;
    } else {
      var ab := a + b;
      assert ab[0] == a[0] && ab[1..] == a[1..] + b;
      FilesAppend(skip, sourceDir, rel, a[1..], b);
      assert FilesHead(skip, sourceDir, rel, ab) == FilesHead(skip, sourceDir, rel, a);
    }
  }

  lemma {:induction false} OutcomesAppend(upload: FoundFile -> UploadOutcome, a: seq<FoundFile>, b: seq<FoundFile>)
    ensures Outcomes(upload, a + b) == Outcomes(upload, a) + Outcomes(upload, b)
  {
  }

  /** The walk is the upload of exactly the discovered files, one outcome per
      file, in discovery order. */
  lemma {:induction false} WalkUploadsFoundFiles(skip: string -> bool, upload: FoundFile -> UploadOutcome,
                                                 sourceDir: string, rel: seq<string>, entries: seq<Entry>)
    ensures Walk(skip, upload, sourceDir, rel, entries) == Outcomes(upload, Files(skip, sourceDir, rel, entries))
    decreases entries
  {
    if entries != [] {
      var e := entries[0];
      var sourcePath := Join(sourceDir, e.name);
      WalkUploadsFoundFiles(skip, upload, sourceDir, rel, entries[1..]);
      OutcomesAppend(upload, FilesHead(skip, sourceDir, rel, entries), Files(skip, sourceDir, rel, entries[1..]));
      if !skip(sourcePath) && e.Dir? {
        WalkUploadsFoundFiles(skip, upload, sourcePath, rel + [e.name], e.entries);
      }
    }
  }

  /** One outcome per discovered file, in order: outcome `i` names file `i`,
      carries its computed remote directory, and is a success exactly when
      the retried upload of that file succeeded, with the thrown message
      otherwise. A failed file does not stop the files after it. */
  lemma OneOutcomePerFile(ignoreFiles: seq<string>, transport: Transport, sourceDir: string,
                          normalizedTargetDir: string, rel: seq<string>, entries: seq<Entry>)
    ensures var results := Walk(IgnoredBy(ignoreFiles), UploaderFor(transport, normalizedTargetDir), sourceDir, rel, entries);
      var files := Files(IgnoredBy(ignoreFiles), sourceDir, rel, entries);
      && |results| == |files|
      && forall i :: 0 <= i < |files| ==>
        var target := TargetFor(normalizedTargetDir, files[i].rel);
        var attempt := RetryResult(transport, files[i].sourcePath, target, DefaultRetryCount);
        && results[i].file == files[i].name
        && results[i].targetPath == target
        && (results[i].Success() <==> attempt.Ok?)
        && (results[i].Success() ==> results[i].result == attempt.value)
        && (!results[i].Success() ==> results[i].error == attempt.error)
  {
    WalkUploadsFoundFiles(IgnoredBy(ignoreFiles), UploaderFor(transport, normalizedTargetDir), sourceDir, rel, entries);
  }

  lemma WellFormedParts(entries: seq<Entry>)
    requires WellFormed(entries) && entries != []
    ensures ValidName(entries[0].name)
    ensures entries[0].Dir? ==> WellFormed(entries[0].entries)
    ensures WellFormed(entries[1..])
  {
    forall i | 0 <= i < |entries[1..]|
      ensures ValidName(entries[1..][i].name) && (entries[1..][i].Dir? ==> WellFormed(entries[1..][i].entries))
    {
      assert entries[1..][i] == entries[i + 1];
    }
  }

  /** What the filtered traversal promises of one discovered file. */
  predicate Passed(ignoreFiles: seq<string>, base: string, rel: seq<string>, f: FoundFile)
  {
    && !ShouldIgnore(ignoreFiles, f.sourcePath)
    && f.sourcePath == Join(JoinAll(base, f.rel), f.name)
    && Basename(f.sourcePath) == f.name
    && |rel| <= |f.rel| && f.rel[..|rel|] == rel
  }

  /** A file that passed below directory `rel + [name]` passed below `rel`. */
  lemma PassedBelow(ignoreFiles: seq<string>, base: string, rel: seq<string>, name: string, f: FoundFile)
    requires Passed(ignoreFiles, base, rel + [name], f)
    ensures Passed(ignoreFiles, base, rel, f)
  {
    assert f.rel[..|rel|] == f.rel[..|rel + [name]|][..|rel|];
  }

  /** Every discovered file is one the filter lets through, its local path is
      the containing directory joined with its name, and its directory lies
      below the directory the walk started in. */
  lemma {:induction false} FoundFilesArePassed(ignoreFiles: seq<string>, base: string, rel: seq<string>, entries: seq<Entry>)
    requires WellFormed(entries)
    ensures forall f :: f in Files(IgnoredBy(ignoreFiles), JoinAll(base, rel), rel, entries) ==>
      Passed(ignoreFiles, base, rel, f)
    decreases entries
  {
    if entries != [] {
      var skip := IgnoredBy(ignoreFiles);
      var e := entries[0];
      var dir := JoinAll(base, rel);
      var sourcePath := Join(dir, e.name);
      WellFormedParts(entries);
      FoundFilesArePassed(ignoreFiles, base, rel, entries[1..]);
      var head := FilesHead(skip, dir, rel, entries);
      assert Files(skip, dir, rel, entries) == head + Files(skip, dir, rel, entries[1..]);
      forall f | f in head ensures Passed(ignoreFiles, base, rel, f) {
        if e.Dir? {
          assert JoinAll(base, rel + [e.name]) == sourcePath by {
            assert (rel + [e.name])[..|rel + [e.name]| - 1] == rel;
          }
          FoundFilesArePassed(ignoreFiles, base, rel + [e.name], e.entries);
          PassedBelow(ignoreFiles, base, rel, e.name, f);
        } else {
          BasenameOfJoin(dir, e.name);
        }
      }
    }
  }

  /** The converse for files: a listed file that the filter lets through is
      discovered, with its joined path and the current relative directory. */
  lemma {:induction false} FileEntryFound(skip: string -> bool, sourceDir: string, rel: seq<string>,
                                          entries: seq<Entry>, i: nat)
    requires i < |entries| && entries[i].File?
    requires !skip(Join(sourceDir, entries[i].name))
    ensures FoundFile(entries[i].name, Join(sourceDir, entries[i].name), rel) in Files(skip, sourceDir, rel, entries)
    decreases i
  {
    assert Files(skip, sourceDir, rel, entries)
        == FilesHead(skip, sourceDir, rel, entries) + Files(skip, sourceDir, rel, entries[1..]);
    if i > 0 {
      assert entries[1..][i - 1] == entries[i];
      FileEntryFound(skip, sourceDir, rel, entries[1..], i - 1);
    }
  }

  /** The converse for directories: a listed directory that the filter lets
      through is entered, and everything discovered inside it is discovered
      by the walk of the listing. */
  lemma {:induction false} DirEntrySpliced(skip: string -> bool, sourceDir: string, rel: seq<string>,
                                           entries: seq<Entry>, i: nat, f: FoundFile)
    requires i < |entries| && entries[i].Dir?
    requires !skip(Join(sourceDir, entries[i].name))
    requires f in Files(skip, Join(sourceDir, entries[i].name), rel + [entries[i].name], entries[i].entries)
    ensures f in Files(skip, sourceDir, rel, entries)
    decreases i
  {
    assert Files(skip, sourceDir, rel, entries)
        == FilesHead(skip, sourceDir, rel, entries) + Files(skip, sourceDir, rel, entries[1..]);
    if i > 0 {
      assert entries[1..][i - 1] == entries[i];
      DirEntrySpliced(skip, sourceDir, rel, entries[1..], i - 1, f);
    }
  }

  /** Every listed file that the filter lets through gets an outcome: the
      upload of its record appears in the walk. */
  lemma ListedFileUploaded(skip: string -> bool, upload: FoundFile -> UploadOutcome, sourceDir: string,
                           rel: seq<string>, entries: seq<Entry>, i: nat)
    requires i < |entries| && entries[i].File?
    requires !skip(Join(sourceDir, entries[i].name))
    ensures upload(FoundFile(entries[i].name, Join(sourceDir, entries[i].name), rel))
      in Walk(skip, upload, sourceDir, rel, entries)
  {
    var f := FoundFile(entries[i].name, Join(sourceDir, entries[i].name), rel);
    var files := Files(skip, sourceDir, rel, entries);
    FileEntryFound(skip, sourceDir, rel, entries, i);
    WalkUploadsFoundFiles(skip, upload, sourceDir, rel, entries);
    var k :| 0 <= k < |files| && files[k] == f;
    assert Outcomes(upload, files)[k] == upload(f);
  }

  /** What one entry contributes to the walk: nothing when it is skipped,
      the walk of its listing when it is a directory, one upload record for
      the file otherwise. */
  lemma WalkOne(skip: string -> bool, upload: FoundFile -> UploadOutcome, sourceDir: string,
                rel: seq<string>, e: Entry)
    ensures skip(Join(sourceDir, e.name)) ==> Walk(skip, upload, sourceDir, rel, [e]) == []
    ensures !skip(Join(sourceDir, e.name)) && e.Dir? ==>
      Walk(skip, upload, sourceDir, rel, [e]) == Walk(skip, upload, Join(sourceDir, e.name), rel + [e.name], e.entries)
    ensures !skip(Join(sourceDir, e.name)) && e.File? ==>
      Walk(skip, upload, sourceDir, rel, [e]) == [upload(FoundFile(e.name, Join(sourceDir, e.name), rel))]
  {
    assert [e][1..] == [];
  }

  /** The walk of one more entry of a listing appends that entry's outcomes. */
  lemma WalkExtend(skip: string -> bool, upload: FoundFile -> UploadOutcome, sourceDir: string,
                   rel: seq<string>, entries: seq<Entry>, i: nat)
    requires i < |entries|
    ensures Walk(skip, upload, sourceDir, rel, entries[..i + 1])
         == Walk(skip, upload, sourceDir, rel, entries[..i]) + Walk(skip, upload, sourceDir, rel, [entries[i]])
  {
    assert entries[..i + 1] == entries[..i] + [entries[i]];
    WalkAppend(skip, upload, sourceDir, rel, entries[..i], [entries[i]]);
  }

  /** A skipped entry has no effect on the outcomes: the walk gives the same
      list with the entry removed, whatever the entry (or, for a directory,
      anything below it) holds. */
  lemma IgnoredEntryIsInvisible(skip: string -> bool, upload: FoundFile -> UploadOutcome, sourceDir: string,
                                rel: seq<string>, entries: seq<Entry>, i: nat)
    requires i < |entries| && skip(Join(sourceDir, entries[i].name))
    ensures Walk(skip, upload, sourceDir, rel, entries)
         == Walk(skip, upload, sourceDir, rel, entries[..i] + entries[i + 1..])
  {
    var pre, one, post := entries[..i], [entries[i]], entries[i + 1..];
    assert entries == pre + (one + post);
    assert Walk(skip, upload, sourceDir, rel, one) == [] by {
      assert one[1..] == [];
      assert WalkHead(skip, upload, sourceDir, rel, one) == [];
    }
    WalkAppend(skip, upload, sourceDir, rel, one, post);
    WalkAppend(skip, upload, sourceDir, rel, pre, one + post);
    WalkAppend(skip, upload, sourceDir, rel, pre, post);
  }

  /** The walk of entries that are all skipped yields nothing. */
  lemma {:induction false} AllIgnoredYieldsNothing(skip: string -> bool, upload: FoundFile -> UploadOutcome,
                                                   sourceDir: string, rel: seq<string>, entries: seq<Entry>)
    requires forall i :: 0 <= i < |entries| ==> skip(Join(sourceDir, entries[i].name))
    ensures Walk(skip, upload, sourceDir, rel, entries) == []
  {
    if entries != [] {
      assert skip(Join(sourceDir, entries[0].name));
      assert forall i :: 0 <= i < |entries[1..]| ==> entries[1..][i] == entries[i + 1];
      AllIgnoredYieldsNothing(skip, upload, sourceDir, rel, entries[1..]);
    }
  }

  /** A directory named by a `name/` pattern (such as `node_modules`) is
      entered when its own path escapes the filter, but nothing inside it is
      uploaded. */
  lemma MarkedDirectoryYieldsNothing(ignoreFiles: seq<string>, upload: FoundFile -> UploadOutcome, sourceDir: string,
                                     rel: seq<string>, k: nat, name: string, children: seq<Entry>)
    requires k < |ignoreFiles| && ignoreFiles[k] == name + "/" && ValidName(name)
    ensures Walk(IgnoredBy(ignoreFiles), upload, sourceDir, rel, [Dir(name, children)]) == []
  {
    var sourcePath := Join(sourceDir, name);
    forall i | 0 <= i < |children| ensures IgnoredBy(ignoreFiles)(Join(sourcePath, children[i].name)) {
      ChildOfMarkedDirectoryIgnored(ignoreFiles, k, sourceDir, name, children[i].name);
    }
    AllIgnoredYieldsNothing(IgnoredBy(ignoreFiles), upload, sourcePath, rel + [name], children);
    assert [Dir(name, children)][1..] == [];
  }

  /** The substring test sees the whole local path, the walk's own starting
      directory included: when a pattern occurs in that directory's path,
      nothing at all is uploaded. */
  lemma {:induction false} MatchingRootYieldsNothing(ignoreFiles: seq<string>, upload: FoundFile -> UploadOutcome,
                                                     base: string, rel: seq<string>, entries: seq<Entry>, k: nat)
    requires k < |ignoreFiles| && Includes(base, ignoreFiles[k])
    ensures Walk(IgnoredBy(ignoreFiles), upload, JoinAll(base, rel), rel, entries) == []
  {
    var dir := JoinAll(base, rel);
    forall i | 0 <= i < |entries| ensures IgnoredBy(ignoreFiles)(Join(dir, entries[i].name)) {
      JoinAllExtends(base, rel);
      JoinExtends(dir, entries[i].name);
      var p := Join(dir, entries[i].name);
      assert p[..|base|] == p[..|dir|][..|base|];
      IgnoredBelowMatchingPath(ignoreFiles, base, k, p);
    }
    AllIgnoredYieldsNothing(IgnoredBy(ignoreFiles), upload, dir, rel, entries);
  }

  /** Every outcome's remote directory lies below the normalised target,
      when that target has no backslash. */
  lemma TargetsStayUnder(ignoreFiles: seq<string>, transport: Transport, sourceDir: string,
                         normalizedTargetDir: string, rel: seq<string>, entries: seq<Entry>)
    requires |normalizedTargetDir| > 0 && normalizedTargetDir[|normalizedTargetDir| - 1] == '/'
    requires '\\' !in normalizedTargetDir
    ensures forall o :: o in Walk(IgnoredBy(ignoreFiles), UploaderFor(transport, normalizedTargetDir), sourceDir, rel, entries) ==>
      |normalizedTargetDir| <= |o.targetPath| && o.targetPath[..|normalizedTargetDir|] == normalizedTargetDir
  {
    var results := Walk(IgnoredBy(ignoreFiles), UploaderFor(transport, normalizedTargetDir), sourceDir, rel, entries);
    var files := Files(IgnoredBy(ignoreFiles), sourceDir, rel, entries);
    OneOutcomePerFile(ignoreFiles, transport, sourceDir, normalizedTargetDir, rel, entries);
    forall o | o in results
      ensures |normalizedTargetDir| <= |o.targetPath| && o.targetPath[..|normalizedTargetDir|] == normalizedTargetDir
    {
      var i :| 0 <= i < |results| && results[i] == o;
      TargetStaysUnder(normalizedTargetDir, files[i].rel);
    }
  }

  /** A listing with a page, a directory holding a script, and a skipped
      secret: the page and then the script are uploaded, the script with its
      directory as relative path, and the secret is not. */
  lemma {:induction false} ExampleWalk(skip: string -> bool, upload: FoundFile -> UploadOutcome, src: string,
                                       page: string, dir: string, script: string, secret: string)
    requires !skip(Join(src, page)) && !skip(Join(src, dir)) && !skip(Join(Join(src, dir), script))
    requires skip(Join(src, secret))
    ensures Walk(skip, upload, src, [], [File(page), Dir(dir, [File(script)]), File(secret)])
         == [upload(FoundFile(page, Join(src, page), [])),
             upload(FoundFile(script, Join(Join(src, dir), script), [dir]))]
  {
    var entries := [File(page), Dir(dir, [File(script)]), File(secret)];
    assert entries[1..] == [Dir(dir, [File(script)]), File(secret)];
    assert entries[1..][1..] == [File(secret)];
    assert [File(secret)][1..] == [] && [File(script)][1..] == [];
    assert [] + [dir] == [dir];
    var sub := Join(src, dir);
    assert Walk(skip, upload, src, [], [File(secret)]) == [];
    assert Walk(skip, upload, sub, [dir], [File(script)]) == [upload(FoundFile(script, Join(sub, script), [dir]))];
    assert Walk(skip, upload, src, [], entries[1..]) == [upload(FoundFile(script, Join(sub, script), [dir]))];
  }

  /** The successful outcomes. */
  function Successes(results: seq<UploadOutcome>): (s: seq<UploadOutcome>)
    ensures forall r :: r in s ==> r in results && r.Success()
    ensures forall r :: r in results && r.Success() ==> r in s
  {
    if results == [] then []
    else (if results[0].Success() then [results[0]] else []) + Successes(results[1..])
  }

  /** The failed outcomes. */
  function Failures(results: seq<UploadOutcome>): (s: seq<UploadOutcome>)
    ensures forall r :: r in s ==> r in results && !r.Success()
    ensures forall r :: r in results && !r.Success() ==> r in s
  {
    if results == [] then []
    else (if results[0].Success() then [] else [results[0]]) + Failures(results[1..])
  }

  /** Successes and failures split the outcome list: together they hold
      every outcome exactly as often as the list does. */
  lemma {:induction false} OutcomesPartition(results: seq<UploadOutcome>)
    ensures multiset(Successes(results)) + multiset(Failures(results)) == multiset(results)
    ensures |Successes(results)| + |Failures(results)| == |results|
  {
    if results != [] {
      OutcomesPartition(results[1..]);
      assert results == [results[0]] + results[1..];
    }
  }

  /** The totals a deployment reports, with the full outcome list. */
  datatype Summary = Summary(totalFiles: nat, successCount: nat, failCount: nat, details: seq<UploadOutcome>)

  /** The summary over a walk's outcome list. */
  function Summarize(results: seq<UploadOutcome>): (s: Summary)
    ensures s.details == results && s.totalFiles == |results|
    ensures s.successCount + s.failCount == s.totalFiles
    ensures s.successCount == |Successes(results)| && s.failCount == |Failures(results)|
  {
    OutcomesPartition(results);
    Summary(|results|, |Successes(results)|, |Failures(results)|, results)
  }
}
