/** The POSIX path operations the deployment engine uses, on forward-slash
    strings: `path.join` of a directory and an entry name, `path.basename`,
    the `/`-terminated remote target directory and the remote directory of a
    file in a nested local directory. */
module Paths {

  /** A name `fs.readdir` can return: not empty, no separator, not `.` or `..`. */
  predicate ValidName(name: string)
  {
    name != "" && '/' !in name && name != "." && name != ".."
  }

  /** `path.join(dir, name)` for a directory in normal form and one entry name. */
  function Join(dir: string, name: string): string
  {
    if dir == "" then name
    else if dir[|dir| - 1] == '/' then dir + name
    else dir + "/" + name
  }

  /** The local directory reached from `base` by descending into `rel`, each
      step a `path.join(sourceDir, file)`. */
  function JoinAll(base: string, rel: seq<string>): string
  {
    if rel == [] then base else Join(JoinAll(base, rel[..|rel| - 1]), rel[|rel| - 1])
  }

  /** `path.relative(base, JoinAll(base, rel))`: the segments joined by `/`. */
  function RelativePath(rel: seq<string>): string
  {
    if rel == [] then ""
    else if |rel| == 1 then rel[0]
    else rel[0] + "/" + RelativePath(rel[1..])
  }

  /** Everything after the last `/` of `p`. */
  function AfterLastSlash(p: string): (r: string)
    ensures '/' !in r
    ensures |r| <= |p| && r == p[|p| - |r|..]
    ensures |r| < |p| ==> p[|p| - |r| - 1] == '/'
  {
    if p == "" then ""
    else if p[|p| - 1] == '/' then ""
    else AfterLastSlash(p[..|p| - 1]) + [p[|p| - 1]]
  }

  /** `p` without its trailing separators. */
  function TrimTrailingSlashes(p: string): (r: string)
    ensures |r| <= |p| && r == p[..|r|]
    ensures r == "" || r[|r| - 1] != '/'
    ensures forall i :: |r| <= i < |p| ==> p[i] == '/'
  {
    if p != "" && p[|p| - 1] == '/' then TrimTrailingSlashes(p[..|p| - 1]) else p
  }

  /** `path.basename(p)` (POSIX): the last component, trailing separators ignored. */
  function Basename(p: string): string
  {
    AfterLastSlash(TrimTrailingSlashes(p))
  }

  /** `targetDir.endsWith("/") ? targetDir : targetDir + "/"`. */
  function NormalizeTarget(targetDir: string): (r: string)
    ensures |r| > 0 && r[|r| - 1] == '/'
    ensures |targetDir| <= |r| <= |targetDir| + 1 && targetDir == r[..|targetDir|]
    ensures |targetDir| > 0 && targetDir[|targetDir| - 1] == '/' ==> r == targetDir
  {
    if |targetDir| > 0 && targetDir[|targetDir| - 1] == '/' then targetDir else targetDir + "/"
  }

  /** `.replace(/\\/g, "/")`: every backslash becomes a forward slash. */
  function ReplaceBackslashes(s: string): (r: string)
    ensures |r| == |s| && '\\' !in r
    ensures forall i :: 0 <= i < |s| && s[i] != '\\' ==> r[i] == s[i]
    ensures forall i :: 0 <= i < |s| && s[i] == '\\' ==> r[i] == '/'
  {
    if s == [] then []
    else [if s[0] == '\\' then '/' else s[0]] + ReplaceBackslashes(s[1..])
  }

  /** The remote directory of a file whose containing local directory is
      `rel` below the walk's base: the normalised target itself directly
      under the base, else the target joined with the relative path, with
      backslashes turned into forward slashes. */
  function TargetFor(normalizedTargetDir: string, rel: seq<string>): string
  {
    var relativePath := RelativePath(rel);
    if relativePath == "" then normalizedTargetDir
    else ReplaceBackslashes(Join(normalizedTargetDir, relativePath))
  }

  lemma {:induction false} AfterLastSlashOfName(prefix: string, name: string)
    requires '/' !in name
    requires prefix == "" || prefix[|prefix| - 1] == '/'
    ensures AfterLastSlash(prefix + name) == name
    decreases |name|
  {
    if name == "" {
      assert prefix + name == prefix;
    } else {
      var init := name[..|name| - 1];
      var last := name[|name| - 1];
      assert '/' !in init by {
        forall i | 0 <= i < |init| ensures init[i] != '/' { assert init[i] == name[i]; }
      }
      var p := prefix + name;
      assert name == init + [last];
      assert p == (prefix + init) + [last];
      assert p[..|p| - 1] == prefix + init;
      AfterLastSlashOfName(prefix, init);
    }
  }

  /** The basename of a joined entry path is the entry's own name. */
  lemma BasenameOfJoin(dir: string, name: string)
    requires ValidName(name)
    ensures Basename(Join(dir, name)) == name
  {
    var p := Join(dir, name);
    var prefix := if dir == "" then "" else if dir[|dir| - 1] == '/' then dir else dir + "/";
    assert p == prefix + name;
    assert p[|p| - 1] == name[|name| - 1];
    assert TrimTrailingSlashes(p) == p;
    AfterLastSlashOfName(prefix, name);
  }

  /** The basename is the last component: it holds no separator, and it is
      what follows the last `/` once trailing separators are dropped. */
  lemma BasenameShape(p: string)
    ensures '/' !in Basename(p)
    ensures var t := TrimTrailingSlashes(p);
      var b := Basename(p);
      |b| <= |t| && t == t[..|t| - |b|] + b && (|b| < |t| ==> t[|t| - |b| - 1] == '/')
  {
    var t := TrimTrailingSlashes(p);
    var b := AfterLastSlash(t);
    assert t == t[..|t| - |b|] + t[|t| - |b|..];
  }

  /** The basename is cut out of the path: a character absent from the path
      is absent from it. */
  lemma BasenameChars(p: string, c: char)
    requires c !in p
    ensures c !in Basename(p)
  {
    var t := TrimTrailingSlashes(p);
    assert c !in t by {
      forall i | 0 <= i < |t| ensures t[i] != c { assert t[i] == p[i]; }
    }
    var r := AfterLastSlash(t);
    forall i | 0 <= i < |r| ensures r[i] != c { assert r[i] == t[|t| - |r| + i]; }
  }

  /** The directory is a prefix of every path joined onto it. */
  lemma JoinExtends(dir: string, name: string)
    ensures |dir| <= |Join(dir, name)| && Join(dir, name)[..|dir|] == dir
  {
  }

  lemma {:induction false} JoinAllExtends(base: string, rel: seq<string>)
    ensures |base| <= |JoinAll(base, rel)| && JoinAll(base, rel)[..|base|] == base
    decreases |rel|
  {
    if rel != [] {
      var parent := JoinAll(base, rel[..|rel| - 1]);
      JoinAllExtends(base, rel[..|rel| - 1]);
      JoinExtends(parent, rel[|rel| - 1]);
    }
  }

  lemma NormalizeTargetIdempotent(targetDir: string)
    ensures NormalizeTarget(NormalizeTarget(targetDir)) == NormalizeTarget(targetDir)
  {
  }

  lemma {:induction false} RelativePathEmpty(rel: seq<string>)
    requires forall i :: 0 <= i < |rel| ==> ValidName(rel[i])
    ensures RelativePath(rel) == "" <==> rel == []
  {
    if |rel| == 1 {
      assert ValidName(rel[0]);
    } else if |rel| > 1 {
      assert ValidName(rel[0]);
      assert (rel[0] + "/" + RelativePath(rel[1..]))[0] == rel[0][0];
    }
  }

  lemma {:induction false} ReplaceBackslashesIdentity(s: string)
    requires '\\' !in s
    ensures ReplaceBackslashes(s) == s
  {
    if s != [] {
      assert s[1..] == s[1..] && '\\' !in s[1..] by {
        forall i | 0 <= i < |s[1..]| ensures s[1..][i] != '\\' { assert s[1..][i] == s[i + 1]; }
      }
      ReplaceBackslashesIdentity(s[1..]);
      assert s == [s[0]] + s[1..];
    }
  }

  /** A file directly under the base goes to the normalised target itself
      (with its trailing `/`); one in a nested directory goes to the target
      with the relative path appended, and with no backslash left. */
  lemma TargetForShape(targetDir: string, rel: seq<string>)
    requires forall i :: 0 <= i < |rel| ==> ValidName(rel[i])
    ensures rel == [] ==> TargetFor(NormalizeTarget(targetDir), rel) == NormalizeTarget(targetDir)
    ensures rel != [] ==>
      TargetFor(NormalizeTarget(targetDir), rel)
        == ReplaceBackslashes(NormalizeTarget(targetDir) + RelativePath(rel))
    ensures rel != [] ==> '\\' !in TargetFor(NormalizeTarget(targetDir), rel)
  {
    RelativePathEmpty(rel);
  }

  /** With no backslash in the normalised target, every file's remote
      directory lies below it: the replacement of backslashes only touches
      the relative part. */
  lemma TargetStaysUnder(normalizedTargetDir: string, rel: seq<string>)
    requires |normalizedTargetDir| > 0 && normalizedTargetDir[|normalizedTargetDir| - 1] == '/'
    requires '\\' !in normalizedTargetDir
    ensures |normalizedTargetDir| <= |TargetFor(normalizedTargetDir, rel)|
    ensures TargetFor(normalizedTargetDir, rel)[..|normalizedTargetDir|] == normalizedTargetDir
  {
    var relativePath := RelativePath(rel);
    if relativePath != "" {
      var joined := Join(normalizedTargetDir, relativePath);
      assert joined == normalizedTargetDir + relativePath;
      var t := ReplaceBackslashes(joined);
      forall i | 0 <= i < |normalizedTargetDir| ensures t[i] == normalizedTargetDir[i] {
        assert joined[i] == normalizedTargetDir[i];
      }
    }
  }

  /** Without backslashes in the inputs, a file at `a/b/c.txt` below the base
      lands in `R/a/b`: the normalised target followed by the relative path. */
  lemma TargetForPlain(targetDir: string, rel: seq<string>)
    requires forall i :: 0 <= i < |rel| ==> ValidName(rel[i])
    requires rel != []
    requires '\\' !in targetDir
    requires '\\' !in RelativePath(rel)
    ensures TargetFor(NormalizeTarget(targetDir), rel) == NormalizeTarget(targetDir) + RelativePath(rel)
  {
    TargetForShape(targetDir, rel);
    var n := NormalizeTarget(targetDir);
    var r := RelativePath(rel);
    assert n == targetDir || n == targetDir + "/";
    assert '\\' !in n;
    var t := n + r;
    assert '\\' !in t by {
      forall i | 0 <= i < |t| ensures t[i] != '\\' {
        if i < |n| {
          assert t[i] == n[i];
        } else {
          assert t[i] == r[i - |n|];
        }
      }
    }
    ReplaceBackslashesIdentity(t);
  }
}
