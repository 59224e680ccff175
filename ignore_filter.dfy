/** The ignore filter: a local path is left out of the upload when some
    pattern occurs in it as a substring, or equals its basename. */
module IgnoreFilter {
  import opened Paths

  /** The patterns the client is constructed with; the directory markers
      carry a trailing `/`. */
  const DefaultIgnoreFiles: seq<string> := ["node_modules/", ".git/", ".vscode/", ".env", ".env.local"]

  /** `pat` occurs in `s` starting at offset `i`. */
  predicate OccursAt(s: string, pat: string, i: nat)
  {
    i + |pat| <= |s| && s[i..i + |pat|] == pat
  }

  /** `s.includes(pat)`. */
  function Includes(s: string, pat: string): (r: bool)
    ensures r <==> exists i: nat :: OccursAt(s, pat, i)
    decreases |s|
  {
    if |pat| > |s| then false
    else if s[..|pat|] == pat then (assert OccursAt(s, pat, 0); true)
    else
      var r := Includes(s[1..], pat);
      OccurrenceShift(s, pat);
      r
  }

  /** Without a match at offset 0, `pat` occurs in `s` exactly when it occurs
      in `s[1..]`. */
  lemma OccurrenceShift(s: string, pat: string)
    requires |pat| <= |s| && s[..|pat|] != pat
    ensures (exists i: nat :: OccursAt(s, pat, i)) <==> (exists i: nat :: OccursAt(s[1..], pat, i))
  {
    if exists i: nat :: OccursAt(s, pat, i) {
      var i: nat :| OccursAt(s, pat, i);
      assert i != 0;
      assert s[1..][i - 1..i - 1 + |pat|] == s[i..i + |pat|];
      assert OccursAt(s[1..], pat, i - 1);
    }
    if exists i: nat :: OccursAt(s[1..], pat, i) {
      var i: nat :| OccursAt(s[1..], pat, i);
      assert s[1..][i..i + |pat|] == s[i + 1..i + 1 + |pat|];
      assert OccursAt(s, pat, i + 1);
    }
  }

  /** One pattern's test: substring of the path, or equal to its basename. */
  predicate Matches(pattern: string, filePath: string)
  {
    Includes(filePath, pattern) || Basename(filePath) == pattern
  }

  /** `ignoreFiles.some(pattern => ...)`, pattern by pattern in list order. */
  function ShouldIgnore(ignoreFiles: seq<string>, filePath: string): (r: bool)
    ensures r <==> exists k :: 0 <= k < |ignoreFiles| && Matches(ignoreFiles[k], filePath)
  {
    if ignoreFiles == [] then false
    else
      var rest := ShouldIgnore(ignoreFiles[1..], filePath);
      SomeStep(ignoreFiles, filePath);
      Matches(ignoreFiles[0], filePath) || rest
  }

  lemma SomeStep(ignoreFiles: seq<string>, filePath: string)
    requires ignoreFiles != []
    ensures (exists k :: 0 <= k < |ignoreFiles| && Matches(ignoreFiles[k], filePath))
        <==> (Matches(ignoreFiles[0], filePath)
              || exists k :: 0 <= k < |ignoreFiles[1..]| && Matches(ignoreFiles[1..][k], filePath))
  {
    if exists k :: 0 <= k < |ignoreFiles| && Matches(ignoreFiles[k], filePath) {
      var k :| 0 <= k < |ignoreFiles| && Matches(ignoreFiles[k], filePath);
      if k > 0 { assert ignoreFiles[1..][k - 1] == ignoreFiles[k]; }
    }
    if exists k :: 0 <= k < |ignoreFiles[1..]| && Matches(ignoreFiles[1..][k], filePath) {
      var k :| 0 <= k < |ignoreFiles[1..]| && Matches(ignoreFiles[1..][k], filePath);
      assert ignoreFiles[1..][k] == ignoreFiles[k + 1];
    }
  }

  /** The patterns combine by a logical OR: splitting the list splits the test. */
  lemma ShouldIgnoreConcat(a: seq<string>, b: seq<string>, filePath: string)
    ensures ShouldIgnore(a + b, filePath) == (ShouldIgnore(a, filePath) || ShouldIgnore(b, filePath))
  {
    if ShouldIgnore(a, filePath) {
      var k :| 0 <= k < |a| && Matches(a[k], filePath);
      assert (a + b)[k] == a[k];
    }
    if ShouldIgnore(b, filePath) {
      var k :| 0 <= k < |b| && Matches(b[k], filePath);
      assert (a + b)[|a| + k] == b[k];
    }
    if ShouldIgnore(a + b, filePath) {
      var k :| 0 <= k < |a + b| && Matches((a + b)[k], filePath);
      if k >= |a| { assert (a + b)[k] == b[k - |a|]; } else { assert (a + b)[k] == a[k]; }
    }
  }

  lemma IncludesInPrefix(s: string, t: string, pat: string)
    requires Includes(s, pat)
    ensures Includes(s + t, pat)
  {
    var i: nat :| OccursAt(s, pat, i);
    assert (s + t)[i..i + |pat|] == s[i..i + |pat|];
    assert OccursAt(s + t, pat, i);
  }

  /** Once a directory's path contains a pattern, so does every path below
      it: the whole subtree is ignored, whatever is in it. */
  lemma IgnoredBelowMatchingPath(ignoreFiles: seq<string>, dir: string, k: nat, below: string)
    requires k < |ignoreFiles| && Includes(dir, ignoreFiles[k])
    requires |dir| <= |below| && below[..|dir|] == dir
    ensures ShouldIgnore(ignoreFiles, below)
  {
    IncludesInPrefix(dir, below[|dir|..], ignoreFiles[k]);
    assert dir + below[|dir|..] == below;
    assert Matches(ignoreFiles[k], below);
  }

  /** A directory entry itself is not caught by a `name/` pattern through its
      basename, but every entry inside it is caught by the substring test. */
  lemma ChildOfMarkedDirectoryIgnored(ignoreFiles: seq<string>, k: nat, dir: string, name: string, child: string)
    requires k < |ignoreFiles| && ignoreFiles[k] == name + "/"
    requires ValidName(name)
    ensures ShouldIgnore(ignoreFiles, Join(Join(dir, name), child))
  {
    var d := Join(dir, name);
    var prefix := if dir == "" then "" else if dir[|dir| - 1] == '/' then dir else dir + "/";
    assert d == prefix + name;
    assert d[|d| - 1] == name[|name| - 1];
    var p := Join(d, child);
    assert p == prefix + (name + "/") + child;
    assert p[|prefix|..|prefix| + |name + "/"|] == name + "/";
    assert OccursAt(p, ignoreFiles[k], |prefix|);
    assert Matches(ignoreFiles[k], p);
  }

  /** A pattern with some character absent from `s` does not occur in it. */
  lemma CharAbsent(s: string, pat: string, j: nat)
    requires j < |pat| && pat[j] !in s
    ensures !Includes(s, pat)
  {
    forall i: nat | i + |pat| <= |s| ensures !OccursAt(s, pat, i) {
      assert s[i..i + |pat|][j] == s[i + j] != pat[j];
    }
  }

  /** A path no pattern occurs in, with a basename that is no pattern, is
      uploaded. */
  lemma NoPatternMatches(ignoreFiles: seq<string>, filePath: string)
    requires forall k :: 0 <= k < |ignoreFiles| ==> !Includes(filePath, ignoreFiles[k])
    requires Basename(filePath) !in ignoreFiles
    ensures !ShouldIgnore(ignoreFiles, filePath)
  {
  }

  /** `parent/node_modules` has no `.`, and its only `/` is the one after
      `parent`, so `node_modules/` could occur in it only as the end of
      `parent` followed by that `/`. */
  lemma NodeModulesEntryChars(parent: string)
    requires parent != "" && '/' !in parent && '.' !in parent
    requires !(|parent| >= 12 && parent[|parent| - 12..] == "node_modules")
    ensures var entry := Join(parent, "node_modules");
      '.' !in entry && !Includes(entry, "node_modules/")
  {
    var marker := "node_modules";
    var pat := "node_modules/";
    var entry := Join(parent, marker);
    assert parent[|parent| - 1] != '/';
    assert entry == parent + "/" + marker;
    assert '.' !in marker && '/' !in marker;
    forall j | 0 <= j < |entry| ensures entry[j] != '.' {
      if j < |parent| { assert entry[j] == parent[j]; }
      else if j > |parent| { assert entry[j] == marker[j - |parent| - 1]; }
    }
    forall i: nat | i + |pat| <= |entry| ensures !OccursAt(entry, pat, i) {
      if i + 12 == |parent| {
        assert entry[i..i + 12] == parent[|parent| - 12..];
        assert entry[i..i + |pat|][..12] == entry[i..i + 12];
        assert pat[..12] == marker;
      } else if i + 12 < |parent| {
        assert entry[i..i + |pat|][12] == parent[i + 12];
      } else {
        assert entry[i..i + |pat|][12] == marker[i + 12 - |parent| - 1];
      }
    }
  }

  /** The directory pattern `node_modules/` does not catch a directory entry
      `src/node_modules` (for any parent name like `src` without `/` or `.`
      that does not itself end in `node_modules`), but does catch every entry
      inside it, such as `src/node_modules/x`. */
  lemma NodeModulesEntryVersusChild(parent: string, child: string)
    requires parent != "" && '/' !in parent && '.' !in parent
    requires !(|parent| >= 12 && parent[|parent| - 12..] == "node_modules")
    ensures !ShouldIgnore(DefaultIgnoreFiles, Join(parent, "node_modules"))
    ensures ShouldIgnore(DefaultIgnoreFiles, Join(Join(parent, "node_modules"), child))
  {
    var entry := Join(parent, "node_modules");
    BasenameOfJoin(parent, "node_modules");
    NodeModulesEntryChars(parent);
    CharAbsent(entry, ".git/", 0);
    CharAbsent(entry, ".vscode/", 0);
    CharAbsent(entry, ".env", 0);
    CharAbsent(entry, ".env.local", 0);
    NoPatternMatches(DefaultIgnoreFiles, entry);
    ChildOfMarkedDirectoryIgnored(DefaultIgnoreFiles, 0, parent, "node_modules", child);
  }

  /** Each default pattern holds one of the letters `o`, `g` and `v`. */
  lemma NoDefaultPatternWithout(s: string)
    requires 'o' !in s && 'g' !in s && 'v' !in s
    ensures forall k :: 0 <= k < |DefaultIgnoreFiles| ==> !Includes(s, DefaultIgnoreFiles[k])
    ensures s !in DefaultIgnoreFiles
  {
    CharAbsent(s, "node_modules/", 1);
    CharAbsent(s, ".git/", 1);
    CharAbsent(s, ".vscode/", 1);
    CharAbsent(s, ".env", 3);
    CharAbsent(s, ".env.local", 3);
  }

  /** A path without the letters `o`, `g` and `v` is uploaded: no default
      pattern occurs in it or equals its basename. */
  lemma NotIgnoredByDefaultChars(filePath: string)
    requires 'o' !in filePath && 'g' !in filePath && 'v' !in filePath
    ensures !ShouldIgnore(DefaultIgnoreFiles, filePath)
  {
    NoDefaultPatternWithout(filePath);
    BasenameChars(filePath, 'o');
    BasenameChars(filePath, 'g');
    BasenameChars(filePath, 'v');
    NoDefaultPatternWithout(Basename(filePath));
    NoPatternMatches(DefaultIgnoreFiles, filePath);
  }

  /** In a build output `www`: `www/index.html`, `www/assets` and
      `www/assets/app.js` are uploaded. */
  lemma ExamplePageUploaded()
    ensures !ShouldIgnore(DefaultIgnoreFiles, Join("www", "index.html"))
  {
    var p := Join("www", "index.html");
    assert p == "www" + "/" + "index.html";
    NotIgnoredByDefaultChars(p);
  }

  lemma ExampleAssetsUploaded()
    ensures !ShouldIgnore(DefaultIgnoreFiles, Join("www", "assets"))
  {
    var d := Join("www", "assets");
    assert d == "www" + "/" + "assets";
    NotIgnoredByDefaultChars(d);
  }

  lemma ExampleScriptUploaded()
    ensures !ShouldIgnore(DefaultIgnoreFiles, Join(Join("www", "assets"), "app.js"))
  {
    var d := Join("www", "assets");
    assert d == "www" + "/" + "assets";
    var p := Join(d, "app.js");
    assert p == d + "/" + "app.js";
    assert 'o' !in d && 'g' !in d && 'v' !in d;
    NotIgnoredByDefaultChars(p);
  }

  /** An entry whose name is itself a pattern is ignored, in any directory. */
  lemma NamedEntryIgnored(ignoreFiles: seq<string>, k: nat, dir: string, name: string)
    requires k < |ignoreFiles| && ignoreFiles[k] == name && ValidName(name)
    ensures ShouldIgnore(ignoreFiles, Join(dir, name))
  {
    BasenameOfJoin(dir, name);
    assert Matches(ignoreFiles[k], Join(dir, name));
  }

  /** `www/.env` is not uploaded: its basename is a pattern. */
  lemma ExampleSecretIgnored()
    ensures ShouldIgnore(DefaultIgnoreFiles, Join("www", ".env"))
  {
    assert DefaultIgnoreFiles[3] == ".env";
    NamedEntryIgnored(DefaultIgnoreFiles, 3, "www", ".env");
  }

  /** The pattern `.env.local` never changes the verdict: every path it
      catches, `.env` catches too. */
  lemma EnvLocalIsRedundant(filePath: string)
    ensures ShouldIgnore(DefaultIgnoreFiles, filePath) == ShouldIgnore(DefaultIgnoreFiles[..4], filePath)
  {
    assert DefaultIgnoreFiles == DefaultIgnoreFiles[..4] + [".env.local"];
    ShouldIgnoreConcat(DefaultIgnoreFiles[..4], [".env.local"], filePath);
    if Matches(".env.local", filePath) {
      var j: nat;
      if Includes(filePath, ".env.local") {
        j :| OccursAt(filePath, ".env.local", j);
      } else {
        var t := TrimTrailingSlashes(filePath);
        assert AfterLastSlash(t) == ".env.local";
        j := |t| - 10;
        assert filePath[j..j + 10] == t[j..j + 10];
      }
      assert filePath[j..j + 4] == filePath[j..j + 10][..4];
      assert OccursAt(filePath, ".env", j);
      assert DefaultIgnoreFiles[..4][3] == ".env";
      assert Matches(DefaultIgnoreFiles[..4][3], filePath);
    }
  }
}
