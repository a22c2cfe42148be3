/**
 * The scan: a top-down `os.walk` of the directory tree that prunes excluded
 * sub-directories before descending and keeps the files whose names carry a
 * configured suffix and match no exclude pattern.
 *
 * The file system is a value: a directory is its name, its sub-directories
 * and its file names, in listing order; a directory whose listing fails is
 * `Unreadable` and `os.walk` (called without an error handler) skips it.
 */
module Scan {
  import opened Strings
  import opened Glob
  import Paths

  datatype Node =
    | Dir(name: string, subdirs: seq<Node>, files: seq<string>)
    | Unreadable(name: string)

  /** The filters a scan applies: wanted suffixes, directory substrings, file-name patterns. */
  datatype ScanConfig = ScanConfig(extensions: seq<string>, excludeDirs: seq<string>, excludeFiles: seq<string>)

  /** `should_exclude_dir`: some exclude entry is a substring of the directory name. */
  predicate ExcludedDir(excludeDirs: seq<string>, dirName: string)
  {
    exists k :: 0 <= k < |excludeDirs| && Contains(dirName, excludeDirs[k])
  }

  /** `should_exclude_file`: no patterns excludes nothing; otherwise some pattern matches the name. */
  predicate ExcludedFile(excludeFiles: seq<string>, fileName: string)
  {
    if excludeFiles == [] then false
    else exists k :: 0 <= k < |excludeFiles| && FnMatch(fileName, excludeFiles[k])
  }

  /** The suffix test of the scan loop: the name ends with some configured extension. */
  predicate HasWantedSuffix(extensions: seq<string>, fileName: string)
  {
    exists k :: 0 <= k < |extensions| && EndsWith(fileName, extensions[k])
  }

  /** A file the scan records. */
  predicate Selected(cfg: ScanConfig, fileName: string)
  {
    HasWantedSuffix(cfg.extensions, fileName) && !ExcludedFile(cfg.excludeFiles, fileName)
  }

  /** Adding exclude entries can only turn a kept directory into a pruned one, never the reverse. */
  lemma {:induction false} ExcludedDirMonotone(excludeDirs: seq<string>, more: seq<string>, dirName: string)
    requires forall e :: e in excludeDirs ==> e in more
    requires ExcludedDir(excludeDirs, dirName)
    ensures ExcludedDir(more, dirName)
  {
    var k :| 0 <= k < |excludeDirs| && Contains(dirName, excludeDirs[k]);
    assert excludeDirs[k] in more;
    var m :| 0 <= m < |more| && more[m] == excludeDirs[k];
  }

  /** The files a directory listing contributes, in listing order. */
  function MatchingFiles(top: string, files: seq<string>, cfg: ScanConfig): seq<string>
  {
    if files == [] then []
    else
      var f := files[|files| - 1];
      MatchingFiles(top, files[..|files| - 1], cfg) + (if Selected(cfg, f) then [Paths.Join(top, f)] else [])
  }

  /**
   * The paths `os.walk(top)` leads the scan to record, in walk order: the
   * directory's own files, then each sub-directory that is not pruned.
   */
  function Walk(top: string, n: Node, cfg: ScanConfig): seq<string>
    decreases n
  {
    match n
    case Unreadable(_) => []
    case Dir(_, subdirs, files) => MatchingFiles(top, files, cfg) + WalkAll(top, subdirs, cfg)
  }

  /** The walks of the sub-directories of `parent` that survive pruning, in listing order. */
  function WalkAll(parent: string, dirs: seq<Node>, cfg: ScanConfig): seq<string>
    decreases dirs
  {
    if dirs == [] then []
    else
      (if ExcludedDir(cfg.excludeDirs, dirs[0].name) then [] else Walk(Paths.Join(parent, dirs[0].name), dirs[0], cfg))
      + WalkAll(parent, dirs[1..], cfg)
  }

  /** The sub-directories that survive pruning, in listing order; the walk descends into these only. */
  function Prune(dirs: seq<Node>, excludeDirs: seq<string>): (kept: seq<Node>)
    ensures forall d :: d in kept <==> d in dirs && !ExcludedDir(excludeDirs, d.name)
  {
    if dirs == [] then []
    else (if ExcludedDir(excludeDirs, dirs[0].name) then [] else [dirs[0]]) + Prune(dirs[1..], excludeDirs)
  }

  /** Directories still to be walked, each with the path it is walked under. */
  function Pending(parent: string, dirs: seq<Node>): (items: seq<(string, Node)>)
    ensures |items| == |dirs|
    ensures forall k :: 0 <= k < |dirs| ==> items[k] == (Paths.Join(parent, dirs[k].name), dirs[k])
  {
    if dirs == [] then [] else [(Paths.Join(parent, dirs[0].name), dirs[0])] + Pending(parent, dirs[1..])
  }

  /** The paths still to be recorded for a stack of pending directories, top of the stack first. */
  function WalkItems(items: seq<(string, Node)>, cfg: ScanConfig): seq<string>
  {
    if items == [] then [] else Walk(items[0].0, items[0].1, cfg) + WalkItems(items[1..], cfg)
  }

  lemma {:induction false} WalkItemsAppend(a: seq<(string, Node)>, b: seq<(string, Node)>, cfg: ScanConfig)
    ensures WalkItems(a + b, cfg) == WalkItems(a, cfg) + WalkItems(b, cfg)
    decreases |a|
  {
    if a == [] {
      assert a + b == b;
    } else {
      assert (a + b)[1..] == a[1..] + b;
      WalkItemsAppend(a[1..], b, cfg);
    }
  }

  /** Pushing the pruned sub-directories leaves exactly the walks of the kept ones to do. */
  lemma {:induction false} WalkAllPruned(parent: string, dirs: seq<Node>, cfg: ScanConfig)
    ensures WalkAll(parent, dirs, cfg) == WalkItems(Pending(parent, Prune(dirs, cfg.excludeDirs)), cfg)
    decreases |dirs|
  {
    if dirs != [] {
      WalkAllPruned(parent, dirs[1..], cfg);
      var rest := Prune(dirs[1..], cfg.excludeDirs);
      if !ExcludedDir(cfg.excludeDirs, dirs[0].name) {
        assert ([dirs[0]] + rest)[1..] == rest;
        var items := Pending(parent, [dirs[0]] + rest);
        assert items[1..] == Pending(parent, rest);
      } else {
        assert [] + rest == rest;
      }
    }
  }

  /** The number of directories in a tree: the measure the scan loop decreases. */
  function Size(n: Node): nat
    decreases n
  {
    match n
    case Unreadable(_) => 1
    case Dir(_, subdirs, _) => 1 + SizeAll(subdirs)
  }

  function SizeAll(dirs: seq<Node>): nat
    decreases dirs
  {
    if dirs == [] then 0 else Size(dirs[0]) + SizeAll(dirs[1..])
  }

  function SizeItems(items: seq<(string, Node)>): nat
  {
    if items == [] then 0 else Size(items[0].1) + SizeItems(items[1..])
  }

  lemma {:induction false} SizeItemsAppend(a: seq<(string, Node)>, b: seq<(string, Node)>)
    ensures SizeItems(a + b) == SizeItems(a) + SizeItems(b)
    decreases |a|
  {
    if a == [] {
      assert a + b == b;
    } else {
      assert (a + b)[1..] == a[1..] + b;
      SizeItemsAppend(a[1..], b);
    }
  }

  /** Pruning never adds directories to walk. */
  lemma {:induction false} SizePruned(parent: string, dirs: seq<Node>, excludeDirs: seq<string>)
    ensures SizeItems(Pending(parent, Prune(dirs, excludeDirs))) <= SizeAll(dirs)
    decreases |dirs|
  {
    if dirs != [] {
      SizePruned(parent, dirs[1..], excludeDirs);
      var rest := Prune(dirs[1..], excludeDirs);
      if !ExcludedDir(excludeDirs, dirs[0].name) {
        assert ([dirs[0]] + rest)[1..] == rest;
        var items := Pending(parent, [dirs[0]] + rest);
        assert items[1..] == Pending(parent, rest);
      } else {
        assert [] + rest == rest;
      }
    }
  }

  /** Recording a directory's files and then the rest is recording both in turn. */
  lemma {:induction false} RecordThenRest(before: seq<string>, recorded: seq<string>, later: seq<string>)
    ensures (before + recorded) + later == before + (recorded + later)
  {
  }

  /** An unreadable directory on top of the stack contributes nothing. */
  lemma {:induction false} WalkItemsSkip(stack: seq<(string, Node)>, cfg: ScanConfig)
    requires stack != [] && stack[0].1.Unreadable?
    ensures WalkItems(stack, cfg) == WalkItems(stack[1..], cfg)
    ensures SizeItems(stack[1..]) < SizeItems(stack)
  {
    assert [] + WalkItems(stack[1..], cfg) == WalkItems(stack[1..], cfg);
  }

  /**
   * One step of the scan: the readable directory on top of the stack records
   * its own files and gives way to its kept sub-directories, which are
   * fewer than the directories it held.
   */
  lemma {:induction false} WalkItemsStep(stack: seq<(string, Node)>, cfg: ScanConfig)
    requires stack != [] && stack[0].1.Dir?
    ensures var pushed := Pending(stack[0].0, Prune(stack[0].1.subdirs, cfg.excludeDirs));
            WalkItems(stack, cfg) == MatchingFiles(stack[0].0, stack[0].1.files, cfg) + WalkItems(pushed + stack[1..], cfg)
            && SizeItems(pushed + stack[1..]) < SizeItems(stack)
  {
    var top := stack[0].0;
    var subdirs := stack[0].1.subdirs;
    var pushed := Pending(top, Prune(subdirs, cfg.excludeDirs));
    WalkAllPruned(top, subdirs, cfg);
    WalkItemsAppend(pushed, stack[1..], cfg);
    SizePruned(top, subdirs, cfg.excludeDirs);
    SizeItemsAppend(pushed, stack[1..]);
  }

  // ---------------------------------------------------------------------
  // What the walk records, stated without the walk: every file reachable
  // through non-pruned directories whose name passes the filters.
  // ---------------------------------------------------------------------

  /** `f` is a file of the directory reached from `n` by following the sub-directory names in `chain`. */
  ghost predicate Reaches(n: Node, chain: seq<string>, f: string)
    decreases |chain|
  {
    n.Dir? &&
    if chain == [] then f in n.files
    else exists k :: 0 <= k < |n.subdirs| && n.subdirs[k].name == chain[0] && Reaches(n.subdirs[k], chain[1..], f)
  }

  /** The path of that file when `n` is walked under `top`. */
  function PathOf(top: string, chain: seq<string>, f: string): string
    decreases |chain|
  {
    if chain == [] then Paths.Join(top, f) else PathOf(Paths.Join(top, chain[0]), chain[1..], f)
  }

  /** No directory on the way is pruned (the top itself is never tested). */
  ghost predicate NotPruned(cfg: ScanConfig, chain: seq<string>)
  {
    forall k :: 0 <= k < |chain| ==> !ExcludedDir(cfg.excludeDirs, chain[k])
  }

  lemma {:induction false} MatchingFilesMembers(top: string, files: seq<string>, cfg: ScanConfig, x: string)
    ensures x in MatchingFiles(top, files, cfg) <==> exists f :: f in files && Selected(cfg, f) && x == Paths.Join(top, f)
    decreases |files|
  {
    if files != [] {
      var init := files[..|files| - 1];
      var f := files[|files| - 1];
      MatchingFilesMembers(top, init, cfg, x);
      assert files == init + [f];
    }
  }

  lemma {:induction false} WalkAllContains(parent: string, dirs: seq<Node>, k: nat, cfg: ScanConfig, x: string)
    requires k < |dirs| && !ExcludedDir(cfg.excludeDirs, dirs[k].name)
    requires x in Walk(Paths.Join(parent, dirs[k].name), dirs[k], cfg)
    ensures x in WalkAll(parent, dirs, cfg)
    decreases k
  {
    if k > 0 {
      WalkAllContains(parent, dirs[1..], k - 1, cfg, x);
    }
  }

  lemma {:induction false} WalkAllMember(parent: string, dirs: seq<Node>, cfg: ScanConfig, x: string)
    requires x in WalkAll(parent, dirs, cfg)
    ensures exists k :: 0 <= k < |dirs| && !ExcludedDir(cfg.excludeDirs, dirs[k].name)
                        && x in Walk(Paths.Join(parent, dirs[k].name), dirs[k], cfg)
    decreases |dirs|
  {
    if !(!ExcludedDir(cfg.excludeDirs, dirs[0].name) && x in Walk(Paths.Join(parent, dirs[0].name), dirs[0], cfg)) {
      WalkAllMember(parent, dirs[1..], cfg, x);
      var k :| 0 <= k < |dirs[1..]| && !ExcludedDir(cfg.excludeDirs, dirs[1..][k].name)
               && x in Walk(Paths.Join(parent, dirs[1..][k].name), dirs[1..][k], cfg);
      assert dirs[1..][k] == dirs[k + 1];
    }
  }

  /** Completeness: every selected file below non-pruned directories is recorded. */
  lemma {:induction false} WalkComplete(top: string, n: Node, chain: seq<string>, f: string, cfg: ScanConfig)
    requires Reaches(n, chain, f) && NotPruned(cfg, chain) && Selected(cfg, f)
    ensures PathOf(top, chain, f) in Walk(top, n, cfg)
    decreases |chain|
  {
    if chain == [] {
      MatchingFilesMembers(top, n.files, cfg, Paths.Join(top, f));
    } else {
      var k :| 0 <= k < |n.subdirs| && n.subdirs[k].name == chain[0] && Reaches(n.subdirs[k], chain[1..], f);
      assert NotPruned(cfg, chain[1..]) by {
        forall m | 0 <= m < |chain[1..]| ensures !ExcludedDir(cfg.excludeDirs, chain[1..][m]) {
          assert chain[1..][m] == chain[m + 1];
        }
      }
      WalkComplete(Paths.Join(top, chain[0]), n.subdirs[k], chain[1..], f, cfg);
      assert !ExcludedDir(cfg.excludeDirs, chain[0]);
      WalkAllContains(top, n.subdirs, k, cfg, PathOf(top, chain, f));
    }
  }

  /**
   * Soundness: every recorded path belongs to a selected file reached through
   * directories none of which is pruned; a pruned directory is never entered.
   */
  lemma {:induction false} WalkSound(top: string, n: Node, cfg: ScanConfig, x: string)
    requires x in Walk(top, n, cfg)
    ensures exists chain, f :: Reaches(n, chain, f) && NotPruned(cfg, chain) && Selected(cfg, f) && x == PathOf(top, chain, f)
    decreases n
  {
    var files := n.files;
    if x in MatchingFiles(top, files, cfg) {
      MatchingFilesMembers(top, files, cfg, x);
      var f :| f in files && Selected(cfg, f) && x == Paths.Join(top, f);
      assert Reaches(n, [], f) && NotPruned(cfg, []) && x == PathOf(top, [], f);
    } else {
      WalkAllMember(top, n.subdirs, cfg, x);
      var k :| 0 <= k < |n.subdirs| && !ExcludedDir(cfg.excludeDirs, n.subdirs[k].name)
               && x in Walk(Paths.Join(top, n.subdirs[k].name), n.subdirs[k], cfg);
      var child := n.subdirs[k];
      WalkSound(Paths.Join(top, child.name), child, cfg, x);
      var rest, f :| Reaches(child, rest, f) && NotPruned(cfg, rest) && Selected(cfg, f)
                     && x == PathOf(Paths.Join(top, child.name), rest, f);
      var chain := [child.name] + rest;
      assert chain[1..] == rest;
      assert Reaches(n, chain, f);
      assert NotPruned(cfg, chain) by {
        forall m | 0 <= m < |chain| ensures !ExcludedDir(cfg.excludeDirs, chain[m]) {
          if m > 0 {
            assert chain[m] == rest[m - 1];
          }
        }
      }
      assert x == PathOf(top, chain, f);
    }
  }

  /** The walk records exactly the selected files below non-pruned directories. */
  lemma {:induction false} WalkMembers(top: string, n: Node, cfg: ScanConfig, x: string)
    ensures x in Walk(top, n, cfg) <==>
            exists chain, f :: Reaches(n, chain, f) && NotPruned(cfg, chain) && Selected(cfg, f) && x == PathOf(top, chain, f)
  {
    if x in Walk(top, n, cfg) {
      WalkSound(top, n, cfg, x);
    }
    if exists chain, f :: Reaches(n, chain, f) && NotPruned(cfg, chain) && Selected(cfg, f) && x == PathOf(top, chain, f) {
      var chain, f :| Reaches(n, chain, f) && NotPruned(cfg, chain) && Selected(cfg, f) && x == PathOf(top, chain, f);
      WalkComplete(top, n, chain, f, cfg);
    }
  }

  // ---------------------------------------------------------------------
  // Where a recorded file sits relative to the top of the walk.
  // ---------------------------------------------------------------------

  /** A name a directory listing can hold: not empty and without `/`. */
  predicate ValidName(name: string)
  {
    name != "" && '/' !in name
  }

  lemma {:induction false} JoinFirstChar(parts: seq<string>)
    requires parts != [] && forall k :: 0 <= k < |parts| ==> ValidName(parts[k])
    ensures parts[0] != "" && Strings.Join("/", parts) != "" && Strings.Join("/", parts)[0] == parts[0][0]
  {
    assert ValidName(parts[0]);
  }

  /** A path that ends in a name gets one `/` before a relative tail. */
  lemma {:induction false} JoinAfterName(j: string, name: string, tail: string)
    requires ValidName(name) && EndsWith(j, name) && tail != "" && tail[0] != '/'
    ensures Paths.Join(j, tail) == j + "/" + tail
  {
    assert name[|name| - 1] in name;
    assert j[|j| - 1] == name[|name| - 1];
    assert j[|j| - 1..] == [j[|j| - 1]] && tail[..1] == [tail[0]];
  }

  /** A name does not start with `/`, nor does the name followed by a tail. */
  lemma {:induction false} NameFirst(name: string, tail: string)
    requires ValidName(name)
    ensures !StartsWith(name, "/") && !StartsWith(name + "/" + tail, "/")
  {
    assert name[0] in name;
    assert name[..1] == [name[0]] && (name + "/" + tail)[..1] == [name[0]];
  }

  /** Joining a name and then a relative path is joining their `/`-separated concatenation. */
  lemma {:induction false} JoinJoin(top: string, name: string, tail: string)
    requires ValidName(name) && tail != "" && tail[0] != '/'
    ensures Paths.Join(Paths.Join(top, name), tail) == Paths.Join(top, name + "/" + tail)
  {
    NameFirst(name, tail);
    if top == "" || EndsWith(top, "/") {
      assert EndsWith(top + name, name);
      JoinAfterName(top + name, name, tail);
      assert (top + name) + "/" + tail == top + (name + "/" + tail);
    } else {
      assert EndsWith(top + "/" + name, name);
      JoinAfterName(top + "/" + name, name, tail);
      assert (top + "/" + name) + "/" + tail == top + "/" + (name + "/" + tail);
    }
  }

  /**
   * A file reached through `chain` is recorded as the top joined with the
   * names on the way and the file name, separated by `/`.
   */
  lemma {:induction false} PathOfUnderTop(top: string, chain: seq<string>, f: string)
    requires forall k :: 0 <= k < |chain| ==> ValidName(chain[k])
    requires ValidName(f)
    ensures PathOf(top, chain, f) == Paths.Join(top, Strings.Join("/", chain + [f]))
    decreases |chain|
  {
    var parts := chain + [f];
    if chain == [] {
      assert parts == [f];
    } else {
      var rest := chain[1..];
      PathOfUnderTop(Paths.Join(top, chain[0]), rest, f);
      assert parts[1..] == rest + [f];
      var tail := Strings.Join("/", rest + [f]);
      JoinFirstChar(rest + [f]);
      JoinJoin(top, chain[0], tail);
    }
  }

  /** The path relative to the top, as `os.path.relpath` gives it back for a recorded file. */
  lemma {:induction false} RelPathOfRecorded(top: string, chain: seq<string>, f: string)
    requires forall k :: 0 <= k < |chain| ==> ValidName(chain[k])
    requires ValidName(f)
    ensures Paths.RelPath(PathOf(top, chain, f), top) == Strings.Join("/", chain + [f])
  {
    PathOfUnderTop(top, chain, f);
    JoinFirstChar(chain + [f]);
    Paths.RelPathOfJoin(top, Strings.Join("/", chain + [f]));
  }

  // ---------------------------------------------------------------------
  // The filters on concrete names.
  // ---------------------------------------------------------------------

  /** Directory exclusion is a substring test: `export` also prunes `exports`, `.git` also prunes `.github`. */
  lemma ExcludedDirBySubstring()
    ensures ExcludedDir(["export"], "exports")
    ensures ExcludedDir([".git", "node_modules", "__pycache__"], ".github")
    ensures !ExcludedDir(["node_modules"], "src")
  {
    assert ["export"][0] == "export" && StartsWith("exports", "export");
    assert [".git", "node_modules", "__pycache__"][0] == ".git" && StartsWith(".github", ".git");
    assert !Contains("src", "node_modules");
  }

  /** An empty exclude entry is a substring of every name, so it prunes every sub-directory. */
  lemma {:induction false} EmptyEntryPrunesAll(excludeDirs: seq<string>, dirName: string)
    requires "" in excludeDirs
    ensures ExcludedDir(excludeDirs, dirName)
  {
    var k :| 0 <= k < |excludeDirs| && excludeDirs[k] == "";
    ContainsEmpty(dirName);
  }

  /** A pattern `*` followed by plain text excludes exactly the names ending in that text. */
  lemma {:induction false} ExcludedFileBySuffixPattern(suffix: string, fileName: string)
    requires Plain(suffix)
    ensures ExcludedFile(["*" + suffix], fileName) <==> EndsWith(fileName, suffix)
  {
    FnMatchStarSuffix(fileName, suffix);
    assert ["*" + suffix][0] == "*" + suffix;
  }

  /** With no patterns no file is excluded. */
  lemma {:induction false} NoPatternsExcludeNothing(fileName: string)
    ensures !ExcludedFile([], fileName)
  {
  }

  /**
   * The suffix test is a plain, case-sensitive `endswith`: `.ts` does not take
   * `foo.tsx`, `.py` does not take `A.PY`, and `.gz` takes `archive.tar.gz`.
   */
  lemma SuffixTestExamples()
    ensures !HasWantedSuffix([".ts"], "foo.tsx")
    ensures !HasWantedSuffix([".py"], "A.PY")
    ensures HasWantedSuffix([".gz"], "archive.tar.gz")
  {
    assert "foo.tsx"[4..] == "tsx";
    assert [".gz"][0] == ".gz" && "archive.tar.gz"[11..] == ".gz";
  }

  /** The configuration of the example scans: `.py` files, default exclusions. */
  function ExampleConfig(): ScanConfig
  {
    ScanConfig([".py"], [".git", "node_modules", "__pycache__"], [])
  }

  /** `sub` holding `b.py` and `node_modules/c.py`: the walk records `b.py` and prunes `node_modules`. */
  lemma ExampleSubdir()
    ensures Walk("/proj/sub", Dir("sub", [Dir("node_modules", [], ["c.py"])], ["b.py"]), ExampleConfig())
            == ["/proj/sub/b.py"]
  {
    var cfg := ExampleConfig();
    var modules := Dir("node_modules", [], ["c.py"]);
    assert Selected(cfg, "b.py") by {
      assert [".py"][0] == ".py" && "b.py"[1..] == ".py";
    }
    assert ExcludedDir(cfg.excludeDirs, "node_modules") by {
      assert cfg.excludeDirs[1] == "node_modules" && StartsWith("node_modules", "node_modules");
    }
    assert "b.py"[..1] == "b" && "/proj/sub"[8..] == "b";
    assert Paths.Join("/proj/sub", "b.py") == "/proj/sub/b.py";
    assert MatchingFiles("/proj/sub", ["b.py"], cfg) == ["/proj/sub/b.py"];
    assert WalkAll("/proj/sub", [modules], cfg) == [];
  }

  /**
   * A project holding `a.py`, `sub/b.py` and `sub/node_modules/c.py`, scanned
   * for `.py` with the default exclusions: `c.py` is never reached.
   */
  lemma ExampleScan()
    ensures Walk("/proj",
                 Dir("proj", [Dir("sub", [Dir("node_modules", [], ["c.py"])], ["b.py"])], ["a.py"]),
                 ExampleConfig())
            == ["/proj/a.py", "/proj/sub/b.py"]
  {
    var cfg := ExampleConfig();
    var sub := Dir("sub", [Dir("node_modules", [], ["c.py"])], ["b.py"]);
    assert MatchingFiles("/proj", ["a.py"], cfg) == ["/proj/a.py"] by {
      assert Selected(cfg, "a.py") by {
        assert [".py"][0] == ".py" && "a.py"[1..] == ".py";
      }
      assert "a.py"[..1] == "a" && "/proj"[4..] == "j";
      assert Paths.Join("/proj", "a.py") == "/proj/a.py";
    }
    assert WalkAll("/proj", [sub], cfg) == ["/proj/sub/b.py"] by {
      assert !ExcludedDir(cfg.excludeDirs, "sub") by {
        assert !Contains("sub", ".git") && !Contains("sub", "node_modules") && !Contains("sub", "__pycache__");
      }
      assert "sub"[..1] == "s" && "/proj"[4..] == "j";
      assert Paths.Join("/proj", "sub") == "/proj/sub";
      ExampleSubdir();
    }
  }
}
