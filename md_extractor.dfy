/**
 * The file concatenator: its configuration (extension normalisation, the
 * `all` shortcut, the default exclusions, the output file name), the scan
 * that fills `filesFound`, and the writing of the report. The tree under the
 * source directory, the working directory, the date, the timestamp and the
 * text of each file are given as parameters; the report is returned as the
 * text the program writes to the output file, all writes concatenated.
 */
module MdExtractor {
  import opened Wrappers
  import opened Strings
  import Paths
  import Ordering
  import ExtensionTable
  import Scan
  import Report

  /** The directories pruned when no exclusion list is given. */
  const DefaultExcludeDirs: seq<string> := [".git", "node_modules", "__pycache__"]

  /** The argument list is the single word `all`, in any letter case. */
  predicate IsAllShortcut(args: seq<string>)
  {
    |args| == 1 && AsciiLower(args[0]) == "all"
  }

  /** An extension argument with its leading dot: `js` becomes `.js`, `.js` stays. */
  function Normalise(arg: string): (ext: string)
    ensures StartsWith(ext, ".")
    ensures StartsWith(arg, ".") ==> ext == arg
    ensures !StartsWith(arg, ".") ==> ext[1..] == arg
  {
    if StartsWith(arg, ".") then arg else "." + arg
  }

  /**
   * The configured extensions: every supported extension for the `all`
   * shortcut, otherwise each argument with its leading dot, in order.
   */
  function ResolveExtensions(args: seq<string>): (exts: seq<string>)
    ensures forall k :: 0 <= k < |exts| ==> StartsWith(exts[k], ".")
    ensures IsAllShortcut(args) ==> exts == ExtensionTable.Keys()
    ensures !IsAllShortcut(args) ==>
              |exts| == |args| && forall k :: 0 <= k < |args| ==> exts[k] == Normalise(args[k])
  {
    ExtensionTable.KeysDotted();
    if IsAllShortcut(args) then ExtensionTable.Keys()
    else seq(|args|, k requires 0 <= k < |args| => Normalise(args[k]))
  }

  /** Resolving an already resolved list changes nothing. */
  lemma {:induction false} ResolveExtensionsIdempotent(args: seq<string>)
    ensures ResolveExtensions(ResolveExtensions(args)) == ResolveExtensions(args)
  {
    var exts := ResolveExtensions(args);
    if |exts| == 1 {
      assert exts[0][..1] == ".";
      assert AsciiLower(exts[0])[0] == '.';
    }
  }

  /** `all` and the full list of supported extensions scan for the same files. */
  lemma AllIsEveryKey()
    ensures ResolveExtensions(["all"]) == ResolveExtensions(ExtensionTable.Keys())
    ensures ResolveExtensions(["ALL"]) == ExtensionTable.Keys()
  {
    assert AsciiLower("ALL") == "all";
    ResolveExtensionsIdempotent(["all"]);
  }

  /** The extension part of the output name: the extensions without any `.`, joined by `-`. */
  function Stripped(exts: seq<string>): (r: seq<string>)
    ensures |r| == |exts|
    ensures forall k :: 0 <= k < |exts| ==> r[k] == RemoveChar(exts[k], '.')
  {
    seq(|exts|, k requires 0 <= k < |exts| => RemoveChar(exts[k], '.'))
  }

  function ExtensionsLabel(args: seq<string>): (part: string)
    ensures '.' !in part
    ensures IsAllShortcut(args) ==> part == "all"
  {
    if IsAllShortcut(args) then "all"
    else
      JoinAvoids("-", Stripped(ResolveExtensions(args)), '.');
      Join("-", Stripped(ResolveExtensions(args)))
  }

  /** A `/` in the label can only come from an argument. */
  lemma {:induction false} ExtensionsLabelNoSlash(args: seq<string>)
    requires forall k :: 0 <= k < |args| ==> '/' !in args[k]
    ensures '/' !in ExtensionsLabel(args)
  {
    if !IsAllShortcut(args) {
      var exts := ResolveExtensions(args);
      forall k | 0 <= k < |exts|
        ensures '/' !in Stripped(exts)[k]
      {
        assert exts[k] == Normalise(args[k]);
        assert '/' !in exts[k] by {
          if !StartsWith(args[k], ".") {
            assert exts[k] == "." + args[k];
          }
        }
        RemoveCharKeeps(exts[k], '.', '/');
      }
      JoinAvoids("-", Stripped(exts), '/');
    }
  }

  /** Every dot of an argument goes, not only the leading one. */
  lemma RemoveDotsExample()
    ensures RemoveChar(".d.ts", '.') == "dts"
  {
    assert RemoveChar("ts", '.') == "ts";
    assert ".ts"[1..] == "ts";
    assert RemoveChar(".ts", '.') == "ts";
    assert "d.ts"[1..] == ".ts";
    assert RemoveChar("d.ts", '.') == ['d'] + "ts";
    assert ".d.ts"[1..] == "d.ts";
  }

  /** A single extension argument, with or without its dot. */
  lemma ExtensionsLabelSingle()
    ensures ExtensionsLabel(["js"]) == "js"
    ensures ExtensionsLabel([".js"]) == "js"
  {
    assert AsciiLower("js") == "js" && AsciiLower(".js") == ".js";
    assert "js"[..1] == "j" && ".js"[..1] == ".";
    assert RemoveChar(".js", '.') == "js" by {
      assert ".js"[1..] == "js";
    }
    assert Stripped(ResolveExtensions(["js"])) == ["js"];
    assert Stripped(ResolveExtensions([".js"])) == ["js"];
  }

  /** Two arguments: each gets its leading dot, loses every dot, and `-` separates them. */
  lemma {:induction false} ExtensionsLabelPair(a: string, b: string)
    ensures ExtensionsLabel([a, b]) == RemoveChar(Normalise(a), '.') + "-" + RemoveChar(Normalise(b), '.')
  {
    var parts := Stripped(ResolveExtensions([a, b]));
    assert parts == [parts[0], parts[1]];
    JoinPair("-", parts[0], parts[1]);
  }

  /** The shortcut is written `all` whatever its case. */
  lemma ExtensionsLabelAll()
    ensures ExtensionsLabel(["All"]) == "all"
  {
    assert AsciiLower("All") == "all";
  }

  /** `extract_<folder>-<extensions>_<date>.md` */
  function ReportFileName(folder: string, extPart: string, date: string): (name: string)
    ensures StartsWith(name, "extract_" + folder + "-" + extPart + "_")
    ensures EndsWith(name, date + ".md")
    ensures |name| == |"extract_" + folder + "-" + extPart + "_"| + |date + ".md"|
  {
    var name := "extract_" + folder + "-" + extPart + "_" + date + ".md";
    assert name[..|"extract_" + folder + "-" + extPart + "_"|] == "extract_" + folder + "-" + extPart + "_";
    assert name[|name| - |date + ".md"|..] == date + ".md";
    name
  }

  /**
   * The exclusions `main` passes: the defaults, then the output directory,
   * then the extra names given on the command line.
   */
  function MainExcludeDirs(outputDir: string, extra: seq<string>): (dirs: seq<string>)
    ensures dirs != []
    ensures forall e :: e in DefaultExcludeDirs ==> e in dirs
    ensures outputDir in dirs
    ensures forall e :: e in extra ==> e in dirs
    ensures forall e :: e in dirs ==> e in DefaultExcludeDirs || e == outputDir || e in extra
  {
    DefaultExcludeDirs + [outputDir] + extra
  }

  /**
   * A directory whose name contains the output directory's name is never
   * entered, nor is one the defaults prune, whatever extra names are given.
   */
  lemma {:induction false} MainPrunesOutputDir(outputDir: string, extra: seq<string>, dirName: string)
    requires Contains(dirName, outputDir) || Scan.ExcludedDir(DefaultExcludeDirs, dirName)
    ensures Scan.ExcludedDir(MainExcludeDirs(outputDir, extra), dirName)
  {
    var dirs := MainExcludeDirs(outputDir, extra);
    if Contains(dirName, outputDir) {
      assert [outputDir][0] == outputDir;
      Scan.ExcludedDirMonotone([outputDir], dirs, dirName);
    } else {
      Scan.ExcludedDirMonotone(DefaultExcludeDirs, dirs, dirName);
    }
  }

  /** An empty output directory name is a substring of every name: the scan then stays in the top directory. */
  lemma {:induction false} EmptyOutputDirPrunesAll(extra: seq<string>, dirName: string)
    ensures Scan.ExcludedDir(MainExcludeDirs("", extra), dirName)
  {
    ContainsEmpty(dirName);
    MainPrunesOutputDir("", extra, dirName);
  }

  class FileConcatenator {
    var startPath: string
    var folderName: string
    var excludeDirs: seq<string>
    var excludeFiles: seq<string>
    var extensions: seq<string>
    var exportDir: string
    var outputFile: string
    var filesFound: seq<string>

    /**
     * `absDirectory` is the absolute form of `directory`, `cwd` the working
     * directory and `dateStr` today's date as `YYYYMMDD`. An absent exclusion
     * list is the empty one. Creating the export directory is not modelled.
     */
    constructor (directory: string, absDirectory: string, extensionArgs: seq<string>, outputDir: string,
                 excludeDirArgs: seq<string>, excludeFileArgs: seq<string>, cwd: string, dateStr: string)
      ensures startPath == absDirectory
      ensures folderName == Paths.Basename(directory)
      ensures excludeDirs == if excludeDirArgs == [] then DefaultExcludeDirs else excludeDirArgs
      ensures excludeFiles == excludeFileArgs
      ensures extensions == ResolveExtensions(extensionArgs)
      ensures exportDir == Paths.Join(cwd, outputDir)
      ensures outputFile == Paths.Join(exportDir, ReportFileName(folderName, ExtensionsLabel(extensionArgs), dateStr))
      ensures filesFound == []
    {
      startPath := absDirectory;
      folderName := Paths.Basename(directory);
      excludeDirs := if excludeDirArgs == [] then DefaultExcludeDirs else excludeDirArgs;
      excludeFiles := excludeFileArgs;
      extensions := ResolveExtensions(extensionArgs);
      exportDir := Paths.Join(cwd, outputDir);
      outputFile := Paths.Join(Paths.Join(cwd, outputDir), ReportFileName(Paths.Basename(directory), ExtensionsLabel(extensionArgs), dateStr));
      filesFound := [];
    }

    /** The filters the scan applies. */
    function Config(): Scan.ScanConfig
      reads this`extensions, this`excludeDirs, this`excludeFiles
    {
      Scan.ScanConfig(extensions, excludeDirs, excludeFiles)
    }

    /**
     * The body of `find_files` for one directory listing: appends the path of
     * every file that has a wanted suffix and matches no exclusion pattern.
     */
    method RecordFiles(top: string, files: seq<string>)
      modifies this`filesFound
      ensures filesFound == old(filesFound) + Scan.MatchingFiles(top, files, Config())
    {
      for i := 0 to |files|
        invariant filesFound == old(filesFound) + Scan.MatchingFiles(top, files[..i], Config())
      {
        var file := files[i];
        if Scan.HasWantedSuffix(extensions, file) {
          if !Scan.ExcludedFile(excludeFiles, file) {
            filesFound := filesFound + [Paths.Join(top, file)];
          }
        }
        assert files[..i + 1][..i] == files[..i];
      }
      assert files[..|files|] == files;
    }

    /** Sorts the recorded paths in place, in Python's string order. */
    method SortFound()
      modifies this`filesFound
      ensures Ordering.Sorted(filesFound)
      ensures multiset(filesFound) == multiset(old(filesFound))
    {
      filesFound := Ordering.SortStrings(filesFound);
    }

    /**
     * One step of the walk: the directory on top of the pending list has its
     * selected files appended, and its sub-directories that survive pruning
     * take its place, in order; an unreadable directory is dropped.
     */
    method VisitTop(stack: seq<(string, Scan.Node)>) returns (rest: seq<(string, Scan.Node)>)
      requires stack != []
      modifies this`filesFound
      ensures filesFound + Scan.WalkItems(rest, Config()) == old(filesFound) + Scan.WalkItems(stack, Config())
      ensures Scan.SizeItems(rest) < Scan.SizeItems(stack)
    {
      var top := stack[0].0;
      match stack[0].1
      case Unreadable(_) =>
        Scan.WalkItemsSkip(stack, Config());
        rest := stack[1..];
      case Dir(_, subdirs, files) =>
        rest := Scan.Pending(top, Scan.Prune(subdirs, excludeDirs)) + stack[1..];
        ghost var recorded := Scan.MatchingFiles(top, files, Config());
        ghost var later := Scan.WalkItems(rest, Config());
        Scan.WalkItemsStep(stack, Config());
        RecordFiles(top, files);
        Scan.RecordThenRest(old(filesFound), recorded, later);
    }

    /**
     * The walk of `find_files`: visits `tree`, the directory at `startPath`,
     * top-down, pruning excluded sub-directories before descending, and
     * appends every selected file's path in walk order.
     */
    method CollectFiles(tree: Scan.Node)
      modifies this`filesFound
      ensures filesFound == old(filesFound) + Scan.Walk(startPath, tree, Config())
    {
      var stack: seq<(string, Scan.Node)> := [(startPath, tree)];
      while stack != []
        invariant filesFound + Scan.WalkItems(stack, Config()) == old(filesFound) + Scan.Walk(startPath, tree, Config())
        decreases Scan.SizeItems(stack)
      {
        stack := VisitTop(stack);
      }
    }

    /**
     * `find_files`: the walk, then the sort; the list ends up sorted and
     * holds each walked path as often as the walk recorded it.
     */
    method FindFiles(tree: Scan.Node)
      modifies this`filesFound
      ensures Ordering.Sorted(filesFound)
      ensures multiset(filesFound) == multiset(old(filesFound) + Scan.Walk(startPath, tree, Config()))
    {
      CollectFiles(tree);
      SortFound();
    }

    /**
     * `concatenate_files`: nothing is written when no file was found;
     * otherwise the text written to the output file, write after write, is
     * the rendered report.
     */
    method ConcatenateFiles(timestamp: string, read: string -> Report.ReadResult) returns (written: Option<string>)
      ensures written.None? <==> filesFound == []
      ensures written.Some? ==>
                written.value == Report.Render(Report.BuildReport(startPath, extensions, filesFound, timestamp, read))
    {
      if filesFound == [] {
        return None;
      }
      var out := WriteHeader(timestamp, startPath, extensions);
      out := WriteToc(out, startPath, filesFound, read);
      out := out + "\n---\n\n";
      out := WriteSections(out, startPath, filesFound, read);
      out := WriteSummary(out, startPath, filesFound, read);
      written := Some(out);
    }

    /**
     * What `main` asks of a fresh concatenator: `find_files`, then
     * `concatenate_files`. The report lists the walked files in sorted order.
     */
    method Run(tree: Scan.Node, timestamp: string, read: string -> Report.ReadResult) returns (written: Option<string>)
      requires filesFound == []
      modifies this`filesFound
      ensures var found := Scan.Walk(startPath, tree, Config());
              (written.None? <==> found == [])
              && (written.Some? ==>
                    exists files :: Ordering.Sorted(files) && multiset(files) == multiset(found)
                                    && written.value == Report.Render(Report.BuildReport(startPath, extensions, files, timestamp, read)))
    {
      FindFiles(tree);
      Ordering.SameMultisetEmpty(filesFound, Scan.Walk(startPath, tree, Config()));
      written := ConcatenateFiles(timestamp, read);
    }
  }

  /** The header of the report, one write per line group. */
  method WriteHeader(timestamp: string, startPath: string, extensions: seq<string>) returns (out: string)
    ensures out == Report.HeaderText(timestamp, startPath, Report.FileTypesText(extensions))
  {
    out := "# Files Concatenation Report\n\n";
    out := out + ("Generated on: " + timestamp + "\n\n");
    out := out + ("Source directory: " + startPath + "\n");
    var fileTypes := if |extensions| > 10 then "All supported types" else Join(", ", extensions);
    out := out + ("File types: " + fileTypes + "\n\n");
    out := out + "---\n\n";
    out := out + "## Table of Contents\n\n";
  }

  /** The table of contents: a link to each file's section, in list order. */
  method WriteToc(out: string, startPath: string, files: seq<string>, ghost read: string -> Report.ReadResult)
    returns (out': string)
    ensures out' == out + Report.Each(Report.Entries(startPath, files, read), Report.TocLine)
  {
    ghost var entries := Report.Entries(startPath, files, read);
    out' := out;
    for i := 0 to |files|
      invariant out' == out + Report.Each(entries[..i], Report.TocLine)
    {
      var relPath := Paths.RelPath(files[i], startPath);
      var linkPath := Report.Anchor(relPath);
      out' := out' + ("- [" + relPath + "](#" + linkPath + ")\n");
      Report.EachSnocAfter(out, entries, i, Report.TocLine);
    }
    Report.EachAll(entries, Report.TocLine);
  }

  /** One section per file: heading with its anchor, full path, and the contents in a fence. */
  method WriteSections(out: string, startPath: string, files: seq<string>, read: string -> Report.ReadResult)
    returns (out': string)
    ensures out' == out + Report.Each(Report.Entries(startPath, files, read), Report.SectionText)
  {
    ghost var entries := Report.Entries(startPath, files, read);
    out' := out;
    for i := 0 to |files|
      invariant out' == out + Report.Each(entries[..i], Report.SectionText)
    {
      var section := WriteSection(startPath, files[i], read);
      out' := out' + section;
      Report.EachSnocAfter(out, entries, i, Report.SectionText);
    }
    Report.EachAll(entries, Report.SectionText);
  }

  /** The writes for one file's section; a file that cannot be read gets the error text as its body. */
  method WriteSection(startPath: string, file: string, read: string -> Report.ReadResult) returns (out: string)
    ensures out == Report.SectionText(Report.MakeEntry(startPath, file, read))
  {
    var relPath := Paths.RelPath(file, startPath);
    var absPath := file;
    var fileType := ExtensionTable.FileType(file);
    var anchor := Report.Anchor(relPath);
    out := "## <a id='" + anchor + "'></a>File: " + relPath + "\n";
    out := out + ("**Full Path**: `" + absPath + "`\n\n");
    out := out + ("```" + fileType + "\n");
    var body := match read(file)
                case Text(contents) => contents
                case Failure(message) => "Error reading file: " + message;
    out := out + body;
    out := out + "\n```\n\n";
    out := out + "---\n\n";
  }

  /** The summary: the file count, then each file's relative path. */
  method WriteSummary(out: string, startPath: string, files: seq<string>, ghost read: string -> Report.ReadResult)
    returns (out': string)
    ensures out' == out + Report.SummaryText(Report.Entries(startPath, files, read))
  {
    ghost var entries := Report.Entries(startPath, files, read);
    var head := "## Summary\n";
    head := head + ("Total files processed: " + NatToDecimal(|files|) + "\n\n");
    head := head + "### Files List:\n";
    var lines := "";
    for i := 0 to |files|
      invariant lines == Report.Each(entries[..i], Report.ListLine)
    {
      var relPath := Paths.RelPath(files[i], startPath);
      lines := lines + ("- " + relPath + "\n");
      Report.EachSnoc(entries, i, Report.ListLine);
    }
    Report.EachAll(entries, Report.ListLine);
    out' := out + (head + lines);
  }

  /**
   * The run `main` makes once its arguments are read: build the
   * concatenator with the output directory among the exclusions, scan, and
   * write the report. The report lists the scanned files in sorted order.
   */
  method Extract(directory: string, absDirectory: string, extensionArgs: seq<string>, outputDir: string,
                 extraExcludeDirs: seq<string>, excludeFileArgs: seq<string>, cwd: string, dateStr: string,
                 tree: Scan.Node, timestamp: string, read: string -> Report.ReadResult)
    returns (outputFile: string, written: Option<string>)
    ensures outputFile == Paths.Join(Paths.Join(cwd, outputDir),
                                     ReportFileName(Paths.Basename(directory), ExtensionsLabel(extensionArgs), dateStr))
    ensures var found := Scan.Walk(absDirectory, tree,
                                   Scan.ScanConfig(ResolveExtensions(extensionArgs), MainExcludeDirs(outputDir, extraExcludeDirs),
                                                   excludeFileArgs));
            (written.None? <==> found == [])
            && (written.Some? ==>
                  exists files :: Ordering.Sorted(files) && multiset(files) == multiset(found)
                                  && written.value
                                     == Report.Render(Report.BuildReport(absDirectory, ResolveExtensions(extensionArgs),
                                                                         files, timestamp, read)))
  {
    var c := new FileConcatenator(directory, absDirectory, extensionArgs, outputDir,
                                  MainExcludeDirs(outputDir, extraExcludeDirs), excludeFileArgs, cwd, dateStr);
    written := c.Run(tree, timestamp, read);
    outputFile := c.outputFile;
  }

  /** The output file sits in the export directory under the name `extract_<folder>-<extensions>_<date>.md`. */
  lemma {:induction false} OutputFileName(directory: string, extensionArgs: seq<string>, cwd: string, outputDir: string, dateStr: string)
    requires forall k :: 0 <= k < |extensionArgs| ==> '/' !in extensionArgs[k]
    requires '/' !in dateStr
    ensures var name := ReportFileName(Paths.Basename(directory), ExtensionsLabel(extensionArgs), dateStr);
            Paths.Basename(Paths.Join(Paths.Join(cwd, outputDir), name)) == name
  {
    var folder := Paths.Basename(directory);
    var extPart := ExtensionsLabel(extensionArgs);
    var name := ReportFileName(folder, extPart, dateStr);
    assert '/' !in name by {
      ExtensionsLabelNoSlash(extensionArgs);
      assert name == "extract_" + folder + "-" + extPart + "_" + dateStr + ".md";
      assert '/' !in "extract_" && '/' !in "-" && '/' !in "_" && '/' !in ".md";
    }
    Paths.BasenameOfJoin(Paths.Join(cwd, outputDir), name);
  }
}
