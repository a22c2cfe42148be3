# md_extractor in Dafny

A model of the file concatenator in `5.export/md_extractor.py`. The tool scans
a source directory for files with the requested extensions. It prunes excluded
directories and skips files that match exclusion patterns. It then writes a
single Markdown report, which holds:

- a header;
- a table of contents that links to an anchor for each file;
- one fenced section per file, labelled with the file's language;
- a summary with the file count and the list of files.

The model covers:

- the class `FileConcatenator`;
- the static extension table;
- the way `main` builds the list of excluded directories.

Module layout, in dependency order:

| file | module | what it holds |
|---|---|---|
| `wrappers.dfy` | `Wrappers` | `Option` |
| `strings.dfy` | `Strings` | the Python `str` operations used: `startswith`, `endswith`, `in`, `replace`, `lower`, `join`, decimal formatting |
| `ordering.dfy` | `Ordering` | Python's string order and `list.sort()` |
| `paths.dfy` | `Paths` | `posixpath.join`, `basename`, `splitext`, `relpath` |
| `glob.dfy` | `Glob` | `fnmatch.fnmatch`: `*`, `?`, `[seq]`, `[!seq]` |
| `extension_table.dfy` | `ExtensionTable` | `SUPPORTED_EXTENSIONS` and `get_file_type` |
| `scan.dfy` | `Scan` | the directory tree as a value, the filters, and what `os.walk` with pruning records |
| `report.dfy` | `Report` | the report as a value, its rendering, and what the rendered text contains |
| `md_extractor.dfy` | `MdExtractor` | the class `FileConcatenator` (fields, constructor, `find_files`, `concatenate_files`) and `main`'s composition |

Parts of the model:

- **The directory tree.** The tree under the source directory is a value. A
  directory is its name, its sub-directories and its file names, in listing
  order. A directory whose listing fails is `Unreadable`.
- **The scan.** `Scan.Walk` states what the top-down walk records.
  `FileConcatenator.FindFiles` is the imperative scan: a worklist loop that
  updates `filesFound` in place and then sorts it. Its contract ties the new
  `filesFound` to `Walk`.
- **The report.** `Report.BuildReport` and `Report.Render` state the report.
  `FileConcatenator.ConcatenateFiles` writes the report piece by piece, as
  the program's `write` calls do. Its result is the text of the output file,
  or `None` when there is nothing to write.

## Model

| member | source | states |
|---|---|---|
| MdExtractor.Normalise | 5.export/md_extractor.py:102 | the extension starts with `.`; an argument that already starts with `.` is kept, any other gets one `.` in front |
| MdExtractor.ResolveExtensions | 5.export/md_extractor.py:99-102 | every resolved extension starts with `.`; a single `all` in any letter case gives every key of the table in table order; otherwise each argument is normalised, in order |
| MdExtractor.ResolveExtensionsIdempotent | 5.export/md_extractor.py:99-102 | resolving an already resolved list changes nothing |
| MdExtractor.AllIsEveryKey | 5.export/md_extractor.py:99-100 | `all` and `ALL` both select exactly the table's keys |
| MdExtractor.Stripped | 5.export/md_extractor.py:113 | each extension with every `.` removed, one per extension |
| MdExtractor.ExtensionsLabel | 5.export/md_extractor.py:110-113 | the extensions part of the file name contains no `.`; it is `all` for the `all` shortcut |
| MdExtractor.ExtensionsLabelNoSlash | 5.export/md_extractor.py:110-113 | arguments without `/` give a label without `/` |
| MdExtractor.RemoveDotsExample | 5.export/md_extractor.py:113 | `.d.ts` loses both dots and becomes `dts` |
| MdExtractor.ExtensionsLabelSingle | 5.export/md_extractor.py:102-113 | `js` and `.js` both give the label `js` |
| MdExtractor.ExtensionsLabelPair | 5.export/md_extractor.py:113 | two extensions are joined by `-`, each normalised and then stripped of its dots |
| MdExtractor.ExtensionsLabelAll | 5.export/md_extractor.py:110-111 | `All` gives the label `all` |
| MdExtractor.IsAllShortcut | 5.export/md_extractor.py:99 | the `all` shortcut: exactly one argument, equal to `all` after ASCII lower-casing (its consequences are stated by `ResolveExtensions` and `ExtensionsLabel`) |
| MdExtractor.ReportFileName | 5.export/md_extractor.py:117 | the name starts with `extract_<folder>-<extensions>_`, ends with `<date>.md`, and is exactly as long as those two parts together, so nothing lies between them |
| MdExtractor.OutputFileName | 5.export/md_extractor.py:94-118 | when neither the extension arguments nor the date contain `/`, the output file is directly inside the export directory: its base name is the report file name |
| MdExtractor.FileConcatenator.constructor | 5.export/md_extractor.py:87-120 | the fields after `__init__`: the absolute start path, the folder name as the basename of the raw argument, the default exclusions when none are given, the resolved extensions, the export directory under the working directory, the output file, no files found |
| MdExtractor.MainExcludeDirs | 5.export/md_extractor.py:274-276 | the list holds the three defaults (the constant `MdExtractor.DefaultExcludeDirs`: `.git`, `node_modules`, `__pycache__`, the same list line 95 falls back to), the output directory and every extra entry, and nothing else |
| MdExtractor.MainPrunesOutputDir | 5.export/md_extractor.py:274-276 | a directory whose name contains the output directory's name, or one of the defaults, is pruned whatever the extra entries are |
| MdExtractor.EmptyOutputDirPrunesAll | 5.export/md_extractor.py:274 | an empty output directory name prunes every sub-directory |
| MdExtractor.FileConcatenator.RecordFiles | 5.export/md_extractor.py:147-151 | appends, in listing order, the joined path of every file of one listing that has a wanted suffix and is not excluded |
| MdExtractor.FileConcatenator.VisitTop | 5.export/md_extractor.py:143-151 | one step of the walk: the files recorded plus what the remaining worklist will record equals what the worklist before the step would record; the worklist shrinks |
| MdExtractor.FileConcatenator.CollectFiles | 5.export/md_extractor.py:143-151 | the loop appends exactly what the top-down walk with pruning records, in walk order |
| MdExtractor.FileConcatenator.SortFound | 5.export/md_extractor.py:156 | `filesFound` becomes sorted and keeps the same paths, each as often as before |
| MdExtractor.FileConcatenator.FindFiles | 5.export/md_extractor.py:132-157 | `filesFound` ends up sorted and holds exactly its old paths and the walked ones |
| MdExtractor.FileConcatenator.ConcatenateFiles | 5.export/md_extractor.py:164-221 | nothing is written exactly when no files were found; otherwise the written text is the rendered report of the found files in their stored order |
| MdExtractor.FileConcatenator.Run | 5.export/md_extractor.py:287-288 | after `find_files` and `concatenate_files` on a fresh concatenator, nothing is written exactly when the walk records nothing; otherwise the text is the report of the walked files in sorted order |
| MdExtractor.Extract | 5.export/md_extractor.py:274-288 | `main`'s run: the output file name, and the report of the files walked with the output directory and the defaults excluded (or nothing, when none were found) |
| MdExtractor.WriteHeader | 5.export/md_extractor.py:175-183 | the header writes: title, timestamp, source directory, file types, rule, contents heading |
| MdExtractor.WriteToc | 5.export/md_extractor.py:186-189 | one table-of-contents line per file, in order, appended to what was written |
| MdExtractor.WriteSections | 5.export/md_extractor.py:194-213 | one section per file, in order, appended to what was written |
| MdExtractor.WriteSection | 5.export/md_extractor.py:195-213 | the writes for one file: the section text of that file's entry |
| MdExtractor.WriteSummary | 5.export/md_extractor.py:216-221 | the summary heading, count and one list line per file, appended |
| Ordering.LessEq | 5.export/md_extractor.py:156 | Python's `<=` on `str`: code point by code point, a proper prefix first (its order laws are the `LessEq*` lemmas) |
| Ordering.Sorted | 5.export/md_extractor.py:156 | every element is at most each later one in that order |
| Ordering.SortStrings | 5.export/md_extractor.py:156 | `list.sort()` on strings: the result is sorted in Python's string order and is a permutation of the input |
| Ordering.SortedUnique | 5.export/md_extractor.py:156 | two sorted lists holding the same strings are equal, so the sorted order of the found files is determined |
| Ordering.LessEqTotal | 5.export/md_extractor.py:156 | any two strings are comparable |
| Ordering.LessEqTransitive | 5.export/md_extractor.py:156 | the string order is transitive |
| Ordering.LessEqAntisymmetric | 5.export/md_extractor.py:156 | strings that are each at most the other are equal |
| Scan.ExcludedDir | 5.export/md_extractor.py:122-124 | `should_exclude_dir`: some exclusion entry is a substring of the directory name |
| Scan.ExcludedFile | 5.export/md_extractor.py:126-130 | `should_exclude_file`: false when there are no patterns, otherwise some pattern matches the file name |
| Scan.HasWantedSuffix | 5.export/md_extractor.py:148 | the name ends with one of the configured extensions |
| Scan.Selected | 5.export/md_extractor.py:148-149 | a file is recorded when it has a wanted suffix and is not excluded |
| Scan.MatchingFiles | 5.export/md_extractor.py:147-151 | the joined paths of one listing's selected files, in listing order (characterised by `Scan.MatchingFilesMembers`) |
| Scan.Walk | 5.export/md_extractor.py:143-151 | what the top-down walk records: a directory's own matching files, then the walks of its kept sub-directories; an unreadable directory records nothing (characterised by `Scan.WalkMembers`) |
| Scan.WalkAll | 5.export/md_extractor.py:143-145 | the walks of the sub-directories that survive pruning, in listing order |
| Scan.ExcludedDirMonotone | 5.export/md_extractor.py:122-124 | adding exclusion entries never un-prunes a directory |
| Scan.ExcludedDirBySubstring | 5.export/md_extractor.py:122-124 | the test is by substring: `export` prunes `exports`, `.git` prunes `.github`, `node_modules` keeps `src` |
| Scan.EmptyEntryPrunesAll | 5.export/md_extractor.py:124 | an empty exclusion entry prunes every directory |
| Scan.NoPatternsExcludeNothing | 5.export/md_extractor.py:128-129 | with no patterns, no file is excluded |
| Scan.ExcludedFileBySuffixPattern | 5.export/md_extractor.py:130 | the pattern `*<text>` (text without wildcards) excludes exactly the names that end with that text |
| Scan.SuffixTestExamples | 5.export/md_extractor.py:148 | the suffix test is plain `endswith`: `.ts` does not take `foo.tsx`, `.py` does not take `A.PY`, `.gz` takes `archive.tar.gz` |
| Scan.Prune | 5.export/md_extractor.py:145 | the kept sub-directories are exactly those whose names are not excluded |
| Scan.WalkAllPruned | 5.export/md_extractor.py:143-145 | walking the kept sub-directories equals walking the pending worklist built from them |
| Scan.WalkItemsStep | 5.export/md_extractor.py:143-151 | a readable directory at the head of the worklist records its matching files and puts its kept sub-directories in front of the rest |
| Scan.WalkItemsSkip | 5.export/md_extractor.py:143 | an unreadable directory at the head of the worklist records nothing |
| Scan.MatchingFilesMembers | 5.export/md_extractor.py:147-151 | a path is recorded for a listing exactly when it joins the directory with a listed file that has a wanted suffix and matches no pattern |
| Scan.WalkComplete | 5.export/md_extractor.py:143-151 | every selected file reachable through non-pruned directories is recorded |
| Scan.WalkSound | 5.export/md_extractor.py:143-151 | every recorded path is such a file |
| Scan.WalkMembers | 5.export/md_extractor.py:143-151 | a path is recorded if and only if it belongs to a selected file reachable through non-pruned directories |
| Scan.PathOfUnderTop | 5.export/md_extractor.py:150 | the recorded path is the top joined with the `/`-joined directory names and file name |
| Scan.RelPathOfRecorded | 5.export/md_extractor.py:187 | the relative path of a recorded file is its directory names and file name joined by `/` |
| Scan.ExampleScan | 5.export/md_extractor.py:143-151 | a project with `a.py`, `sub/b.py` and `sub/node_modules/c.py` scanned for `.py` with the default exclusions gives `a.py` and `sub/b.py` only |
| Glob.Tokenize | 5.export/md_extractor.py:130 | the pattern read as `fnmatch` reads it: `*`, `?`, a bracket set with an optional `!` and a leading `]`, an unclosed `[` as a literal, any other character as itself |
| Glob.FnMatch | 5.export/md_extractor.py:130 | `fnmatch.fnmatch` on POSIX: the tokens match the whole name, case-sensitively |
| Glob.FnMatchPlain | 5.export/md_extractor.py:130 | a pattern without wildcards matches exactly itself |
| Glob.FnMatchStarSuffix | 5.export/md_extractor.py:130 | `*` then plain text matches exactly the names ending with the text |
| Glob.FnMatchStar | 5.export/md_extractor.py:130 | `*` matches every name |
| Glob.FnMatchQuestion | 5.export/md_extractor.py:130 | `?` matches exactly the one-character names |
| Glob.FnMatchDigitClass | 5.export/md_extractor.py:130 | `[0-9]` matches `7` but not `x`, and `[!0-9]` matches `x` |
| Glob.FnMatchUnclosedBracket | 5.export/md_extractor.py:130 | an unclosed `[` is literal |
| ExtensionTable.Entry | 5.export/md_extractor.py:11-85 | the `k`-th entry of the dictionary literal, extension without its `.` and fence label, for each of the 56 entries |
| ExtensionTable.SupportedExtensions | 5.export/md_extractor.py:11-85 | the 56 pairs of dotted extension and label, in the literal's order |
| ExtensionTable.ExtensionKey | 5.export/md_extractor.py:161 | `os.path.splitext(path)[1].lower()`: the path's extension, lower-cased (examples: `ExtensionKeyUpperCase`, `ExtensionKeyLastExtension`, `FileTypeHiddenFile`) |
| ExtensionTable.Keys | 5.export/md_extractor.py:11-85 | the keys of the table in literal order |
| ExtensionTable.KeysDotted | 5.export/md_extractor.py:11-85 | every key starts with `.` |
| ExtensionTable.Lookup | 5.export/md_extractor.py:162 | `dict.get`: no value when no entry has the key, otherwise the value of the first entry with the key |
| ExtensionTable.FileType | 5.export/md_extractor.py:159-162 | the label is the table's value for the lower-cased extension, or `plaintext` when the extension is not a key |
| ExtensionTable.KeysDistinct | 5.export/md_extractor.py:11-85 | no extension occurs twice in the table, so the first entry with a key is the one the dictionary keeps |
| ExtensionTable.FileTypeOfKey | 5.export/md_extractor.py:162 | when the lower-cased extension is a key, the label is exactly that key's value |
| ExtensionTable.FileTypeIgnoresCase | 5.export/md_extractor.py:161 | the label does not depend on the letter case of the path |
| ExtensionTable.ExtensionKeyUpperCase | 5.export/md_extractor.py:161 | `App.TSX` is looked up as `.tsx` |
| ExtensionTable.ExtensionKeyLastExtension | 5.export/md_extractor.py:161 | `archive.tar.gz` is looked up as `.gz` |
| ExtensionTable.FileTypeHiddenFile | 5.export/md_extractor.py:161-162 | a file named `.py` has no extension and is labelled `plaintext` |
| Paths.SplitExt | 5.export/md_extractor.py:161 | `splitext`: the two parts make up the path; the extension is empty or one `.` followed by neither `.` nor `/` |
| Paths.ExtensionStart | 5.export/md_extractor.py:161 | the cut lies at the end of the path, or at a `.` after which the path has no `.` and no `/` |
| Paths.SplitExtFinds | 5.export/md_extractor.py:161 | the last `.` of the last component, when something other than dots comes before it, starts the extension |
| Paths.SplitExtHasExtension | 5.export/md_extractor.py:161 | a path has a non-empty extension if and only if its last component holds a `.` after some other character, and the extension then starts at the last `.`; a component of leading dots and a name, such as `.env`, has none |
| Paths.SplitExtLower | 5.export/md_extractor.py:161 | lower-casing the path and then splitting gives the lower-cased extension |
| Paths.Basename | 5.export/md_extractor.py:94 | the base name has no `/` and ends the path; with `Paths.BasenameAfterSlash` this pins it to the part after the last `/` |
| Paths.BasenameAfterSlash | 5.export/md_extractor.py:94 | the base name is the whole path or is preceded by a `/`, so it is the longest `/`-free suffix |
| Paths.BasenameOfJoin | 5.export/md_extractor.py:115-118 | the base name of a directory joined with a name without `/` is that name |
| Paths.Join | 5.export/md_extractor.py:150 | `os.path.join` of two parts: an absolute second part replaces the first, otherwise one `/` separates them |
| Paths.RelPath | 5.export/md_extractor.py:187 | `os.path.relpath` for a path under the start: the result is a suffix of the path |
| Paths.RelPathOfJoin | 5.export/md_extractor.py:187 | the path relative to the start of the start joined with a relative path is that relative path |
| Report.Anchor | 5.export/md_extractor.py:188 | the anchor has the length of the relative path, has no space or `/`, turns each space and `/` into `-`, and keeps every other character |
| Report.AnchorEqual | 5.export/md_extractor.py:188 | two paths of equal length share an anchor if and only if they agree at every position except where both hold one of space, `/` and `-` |
| Report.AnchorCollision | 5.export/md_extractor.py:188 | `x y`, `x/y` and `x-y` share one anchor |
| Report.Body | 5.export/md_extractor.py:206-210 | a readable file's text goes in as it is; a failure gives `Error reading file: ` followed by the message |
| Report.TocLine | 5.export/md_extractor.py:189 | a contents line: `- [<rel>](#<anchor>)` and a newline |
| Report.Heading | 5.export/md_extractor.py:201 | a section heading: `## <a id='<anchor>'></a>File: <rel>` and a newline |
| Report.ListLine | 5.export/md_extractor.py:221 | a summary list line: `- <rel>` and a newline |
| Report.SummaryHead | 5.export/md_extractor.py:216-218 | the summary heading, `Total files processed: ` with the decimal count, and the list heading |
| Report.SummaryText | 5.export/md_extractor.py:216-221 | the summary head for the number of entries, then one list line per entry, in order |
| Report.FileTypesText | 5.export/md_extractor.py:178-181 | the file-types text: `All supported types` above ten extensions, else the extensions joined by `, ` |
| Report.HeaderText | 5.export/md_extractor.py:175-183 | the header text, in the order of the six writes |
| Report.SectionText | 5.export/md_extractor.py:200-213 | one section: heading with anchor, full path, fence with the label, body, closing fence, rule |
| Report.Render | 5.export/md_extractor.py:175-221 | the whole document: header, contents lines, rule, sections, summary |
| Report.FileTypesAll | 5.export/md_extractor.py:178-181 | the header says `All supported types` if and only if more than ten extensions are configured |
| Report.MakeEntry | 5.export/md_extractor.py:195-200 | an entry keeps the file's path and derives its anchor from the relative path |
| Report.BuildReport | 5.export/md_extractor.py:186-221 | one entry per found file, in order |
| Report.ListsAgree | 5.export/md_extractor.py:186-221 | the contents line, the section heading and the summary line of the `i`-th file use the same relative path, and the link targets the heading's anchor |
| Report.EveryFileRendered | 5.export/md_extractor.py:186-221 | the document contains every file's contents line, section and summary line |
| Report.ReadFailureRendered | 5.export/md_extractor.py:206-213 | a file that cannot be read puts the error line in the document, and every later file's section is still written |
| Report.SummaryCount | 5.export/md_extractor.py:217 | the document contains `Total files processed: ` and the decimal number of files |
| Strings.ContainsIffOccurs | 5.export/md_extractor.py:124 | Python's `in` on strings holds if and only if the needle occurs at some offset |
| Strings.StartsWith | 5.export/md_extractor.py:102 | `str.startswith`: the first characters of the text are the prefix |
| Strings.ReplaceChar | 5.export/md_extractor.py:188 | `str.replace(a, b)` for single characters: same length, every `a` turned into `b`, every other character kept |
| Strings.Join | 5.export/md_extractor.py:113 | `sep.join(parts)`: the parts in order with one separator between neighbours (`Strings.JoinPair` for two parts) |
| Strings.Contains | 5.export/md_extractor.py:124 | Python's `needle in hay`; a contained needle is no longer than the text (the characterisation is `Strings.ContainsIffOccurs`) |
| Strings.EndsWith | 5.export/md_extractor.py:148 | `str.endswith`: the last characters of the text are the suffix |
| Strings.AsciiLower | 5.export/md_extractor.py:99 | `str.lower` on ASCII letters: same length, each character lower-cased on its own |
| Strings.RemoveChar | 5.export/md_extractor.py:113 | `str.replace(c, '')`: the result has no `c`, is no longer than the input, and is the input when it had no `c` |
| Strings.NatToDecimal | 5.export/md_extractor.py:217 | the decimal text of a count: digits only, no leading zero, and its value is the count |

## Left out

- File system access is not modelled. Instead, the directory tree is a value, and each file's read is a function from path to text or failure. Creating the export directory (line 106) and opening the output file are not modelled.
- The date, the timestamp, the working directory and `os.path.abspath(directory)` are parameters.
- Inside `concatenate_files`, `os.path.abspath(file_path)` (line 196) is the identity, because every recorded path is built from the absolute start path.
- Printing is not modelled. This covers the progress lines of `find_files`, the "No files found" message and the final success line.
- Argument parsing and mode validation (lines 224-271) are not modelled.
- The exception wrapper of `main` (lines 278-294) and the exit codes are not modelled. An error while writing the output file is not modelled either.
- `mongo-init.js` is not part of this model.
- Symbolic links, and directories that change during the scan, are not modelled.
- `ExtensionTable.FileType` and `MdExtractor.ResolveExtensions` lower-case only ASCII letters, where Python's `str.lower` covers all of Unicode.
- `Glob.FnMatch` covers `*`, `?`, `[seq]`, `[!seq]` with ranges and a literal unclosed `[`. It does not model `fnmatch`'s normalisation of the case or of path separators, which POSIX systems skip anyway.
- `Paths.RelPath` is modelled only for paths under the start directory. Those are the only paths the scan records.
- `Report.Body` models a read failure as the exception's message. It does not model which exceptions occur or how UTF-8 decoding fails.
- `Ordering.SortStrings` is an insertion sort, not the library's sort. The sorted result is the same by `Ordering.SortedUnique`.
- `ExtensionTable.Entry` stores the table's keys without their leading `.`, and `SupportedExtensions` puts the dot back.

## Behaviour of the code worth knowing

- A missing or unreadable source directory gives an empty scan and no output file (`Scan.WalkItemsSkip`). No error is raised, because `os.walk` is called without an error handler.
- An extension argument holding `/` (`-e a/b`) puts `/` into the report's file name, so the output path points into a sub-directory of the export directory that is never created. `MdExtractor.OutputFileName` therefore assumes no `/` in the arguments or the date.
- The extension suffix test is case-sensitive (`Scan.SuffixTestExamples`). The label lookup is not (`ExtensionTable.FileTypeIgnoresCase`).
- The header says `All supported types` whenever more than ten extensions are configured, also when they were listed one by one (`Report.FileTypesAll`).
- Directory exclusion is a substring test, so `.git` prunes `.github` (`Scan.ExcludedDirBySubstring`).
- Anchors can collide (`Report.AnchorCollision`), and two sections then carry the same anchor id. No disambiguation is modelled, because the code has none.
