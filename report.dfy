/**
 * The Markdown report `concatenate_files` writes: a header, a table of
 * contents linking to one section per file, the sections with each file's
 * text in a fenced block, and a summary listing the files again. The report
 * is first built as a value (`BuildReport`) and then rendered to text
 * (`Render`); the rendering is the exact sequence of writes the program makes.
 */
module Report {
  import opened Strings
  import Paths
  import ExtensionTable

  /** The in-document anchor of a file: its relative path with every space and `/` turned into `-`. */
  function Anchor(rel: string): (a: string)
    ensures |a| == |rel|
    ensures ' ' !in a && '/' !in a
    ensures forall k :: 0 <= k < |rel| && rel[k] != ' ' && rel[k] != '/' ==> a[k] == rel[k]
    ensures forall k :: 0 <= k < |rel| && (rel[k] == ' ' || rel[k] == '/') ==> a[k] == '-'
  {
    ReplaceChar(ReplaceChar(rel, ' ', '-'), '/', '-')
  }

  /** An anchor is its own anchor: deriving it again changes nothing. */
  lemma {:induction false} AnchorIdempotent(rel: string)
    ensures Anchor(Anchor(rel)) == Anchor(rel)
  {
  }

  /** The characters the anchor cannot tell apart. */
  predicate Dash(c: char)
  {
    c == ' ' || c == '/' || c == '-'
  }

  /** Two relative paths of equal length have the same anchor exactly when they differ only where both hold a space, `/` or `-`. */
  lemma {:induction false} AnchorEqual(a: string, b: string)
    requires |a| == |b|
    ensures Anchor(a) == Anchor(b) <==> forall k :: 0 <= k < |a| ==> (a[k] == b[k] || (Dash(a[k]) && Dash(b[k])))
  {
    if Anchor(a) == Anchor(b) {
      forall k | 0 <= k < |a|
        ensures a[k] == b[k] || (Dash(a[k]) && Dash(b[k]))
      {
        assert Anchor(a)[k] == Anchor(b)[k];
      }
    }
    if forall k :: 0 <= k < |a| ==> (a[k] == b[k] || (Dash(a[k]) && Dash(b[k]))) {
      forall k | 0 <= k < |a|
        ensures Anchor(a)[k] == Anchor(b)[k]
      {
      }
    }
  }

  /** Distinct files can share an anchor: `x y`, `x/y` and `x-y` all link to the same place. */
  lemma {:induction false} AnchorCollision(x: string, y: string)
    ensures Anchor(x + " " + y) == Anchor(x + "/" + y) == Anchor(x + "-" + y)
  {
    AnchorEqual(x + " " + y, x + "/" + y);
    AnchorEqual(x + "/" + y, x + "-" + y);
  }

  /** What opening and reading one file gives: its text, or the failure's message. */
  datatype ReadResult = Text(contents: string) | Failure(message: string)

  /** What goes inside a section's fence: the text, or the error line when reading failed. */
  function Body(r: ReadResult): (b: string)
    ensures r.Text? ==> b == r.contents
    ensures r.Failure? ==> StartsWith(b, "Error reading file: ") && b[|"Error reading file: "|..] == r.message
  {
    match r
    case Text(contents) => contents
    case Failure(message) => "Error reading file: " + message
  }

  /** One scanned file as the report presents it. */
  datatype Entry = Entry(relPath: string, anchor: string, fullPath: string, language: string, body: string)

  /** The report before rendering. */
  datatype Report = Report(timestamp: string, sourceDir: string, fileTypes: string, entries: seq<Entry>)

  /** The `File types:` description: a fixed phrase beyond ten extensions, the comma-separated list otherwise. */
  function FileTypesText(extensions: seq<string>): string
  {
    if |extensions| > 10 then "All supported types" else Join(", ", extensions)
  }

  /** The header announces all supported types exactly when more than ten extensions are configured. */
  lemma {:induction false} FileTypesAll(extensions: seq<string>)
    requires forall k :: 0 <= k < |extensions| ==> StartsWith(extensions[k], ".")
    ensures FileTypesText(extensions) == "All supported types" <==> |extensions| > 10
  {
    if |extensions| <= 10 && extensions != [] {
      assert extensions[0][..1] == ".";
      JoinStartsWithFirst(", ", extensions);
    }
  }

  lemma {:induction false} JoinStartsWithFirst(sep: string, parts: seq<string>)
    requires parts != [] && parts[0] != ""
    ensures Join(sep, parts) != "" && Join(sep, parts)[0] == parts[0][0]
  {
  }

  /** The entry for one scanned file. */
  function MakeEntry(startPath: string, file: string, read: string -> ReadResult): (e: Entry)
    ensures e.fullPath == file
    ensures e.anchor == Anchor(e.relPath)
  {
    var rel := Paths.RelPath(file, startPath);
    Entry(rel, Anchor(rel), file, ExtensionTable.FileType(file), Body(read(file)))
  }

  /** One entry per scanned file, in the order of the list. */
  function Entries(startPath: string, files: seq<string>, read: string -> ReadResult): (es: seq<Entry>)
    ensures |es| == |files|
    ensures forall k :: 0 <= k < |files| ==> es[k] == MakeEntry(startPath, files[k], read)
  {
    seq(|files|, k requires 0 <= k < |files| => MakeEntry(startPath, files[k], read))
  }

  /** The report for the scanned files, in their order; file contents come from `read`. */
  function BuildReport(startPath: string, extensions: seq<string>, files: seq<string>,
                       timestamp: string, read: string -> ReadResult): (r: Report)
    ensures |r.entries| == |files|
    ensures forall k :: 0 <= k < |files| ==> r.entries[k] == MakeEntry(startPath, files[k], read)
  {
    Report(timestamp, startPath, FileTypesText(extensions), Entries(startPath, files, read))
  }

  // ---------------------------------------------------------------------
  // Rendering.
  // ---------------------------------------------------------------------

  /** The text a line-per-entry loop writes, built from the back. */
  function Each(entries: seq<Entry>, line: Entry -> string): string
  {
    if entries == [] then "" else Each(entries[..|entries| - 1], line) + line(entries[|entries| - 1])
  }

  lemma {:induction false} EachAppend(a: seq<Entry>, b: seq<Entry>, line: Entry -> string)
    ensures Each(a + b, line) == Each(a, line) + Each(b, line)
    decreases |b|
  {
    if b == [] {
      assert a + b == a;
    } else {
      var b' := b[..|b| - 1];
      assert (a + b)[..|a + b| - 1] == a + b';
      EachAppend(a, b', line);
    }
  }

  lemma {:induction false} EachSnoc(entries: seq<Entry>, i: nat, line: Entry -> string)
    requires i < |entries|
    ensures Each(entries[..i + 1], line) == Each(entries[..i], line) + line(entries[i])
  {
    assert entries[..i + 1][..i] == entries[..i];
  }

  /** The loop that has passed every entry has written all their lines. */
  lemma {:induction false} EachAll(entries: seq<Entry>, line: Entry -> string)
    ensures Each(entries[..|entries|], line) == Each(entries, line)
  {
    assert entries[..|entries|] == entries;
  }

  /** The same, after a prefix already written: one more line extends the text. */
  lemma {:induction false} EachSnocAfter(prefix: string, entries: seq<Entry>, i: nat, line: Entry -> string)
    requires i < |entries|
    ensures prefix + Each(entries[..i + 1], line) == prefix + Each(entries[..i], line) + line(entries[i])
  {
    EachSnoc(entries, i, line);
  }

  /** The entry at position `i` contributes its line between those of the entries before and after it. */
  lemma {:induction false} EachSplit(entries: seq<Entry>, i: nat, line: Entry -> string)
    requires i < |entries|
    ensures Each(entries, line) == Each(entries[..i], line) + line(entries[i]) + Each(entries[i + 1..], line)
  {
    var front, back := entries[..i + 1], entries[i + 1..];
    assert Each(entries, line) == Each(front, line) + Each(back, line) by {
      assert entries == front + back;
      EachAppend(front, back, line);
    }
    assert Each(front, line) == Each(entries[..i], line) + line(entries[i]) by {
      EachSnoc(entries, i, line);
    }
  }

  /** The header, one write per part. */
  function HeaderText(timestamp: string, sourceDir: string, fileTypes: string): string
  {
    "# Files Concatenation Report\n\n"
    + ("Generated on: " + timestamp + "\n\n")
    + ("Source directory: " + sourceDir + "\n")
    + ("File types: " + fileTypes + "\n\n")
    + "---\n\n"
    + "## Table of Contents\n\n"
  }

  /** A table-of-contents line: the relative path linking to the section's anchor. */
  function TocLine(e: Entry): string
  {
    "- [" + e.relPath + "](#" + e.anchor + ")\n"
  }

  /** The section heading, carrying the anchor id the table of contents links to. */
  function Heading(e: Entry): string
  {
    "## <a id='" + e.anchor + "'></a>File: " + e.relPath + "\n"
  }

  function FullPathLine(e: Entry): string
  {
    "**Full Path**: `" + e.fullPath + "`\n\n"
  }

  function FenceOpen(e: Entry): string
  {
    "```" + e.language + "\n"
  }

  /** A section: heading, absolute path, and the body in a fence labelled with the language. */
  function SectionText(e: Entry): string
  {
    Heading(e) + FullPathLine(e) + FenceOpen(e) + e.body + "\n```\n\n" + "---\n\n"
  }

  function ListLine(e: Entry): string
  {
    "- " + e.relPath + "\n"
  }

  function SummaryHead(count: nat): string
  {
    "## Summary\n" + ("Total files processed: " + NatToDecimal(count) + "\n\n") + "### Files List:\n"
  }

  function SummaryText(entries: seq<Entry>): string
  {
    SummaryHead(|entries|) + Each(entries, ListLine)
  }

  /** The whole document. */
  function Render(r: Report): string
  {
    HeaderText(r.timestamp, r.sourceDir, r.fileTypes) + Each(r.entries, TocLine) + "\n---\n\n"
    + Each(r.entries, SectionText) + SummaryText(r.entries)
  }

  // ---------------------------------------------------------------------
  // What the document says about the files.
  // ---------------------------------------------------------------------

  lemma {:induction false} ContainsSelf(x: string)
    ensures Contains(x, x)
  {
    assert StartsWith(x, x);
  }

  lemma {:induction false} ContainsInRight(a: string, b: string, x: string)
    requires Contains(b, x)
    ensures Contains(a + b, x)
  {
    ContainsIffOccurs(b, x);
    var i :| OccursAt(b, x, i);
    assert (a + b)[|a| + i..|a| + i + |x|] == b[i..i + |x|];
    assert OccursAt(a + b, x, |a| + i);
    ContainsIffOccurs(a + b, x);
  }

  lemma {:induction false} ContainsInLeft(a: string, b: string, x: string)
    requires Contains(a, x)
    ensures Contains(a + b, x)
  {
    ContainsIffOccurs(a, x);
    var i :| OccursAt(a, x, i);
    assert (a + b)[i..i + |x|] == a[i..i + |x|];
    assert OccursAt(a + b, x, i);
    ContainsIffOccurs(a + b, x);
  }

  /** Containment composes: a part of a part is a part. */
  lemma {:induction false} ContainsTransitive(a: string, b: string, c: string)
    requires Contains(a, b) && Contains(b, c)
    ensures Contains(a, c)
  {
    ContainsIffOccurs(a, b);
    ContainsIffOccurs(b, c);
    var i :| OccursAt(a, b, i);
    var j :| OccursAt(b, c, j);
    assert forall t :: 0 <= t < |c| ==> c[t] == b[j + t] == a[i + j + t];
    assert c == a[i + j..i + j + |c|];
    assert OccursAt(a, c, i + j);
    ContainsIffOccurs(a, c);
  }

  /** Each entry's line lies inside the text of a line-per-entry loop. */
  lemma {:induction false} EachContains(entries: seq<Entry>, i: nat, line: Entry -> string)
    requires i < |entries|
    ensures Contains(Each(entries, line), line(entries[i]))
  {
    EachSplit(entries, i, line);
    ContainsSelf(line(entries[i]));
    ContainsInRight(Each(entries[..i], line), line(entries[i]), line(entries[i]));
    ContainsInLeft(Each(entries[..i], line) + line(entries[i]), Each(entries[i + 1..], line), line(entries[i]));
  }

  /**
   * The three lists agree: the table of contents, the sections and the
   * summary are each one part per entry of the same sequence, and the
   * `i`-th table-of-contents line links to the anchor id of the `i`-th
   * section's heading, both derived from the `i`-th file's relative path.
   */
  lemma {:induction false} ListsAgree(startPath: string, extensions: seq<string>, files: seq<string>,
                   timestamp: string, read: string -> ReadResult, i: nat)
    requires i < |files|
    ensures var e := BuildReport(startPath, extensions, files, timestamp, read).entries[i];
            var rel := Paths.RelPath(files[i], startPath);
            e.relPath == rel && e.anchor == Anchor(rel) && e.fullPath == files[i]
            && TocLine(e) == "- [" + rel + "](#" + Anchor(rel) + ")\n"
            && Heading(e) == "## <a id='" + Anchor(rel) + "'></a>File: " + rel + "\n"
            && StartsWith(SectionText(e), Heading(e))
            && ListLine(e) == "- " + rel + "\n"
  {
    var e := BuildReport(startPath, extensions, files, timestamp, read).entries[i];
    var h := Heading(e);
    StartsWithExtend(h, FullPathLine(e), h);
    StartsWithExtend(h + FullPathLine(e), FenceOpen(e), h);
    StartsWithExtend(h + FullPathLine(e) + FenceOpen(e), e.body, h);
    StartsWithExtend(h + FullPathLine(e) + FenceOpen(e) + e.body, "\n```\n\n", h);
    StartsWithExtend(h + FullPathLine(e) + FenceOpen(e) + e.body + "\n```\n\n", "---\n\n", h);
  }

  lemma {:induction false} StartsWithExtend(a: string, b: string, p: string)
    requires StartsWith(a, p) || a == p
    ensures StartsWith(a + b, p)
  {
    assert (a + b)[..|p|] == a[..|p|];
  }

  /** Every file has its table-of-contents line, its section and its summary line in the document. */
  lemma {:induction false} EveryFileRendered(r: Report, i: nat)
    requires i < |r.entries|
    ensures Contains(Render(r), TocLine(r.entries[i]))
    ensures Contains(Render(r), SectionText(r.entries[i]))
    ensures Contains(Render(r), ListLine(r.entries[i]))
  {
    var es := r.entries;
    var h := HeaderText(r.timestamp, r.sourceDir, r.fileTypes);
    var toc := Each(es, TocLine);
    var secs := Each(es, SectionText);
    var sum := SummaryText(r.entries);
    EachContains(es, i, TocLine);
    ContainsInRight(h, toc, TocLine(es[i]));
    ContainsInLeft(h + toc, "\n---\n\n", TocLine(es[i]));
    ContainsInLeft(h + toc + "\n---\n\n", secs, TocLine(es[i]));
    ContainsInLeft(h + toc + "\n---\n\n" + secs, sum, TocLine(es[i]));
    EachContains(es, i, SectionText);
    ContainsInRight(h + toc + "\n---\n\n", secs, SectionText(es[i]));
    ContainsInLeft(h + toc + "\n---\n\n" + secs, sum, SectionText(es[i]));
    EachContains(es, i, ListLine);
    ContainsInRight(SummaryHead(|es|), Each(es, ListLine), ListLine(es[i]));
    ContainsInRight(h + toc + "\n---\n\n" + secs, sum, ListLine(es[i]));
  }

  /** A file that cannot be read gets the error line as its section's body, and the document goes on to the next file. */
  lemma {:induction false} ReadFailureRendered(startPath: string, extensions: seq<string>, files: seq<string>,
                            timestamp: string, read: string -> ReadResult, i: nat)
    requires i < |files| && read(files[i]).Failure?
    ensures var r := BuildReport(startPath, extensions, files, timestamp, read);
            r.entries[i].body == "Error reading file: " + read(files[i]).message
            && Contains(Render(r), "Error reading file: " + read(files[i]).message)
            && forall k :: i < k < |files| ==> Contains(Render(r), SectionText(r.entries[k]))
  {
    var r := BuildReport(startPath, extensions, files, timestamp, read);
    var e := r.entries[i];
    EveryFileRendered(r, i);
    var a := Heading(e) + FullPathLine(e) + FenceOpen(e);
    ContainsSelf(e.body);
    ContainsInRight(a, e.body, e.body);
    ContainsInLeft(a + e.body, "\n```\n\n", e.body);
    ContainsInLeft(a + e.body + "\n```\n\n", "---\n\n", e.body);
    ContainsTransitive(Render(r), SectionText(e), e.body);
    forall k | i < k < |files|
      ensures Contains(Render(r), SectionText(r.entries[k]))
    {
      EveryFileRendered(r, k);
    }
  }

  /** The summary's count is the number of files, written in decimal. */
  lemma {:induction false} SummaryCount(r: Report)
    ensures Contains(Render(r), "Total files processed: " + NatToDecimal(|r.entries|) + "\n\n")
    ensures DecimalValue(NatToDecimal(|r.entries|)) == |r.entries|
  {
    var line := "Total files processed: " + NatToDecimal(|r.entries|) + "\n\n";
    var pre := HeaderText(r.timestamp, r.sourceDir, r.fileTypes) + Each(r.entries, TocLine) + "\n---\n\n" + Each(r.entries, SectionText);
    ContainsSelf(line);
    ContainsInRight("## Summary\n", line, line);
    ContainsInLeft("## Summary\n" + line, "### Files List:\n", line);
    ContainsInLeft(SummaryHead(|r.entries|), Each(r.entries, ListLine), line);
    ContainsInRight(pre, SummaryText(r.entries), line);
  }
}
