/**
 * The static table from file extension (lower case, with its leading `.`)
 * to the label written after the opening fence of a file's section, and
 * the lookup of a path's label with `plaintext` as the fallback.
 */
module ExtensionTable {
  import opened Wrappers
  import opened Strings
  import opened Paths

  /** The number of entries of `SUPPORTED_EXTENSIONS`. */
  const EntryCount: nat := 56

  /**
   * The `k`-th entry of `SUPPORTED_EXTENSIONS` in the order of the dictionary
   * literal, its extension written without the leading `.`, which
   * `SupportedExtensions` puts back.
   */
  function Entry(k: nat): (string, string)
    requires k < EntryCount
  {
    match k
    case 0 => ("tf", "hcl")
    case 1 => ("tfvars", "hcl")
    case 2 => ("yaml", "yaml")
    case 3 => ("yml", "yaml")
    case 4 => ("json", "json")
    case 5 => ("xml", "xml")
    case 6 => ("toml", "toml")
    case 7 => ("ini", "ini")
    case 8 => ("conf", "nginx")
    case 9 => ("config", "xml")
    case 10 => ("env", "plaintext")
    case 11 => ("js", "javascript")
    case 12 => ("jsx", "jsx")
    case 13 => ("ts", "typescript")
    case 14 => ("tsx", "tsx")
    case 15 => ("html", "html")
    case 16 => ("css", "css")
    case 17 => ("scss", "scss")
    case 18 => ("less", "less")
    case 19 => ("vue", "vue")
    case 20 => ("svelte", "svelte")
    case 21 => ("py", "python")
    case 22 => ("java", "java")
    case 23 => ("go", "go")
    case 24 => ("rb", "ruby")
    case 25 => ("php", "php")
    case 26 => ("cs", "csharp")
    case 27 => ("cpp", "cpp")
    case 28 => ("c", "c")
    case 29 => ("rs", "rust")
    case 30 => ("scala", "scala")
    case 31 => ("kt", "kotlin")
    case 32 => ("swift", "swift")
    case 33 => ("sql", "sql")
    case 34 => ("prisma", "prisma")
    case 35 => ("graphql", "graphql")
    case 36 => ("gql", "graphql")
    case 37 => ("sh", "bash")
    case 38 => ("bash", "bash")
    case 39 => ("zsh", "bash")
    case 40 => ("fish", "fish")
    case 41 => ("ps1", "powershell")
    case 42 => ("bat", "batch")
    case 43 => ("cmd", "batch")
    case 44 => ("md", "markdown")
    case 45 => ("mdx", "mdx")
    case 46 => ("txt", "plaintext")
    case 47 => ("rst", "rst")
    case 48 => ("dockerfile", "dockerfile")
    case 49 => ("containerfile", "dockerfile")
    case 50 => ("lock", "yaml")
    case 51 => ("gradle", "groovy")
    case 52 => ("maven", "xml")
    case 53 => ("pom", "xml")
    case 54 => ("vim", "vim")
    case _ => ("lua", "lua")
  }

  /** `SUPPORTED_EXTENSIONS`: extension (with its `.`) to fence label. */
  function SupportedExtensions(): seq<(string, string)>
  {
    seq(EntryCount, k requires 0 <= k < EntryCount => ("." + Entry(k).0, Entry(k).1))
  }

  /** The table's keys, in the order of the dictionary literal. */
  function Keys(): (keys: seq<string>)
    ensures |keys| == |SupportedExtensions()|
    ensures forall k :: 0 <= k < |keys| ==> keys[k] == SupportedExtensions()[k].0
  {
    seq(|SupportedExtensions()|, k requires 0 <= k < |SupportedExtensions()| => SupportedExtensions()[k].0)
  }

  /** `table.get(key)`: the value paired with the first entry whose key is `key`. */
  function Lookup(table: seq<(string, string)>, key: string): (r: Option<string>)
    ensures r.None? <==> forall k :: 0 <= k < |table| ==> table[k].0 != key
    ensures r.Some? ==> exists k :: 0 <= k < |table| && table[k] == (key, r.value)
                                    && forall m :: 0 <= m < k ==> table[m].0 != key
  {
    if table == [] then None
    else if table[0].0 == key then Some(table[0].1)
    else Lookup(table[1..], key)
  }

  /** The key looked up for a path: its `splitext` extension, lower-cased. */
  function ExtensionKey(path: string): string
  {
    AsciiLower(SplitExt(path).1)
  }

  /** `get_file_type(path)`: the table's label for the path's extension, else `plaintext`. */
  function FileType(path: string): (r: string)
    ensures (exists k :: 0 <= k < |SupportedExtensions()| && SupportedExtensions()[k] == (ExtensionKey(path), r))
            || (ExtensionKey(path) !in Keys() && r == "plaintext")
  {
    match Lookup(SupportedExtensions(), ExtensionKey(path))
    case Some(lang) => lang
    case None => "plaintext"
  }

  /** Every key of the table starts with `.`. */
  lemma KeysDotted()
    ensures forall k :: 0 <= k < |Keys()| ==> StartsWith(Keys()[k], ".")
  {
    forall k | 0 <= k < |Keys()|
      ensures StartsWith(Keys()[k], ".")
    {
      assert Keys()[k][..1] == ".";
    }
  }

  /**
   * No extension appears twice in the table, so the first entry with a key
   * is also the last one, the one a Python dictionary literal keeps.
   */
  lemma KeysDistinct()
    ensures forall i, j :: 0 <= i < j < EntryCount ==> Entry(i).0 != Entry(j).0
  {
  }

  /** The label of a path whose extension is a key is that key's entry. */
  lemma {:induction false} FileTypeOfKey(path: string, k: nat)
    requires k < |SupportedExtensions()| && SupportedExtensions()[k].0 == ExtensionKey(path)
    ensures FileType(path) == SupportedExtensions()[k].1
  {
    var table := SupportedExtensions();
    var m :| 0 <= m < |table| && table[m] == (ExtensionKey(path), FileType(path));
    assert m == k by {
      assert Entry(m).0 == Entry(k).0 by {
        assert table[m].0 == "." + Entry(m).0 && table[k].0 == "." + Entry(k).0;
        assert ("." + Entry(m).0)[1..] == Entry(m).0 && ("." + Entry(k).0)[1..] == Entry(k).0;
      }
      KeysDistinct();
    }
  }

  /** The label depends on the extension's letters only, not on their case. */
  lemma {:induction false} FileTypeIgnoresCase(path: string)
    ensures FileType(AsciiLower(path)) == FileType(path)
  {
    SplitExtLower(path);
    AsciiLowerIdempotent(SplitExt(path).1);
  }

  /** Upper-case extensions are looked up in lower case: `App.TSX` is looked up as `.tsx`. */
  lemma ExtensionKeyUpperCase()
    ensures ExtensionKey("/src/App.TSX") == ".tsx"
  {
    var p := "/src/App.TSX";
    assert ExtensionStart(p) == 8 by {
      assert p[4] == '/' && p[8] == '.' && p[5] != '.';
      assert LastIndexOf(p, '/') == 4 && LastIndexOf(p, '.') == 8;
    }
    assert SplitExt(p).1 == ".TSX" by {
      assert p[8..] == ".TSX";
    }
    assert AsciiLower(".TSX") == ".tsx";
  }

  /** Only the last extension counts: `archive.tar.gz` is looked up as `.gz`. */
  lemma ExtensionKeyLastExtension()
    ensures ExtensionKey("/src/archive.tar.gz") == ".gz"
  {
    var p := "/src/archive.tar.gz";
    assert ExtensionStart(p) == 16 by {
      assert p[4] == '/' && p[16] == '.' && p[5] != '.';
      assert LastIndexOf(p, '/') == 4 && LastIndexOf(p, '.') == 16;
    }
    assert SplitExt(p).1 == ".gz" by {
      assert p[16..] == ".gz";
    }
    assert AsciiLower(".gz") == ".gz";
  }

  /** A name that only starts with a dot has no extension, so `.py` alone is labelled `plaintext`. */
  lemma FileTypeHiddenFile()
    ensures ExtensionKey("/src/.py") == ""
    ensures FileType("/src/.py") == "plaintext"
  {
    var p := "/src/.py";
    assert ExtensionStart(p) == |p| by {
      assert p[4] == '/' && p[5] == '.';
      assert LastIndexOf(p, '/') == 4 && LastIndexOf(p, '.') == 5;
    }
    assert SplitExt(p).1 == "";
    forall k | 0 <= k < |Keys()|
      ensures Keys()[k] != ""
    {
      KeysDotted();
    }
  }
}
