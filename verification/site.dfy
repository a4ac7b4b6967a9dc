/**
 The site of `mudi/site.py`: its directories, the scan of the content tree,
 page registration, and the plan of `make`.

 Everything the site does to the outside world (Jinja rendering, writing and
 copying files, compiling Sass) is represented by a `SiteAction` value naming
 the Site method that would be called; the file loaders are parameters.
 */
module Sites {
  import opened Base
  import opened Values
  import opened Paths
  import opened Pages
  import SassModels
  import MarkdownModels

  /** The site settings record (mudi/models/site.py); `absolute_link` has no
      role in the modelled code and is omitted. */
  datatype SiteSettings = SiteSettings(
    inputDir: Path,
    outputDir: Path,
    templateDir: Path,
    contentDir: Path,
    defaultTemplate: string,
    sass: Option<SassModels.SassSettings>,
    markdown: MarkdownModels.MarkdownSettings)

  /** The field defaults of mudi/models/site.py:10-17. */
  const DefaultSettings: SiteSettings :=
    SiteSettings(["src"], ["dist"], ["templates"], ["content"], "default.html", None, MarkdownModels.Defaults)

  /** The Site method calls the modelled code makes, each with its argument.
      The dispatcher calls `_get_jinja_env`, `render_all_pages`,
      `add_page_from_file`, `remove_page_from_file` and `delete_file`, which
      the Site class of mudi/site.py does not define; they are kept abstract.
      `CopyFile` records the argument of `copy_file`; where that call writes
      is `CopyTarget`. */
  datatype SiteAction =
    | CopyFile(file: Path)
    | RenderPage(page: Page)
    | CompileSass
    | ReloadTemplates
    | RenderAllPages
    | AddPageFromFile(path: Path)
    | RemovePageFromFile(path: Path)
    | DeleteFile(file: Path)

  /** The site's state after construction. `pageOrder` lists the keys of the
      `pages` dict in insertion order (the order `pages.values()` yields);
      `collections` is the `defaultdict(list)` of member lists. */
  datatype Site = Site(
    settings: SiteSettings,
    files: seq<Path>,
    filesToCopy: seq<Path>,
    pageOrder: seq<Path>,
    pages: map<Path, Page>,
    collections: map<string, seq<Page>>)

  /** `pageOrder` and `pages` describe one insertion-ordered dict, and every
      page is stored under its own name. */
  ghost predicate Valid(s: Site) {
    && (forall i, j :: 0 <= i < j < |s.pageOrder| ==> s.pageOrder[i] != s.pageOrder[j])
    && (forall n :: n in s.pages <==> n in s.pageOrder)
    && (forall n | n in s.pages :: s.pages[n].name == n)
  }

  // ----- Directories -----

  /** `Site.template_dir` (mudi/site.py:49-51): inside the input directory,
      under the configured name. */
  function TemplateDir(settings: SiteSettings): (r: Path)
    ensures RelativeTo(r, settings.inputDir) == Ok(settings.templateDir)
  {
    AppendParts(settings.inputDir, settings.templateDir);
    settings.inputDir + settings.templateDir
  }

  /** `Site.content_dir` (mudi/site.py:53-55): inside the input directory,
      under the configured name. */
  function ContentDir(settings: SiteSettings): (r: Path)
    ensures RelativeTo(r, settings.inputDir) == Ok(settings.contentDir)
  {
    AppendParts(settings.inputDir, settings.contentDir);
    settings.inputDir + settings.contentDir
  }

  /** `Site.output_dir` (mudi/site.py:57-59): the configured directory itself,
      not placed under the input directory. */
  function OutputDir(settings: SiteSettings): (r: Path)
    ensures r == settings.outputDir
  {
    settings.outputDir
  }

  /** The Sass source directory, when Sass is configured: the `sass_in` field
      of the Sass settings (mudi/models/sass.py:6). The watcher watches the
      same directory, and nothing when Sass is not configured
      (mudi/watcher.py:18-22). */
  function SassIn(settings: SiteSettings): (r: Option<Path>)
    ensures r.Some? <==> settings.sass.Some?
    ensures r.Some? ==> r.value == settings.sass.value.sassIn
  {
    match settings.sass
    case None => None
    case Some(sass) => Some(sass.sassIn)
  }

  /** With the default settings the templates are read from `src/templates`,
      the content from `src/content`, output goes to `dist`, and no file is a
      Sass source, because Sass is not configured. */
  lemma DefaultDirectories(f: Path)
    ensures TemplateDir(DefaultSettings) == ["src", "templates"]
    ensures ContentDir(DefaultSettings) == ["src", "content"]
    ensures OutputDir(DefaultSettings) == ["dist"]
    ensures SassIn(DefaultSettings) == None && !IsSassFile(DefaultSettings, f)
  {
  }

  /** The template and content directories sit under the input directory and
      move with it; the output directory is taken as configured and does not. */
  lemma InputDirMovesSourcesOnly(settings: SiteSettings, d: Path)
    ensures var moved := settings.(inputDir := d);
            && TemplateDir(moved) == d + settings.templateDir
            && ContentDir(moved) == d + settings.contentDir
            && OutputDir(moved) == OutputDir(settings)
  {
    var moved := settings.(inputDir := d);
    assert RelativeTo(TemplateDir(moved), d) == Ok(settings.templateDir);
    assert RelativeTo(ContentDir(moved), d) == Ok(settings.contentDir);
  }

  // ----- Classification of scanned entries -----

  /** `Site.is_sass_file` (mudi/site.py:61-68) as written: with Sass
      configured, a `.sass` or `.scss` file makes it read
      `settings.sass.sass_dir`, a field the Sass settings record does not have
      (it is called `sass_in`, mudi/models/sass.py:6), so pydantic raises
      AttributeError. Any other file, or no Sass settings, gives False. */
  function IsSassFileAsWritten(settings: SiteSettings, filename: Path): (r: Result<bool>)
    ensures r.Err? <==> settings.sass.Some? && (Suffix(filename) == ".sass" || Suffix(filename) == ".scss")
    ensures r.Err? ==> r.error == AttributeError
    ensures r.Ok? ==> !r.value
  {
    match settings.sass
    case None => Ok(false)
    case Some(_) =>
      if Suffix(filename) == ".sass" || Suffix(filename) == ".scss" then Err(AttributeError) else Ok(false)
  }

  /** `Site.is_sass_file` as evidently intended: the Sass directory is read
      from `sass_in`. A Sass source is a `.sass` or `.scss` file strictly
      inside it; without Sass settings there is none. */
  function IsSassFile(settings: SiteSettings, filename: Path): (r: bool)
    ensures settings.sass.None? ==> !r
    ensures r ==> Suffix(filename) == ".sass" || Suffix(filename) == ".scss"
    ensures settings.sass.Some? ==>
              (r <==> (Suffix(filename) == ".sass" || Suffix(filename) == ".scss")
                      && IsStrictAncestor(settings.sass.value.sassIn, filename))
  {
    match SassIn(settings)
    case None => false
    case Some(dir) =>
      (Suffix(filename) == ".sass" || Suffix(filename) == ".scss") && IsStrictAncestor(dir, filename)
  }

  /** A stylesheet `a.scss` in the Sass directory: the written test raises
      AttributeError, the intended one recognises a Sass source, which the
      scan then skips. */
  lemma SassDirDiscrepancy(settings: SiteSettings)
    requires settings.sass.Some?
    ensures var f := settings.sass.value.sassIn + ["a.scss"];
            && IsSassFileAsWritten(settings, f) == Err(AttributeError)
            && IsSassFile(settings, f)
            && Classify(settings, f) == SassSource
  {
    var f := settings.sass.value.sassIn + ["a.scss"];
    AppendParts(settings.sass.value.sassIn, ["a.scss"]);
    assert Name(f) == "a.scss";
    assert LastDot("a.scss") == Some(1) by {
      assert "a.scss"[..5] == "a.scs";
      assert "a.scs"[..4] == "a.sc";
      assert "a.sc"[..3] == "a.s";
      assert "a.s"[..2] == "a.";
    }
    assert "a.scss"[1..] == ".scss";
    assert Suffix(f) == ".scss";
  }

  datatype EntryKind = MarkdownPage | HtmlPage | SassSource | CopiedFile

  /** The branch `_parse_tree` takes for a kept entry (mudi/site.py:79-91):
      the tests are made in this order, and anything else, directories
      included, is copied. A Sass file never has a page suffix, so the order
      of the tests decides nothing. */
  function Classify(settings: SiteSettings, filename: Path): (r: EntryKind)
    ensures r == MarkdownPage <==> Suffix(filename) == ".md"
    ensures r == HtmlPage <==> Suffix(filename) == ".html"
    ensures r == SassSource <==> IsSassFile(settings, filename)
    ensures r == CopiedFile <==>
              Suffix(filename) != ".md" && Suffix(filename) != ".html" && !IsSassFile(settings, filename)
  {
    if Suffix(filename) == ".md" then MarkdownPage
    else if Suffix(filename) == ".html" then HtmlPage
    else if IsSassFile(settings, filename) then SassSource
    else CopiedFile
  }

  /** The entry filter of `_parse_tree` (mudi/site.py:71-75) as written:
      `rel_name(...)` is a Path and `[0]` on a Path raises TypeError, so every
      entry that gets that far makes the scan fail. */
  function KeepEntryAsWritten(settings: SiteSettings, filename: Path): (r: Result<bool>)
    ensures r.Err?
    ensures r.error == TypeError <==> IsStrictAncestor(ContentDir(settings), filename)
    ensures r.error != TypeError ==> r.error == ValueError
  {
    var rel :- RelName(filename, ContentDir(settings));
    Err(TypeError)
  }

  /** The entry filter as evidently intended: keep the entry unless its name
      relative to the content directory starts with a dot. Only the first
      character is examined, so a hidden top-level entry (or anything under a
      hidden top-level directory) is dropped, while `a/.hidden` is kept. */
  function KeepEntry(settings: SiteSettings, filename: Path): (r: Result<bool>)
    ensures r.Ok? <==> IsStrictAncestor(ContentDir(settings), filename)
    ensures r.Ok? ==> (r.value <==> filename[|ContentDir(settings)|][0] != '.')
  {
    var rel :- RelName(filename, ContentDir(settings));
    Ok(rel[0][0] != '.')
  }

  /** The list comprehension of mudi/site.py:71-75 with the written filter:
      it succeeds only on an empty content tree, and fails at the first entry
      with TypeError (ValueError if that entry is outside the content
      directory). */
  function KeptFilesAsWritten(settings: SiteSettings, entries: seq<Path>): (r: Result<seq<Path>>)
    ensures r.Ok? <==> |entries| == 0
    ensures |entries| > 0 && IsStrictAncestor(ContentDir(settings), entries[0]) ==> r == Err(TypeError)
    ensures |entries| > 0 && !IsStrictAncestor(ContentDir(settings), entries[0]) ==> r == Err(ValueError)
  {
    if |entries| == 0 then Ok([])
    else
      // The filter raises on the first entry, before any later one is looked at.
      var first := KeepEntryAsWritten(settings, entries[0]);
      Err(first.error)
  }

  /** A content tree holding one stylesheet: the written comprehension raises
      TypeError, the intended one keeps the file. */
  lemma HiddenFilterDiscrepancy(settings: SiteSettings)
    ensures var entry := ContentDir(settings) + ["style.css"];
            && KeptFilesAsWritten(settings, [entry]) == Err(TypeError)
            && KeptFiles(settings, [entry]) == Ok([entry])
  {
    var entry := ContentDir(settings) + ["style.css"];
    AppendParts(ContentDir(settings), ["style.css"]);
    assert IsStrictAncestor(ContentDir(settings), entry);
    assert entry[|entry| - 1] == "style.css";
    StemSuffixSplit("style.css");
    assert KeepEntry(settings, entry) == Ok(true);
    var single: seq<Path> := [entry];
    assert single[1..] == [];
    assert KeptFiles(settings, single[1..]) == Ok([]);
    assert single[0] == entry;
    assert KeptFiles(settings, single) == Ok([entry] + []);
    assert [entry] + [] == single;
  }

  /** The entries the intended filter keeps, in entry order, each as often as
      it occurs. */
  function Visible(settings: SiteSettings, entries: seq<Path>): seq<Path>
  {
    if |entries| == 0 then []
    else (if KeepEntry(settings, entries[0]) == Ok(true) then [entries[0]] else []) + Visible(settings, entries[1..])
  }

  /** The list comprehension with the intended filter: the entries in glob
      order, minus the hidden ones; the first entry outside the content
      directory raises ValueError. */
  function KeptFiles(settings: SiteSettings, entries: seq<Path>): (r: Result<seq<Path>>)
    ensures r.Ok? ==> r.value == Visible(settings, entries)
    ensures r.Ok? <==> forall e | e in entries :: IsStrictAncestor(ContentDir(settings), e)
    ensures r.Err? ==> r.error == ValueError
    ensures r.Ok? ==> forall f | f in r.value :: f in entries && KeepEntry(settings, f) == Ok(true)
    ensures r.Ok? ==> forall e | e in entries && KeepEntry(settings, e) == Ok(true) :: e in r.value
  {
    if |entries| == 0 then Ok([])
    else
      InHeadOrTail(entries);
      match KeepEntry(settings, entries[0])
      case Err(e) => Err(e)
      case Ok(keep) =>
        match KeptFiles(settings, entries[1..])
        case Err(e) => Err(e)
        case Ok(rest) =>
          InCons(entries[0], rest);
          Ok(if keep then [entries[0]] + rest else rest)
  }

  /** One entry: ValueError outside the content directory, otherwise the
      entry itself when the filter keeps it and nothing when it does not. */
  lemma KeptFilesSingle(settings: SiteSettings, e: Path)
    ensures !IsStrictAncestor(ContentDir(settings), e) ==> KeptFiles(settings, [e]) == Err(ValueError)
    ensures KeepEntry(settings, e) == Ok(true) ==> KeptFiles(settings, [e]) == Ok([e])
    ensures KeepEntry(settings, e) == Ok(false) ==> KeptFiles(settings, [e]) == Ok([])
  {
    var single: seq<Path> := [e];
    assert single[0] == e && single[1..] == [];
    assert KeptFiles(settings, single[1..]) == Ok([]);
    AppendNil([e]);
  }

  /** Filtering a concatenation concatenates the filtered parts. */
  lemma {:induction false} VisibleAppend(settings: SiteSettings, a: seq<Path>, b: seq<Path>)
    ensures Visible(settings, a + b) == Visible(settings, a) + Visible(settings, b)
    decreases |a|
  {
    if |a| == 0 {
      assert a + b == b;
    } else {
      var ab := a + b;
      assert ab[0] == a[0] && ab[1..] == a[1..] + b;
      VisibleAppend(settings, a[1..], b);
      var kept := if KeepEntry(settings, a[0]) == Ok(true) then [a[0]] else [];
      assert Visible(settings, a) == kept + Visible(settings, a[1..]);
      assert Visible(settings, ab) == kept + (Visible(settings, a[1..]) + Visible(settings, b));
      AppendAssoc(kept, Visible(settings, a[1..]), Visible(settings, b));
    }
  }

  /** The comprehension keeps the glob's order and multiplicity: when both
      parts of a content tree are inside the content directory, the files
      kept from their concatenation are the files kept from the first part
      followed by those kept from the second. With `KeptFilesSingle` this
      pins the result down to the kept entries, in entry order. */
  lemma KeptFilesAppend(settings: SiteSettings, a: seq<Path>, b: seq<Path>)
    requires KeptFiles(settings, a).Ok? && KeptFiles(settings, b).Ok?
    ensures KeptFiles(settings, a + b) == Ok(KeptFiles(settings, a).value + KeptFiles(settings, b).value)
  {
    forall e | e in a + b
      ensures IsStrictAncestor(ContentDir(settings), e)
    {
      assert e in a || e in b;
    }
    VisibleAppend(settings, a, b);
  }

  // ----- Registration -----

  /** The collection names `_register_page` iterates over (mudi/site.py:97):
      the items of a list of strings, or the characters of a string (Python
      iterates a string character by character). Values that cannot be
      iterated raise TypeError. */
  function CollectionNames(v: Value): (r: Result<seq<string>>)
    ensures v.VList? ==> (r.Ok? <==> forall i :: 0 <= i < |v.items| ==> v.items[i].VStr?)
    ensures v.VList? && r.Ok? ==> |r.value| == |v.items| && forall i :: 0 <= i < |v.items| ==> r.value[i] == v.items[i].s
    ensures v.VStr? ==> r == Ok(seq(|v.s|, i requires 0 <= i < |v.s| => [v.s[i]]))
    ensures !v.VList? && !v.VStr? ==> r == Err(TypeError)
  {
    match v
    case VList(items) =>
      if forall i :: 0 <= i < |items| ==> items[i].VStr? then
        Ok(seq(|items|, i requires 0 <= i < |items| => items[i].s))
      else Err(TypeError)
    case VStr(s) => Ok(seq(|s|, i requires 0 <= i < |s| => [s[i]]))
    case _ => Err(TypeError)
  }

  /** The members of collection `c`; a `defaultdict(list)` reads a missing
      collection as empty. */
  function Members(cols: map<string, seq<Page>>, c: string): seq<Page> {
    if c in cols then cols[c] else []
  }

  /** `n` copies of `p`. */
  function Repeat(p: Page, n: nat): (r: seq<Page>)
    ensures |r| == n && forall i :: 0 <= i < n ==> r[i] == p
  {
    seq(n, _ => p)
  }

  /** How many times `c` occurs in `names`. */
  function Count(names: seq<string>, c: string): nat {
    if |names| == 0 then 0 else (if names[0] == c then 1 else 0) + Count(names[1..], c)
  }

  /** Appending one more copy of `p` after `s + [p]`. */
  lemma AppendRepeat(s: seq<Page>, p: Page, k: nat)
    ensures s + [p] + Repeat(p, k) == s + Repeat(p, k + 1)
  {
    assert Repeat(p, k + 1) == [p] + Repeat(p, k);
  }

  /** The loop of mudi/site.py:97-98: `page` is appended to each listed
      collection in turn. A collection listed k times gets k copies of the
      page at its end, a missing one is created, and the others are untouched. */
  function AppendToCollections(cols: map<string, seq<Page>>, names: seq<string>, page: Page)
    : (r: map<string, seq<Page>>)
    ensures forall c :: c in r <==> c in cols || c in names
    ensures forall c | c in r :: r[c] == Members(cols, c) + Repeat(page, Count(names, c))
    decreases |names|
  {
    if |names| == 0 then cols
    else
      var first := names[0];
      var next := cols[first := Members(cols, first) + [page]];
      var r := AppendToCollections(next, names[1..], page);
      assert forall c :: c in names <==> c == first || c in names[1..];
      assert forall c | c in r :: r[c] == Members(cols, c) + Repeat(page, Count(names, c)) by {
        forall c | c in r
          ensures r[c] == Members(cols, c) + Repeat(page, Count(names, c))
        {
          if c == first {
            AppendRepeat(Members(cols, c), page, Count(names[1..], c));
          }
        }
      }
      r
  }

  /** `Site._register_page` (mudi/site.py:95-99). The page is stored under its
      name, replacing any earlier page of that name without a trace in the
      page table (the dict keeps the name's first position), and is appended
      to every collection it lists, once per listing; nothing else changes.
      Iterating a `collections` value that is not a list of names (or a
      string) raises. */
  function Register(site: Site, page: Page): (r: Result<Site>)
    ensures r.Ok? <==> CollectionNames(page.collections).Ok?
    ensures r.Ok? ==>
              && r.value.settings == site.settings
              && r.value.files == site.files
              && r.value.filesToCopy == site.filesToCopy
              && r.value.pages == site.pages[page.name := page]
    ensures r.Ok? && page.name in site.pages ==> r.value.pageOrder == site.pageOrder
    ensures r.Ok? && page.name !in site.pages ==> r.value.pageOrder == site.pageOrder + [page.name]
    ensures r.Ok? ==> var names := CollectionNames(page.collections).value;
              && (forall c :: c in r.value.collections <==> c in site.collections || c in names)
              && (forall c | c in r.value.collections ::
                    r.value.collections[c] == Members(site.collections, c) + Repeat(page, Count(names, c)))
    ensures r.Ok? && Valid(site) ==> Valid(r.value)
  {
    var names :- CollectionNames(page.collections);
    var order := if page.name in site.pages then site.pageOrder else site.pageOrder + [page.name];
    Ok(site.(pageOrder := order,
             pages := site.pages[page.name := page],
             collections := AppendToCollections(site.collections, names, page)))
  }

  /** Two pages with the same name: the second replaces the first in the page
      table, but the first stays a member of the collections it joined. */
  lemma SameNameReplaces(site: Site, p: Page, q: Page, c: string)
    requires p.name == q.name
    requires p.collections == VList([VStr(c)]) && q.collections == VList([])
    ensures Register(site, p).Ok?
    ensures var s1 := Register(site, p).value;
            && Register(s1, q).Ok?
            && Register(s1, q).value.pages[q.name] == q
            && Register(s1, q).value.collections[c] == Members(site.collections, c) + [p]
  {
    var names := CollectionNames(p.collections).value;
    assert names == [c];
    assert Count(names, c) == 1;
    assert Repeat(p, 1) == [p];
  }

  /** A `collections` entry written as a bare string registers the page in one
      collection per character. */
  lemma StringCollectionsSplitIntoCharacters(site: Site, page: Page)
    requires page.collections == VStr("news")
    ensures Register(site, page).Ok?
    ensures forall c :: c in ["n", "e", "w", "s"] ==> c in Register(site, page).value.collections
  {
    assert CollectionNames(page.collections).value == ["n", "e", "w", "s"];
  }

  // ----- The scan -----

  /** Reads a Markdown file: its body and its front matter (mudi/loaders.py:8-10). */
  type MarkdownLoader = Path -> Result<(string, Metadata)>

  /** Reads an HTML file's text (mudi/loaders.py:13-16); its metadata is `{}`. */
  type HtmlLoader = Path -> Result<string>

  /** A page file is one whose suffix is `.md` or `.html`. */
  predicate IsPageFile(settings: SiteSettings, f: Path) {
    Classify(settings, f) == MarkdownPage || Classify(settings, f) == HtmlPage
  }

  /** The names of the page files of `files`, in the page table's key set. */
  function PageNames(settings: SiteSettings, files: seq<Path>): set<Path> {
    if |files| == 0 then {} else PageNameHere(settings, files[0]) + PageNames(settings, files[1..])
  }

  /** The name `f` is registered under, if it is a page file. */
  function PageNameHere(settings: SiteSettings, f: Path): set<Path> {
    var here := RelName(f, ContentDir(settings));
    if IsPageFile(settings, f) && here.Ok? then {here.value} else {}
  }

  /** A name is among the page names exactly when some page file of `files`
      has it as its `rel_name`. */
  lemma {:induction false} PageNamesMeaning(settings: SiteSettings, files: seq<Path>, n: Path)
    ensures n in PageNames(settings, files) <==>
              exists f | f in files :: IsPageFile(settings, f) && RelName(f, ContentDir(settings)) == Ok(n)
  {
    if |files| > 0 {
      PageNamesMeaning(settings, files[1..], n);
      assert forall f :: f in files <==> f == files[0] || f in files[1..];
    }
  }

  /** The files of `files` the scan copies, in order. */
  function CopiedOf(settings: SiteSettings, files: seq<Path>): seq<Path> {
    if |files| == 0 then [] else CopiedHere(settings, files[0]) + CopiedOf(settings, files[1..])
  }

  function CopiedHere(settings: SiteSettings, f: Path): seq<Path> {
    if Classify(settings, f) == CopiedFile then [f] else []
  }

  /** The copied files of one more file of the scan. */
  lemma CopiedOfNext(settings: SiteSettings, files: seq<Path>, i: nat)
    requires i < |files|
    ensures CopiedOf(settings, files[..i + 1]) == CopiedOf(settings, files[..i]) + CopiedHere(settings, files[i])
  {
    TakeNext(files, i);
    var single: seq<Path> := [files[i]];
    assert single[1..] == [];
    CopiedOfSplit(settings, files[..i], single);
  }

  /** The page names of one more file of the scan. */
  lemma PageNamesNext(settings: SiteSettings, files: seq<Path>, i: nat)
    requires i < |files|
    ensures PageNames(settings, files[..i + 1]) == PageNames(settings, files[..i]) + PageNameHere(settings, files[i])
  {
    TakeNext(files, i);
    var single: seq<Path> := [files[i]];
    assert single[1..] == [];
    PageNamesSplit(settings, files[..i], single);
  }

  /** The copied files of a concatenation. */
  lemma {:induction false} CopiedOfSplit(settings: SiteSettings, a: seq<Path>, b: seq<Path>)
    ensures CopiedOf(settings, a + b) == CopiedOf(settings, a) + CopiedOf(settings, b)
  {
    if |a| > 0 {
      CopiedOfSplit(settings, a[1..], b);
      AppendDropFirst(a, b);
      AppendAssoc(CopiedHere(settings, a[0]), CopiedOf(settings, a[1..]), CopiedOf(settings, b));
    } else {
      AppendEmpty(a, b);
      AppendEmpty(CopiedOf(settings, a), CopiedOf(settings, b));
    }
  }

  /** The page names of a concatenation. */
  lemma {:induction false} PageNamesSplit(settings: SiteSettings, a: seq<Path>, b: seq<Path>)
    ensures PageNames(settings, a + b) == PageNames(settings, a) + PageNames(settings, b)
  {
    if |a| > 0 {
      PageNamesSplit(settings, a[1..], b);
      AppendDropFirst(a, b);
    } else {
      AppendEmpty(a, b);
    }
  }

  /** What the scan keeps true of a site: every page is stored under its name
      and was built with the default content format, and every file to copy
      lies inside the content directory. */
  ghost predicate ScannedSite(s: Site) {
    && Valid(s)
    && (forall n | n in s.pages :: s.pages[n].contentFormat == DefaultContentFormat)
    && (forall f | f in s.filesToCopy :: IsStrictAncestor(ContentDir(s.settings), f))
  }

  /** Registering a page in the default format keeps every page in it. */
  lemma RegisterKeepsScanned(site: Site, page: Page)
    requires ScannedSite(site)
    requires page.contentFormat == DefaultContentFormat
    requires Register(site, page).Ok?
    ensures ScannedSite(Register(site, page).value)
  {
    var pages := Register(site, page).value.pages;
    forall n | n in pages
      ensures pages[n].contentFormat == DefaultContentFormat
    {
      if n != page.name {
        assert pages[n] == site.pages[n];
      }
    }
  }

  /** The page the scan builds from a Markdown or HTML file whose `rel_name`
      is `name` (mudi/site.py:79-86): the Markdown loader's body and front
      matter, or the HTML loader's text with empty metadata, passed to the
      Page constructor with the default `content_format`, HTML files included.
      A loader failure propagates. */
  function LoadPage(settings: SiteSettings, filename: Path, name: Path, loadMarkdown: MarkdownLoader, loadHtml: HtmlLoader)
    : (r: Result<Page>)
    requires IsPageFile(settings, filename)
    ensures Classify(settings, filename) == MarkdownPage ==>
              (r.Ok? <==> loadMarkdown(filename).Ok?) &&
              (r.Ok? ==> r.value == NewPage(name, Some(loadMarkdown(filename).value.0),
                                            Some(loadMarkdown(filename).value.1), DefaultContentFormat).0)
    ensures Classify(settings, filename) == HtmlPage ==>
              (r.Ok? <==> loadHtml(filename).Ok?) &&
              (r.Ok? ==> r.value == NewPage(name, Some(loadHtml(filename).value), Some(map[]), DefaultContentFormat).0)
    ensures r.Ok? ==> r.value.name == name && r.value.contentFormat == DefaultContentFormat
  {
    if Classify(settings, filename) == MarkdownPage then
      match loadMarkdown(filename)
      case Err(e) => Err(e)
      case Ok(loaded) => Ok(NewPage(name, Some(loaded.0), Some(loaded.1), DefaultContentFormat).0)
    else
      match loadHtml(filename)
      case Err(e) => Err(e)
      case Ok(text) => Ok(NewPage(name, Some(text), Some(map[]), DefaultContentFormat).0)
  }

  /** One turn of the loop of mudi/site.py:77-91, as a reference definition:
      the `rel_name` first, then a page file's page is registered, a Sass
      source is skipped, and any other entry joins the copy list. */
  function Step(site: Site, filename: Path, loadMarkdown: MarkdownLoader, loadHtml: HtmlLoader): Result<Site> {
    match RelName(filename, ContentDir(site.settings))
    case Err(e) => Err(e)
    case Ok(name) =>
      if IsPageFile(site.settings, filename) then
        match LoadPage(site.settings, filename, name, loadMarkdown, loadHtml)
        case Err(e) => Err(e)
        case Ok(page) => Register(site, page)
      else if Classify(site.settings, filename) == SassSource then Ok(site)
      else Ok(site.(filesToCopy := site.filesToCopy + [filename]))
  }

  /** The whole loop, as a reference definition: the turns in file order,
      stopping at the first error. */
  function Scan(site: Site, files: seq<Path>, loadMarkdown: MarkdownLoader, loadHtml: HtmlLoader): Result<Site>
    decreases |files|
  {
    if |files| == 0 then Ok(site)
    else
      match Step(site, files[0], loadMarkdown, loadHtml)
      case Err(e) => Err(e)
      case Ok(next) => Scan(next, files[1..], loadMarkdown, loadHtml)
  }

  /** The page the scan builds from `f`, if `f` is a page file it can load. */
  function LoadedHere(settings: SiteSettings, f: Path, loadMarkdown: MarkdownLoader, loadHtml: HtmlLoader): seq<Page> {
    match RelName(f, ContentDir(settings))
    case Err(_) => []
    case Ok(name) =>
      if !IsPageFile(settings, f) then []
      else
        match LoadPage(settings, f, name, loadMarkdown, loadHtml)
        case Err(_) => []
        case Ok(p) => [p]
  }

  /** The pages the scan builds from `files`, in scan order. */
  function Loaded(settings: SiteSettings, files: seq<Path>, loadMarkdown: MarkdownLoader, loadHtml: HtmlLoader)
    : seq<Page>
  {
    if |files| == 0 then []
    else LoadedHere(settings, files[0], loadMarkdown, loadHtml) + Loaded(settings, files[1..], loadMarkdown, loadHtml)
  }

  /** The collection names a page lists, when they can be iterated. */
  function Listed(p: Page): seq<string> {
    match CollectionNames(p.collections)
    case Ok(names) => names
    case Err(_) => []
  }

  /** The page table built by storing the pages in order: a later page
      replaces an earlier one of the same name. */
  function Table(ps: seq<Page>): map<Path, Page> {
    if |ps| == 0 then map[] else map[ps[0].name := ps[0]] + Table(ps[1..])
  }

  /** The members collection `c` gains from the pages, in order: each page
      once per time it lists `c`. */
  function Joined(ps: seq<Page>, c: string): seq<Page> {
    if |ps| == 0 then [] else Repeat(ps[0], Count(Listed(ps[0]), c)) + Joined(ps[1..], c)
  }

  /** A name occurs in a list exactly when it is counted there. */
  lemma {:induction false} CountPositive(names: seq<string>, c: string)
    ensures Count(names, c) > 0 <==> c in names
  {
    if |names| > 0 {
      CountPositive(names[1..], c);
      InHeadOrTail(names);
    }
  }

  /** The table holds exactly the names of the pages. */
  lemma {:induction false} TableNames(ps: seq<Page>)
    ensures forall n :: n in Table(ps) <==> exists i :: 0 <= i < |ps| && ps[i].name == n
  {
    if |ps| > 0 {
      var rest := ps[1..];
      TableNames(rest);
      forall n | n in Table(rest)
        ensures exists i :: 0 <= i < |ps| && ps[i].name == n
      {
        var k :| 0 <= k < |rest| && rest[k].name == n;
        assert ps[k + 1].name == n;
      }
    }
  }

  /** No page after position `i` has the name of the page at `i`. */
  predicate LastOfName(ps: seq<Page>, i: nat)
    requires i < |ps|
  {
    forall j :: i < j < |ps| ==> ps[j].name != ps[i].name
  }

  /** Each name of the table holds the last page of that name. */
  lemma {:induction false} TableLastWins(ps: seq<Page>)
    ensures forall i :: 0 <= i < |ps| && LastOfName(ps, i) ==>
              ps[i].name in Table(ps) && Table(ps)[ps[i].name] == ps[i]
  {
    if |ps| > 0 {
      var rest := ps[1..];
      TableNames(rest);
      TableLastWins(rest);
      assert Table(ps) == map[ps[0].name := ps[0]] + Table(rest);
      forall i | 0 <= i < |ps| && LastOfName(ps, i)
        ensures ps[i].name in Table(ps) && Table(ps)[ps[i].name] == ps[i]
      {
        if i > 0 {
          assert rest[i - 1] == ps[i];
          forall j | i - 1 < j < |rest|
            ensures rest[j].name != rest[i - 1].name
          {
            assert rest[j] == ps[j + 1];
          }
          assert LastOfName(rest, i - 1);
        }
      }
    }
  }

  /** A page joins exactly the collections it lists. */
  lemma {:induction false} JoinedMembers(ps: seq<Page>, c: string)
    ensures forall q :: q in Joined(ps, c) <==> q in ps && c in Listed(q)
  {
    if |ps| > 0 {
      JoinedMembers(ps[1..], c);
      CountPositive(Listed(ps[0]), c);
      InHeadOrTail(ps);
      var here := Repeat(ps[0], Count(Listed(ps[0]), c));
      assert forall q :: q in here <==> q == ps[0] && c in Listed(ps[0]) by {
        if |here| > 0 {
          assert here[0] == ps[0];
        }
      }
    }
  }

  lemma {:induction false} TableSplit(a: seq<Page>, b: seq<Page>)
    ensures Table(a + b) == Table(a) + Table(b)
  {
    if |a| == 0 {
      AppendEmpty(a, b);
      MapUnionEmpty(Table(b));
    } else {
      AppendDropFirst(a, b);
      TableSplit(a[1..], b);
      MapUnionAssoc(map[a[0].name := a[0]], Table(a[1..]), Table(b));
    }
  }

  lemma {:induction false} JoinedSplit(a: seq<Page>, b: seq<Page>, c: string)
    ensures Joined(a + b, c) == Joined(a, c) + Joined(b, c)
  {
    if |a| == 0 {
      AppendEmpty(a, b);
      AppendEmpty(Joined(a, c), Joined(b, c));
    } else {
      AppendDropFirst(a, b);
      JoinedSplit(a[1..], b, c);
      AppendAssoc(Repeat(a[0], Count(Listed(a[0]), c)), Joined(a[1..], c), Joined(b, c));
    }
  }

  /** A collection that registration does not create or extend has no
      listing of it. */
  lemma RegisterMembers(site: Site, page: Page, c: string)
    requires Register(site, page).Ok?
    ensures Members(Register(site, page).value.collections, c) ==
              Members(site.collections, c) + Repeat(page, Count(Listed(page), c))
  {
    var names := CollectionNames(page.collections).value;
    assert Listed(page) == names;
    if c !in Register(site, page).value.collections {
      CountPositive(names, c);
      assert Repeat(page, Count(names, c)) == [];
    }
  }

  /** Registering one page, in the terms of the scan: the table gains the
      page and the collections gain it once per listing. */
  lemma RegisterEffect(site: Site, p: Page)
    requires Register(site, p).Ok?
    ensures Register(site, p).value.settings == site.settings && Register(site, p).value.files == site.files
    ensures Register(site, p).value.pages == site.pages + Table([p])
    ensures forall c :: Members(Register(site, p).value.collections, c) == Members(site.collections, c) + Joined([p], c)
  {
    var single: seq<Page> := [p];
    assert single[1..] == [];
    MapUnionEmpty(map[p.name := p]);
    assert Table(single) == map[p.name := p];
    forall c
      ensures Members(Register(site, p).value.collections, c) == Members(site.collections, c) + Joined(single, c)
    {
      RegisterMembers(site, p, c);
      AppendNil(Repeat(p, Count(Listed(p), c)));
    }
  }

  /** The turn on a page file that loads: it is the registration of the page. */
  lemma StepOnPage(site: Site, f: Path, loadMarkdown: MarkdownLoader, loadHtml: HtmlLoader, name: Path, p: Page)
    requires RelName(f, ContentDir(site.settings)) == Ok(name)
    requires IsPageFile(site.settings, f)
    requires LoadPage(site.settings, f, name, loadMarkdown, loadHtml) == Ok(p)
    ensures Step(site, f, loadMarkdown, loadHtml) == Register(site, p)
    ensures LoadedHere(site.settings, f, loadMarkdown, loadHtml) == [p]
  {
  }

  /** One turn stores the page it loads, if any, and adds it to the
      collections it lists; the settings are kept. */
  lemma StepEffect(site: Site, f: Path, loadMarkdown: MarkdownLoader, loadHtml: HtmlLoader)
    requires Step(site, f, loadMarkdown, loadHtml).Ok?
    ensures var next := Step(site, f, loadMarkdown, loadHtml).value;
            var here := LoadedHere(site.settings, f, loadMarkdown, loadHtml);
            && next.settings == site.settings && next.files == site.files
            && next.pages == site.pages + Table(here)
            && forall c :: Members(next.collections, c) == Members(site.collections, c) + Joined(here, c)
  {
    var name := RelName(f, ContentDir(site.settings)).value;
    if IsPageFile(site.settings, f) {
      var p := LoadPage(site.settings, f, name, loadMarkdown, loadHtml).value;
      StepOnPage(site, f, loadMarkdown, loadHtml, name, p);
      RegisterEffect(site, p);
    } else {
      var next := Step(site, f, loadMarkdown, loadHtml).value;
      assert next.pages == site.pages && next.collections == site.collections;
      assert next.settings == site.settings && next.files == site.files;
      assert LoadedHere(site.settings, f, loadMarkdown, loadHtml) == [];
      MapUnionEmpty(site.pages);
      forall c
        ensures Members(next.collections, c) == Members(site.collections, c) + Joined([], c)
      {
        AppendNil(Members(site.collections, c));
      }
    }
  }

  /** What a successful scan stores: the page table gains the loaded pages,
      a later page replacing an earlier one of the same name, and each
      collection gains, in scan order, the loaded pages that list it. */
  lemma {:induction false} ScanContents(site: Site, files: seq<Path>, loadMarkdown: MarkdownLoader, loadHtml: HtmlLoader)
    requires Scan(site, files, loadMarkdown, loadHtml).Ok?
    ensures var s := Scan(site, files, loadMarkdown, loadHtml).value;
            var ps := Loaded(site.settings, files, loadMarkdown, loadHtml);
            && s.settings == site.settings && s.files == site.files
            && s.pages == site.pages + Table(ps)
            && forall c :: Members(s.collections, c) == Members(site.collections, c) + Joined(ps, c)
    decreases |files|
  {
    var ps := Loaded(site.settings, files, loadMarkdown, loadHtml);
    if |files| == 0 {
      MapUnionEmpty(site.pages);
      forall c
        ensures Members(site.collections, c) == Members(site.collections, c) + Joined(ps, c)
      {
        AppendNil(Members(site.collections, c));
      }
    } else {
      var next := Step(site, files[0], loadMarkdown, loadHtml).value;
      var s := Scan(site, files, loadMarkdown, loadHtml).value;
      StepEffect(site, files[0], loadMarkdown, loadHtml);
      ScanContents(next, files[1..], loadMarkdown, loadHtml);
      var here := LoadedHere(site.settings, files[0], loadMarkdown, loadHtml);
      var later := Loaded(site.settings, files[1..], loadMarkdown, loadHtml);
      assert ps == here + later;
      TableSplit(here, later);
      MapUnionAssoc(site.pages, Table(here), Table(later));
      forall c
        ensures Members(s.collections, c) == Members(site.collections, c) + Joined(ps, c)
      {
        JoinedSplit(here, later, c);
        AppendAssoc(Members(site.collections, c), Joined(here, c), Joined(later, c));
      }
    }
  }

  /** The body of the loop of mudi/site.py:77-91 for an entry whose
      `rel_name` (computed first, line 78) is `name`: a page file's page is
      registered under `name`, a Sass source is skipped, and any other entry
      joins the copy list. Only page files can fail. */
  method ScanStep(site: Site, filename: Path, name: Path, loadMarkdown: MarkdownLoader, loadHtml: HtmlLoader)
    returns (r: Result<Site>)
    requires ScannedSite(site)
    requires RelName(filename, ContentDir(site.settings)) == Ok(name)
    ensures r.Ok? ==> ScannedSite(r.value)
    ensures r.Ok? ==> r.value.settings == site.settings && r.value.files == site.files
    ensures r.Ok? ==> r.value.filesToCopy == site.filesToCopy + CopiedHere(site.settings, filename)
    ensures r.Ok? ==> r.value.pages.Keys == site.pages.Keys + PageNameHere(site.settings, filename)
    ensures r.Ok? && !IsPageFile(site.settings, filename) ==> r.value.pages == site.pages
    ensures r.Err? ==> IsPageFile(site.settings, filename)
    ensures r == Step(site, filename, loadMarkdown, loadHtml)
  {
    if IsPageFile(site.settings, filename) {
      var page := LoadPage(site.settings, filename, name, loadMarkdown, loadHtml);
      if page.Err? {
        return Err(page.error);
      }
      assert PageNameHere(site.settings, filename) == {name};
      MapUpdateKeys(site.pages, name, page.value);
      assert CopiedHere(site.settings, filename) == [];
      AppendNil(site.filesToCopy);
      r := Register(site, page.value);
      if r.Ok? {
        RegisterKeepsScanned(site, page.value);
      }
    } else {
      assert PageNameHere(site.settings, filename) == {};
      UnionEmpty(site.pages.Keys);
      if Classify(site.settings, filename) == SassSource {
        r := Ok(site);
      } else {
        assert IsStrictAncestor(ContentDir(site.settings), filename);
        r := Ok(site.(filesToCopy := site.filesToCopy + [filename]));
      }
    }
  }

  /** The loop of mudi/site.py:77-91 over `files`, from `site`: the result is
      that of the reference fold `Scan`, whose stored pages and collections
      `ScanContents` describes. The copy list
      grows by exactly the copied files in scan order; the page table gains
      exactly the page files' names; every registered page carries the default
      content format; the settings and the file list are not touched. A scan
      of files that are all inside the content directory and none of them a
      page cannot fail. */
  method ScanFiles(site: Site, files: seq<Path>, loadMarkdown: MarkdownLoader, loadHtml: HtmlLoader)
    returns (r: Result<Site>)
    requires ScannedSite(site)
    ensures r.Ok? ==> ScannedSite(r.value)
    ensures r.Ok? ==> r.value.settings == site.settings && r.value.files == site.files
    ensures r.Ok? ==> r.value.filesToCopy == site.filesToCopy + CopiedOf(site.settings, files)
    ensures r.Ok? ==> r.value.pages.Keys == site.pages.Keys + PageNames(site.settings, files)
    ensures (forall f | f in files :: IsStrictAncestor(ContentDir(site.settings), f) && !IsPageFile(site.settings, f))
              ==> r.Ok?
    ensures r == Scan(site, files, loadMarkdown, loadHtml)
  {
    var current := site;
    for i := 0 to |files|
      invariant Scan(site, files, loadMarkdown, loadHtml) == Scan(current, files[i..], loadMarkdown, loadHtml)
      invariant ScannedSite(current)
      invariant current.settings == site.settings && current.files == site.files
      invariant current.filesToCopy == site.filesToCopy + CopiedOf(site.settings, files[..i])
      invariant current.pages.Keys == site.pages.Keys + PageNames(site.settings, files[..i])
    {
      assert files[i..][0] == files[i] && files[i..][1..] == files[i + 1..];
      var rel := RelName(files[i], ContentDir(site.settings));
      if rel.Err? {
        return Err(rel.error);
      }
      var next := ScanStep(current, files[i], rel.value, loadMarkdown, loadHtml);
      if next.Err? {
        return Err(next.error);
      }
      CopiedOfNext(site.settings, files, i);
      AppendAssoc(site.filesToCopy, CopiedOf(site.settings, files[..i]), CopiedHere(site.settings, files[i]));
      PageNamesNext(site.settings, files, i);
      UnionAssoc(site.pages.Keys, PageNames(site.settings, files[..i]), PageNameHere(site.settings, files[i]));
      current := next.value;
    }
    assert files[..|files|] == files;
    assert files[|files|..] == [];
    r := Ok(current);
  }

  /** Construction, as a reference definition: the intended entry filter,
      then the scan of the kept entries from an empty site. */
  function Build(settings: SiteSettings, entries: seq<Path>, loadMarkdown: MarkdownLoader, loadHtml: HtmlLoader)
    : Result<Site>
  {
    match KeptFiles(settings, entries)
    case Err(e) => Err(e)
    case Ok(files) => Scan(Site(settings, files, [], [], map[], map[]), files, loadMarkdown, loadHtml)
  }

  /** A built site holds what its page files load to: each loaded page is a
      member of every collection it lists and of no other, and the page
      table has exactly the loaded pages' names, each holding the last page
      loaded under it. */
  lemma BuiltSiteHoldsLoadedPages(settings: SiteSettings, entries: seq<Path>, loadMarkdown: MarkdownLoader, loadHtml: HtmlLoader)
    requires Build(settings, entries, loadMarkdown, loadHtml).Ok?
    ensures var s := Build(settings, entries, loadMarkdown, loadHtml).value;
            var ps := Loaded(settings, s.files, loadMarkdown, loadHtml);
            && (forall c, q :: q in Members(s.collections, c) <==> q in ps && c in Listed(q))
            && (forall n :: n in s.pages <==> exists i :: 0 <= i < |ps| && ps[i].name == n)
            && (forall i :: 0 <= i < |ps| && LastOfName(ps, i) ==>
                  ps[i].name in s.pages && s.pages[ps[i].name] == ps[i])
  {
    var files := KeptFiles(settings, entries).value;
    var empty := Site(settings, files, [], [], map[], map[]);
    var ps := Loaded(settings, files, loadMarkdown, loadHtml);
    ScanContents(empty, files, loadMarkdown, loadHtml);
    MapUnionEmpty(Table(ps));
    TableNames(ps);
    TableLastWins(ps);
    forall c
      ensures forall q :: q in Members(Build(settings, entries, loadMarkdown, loadHtml).value.collections, c) <==>
                q in ps && c in Listed(q)
    {
      JoinedMembers(ps, c);
    }
  }

  /** `Site.__init__` with `_parse_tree` (mudi/site.py:17-47, 70-93) over the
      entries the content-tree glob yields, using the intended entry filter.
      Scan errors are not caught: the first one aborts construction. On
      success the files are the kept entries, the copy list is the kept
      entries classified as copies in scan order, and the page table holds
      one page per distinct `rel_name` of a page file. An entry outside the
      content directory raises ValueError; without page files nothing else
      can fail. */
  method NewSite(settings: SiteSettings, entries: seq<Path>, loadMarkdown: MarkdownLoader, loadHtml: HtmlLoader)
    returns (r: Result<Site>)
    ensures r.Ok? ==> ScannedSite(r.value) && r.value.settings == settings
    ensures r.Ok? ==> KeptFiles(settings, entries) == Ok(r.value.files)
    ensures r.Ok? ==> r.value.filesToCopy == CopiedOf(settings, r.value.files)
    ensures r.Ok? ==> forall n :: n in r.value.pages <==>
              exists f | f in r.value.files :: IsPageFile(settings, f) && RelName(f, ContentDir(settings)) == Ok(n)
    ensures !(forall e | e in entries :: IsStrictAncestor(ContentDir(settings), e)) ==> r == Err(ValueError)
    ensures (forall e | e in entries :: IsStrictAncestor(ContentDir(settings), e) && !IsPageFile(settings, e))
              ==> r.Ok?
    ensures r.Ok? ==> r.value.pages == Table(Loaded(settings, r.value.files, loadMarkdown, loadHtml))
    ensures r.Ok? ==> forall c ::
              Members(r.value.collections, c) == Joined(Loaded(settings, r.value.files, loadMarkdown, loadHtml), c)
    ensures r == Build(settings, entries, loadMarkdown, loadHtml)
  {
    var kept := KeptFiles(settings, entries);
    if kept.Err? {
      return Err(kept.error);
    }
    var files := kept.value;
    var empty := Site(settings, files, [], [], map[], map[]);
    r := ScanFiles(empty, files, loadMarkdown, loadHtml);
    if r.Ok? {
      ScanContents(empty, files, loadMarkdown, loadHtml);
      MapUnionEmpty(Table(Loaded(settings, files, loadMarkdown, loadHtml)));
    }
    forall n
      ensures n in PageNames(settings, files) <==>
                exists f | f in files :: IsPageFile(settings, f) && RelName(f, ContentDir(settings)) == Ok(n)
    {
      PageNamesMeaning(settings, files, n);
    }
  }

  // ----- Rendering and make -----

  /** The template `render_page` asks Jinja for (mudi/site.py:102-104):
      `page.template or default_template`. */
  function TemplateFor(page: Page, defaultTemplate: string): (r: Value)
    ensures Truthy(page.template) ==> r == page.template
    ensures !Truthy(page.template) ==> r == VStr(defaultTemplate)
  {
    Or(page.template, VStr(defaultTemplate))
  }

  /** A page whose front matter names no template (or an empty one) is
      rendered with the site's default template. */
  lemma MissingTemplateUsesDefault(name: Path, content: Option<string>, metadata: Option<Metadata>, defaultTemplate: string)
    requires metadata.None? || "template" !in metadata.value || metadata.value["template"] in {VNone, VStr("")}
    ensures TemplateFor(NewPage(name, content, metadata, DefaultContentFormat).0, defaultTemplate) == VStr(defaultTemplate)
  {
  }

  /** The file `render_page` writes (mudi/site.py:106-108): the output
      directory joined with the page name whose last part has its suffix
      replaced by `.html`. A page with an empty name raises ValueError. */
  function RenderTarget(settings: SiteSettings, page: Page): (r: Result<Path>)
    ensures r.Ok? <==> |page.name| > 0
    ensures r.Err? ==> r.error == ValueError
    ensures r.Ok? ==> IsStrictAncestor(OutputDir(settings), r.value)
    ensures r.Ok? ==> RelativeTo(r.value, OutputDir(settings)).Ok?
    ensures r.Ok? ==> var rel := RelativeTo(r.value, OutputDir(settings)).value;
              && |rel| == |page.name|
              && rel[..|rel| - 1] == page.name[..|page.name| - 1]
              && rel[|rel| - 1] == Stem(page.name[|page.name| - 1]) + ".html"
  {
    var rel :- WithSuffix(page.name, ".html");
    assert (settings.outputDir + rel)[..|settings.outputDir|] == settings.outputDir;
    assert (settings.outputDir + rel)[|settings.outputDir|..] == rel;
    Ok(settings.outputDir + rel)
  }

  /** Because `with_suffix` replaces whatever suffix the page name still has,
      the pages of `post.v1.md` and `post.v2.md` (named `post.v1` and
      `post.v2`) are both written to `post.html`. */
  lemma RenderTargetCollision(settings: SiteSettings, p: Page, q: Page)
    requires p.name == ["post.v1"] && q.name == ["post.v2"]
    ensures RenderTarget(settings, p) == RenderTarget(settings, q) == Ok(settings.outputDir + ["post.html"])
  {
    assert LastDot("post.v1") == Some(4) by {
      assert "post.v1"[..6] == "post.v";
      assert "post.v"[..5] == "post.";
    }
    assert LastDot("post.v2") == Some(4) by {
      assert "post.v2"[..6] == "post.v";
      assert "post.v"[..5] == "post.";
    }
    assert Stem("post.v1") == "post" == Stem("post.v2") by {
      assert "post.v1"[..4] == "post";
      assert "post.v2"[..4] == "post";
    }
    assert '/' !in ".html" && ".html"[0] == '.';
    assert "post" + ".html" == "post.html";
    var wp := WithSuffix(p.name, ".html").value;
    var wq := WithSuffix(q.name, ".html").value;
    assert |wp| == 1 && wp[0] == "post.html";
    assert |wq| == 1 && wq[0] == "post.html";
    assert wp == ["post.html"] == wq;
  }

  /** The number of distinct entries of a duplicate-free sequence is its length. */
  lemma {:induction false} DistinctCount(s: seq<Path>)
    requires forall i, j :: 0 <= i < j < |s| ==> s[i] != s[j]
    ensures |set x | x in s| == |s|
  {
    if |s| > 0 {
      var rest := s[..|s| - 1];
      DistinctCount(rest);
      assert (set x | x in s) == (set x | x in rest) + {s[|s| - 1]};
      assert s[|s| - 1] !in (set x | x in rest);
    }
  }

  /** A valid site holds one page per entry of its page order. */
  lemma PageCount(site: Site)
    requires Valid(site)
    ensures |site.pages| == |site.pageOrder|
  {
    DistinctCount(site.pageOrder);
    assert (set x | x in site.pageOrder) == site.pages.Keys;
  }

  /** The phase of an action of `make`: copy, render, compile. */
  function Phase(a: SiteAction): nat {
    match a
    case CopyFile(_) => 0
    case RenderPage(_) => 1
    case _ => 2
  }

  /** One copy action per file, in order. */
  function CopyActions(files: seq<Path>): (r: seq<SiteAction>)
    ensures |r| == |files| && forall i :: 0 <= i < |files| ==> r[i] == CopyFile(files[i])
  {
    seq(|files|, i requires 0 <= i < |files| => CopyFile(files[i]))
  }

  /** One render action per page, in page-table order. */
  function RenderActions(site: Site): (r: seq<SiteAction>)
    requires Valid(site)
    ensures |r| == |site.pageOrder|
    ensures forall i :: 0 <= i < |r| ==> r[i] == RenderPage(site.pages[site.pageOrder[i]])
    ensures forall n | n in site.pages :: RenderPage(site.pages[n]) in r
  {
    var r := seq(|site.pageOrder|, i requires 0 <= i < |site.pageOrder| => RenderPage(site.pages[site.pageOrder[i]]));
    assert forall n | n in site.pages :: RenderPage(site.pages[n]) in r by {
      forall n | n in site.pages
        ensures RenderPage(site.pages[n]) in r
      {
        var i :| 0 <= i < |site.pageOrder| && site.pageOrder[i] == n;
        assert r[i] == RenderPage(site.pages[n]);
      }
    }
    r
  }

  /** Three runs of actions, each of a single phase and in increasing phase
      order, never interleave. */
  lemma PhasesInOrder(a: seq<SiteAction>, b: seq<SiteAction>, c: seq<SiteAction>)
    requires forall i :: 0 <= i < |a| ==> Phase(a[i]) == 0
    requires forall i :: 0 <= i < |b| ==> Phase(b[i]) == 1
    requires forall i :: 0 <= i < |c| ==> Phase(c[i]) == 2
    ensures forall i, j :: 0 <= i < j < |a + b + c| ==> Phase((a + b + c)[i]) <= Phase((a + b + c)[j])
  {
  }

  /** `Site.make` (mudi/site.py:125-130) as evidently intended, with the
      working `path_swap` and the render and compile calls going to
      `render_page` and `compile_sass`: the calls it makes are one copy per
      entry of the copy list, in order, then one render per registered page,
      in page-table order, then one Sass compilation; the phases never
      interleave. */
  function Make(site: Site): (r: seq<SiteAction>)
    requires Valid(site)
    ensures |r| == |site.filesToCopy| + |site.pages| + 1
    ensures forall i :: 0 <= i < |site.filesToCopy| ==> r[i] == CopyFile(site.filesToCopy[i])
    ensures forall i, j :: 0 <= i < j < |r| ==> Phase(r[i]) <= Phase(r[j])
    ensures forall n | n in site.pages :: RenderPage(site.pages[n]) in r
    ensures r[|r| - 1] == CompileSass
  {
    var copies := CopyActions(site.filesToCopy);
    var renders := RenderActions(site);
    PageCount(site);
    PhasesInOrder(copies, renders, [CompileSass]);
    copies + renders + [CompileSass]
  }

  /** The file `copy_file` writes (mudi/site.py:120-123), with the intended
      `path_swap`: the entry's `rel_name` under the output directory. Only
      entries inside the content directory have one. */
  function CopyTarget(settings: SiteSettings, f: Path): (r: Result<Path>)
    ensures r.Ok? <==> IsStrictAncestor(ContentDir(settings), f)
    ensures r.Ok? ==> IsStrictAncestor(OutputDir(settings), r.value)
    ensures r.Ok? ==> RelativeTo(r.value, OutputDir(settings)) == RelName(f, ContentDir(settings))
  {
    PathSwap(f, ContentDir(settings), OutputDir(settings))
  }

  /** Every copy `make` makes for a scanned site has a target inside the
      output directory. */
  lemma CopiesLandInOutput(site: Site)
    requires ScannedSite(site)
    ensures forall i :: 0 <= i < |site.filesToCopy| ==>
              && Make(site)[i] == CopyFile(site.filesToCopy[i])
              && CopyTarget(site.settings, site.filesToCopy[i]).Ok?
              && IsStrictAncestor(OutputDir(site.settings), CopyTarget(site.settings, site.filesToCopy[i]).value)
  {
  }

  /** `Site.make` as written (mudi/site.py:125-130). The first `copy_file`
      raises NameError inside `path_swap` (mudi/site.py:121,
      mudi/utils.py:9). With nothing to copy, `self._render_page` or, with no
      pages either, `self._compile_sass` is looked up, and the Site class
      defines only `render_page` and `compile_sass`, so AttributeError is
      raised. No call of `make` completes. */
  function MakeAsWritten(site: Site): (r: Result<seq<SiteAction>>)
    ensures r.Err?
    ensures r.error == NameError <==> |site.filesToCopy| > 0
    ensures r.error != NameError ==> r.error == AttributeError
  {
    if |site.filesToCopy| > 0 then
      var copy := PathSwapAsWritten(site.filesToCopy[0], ContentDir(site.settings), OutputDir(site.settings));
      Err(copy.error)
    else Err(AttributeError)
  }

  /** A scanned site with a file to copy: the written `make` stops at that
      copy with NameError, while the intended one copies it into the output
      directory, renders every page and ends by compiling Sass. */
  lemma MakeAsWrittenStops(site: Site)
    requires ScannedSite(site)
    requires |site.filesToCopy| > 0
    ensures MakeAsWritten(site) == Err(NameError)
    ensures Make(site)[0] == CopyFile(site.filesToCopy[0]) && CopyTarget(site.settings, site.filesToCopy[0]).Ok?
    ensures Make(site)[|Make(site)| - 1] == CompileSass
  {
  }
}
