# mudi, modelled in Dafny

mudi is a small static-site generator. It scans a content tree and turns
Markdown and HTML files into pages. Pages can join named collections, and
collections can be sorted on several keys. `make` copies the other files,
renders every page through a template and compiles Sass. A watcher routes file
changes to the Site calls that bring the output up to date. A small HTTP
handler maps request paths to files under the output directory.

This project models that bookkeeping and proves properties of it:

- `paths.dfy` (`Paths`): relative paths as sequences of parts, pathlib's
  suffix rule, `relative_to`, `with_suffix`, and `rel_name`/`path_swap` of
  `mudi/utils.py`.
- `page.dfy` (`Pages`): the page record, construction from front matter, and
  the lookups `get` and `__getattr__`.
- `stable_sort.dfy` (`StableSort`) and `collection.dfy` (`Collections`):
  Python's stable `sorted` on integer keys, and the multi-key `sorted_by`
  proved to be the unique stable lexicographic order.
- `site.dfy` (`Sites`):
  - the site directories and the entry filter of the content scan;
  - the classification of scanned files and page registration into the page
    table and the collections;
  - the scan itself, as a loop over the glob's entries, proved equal to a
    reference fold whose stored pages and collections are described;
  - the template choice, the render target, and the plan of `make`.
- `dispatcher.dfy` (`Dispatch`): the decision table from a change kind and a
  path to the ordered Site calls.
- `server.dfy` (`Server`): `translate_path`. The result always starts with
  the served directory and holds no `.` or `..` part after it.
- `markdown_settings.dfy`, `sass_settings.dfy` and `markdown_renderer.dfy`:
  - the settings defaults and validators;
  - the extension list handed to the Markdown library.
- `base.dfy` (`Base`): shared helpers.
  - `Result` stands for a raised Python exception and names its class.
  - `Option` stands for Python's `None`.
  - Small generic facts about sequences, sets and maps.

Everything the code does to the outside world is represented as data:

- Jinja rendering, writing, copying and deleting files, and compiling Sass are
  `SiteAction` values naming the Site method that would be called, in call
  order.
- The file loaders are function parameters.
- `urllib.parse.unquote` and `posixpath.normpath` are function parameters.

The repository's files come from different stages of its development and do
not always agree. Where code reads a name that does not exist, the model keeps
a member for the code as written and uses the evidently intended reading
elsewhere:

- `is_sass_file` reads `sass.sass_dir`, but the Sass settings record names that
  directory `sass_in`. As written it raises AttributeError on every `.sass` or
  `.scss` entry once Sass is configured (`Sites.IsSassFileAsWritten`). The
  rest of the model reads `sass_in` (`Sites.IsSassFile`).
- `make` copies through `path_swap`, which raises NameError, and then calls
  `_render_page` and `_compile_sass`, which `mudi/site.py` defines only
  without the underscore. As written no call of `make` completes
  (`Sites.MakeAsWritten`). `Sites.Make` is the plan of the intended calls.
- The dispatcher reads `site.sass_in` and calls Site methods that
  `mudi/site.py` does not define. The dispatcher model takes `sass_in` to be
  the Sass settings' `sass_in`, or none without Sass settings, as
  mudi/watcher.py does, and records the other calls as abstract actions.

One observation did not become a finding, because nothing says it is
unintended (`Sites.RenderTargetCollision`). The page name keeps every suffix but
the last, and the render target replaces the remaining one. So `post.v1.md` and
`post.v2.md` are both written to `post.html`.

## Model

| member | source | states |
|---|---|---|
| Paths.RelativeTo | mudi/utils.py:5 | `relative_to` succeeds exactly when the base leads the path, raises ValueError otherwise, and the base followed by the result is the path |
| Paths.WithSuffix | mudi/utils.py:5 | `with_suffix` keeps every part but the last, replaces the last part's suffix by the given one, and raises ValueError for a bad suffix or an empty path |
| Paths.StemSuffixSplit | mudi/utils.py:5 | a name is its stem followed by its suffix; the suffix is empty or a dot and non-dot characters; a nonempty name keeps a nonempty stem |
| Paths.RelName | mudi/utils.py:4-5 | `rel_name` succeeds exactly when the directory is a strict ancestor (so never for the directory itself); the result has the parts after the directory, and only the last part loses its suffix |
| Paths.StemExamples | mudi/utils.py:5 | `a`, `.hidden` and `a.` keep their names, `a.tar.gz` becomes `a.tar`, `index.md` becomes `index` |
| Paths.PathSwap | mudi/utils.py:8-10 | the intended `path_swap` succeeds exactly under the original directory, and relative to the new directory its result is the file's `rel_name` |
| Paths.PathSwapAsWrittenDiffers | mudi/utils.py:9 | wherever the intended `path_swap` answers, the written one raises NameError |
| Pages.NewPage | mudi/page.py:6-57 | `None` content becomes `""`; without metadata the five reserved fields take their defaults; with metadata each takes the popped value or the same default; the caller's map loses exactly the five reserved keys; `content_format` is the argument and metadata never changes it |
| Pages.PageIgnoresUnreservedKeys | mudi/page.py:51-55 | two metadata maps that agree on the reserved keys build the same page |
| Pages.NoMetadataLikeEmptyMetadata | mudi/page.py:44-55 | building without metadata and building from an empty map give the same page |
| Pages.Get | mudi/page.py:59-76 | `get` returns the real attribute when there is one, else the `ctx` entry, else the default, and raises AttributeError when `ctx` is not a dict |
| Pages.GetAttr | mudi/page.py:78-82 | attribute access finds real attributes, falls back to `ctx`, and turns a missing key into AttributeError |
| Pages.GetIsAttributeAccessWithDefault | mudi/page.py:59-82 | `get` agrees with attribute access whenever that succeeds, and gives the default exactly when it fails |
| Pages.LinksResolveThroughCtx | mudi/page.py:56-57 | `next` and `previous` are never assigned, so they resolve through `ctx`; on a fresh page without a `ctx` entry they raise AttributeError |
| Collections.NewCollection | mudi/collection.py:9-11 | a missing or empty page list gives an empty collection, and any other list is kept |
| StableSort.Sort | mudi/collection.py:20-22 | one `sorted` pass is a permutation of its input |
| StableSort.InsertKeepsSorted | mudi/collection.py:20-22 | stable insertion on the most significant key keeps a sequence lexicographically sorted |
| StableSort.SortPass | mudi/collection.py:19-22 | one stable pass on a key over a sequence sorted on the later keys leaves it sorted on all of them |
| StableSort.SortAllIsLexSorted | mudi/collection.py:19-22 | one pass per key, last key first, sorts lexicographically with the first key most significant |
| StableSort.LexSortedUnique | mudi/collection.py:19-22 | two sorted permutations of the same elements under an asymmetric order are equal |
| StableSort.SortAllMap | mudi/collection.py:19-22 | sorting commutes with any map that preserves the keys, so sorting tagged pages and untagging sorts the pages |
| StableSort.StableLexicographic | mudi/collection.py:19-22 | the multi-key sort is the stable lexicographic sort: tagged by input position it is sorted on the keys and then by position, and it is the only permutation so sorted |
| Collections.KeyRank | mudi/collection.py:21 | the rank of a page under a key is the integer `get` returns for it |
| Collections.SortedBy | mudi/collection.py:13-23 | `sorted_by` keeps the given name unless it is missing or empty; the pages are a permutation sorted lexicographically on the keys, each key descending exactly when its flag is set; full ties keep their input order; no keys or no pages leave the order unchanged |
| Sites.TemplateDir | mudi/site.py:49-51 | the template directory lies inside the input directory, and relative to it is the configured name |
| Sites.ContentDir | mudi/site.py:53-55 | the content directory lies inside the input directory, and relative to it is the configured name |
| Sites.InputDirMovesSourcesOnly | mudi/site.py:49-59 | moving the input directory moves the template and content directories with it but leaves the output directory where it is configured |
| Sites.DefaultDirectories | mudi/models/site.py:10-16 | with the default settings templates come from `src/templates`, content from `src/content`, output goes to `dist`, and no file is a Sass source |
| Sites.IsSassFileAsWritten | mudi/site.py:61-68 | as written, with Sass configured, a `.sass` or `.scss` entry raises AttributeError; any other entry, or no Sass settings, gives False |
| Sites.IsSassFile | mudi/site.py:61-68 | the intended test: a Sass source is a `.sass` or `.scss` file strictly inside `sass_in`, and there is none without Sass settings |
| Sites.SassDirDiscrepancy | mudi/site.py:67 | for `a.scss` in the Sass directory the written test raises AttributeError while the intended one finds a Sass source, which the scan skips |
| Sites.Classify | mudi/site.py:79-91 | an entry is a Markdown page exactly for suffix `.md`, an HTML page exactly for `.html`, skipped exactly when it is a Sass source, and copied otherwise |
| Sites.KeepEntry | mudi/site.py:71-75 | the intended filter succeeds exactly under the content directory and keeps an entry whose relative name does not start with a dot |
| Sites.KeepEntryAsWritten | mudi/site.py:74 | the written filter raises on every entry: TypeError inside the content directory and ValueError outside it |
| Sites.KeptFiles | mudi/site.py:71-75 | the comprehension succeeds exactly when every entry is inside the content directory, else ValueError; its result is the entries the filter keeps, in entry order and with their multiplicity |
| Sites.KeptFilesSingle | mudi/site.py:71-75 | one entry gives ValueError outside the content directory, itself when the filter keeps it, and nothing when the filter drops it |
| Sites.KeptFilesAppend | mudi/site.py:71-75 | the files kept from two concatenated parts of a tree are those kept from the first part followed by those kept from the second |
| Sites.KeptFilesAsWritten | mudi/site.py:71-75 | the written comprehension succeeds only on an empty tree; it raises TypeError at its first entry, or ValueError if that entry is outside the content directory |
| Sites.HiddenFilterDiscrepancy | mudi/site.py:74 | for a tree holding one stylesheet, the written filter raises TypeError and the intended one keeps the file |
| Sites.CollectionNames | mudi/site.py:97 | a list of strings gives its items and a string gives its characters; anything else raises TypeError |
| Sites.AppendToCollections | mudi/site.py:97-98 | a collection listed k times gains k copies of the page at its end, a missing one is created, and every other collection is unchanged |
| Sites.Register | mudi/site.py:95-99 | registration stores the page under its name (a new name goes last in page order, an old one keeps its place), appends to the listed collections, changes nothing else, and keeps the site well formed |
| Sites.SameNameReplaces | mudi/site.py:95-96 | a second page with the same name replaces the first in the page table, while the first stays in the collections it joined |
| Sites.StringCollectionsSplitIntoCharacters | mudi/site.py:97 | a `collections` value written as a bare string registers the page in one collection per character |
| Sites.PageNamesMeaning | mudi/site.py:77-87 | a name is in the scan's page names exactly when some page file has it as its `rel_name` |
| Sites.LoadPage | mudi/site.py:79-86 | a Markdown file's page holds the loader's body and front matter, an HTML file's page holds the text with empty metadata, both with the default format; a loader failure propagates |
| Sites.StepEffect | mudi/site.py:77-98 | one turn of the scan stores the page it loads, if any, under its name and adds it to the collections it lists; the settings and the file list are kept |
| Sites.ScanContents | mudi/site.py:77-98 | a successful scan stores the loaded pages in the page table, a later page replacing an earlier one of the same name, and each collection gains the loaded pages that list it, in scan order |
| Sites.TableNames | mudi/site.py:96 | the page table has exactly the names of the stored pages |
| Sites.TableLastWins | mudi/site.py:96 | under each name the page table holds the last page stored with that name |
| Sites.JoinedMembers | mudi/site.py:97-98 | a page is a member of exactly the collections it lists |
| Sites.ScanStep | mudi/site.py:77-91 | one turn of the loop is the reference turn: a page file registers its loaded page, a Sass source is skipped, anything else joins the copy list; only page files can fail |
| Sites.ScanFiles | mudi/site.py:77-91 | the loop is the reference fold over the files; it adds exactly the copied files to the copy list, in order, and exactly the page names to the page table; it cannot fail on files inside the content directory that are not pages |
| Sites.NewSite | mudi/site.py:17-47 | construction keeps the filtered entries and copies the non-page non-Sass ones in order; the page table maps each page name to the last page loaded under it, and each collection holds the loaded pages that list it, in scan order; an entry outside the content directory raises ValueError |
| Sites.BuiltSiteHoldsLoadedPages | mudi/site.py:70-98 | in a constructed site a page is in a collection exactly when it lists it, the page table has exactly the loaded pages' names, and each name holds the last page loaded under it |
| Sites.TemplateFor | mudi/site.py:102-104 | a page is rendered with its own template when that is truthy, else with the default template |
| Sites.MissingTemplateUsesDefault | mudi/site.py:102-104 | a page whose front matter names no template, or names `None` or `""`, uses the default template |
| Sites.RenderTarget | mudi/site.py:106-108 | the output file lies under the output directory, keeps the page name's parts, and its last part is the stem plus `.html`; an empty name raises ValueError |
| Sites.RenderTargetCollision | mudi/site.py:106-108 | pages named `post.v1` and `post.v2` are both written to `post.html` |
| Sites.PageCount | mudi/site.py:96 | a well-formed site holds one page per entry of its page order |
| Sites.Make | mudi/site.py:125-130 | the intended `make` copies every copy-list entry in order, then renders every page, then compiles Sass once; the phases never interleave |
| Sites.CopyTarget | mudi/site.py:120-123 | `copy_file` writes an entry of the content directory to its `rel_name` under the output directory; other paths have no target |
| Sites.CopiesLandInOutput | mudi/site.py:125-127 | every copy `make` plans for a scanned site writes inside the output directory |
| Sites.MakeAsWritten | mudi/site.py:125-130 | as written `make` always raises: NameError at the first copy, or AttributeError at `_render_page` or `_compile_sass` when there is nothing to copy |
| Sites.MakeAsWrittenStops | mudi/site.py:125-130 | with a file to copy the written `make` stops with NameError, while the intended one copies it into the output directory and ends by compiling Sass |
| Dispatch.RoutePrecedence | mudi/dispatcher.py:14-23 | the template directory beats the Sass directory, which beats the content directory, and a path under none goes nowhere |
| Dispatch.RouteOf | mudi/dispatcher.py:14-23 | a change goes to Sass only when Sass is configured; among content changes exactly the `.html` and `.md` paths are pages; only a nonempty path is routed |
| Dispatch.DispatchPage | mudi/dispatcher.py:34-44 | a page change ends with exactly one render of all pages; an addition adds, a deletion removes, and a modification removes and then adds |
| Dispatch.DispatchFile | mudi/dispatcher.py:46-51 | another content file is copied on addition or modification and deleted otherwise, under its `rel_name` |
| Dispatch.Dispatch | mudi/dispatcher.py:14-51 | a template change reloads the templates and then renders all pages, a Sass change only compiles, a page change and another content change make the page and file calls; no call is made exactly when the path is under none of the three directories, and all pages are rendered exactly for template and page changes |
| Dispatch.OnlySassCompiles | mudi/dispatcher.py:17-18 | only a change under the Sass directory compiles Sass |
| Dispatch.NoSassWithoutSettings | mudi/dispatcher.py:17-18 | without Sass settings no change compiles Sass, and outside the template directory only the content directory decides whether a change is handled |
| Dispatch.OnlyTemplatesReload | mudi/dispatcher.py:26-29 | only a change under the template directory reloads the templates |
| Dispatch.NoSinglePageRender | mudi/dispatcher.py:26-51 | no change renders a single page |
| Dispatch.PageChangesRenderOnce | mudi/dispatcher.py:34-44 | every page change makes exactly one render-all call, and makes it last |
| Dispatch.FileChangesNeverRender | mudi/dispatcher.py:46-51 | a change to a non-page content file only copies or deletes |
| Dispatch.KindIrrelevantOutsideContent | mudi/dispatcher.py:26-32 | template and Sass changes do not depend on the change kind |
| Dispatch.DirectoriesThemselvesIgnored | mudi/dispatcher.py:15-23 | a change to the content directory itself makes no call |
| Dispatch.ModifiedIsRemoveThenAdd | mudi/dispatcher.py:35-44 | a modified page's calls are a removal followed by an addition's calls; deletion starts the same way |
| Dispatch.PageRouteMatchesScan | mudi/dispatcher.py:19-23 | for a content path, the dispatcher's page test agrees with the scan's |
| Server.Split | mudi/server.py:27 | `split("/")` gives at least one piece and no piece holds a separator |
| Server.JoinSplit | mudi/server.py:27 | joining the pieces of a split with `/` gives back the string |
| Server.Contribution | mudi/server.py:28-36 | an empty, `.` or `..` piece contributes nothing; any other slash-free piece contributes itself |
| Server.JoinWord | mudi/server.py:32-36 | one loop turn appends the piece's contribution to the path |
| Server.TranslatePath | mudi/server.py:25-37 | the result is the base path followed by the kept pieces of the decoded and normalised request, in order; it has the base as a prefix and no `.` or `..` part after it |
| Server.OrdinaryPiecesKept | mudi/server.py:28-37 | a request of ordinary pieces is kept whole and in order |
| Server.DotPiecesIgnored | mudi/server.py:34-35 | a `.`, `..` or empty piece anywhere in the request changes nothing, so `..` never climbs out |
| MarkdownModels.ValidOutputFormat | mudi/models/markdown.py:30-35 | `output_format` is accepted unchanged exactly when it is `html5` or `xhtml`, else ValueError |
| MarkdownModels.ValidTabLength | mudi/models/markdown.py:37-42 | `tab_length` is accepted unchanged exactly when it is positive, else ValueError |
| MarkdownModels.Validate | mudi/models/markdown.py:30-42 | a settings record is valid exactly when both validators accept, and it is kept unchanged |
| MarkdownModels.DefaultsAreValid | mudi/models/markdown.py:6-42 | the defaults pass both validators; the format is `html5` and the tab length 2 |
| SassModels.ValidOutputStyle | mudi/models/sass.py:10-16 | `output_style` is accepted unchanged exactly when it is nested, expanded, compact or compressed, else ValueError |
| SassModels.DefaultStyleIsValid | mudi/models/sass.py:8-16 | the default output style passes its own validator |
| SassModels.LegacyValidOutputStyle | mudi/models.py:22-28 | the older validator accepts a style unchanged exactly when it is nested, expanded, compact or `compresed`, else ValueError |
| SassModels.LegacyValidatorTypo | mudi/models.py:22-28 | the older validator rejects `compressed`, accepts `compresed`, and otherwise agrees with the current one |
| MarkdownRenderer.EnabledBelowMembers | mudi/markdown.py:18-41 | every listed extension is enabled and configured from the settings for its slot |
| MarkdownRenderer.EnabledBelowOrdered | mudi/markdown.py:18-41 | the extensions appear in the fixed slot order |
| MarkdownRenderer.EnabledBelowComplete | mudi/markdown.py:18-41 | every enabled extension is listed |
| MarkdownRenderer.EnabledExtensions | mudi/markdown.py:16-41 | one extension per enabled flag and none for a disabled one, in the fixed order, each built from its options unchanged |
| MarkdownRenderer.DefaultsEnableDefaultFlags | mudi/models/markdown.py:9-27 | the default settings enable fenced code, footnotes and sane lists and nothing else |
| MarkdownRenderer.NewRenderer | mudi/markdown.py:14-47 | the output format and tab length are passed on unchanged; with the default flags the list is fenced code, footnotes, sane lists; the default settings give those three with their default options |

## Left out

- File I/O, Jinja and `sass.compile` are not modelled. Writing, copying and compiling appear only as `SiteAction` values; the loaders are parameters.
- The Jinja environment and its globals (mudi/site.py:33-45, 93, 99) are not modelled.
- `_get_jinja_env`, `render_all_pages`, `add_page_from_file`, `remove_page_from_file` and `delete_file` are called by the dispatcher, but the Site class of mudi/site.py does not define them. They are recorded as calls and given no meaning.
- `Dispatch.RouteOf`: as written, `_dispatch` reads `site.sass_in`, which the Site class does not define, so every change outside the template directory raises AttributeError, and a template change fails at `_get_jinja_env`. The dispatcher model describes the routing against a Site that has these members, with `sass_in` taken from the Sass settings.
- `compile_sass` reads `self.sass_settings`, which is never bound (mudi/site.py:114). Only the call from `make` is modelled.
- watchgod, `MudiDispatcher.watch` and mudi/watcher.py deliver the events. Only the decision per event is modelled.
- `logging` calls are not modelled.
- `serve`, `serve_cli` and the HTTP server are network I/O.
- `unquote` and `normpath` are left uninterpreted.
- `Server.TranslatePath`: the served directory is a relative path of parts and joining appends a part. Absolute base paths and the string form of `os.path.join` are not modelled.
- `Server.TranslatePath`: Windows drive handling in `splitdrive` is not modelled. On POSIX it leaves a piece unchanged.
- Paths are relative throughout. pathlib's rule that an absolute right operand of `/` replaces the left one is not modelled.
- Settings loading (cli.py, mudi_settings.py, mudi_environment.py) is not modelled. Neither are the pydantic schemas without logic (models/feeds.py, models/collection.py, models/__init__.py) or `absolute_link`.
- mudi/models.py is shadowed by the `mudi/models/` package, which is what `from .models import ...` loads. Only its output-style validator is modelled, for the finding below.
- The default `input_dir` follows mudi/models/site.py:10 (`src`). The shadowed mudi/models.py:32 says `input`.
- Page attributes only cover the instance attributes `__init__` assigns. Class attributes such as methods are not modelled.
- `Collections.SortedBy`: sort keys must yield integers on every page. Python's comparison of other values, and its TypeError on mixed types, are not modelled.
- `Sites.CollectionNames`: iterating a dict-valued `collections` yields its keys in Python, but the model reports TypeError.
- `Sites.CollectionNames`: other iterables of non-strings are reported as TypeError rather than passed to the collections dict.
- `Sites.NewSite`: the model uses the intended entry filter (`Sites.KeptFiles`) and the intended Sass test (`Sites.IsSassFile`). The written ones are in the findings.
- `Sites.Make`: the plan lists the calls of the intended `make`. As written `make` stops at its first copy, or at `_render_page` when there is nothing to copy (`Sites.MakeAsWritten`).
- Paths whose last part is `..` followed by more characters, such as `..a`, are not singled out. Their `rel_name` ends in the part `.`, and the model keeps it as a part, since `with_suffix` assembles the new path from its parts without parsing them again.
- The glob itself is not modelled. `Sites.NewSite` takes the entries it yields, in its order.

## Findings

| source | as written | input that shows it | evidently intended | confidence | as-written member | corrected member |
|---|---|---|---|---|---|---|
| mudi/utils.py:9 | `path_swap` reads `rel_path`, which is bound nowhere, so every call raises NameError | any call, e.g. `path_swap(Path("content/a.css"), Path("content"), Path("dist"))` | `new_path / rel_name(filename, original_path)` | high; not executed | Paths.PathSwapAsWrittenDiffers | Paths.PathSwap |
| mudi/site.py:74 | `rel_name(...)[0]` indexes a Path, which raises TypeError for the first entry of any nonempty content tree | a content tree holding `style.css` | test the first character of the relative name | high; not executed | Sites.KeepEntryAsWritten, Sites.KeptFilesAsWritten, Sites.HiddenFilterDiscrepancy | Sites.KeptFiles |
| mudi/site.py:67 | `is_sass_file` reads `settings.sass.sass_dir`, a field the Sass settings do not have, so with Sass configured every `.sass` or `.scss` entry raises AttributeError | Sass configured and a content entry `a.scss` in the Sass directory | read `settings.sass.sass_in` | high; not executed | Sites.IsSassFileAsWritten, Sites.SassDirDiscrepancy | Sites.IsSassFile |
| mudi/site.py:125-130 | `make` calls `_render_page` and `_compile_sass`, which the Site class does not define, after copies that raise NameError in `path_swap`, so no call of `make` completes | a site with one file to copy, or with no files and one page | copy through a working `path_swap`, then call `render_page` and `compile_sass` | high; not executed | Sites.MakeAsWritten, Sites.MakeAsWrittenStops | Sites.Make, Sites.CopyTarget |
| mudi/models.py:24 | the accepted styles spell `compresed`, so `compressed` (listed in the error message) is rejected | `output_style = "compressed"` | accept `compressed`, as mudi/models/sass.py:12 does | high; not executed | SassModels.LegacyValidOutputStyle, SassModels.LegacyValidatorTypo | SassModels.ValidOutputStyle |
