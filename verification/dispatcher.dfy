/**
 The change dispatcher of `mudi/dispatcher.py`: which Site calls a file-system
 change leads to.

 The watcher reports a change kind and a path; `MudiDispatcher._dispatch`
 routes it to the first of the template, Sass and content directories that
 contains the path, and each route makes a fixed sequence of Site calls. The
 calls are returned as `SiteAction` values, in the order they are made.
 */
module Dispatch {
  import opened Base
  import opened Paths
  import opened Sites

  /** watchgod's `Change` enumeration. */
  datatype ChangeKind = Added | Modified | Deleted

  /** The branch `_dispatch` takes. */
  datatype Route = ToTemplates | ToSass | ToPage | ToFile | Unwatched

  /** The directories the dispatcher compares against. `template_dir` and
      `content_dir` are the Site properties. `sass_in` is read from the Site
      as well (mudi/dispatcher.py:17), but the Site class of mudi/site.py
      defines no such attribute. The model takes it to be the Sass settings'
      `sass_in`, and none when Sass is not configured, as the watcher does
      (mudi/watcher.py:18-22); `None in path.parents` is always false. */
  datatype Watched = Watched(templateDir: Path, sassIn: Option<Path>, contentDir: Path)

  function WatchedOf(settings: SiteSettings): (w: Watched)
    ensures w.templateDir == settings.inputDir + settings.templateDir
    ensures w.contentDir == settings.inputDir + settings.contentDir
    ensures w.sassIn.Some? <==> settings.sass.Some?
    ensures w.sassIn.Some? ==> w.sassIn.value == settings.sass.value.sassIn
  {
    Watched(TemplateDir(settings), SassIn(settings), ContentDir(settings))
  }

  /** `sass_in in path.parents`. */
  predicate UnderSass(w: Watched, path: Path) {
    w.sassIn.Some? && IsStrictAncestor(w.sassIn.value, path)
  }

  /** A content change is a page change when the suffix is `.html` or `.md`. */
  predicate IsPagePath(path: Path) {
    Suffix(path) == ".html" || Suffix(path) == ".md"
  }

  /** The routing of `_dispatch` (mudi/dispatcher.py:14-23). `x in
      path.parents` is a strict-ancestor test, so a directory's own path goes
      nowhere. */
  function RouteOf(w: Watched, path: Path): (r: Route)
    ensures r == ToSass ==> w.sassIn.Some?
    ensures r in {ToPage, ToFile} ==> (r == ToPage <==> IsPagePath(path))
    ensures r != Unwatched ==> |path| > 0
  {
    if IsStrictAncestor(w.templateDir, path) then ToTemplates
    else if UnderSass(w, path) then ToSass
    else if IsStrictAncestor(w.contentDir, path) then
      if IsPagePath(path) then ToPage else ToFile
    else Unwatched
  }

  /** The first watched directory containing the path decides: the template
      directory beats the Sass directory, which beats the content directory. */
  lemma RoutePrecedence(w: Watched, path: Path)
    ensures RouteOf(w, path) == ToTemplates <==> IsStrictAncestor(w.templateDir, path)
    ensures RouteOf(w, path) == ToSass <==>
              !IsStrictAncestor(w.templateDir, path) && UnderSass(w, path)
    ensures RouteOf(w, path) in {ToPage, ToFile} <==>
              && !IsStrictAncestor(w.templateDir, path) && !UnderSass(w, path)
              && IsStrictAncestor(w.contentDir, path)
    ensures RouteOf(w, path) == Unwatched <==>
              && !IsStrictAncestor(w.templateDir, path) && !UnderSass(w, path)
              && !IsStrictAncestor(w.contentDir, path)
  {
  }

  /** `_dispatch_template` (mudi/dispatcher.py:26-29): rebuild the Jinja
      environment, then render every page, whatever the change. */
  function DispatchTemplate(kind: ChangeKind, path: Path): (r: seq<SiteAction>)
    ensures r == [ReloadTemplates, RenderAllPages]
  {
    [ReloadTemplates, RenderAllPages]
  }

  /** `_dispatch_sass` (mudi/dispatcher.py:31-32): recompile, whatever the change. */
  function DispatchSass(kind: ChangeKind, path: Path): (r: seq<SiteAction>)
    ensures r == [CompileSass]
  {
    [CompileSass]
  }

  /** `_dispatch_page` (mudi/dispatcher.py:34-44): a modification is handled
      as a removal followed by an addition, and every change ends by
      rendering all pages. The Site methods called here are not defined by
      the Site class of mudi/site.py. */
  function DispatchPage(kind: ChangeKind, path: Path): (r: seq<SiteAction>)
    ensures |r| > 0 && r[|r| - 1] == RenderAllPages
    ensures multiset(r)[RenderAllPages] == 1
    ensures AddPageFromFile(path) in r <==> kind != Deleted
    ensures RemovePageFromFile(path) in r <==> kind != Added
    ensures kind != Added ==> r[0] == RemovePageFromFile(path)
    ensures forall a | a in r :: a == AddPageFromFile(path) || a == RemovePageFromFile(path) || a == RenderAllPages
  {
    match kind
    case Added => [AddPageFromFile(path), RenderAllPages]
    case Modified => [RemovePageFromFile(path), AddPageFromFile(path), RenderAllPages]
    case Deleted => [RemovePageFromFile(path), RenderAllPages]
  }

  /** `_dispatch_file` (mudi/dispatcher.py:46-51): copy on addition or
      modification, delete otherwise. The argument is `rel_name(path,
      content_dir)`, the content-relative path with its suffix dropped,
      whereas the scan hands `copy_file` the full path (mudi/site.py:91,127);
      the argument is recorded as the dispatcher computes it. */
  function DispatchFile(w: Watched, kind: ChangeKind, path: Path): (r: seq<SiteAction>)
    requires IsStrictAncestor(w.contentDir, path)
    ensures |r| == 1
    ensures kind != Deleted ==> r[0].CopyFile? && r[0].file == RelName(path, w.contentDir).value
    ensures kind == Deleted ==> r[0].DeleteFile? && r[0].file == RelName(path, w.contentDir).value
    ensures |r[0].file| == |path| - |w.contentDir|
  {
    var rel := RelName(path, w.contentDir).value;
    match kind
    case Added => [CopyFile(rel)]
    case Modified => [CopyFile(rel)]
    case Deleted => [DeleteFile(rel)]
  }

  /** `MudiDispatcher._dispatch` (mudi/dispatcher.py:14-24) with the branch
      handlers it calls (mudi/dispatcher.py:26-51): the route picks the calls. */
  function Dispatch(w: Watched, kind: ChangeKind, path: Path): (r: seq<SiteAction>)
    ensures r == [] <==> RouteOf(w, path) == Unwatched
    ensures RenderAllPages in r <==> RouteOf(w, path) in {ToTemplates, ToPage}
    ensures |r| <= 3
    ensures RouteOf(w, path) == ToTemplates ==> r == [ReloadTemplates, RenderAllPages]
    ensures RouteOf(w, path) == ToSass ==> r == [CompileSass]
    ensures RouteOf(w, path) == ToPage ==> r == DispatchPage(kind, path)
    ensures RouteOf(w, path) == ToFile ==> r == DispatchFile(w, kind, path)
  {
    match RouteOf(w, path)
    case ToTemplates => DispatchTemplate(kind, path)
    case ToSass => DispatchSass(kind, path)
    case ToPage => DispatchPage(kind, path)
    case ToFile => DispatchFile(w, kind, path)
    case Unwatched => []
  }

  /** Only a Sass change compiles. */
  lemma OnlySassCompiles(w: Watched, kind: ChangeKind, path: Path)
    ensures CompileSass in Dispatch(w, kind, path) <==> RouteOf(w, path) == ToSass
  {
  }

  /** Only a template change reloads the templates. */
  lemma OnlyTemplatesReload(w: Watched, kind: ChangeKind, path: Path)
    ensures ReloadTemplates in Dispatch(w, kind, path) <==> RouteOf(w, path) == ToTemplates
  {
  }

  /** The dispatcher never renders a single page: pages are re-rendered all
      together. */
  lemma NoSinglePageRender(w: Watched, kind: ChangeKind, path: Path)
    ensures forall a | a in Dispatch(w, kind, path) :: !a.RenderPage?
  {
  }

  /** Every page change ends in exactly one render of all pages. */
  lemma PageChangesRenderOnce(w: Watched, kind: ChangeKind, path: Path)
    requires RouteOf(w, path) == ToPage
    ensures multiset(Dispatch(w, kind, path))[RenderAllPages] == 1
    ensures Dispatch(w, kind, path)[|Dispatch(w, kind, path)| - 1] == RenderAllPages
  {
  }

  /** A change to any other content file never renders anything. */
  lemma FileChangesNeverRender(w: Watched, kind: ChangeKind, path: Path)
    requires RouteOf(w, path) == ToFile
    ensures RenderAllPages !in Dispatch(w, kind, path)
    ensures forall a | a in Dispatch(w, kind, path) :: a.CopyFile? || a.DeleteFile?
  {
  }

  /** Template and Sass changes do not depend on the change kind. */
  lemma KindIrrelevantOutsideContent(w: Watched, k1: ChangeKind, k2: ChangeKind, path: Path)
    requires RouteOf(w, path) in {ToTemplates, ToSass}
    ensures Dispatch(w, k1, path) == Dispatch(w, k2, path)
  {
  }

  /** A watched directory's own path, or a path under none of them, makes no call. */
  lemma DirectoriesThemselvesIgnored(w: Watched, kind: ChangeKind)
    requires !IsStrictAncestor(w.templateDir, w.contentDir) && !UnderSass(w, w.contentDir)
    ensures Dispatch(w, kind, w.contentDir) == []
  {
  }

  lemma PageModification(path: Path)
    ensures DispatchPage(Modified, path) == [RemovePageFromFile(path)] + DispatchPage(Added, path)
    ensures DispatchPage(Deleted, path)[..1] == DispatchPage(Modified, path)[..1]
  {
    var added := DispatchPage(Added, path);
    assert added == [AddPageFromFile(path), RenderAllPages];
    var modified := DispatchPage(Modified, path);
    assert modified[0] == RemovePageFromFile(path) && modified[1..] == added;
    assert modified == [modified[0]] + modified[1..];
  }

  /** A modified page is removed and then added again, exactly as a deletion
      followed by an addition would do, but with a single render at the end. */
  lemma ModifiedIsRemoveThenAdd(w: Watched, path: Path)
    requires RouteOf(w, path) == ToPage
    ensures Dispatch(w, Modified, path) == [RemovePageFromFile(path)] + Dispatch(w, Added, path)
    ensures Dispatch(w, Deleted, path)[..1] == Dispatch(w, Modified, path)[..1]
  {
    PageModification(path);
  }

  /** The dispatcher's page test agrees with the scan's: a content path the
      dispatcher treats as a page is one the scan loads as a page, and the
      scan's other entries are never page changes. */
  lemma PageRouteMatchesScan(settings: SiteSettings, path: Path)
    requires RouteOf(WatchedOf(settings), path) in {ToPage, ToFile}
    ensures RouteOf(WatchedOf(settings), path) == ToPage <==> IsPageFile(settings, path)
  {
  }

  /** Without Sass settings nothing is compiled, and a change outside the
      template directory is routed by the content directory alone. */
  lemma NoSassWithoutSettings(settings: SiteSettings, kind: ChangeKind, path: Path)
    requires settings.sass.None?
    ensures CompileSass !in Dispatch(WatchedOf(settings), kind, path)
    ensures !IsStrictAncestor(TemplateDir(settings), path) ==>
              (RouteOf(WatchedOf(settings), path) == Unwatched <==> !IsStrictAncestor(ContentDir(settings), path))
  {
    OnlySassCompiles(WatchedOf(settings), kind, path);
  }
}
