/**
 The page record of `mudi/page.py`: construction from front matter and the
 three-tier attribute lookup.
 */
module Pages {
  import opened Base
  import opened Values
  import opened Paths

  /** A front-matter mapping. */
  type Metadata = map<string, Value>

  /** The `content_format` a page gets when its creator does not pass one. */
  const DefaultContentFormat: string := "md"

  /** The metadata keys a page takes for itself. */
  const ReservedKeys: set<string> := {"template", "collections", "ctx", "has_jinja", "markdown"}

  /** The instance attributes `Page.__init__` assigns. `next` and `previous`
      are only annotated there, never assigned, so they are not among them. */
  const Attributes: set<string> :=
    {"name", "content", "template", "content_format", "has_jinja", "markdown", "collections", "ctx"}

  /** A page. The five reserved fields hold whatever value the front matter
      supplied; Python does not check their types. */
  datatype Page = Page(
    name: Path,
    content: string,
    template: Value,
    contentFormat: string,
    hasJinja: Value,
    markdown: Value,
    collections: Value,
    ctx: Value)

  /** `field` is what `m.pop(key, default)` returns. */
  predicate Takes(m: Metadata, key: string, field: Value, default: Value) {
    field == (if key in m then m[key] else default)
  }

  /** What is left of a metadata mapping once the reserved keys are popped. */
  function Unreserved(m: Metadata): (r: Metadata)
    ensures forall k :: k in r <==> k in m && k !in ReservedKeys
    ensures forall k :: k in r ==> r[k] == m[k]
  {
    m - ReservedKeys
  }

  /** The page `Page.__init__` builds from a metadata mapping: each reserved
      field is popped from the mapping, with its default when absent. */
  function PageFrom(name: Path, text: string, m: Metadata, contentFormat: string): (p: Page)
    ensures p.name == name && p.content == text && p.contentFormat == contentFormat
    ensures Takes(m, "template", p.template, VNone)
    ensures Takes(m, "collections", p.collections, VList([]))
    ensures Takes(m, "ctx", p.ctx, VMap(map[]))
    ensures Takes(m, "has_jinja", p.hasJinja, VBool(false))
    ensures Takes(m, "markdown", p.markdown, VNone)
  {
    Page(
      name, text,
      if "template" in m then m["template"] else VNone,
      contentFormat,
      if "has_jinja" in m then m["has_jinja"] else VBool(false),
      if "markdown" in m then m["markdown"] else VNone,
      if "collections" in m then m["collections"] else VList([]),
      if "ctx" in m then m["ctx"] else VMap(map[]))
  }

  /** `Page.__init__` (mudi/page.py:6-57): the new page, together with the
      caller's metadata mapping as it stands afterwards (`pop` mutates it). */
  function NewPage(name: Path, content: Option<string>, metadata: Option<Metadata>, contentFormat: string)
    : (r: (Page, Option<Metadata>))
    ensures r.0.name == name && r.0.contentFormat == contentFormat
    ensures content.None? ==> r.0.content == ""
    ensures content.Some? ==> r.0.content == content.value
    ensures metadata.None? ==>
              && r.0.template == VNone && r.0.collections == VList([]) && r.0.ctx == VMap(map[])
              && r.0.hasJinja == VBool(false) && r.0.markdown == VNone
              && r.1 == None
    ensures metadata.Some? ==>
              && Takes(metadata.value, "template", r.0.template, VNone)
              && Takes(metadata.value, "collections", r.0.collections, VList([]))
              && Takes(metadata.value, "ctx", r.0.ctx, VMap(map[]))
              && Takes(metadata.value, "has_jinja", r.0.hasJinja, VBool(false))
              && Takes(metadata.value, "markdown", r.0.markdown, VNone)
    ensures metadata.Some? ==> r.1.Some?
    ensures metadata.Some? ==> forall k :: k in r.1.value <==> k in metadata.value && k !in ReservedKeys
    ensures metadata.Some? ==> forall k :: k in r.1.value ==> r.1.value[k] == metadata.value[k]
  {
    var text := if content.None? then "" else content.value;
    match metadata
    case None =>
      (Page(name, text, VNone, contentFormat, VBool(false), VNone, VList([]), VMap(map[])), None)
    case Some(m) =>
      (PageFrom(name, text, m, contentFormat), Some(Unreserved(m)))
  }

  /** Building a page without metadata gives the same page as building it from
      an empty mapping (which is what the HTML loader supplies). */
  lemma NoMetadataLikeEmptyMetadata(name: Path, content: Option<string>, contentFormat: string)
    ensures NewPage(name, content, None, contentFormat).0 == NewPage(name, content, Some(map[]), contentFormat).0
  {
  }

  /** Only the reserved keys of the metadata reach the page: two mappings that
      agree on the reserved keys build the same page, whatever else they hold. */
  lemma PageIgnoresUnreservedKeys(name: Path, content: Option<string>, m1: Metadata, m2: Metadata, contentFormat: string)
    requires forall k | k in ReservedKeys :: (k in m1 <==> k in m2) && (k in m1 ==> m1[k] == m2[k])
    ensures NewPage(name, content, Some(m1), contentFormat).0 == NewPage(name, content, Some(m2), contentFormat).0
  {
    assert "template" in ReservedKeys && "collections" in ReservedKeys && "ctx" in ReservedKeys;
    assert "has_jinja" in ReservedKeys && "markdown" in ReservedKeys;
  }

  /** The value of a real instance attribute of the page, if `key` names one. */
  function Attr(p: Page, key: string): (r: Option<Value>)
    ensures r.Some? <==> key in Attributes
  {
    match key
    case "name" => Some(VPath(p.name))
    case "content" => Some(VStr(p.content))
    case "template" => Some(p.template)
    case "content_format" => Some(VStr(p.contentFormat))
    case "has_jinja" => Some(p.hasJinja)
    case "markdown" => Some(p.markdown)
    case "collections" => Some(p.collections)
    case "ctx" => Some(p.ctx)
    case _ => None
  }

  /** `page.get(key, default)` (mudi/page.py:59-76), which is
      `getattr(self, key, self.ctx.get(key, default))`. The fallback argument is
      evaluated first, so a `ctx` that is not a dict raises AttributeError
      (it has no `.get`) even when `key` names a real attribute. */
  function Get(p: Page, key: string, default: Value): (r: Result<Value>)
    ensures r.Err? <==> !p.ctx.VMap?
    ensures r.Err? ==> r.error == AttributeError
    ensures r.Ok? && key in Attributes ==> r.value == Attr(p, key).value
    ensures r.Ok? && key !in Attributes && key in p.ctx.entries ==> r.value == p.ctx.entries[key]
    ensures r.Ok? && key !in Attributes && key !in p.ctx.entries ==> r.value == default
  {
    match p.ctx
    case VMap(entries) =>
      var fallback := if key in entries then entries[key] else default;
      Ok(Attr(p, key).GetOr(fallback))
    case _ => Err(AttributeError)
  }

  /** Plain attribute access `page.key` for any name (mudi/page.py:78-82):
      a real attribute is found directly; any other name goes to
      `__getattr__`, which reads `ctx[key]` and turns a KeyError into an
      AttributeError. Subscripting a `ctx` that is not a dict raises TypeError,
      which is not caught. */
  function GetAttr(p: Page, key: string): (r: Result<Value>)
    ensures key in Attributes ==> r == Ok(Attr(p, key).value)
    ensures key !in Attributes && p.ctx.VMap? ==>
              (r.Ok? <==> key in p.ctx.entries) && (r.Ok? ==> r.value == p.ctx.entries[key])
    ensures r.Err? && p.ctx.VMap? ==> r.error == AttributeError
    ensures key !in Attributes && !p.ctx.VMap? ==> r == Err(TypeError)
  {
    match Attr(p, key)
    case Some(v) => Ok(v)
    case None =>
      match p.ctx
      case VMap(entries) => if key in entries then Ok(entries[key]) else Err(AttributeError)
      case _ => Err(TypeError)
  }

  /** `get` agrees with plain attribute access whenever the latter succeeds,
      and returns the caller's default exactly when it would fail. */
  lemma GetIsAttributeAccessWithDefault(p: Page, key: string, default: Value)
    requires p.ctx.VMap?
    ensures GetAttr(p, key).Ok? ==> Get(p, key, default) == GetAttr(p, key)
    ensures GetAttr(p, key).Err? ==> Get(p, key, default) == Ok(default)
  {
  }

  /** `next` and `previous` are never assigned, so reading them always goes
      through `ctx`: a freshly built page has an empty `ctx` and reading either
      link raises AttributeError. */
  lemma LinksResolveThroughCtx(name: Path, content: Option<string>, metadata: Option<Metadata>, contentFormat: string)
    ensures var p := NewPage(name, content, metadata, contentFormat).0;
            (metadata.None? || "ctx" !in metadata.value) ==>
              GetAttr(p, "next") == Err(AttributeError) && GetAttr(p, "previous") == Err(AttributeError)
    ensures var p := NewPage(name, content, metadata, contentFormat).0;
            p.ctx.VMap? && "next" in p.ctx.entries ==> GetAttr(p, "next") == Ok(p.ctx.entries["next"])
  {
  }
}
