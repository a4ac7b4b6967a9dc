/**
 The extension list `MarkdownRenderer.__init__` (mudi/markdown.py) hands to
 the Markdown library. The converter itself is not part of the model.
 */
module MarkdownRenderer {
  import opened Base
  import opened Values
  import opened MarkdownModels

  /** An extension instance, with the keyword arguments it was built from. */
  datatype Extension =
    | Checklist
    | CodeHilite(options: Options)
    | FencedCode
    | Footnotes(options: Options)
    | Smarty(options: Options)
    | Toc(options: Options)
    | TrulySaneLists(options: Options)

  /** The arguments passed to `Markdown.__init__`. */
  datatype Renderer = Renderer(outputFormat: string, tabLength: int, extensions: seq<Extension>)

  /** The position of each kind of extension in the fixed order. */
  function Slot(e: Extension): nat {
    match e
    case Checklist => 0
    case CodeHilite(_) => 1
    case FencedCode => 2
    case Footnotes(_) => 3
    case Smarty(_) => 4
    case Toc(_) => 5
    case TrulySaneLists(_) => 6
  }

  /** The settings flag that switches on the extension in slot `n`. */
  predicate Enabled(s: MarkdownSettings, n: nat) {
    match n
    case 0 => s.enableChecklist
    case 1 => s.enableCodehilite
    case 2 => s.enableFencedCode
    case 3 => s.enableFootnotes
    case 4 => s.enableSmartypants
    case 5 => s.enableToc
    case 6 => s.enableTrulySaneLists
    case _ => false
  }

  /** The extension the settings configure for slot `n`: option mappings are
      passed through as they are; checklist and fenced code take none. */
  function Configured(s: MarkdownSettings, n: nat): (e: Extension)
    requires n < 7
    ensures Slot(e) == n
  {
    match n
    case 0 => Checklist
    case 1 => CodeHilite(s.codehiliteOptions)
    case 2 => FencedCode
    case 3 => Footnotes(s.footnotesOptions)
    case 4 => Smarty(s.smartypantsOptions)
    case 5 => Toc(s.tocOptions)
    case 6 => TrulySaneLists(s.trulySaneListsOptions)
  }

  /** The settings enable exactly the extensions the defaults enable. */
  predicate DefaultFlags(s: MarkdownSettings) {
    && !s.enableChecklist && !s.enableCodehilite && s.enableFencedCode && s.enableFootnotes
    && !s.enableSmartypants && !s.enableToc && s.enableTrulySaneLists
  }

  /** The default settings (mudi/models/markdown.py:6-28) switch on fenced
      code, footnotes and sane lists and nothing else. */
  lemma DefaultsEnableDefaultFlags()
    ensures DefaultFlags(Defaults)
  {
  }

  /** How many of the slots below `n` are enabled. */
  function EnabledCount(s: MarkdownSettings, n: nat): nat {
    if n == 0 then 0 else EnabledCount(s, n - 1) + (if Enabled(s, n - 1) then 1 else 0)
  }

  lemma DefaultFlagsCount(s: MarkdownSettings)
    requires DefaultFlags(s)
    ensures EnabledCount(s, 7) == 3
  {
    assert EnabledCount(s, 1) == 0;
    assert EnabledCount(s, 2) == 0;
    assert EnabledCount(s, 3) == 1;
    assert EnabledCount(s, 4) == 2;
    assert EnabledCount(s, 5) == 2;
    assert EnabledCount(s, 6) == 2;
  }

  /** Three extensions in slot order, covering slots 2, 3 and 6, are the
      configured fenced code, footnotes and sane-lists extensions. */
  lemma DefaultFlagsPlacement(s: MarkdownSettings, exts: seq<Extension>)
    requires |exts| == 3
    requires forall i :: 0 <= i < |exts| ==> exts[i] == Configured(s, Slot(exts[i]))
    requires forall i, j :: 0 <= i < j < |exts| ==> Slot(exts[i]) < Slot(exts[j])
    requires exists i :: 0 <= i < |exts| && Slot(exts[i]) == 2
    requires exists i :: 0 <= i < |exts| && Slot(exts[i]) == 3
    requires exists i :: 0 <= i < |exts| && Slot(exts[i]) == 6
    ensures exts == [FencedCode, Footnotes(s.footnotesOptions), TrulySaneLists(s.trulySaneListsOptions)]
  {
    var i2 :| 0 <= i2 < |exts| && Slot(exts[i2]) == 2;
    var i3 :| 0 <= i3 < |exts| && Slot(exts[i3]) == 3;
    var i6 :| 0 <= i6 < |exts| && Slot(exts[i6]) == 6;
    assert i2 < i3 < i6;
  }

  /** The extensions configured for the enabled slots below `n`, in slot order. */
  function EnabledBelow(s: MarkdownSettings, n: nat): seq<Extension> {
    if n == 0 then []
    else EnabledBelow(s, n - 1) + (if Enabled(s, n - 1) then [Configured(s, n - 1)] else [])
  }

  /** Every extension below `n` sits in an enabled slot below `n` and is the
      one the settings configure for that slot. */
  lemma {:induction false} EnabledBelowMembers(s: MarkdownSettings, n: nat)
    requires n <= 7
    ensures forall i :: 0 <= i < |EnabledBelow(s, n)| ==>
              && Slot(EnabledBelow(s, n)[i]) < n
              && Enabled(s, Slot(EnabledBelow(s, n)[i]))
              && EnabledBelow(s, n)[i] == Configured(s, Slot(EnabledBelow(s, n)[i]))
  {
    if n > 0 {
      EnabledBelowMembers(s, n - 1);
      var prev := EnabledBelow(s, n - 1);
      var e := EnabledBelow(s, n);
      forall i | 0 <= i < |e|
        ensures Slot(e[i]) < n && Enabled(s, Slot(e[i])) && e[i] == Configured(s, Slot(e[i]))
      {
        if i < |prev| {
          assert e[i] == prev[i];
        }
      }
    }
  }

  /** The slots strictly increase along the list. */
  lemma {:induction false} EnabledBelowOrdered(s: MarkdownSettings, n: nat)
    requires n <= 7
    ensures forall i, j :: 0 <= i < j < |EnabledBelow(s, n)| ==>
              Slot(EnabledBelow(s, n)[i]) < Slot(EnabledBelow(s, n)[j])
  {
    if n > 0 {
      EnabledBelowOrdered(s, n - 1);
      EnabledBelowMembers(s, n - 1);
      var prev := EnabledBelow(s, n - 1);
      var e := EnabledBelow(s, n);
      forall i, j | 0 <= i < j < |e|
        ensures Slot(e[i]) < Slot(e[j])
      {
        assert e[i] == prev[i];
        if j < |prev| {
          assert e[j] == prev[j];
        }
      }
    }
  }

  /** Some extension of the list sits in slot `n`. */
  predicate HasSlot(exts: seq<Extension>, n: nat) {
    exists i :: 0 <= i < |exts| && Slot(exts[i]) == n
  }

  /** Every enabled slot below `n` has its extension in the list. */
  lemma {:induction false} EnabledBelowComplete(s: MarkdownSettings, n: nat)
    requires n <= 7
    ensures forall m: nat :: m < n && Enabled(s, m) ==> HasSlot(EnabledBelow(s, n), m)
  {
    if n > 0 {
      EnabledBelowComplete(s, n - 1);
      var prev := EnabledBelow(s, n - 1);
      var e := EnabledBelow(s, n);
      forall m: nat | m < n && Enabled(s, m)
        ensures HasSlot(e, m)
      {
        if m < n - 1 {
          var i :| 0 <= i < |prev| && Slot(prev[i]) == m;
          assert e[i] == prev[i];
        } else {
          assert e == prev + [Configured(s, m)];
          assert Slot(e[|prev|]) == m;
        }
      }
    }
  }

  /** The extension list built by `MarkdownRenderer.__init__`
      (mudi/markdown.py:16-41). The seven `if` statements of the source test
      the flags in slot order and append the configured extension; the loop
      below runs through the same slots. Exactly the enabled extensions
      appear, each once and configured from the settings, in slot order. */
  method EnabledExtensions(s: MarkdownSettings) returns (extensions: seq<Extension>)
    ensures forall i, j :: 0 <= i < j < |extensions| ==> Slot(extensions[i]) < Slot(extensions[j])
    ensures forall i :: 0 <= i < |extensions| ==> Enabled(s, Slot(extensions[i]))
    ensures forall n: nat :: n < 7 && Enabled(s, n) ==>
              exists i :: 0 <= i < |extensions| && Slot(extensions[i]) == n
    ensures forall i :: 0 <= i < |extensions| ==> extensions[i] == Configured(s, Slot(extensions[i]))
    ensures |extensions| == EnabledCount(s, 7)
  {
    extensions := [];
    for n := 0 to 7
      invariant extensions == EnabledBelow(s, n)
      invariant |extensions| == EnabledCount(s, n)
    {
      if Enabled(s, n) {
        extensions := extensions + [Configured(s, n)];
      } else {
        AppendNil(extensions);
      }
    }
    EnabledBelowMembers(s, 7);
    EnabledBelowOrdered(s, 7);
    EnabledBelowComplete(s, 7);
  }

  /** `MarkdownRenderer.__init__` (mudi/markdown.py:14-47): the enabled
      extensions in the fixed order checklist, codehilite, fenced_code,
      footnotes, smartypants, toc, truly_sane_lists, each once, each built
      from its option mapping unchanged (checklist and fenced code take none);
      output format and tab length forwarded unchanged. With the default
      flags the list is fenced code, footnotes, sane lists; the default
      settings give those three with their default options. */
  method NewRenderer(s: MarkdownSettings) returns (r: Renderer)
    ensures r.outputFormat == s.outputFormat && r.tabLength == s.tabLength
    ensures forall i, j :: 0 <= i < j < |r.extensions| ==> Slot(r.extensions[i]) < Slot(r.extensions[j])
    ensures forall i :: 0 <= i < |r.extensions| ==> Enabled(s, Slot(r.extensions[i]))
    ensures forall n: nat :: n < 7 && Enabled(s, n) ==>
              exists i :: 0 <= i < |r.extensions| && Slot(r.extensions[i]) == n
    ensures forall i :: 0 <= i < |r.extensions| ==> r.extensions[i] == Configured(s, Slot(r.extensions[i]))
    ensures DefaultFlags(s) ==>
              r.extensions == [FencedCode, Footnotes(s.footnotesOptions), TrulySaneLists(s.trulySaneListsOptions)]
    ensures s == Defaults ==>
              r.extensions == [FencedCode, Footnotes(map["BACKLINK_TEXT" := VStr("&#x2191;")]),
                               TrulySaneLists(map["truly_sane" := VBool(true)])]
  {
    var extensions := EnabledExtensions(s);
    if s == Defaults {
      DefaultsEnableDefaultFlags();
    }
    if DefaultFlags(s) {
      DefaultFlagsCount(s);
      assert Enabled(s, 2) && Enabled(s, 3) && Enabled(s, 6);
      DefaultFlagsPlacement(s, extensions);
    }
    r := Renderer(s.outputFormat, s.tabLength, extensions);
  }
}
