/**
 The Markdown settings record of `mudi/models/markdown.py`: its defaults and
 its two field validators.
 */
module MarkdownModels {
  import opened Base
  import opened Values

  /** An extension's keyword-argument mapping. */
  type Options = map<string, Value>

  datatype MarkdownSettings = MarkdownSettings(
    outputFormat: string,
    tabLength: int,
    enableChecklist: bool,
    enableCodehilite: bool,
    codehiliteOptions: Options,
    enableFencedCode: bool,
    enableFootnotes: bool,
    footnotesOptions: Options,
    enableSmartypants: bool,
    smartypantsOptions: Options,
    enableToc: bool,
    tocOptions: Options,
    enableTrulySaneLists: bool,
    trulySaneListsOptions: Options)

  /** The field defaults (mudi/models/markdown.py:6-28). */
  const Defaults: MarkdownSettings := MarkdownSettings(
    outputFormat := "html5",
    tabLength := 2,
    enableChecklist := false,
    enableCodehilite := false,
    codehiliteOptions := map["css_class" := VStr("highlight"), "guess_lang" := VBool(false)],
    enableFencedCode := true,
    enableFootnotes := true,
    footnotesOptions := map["BACKLINK_TEXT" := VStr("&#x2191;")],
    enableSmartypants := false,
    smartypantsOptions := map[],
    enableToc := false,
    tocOptions := map["anchorlink" := VBool(true)],
    enableTrulySaneLists := true,
    trulySaneListsOptions := map["truly_sane" := VBool(true)])

  /** `valid_output_format` (mudi/models/markdown.py:30-35). */
  function ValidOutputFormat(v: string): (r: Result<string>)
    ensures r.Ok? <==> v == "html5" || v == "xhtml"
    ensures r.Ok? ==> r.value == v
    ensures r.Err? ==> r.error == ValueError
  {
    if v in ["html5", "xhtml"] then Ok(v) else Err(ValueError)
  }

  /** `valid_tab_length` (mudi/models/markdown.py:37-42). */
  function ValidTabLength(v: int): (r: Result<int>)
    ensures r.Ok? <==> v > 0
    ensures r.Ok? ==> r.value == v
    ensures r.Err? ==> r.error == ValueError
  {
    if v > 0 then Ok(v) else Err(ValueError)
  }

  /** Building the settings record runs both validators on the given values;
      pydantic reports any failure as a ValidationError, a ValueError. */
  function Validate(s: MarkdownSettings): (r: Result<MarkdownSettings>)
    ensures r.Ok? <==> ValidOutputFormat(s.outputFormat).Ok? && ValidTabLength(s.tabLength).Ok?
    ensures r.Ok? ==> r.value == s
  {
    var _ :- ValidOutputFormat(s.outputFormat);
    var _ :- ValidTabLength(s.tabLength);
    Ok(s)
  }

  /** The defaults pass both validators: a default record is always valid. */
  lemma DefaultsAreValid()
    ensures Validate(Defaults) == Ok(Defaults)
    ensures Defaults.outputFormat == "html5" && Defaults.tabLength == 2
  {
  }
}
