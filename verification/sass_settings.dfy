/**
 The Sass settings record of `mudi/models/sass.py`, and the older copy of its
 validator in `mudi/models.py`.
 */
module SassModels {
  import opened Base
  import opened Paths

  datatype SassSettings = SassSettings(sassIn: Path, sassOut: Path, outputStyle: string)

  /** The field defaults (mudi/models/sass.py:6-8). */
  const Defaults: SassSettings := SassSettings(["sass"], ["css"], "nested")

  /** The output styles the Sass compiler accepts. */
  const OutputStyles: seq<string> := ["nested", "expanded", "compact", "compressed"]

  /** `valid_output_style` (mudi/models/sass.py:10-16). */
  function ValidOutputStyle(v: string): (r: Result<string>)
    ensures r.Ok? <==> v == "nested" || v == "expanded" || v == "compact" || v == "compressed"
    ensures r.Ok? ==> r.value == v
    ensures r.Err? ==> r.error == ValueError
  {
    if v !in OutputStyles then Err(ValueError) else Ok(v)
  }

  /** The default output style passes the validator. */
  lemma DefaultStyleIsValid()
    ensures ValidOutputStyle(Defaults.outputStyle) == Ok("nested")
  {
  }

  /** `valid_output_style` as written in `mudi/models.py` (lines 22-28): the
      accepted list spells the last style "compresed". */
  function LegacyValidOutputStyle(v: string): (r: Result<string>)
    ensures r.Ok? <==> v == "nested" || v == "expanded" || v == "compact" || v == "compresed"
    ensures r.Ok? ==> r.value == v
    ensures r.Err? ==> r.error == ValueError
  {
    if v !in ["nested", "expanded", "compact", "compresed"] then Err(ValueError) else Ok(v)
  }

  /** The legacy validator rejects "compressed", which its own error message
      lists as valid, and accepts the misspelling; the current validator does
      the opposite and otherwise agrees with it. */
  lemma LegacyValidatorTypo()
    ensures LegacyValidOutputStyle("compressed") == Err(ValueError)
    ensures ValidOutputStyle("compressed") == Ok("compressed")
    ensures LegacyValidOutputStyle("compresed").Ok? && ValidOutputStyle("compresed").Err?
    ensures forall v :: v != "compressed" && v != "compresed" ==>
              LegacyValidOutputStyle(v) == ValidOutputStyle(v)
  {
  }
}
