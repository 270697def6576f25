/**
 * `parseNumLocales`, called from outside this file, converts the text with
 * `c_string_to_int32_t_precise` (not part of this model: its result is a
 * parameter) and rejects text that is not a number and counts below one.
 */
module NumLocales {
  import opened CTypes
  import opened ArgErrors

  /** What the numeric conversion reports: the value it produced and whether the text was invalid. */
  datatype Conversion = Conversion(value: Int32, invalid: bool)

  /** The error `parseNumLocales` raises for `text`, if any; invalid text is reported before the range. */
  function NumLocalesError(text: string, c: Conversion): (r: Option<ArgError>)
    ensures r.None? <==> !c.invalid && c.value >= 1
    ensures c.invalid ==> r == Some(InvalidNumLocales(text))
    ensures !c.invalid && c.value < 1 ==> r == Some(NonPositiveNumLocales)
  {
    if c.invalid then Some(InvalidNumLocales(text))
    else if c.value < 1 then Some(NonPositiveNumLocales)
    else None
  }
}
