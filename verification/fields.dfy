/**
 * How the API routes read optional string fields of a JSON body: the
 * `!field?.trim()` presence test, the `field?.trim() || null` normalisation
 * and JavaScript truthiness of a string.
 */
module Fields {
  import opened Wrappers
  import opened Text

  /** `!field?.trim()`: absent, or nothing but white space. */
  predicate Missing(field: Option<string>) {
    field.None? || Blank(field.value)
  }

  /** Missing is exactly the `!field?.trim()` test: no field, or one that trims to the empty string. */
  lemma MissingIsEmptyTrim(field: Option<string>)
    ensures Missing(field) <==> field.None? || Trim(field.value) == ""
  {
  }

  /** A string field is truthy when it is present and not the empty string. */
  predicate Truthy(field: Option<string>) {
    field.Some? && field.value != ""
  }

  /** `field?.trim() || null`. */
  function TrimOrNull(field: Option<string>): (r: Option<string>)
    ensures r.None? <==> Missing(field)
    ensures r.Some? ==> r.value == Trim(field.value) && r.value != ""
  {
    if Missing(field) then None else Some(Trim(field.value))
  }

  /** `field || null`: the empty string becomes null, anything else is kept as sent. */
  function OrNull(field: Option<string>): (r: Option<string>)
    ensures r.None? <==> !Truthy(field)
    ensures r.Some? ==> r == field
  {
    if Truthy(field) then field else None
  }
}
