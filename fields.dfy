/**
 * The field-level checks the serializer framework runs on a `CharField`
 * before a serializer's own `validate`: a blank value is refused, then the
 * `max_length` and `min_length` bounds, each with the framework's message.
 */
module Fields {
  import opened Wrappers
  import opened Strings

  /** The errors of one `CharField(min_length=minLength, max_length=maxLength)`; `None` is no upper
      bound. Empty exactly when the value is non-blank and within the bounds. */
  function CharFieldErrors(field: string, value: string, minLength: nat, maxLength: Option<nat>): (errs: seq<ValidationError>)
    ensures errs == [] <==> 0 < |value| && minLength <= |value| && (maxLength.Some? ==> |value| <= maxLength.value)
    ensures |errs| <= 1
    ensures forall i :: 0 <= i < |errs| ==> errs[i].field == field
  {
    if |value| == 0 then
      [ValidationError(field, "This field may not be blank.")]
    else if maxLength.Some? && |value| > maxLength.value then
      [ValidationError(field, "Ensure this field has no more than " + NatToString(maxLength.value) + " characters.")]
    else if |value| < minLength then
      [ValidationError(field, "Ensure this field has at least " + NatToString(minLength) + " characters.")]
    else
      []
  }
}
