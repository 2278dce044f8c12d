/**
 * Cleaning of single Django form fields. `CharField` strips surrounding white space
 * before its checks; `ChoiceField` takes the submitted value as it is and accepts only
 * the codes of its choice list.
 */
module Fields {
  import opened Wrappers
  import opened Text
  import opened Choices

  datatype FormError =
    | Required(field: string)
    | TooLong(field: string)
    | InvalidChoice(field: string)
    | InvalidValue(field: string)
    | DomainNotAllowed
    | AlreadyRegistered
    | PasswordsDiffer

  /** A required `CharField`: strips, rejects empty input and, when given, input over `maxLength`. */
  function CleanCharField(field: string, raw: string, maxLength: Option<nat>): (r: Result<string, FormError>)
    ensures r.Ok? <==> Strip(raw) != "" && (maxLength.Some? ==> |Strip(raw)| <= maxLength.value)
    ensures r.Ok? ==> r.value == Strip(raw)
    ensures Strip(raw) == "" ==> r == Err(Required(field))
  {
    var value := Strip(raw);
    if value == "" then Err(Required(field))
    else if maxLength.Some? && |value| > maxLength.value then Err(TooLong(field))
    else Ok(value)
  }

  /** A `CharField(required=False)`: the stripped input, possibly empty. */
  function CleanOptionalCharField(field: string, raw: string, maxLength: Option<nat>): (r: Result<string, FormError>)
    ensures r.Ok? <==> maxLength.Some? ==> |Strip(raw)| <= maxLength.value
    ensures r.Ok? ==> r.value == Strip(raw)
  {
    var value := Strip(raw);
    if maxLength.Some? && |value| > maxLength.value then Err(TooLong(field)) else Ok(value)
  }

  /** A required `ChoiceField`: the submitted code, when it is one of the list's codes. */
  function CleanChoice(field: string, choices: ChoiceList, raw: string): (r: Result<string, FormError>)
    ensures r.Ok? <==> raw != "" && IsChoice(choices, raw)
    ensures r.Ok? ==> r.value == raw
    ensures raw == "" ==> r == Err(Required(field))
  {
    if raw == "" then Err(Required(field))
    else if !Lookup(choices, raw) then Err(InvalidChoice(field))
    else Ok(raw)
  }
}
