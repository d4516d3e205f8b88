/** The shared string-parameter check every tool handler runs on its arguments (utils/validation.ts). */
module Validation {
  import opened JsValues
  import opened JsStrings
  import Numerals

  /** `{ required, maxLength, allowEmpty, allowNull }`. */
  datatype Options = Options(required: bool, maxLength: nat, allowEmpty: bool, allowNull: bool)

  /** The defaults the source destructures when an option is omitted. */
  const Defaults := Options(required := false, maxLength := 100, allowEmpty := false, allowNull := true)

  /** `{ isValid: true }` or `{ isValid: false, errorMessage }`. */
  datatype ValidationResult = Valid | Invalid(errorMessage: string)

  function NullMessage(field: string): string { field + " パラメータが不正です" }
  function RequiredMessage(field: string): string { field + " パラメータは必須です" }
  function NotStringMessage(field: string): string { field + " パラメータは文字列である必要があります" }
  function EmptyMessage(field: string): string { field + " パラメータが空です" }
  function TooLongMessage(field: string, maxLength: nat): string {
    field + " が長すぎます（最大" + Numerals.NatToString(maxLength) + "文字）"
  }
  function IllegalCharMessage(field: string): string { field + " に不正な文字が含まれています" }

  /** The NUL character the adapter refuses in every string argument. */
  const NUL: char := 0 as char

  /** `validateStringParameter(value, fieldName, options)`: an ordered list of guarded early returns. */
  function ValidateStringParameter(value: JsValue, field: string, opts: Options): (r: ValidationResult)
    // a value that passes is absent-and-optional, or a string meeting every check
    ensures r.Valid? <==>
      (!opts.required && (value.Undefined? || (value.Null? && opts.allowNull)))
      || (value.Str? && value.s != "" && (opts.allowEmpty || !IsBlank(value.s))
          && JsLength(value.s) <= opts.maxLength && NUL !in value.s)
      || (value.Str? && value.s == "" && !opts.required && opts.allowEmpty)
    // the checks run in order and the first one that fails names the error
    ensures value.Null? && !opts.allowNull ==> r == Invalid(NullMessage(field))
    ensures !(value.Null? && !opts.allowNull) && opts.required && !Truthy(value) ==> r == Invalid(RequiredMessage(field))
    ensures (!(opts.required && !Truthy(value)) && !value.Null? && !value.Undefined? && !value.Str?) ==>
              r == Invalid(NotStringMessage(field))
    ensures value.Str? && !(opts.required && value.s == "") ==>
      var s := value.s;
      (!opts.allowEmpty && IsBlank(s) ==> r == Invalid(EmptyMessage(field))) &&
      ((opts.allowEmpty || !IsBlank(s)) && JsLength(s) > opts.maxLength ==> r == Invalid(TooLongMessage(field, opts.maxLength))) &&
      ((opts.allowEmpty || !IsBlank(s)) && JsLength(s) <= opts.maxLength && NUL in s ==> r == Invalid(IllegalCharMessage(field)))
  {
    TrimEmptyIffBlank(if value.Str? then value.s else "");
    if value.Null? && !opts.allowNull then Invalid(NullMessage(field))
    else if opts.required && !Truthy(value) then Invalid(RequiredMessage(field))
    else if value.Null? || value.Undefined? then Valid
    else if !value.Str? then Invalid(NotStringMessage(field))
    else if !opts.allowEmpty && Trim(value.s) == "" then Invalid(EmptyMessage(field))
    else if JsLength(value.s) > opts.maxLength then Invalid(TooLongMessage(field, opts.maxLength))
    else if NUL in value.s then Invalid(IllegalCharMessage(field))
    else Valid
  }

  /** A value that passes a `required` check is a non-empty string. */
  lemma RequiredValidIsString(value: JsValue, field: string, opts: Options)
    requires opts.required && ValidateStringParameter(value, field, opts).Valid?
    ensures value.Str? && value.s != "" && NUL !in value.s && JsLength(value.s) <= opts.maxLength
    ensures opts.allowEmpty || !IsBlank(value.s)
  {
  }
}
