/**
  The few JavaScript value notions the booking core relies on: an optional
  value (a request field that may be `undefined`), truthiness of a form field,
  and Date values with their comparison.
 */
module JsValues {

  datatype Option<+T> = None | Some(value: T)

  /** A form field is truthy when it is present and not the empty string. */
  predicate Truthy(field: Option<string>) {
    field.Some? && field.value != ""
  }

  /**
    `new Date(text)`: the time value in milliseconds since the epoch, or
    `None` for an Invalid Date (whose time value is NaN). The calendar-string
    parser itself belongs to the JavaScript engine and is a parameter here.
   */
  type DateParser = string -> Option<int>

  /**
    `a <= b` on two Date objects compares their time values; a comparison
    involving NaN (an Invalid Date) is false.
   */
  predicate DateLessOrEqual(a: Option<int>, b: Option<int>) {
    a.Some? && b.Some? && a.value <= b.value
  }
}
