# aurorastay booking core in Dafny

This project models two parts of the aurorastay hotel-booking web app, `server.js`:

- **The booking form handler** (`POST /book`). It reads the submitted fields and builds an error list, one fixed message per failed rule, always in the same order:
  - room, name, email, check-in and check-out must be present;
  - the guest count, coerced with `parseInt(guests, 10) || 0`, must be at least 1;
  - when both dates are given, check-out must come after check-in.

  If any rule fails, the room is looked up. When no room row matches the submitted id, or the row's `hotel_id` is falsy, the handler ends in "Selected room no longer exists.". Otherwise the hotel page is shown again with the errors and the submitted values, and the guest count is echoed as `guestsNum || 1`. If no rule fails, a booking is created from the submitted text fields and the coerced guest count `guestsNum`.
- **The stay summary on the confirmation page** (`GET /booking/:id`). Nights start at 1 and become the rounded day difference between the stored dates when that difference is positive. The estimated total is nights times the nightly price.

The modules are:

- `JsValues`: the JavaScript notions the handler relies on: an optional field (`undefined` is `None`), field truthiness, Date time values and Date comparison.
- `JsParseInt`: ECMAScript `parseInt(s, 10)`. It skips leading white space, reads an optional sign and then the longest decimal digit run. No digits gives NaN.
- `BookingValidator`:
  - the validation rules as a specification function, `ValidationErrors`;
  - the handler's step-by-step error list, as a method proved equal to it (`CheckForm`);
  - the whole handler body, returning one of three outcomes (`SubmitBooking`).
- `StayPricing`: the nights and total computation and its properties.

Dates are ECMAScript time values: milliseconds since the epoch, or `None` for an Invalid Date. Turning a date string into a time value is the job of the JavaScript engine, so it is a parameter (`DateParser`). The room lookup is a parameter too: it maps a room id to the room's `hotel_id`, or `None` when no row matches.

Some consequences of the code that the model keeps:

- After a failed submission, a guest count of 0 or an unparseable count is shown again as 1. A negative count such as `-3` is shown unchanged.
- Date order compares full time values, not calendar days.
- When the room lookup fails, the error list is dropped and only the not-found message is shown.

A consequence of the code as written is stated in `SubmitBooking`'s contract: "Please select a room type." is never shown again to the user. An empty or absent room id makes the handler look up a room with that id. Only if a room had the empty string as its id could the hotel page be shown with that message; otherwise the handler ends in "Selected room no longer exists.".

## Model

| member | source | states |
|---|---|---|
| `BookingValidator.ValidationErrors` | server.js:68-86 | The error list holds a rule's message exactly when that rule fails. Messages follow the fixed rule order, none occurs twice, there are at most seven, and the date-order message, when present, comes last. |
| `BookingValidator.ErrorsUpToInOrder` | server.js:68-86 | After the first `n` rules are checked, the list holds one message per failed rule among them, in rule order, and nothing else. |
| `BookingValidator.CheckForm` | server.js:67-86 | The list built by the successive pushes equals `ValidationErrors`, and the guest count is `GuestsNum` of the submitted field. |
| `BookingValidator.SubmitBooking` | server.js:67-113 | A booking is created iff validation finds no error. It carries the submitted non-empty fields, the phone as given, and a guest count of at least 1. Both dates, when they parse, are in order. Otherwise: not-found, with the single message "Selected room no longer exists.", iff the room id is absent or its lookup gives no hotel id or hotel id 0. Else the page is shown again with exactly the validation errors, the submitted fields verbatim, and the echoed guest count. The room message can only be shown if a room with the empty id exists. |
| `BookingValidator.AcceptedFormIsComplete` | server.js:70-86 | A form with no errors has every required field non-empty and at least one guest. Its check-in is before its check-out whenever both parse. |
| `BookingValidator.Fails` | server.js:70-85 | Definition without a contract: each message's rule rejects the form. The five presence rules reject a falsy field. The guests rule rejects a coerced count of 0 or less. The date rule rejects when both dates are truthy and check-out `<=` check-in as Dates. |
| `BookingValidator.ErrorsUpTo` | server.js:68-86 | Definition without a contract: the list after the first `n` rules, each appending its message when it fails. `ErrorsUpToInOrder` states its properties. |
| `BookingValidator.ErrorMessage.Text` | server.js:70-84 | Definition without a contract: the seven message texts, verbatim. `TextInjective` proves them distinct. |
| `JsValues.Truthy` | server.js:70-74 | Definition without a contract: a field is truthy when present and not the empty string, the negation of `!field` for a string or `undefined`. |
| `JsValues.DateLessOrEqual` | server.js:83 | Definition without a contract: Date `<=` compares time values and is false when either is an Invalid Date. |
| `JsParseInt.ParseInt` | server.js:76 | Definition without a contract: trim leading white space, then `ParseTrimmed`. `ParseIntDigits` and `ParseIntNaN` state its value for every input shape. |
| `JsParseInt.ParseTrimmed` | server.js:76 | Definition without a contract: an optional sign, then the longest digit run, NaN when the run is empty. |
| `BookingValidator.Message` | server.js:70-84 | The `k`-th message is the one whose rule comes `k`-th. |
| `BookingValidator.TextInjective` | server.js:70-84 | Different rules have different message texts. |
| `BookingValidator.GuestsNum` | server.js:76 | Definition without a contract: the guest count is `parseInt` of the field, or 0 when that is NaN. The next three rows state what it yields. |
| `BookingValidator.GuestsNumOfDigits` | server.js:76 | White space, an optional sign and a digit run, then anything that does not continue the run, give the signed value of the digits. |
| `BookingValidator.GuestsNumWithoutDigits` | server.js:76 | A field where no digit follows the white space and optional sign, and an absent field, give 0. |
| `BookingValidator.GuestsRule` | server.js:76-77 | The guests message is in the error list exactly when the coerced count is 0 or negative. |
| `BookingValidator.GuestsNumRejectedSamples` | server.js:76-77 | "0", "-3", "", "abc" and an absent field all give a count of at most 0. |
| `BookingValidator.GuestsNumAcceptedSamples` | server.js:76-77 | "1", "2", "2abc" and " 7" give 1, 2, 2 and 7. |
| `BookingValidator.EchoedGuests` | server.js:101 | The echoed guest count is never 0. A count of 0 (NaN or zero) is echoed as 1, and any other count is echoed unchanged. |
| `BookingValidator.EchoedGuestsResubmit` | server.js:101 | Submitting the echoed count again as its decimal text gives back the same count. |
| `BookingValidator.DateOrderSamples` | server.js:80-86 | With midnight dates: check-out the day before or on the same day as check-in is rejected; the day after is accepted. |
| `BookingValidator.ValidSubmissionSample` | server.js:68-86 | A complete submission for two guests from 2024-06-01 to 2024-06-03 has no errors. |
| `JsParseInt.TrimStartDropsWhiteSpace` | server.js:76 | Trimming removes exactly the longest white-space prefix. |
| `JsParseInt.DigitRunIsLongestPrefix` | server.js:76 | The digit run read is a prefix of the input, and the character after it is not a digit. |
| `JsParseInt.ParseIntDigits` | server.js:76 | White space, an optional sign, digits, then anything not starting with a digit parses to the signed value of the digits. |
| `JsParseInt.ParseIntNaN` | server.js:76 | White space and an optional sign followed by no digit parse to NaN. |
| `JsParseInt.ParseIntDecimalString` | server.js:76 | `parseInt` reads back every integer's decimal text. |
| `StayPricing.RoundedDays` | server.js:135 | The rounded day count is the whole number of days nearest to the difference, with halves rounded up. |
| `StayPricing.RoundedDaysUnique` | server.js:135 | That nearest whole number is unique. |
| `StayPricing.Nights` | server.js:130-137 | Nights are always at least 1. |
| `StayPricing.StayNights` | server.js:130-137 | Nights are at least 1, and exactly 1 when either stored date is empty. |
| `StayPricing.NightsOfWholeDays` | server.js:130-137 | Midnight dates count exactly their day difference when it is positive, and 1 otherwise. |
| `StayPricing.NightsDefault` | server.js:130-137 | An invalid date, or a stay shorter than half a day (including a check-out not after check-in), counts one night. With `NightsNearest` this covers every input. |
| `StayPricing.NightsNearest` | server.js:130-137 | A stay of at least half a day counts the whole number of days nearest to its length. |
| `StayPricing.ComputeStay` | server.js:129-138 | The method's nights are `StayNights` of the dates, so at least 1. The total is nights times the price, and no less than one night's price when the price is not negative. |
| `StayPricing.StayDefault` | server.js:130-138 | Missing or unparseable dates, or a stay shorter than half a day (including out-of-order dates), give one night and a total equal to the nightly price. |
| `StayPricing.StaySample` | server.js:129-138 | 2024-06-01 to 2024-06-03 at 1000 a night is 2 nights and 2000 in total. |

## Left out

- Express routing, template rendering, HTTP status codes, the redirect to `/booking/:id`, logging and the catch-all 500 handlers: the model returns the outcome the handler would render.
- `src/db.js` is not part of this model. This covers the SQL, schema, seeding and database handle, plus `createBooking`, `getHotelById`, `getRoomsByHotelId` and `getBookingById`. The room lookup is a function parameter, and the hotel and room lists shown with the errors are not modelled.
- Hotel search, the home page and the admin listing are outside the modelled core.
- Date string parsing (`new Date(text)`) belongs to the JavaScript engine; it is the `DateParser` parameter.
- `StayPricing.RoundedDays`: the floating-point division and `Math.round` are replaced by exact integer arithmetic. Time values are whole milliseconds, so this differs from the source only where the quotient lands within float precision of a half.
- `StayPricing.ComputeStay`: the total is an exact real product, without floating-point rounding.
- `JsParseInt.ParseTrimmed`: values above 2^53 lose precision in JavaScript and `-0` is a distinct number there. The model uses exact integers, so `-0` is 0 (as `|| 0` makes it anyway).
- `BookingValidator.EchoedGuestsResubmit`: the round trip holds for exact integers. In JavaScript, a count of 10^21 or more is written in exponent form ("1e+21") and reads back as 1. A digit run too long for a double parses to Infinity, which is written as "Infinity" and reads back as NaN.
- `BookingValidator.SubmitBooking`: the hotel that `getHotelById` returns is not checked by the handler, and it is not modelled. A room whose `hotel_id` is truthy but names no hotel still leads to the redisplay outcome.
- Request fields that body-parser could deliver as arrays or objects are modelled as strings only.
- `StayPricing.StayNights`: a stored date column that is NULL is modelled as the empty string, which is falsy like NULL.
- Concurrency between requests and room availability are not part of the handler and are not modelled.
