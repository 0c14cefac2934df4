/**
  The booking form handler (`POST /book`): it checks the submitted fields
  against seven fixed rules, collecting one message per failed rule in rule
  order. A clean submission becomes the booking intent handed to persistence.
  Otherwise the room is looked up: when no room row matches, or its
  `hotel_id` is falsy, the "room no longer exists" page is shown; else the
  hotel page is redisplayed with the messages and the submitted values.
 */
module BookingValidator {
  import opened JsValues
  import opened JsParseInt

  /** The raw request body: each field is a string or absent (`undefined`). */
  datatype BookingForm = BookingForm(
    roomId: Option<string>,
    name: Option<string>,
    email: Option<string>,
    phone: Option<string>,
    checkin: Option<string>,
    checkout: Option<string>,
    guests: Option<string>)

  /** The record passed to `createBooking` after successful validation. */
  datatype BookingIntent = BookingIntent(
    roomId: string,
    name: string,
    email: string,
    phone: Option<string>,
    checkin: string,
    checkout: string,
    guests: int)

  /** The values redisplayed in the form after a failed validation. */
  datatype EchoedForm = EchoedForm(
    roomId: Option<string>,
    name: Option<string>,
    email: Option<string>,
    phone: Option<string>,
    checkin: Option<string>,
    checkout: Option<string>,
    guests: int)

  /**
    What the handler does with a submission: create the booking, show the
    hotel page again with the errors, or show the not-found page with its
    single message.
   */
  datatype Outcome =
    | Created(intent: BookingIntent)
    | Redisplay(errors: seq<ErrorMessage>, form: EchoedForm, hotelId: int)
    | RoomMissing(message: string)

  /** The validation messages, one per rule, declared in the order the rules are checked. */
  datatype ErrorMessage =
    | RoomRequired
    | NameRequired
    | EmailRequired
    | CheckinRequired
    | CheckoutRequired
    | GuestsAtLeastOne
    | CheckoutAfterCheckin
  {
    /** The text shown to the user. */
    function Text(): string {
      match this
      case RoomRequired => "Please select a room type."
      case NameRequired => "Name is required."
      case EmailRequired => "Email is required."
      case CheckinRequired => "Check-in date is required."
      case CheckoutRequired => "Check-out date is required."
      case GuestsAtLeastOne => "Guests must be at least 1."
      case CheckoutAfterCheckin => "Check-out date must be after check-in date."
    }

    /** The position of the rule in the checking order. */
    function Rank(): (k: nat)
      ensures k < RuleCount
    {
      match this
      case RoomRequired => 0
      case NameRequired => 1
      case EmailRequired => 2
      case CheckinRequired => 3
      case CheckoutRequired => 4
      case GuestsAtLeastOne => 5
      case CheckoutAfterCheckin => 6
    }
  }

  /**
    Shown on its own, as a not-found page, after a failed validation when no
    room row matches the id, or its `hotel_id` is falsy.
   */
  const RoomNoLongerExists := "Selected room no longer exists."

  const RuleCount := 7

  /** The message of rule `k`. */
  function Message(k: nat): (m: ErrorMessage)
    requires k < RuleCount
    ensures m.Rank() == k
  {
    match k
    case 0 => RoomRequired
    case 1 => NameRequired
    case 2 => EmailRequired
    case 3 => CheckinRequired
    case 4 => CheckoutRequired
    case 5 => GuestsAtLeastOne
    case _ => CheckoutAfterCheckin
  }

  lemma MessageOfRank(m: ErrorMessage)
    ensures Message(m.Rank()) == m
  {
  }

  /** Different messages read differently, so the user can tell every failed rule apart. */
  lemma TextInjective(m: ErrorMessage, n: ErrorMessage)
    requires m != n
    ensures m.Text() != n.Text()
  {
  }

  /** `parseInt(guests, 10) || 0`: NaN and zero both become 0. */
  function GuestsNum(guests: Option<string>): int
  {
    match ParseInt(FieldText(guests))
    case Some(n) => n
    case None => 0
  }

  /** The guest count redisplayed after a failed validation: `guestsNum || 1`. */
  function EchoedGuests(guestsNum: int): (g: int)
    ensures g != 0
    ensures guestsNum == 0 ==> g == 1
    ensures guestsNum != 0 ==> g == guestsNum
  {
    if guestsNum != 0 then guestsNum else 1
  }

  /**
    A guest field of white space, an optional sign and a digit run, followed
    by anything that does not continue the run, counts the signed value of
    the digits.
   */
  lemma GuestsNumOfDigits(ws: string, sign: string, digits: string, rest: string)
    requires AllWhiteSpace(ws) && IsSign(sign)
    requires digits != [] && AllDigits(digits)
    requires rest == [] || !IsDigit(rest[0])
    ensures GuestsNum(Some(ws + sign + digits + rest)) == Signed(sign, DigitsValue(digits))
  {
    ParseIntDigits(ws, sign, digits, rest);
  }

  /**
    A guest field in which no digit follows the white space and optional
    sign counts 0 guests, as does an absent field.
   */
  lemma GuestsNumWithoutDigits(ws: string, sign: string, rest: string)
    requires AllWhiteSpace(ws) && IsSign(sign)
    requires rest == [] || !IsDigit(rest[0])
    requires sign == "" && rest != [] ==> !IsWhiteSpace(rest[0]) && rest[0] != '+' && rest[0] != '-'
    ensures GuestsNum(Some(ws + sign + rest)) == 0
    ensures GuestsNum(None) == 0
  {
    ParseIntNaN(ws, sign, rest);
    ParseIntNaN("", "", "undefined");
    assert "undefined" == "" + "" + "undefined";
  }

  /** "0", "-3", "", "abc" and an absent field give a count of at most 0, hence the guests message. */
  lemma GuestsNumRejectedSamples()
    ensures GuestsNum(Some("0")) == 0 && GuestsNum(Some("-3")) == -3
    ensures GuestsNum(Some("")) == 0 && GuestsNum(Some("abc")) == 0 && GuestsNum(None) == 0
  {
    ParseIntDigits("", "", "0", "");
    assert "0" == "" + "" + "0" + "";
    ParseIntDigits("", "-", "3", "");
    assert "-3" == "" + "-" + "3" + "";
    ParseIntNaN("", "", "");
    ParseIntNaN("", "", "abc");
    assert "abc" == "" + "" + "abc";
    ParseIntNaN("", "", "undefined");
    assert "undefined" == "" + "" + "undefined";
  }

  /** "1", "2", "2abc" and " 7" give a positive count, hence no guests message. */
  lemma GuestsNumAcceptedSamples()
    ensures GuestsNum(Some("1")) == 1 && GuestsNum(Some("2")) == 2
    ensures GuestsNum(Some("2abc")) == 2 && GuestsNum(Some(" 7")) == 7
  {
    ParseIntDigits("", "", "1", "");
    assert "1" == "" + "" + "1" + "";
    ParseIntDigits("", "", "2", "");
    assert "2" == "" + "" + "2" + "";
    ParseIntDigits("", "", "2", "abc");
    assert "2abc" == "" + "" + "2" + "abc";
    ParseIntDigits(" ", "", "7", "");
    assert " 7" == " " + "" + "7" + "";
  }

  /**
    Submitting the redisplayed guest count again, as the decimal text the
    page shows, yields that same count, so the form comes back unchanged.
   */
  lemma EchoedGuestsResubmit(guests: Option<string>)
    ensures GuestsNum(Some(DecimalString(EchoedGuests(GuestsNum(guests))))) == EchoedGuests(GuestsNum(guests))
  {
    ParseIntDecimalString(EchoedGuests(GuestsNum(guests)));
  }

  /** Whether the rule of message `m` rejects the form. */
  predicate Fails(form: BookingForm, parseDate: DateParser, m: ErrorMessage) {
    match m
    case RoomRequired => !Truthy(form.roomId)
    case NameRequired => !Truthy(form.name)
    case EmailRequired => !Truthy(form.email)
    case CheckinRequired => !Truthy(form.checkin)
    case CheckoutRequired => !Truthy(form.checkout)
    case GuestsAtLeastOne => GuestsNum(form.guests) <= 0
    case CheckoutAfterCheckin =>
      && Truthy(form.checkin) && Truthy(form.checkout)
      && DateLessOrEqual(parseDate(form.checkout.value), parseDate(form.checkin.value))
  }

  /** A list that holds each rule's message exactly when the rule fails holds exactly the failing messages. */
  lemma MembersByRule(form: BookingForm, parseDate: DateParser, errs: seq<ErrorMessage>)
    requires forall j :: 0 <= j < RuleCount ==> (Message(j) in errs <==> Fails(form, parseDate, Message(j)))
    ensures forall m :: m in errs <==> Fails(form, parseDate, m)
  {
    forall m: ErrorMessage ensures m in errs <==> Fails(form, parseDate, m) {
      MessageOfRank(m);
    }
  }

  /** In a list in strictly increasing rule order, the date-order message can only come last. */
  lemma LastByRank(errs: seq<ErrorMessage>)
    requires forall i, j :: 0 <= i < j < |errs| ==> errs[i].Rank() < errs[j].Rank()
    ensures CheckoutAfterCheckin in errs ==> errs[|errs| - 1] == CheckoutAfterCheckin
  {
  }

  /** Messages in strictly increasing rule order are pairwise different. */
  lemma DistinctByRank(errs: seq<ErrorMessage>)
    requires forall i, j :: 0 <= i < j < |errs| ==> errs[i].Rank() < errs[j].Rank()
    ensures forall i, j :: 0 <= i < j < |errs| ==> errs[i] != errs[j]
  {
  }

  /**
    The messages of the failing rules among the first `n`, in rule order:
    the list the handler has built once it has checked `n` rules.
   */
  function ErrorsUpTo(form: BookingForm, parseDate: DateParser, n: nat): seq<ErrorMessage>
    requires n <= RuleCount
  {
    if n == 0 then []
    else
      var done := ErrorsUpTo(form, parseDate, n - 1);
      if Fails(form, parseDate, Message(n - 1)) then done + [Message(n - 1)] else done
  }

  /**
    After checking the first `n` rules the list holds at most one message per
    rule checked, in rule order, and a rule's message exactly when it failed.
   */
  lemma {:induction false} ErrorsUpToInOrder(form: BookingForm, parseDate: DateParser, n: nat)
    requires n <= RuleCount
    ensures var errs := ErrorsUpTo(form, parseDate, n);
      && |errs| <= n
      && (forall i :: 0 <= i < |errs| ==> errs[i].Rank() < n)
      && (forall i, j :: 0 <= i < j < |errs| ==> errs[i].Rank() < errs[j].Rank())
      && (forall j :: 0 <= j < n ==> (Message(j) in errs <==> Fails(form, parseDate, Message(j))))
  {
    if n > 0 {
      ErrorsUpToInOrder(form, parseDate, n - 1);
    }
  }

  /**
    The error list of a submission. Each rule contributes its message exactly
    when it fails; the messages follow the rule order, none occurs twice, and
    the date-order message, when present, comes last.
   */
  function ValidationErrors(form: BookingForm, parseDate: DateParser): (errs: seq<ErrorMessage>)
    ensures |errs| <= RuleCount
    ensures forall m :: m in errs <==> Fails(form, parseDate, m)
    ensures forall i, j :: 0 <= i < j < |errs| ==> errs[i].Rank() < errs[j].Rank()
    ensures forall i, j :: 0 <= i < j < |errs| ==> errs[i] != errs[j]
    ensures CheckoutAfterCheckin in errs ==> errs[|errs| - 1] == CheckoutAfterCheckin
  {
    var errs := ErrorsUpTo(form, parseDate, RuleCount);
    ErrorsUpToInOrder(form, parseDate, RuleCount);
    MembersByRule(form, parseDate, errs);
    DistinctByRank(errs);
    LastByRank(errs);
    errs
  }

  /**
    A form with no validation errors has every required field, at least one
    guest, and check-out after check-in whenever both dates parse.
   */
  lemma AcceptedFormIsComplete(form: BookingForm, parseDate: DateParser)
    requires ValidationErrors(form, parseDate) == []
    ensures Truthy(form.roomId) && Truthy(form.name) && Truthy(form.email)
    ensures Truthy(form.checkin) && Truthy(form.checkout)
    ensures GuestsNum(form.guests) >= 1
    ensures var inTime, outTime := parseDate(form.checkin.value), parseDate(form.checkout.value);
      inTime.Some? && outTime.Some? ==> inTime.value < outTime.value
  {
    var errs := ValidationErrors(form, parseDate);
    assert !Fails(form, parseDate, RoomRequired) && !Fails(form, parseDate, NameRequired);
    assert !Fails(form, parseDate, EmailRequired) && !Fails(form, parseDate, CheckinRequired);
    assert !Fails(form, parseDate, CheckoutRequired) && !Fails(form, parseDate, GuestsAtLeastOne);
    assert !Fails(form, parseDate, CheckoutAfterCheckin);
  }

  /** The guests message is reported exactly when the coerced guest count is not positive. */
  lemma GuestsRule(form: BookingForm, parseDate: DateParser)
    ensures GuestsAtLeastOne in ValidationErrors(form, parseDate) <==> GuestsNum(form.guests) <= 0
  {
  }

  /**
    With the dates parsed to midnight time values: check-out the day before
    check-in, or on the same day, is rejected for date order; the day after
    is not.
   */
  lemma DateOrderSamples(form: BookingForm, parseDate: DateParser)
    requires parseDate("2024-05-09") == Some(1715212800000)
    requires parseDate("2024-05-10") == Some(1715299200000)
    requires parseDate("2024-05-11") == Some(1715385600000)
    ensures CheckoutAfterCheckin in
      ValidationErrors(form.(checkin := Some("2024-05-10"), checkout := Some("2024-05-09")), parseDate)
    ensures CheckoutAfterCheckin in
      ValidationErrors(form.(checkin := Some("2024-05-10"), checkout := Some("2024-05-10")), parseDate)
    ensures CheckoutAfterCheckin !in
      ValidationErrors(form.(checkin := Some("2024-05-10"), checkout := Some("2024-05-11")), parseDate)
  {
  }

  /** A complete submission for two guests and two nights passes every rule. */
  lemma ValidSubmissionSample(parseDate: DateParser)
    requires parseDate("2024-06-01") == Some(1717200000000)
    requires parseDate("2024-06-03") == Some(1717372800000)
    ensures ValidationErrors(BookingForm(Some("1"), Some("A"), Some("a@b.com"), None,
      Some("2024-06-01"), Some("2024-06-03"), Some("2")), parseDate) == []
  {
    GuestsNumAcceptedSamples();
  }

  /**
    The checks of the handler: messages are pushed onto `errors` one rule at a
    time, and the guest count is coerced with `parseInt(guests, 10) || 0`.
   */
  method CheckForm(form: BookingForm, parseDate: DateParser) returns (errors: seq<ErrorMessage>, guestsNum: int)
    ensures errors == ValidationErrors(form, parseDate)
    ensures guestsNum == GuestsNum(form.guests)
  {
    errors := [];

    if !Truthy(form.roomId) { errors := errors + [RoomRequired]; }
    assert errors == ErrorsUpTo(form, parseDate, 1);
    if !Truthy(form.name) { errors := errors + [NameRequired]; }
    assert errors == ErrorsUpTo(form, parseDate, 2);
    if !Truthy(form.email) { errors := errors + [EmailRequired]; }
    assert errors == ErrorsUpTo(form, parseDate, 3);
    if !Truthy(form.checkin) { errors := errors + [CheckinRequired]; }
    assert errors == ErrorsUpTo(form, parseDate, 4);
    if !Truthy(form.checkout) { errors := errors + [CheckoutRequired]; }
    assert errors == ErrorsUpTo(form, parseDate, 5);

    guestsNum := GuestsNum(form.guests);
    if guestsNum <= 0 { errors := errors + [GuestsAtLeastOne]; }
    assert errors == ErrorsUpTo(form, parseDate, 6);

    var checkinDate: Option<int> := None;
    var checkoutDate: Option<int> := None;
    if Truthy(form.checkin) && Truthy(form.checkout) {
      checkinDate := parseDate(form.checkin.value);
      checkoutDate := parseDate(form.checkout.value);
      if DateLessOrEqual(checkoutDate, checkinDate) {
        errors := errors + [CheckoutAfterCheckin];
      }
    }
    assert errors == ErrorsUpTo(form, parseDate, 7);
  }

  /**
    The handler body. Only on failure is the room looked up: `roomHotel`
    gives the `hotel_id` of the room with the given id, or `None` when there
    is no such row. An absent room id matches no row.
   */
  method SubmitBooking(form: BookingForm, parseDate: DateParser, roomHotel: string -> Option<int>)
    returns (outcome: Outcome)
    ensures outcome.Created? <==> ValidationErrors(form, parseDate) == []
    ensures outcome.Created? ==>
      && Some(outcome.intent.roomId) == form.roomId && outcome.intent.roomId != ""
      && Some(outcome.intent.name) == form.name && outcome.intent.name != ""
      && Some(outcome.intent.email) == form.email && outcome.intent.email != ""
      && outcome.intent.phone == form.phone
      && Some(outcome.intent.checkin) == form.checkin && outcome.intent.checkin != ""
      && Some(outcome.intent.checkout) == form.checkout && outcome.intent.checkout != ""
      && outcome.intent.guests == GuestsNum(form.guests) >= 1
    ensures outcome.Created? ==>
      var inTime := parseDate(outcome.intent.checkin);
      var outTime := parseDate(outcome.intent.checkout);
      inTime.Some? && outTime.Some? ==> inTime.value < outTime.value
    ensures outcome.Redisplay? ==>
      && outcome.errors == ValidationErrors(form, parseDate) != []
      && form.roomId.Some? && roomHotel(form.roomId.value) == Some(outcome.hotelId)
      && outcome.hotelId != 0
      && outcome.form.roomId == form.roomId && outcome.form.name == form.name
      && outcome.form.email == form.email && outcome.form.phone == form.phone
      && outcome.form.checkin == form.checkin && outcome.form.checkout == form.checkout
      && outcome.form.guests == EchoedGuests(GuestsNum(form.guests))
    ensures outcome.RoomMissing? <==>
      && ValidationErrors(form, parseDate) != []
      && (form.roomId.None? || roomHotel(form.roomId.value) in {None, Some(0)})
    ensures outcome.RoomMissing? ==> outcome.message == RoomNoLongerExists
    ensures outcome.Redisplay? && RoomRequired in outcome.errors ==>
      form.roomId == Some("") && roomHotel("") !in {None, Some(0)}
  {
    var errors, guestsNum := CheckForm(form, parseDate);

    if |errors| > 0 {
      var hotelId := if form.roomId.Some? then roomHotel(form.roomId.value) else None;
      if hotelId.None? || hotelId.value == 0 {
        return RoomMissing(RoomNoLongerExists);
      }
      return Redisplay(errors, EchoedForm(form.roomId, form.name, form.email, form.phone,
        form.checkin, form.checkout, EchoedGuests(guestsNum)), hotelId.value);
    }

    AcceptedFormIsComplete(form, parseDate);
    outcome := Created(BookingIntent(form.roomId.value, form.name.value, form.email.value,
      form.phone, form.checkin.value, form.checkout.value, guestsNum));
  }
}
