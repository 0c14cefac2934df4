/**
  The stay summary on the booking confirmation page (`GET /booking/:id`):
  the number of nights between the stored check-in and check-out dates,
  rounded to whole days and at least 1, and the estimated total, that many
  nights at the room's nightly price.
 */
module StayPricing {
  import opened JsValues

  /** `1000 * 60 * 60 * 24`, the milliseconds in a day. */
  const MsPerDay := 86400000

  /**
    `Math.round(diffMs / MsPerDay)`: the whole number of days nearest to a
    difference of time values, halves rounded up.
   */
  function RoundedDays(diffMs: int): (days: int)
    ensures days * MsPerDay - MsPerDay / 2 <= diffMs < days * MsPerDay + MsPerDay / 2
  {
    (diffMs + MsPerDay / 2) / MsPerDay
  }

  /** Only one whole number of days is nearest to a difference, so RoundedDays is it. */
  lemma RoundedDaysUnique(diffMs: int, days: int)
    requires days * MsPerDay - MsPerDay / 2 <= diffMs < days * MsPerDay + MsPerDay / 2
    ensures RoundedDays(diffMs) == days
  {
  }

  /**
    The nights shown for a stay whose dates have the given time values
    (`None` for an Invalid Date): the rounded day difference when it is
    positive, 1 otherwise.
   */
  function Nights(checkinTime: Option<int>, checkoutTime: Option<int>): (n: int)
    ensures n >= 1
  {
    if checkinTime.Some? && checkoutTime.Some? && RoundedDays(checkoutTime.value - checkinTime.value) > 0
    then RoundedDays(checkoutTime.value - checkinTime.value)
    else 1
  }

  /**
    The nights of a stored booking: its dates are only parsed when both are
    non-empty strings; otherwise the stay counts as one night.
   */
  function StayNights(checkinDate: string, checkoutDate: string, parseDate: DateParser): (n: int)
    ensures n >= 1
    ensures checkinDate == "" || checkoutDate == "" ==> n == 1
  {
    if checkinDate != "" && checkoutDate != ""
    then Nights(parseDate(checkinDate), parseDate(checkoutDate))
    else 1
  }

  /**
    Dates at midnight (time values that are whole multiples of a day, as
    date-only strings parse to) count exactly their day difference, and a
    stay that does not end after it starts counts 1.
   */
  lemma NightsOfWholeDays(checkinDay: int, checkoutDay: int)
    ensures Nights(Some(checkinDay * MsPerDay), Some(checkoutDay * MsPerDay))
      == if checkoutDay > checkinDay then checkoutDay - checkinDay else 1
  {
  }

  /**
    A stay with an invalid date, or shorter than half a day (including one
    that does not end after it starts), counts one night.
   */
  lemma NightsDefault(checkinTime: Option<int>, checkoutTime: Option<int>)
    requires checkinTime.None? || checkoutTime.None? || checkoutTime.value - checkinTime.value < MsPerDay / 2
    ensures Nights(checkinTime, checkoutTime) == 1
  {
  }

  /**
    A stay of at least half a day counts the whole number of days nearest
    to its length.
   */
  lemma NightsNearest(checkinTime: int, checkoutTime: int)
    requires checkoutTime - checkinTime >= MsPerDay / 2
    ensures var n := Nights(Some(checkinTime), Some(checkoutTime));
      n * MsPerDay - MsPerDay / 2 <= checkoutTime - checkinTime < n * MsPerDay + MsPerDay / 2
  {
  }

  /**
    The confirmation page computation: `nights` starts at 1 and is replaced
    by the rounded day difference only when that difference is positive; the
    total is nights times the nightly price.
   */
  method ComputeStay(checkinDate: string, checkoutDate: string, pricePerNight: real, parseDate: DateParser)
    returns (nights: int, totalEstimate: real)
    ensures nights >= 1
    ensures nights == StayNights(checkinDate, checkoutDate, parseDate)
    ensures totalEstimate == nights as real * pricePerNight
    ensures pricePerNight >= 0.0 ==> totalEstimate >= pricePerNight
  {
    nights := 1;
    if checkinDate != "" && checkoutDate != "" {
      var inDate := parseDate(checkinDate);
      var outDate := parseDate(checkoutDate);
      if inDate.Some? && outDate.Some? {
        var diffDays := RoundedDays(outDate.value - inDate.value);
        if diffDays > 0 {
          nights := diffDays;
        }
      }
    }
    totalEstimate := nights as real * pricePerNight;
  }

  /**
    A stay with a missing or unparseable date, or whose check-out is less
    than half a day after its check-in (or not after it at all), counts one
    night and costs one night's price.
   */
  lemma StayDefault(checkinDate: string, checkoutDate: string, pricePerNight: real, parseDate: DateParser)
    requires || checkinDate == "" || checkoutDate == ""
             || parseDate(checkinDate).None? || parseDate(checkoutDate).None?
             || parseDate(checkoutDate).value - parseDate(checkinDate).value < MsPerDay / 2
    ensures StayNights(checkinDate, checkoutDate, parseDate) == 1
    ensures StayNights(checkinDate, checkoutDate, parseDate) as real * pricePerNight == pricePerNight
  {
  }

  /**
    A booking from 2024-06-01 to 2024-06-03 (midnight UTC time values) at
    1000 a night: 2 nights, 2000 in total.
   */
  lemma StaySample(parseDate: DateParser)
    requires parseDate("2024-06-01") == Some(1717200000000)
    requires parseDate("2024-06-03") == Some(1717372800000)
    ensures StayNights("2024-06-01", "2024-06-03", parseDate) == 2
    ensures StayNights("2024-06-01", "2024-06-03", parseDate) as real * 1000.0 == 2000.0
  {
  }
}
