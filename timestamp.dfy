/** utils/timestamp.py: period symbols, expiry dates, Russian plural forms
    and the remaining-time classifier. The clock (`datetime.now(moscow)`) is
    the parameter `now`, in milliseconds since the Unix epoch; Moscow time is
    the fixed offset UTC+3. */
module Timestamp {
  import opened Wrappers
  import opened Calendar
  import Text
  import Const

  const MOSCOW_OFFSET_MS: nat := 3 * MS_PER_HOUR

  /** The part of a `relativedelta` the periods use. */
  datatype Duration = Duration(years: nat, months: nat, days: nat)

  predicate IsPeriod(period: string) {
    || period == Const.DAY_3_TIMESTAMP
    || period == Const.MONTH_1_TIMESTAMP
    || period == Const.MONTH_3_TIMESTAMP
    || period == Const.MONTH_6_TIMESTAMP
    || period == Const.YEAR_1_TIMESTAMP
  }

  /** `str_to_relativedelta`: None where the source raises ValueError. */
  function StrToRelativedelta(period: string): (r: Option<Duration>)
    ensures r.Some? <==> IsPeriod(period)
    ensures r.Some? ==> r.value.years + r.value.months + r.value.days > 0
  {
    if period == "day3" then Some(Duration(0, 0, 3))
    else if period == "month1" then Some(Duration(0, 1, 0))
    else if period == "month3" then Some(Duration(0, 3, 0))
    else if period == "month6" then Some(Duration(0, 6, 0))
    else if period == "year1" then Some(Duration(1, 0, 0))
    else None
  }

  /** The instant `t` plus a calendar duration, computed on the Moscow wall
      clock: years and months with end-of-month clamping, then whole days. */
  function AddDuration(t: nat, d: Duration): (r: nat)
    ensures d.years + d.months + d.days > 0 ==> r > t
    ensures d.years + d.months == 0 ==> r == t + d.days * MS_PER_DAY
  {
    var c := FromLocalMs(t + MOSCOW_OFFSET_MS);
    ShiftMonthsLater(c, d.years, d.months);
    ToLocalMs(ShiftMonths(c, d.years, d.months)) + d.days * MS_PER_DAY - MOSCOW_OFFSET_MS
  }

  /** `set_date(period)`: the expiry of a subscription bought now. */
  function SetDate(now: nat, period: string): (r: Option<nat>)
    ensures r.Some? <==> IsPeriod(period)
    ensures r.Some? ==> r.value > now
  {
    match StrToRelativedelta(period)
    case None => None
    case Some(d) => Some(AddDuration(now, d))
  }

  /** `update_date(previous, period)`: a renewal extends from the later of
      the previous expiry and now. */
  function UpdateDate(previous: int, period: string, now: nat): (r: Option<nat>)
    ensures r.Some? <==> IsPeriod(period)
    ensures r.Some? ==> r.value > now && r.value > previous
    ensures previous <= now ==> r == SetDate(now, period)
    ensures previous > now ==> r == SetDate(previous, period)
  {
    var base: nat := if previous <= now then now else previous;
    SetDate(base, period)
  }

  /** Every plan payload, and the trial's `day3`, is a period symbol:
      buying or trying a plan never hits the ValueError path. */
  lemma CatalogueUsesPeriods()
    ensures forall i :: 0 <= i < |Const.PLANS| ==> StrToRelativedelta(Const.PLANS[i].payload).Some?
    ensures StrToRelativedelta(Const.DAY_3_TIMESTAMP) == Some(Duration(0, 0, 3))
    ensures StrToRelativedelta(Const.YEAR1.payload) == Some(Duration(1, 0, 0))
  {
  }

  /** The trial period is exactly three days of 86400000 ms. */
  lemma TrialLastsThreeDays(now: nat)
    ensures SetDate(now, Const.DAY_3_TIMESTAMP) == Some(now + 3 * MS_PER_DAY)
  {
  }

  function Abs(n: int): nat {
    if n < 0 then -n else n
  }

  /** Index into `forms` chosen by `get_word_form`: 0 for the singular
      ("1 день", "21 день"), 1 for 2..4 ("3 дня"), 2 for the rest and for
      11..19 ("11 дней", "5 дней"). */
  function WordFormIndex(number: int): (i: nat)
    ensures i <= 2
    ensures i == 0 <==> Abs(number) % 10 == 1 && Abs(number) % 100 != 11
    ensures i == 1 <==> 2 <= Abs(number) % 10 <= 4 && !(12 <= Abs(number) % 100 <= 14)
  {
    LastDigitOfLastTwo(Abs(number));
    var n := Abs(number) % 100;
    var n1 := n % 10;
    if 10 < n < 20 then 2
    else if n1 == 1 then 0
    else if 2 <= n1 <= 4 then 1
    else 2
  }

  lemma LastDigitOfLastTwo(a: nat)
    ensures (a % 100) % 10 == a % 10
  {
    var q := a / 100;
    assert a == 10 * (10 * q) + a % 100;
  }

  /** `get_word_form(number, forms)`. */
  function GetWordForm(number: int, forms: (string, string, string)): string {
    match WordFormIndex(number)
    case 0 => forms.0
    case 1 => forms.1
    case _ => forms.2
  }

  /** The form depends on the last two digits only, and not on the sign. */
  lemma {:induction false} WordFormPeriodic(number: int)
    ensures WordFormIndex(number) == WordFormIndex(-number)
    ensures WordFormIndex(number) == WordFormIndex(Abs(number) % 100)
    ensures number >= 0 ==> WordFormIndex(number) == WordFormIndex(number + 100)
  {
    var n := Abs(number);
    assert Abs(-number) == n;
    assert Abs(n % 100) % 100 == n % 100;
    if number >= 0 {
      assert Abs(number + 100) % 100 == n % 100;
    }
  }

  const YEAR_FORMS := ("год", "года", "лет")
  const MONTH_FORMS := ("месяц", "месяца", "месяцев")
  const DAY_FORMS := ("день", "дня", "дней")
  const HOUR_FORMS := ("час", "часа", "часов")

  /** What `calculate_time_difference` returns: the integer sentinel
      `EXPIRED` or `LESS_THAN_HOUR`, or a phrase. */
  datatype TimeLeft = Sentinel(code: int) | Phrase(text: string)

  /** "<n> <word>", the word in the form matching `n`. */
  function Component(n: nat, forms: (string, string, string)): (s: string)
    ensures |s| > 0 && Text.IsDigitChar(s[0])
  {
    Text.Decimal(n) + " " + GetWordForm(n, forms)
  }

  function PositiveCount(years: int, months: int, days: int, hours: int): nat {
    (if years > 0 then 1 else 0) + (if months > 0 then 1 else 0)
    + (if days > 0 then 1 else 0) + (if hours > 0 then 1 else 0)
  }

  /** The phrases for the positive components, largest unit first. */
  function Components(years: int, months: int, days: int, hours: int): (parts: seq<string>)
    ensures |parts| == PositiveCount(years, months, days, hours)
    ensures years > 0 ==> parts[0] == Component(years, YEAR_FORMS)
    ensures months > 0 ==> parts[PositiveCount(years, 0, 0, 0)] == Component(months, MONTH_FORMS)
    ensures days > 0 ==> parts[PositiveCount(years, months, 0, 0)] == Component(days, DAY_FORMS)
    ensures hours > 0 ==> parts[|parts| - 1] == Component(hours, HOUR_FORMS)
    ensures forall i :: 0 <= i < |parts| ==> |parts[i]| > 0 && Text.IsDigitChar(parts[i][0])
  {
    (if years > 0 then [Component(years, YEAR_FORMS)] else [])
    + (if months > 0 then [Component(months, MONTH_FORMS)] else [])
    + (if days > 0 then [Component(days, DAY_FORMS)] else [])
    + (if hours > 0 then [Component(hours, HOUR_FORMS)] else [])
  }

  /** `calculate_time_difference(expiry)`, given the clock and the
      (years, months, days, hours) fields of `relativedelta(expiry, now)`. */
  function CalculateTimeDifference(expiry: int, now: int, years: int, months: int, days: int, hours: int)
    : (r: TimeLeft)
    ensures r == Sentinel(Const.EXPIRED) <==> expiry < now
    ensures r == Sentinel(Const.LESS_THAN_HOUR) <==>
      expiry >= now && PositiveCount(years, months, days, hours) == 0
    ensures r.Phrase? <==> expiry >= now && PositiveCount(years, months, days, hours) > 0
    ensures r.Phrase? ==> r.text == Text.Join(Components(years, months, days, hours), ", ")
  {
    if expiry < now then Sentinel(Const.EXPIRED)
    else
      var parts := Components(years, months, days, hours);
      if |parts| == 0 then Sentinel(Const.LESS_THAN_HOUR)
      else Phrase(Text.Join(parts, ", "))
  }

  /** A phrase of one component is just that component, e.g. "2 часа". */
  lemma SingleComponentPhrase(now: int)
    ensures CalculateTimeDifference(now, now, 0, 0, 0, 2) == Phrase("2 часа")
    ensures CalculateTimeDifference(now, now, 0, 0, 21, 0) == Phrase("21 день")
    ensures CalculateTimeDifference(now, now, 0, 0, 0, 0) == Sentinel(Const.LESS_THAN_HOUR)
  {
    assert Text.Decimal(2) == "2";
    assert Text.Decimal(21) == "21" by {
      assert Text.Decimal(2) == "2";
      assert Text.Decimal(1) == "1";
    }
  }

  /** `get_timestamp_with_reminder_time()`: (now + 23 h, now + 24 h). */
  function ReminderBounds(now: int): (b: (int, int))
    ensures b.0 < b.1 && b.1 - b.0 == MS_PER_HOUR
    ensures b.1 - now == MS_PER_DAY
  {
    (now + 23 * MS_PER_HOUR, now + 24 * MS_PER_HOUR)
  }
}
