/** The birth-date validator of the accounts app (core/validators.py). */
module CoreValidators {
  import opened Errors

  /** A calendar date as Python's `date` holds it. */
  datatype Date = Date(year: int, month: int, day: int)

  const MinimumAge := 13
  const UnderageMessage := "You must be at least 13 years old to register."

  /** Python's tuple comparison `(m1, d1) < (m2, d2)`. */
  predicate MonthDayBefore(m1: int, d1: int, m2: int, d2: int) {
    m1 < m2 || (m1 == m2 && d1 < d2)
  }

  /** Lexicographic order on (year, month, day): `a` is on or before `b`. */
  predicate OnOrBefore(a: Date, b: Date) {
    a.year < b.year || (a.year == b.year && !MonthDayBefore(b.month, b.day, a.month, a.day))
  }

  /** The `n`-th anniversary of `birth`: same month and day, `n` years later. */
  function Anniversary(birth: Date, n: int): Date {
    Date(birth.year + n, birth.month, birth.day)
  }

  /** The age computed by `validate_age`: the year difference, minus one
      (Python's `True`) while this year's birthday is still to come.
      It is the number of whole years lived: the largest `n` whose
      `n`-th anniversary is on or before `today`. */
  function Age(birth: Date, today: Date): (age: int)
    ensures OnOrBefore(Anniversary(birth, age), today)
    ensures !OnOrBefore(Anniversary(birth, age + 1), today)
  {
    today.year - birth.year
      - (if MonthDayBefore(today.month, today.day, birth.month, birth.day) then 1 else 0)
  }

  /** Anniversaries move forward with `n`. */
  lemma AnniversaryMonotonic(birth: Date, m: int, n: int, today: Date)
    requires m <= n
    requires OnOrBefore(Anniversary(birth, n), today)
    ensures OnOrBefore(Anniversary(birth, m), today)
  {
  }

  /** The characterisation in `Age`'s contract determines the age uniquely. */
  lemma AgeIsWholeYears(birth: Date, today: Date, n: int)
    requires OnOrBefore(Anniversary(birth, n), today)
    requires !OnOrBefore(Anniversary(birth, n + 1), today)
    ensures n == Age(birth, today)
  {
  }

  /** `validate_age`: raises unless the user is at least 13 years old. */
  function ValidateAge(birth: Date, today: Date): (o: Outcome)
    ensures o.Fail? <==> Age(birth, today) < MinimumAge
    ensures o.Fail? ==> o.error == Invalid(UnderageMessage)
  {
    var age := Age(birth, today);
    if age < MinimumAge then Fail(Invalid(UnderageMessage)) else Pass
  }

  /** Validation passes exactly when the 13th birthday is on or before today. */
  lemma ValidateAgeIffThirteenthBirthday(birth: Date, today: Date)
    ensures ValidateAge(birth, today).Pass? <==> OnOrBefore(Anniversary(birth, MinimumAge), today)
  {
  }

  /** Born exactly 13 years ago today: accepted. */
  lemma ThirteenthBirthdayAccepted(today: Date)
    ensures ValidateAge(Date(today.year - 13, today.month, today.day), today) == Pass
  {
  }

  /** Born 13 years ago but with the birthday later in the year (the day
      after, for example): rejected. */
  lemma DayBeforeThirteenthBirthdayRejected(today: Date, month: int, day: int)
    requires MonthDayBefore(today.month, today.day, month, day)
    ensures ValidateAge(Date(today.year - 13, month, day), today).Fail?
  {
  }

  /** For a fixed today, an earlier birth date never gives a smaller age. */
  lemma AgeAntitone(b1: Date, b2: Date, today: Date)
    requires OnOrBefore(b1, b2)
    ensures Age(b1, today) >= Age(b2, today)
  {
  }
}
