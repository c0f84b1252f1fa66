/**
 * Resolving an attendee's age: a direct "Alter" answer wins, otherwise the
 * age is computed from a "Geburtsdatum" answer at the event's start date.
 */
module Age {
  import opened Wrappers
  import opened Answers
  import opened Cells

  /** A calendar date as (year, month, day). */
  datatype Date = Date(year: int, month: int, day: int)

  /** `d` comes strictly before `e`, comparing (year, month, day) lexicographically. */
  predicate Before(d: Date, e: Date) {
    d.year < e.year ||
    (d.year == e.year && (d.month < e.month || (d.month == e.month && d.day < e.day)))
  }

  /** The date that is `years` anniversaries after `d`. */
  function Anniversary(d: Date, years: int): Date {
    Date(d.year + years, d.month, d.day)
  }

  /**
   * Age in whole years on `start` of someone born on `birth`: the year
   * difference, minus one when (month, day) of `start` comes before that of
   * `birth`. It is exactly the number of anniversaries reached by `start`.
   */
  function AgeAt(birth: Date, start: Date): (age: int)
    ensures !Before(start, Anniversary(birth, age))
    ensures Before(start, Anniversary(birth, age + 1))
  {
    start.year - birth.year -
      (if start.month < birth.month || (start.month == birth.month && start.day < birth.day) then 1 else 0)
  }

  /** The birthday correction at work: one day before and one day after the anniversary. */
  lemma AgeAtExamples()
    ensures AgeAt(Date(2010, 7, 16), Date(2024, 7, 15)) == 13
    ensures AgeAt(Date(2010, 7, 14), Date(2024, 7, 15)) == 14
    ensures AgeAt(Date(2010, 7, 15), Date(2024, 7, 15)) == 14
  {
  }

  /**
   * The text parsers the export relies on: Python's `int(...)` and
   * `datetime.strptime(..., "%Y-%m-%d")`, each either succeeding or failing.
   */
  datatype Parsers = Parsers(toInt: string -> Option<int>, toDate: string -> Option<Date>)

  /** The one fact about `int` the export relies on: the default "-1" reads as -1. */
  predicate SaneParsers(p: Parsers) {
    p.toInt("-1") == Some(-1)
  }

  /** The "Alter" answer states the number `n` (an absent answer reads as the default "-1"). */
  ghost predicate StatesAge(answers: seq<Answer>, p: Parsers, n: int) {
    (Unanswered(answers, "Alter") && p.toInt("-1") == Some(n)) ||
    (exists k :: IsFirst(answers, "Alter", k) && p.toInt(answers[k].value) == Some(n))
  }

  /**
   * The age used for the bracket columns. A stated age n >= 0 is taken as it
   * is; otherwise the first "Geburtsdatum" answer, if any, gives the age at
   * `start`; otherwise the stated (negative) number stays. Text that does not
   * parse aborts the export.
   */
  function ResolveAge(answers: seq<Answer>, start: Date, p: Parsers): (r: Result<int, ExportError>)
    ensures forall k :: IsFirst(answers, "Alter", k) && p.toInt(answers[k].value).None? ==>
              r == Err(MalformedAge(answers[k].value))
    ensures forall n :: StatesAge(answers, p, n) && n >= 0 ==> r == Ok(n)
    ensures forall n :: StatesAge(answers, p, n) && n < 0 && Unanswered(answers, "Geburtsdatum") ==> r == Ok(n)
    ensures forall n, l :: StatesAge(answers, p, n) && n < 0 && IsFirst(answers, "Geburtsdatum", l) ==>
              r == match p.toDate(answers[l].value)
                   case None => Err(MalformedBirthdate(answers[l].value))
                   case Some(birth) => Ok(AgeAt(birth, start))
    ensures SaneParsers(p) && Unanswered(answers, "Alter") && Unanswered(answers, "Geburtsdatum") ==> r == Ok(-1)
  {
    var stated := Lookup(answers, "Alter", "-1");
    match p.toInt(stated)
    case None => Err(MalformedAge(stated))
    case Some(age) =>
      if age >= 0 then Ok(age)
      else
        match FindAnswer(answers, "Geburtsdatum")
        case None => Ok(age)
        case Some(text) =>
          match p.toDate(text)
          case None => Err(MalformedBirthdate(text))
          case Some(birth) => Ok(AgeAt(birth, start))
  }
}
