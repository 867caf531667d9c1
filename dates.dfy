/** Calendar dates as `(year, month, day)` triples compared as Python
    compares `datetime.date` values. */
module Dates {
  import opened Ordering

  datatype Date = Date(year: int, month: int, day: int)

  /** `a < b` on dates. */
  predicate Before(a: Date, b: Date) {
    a.year < b.year || (a.year == b.year && MonthDayBefore(a, b))
  }

  /** `(a.month, a.day) < (b.month, b.day)`. */
  predicate MonthDayBefore(a: Date, b: Date) {
    a.month < b.month || (a.month == b.month && a.day < b.day)
  }

  function DaysInMonth(year: int, month: int): int {
    if month == 2 then (if (year % 4 == 0 && year % 100 != 0) || year % 400 == 0 then 29 else 28)
    else if month == 4 || month == 6 || month == 9 || month == 11 then 30
    else 31
  }

  /** The dates Python's `datetime.date` can represent. */
  predicate ValidDate(d: Date) {
    1 <= d.year <= 9999 && 1 <= d.month <= 12 && 1 <= d.day <= DaysInMonth(d.year, d.month)
  }

  /** `datetime.date.min`. */
  const MinDate: Date := Date(1, 1, 1)

  /** `date.min` is not after any representable date. */
  lemma MinDateEarliest(d: Date)
    requires ValidDate(d)
    ensures !Before(d, MinDate)
  {
  }

  /** A date as a sort key component triple. */
  function DateKey(d: Date): (k: Key)
    ensures |k| == 3
  {
    [IntPart(d.year), IntPart(d.month), IntPart(d.day)]
  }

  /** Sorting by `DateKey` is sorting by date, also when more components
      follow the date in the key. */
  lemma DateKeyOrder(a: Date, b: Date, ra: Key, rb: Key)
    ensures KeyLt(DateKey(a) + ra, DateKey(b) + rb) <==> Before(a, b) || (a == b && KeyLt(ra, rb))
  {
    var ka, kb := DateKey(a) + ra, DateKey(b) + rb;
    assert ka[1..] == [IntPart(a.month), IntPart(a.day)] + ra;
    assert kb[1..] == [IntPart(b.month), IntPart(b.day)] + rb;
    assert ka[1..][1..] == [IntPart(a.day)] + ra;
    assert kb[1..][1..] == [IntPart(b.day)] + rb;
    assert ka[1..][1..][1..] == ra;
    assert kb[1..][1..][1..] == rb;
    assert KeyLt(ka[1..][1..], kb[1..][1..]) <==> a.day < b.day || (a.day == b.day && KeyLt(ra, rb));
    assert KeyLt(ka[1..], kb[1..]) <==> a.month < b.month || (a.month == b.month && KeyLt(ka[1..][1..], kb[1..][1..]));
    assert KeyLt(ka, kb) <==> a.year < b.year || (a.year == b.year && KeyLt(ka[1..], kb[1..]));
  }

  lemma DateKeyOrderAlone(a: Date, b: Date)
    ensures KeyLt(DateKey(a), DateKey(b)) <==> Before(a, b)
  {
    DateKeyOrder(a, b, [], []);
    assert DateKey(a) + [] == DateKey(a) && DateKey(b) + [] == DateKey(b);
  }
}
