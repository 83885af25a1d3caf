/** `generate_date_range(start_date, end_date)`: every date from the start through the end,
    inclusive, one day at a time. */
module DateRange {
  import opened Wrappers
  import opened Calendar

  /** The dates the generator yields, in order. */
  function DatesBetween(start: Date, end: Date): seq<Date>
    decreases MaxYear - start.year, 12 - start.month, 31 - start.day
  {
    if !DateLe(start, end) then []
    else
      match NextDay(start)
      case None => [start]
      case Some(next) => [start] + DatesBetween(next, end)
  }

  /** Whether the generator raises OverflowError after its last date: it steps past the end
      date, which Python cannot do from 9999-12-31. */
  predicate RangeOverflows(start: Date, end: Date) {
    DateLe(start, end) && end == MaxDate
  }

  /** The range holds exactly the dates start, start + 1, ..., end, in increasing order: as many
      as the two ordinals span, none when the start is after the end. */
  lemma {:induction false} DatesBetweenOrdinals(start: Date, end: Date)
    ensures |DatesBetween(start, end)| == if Ordinal(start) <= Ordinal(end) then Ordinal(end) - Ordinal(start) + 1 else 0
    ensures forall i :: 0 <= i < |DatesBetween(start, end)| ==> Ordinal(DatesBetween(start, end)[i]) == Ordinal(start) + i
    decreases MaxYear - start.year, 12 - start.month, 31 - start.day
  {
    OrdinalOrder(start, end);
    if DateLe(start, end) {
      match NextDay(start)
      case None =>
        OrdinalOrder(start, MaxDate);
        OrdinalOrder(end, MaxDate);
      case Some(next) =>
        NextDayOrdinal(start);
        DatesBetweenOrdinals(next, end);
        var r := DatesBetween(start, end);
        assert r == [start] + DatesBetween(next, end);
        forall i | 0 <= i < |r| ensures Ordinal(r[i]) == Ordinal(start) + i {
          if i > 0 {
            assert r[i] == DatesBetween(next, end)[i - 1];
          }
        }
    }
  }

  /** A date is in the range exactly when it lies between start and end, and the range is
      strictly increasing. */
  lemma DatesBetweenContents(start: Date, end: Date)
    ensures forall d: Date :: d in DatesBetween(start, end) <==> DateLe(start, d) && DateLe(d, end)
    ensures forall i, j :: 0 <= i < j < |DatesBetween(start, end)| ==>
              DateLe(DatesBetween(start, end)[i], DatesBetween(start, end)[j]) && DatesBetween(start, end)[i] != DatesBetween(start, end)[j]
  {
    var r := DatesBetween(start, end);
    DatesBetweenOrdinals(start, end);
    forall d: Date ensures d in r <==> DateLe(start, d) && DateLe(d, end) {
      OrdinalOrder(start, d);
      OrdinalOrder(d, end);
      if DateLe(start, d) && DateLe(d, end) {
        var i := Ordinal(d) - Ordinal(start);
        OrdinalOrder(r[i], d);
      }
      if d in r {
        var i :| 0 <= i < |r| && r[i] == d;
      }
    }
    forall i, j | 0 <= i < j < |r| ensures DateLe(r[i], r[j]) && r[i] != r[j] {
      OrdinalOrder(r[i], r[j]);
    }
  }

  /** A range that is not empty starts with its start date and ends with its end date. */
  lemma DatesBetweenEnds(start: Date, end: Date)
    requires DateLe(start, end)
    ensures |DatesBetween(start, end)| >= 1
    ensures DatesBetween(start, end)[0] == start
    ensures DatesBetween(start, end)[|DatesBetween(start, end)| - 1] == end
  {
    var r := DatesBetween(start, end);
    OrdinalOrder(start, end);
    DatesBetweenOrdinals(start, end);
    OrdinalOrder(r[|r| - 1], end);
  }

  /** The generator's `while start_date <= end_date` loop, collecting what it yields. */
  method GenerateDateRange(start: Date, end: Date) returns (dates: seq<Date>, overflow: bool)
    ensures dates == DatesBetween(start, end)
    ensures overflow == RangeOverflows(start, end)
  {
    dates := [];
    overflow := false;
    var current := start;
    while DateLe(current, end) && !overflow
      invariant !overflow ==> dates + DatesBetween(current, end) == DatesBetween(start, end)
      invariant overflow ==> dates == DatesBetween(start, end) && current == MaxDate && end == MaxDate && DateLe(start, end)
      decreases MaxYear - current.year, 12 - current.month, 31 - current.day, if overflow then 0 else 1
    {
      dates := dates + [current];
      match NextDay(current)
      case None =>
        overflow := true;
      case Some(next) =>
        assert DatesBetween(current, end) == [current] + DatesBetween(next, end);
        current := next;
    }
    assert DateLe(current, MaxDate);
  }
}
