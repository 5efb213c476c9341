/** The business-day counter (`calcular_dias_uteis`). Dates are day
    numbers; the holiday calendar is the caller-supplied predicate
    `isWorkingDay`, standing for the Brazilian calendar of the source. */
module BusinessDays {

  type Day = int

  /** Number of days `d` in the inclusive range `[start, end]` for which
      `isWorkingDay(d)` holds; a reversed range is empty. */
  function CountBusinessDays(isWorkingDay: Day -> bool, start: Day, end: Day): (n: nat)
    ensures start > end ==> n == 0
    ensures start <= end ==> n <= end - start + 1
    decreases end - start
  {
    if start > end then 0
    else (if isWorkingDay(start) then 1 else 0) + CountBusinessDays(isWorkingDay, start + 1, end)
  }

  /** Reference definition: the set of working days in the range. */
  ghost function WorkingDaysIn(isWorkingDay: Day -> bool, start: Day, end: Day): set<Day>
  {
    set d | start <= d <= end && isWorkingDay(d)
  }

  /** The count is exactly the number of working days in the range. */
  lemma {:induction false} CountIsWorkingDaySetSize(isWorkingDay: Day -> bool, start: Day, end: Day)
    ensures CountBusinessDays(isWorkingDay, start, end) == |WorkingDaysIn(isWorkingDay, start, end)|
    decreases end - start
  {
    if start > end {
      assert WorkingDaysIn(isWorkingDay, start, end) == {};
    } else {
      CountIsWorkingDaySetSize(isWorkingDay, start + 1, end);
      var rest := WorkingDaysIn(isWorkingDay, start + 1, end);
      assert start !in rest;
      if isWorkingDay(start) {
        assert WorkingDaysIn(isWorkingDay, start, end) == rest + {start};
      } else {
        assert WorkingDaysIn(isWorkingDay, start, end) == rest;
      }
    }
  }

  /** A one-day range counts 1 exactly when that day is a working day. */
  lemma SingleDay(isWorkingDay: Day -> bool, d: Day)
    ensures CountBusinessDays(isWorkingDay, d, d) == 1 <==> isWorkingDay(d)
    ensures CountBusinessDays(isWorkingDay, d, d) == 0 <==> !isWorkingDay(d)
  {
    assert CountBusinessDays(isWorkingDay, d + 1, d) == 0;
  }

  /** Splitting the range after any day `mid` splits the count. */
  lemma {:induction false} CountSplit(isWorkingDay: Day -> bool, start: Day, mid: Day, end: Day)
    requires start - 1 <= mid <= end
    ensures CountBusinessDays(isWorkingDay, start, mid) + CountBusinessDays(isWorkingDay, mid + 1, end)
         == CountBusinessDays(isWorkingDay, start, end)
    decreases mid - start
  {
    if start <= mid {
      CountSplit(isWorkingDay, start + 1, mid, end);
    }
  }

  /** The range is full of working days exactly when every day in it is one. */
  lemma {:induction false} CountIsFullExactlyWhenAllWork(isWorkingDay: Day -> bool, start: Day, end: Day)
    requires start <= end
    ensures CountBusinessDays(isWorkingDay, start, end) == end - start + 1
        <==> forall d :: start <= d <= end ==> isWorkingDay(d)
    decreases end - start
  {
    if start < end {
      CountIsFullExactlyWhenAllWork(isWorkingDay, start + 1, end);
    }
  }

  /** `calcular_dias_uteis` as the source computes it: enumerate every day
      of the range and keep those the calendar reports as working days. */
  method CountByEnumeration(isWorkingDay: Day -> bool, start: Day, end: Day) returns (n: nat)
    ensures n == |WorkingDaysIn(isWorkingDay, start, end)|
    ensures n == CountBusinessDays(isWorkingDay, start, end)
  {
    n := 0;
    var d := start;
    while d <= end
      invariant start <= end ==> start <= d <= end + 1
      invariant n + CountBusinessDays(isWorkingDay, d, end) == CountBusinessDays(isWorkingDay, start, end)
      decreases end - d
    {
      if isWorkingDay(d) {
        n := n + 1;
      }
      d := d + 1;
    }
    CountIsWorkingDaySetSize(isWorkingDay, start, end);
  }
}
