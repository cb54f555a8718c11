/** components/DateRangePicker.tsx: two popover calendars whose disabled-day predicates keep
    the start on or before the end, and whose select handlers replace one endpoint each. */
module DatePicker {
  import opened Common
  import opened StockTypes

  /** The start calendar's `disabled`: after today, or after the end. A comparison with an
      unset end is false in JavaScript, so an unset end disables nothing. */
  predicate StartDisabled(date: int, today: int, range: DateRange) {
    date > today || (range.end.Some? && date > range.end.value)
  }

  /** The end calendar's `disabled`: after today, or before the start. */
  predicate EndDisabled(date: int, today: int, range: DateRange) {
    date > today || (range.start.Some? && date < range.start.value)
  }

  datatype Pick = PickStart(date: int) | PickEnd(date: int)

  /** `{ ...dateRange, start: date }` or `{ ...dateRange, end: date }`. */
  function Apply(range: DateRange, pick: Pick): (r: DateRange)
    ensures pick.PickStart? ==> r.start == Some(pick.date) && r.end == range.end
    ensures pick.PickEnd? ==> r.end == Some(pick.date) && r.start == range.start
  {
    match pick
    case PickStart(d) => range.(start := Some(d))
    case PickEnd(d) => range.(end := Some(d))
  }

  predicate Enabled(pick: Pick, today: int, range: DateRange) {
    match pick
    case PickStart(d) => !StartDisabled(d, today, range)
    case PickEnd(d) => !EndDisabled(d, today, range)
  }

  /** Both endpoints are set and the start is not after the end (they may be equal). */
  predicate Ordered(range: DateRange) {
    range.start.Some? && range.end.Some? && range.start.value <= range.end.value
  }

  /** On an ordered range, a day up to today is enabled exactly when picking it keeps the
      range ordered. */
  lemma EnabledIffKeepsOrder(range: DateRange, pick: Pick, today: int)
    requires Ordered(range)
    requires pick.date <= today
    ensures Enabled(pick, today, range) <==> Ordered(Apply(range, pick))
  {
  }

  /** Applying a sequence of picks, each checked against the range as it then stands and
      the day it is made on; disabled picks cannot be made and change nothing. */
  function ApplyEnabled(range: DateRange, picks: seq<(Pick, int)>): DateRange
    decreases |picks|
  {
    if picks == [] then range
    else
      var (pick, today) := picks[0];
      ApplyEnabled(if Enabled(pick, today, range) then Apply(range, pick) else range, picks[1..])
  }

  /** From an ordered range, any sequence of picks keeps it ordered. */
  lemma {:induction false} PicksKeepOrder(range: DateRange, picks: seq<(Pick, int)>)
    requires Ordered(range)
    ensures Ordered(ApplyEnabled(range, picks))
    decreases |picks|
  {
    if picks != [] {
      var (pick, today) := picks[0];
      var next := if Enabled(pick, today, range) then Apply(range, pick) else range;
      assert Ordered(next);
      PicksKeepOrder(next, picks[1..]);
    }
  }

  class DateRangePicker {
    var isStartOpen: bool
    var isEndOpen: bool

    constructor ()
      ensures !isStartOpen && !isEndOpen
    {
      isStartOpen, isEndOpen := false, false;
    }

    /** `onOpenChange` of the start popover. */
    method SetStartOpen(open: bool)
      modifies this
      ensures isStartOpen == open && isEndOpen == old(isEndOpen)
    {
      isStartOpen := open;
    }

    /** `onOpenChange` of the end popover. */
    method SetEndOpen(open: bool)
      modifies this
      ensures isEndOpen == open && isStartOpen == old(isStartOpen)
    {
      isEndOpen := open;
    }

    /** handleStartDateSelect: a selected day replaces the start alone and closes the start
        popover; `emitted` is what onDateRangeChange receives, None when it is not called. */
    method HandleStartDateSelect(date: Option<int>, range: DateRange) returns (emitted: Option<DateRange>)
      modifies this
      ensures date.None? ==> emitted == None && isStartOpen == old(isStartOpen)
      ensures date.Some? ==> emitted == Some(Apply(range, PickStart(date.value))) && !isStartOpen
      ensures isEndOpen == old(isEndOpen)
    {
      emitted := None;
      if date.Some? {
        emitted := Some(range.(start := date));
        isStartOpen := false;
      }
    }

    /** handleEndDateSelect: a selected day replaces the end alone and closes the end popover. */
    method HandleEndDateSelect(date: Option<int>, range: DateRange) returns (emitted: Option<DateRange>)
      modifies this
      ensures date.None? ==> emitted == None && isEndOpen == old(isEndOpen)
      ensures date.Some? ==> emitted == Some(Apply(range, PickEnd(date.value))) && !isEndOpen
      ensures isStartOpen == old(isStartOpen)
    {
      emitted := None;
      if date.Some? {
        emitted := Some(range.(end := date));
        isEndOpen := false;
      }
    }
  }
}
