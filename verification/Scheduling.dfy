/** Timezone conversion and slot suggestion on weekly schedules.
  *
  * Zones have a constant whole-minute offset, so a conversion is a rotation of the week.
  */
module Scheduling {
  import opened Wrappers
  import opened Schedule
  import Sets

  // ------------------------------------------------------------------ rotation

  /** The minute of the week an absolute minute falls on. */
  function WeekMinute(t: int): (m: nat)
    ensures m < MINUTES_PER_WEEK
  {
    t % MINUTES_PER_WEEK
  }

  ghost function Rotate(minutes: set<nat>, shift: int): set<nat> {
    set m | m in minutes :: WeekMinute(m + shift)
  }

  ghost predicate InWeek(minutes: set<nat>) {
    forall m :: m in minutes ==> 0 <= m < MINUTES_PER_WEEK
  }

  lemma WeekMinuteIsUnique(weeks: int, rest: int)
    requires 0 <= rest < MINUTES_PER_WEEK
    ensures WeekMinute(weeks * MINUTES_PER_WEEK + rest) == rest
    ensures WeekMinute(rest) == rest
  {
  }

  lemma ShiftTwice(m: int, a: int, b: int)
    ensures WeekMinute(WeekMinute(m + a) + b) == WeekMinute(m + a + b)
  {
    var q, r := (m + a) / MINUTES_PER_WEEK, (m + a) % MINUTES_PER_WEEK;
    var q2, r2 := (r + b) / MINUTES_PER_WEEK, (r + b) % MINUTES_PER_WEEK;
    assert m + a + b == (q + q2) * MINUTES_PER_WEEK + r2;
    WeekMinuteIsUnique(q + q2, r2);
  }

  lemma RotateComposes(minutes: set<nat>, a: int, b: int)
    ensures Rotate(Rotate(minutes, a), b) == Rotate(minutes, a + b)
  {
    hide WeekMinute;
    forall m | m in minutes ensures WeekMinute(WeekMinute(m + a) + b) == WeekMinute(m + (a + b)) {
      ShiftTwice(m, a, b);
      assert m + a + b == m + (a + b);
    }
    forall x | x in Rotate(minutes, a + b) ensures x in Rotate(Rotate(minutes, a), b) {
      var m :| m in minutes && x == WeekMinute(m + (a + b));
      assert WeekMinute(m + a) in Rotate(minutes, a);
    }
  }

  lemma RotateByNothing(minutes: set<nat>)
    requires InWeek(minutes)
    ensures Rotate(minutes, 0) == minutes
  {
    forall m | m in minutes ensures WeekMinute(m + 0) == m {
      WeekMinuteIsUnique(0, m);
    }
  }

  lemma RotateIsInjective(x: int, y: int, shift: int)
    requires 0 <= x < MINUTES_PER_WEEK && 0 <= y < MINUTES_PER_WEEK
    requires WeekMinute(x + shift) == WeekMinute(y + shift)
    ensures x == y
  {
    ShiftTwice(x, shift, -shift);
    ShiftTwice(y, shift, -shift);
    WeekMinuteIsUnique(0, x);
    WeekMinuteIsUnique(0, y);
  }

  lemma RotateOfUnion(a: set<nat>, b: set<nat>, shift: int)
    ensures Rotate(a + b, shift) == Rotate(a, shift) + Rotate(b, shift)
  {
    hide WeekMinute;
  }

  lemma RotateElsewhere(m: nat, rest: set<nat>, shift: int)
    requires InWeek(rest + {m}) && m !in rest
    ensures Rotate({m}, shift) == {WeekMinute(m + shift)}
    ensures WeekMinute(m + shift) !in Rotate(rest, shift)
  {
    hide WeekMinute;
    assert m in rest + {m};
    forall x | x in rest ensures WeekMinute(x + shift) != WeekMinute(m + shift) {
      assert x in rest + {m};
      if WeekMinute(x + shift) == WeekMinute(m + shift) {
        RotateIsInjective(x, m, shift);
      }
    }
  }

  lemma {:induction false} RotateKeepsSize(minutes: set<nat>, shift: int)
    requires InWeek(minutes)
    ensures |Rotate(minutes, shift)| == |minutes|
  {
    if minutes != {} {
      hide WeekMinute, Rotate;
      var m := Sets.Pick(minutes);
      var rest := minutes - {m};
      RotateKeepsSize(rest, shift);
      assert Rotate({m}, shift) == {WeekMinute(m + shift)} && WeekMinute(m + shift) !in Rotate(rest, shift) by {
        RotateElsewhere(m, rest, shift);
      }
      assert minutes == rest + {m};
      RotateOfUnion(rest, {m}, shift);
    }
  }

  lemma RotateKeepsIntersection(a: set<nat>, b: set<nat>, shift: int)
    requires InWeek(a) && InWeek(b)
    ensures Rotate(a * b, shift) == Rotate(a, shift) * Rotate(b, shift)
  {
    hide WeekMinute;
    forall y | y in Rotate(a, shift) * Rotate(b, shift) ensures y in Rotate(a * b, shift) {
      var m :| m in a && y == WeekMinute(m + shift);
      var n :| n in b && y == WeekMinute(n + shift);
      RotateIsInjective(m, n, shift);
      assert m in a * b;
    }
  }

  // -------------------------------------------------------------- day splitting

  /** The minutes of the week met while absolute time runs from `lo` to `hi`. */
  ghost function Wrapped(lo: int, hi: int): set<nat> {
    set t: int | lo <= t < hi && Inside(lo, t, hi) :: WeekMinute(t)
  }

  /** One day's piece of a shifted window. `cursor` counts from Monday 00:00 of the reference week
    * and may lie before or after that week. */
  function DaySegment(cursor: int, segmentEnd: int): (w: TimeWindow)
    requires cursor < segmentEnd <= DayEnd(cursor)
    ensures w.StartMinute() == WeekMinute(cursor)
    ensures w.EndMinute() == WeekMinute(cursor) + (segmentEnd - cursor)
  {
    var day, offset := cursor / MINUTES_PER_DAY, cursor % MINUTES_PER_DAY;
    var endOffset := segmentEnd - day * MINUTES_PER_DAY;
    assert DayEnd(cursor) == day * MINUTES_PER_DAY + MINUTES_PER_DAY;
    assert WeekMinute(cursor) == day % 7 * MINUTES_PER_DAY + offset by {
      assert cursor == day / 7 * MINUTES_PER_WEEK + (day % 7 * MINUTES_PER_DAY + offset);
      WeekMinuteIsUnique(day / 7, day % 7 * MINUTES_PER_DAY + offset);
    }
    var end := if segmentEnd == DayEnd(cursor) then MIDNIGHT else ClockAt(endOffset);
    Window(day % 7, ClockAt(offset), end)
  }

  lemma DaySegmentMinutes(cursor: int, segmentEnd: int)
    requires cursor < segmentEnd <= DayEnd(cursor)
    ensures Minutes([DaySegment(cursor, segmentEnd)]) == Wrapped(cursor, segmentEnd)
  {
    var w := DaySegment(cursor, segmentEnd);
    var base := cursor - WeekMinute(cursor);
    var weeks := cursor / MINUTES_PER_WEEK;
    assert base == weeks * MINUTES_PER_WEEK;
    forall t | cursor <= t < segmentEnd ensures WeekMinute(t) == t - base && w.Covers(t - base) {
      assert w.Covers(t - base);
      WeekMinuteIsUnique(weeks, t - base);
    }
    forall m: nat ensures m in Minutes([w]) <==> m in Wrapped(cursor, segmentEnd) {
      SingletonCovers(w, m);
      if w.Covers(m) {
        assert Inside(cursor, m + base, segmentEnd);
        assert WeekMinute(m + base) == m;
      }
    }
  }

  function SplitDays(cursor: int, end: int): seq<TimeWindow>
    decreases end - cursor
  {
    if cursor >= end then []
    else
      var segmentEnd := Min(end, DayEnd(cursor));
      [DaySegment(cursor, segmentEnd)] + SplitDays(segmentEnd, end)
  }

  method SplitAcrossDays(start: int, end: int) returns (out: seq<TimeWindow>)
    ensures out == SplitDays(start, end)
    ensures Minutes(out) == Wrapped(start, end)
  {
    hide WeekMinute, DayEnd, DaySegment, Minutes, Wrapped;
    out := [];
    var cursor := start;
    while cursor < end
      invariant out + SplitDays(cursor, end) == SplitDays(start, end)
      decreases end - cursor
    {
      var segmentEnd := Min(end, DayEnd(cursor));
      var piece := DaySegment(cursor, segmentEnd);
      assert out + ([piece] + SplitDays(segmentEnd, end)) == (out + [piece]) + SplitDays(segmentEnd, end);
      out := out + [piece];
      cursor := segmentEnd;
    }
    assert out + [] == out;
    SplitDaysMinutes(start, end);
  }

  /** Splitting at midnight loses no minute and adds none. */
  lemma {:induction false} SplitDaysMinutes(cursor: int, end: int)
    ensures Minutes(SplitDays(cursor, end)) == Wrapped(cursor, end)
    decreases end - cursor
  {
    hide WeekMinute, DayEnd, DaySegment;
    if cursor < end {
      var segmentEnd := Min(end, DayEnd(cursor));
      SplitDaysMinutes(segmentEnd, end);
      DaySegmentMinutes(cursor, segmentEnd);
      MinutesOfConcat([DaySegment(cursor, segmentEnd)], SplitDays(segmentEnd, end));
      WrappedSplits(cursor, segmentEnd, end);
      hide Minutes, Wrapped;
    } else {
      assert Minutes([]) == {};
      assert Wrapped(cursor, end) == {};
    }
  }

  lemma WrappedSplits(lo: int, mid: int, hi: int)
    requires lo <= mid <= hi
    ensures Wrapped(lo, hi) == Wrapped(lo, mid) + Wrapped(mid, hi)
  {
    hide WeekMinute;
    forall t: int ensures Inside(lo, t, hi) <==> Inside(lo, t, mid) || Inside(mid, t, hi) {
    }
  }

  // ------------------------------------------------------------------ conversion

  function ShiftWindow(w: TimeWindow, shift: int): seq<TimeWindow> {
    SplitDays(w.StartMinute() + shift, w.EndMinute() + shift)
  }

  function ShiftWindows(ws: seq<TimeWindow>, shift: int): seq<TimeWindow> {
    if ws == [] then [] else ShiftWindow(ws[0], shift) + ShiftWindows(ws[1..], shift)
  }

  /** Offsets from UTC, in minutes, of the zones the tz database knows. */
  type Zones = map<string, int>

  function ToTimezone(schedule: WeeklySchedule, target: string, zones: Zones): Result<WeeklySchedule, ScheduleError> {
    if schedule.timezone == target then Ok(schedule)
    else if schedule.timezone !in zones || target !in zones then Err(UnknownTimezone)
    else Ok(BuildSchedule(target, ShiftWindows(schedule.windows, zones[target] - zones[schedule.timezone])))
  }

  /** The conversion loop, collecting the pieces of each shifted window. */
  method ConvertTimezone(schedule: WeeklySchedule, target: string, zones: Zones)
    returns (r: Result<WeeklySchedule, ScheduleError>)
    ensures r == ToTimezone(schedule, target, zones)
  {
    hide BuildSchedule, DaySegment, DayEnd, WeekMinute, Normal, SplitDays, Minutes, Wrapped;
    if schedule.timezone == target {
      return Ok(schedule);
    }
    if schedule.timezone !in zones || target !in zones {
      return Err(UnknownTimezone);
    }
    var shift := zones[target] - zones[schedule.timezone];
    var shifted := [];
    for i := 0 to |schedule.windows|
      invariant shifted + ShiftWindows(schedule.windows[i..], shift) == ShiftWindows(schedule.windows, shift)
    {
      var window := schedule.windows[i];
      var pieces := SplitAcrossDays(window.StartMinute() + shift, window.EndMinute() + shift);
      assert pieces == ShiftWindow(window, shift);
      assert schedule.windows[i..][1..] == schedule.windows[i + 1..];
      assert shifted + (pieces + ShiftWindows(schedule.windows[i + 1..], shift))
          == (shifted + pieces) + ShiftWindows(schedule.windows[i + 1..], shift);
      shifted := shifted + pieces;
    }
    assert shifted + [] == shifted;
    return Ok(BuildSchedule(target, shifted));
  }

  lemma SplitRotates(lo: nat, hi: nat, shift: int)
    ensures Minutes(SplitDays(lo + shift, hi + shift)) == Rotate(Range(lo, hi), shift)
  {
    hide *;
    SplitDaysMinutes(lo + shift, hi + shift);
    RotateRange(lo, hi, shift);
  }

  lemma ShiftWindowRotates(w: TimeWindow, shift: int)
    ensures Minutes(ShiftWindow(w, shift)) == Rotate(WindowRange(w), shift)
  {
    hide SplitDays, Minutes, Rotate, Range, Wrapped, WeekMinute;
    SplitRotates(w.StartMinute(), w.EndMinute(), shift);
  }

  lemma {:induction false} ShiftWindowsRotates(ws: seq<TimeWindow>, shift: int)
    ensures Minutes(ShiftWindows(ws, shift)) == Rotate(Minutes(ws), shift)
  {
    hide ShiftWindow;
    if ws == [] {
      assert Minutes([]) == {} && Rotate({}, shift) == {};
    } else {
      hide Minutes, Rotate, Normal;
      ShiftWindowsRotates(ws[1..], shift);
      ShiftWindowRotates(ws[0], shift);
      MinutesOfConcat(ShiftWindow(ws[0], shift), ShiftWindows(ws[1..], shift));
      SplitFirst(ws);
      RotateOfUnion(WindowRange(ws[0]), Minutes(ws[1..]), shift);
    }
  }

  lemma RotateRange(lo: nat, hi: nat, shift: int)
    ensures Rotate(Range(lo, hi), shift) == Wrapped(lo + shift, hi + shift)
  {
    hide WeekMinute;
    forall x: nat ensures x in Rotate(Range(lo, hi), shift) <==> x in Wrapped(lo + shift, hi + shift) {
      if x in Rotate(Range(lo, hi), shift) {
        RotatedIsWrapped(lo, hi, shift, x);
      }
      if x in Wrapped(lo + shift, hi + shift) {
        WrappedIsRotated(lo, hi, shift, x);
      }
    }
  }

  lemma RotatedIsWrapped(lo: nat, hi: nat, shift: int, x: nat)
    requires x in Rotate(Range(lo, hi), shift)
    ensures x in Wrapped(lo + shift, hi + shift)
  {
    var m :| m in Range(lo, hi) && x == WeekMinute(m + shift);
    assert Inside(lo + shift, m + shift, hi + shift);
  }

  lemma WrappedIsRotated(lo: nat, hi: nat, shift: int, x: nat)
    requires x in Wrapped(lo + shift, hi + shift)
    ensures x in Rotate(Range(lo, hi), shift)
  {
    var t :| Inside(lo + shift, t, hi + shift) && x == WeekMinute(t);
    assert Inside(lo + shift, t, hi + shift);
    var m := t - shift;
    assert Inside(lo, m, hi);
    assert t == m + shift && m in Range(lo, hi);
  }

  ghost predicate Known(timezone: string, zones: Zones) {
    timezone in zones
  }

  /** A conversion rotates the minute set by the offset difference, and does nothing else to it. */
  lemma ConversionIsRotation(s: WeeklySchedule, target: string, zones: Zones)
    requires Known(s.timezone, zones) && Known(target, zones)
    ensures var r := ToTimezone(s, target, zones);
            r.Ok? && r.value.timezone == target &&
            Minutes(r.value.windows) == Rotate(Minutes(s.windows), zones[target] - zones[s.timezone])
  {
    hide Rotate, Normalise, ShiftWindows, Normal;
    if s.timezone == target {
      RotateByNothing(Minutes(s.windows));
    } else {
      ShiftWindowsRotates(s.windows, zones[target] - zones[s.timezone]);
    }
  }

  /** Going through an intermediate zone gives the same schedule as going directly. */
  lemma ConversionsCompose(s: WeeklySchedule, via: string, target: string, zones: Zones)
    requires Known(s.timezone, zones) && Known(via, zones) && Known(target, zones)
    ensures ToTimezone(s, via, zones).Ok?
    ensures ToTimezone(ToTimezone(s, via, zones).value, target, zones) == ToTimezone(s, target, zones)
  {
    hide ToTimezone, Minutes, Rotate, Normal;
    ConversionIsRotation(s, via, zones);
    ConversionIsRotation(s, target, zones);
    var middle := ToTimezone(s, via, zones).value;
    ConversionIsRotation(middle, target, zones);
    RotateComposes(Minutes(s.windows), zones[via] - zones[s.timezone], zones[target] - zones[via]);
    NormalFormIsUnique(ToTimezone(middle, target, zones).value.windows, ToTimezone(s, target, zones).value.windows);
  }

  /** Converting there and back returns the identical schedule. */
  lemma ConversionRoundTrip(s: WeeklySchedule, target: string, zones: Zones)
    requires Known(s.timezone, zones) && Known(target, zones)
    ensures ToTimezone(s, target, zones).Ok?
    ensures ToTimezone(ToTimezone(s, target, zones).value, s.timezone, zones) == Ok(s)
  {
    ConversionsCompose(s, target, s.timezone, zones);
  }

  /** Two schedules converted together keep their lengths and their overlap. */
  lemma ConversionKeepsTotalsAndOverlap(a: WeeklySchedule, b: WeeklySchedule, target: string, zones: Zones)
    requires a.timezone == b.timezone && Known(a.timezone, zones) && Known(target, zones)
    ensures ToTimezone(a, target, zones).Ok? && ToTimezone(b, target, zones).Ok?
    ensures var a', b' := ToTimezone(a, target, zones).value, ToTimezone(b, target, zones).value;
            TotalMinutes(a'.windows) == TotalMinutes(a.windows) &&
            OverlapMinutes(a', b') == OverlapMinutes(a, b)
  {
    hide ToTimezone, Minutes, Rotate, Normal, TotalMinutes, OverlapTotal;
    var shift := zones[target] - zones[a.timezone];
    MinutesInWeek(a.windows);
    MinutesInWeek(b.windows);
    ConversionIsRotation(a, target, zones);
    ConversionIsRotation(b, target, zones);
    var a', b' := ToTimezone(a, target, zones).value, ToTimezone(b, target, zones).value;
    TotalCountsMinutes(a.windows);
    TotalCountsMinutes(a'.windows);
    RotateKeepsSize(Minutes(a.windows), shift);
    OverlapCountsSharedMinutes(a.windows, b.windows);
    OverlapCountsSharedMinutes(a'.windows, b'.windows);
    RotateKeepsIntersection(Minutes(a.windows), Minutes(b.windows), shift);
    RotateKeepsSize(Minutes(a.windows) * Minutes(b.windows), shift);
  }

  lemma MinutesInWeek(ws: seq<TimeWindow>)
    ensures InWeek(Minutes(ws))
  {
  }

  // ------------------------------------------------------------- slot suggestion

  /** The first `session` minutes of a window that is long enough. */
  function SlotIn(window: TimeWindow, session: int): (slot: TimeWindow)
    requires 1 <= session <= window.Duration()
    ensures slot.weekday == window.weekday
    ensures slot.StartMinute() == window.StartMinute()
    ensures slot.EndMinute() == window.StartMinute() + session
  {
    var offset := window.start.Offset() + session;
    assert 0 < offset <= MINUTES_PER_DAY by {
      WindowWithinDay(window);
    }
    SlotEnd(offset);
    Window(window.weekday, window.start, Clock(offset / 60 % 24, offset % 60))
  }

  lemma SlotEnd(offset: int)
    requires 0 < offset <= MINUTES_PER_DAY
    ensures var end := Clock(offset / 60 % 24, offset % 60);
            end.Valid() && end.Offset() == if offset == MINUTES_PER_DAY then 0 else offset
  {
  }

  /** A day's earliest window of at least `session` minutes. */
  ghost predicate EarliestUsable(ws: seq<TimeWindow>, w: TimeWindow, session: int) {
    && w in ws && session <= w.Duration()
    && forall x :: x in ws && x.weekday == w.weekday && session <= x.Duration() ==> w.StartMinute() <= x.StartMinute()
  }

  /** `slot` is the first `session` minutes of the day's earliest window that has so many. */
  ghost predicate PlansDay(ws: seq<TimeWindow>, day: int, slot: TimeWindow, session: int) {
    && slot.weekday == day && slot.EndMinute() == slot.StartMinute() + session
    && exists w: TimeWindow :: w.weekday == day && w.StartMinute() == slot.StartMinute() && EarliestUsable(ws, w, session)
  }

  ghost predicate IsDayPlan(ws: seq<TimeWindow>, byDay: map<nat, TimeWindow>, session: int) {
    && (forall w :: w in ws && session <= w.Duration() ==> w.weekday in byDay)
    && (forall d :: d in byDay ==> PlansDay(ws, d, byDay[d], session))
  }

  function DaysInOrder(byDay: map<nat, TimeWindow>, day: nat): seq<TimeWindow>
    decreases 7 - day
  {
    if day >= 7 then [] else (if day in byDay then [byDay[day]] else []) + DaysInOrder(byDay, day + 1)
  }

  lemma PlanGrows(ws: seq<TimeWindow>, i: nat, day: int, slot: TimeWindow, session: int)
    requires Normal(ws) && i < |ws| && PlansDay(ws[..i], day, slot, session)
    ensures PlansDay(ws[..i + 1], day, slot, session)
  {
    var w: TimeWindow :| w.weekday == day && w.StartMinute() == slot.StartMinute() && EarliestUsable(ws[..i], w, session);
    var k :| 0 <= k < i && ws[k] == w;
    assert w.StartMinute() <= ws[i].StartMinute() by {
      assert Before(ws[k], ws[i]);
    }
    assert ws[..i + 1] == ws[..i] + [ws[i]];
    assert EarliestUsable(ws[..i + 1], w, session) by {
      hide Normal, Window.StartMinute, Window.EndMinute;
      forall x | x in ws[..i + 1] ensures x in ws[..i] || x == ws[i] {
      }
    }
  }

  /** Walk the windows in start order and keep each day's first usable slot. The windows of a
    * schedule are normal, so `sorted` by start returns them as they are. */
  method SuggestSlots(overlap: WeeklySchedule, session: int, limit: nat)
    returns (slots: seq<TimeWindow>, byDay: map<nat, TimeWindow>)
    requires session >= 1
    ensures IsDayPlan(overlap.windows, byDay, session)
    ensures var all := DaysInOrder(byDay, 0); slots == if |all| <= limit then all else all[..limit]
  {
    hide SlotIn, DaysInOrder;
    var ws := overlap.windows;
    byDay := map[];
    for i := 0 to |ws|
      invariant IsDayPlan(ws[..i], byDay, session)
    {
      var window := ws[i];
      assert ws[..i + 1] == ws[..i] + [window];
      forall d | d in byDay ensures PlansDay(ws[..i + 1], d, byDay[d], session) {
        PlanGrows(ws, i, d, byDay[d], session);
      }
      if session <= window.Duration() && window.weekday !in byDay {
        byDay := byDay[window.weekday := SlotIn(window, session)];
        assert EarliestUsable(ws[..i + 1], window, session);
      }
    }
    assert ws[..|ws|] == ws;
    slots := DaysInOrder(byDay, 0);
    if |slots| > limit {
      slots := slots[..limit];
    }
  }

  /** `all` holds, in weekday order, exactly the entries of `byDay` from `day` on. */
  ghost predicate ListsFrom(all: seq<TimeWindow>, byDay: map<nat, TimeWindow>, day: nat) {
    && (forall i, j :: 0 <= i < j < |all| ==> all[i].weekday < all[j].weekday)
    && (forall i :: 0 <= i < |all| ==> all[i].weekday >= day && all[i].weekday in byDay && byDay[all[i].weekday] == all[i])
    && (forall d :: d in byDay && day <= d ==> byDay[d] in all)
  }

  lemma ListsFromStep(rest: seq<TimeWindow>, byDay: map<nat, TimeWindow>, day: nat)
    requires ListsFrom(rest, byDay, day + 1) && forall d :: d in byDay ==> byDay[d].weekday == d
    ensures ListsFrom((if day in byDay then [byDay[day]] else []) + rest, byDay, day)
  {
    var all := (if day in byDay then [byDay[day]] else []) + rest;
    if day in byDay {
      forall i | 0 < i < |all| ensures all[i] == rest[i - 1] {
      }
      assert all[0] == byDay[day];
    } else {
      assert all == rest;
    }
    forall d | d in byDay && day <= d ensures byDay[d] in all {
      assert d == day || byDay[d] in rest;
    }
  }

  lemma {:induction false} DaysInOrderListsDays(byDay: map<nat, TimeWindow>, day: nat)
    requires day <= 7 && forall d :: d in byDay ==> byDay[d].weekday == d
    ensures ListsFrom(DaysInOrder(byDay, day), byDay, day)
    decreases 7 - day
  {
    hide Window.StartMinute, Window.EndMinute;
    if day < 7 {
      DaysInOrderListsDays(byDay, day + 1);
      ListsFromStep(DaysInOrder(byDay, day + 1), byDay, day);
    } else {
      forall d | d in byDay ensures d < 7 {
        assert byDay[d].Valid();
      }
    }
  }

  lemma SlotIsFree(overlap: WeeklySchedule, day: int, slot: TimeWindow, session: int)
    requires PlansDay(overlap.windows, day, slot, session)
    ensures Minutes([slot]) <= Minutes(overlap.windows)
  {
    var ws := overlap.windows;
    var w: TimeWindow :| w.weekday == day && w.StartMinute() == slot.StartMinute() && EarliestUsable(ws, w, session);
    var k :| 0 <= k < |ws| && ws[k] == w;
    forall m | m in Minutes([slot]) ensures m in Minutes(ws) {
      SingletonCovers(slot, m);
      assert ws[k].Covers(m);
    }
  }

  /** Every suggestion starts its day's earliest usable window, is exactly one session long and lies
    * inside the mutually free minutes; no day has two; and a day with a long enough window has one. */
  lemma SuggestionsAreUsable(overlap: WeeklySchedule, byDay: map<nat, TimeWindow>, session: int)
    requires IsDayPlan(overlap.windows, byDay, session)
    ensures var all := DaysInOrder(byDay, 0);
            && ListsFrom(all, byDay, 0)
            && (forall i :: 0 <= i < |all| ==> PlansDay(overlap.windows, all[i].weekday, all[i], session))
            && (forall i :: 0 <= i < |all| ==> Minutes([all[i]]) <= Minutes(overlap.windows))
            && (forall w :: w in overlap.windows && session <= w.Duration() ==> w.weekday in byDay)
  {
    hide Minutes, DaysInOrder, PlansDay;
    assert forall d :: d in byDay ==> PlansDay(overlap.windows, d, byDay[d], session);
    forall d | d in byDay ensures byDay[d].weekday == d && Minutes([byDay[d]]) <= Minutes(overlap.windows) {
      SlotIsFree(overlap, d, byDay[d], session);
      PlannedDay(overlap.windows, d, byDay[d], session);
    }
    DaysInOrderListsDays(byDay, 0);
  }

  lemma PlannedDay(ws: seq<TimeWindow>, day: int, slot: TimeWindow, session: int)
    requires PlansDay(ws, day, slot, session)
    ensures slot.weekday == day
  {
  }
}
