/** Weekly availability: windows, their normal form, overlap and intersection.
  *
  * A schedule means a set of minutes of the week. The normal form of a window list is the only
  * normal list with that meaning (`NormalFormIsUnique`), and everything else follows from it.
  */
module Schedule {
  import opened Wrappers

  const MINUTES_PER_DAY := 1440
  const MINUTES_PER_WEEK := 10080

  datatype ScheduleError = InvalidWindow | CrossesDay | TimezoneMismatch | UnknownTimezone

  // ------------------------------------------------------------------ windows

  datatype Clock = Clock(hour: int, minute: int) {
    predicate Valid() {
      0 <= hour < 24 && 0 <= minute < 60
    }

    function Offset(): int {
      hour * 60 + minute
    }
  }

  type ClockTime = c: Clock | c.Valid() witness Clock(0, 0)

  const MIDNIGHT: ClockTime := Clock(0, 0)

  /** The clock reading of a minute of the day. */
  function ClockAt(offset: int): (c: ClockTime)
    requires 0 <= offset < MINUTES_PER_DAY
    ensures c.Offset() == offset
  {
    Clock(offset / 60, offset % 60)
  }

  /** A half-open window on one weekday; an end of 00:00 means 24:00. */
  datatype Window = Window(weekday: int, start: ClockTime, end: ClockTime) {
    function StartMinute(): int {
      weekday * MINUTES_PER_DAY + start.Offset()
    }

    function EndMinute(): int {
      weekday * MINUTES_PER_DAY + if end.Offset() == 0 then MINUTES_PER_DAY else end.Offset()
    }

    function Duration(): int {
      EndMinute() - StartMinute()
    }

    predicate Valid() {
      0 <= weekday < 7 && StartMinute() < EndMinute()
    }

    predicate Covers(m: int) {
      StartMinute() <= m < EndMinute()
    }
  }

  type TimeWindow = w: Window | w.Valid() witness Window(0, MIDNIGHT, MIDNIGHT)

  function MakeWindow(weekday: int, start: ClockTime, end: ClockTime): Result<TimeWindow, ScheduleError> {
    var w := Window(weekday, start, end);
    if w.Valid() then Ok(w) else Err(InvalidWindow)
  }

  /** A window is determined by its two absolute minutes. */
  lemma SameMinutesSameWindow(a: TimeWindow, b: TimeWindow)
    requires a.StartMinute() == b.StartMinute() && a.EndMinute() == b.EndMinute()
    ensures a == b
  {
    assert a.weekday == b.weekday;
    assert a.start.Offset() == b.start.Offset();
    assert a.start == b.start;
    assert a.end.Offset() == b.end.Offset();
  }

  /** The first minute after the day that holds `minute`. */
  function DayEnd(minute: int): (end: int)
    ensures end - MINUTES_PER_DAY <= minute < end
    ensures end == (minute / MINUTES_PER_DAY + 1) * MINUTES_PER_DAY
  {
    (minute / MINUTES_PER_DAY + 1) * MINUTES_PER_DAY
  }

  /** A window ends inside, or at the end of, the day it starts in. */
  lemma WindowWithinDay(w: TimeWindow)
    ensures w.StartMinute() / MINUTES_PER_DAY == w.weekday
    ensures DayEnd(w.StartMinute()) == (w.weekday + 1) * MINUTES_PER_DAY
    ensures w.EndMinute() <= DayEnd(w.StartMinute())
  {
    assert 0 <= w.start.Offset() < MINUTES_PER_DAY && 0 <= w.end.Offset() < MINUTES_PER_DAY;
    DivisionOf(w.weekday, w.start.Offset());
  }

  lemma DivisionOf(day: int, offset: int)
    requires 0 <= offset < MINUTES_PER_DAY
    ensures (day * MINUTES_PER_DAY + offset) / MINUTES_PER_DAY == day
    ensures (day * MINUTES_PER_DAY + offset) % MINUTES_PER_DAY == offset
  {
  }

  /** Rebuild a window from absolute minutes; it must not cross a day. */
  function WindowFromMinutes(startMinute: int, endMinute: int): Result<TimeWindow, ScheduleError> {
    var weekday := startMinute / MINUTES_PER_DAY;
    var dayStart := weekday * MINUTES_PER_DAY;
    var startOffset := startMinute - dayStart;
    var endOffset := endMinute - dayStart;
    if !(0 <= weekday < 7) then Err(InvalidWindow)
    else if endOffset > MINUTES_PER_DAY then Err(CrossesDay)
    else if endOffset < 0 then Err(InvalidWindow)
    else
      var end := if endOffset == MINUTES_PER_DAY then MIDNIGHT else ClockAt(endOffset);
      MakeWindow(weekday, ClockAt(startOffset), end)
  }

  /** `WindowFromMinutes` rebuilds exactly the window asked for, unless that would cross a day. */
  lemma WindowFromMinutesRebuilds(startMinute: int, endMinute: int)
    requires 0 <= startMinute < MINUTES_PER_WEEK && startMinute < endMinute
    ensures WindowFromMinutes(startMinute, endMinute).Ok? <==> endMinute <= DayEnd(startMinute)
    ensures endMinute <= DayEnd(startMinute) ==>
              var w := WindowFromMinutes(startMinute, endMinute).value;
              w.StartMinute() == startMinute && w.EndMinute() == endMinute
  {
    var dayEnd := DayEnd(startMinute);
    var weekday := startMinute / MINUTES_PER_DAY;
    assert dayEnd == weekday * MINUTES_PER_DAY + MINUTES_PER_DAY;
    assert 0 <= weekday < 7;
    if endMinute <= dayEnd {
      var end := if endMinute == dayEnd then MIDNIGHT else ClockAt(endMinute - weekday * MINUTES_PER_DAY);
      var w := Window(weekday, ClockAt(startMinute - weekday * MINUTES_PER_DAY), end);
      assert w.StartMinute() == startMinute;
      assert w.EndMinute() == endMinute;
      assert WindowFromMinutes(startMinute, endMinute) == MakeWindow(weekday, w.start, w.end);
    }
  }

  function Min(a: int, b: int): int { if a <= b then a else b }

  function Max(a: int, b: int): int { if a <= b then b else a }

  function WindowOverlap(a: TimeWindow, b: TimeWindow): nat {
    Max(0, Min(a.EndMinute(), b.EndMinute()) - Max(a.StartMinute(), b.StartMinute()))
  }

  /** The shared part of two windows. `WindowFromMinutes` cannot fail here: windows that overlap
    * lie on one day. */
  function IntersectWindows(a: TimeWindow, b: TimeWindow): (r: Option<TimeWindow>)
    ensures r.None? <==> forall m: int :: !(a.Covers(m) && b.Covers(m))
    ensures r.Some? ==> forall m: int :: r.value.Covers(m) <==> a.Covers(m) && b.Covers(m)
  {
    if WindowOverlap(a, b) == 0 then
      None
    else
      var s, e := Max(a.StartMinute(), b.StartMinute()), Min(a.EndMinute(), b.EndMinute());
      assert a.Covers(s) && b.Covers(s);
      WindowWithinDay(a);
      WindowWithinDay(b);
      WindowFromMinutesRebuilds(s, e);
      Some(WindowFromMinutes(s, e).value)
  }

  // ------------------------------------------------------------ meaning of a list

  predicate CoveredBy(ws: seq<TimeWindow>, m: int) {
    exists i :: 0 <= i < |ws| && ws[i].Covers(m)
  }

  /** The minutes of the week a list of windows covers. */
  ghost function Minutes(ws: seq<TimeWindow>): set<nat> {
    set m: nat | m < MINUTES_PER_WEEK && CoveredBy(ws, m)
  }

  lemma CoveredInWeek(ws: seq<TimeWindow>, m: int)
    ensures m in Minutes(ws) <==> CoveredBy(ws, m)
  {
  }

  lemma MinutesOfConcat(a: seq<TimeWindow>, b: seq<TimeWindow>)
    ensures Minutes(a + b) == Minutes(a) + Minutes(b)
  {
    forall m: int
      ensures CoveredBy(a + b, m) <==> CoveredBy(a, m) || CoveredBy(b, m)
    {
      if CoveredBy(a, m) {
        var i :| 0 <= i < |a| && a[i].Covers(m);
        assert (a + b)[i].Covers(m);
      }
      if CoveredBy(b, m) {
        var i :| 0 <= i < |b| && b[i].Covers(m);
        assert (a + b)[|a| + i].Covers(m);
      }
    }
  }

  ghost predicate Before(a: TimeWindow, b: TimeWindow) {
    a.EndMinute() <= b.StartMinute() && (a.weekday == b.weekday ==> a.EndMinute() < b.StartMinute())
  }

  /** Sorted and disjoint, and no two windows of one weekday touch. */
  ghost predicate Normal(ws: seq<TimeWindow>) {
    forall i, j :: 0 <= i < j < |ws| ==> Before(ws[i], ws[j])
  }

  // ---------------------------------------------------------------- normalising

  predicate KeyAtMost(a: TimeWindow, b: TimeWindow) {
    a.StartMinute() < b.StartMinute()
    || (a.StartMinute() == b.StartMinute() && a.EndMinute() <= b.EndMinute())
  }

  ghost predicate Sorted(ws: seq<TimeWindow>) {
    forall i, j :: 0 <= i < j < |ws| ==> KeyAtMost(ws[i], ws[j])
  }

  function InsertSorted(w: TimeWindow, ws: seq<TimeWindow>): (r: seq<TimeWindow>)
    ensures multiset(r) == multiset{w} + multiset(ws)
    ensures Sorted(ws) ==> Sorted(r)
  {
    if ws == [] || KeyAtMost(w, ws[0]) then
      [w] + ws
    else
      var rest := InsertSorted(w, ws[1..]);
      assert ws == [ws[0]] + ws[1..];
      assert Sorted(ws) ==> Sorted([ws[0]] + rest) by {
        if Sorted(ws) {
          InsertKeepsSorted(w, ws, rest);
        }
      }
      [ws[0]] + rest
  }

  lemma InsertKeepsSorted(w: TimeWindow, ws: seq<TimeWindow>, rest: seq<TimeWindow>)
    requires ws != [] && Sorted(ws) && !KeyAtMost(w, ws[0])
    requires Sorted(rest) && multiset(rest) == multiset{w} + multiset(ws[1..])
    ensures Sorted([ws[0]] + rest)
  {
    forall j | 0 <= j < |rest| ensures KeyAtMost(ws[0], rest[j]) {
      assert rest[j] in multiset(rest);
      if rest[j] != w {
        assert rest[j] in ws[1..];
      }
    }
  }

  function SortWindows(ws: seq<TimeWindow>): (r: seq<TimeWindow>)
    ensures multiset(r) == multiset(ws) && Sorted(r)
  {
    if ws == [] then [] else
      assert ws == [ws[0]] + ws[1..];
      InsertSorted(ws[0], SortWindows(ws[1..]))
  }

  lemma MinutesOfPermutation(a: seq<TimeWindow>, b: seq<TimeWindow>)
    requires multiset(a) == multiset(b)
    ensures Minutes(a) == Minutes(b)
  {
    forall m: int ensures CoveredBy(a, m) <==> CoveredBy(b, m) {
      if CoveredBy(a, m) {
        var i :| 0 <= i < |a| && a[i].Covers(m);
        assert a[i] in multiset(b);
      }
      if CoveredBy(b, m) {
        var i :| 0 <= i < |b| && b[i].Covers(m);
        assert b[i] in multiset(a);
      }
    }
  }

  ghost predicate StartsBy(out: seq<TimeWindow>, minute: int) {
    forall i :: 0 <= i < |out| ==> out[i].StartMinute() <= minute
  }

  /** `last` stretched to the end of `w`; on one weekday this cannot cross a day. */
  function Joined(last: TimeWindow, w: TimeWindow): (r: TimeWindow)
    requires w.weekday == last.weekday && last.EndMinute() < w.EndMinute()
    ensures r.StartMinute() == last.StartMinute() && r.EndMinute() == w.EndMinute()
  {
    WindowWithinDay(last);
    WindowWithinDay(w);
    WindowFromMinutesRebuilds(last.StartMinute(), w.EndMinute());
    WindowFromMinutes(last.StartMinute(), w.EndMinute()).value
  }

  /** One round of the merge loop: extend the last window, drop `w`, or append it. */
  function Absorb(out: seq<TimeWindow>, w: TimeWindow): (r: seq<TimeWindow>)
    requires Normal(out) && StartsBy(out, w.StartMinute()) && out != []
    ensures Normal(r) && StartsBy(r, w.StartMinute()) && r != []
    ensures Minutes(r) == Minutes(out) + Minutes([w])
  {
    var front, last := out[..|out| - 1], out[|out| - 1];
    assert out == front + [last];
    if w.weekday == last.weekday && w.StartMinute() <= last.EndMinute() then
      if w.EndMinute() > last.EndMinute() then
        var joined := Joined(last, w);
        assert Minutes(front + [joined]) == Minutes(out) + Minutes([w]) by {
          MinutesOfConcat(front, [joined]);
          MinutesOfConcat(front, [last]);
          JoinedMinutes(last, w, joined);
        }
        front + [joined]
      else
        assert Minutes(out) == Minutes(out) + Minutes([w]) by {
          MinutesOfConcat(front, [last]);
          SubsumedMinutes(last, w);
        }
        out
    else
      assert Normal(out + [w]);
      MinutesOfConcat(out, [w]);
      out + [w]
  }

  lemma SingletonCovers(w: TimeWindow, m: int)
    ensures CoveredBy([w], m) <==> w.Covers(m)
  {
    if w.Covers(m) { assert [w][0].Covers(m); }
  }

  lemma JoinedMinutes(last: TimeWindow, w: TimeWindow, joined: TimeWindow)
    requires last.StartMinute() <= w.StartMinute() <= last.EndMinute() < w.EndMinute()
    requires joined.StartMinute() == last.StartMinute() && joined.EndMinute() == w.EndMinute()
    ensures Minutes([joined]) == Minutes([last]) + Minutes([w])
  {
    forall m: nat ensures m in Minutes([joined]) <==> m in Minutes([last]) + Minutes([w]) {
      SingletonCovers(joined, m);
      SingletonCovers(last, m);
      SingletonCovers(w, m);
    }
  }

  lemma SubsumedMinutes(last: TimeWindow, w: TimeWindow)
    requires last.StartMinute() <= w.StartMinute() && w.EndMinute() <= last.EndMinute()
    ensures Minutes([w]) <= Minutes([last])
  {
    forall m | m in Minutes([w]) ensures m in Minutes([last]) {
      SingletonCovers(w, m);
      SingletonCovers(last, m);
    }
  }

  /** The merge loop's `out` after the first `n` sorted windows. */
  function MergePrefix(ordered: seq<TimeWindow>, n: nat): (out: seq<TimeWindow>)
    requires Sorted(ordered) && n <= |ordered|
    ensures Normal(out) && Minutes(out) == Minutes(ordered[..n])
    ensures n > 0 ==> out != [] && StartsBy(out, ordered[n - 1].StartMinute())
    ensures n == 0 ==> out == []
  {
    if n == 0 then []
    else if n == 1 then
      assert ordered[..1] == [ordered[0]];
      [ordered[0]]
    else
      assert ordered[..n] == ordered[..n - 1] + [ordered[n - 1]];
      MinutesOfConcat(ordered[..n - 1], [ordered[n - 1]]);
      assert KeyAtMost(ordered[n - 2], ordered[n - 1]);
      Absorb(MergePrefix(ordered, n - 1), ordered[n - 1])
  }

  lemma MergePrefixStep(ordered: seq<TimeWindow>, n: nat)
    requires Sorted(ordered) && 0 < n < |ordered|
    ensures StartsBy(MergePrefix(ordered, n), ordered[n].StartMinute())
    ensures MergePrefix(ordered, n + 1) == Absorb(MergePrefix(ordered, n), ordered[n])
  {
    assert KeyAtMost(ordered[n - 1], ordered[n]);
  }

  /** What construction of a schedule makes of its windows. */
  function Normalise(windows: seq<TimeWindow>): (out: seq<TimeWindow>)
    ensures Normal(out) && Minutes(out) == Minutes(windows)
  {
    var ordered := SortWindows(windows);
    MinutesOfPermutation(ordered, windows);
    assert ordered[..|ordered|] == ordered;
    MergePrefix(ordered, |ordered|)
  }

  lemma MergePrefixEnds(windows: seq<TimeWindow>)
    requires windows != []
    ensures var ordered := SortWindows(windows);
            && |ordered| == |windows|
            && MergePrefix(ordered, 1) == [ordered[0]]
            && Normalise(windows) == MergePrefix(ordered, |ordered|)
  {
    assert |multiset(SortWindows(windows))| == |multiset(windows)|;
  }

  lemma NormaliseNothing()
    ensures Normalise([]) == []
  {
    assert multiset(SortWindows([])) == multiset{};
  }

  /** The merge loop itself, replacing the last window of `out` in place. */
  method Merge(windows: seq<TimeWindow>) returns (out: seq<TimeWindow>)
    ensures out == Normalise(windows)
  {
    hide MergePrefix, Normalise, SortWindows, Normal, Minutes, Sorted, StartsBy, Joined;
    hide Window.StartMinute, Window.EndMinute;
    if windows == [] {
      NormaliseNothing();
      return [];
    }
    var ordered := SortWindows(windows);
    MergePrefixEnds(windows);
    out := [ordered[0]];
    for i := 1 to |ordered|
      invariant out == MergePrefix(ordered, i)
    {
      var window, last := ordered[i], out[|out| - 1];
      MergePrefixStep(ordered, i);
      if window.weekday == last.weekday && window.StartMinute() <= last.EndMinute() {
        if window.EndMinute() > last.EndMinute() {
          out := out[..|out| - 1] + [Joined(last, window)];
        }
      } else {
        out := out + [window];
      }
    }
  }

  // ---------------------------------------------------------------- canonicity

  /** In a normal list the first window's end is the first uncovered minute of its day. */
  lemma FirstGap(ws: seq<TimeWindow>)
    requires Normal(ws) && ws != []
    ensures ws[0].EndMinute() < DayEnd(ws[0].StartMinute()) ==> !CoveredBy(ws, ws[0].EndMinute())
    ensures ws[0].EndMinute() <= DayEnd(ws[0].StartMinute())
  {
    WindowWithinDay(ws[0]);
    var e := ws[0].EndMinute();
    if e < DayEnd(ws[0].StartMinute()) {
      forall i | 0 <= i < |ws| ensures !ws[i].Covers(e) {
        if i > 0 {
          assert Before(ws[0], ws[i]);
          WindowWithinDay(ws[i]);
        }
      }
    }
  }

  lemma FirstIsLeast(ws: seq<TimeWindow>, m: int)
    requires Normal(ws) && CoveredBy(ws, m)
    ensures ws != [] && ws[0].StartMinute() <= m && CoveredBy(ws, ws[0].StartMinute())
  {
    var i :| 0 <= i < |ws| && ws[i].Covers(m);
    if i > 0 {
      assert Before(ws[0], ws[i]);
    }
    assert ws[0].Covers(ws[0].StartMinute());
  }

  lemma FirstWindowsAgree(a: seq<TimeWindow>, b: seq<TimeWindow>)
    requires Normal(a) && Normal(b) && a != [] && b != []
    requires forall m: int :: CoveredBy(a, m) <==> CoveredBy(b, m)
    ensures a[0] == b[0]
  {
    assert a[0].Covers(a[0].StartMinute()) && b[0].Covers(b[0].StartMinute());
    assert CoveredBy(a, a[0].StartMinute()) && CoveredBy(b, b[0].StartMinute());
    FirstIsLeast(a, b[0].StartMinute());
    FirstIsLeast(b, a[0].StartMinute());
    FirstGap(a);
    FirstGap(b);
    if a[0].EndMinute() < b[0].EndMinute() {
      assert b[0].Covers(a[0].EndMinute());
      assert CoveredBy(b, a[0].EndMinute());
    } else if b[0].EndMinute() < a[0].EndMinute() {
      assert a[0].Covers(b[0].EndMinute());
      assert CoveredBy(a, b[0].EndMinute());
    }
    SameMinutesSameWindow(a[0], b[0]);
  }

  lemma TailCovers(ws: seq<TimeWindow>, m: int)
    requires Normal(ws) && ws != []
    ensures CoveredBy(ws[1..], m) <==> CoveredBy(ws, m) && !ws[0].Covers(m)
  {
    if CoveredBy(ws[1..], m) {
      var i :| 0 <= i < |ws[1..]| && ws[1..][i].Covers(m);
      assert ws[i + 1].Covers(m) && Before(ws[0], ws[i + 1]);
    }
    if CoveredBy(ws, m) && !ws[0].Covers(m) {
      var i :| 0 <= i < |ws| && ws[i].Covers(m);
      assert ws[1..][i - 1].Covers(m);
    }
  }

  lemma NonemptyCovers(ws: seq<TimeWindow>)
    ensures ws != [] <==> exists m: int :: CoveredBy(ws, m)
    ensures ws != [] <==> Minutes(ws) != {}
  {
    if ws != [] {
      assert ws[0].Covers(ws[0].StartMinute());
      CoveredInWeek(ws, ws[0].StartMinute());
      assert ws[0].StartMinute() in Minutes(ws);
    }
  }

  /** Two normal lists with the same minutes are the same list. */
  lemma {:induction false} NormalFormIsUnique(a: seq<TimeWindow>, b: seq<TimeWindow>)
    requires Normal(a) && Normal(b) && Minutes(a) == Minutes(b)
    ensures a == b
  {
    hide Before, Window.StartMinute, Window.EndMinute, Window.Covers;
    forall m: int ensures CoveredBy(a, m) <==> CoveredBy(b, m) {
      CoveredInWeek(a, m);
      CoveredInWeek(b, m);
    }
    NonemptyCovers(a);
    NonemptyCovers(b);
    if a != [] && b != [] {
      FirstWindowsAgree(a, b);
      forall m: int ensures CoveredBy(a[1..], m) <==> CoveredBy(b[1..], m) {
        TailCovers(a, m);
        TailCovers(b, m);
      }
      assert Minutes(a[1..]) == Minutes(b[1..]);
      NormalFormIsUnique(a[1..], b[1..]);
      assert a == [a[0]] + a[1..] && b == [b[0]] + b[1..];
    }
  }

  /** Normalising is canonical: the result depends on the covered minutes and on nothing else. */
  lemma NormaliseIsCanonical(x: seq<TimeWindow>, y: seq<TimeWindow>)
    ensures Normalise(x) == Normalise(y) <==> Minutes(x) == Minutes(y)
  {
    if Minutes(x) == Minutes(y) {
      NormalFormIsUnique(Normalise(x), Normalise(y));
    }
  }

  /** Constructing a schedule from an already normal list changes nothing. */
  lemma NormaliseFixesNormal(ws: seq<TimeWindow>)
    requires Normal(ws)
    ensures Normalise(ws) == ws
  {
    NormalFormIsUnique(Normalise(ws), ws);
  }

  // ------------------------------------------------------------------ schedules

  datatype Week = Week(timezone: string, windows: seq<TimeWindow>)

  type WeeklySchedule = s: Week | Normal(s.windows) witness Week("Asia/Kolkata", [])

  function BuildSchedule(timezone: string, windows: seq<TimeWindow>): WeeklySchedule {
    Week(timezone, Normalise(windows))
  }

  function TotalMinutes(ws: seq<TimeWindow>): int {
    if ws == [] then 0 else ws[0].Duration() + TotalMinutes(ws[1..])
  }

  function OverlapWithOne(w: TimeWindow, bs: seq<TimeWindow>): nat {
    if bs == [] then 0 else WindowOverlap(w, bs[0]) + OverlapWithOne(w, bs[1..])
  }

  function OverlapTotal(xs: seq<TimeWindow>, ys: seq<TimeWindow>): nat {
    if xs == [] then 0 else OverlapWithOne(xs[0], ys) + OverlapTotal(xs[1..], ys)
  }

  function OverlapMinutes(a: WeeklySchedule, b: WeeklySchedule): Result<nat, ScheduleError> {
    if a.timezone != b.timezone then Err(TimezoneMismatch) else Ok(OverlapTotal(a.windows, b.windows))
  }

  function SharedWithOne(w: TimeWindow, bs: seq<TimeWindow>): seq<TimeWindow> {
    if bs == [] then []
    else
      var x := IntersectWindows(w, bs[0]);
      (if x.Some? then [x.value] else []) + SharedWithOne(w, bs[1..])
  }

  function SharedWindows(xs: seq<TimeWindow>, ys: seq<TimeWindow>): seq<TimeWindow> {
    if xs == [] then [] else SharedWithOne(xs[0], ys) + SharedWindows(xs[1..], ys)
  }

  function Intersection(a: WeeklySchedule, b: WeeklySchedule): Result<WeeklySchedule, ScheduleError> {
    if a.timezone != b.timezone then Err(TimezoneMismatch)
    else Ok(BuildSchedule(a.timezone, SharedWindows(a.windows, b.windows)))
  }

  // ---------------------------------------------------------------- counting

  ghost function Range(lo: nat, hi: nat): set<nat> {
    set m: nat | lo <= m < hi && Inside(lo, m, hi)
  }

  ghost function WindowRange(w: TimeWindow): set<nat> {
    Range(w.StartMinute(), w.EndMinute())
  }

  predicate Inside(lo: int, m: int, hi: int) {
    lo <= m < hi
  }

  lemma {:induction false} RangeSize(lo: nat, hi: nat)
    ensures |Range(lo, hi)| == if lo <= hi then hi - lo else 0
    decreases hi - lo
  {
    if lo < hi {
      RangeSize(lo, hi - 1);
      assert Range(lo, hi) == Range(lo, hi - 1) + {hi - 1};
    } else {
      assert Range(lo, hi) == {};
    }
  }

  lemma SplitFirst(ws: seq<TimeWindow>)
    requires ws != []
    ensures Minutes(ws) == WindowRange(ws[0]) + Minutes(ws[1..])
    ensures Normal(ws) ==> WindowRange(ws[0]) !! Minutes(ws[1..])
  {
    assert ws == [ws[0]] + ws[1..];
    MinutesOfConcat([ws[0]], ws[1..]);
    forall m: nat ensures m in Minutes([ws[0]]) <==> m in WindowRange(ws[0]) {
      SingletonCovers(ws[0], m);
    }
    if Normal(ws) {
      forall m: int { TailCovers(ws, m); }
    }
  }

  /** A normal list's durations add up to the number of minutes it covers. */
  lemma {:induction false} TotalCountsMinutes(ws: seq<TimeWindow>)
    requires Normal(ws)
    ensures TotalMinutes(ws) == |Minutes(ws)|
  {
    if ws != [] {
      SplitFirst(ws);
      TotalCountsMinutes(ws[1..]);
      RangeSize(ws[0].StartMinute(), ws[0].EndMinute());
    }
  }

  lemma OverlapCountsRange(a: TimeWindow, b: TimeWindow)
    ensures WindowOverlap(a, b) ==
            |WindowRange(a) * WindowRange(b)|
  {
    var lo, hi := Max(a.StartMinute(), b.StartMinute()), Min(a.EndMinute(), b.EndMinute());
    assert WindowRange(a) * WindowRange(b) == Range(lo, hi);
    RangeSize(lo, hi);
  }

  lemma {:induction false} OverlapOneCounts(w: TimeWindow, bs: seq<TimeWindow>)
    requires Normal(bs)
    ensures OverlapWithOne(w, bs) == |WindowRange(w) * Minutes(bs)|
  {
    hide Minutes, WindowRange, WindowOverlap, Window.StartMinute, Window.EndMinute;
    if bs == [] {
      NonemptyCovers(bs);
    } else {
      SplitFirst(bs);
      OverlapOneCounts(w, bs[1..]);
      OverlapCountsRange(w, bs[0]);
      var r, first := WindowRange(w), WindowRange(bs[0]);
      assert r * Minutes(bs) == r * first + r * Minutes(bs[1..]);
    }
  }

  /** The pairwise overlap sum counts every shared minute exactly once. */
  lemma {:induction false} OverlapCountsSharedMinutes(xs: seq<TimeWindow>, ys: seq<TimeWindow>)
    requires Normal(xs) && Normal(ys)
    ensures OverlapTotal(xs, ys) == |Minutes(xs) * Minutes(ys)|
  {
    hide Minutes, WindowRange, OverlapWithOne, Window.StartMinute, Window.EndMinute;
    if xs == [] {
      NonemptyCovers(xs);
    } else {
      SplitFirst(xs);
      OverlapCountsSharedMinutes(xs[1..], ys);
      OverlapOneCounts(xs[0], ys);
      var first := WindowRange(xs[0]);
      assert Minutes(xs) * Minutes(ys) == first * Minutes(ys) + Minutes(xs[1..]) * Minutes(ys);
    }
  }

  // -------------------------------------------------------------- intersection

  lemma {:induction false} SharedWithOneMinutes(w: TimeWindow, bs: seq<TimeWindow>)
    ensures Minutes(SharedWithOne(w, bs)) == WindowRange(w) * Minutes(bs)
  {
    if bs != [] {
      SharedWithOneMinutes(w, bs[1..]);
      SplitFirst(bs);
      var x := IntersectWindows(w, bs[0]);
      var head := if x.Some? then [x.value] else [];
      MinutesOfConcat(head, SharedWithOne(w, bs[1..]));
      var shared := WindowRange(w) * WindowRange(bs[0]);
      forall m: nat ensures m in Minutes(head) <==> m in shared {
        if x.Some? {
          SingletonCovers(x.value, m);
          assert x.value.Covers(m) <==> w.Covers(m) && bs[0].Covers(m);
        } else {
          assert !(w.Covers(m) && bs[0].Covers(m));
        }
      }
    }
  }

  lemma {:induction false} SharedWindowsMinutes(xs: seq<TimeWindow>, ys: seq<TimeWindow>)
    ensures Minutes(SharedWindows(xs, ys)) == Minutes(xs) * Minutes(ys)
  {
    if xs != [] {
      SharedWindowsMinutes(xs[1..], ys);
      SharedWithOneMinutes(xs[0], ys);
      SplitFirst(xs);
      MinutesOfConcat(SharedWithOne(xs[0], ys), SharedWindows(xs[1..], ys));
    }
  }

  /** Intersecting schedules intersects their minutes, and the overlap is the intersection's total. */
  lemma IntersectionMeaning(a: WeeklySchedule, b: WeeklySchedule)
    ensures a.timezone != b.timezone ==> Intersection(a, b).Err? && OverlapMinutes(a, b).Err?
    ensures a.timezone == b.timezone ==>
              && Intersection(a, b).Ok?
              && Intersection(a, b).value.timezone == a.timezone
              && Minutes(Intersection(a, b).value.windows) == Minutes(a.windows) * Minutes(b.windows)
              && OverlapMinutes(a, b) == Ok(|Minutes(a.windows) * Minutes(b.windows)|)
              && OverlapMinutes(a, b) == Ok(TotalMinutes(Intersection(a, b).value.windows))
  {
    SharedWindowsMinutes(a.windows, b.windows);
    OverlapCountsSharedMinutes(a.windows, b.windows);
    TotalCountsMinutes(Normalise(SharedWindows(a.windows, b.windows)));
  }

  /** Intersection is commutative as a value, not only as a set. */
  lemma IntersectionCommutes(a: WeeklySchedule, b: WeeklySchedule)
    requires a.timezone == b.timezone
    ensures Intersection(a, b) == Intersection(b, a)
  {
    IntersectionMeaning(a, b);
    IntersectionMeaning(b, a);
    NormalFormIsUnique(Intersection(a, b).value.windows, Intersection(b, a).value.windows);
  }

  lemma IntersectionAssociates(a: WeeklySchedule, b: WeeklySchedule, c: WeeklySchedule)
    requires a.timezone == b.timezone == c.timezone
    ensures Intersection(Intersection(a, b).value, c) == Intersection(a, Intersection(b, c).value)
  {
    var ab, bc := Intersection(a, b).value, Intersection(b, c).value;
    IntersectionMeaning(a, b);
    IntersectionMeaning(b, c);
    IntersectionMeaning(ab, c);
    IntersectionMeaning(a, bc);
    NormalFormIsUnique(Intersection(ab, c).value.windows, Intersection(a, bc).value.windows);
  }

  lemma IntersectionIdempotent(a: WeeklySchedule)
    ensures Intersection(a, a) == Ok(a)
  {
    IntersectionMeaning(a, a);
    NormalFormIsUnique(Intersection(a, a).value.windows, a.windows);
  }

  /** Windows where a proposed schedule collides with commitments: none exactly when no minute is shared. */
  lemma ConflictsAreSharedMinutes(proposed: WeeklySchedule, commitments: WeeklySchedule)
    requires proposed.timezone == commitments.timezone
    ensures Intersection(proposed, commitments).value.windows == [] <==>
            Minutes(proposed.windows) !! Minutes(commitments.windows)
  {
    IntersectionMeaning(proposed, commitments);
    var shared := Intersection(proposed, commitments).value.windows;
    NonemptyCovers(shared);
    if Minutes(shared) == {} {
      forall m | m in Minutes(proposed.windows) ensures m !in Minutes(commitments.windows) {
        assert m !in Minutes(proposed.windows) * Minutes(commitments.windows);
      }
    }
  }
}
