/** The implementation roadmap (src/components/Results/ImplementationRoadmap.tsx): the duration
    read from a module's `implementationTime`, the staggered placement of the top three
    modules, the length of the timeline with its month labels, and the implementation tips. */
module Roadmap {
  import opened Wrappers
  import opened Text
  import opened Answers
  import opened Catalog
  import opened RecommendationEngine
  import opened Results

  // Reading a duration: `timeframe.match(/(\d+)-(\d+)/)`.

  /** The two groups of `(\d+)-(\d+)` when a match starts at `i`: the whole run of digits
      from `i`, a '-', and the whole run of digits after it. */
  function RangeAt(s: string, i: nat): (r: Option<(string, string)>)
    requires i <= |s|
    ensures Groups(r)
  {
    var a := RunLength(s, i, false);
    if a > 0 && i + a < |s| && s[i + a] == '-' then
      var b := RunLength(s, i + a + 1, false);
      if b > 0 then Some((s[i..i + a], s[i + a + 1..i + a + 1 + b])) else None
    else None
  }

  ghost predicate Groups(r: Option<(string, string)>) {
    r.Some? ==> |r.value.0| > 0 && AllDigits(r.value.0) && |r.value.1| > 0 && AllDigits(r.value.1)
  }

  /** The leftmost match at or after `i` (FindRangeLeftmost). */
  function FindRange(s: string, i: nat): (r: Option<(string, string)>)
    requires i <= |s|
    ensures Groups(r)
    decreases |s| - i
  {
    if i == |s| then None
    else if RangeAt(s, i).Some? then RangeAt(s, i)
    else FindRange(s, i + 1)
  }

  /** FindRange finds the match that starts leftmost, or reports that none starts anywhere. */
  lemma FindRangeLeftmost(s: string, i: nat)
    requires i <= |s|
    ensures FindRange(s, i).None? ==> forall j :: i <= j <= |s| ==> RangeAt(s, j).None?
    ensures FindRange(s, i).Some? ==> exists k :: (i <= k < |s| && RangeAt(s, k) == FindRange(s, i)
      && forall j :: i <= j < k ==> RangeAt(s, j).None?)
  {
    if FindRange(s, i).None? {
      FindRangeNone(s, i);
    } else {
      var k := FindRangeSome(s, i);
    }
  }

  lemma {:induction false} FindRangeNone(s: string, i: nat)
    requires i <= |s| && FindRange(s, i).None?
    ensures forall j :: i <= j <= |s| ==> RangeAt(s, j).None?
    decreases |s| - i
  {
    if i < |s| {
      FindRangeStep(s, i);
      FindRangeNone(s, i + 1);
    }
  }

  /** The index where the match FindRange returns starts. */
  lemma {:induction false} FindRangeSome(s: string, i: nat) returns (k: nat)
    requires i <= |s| && FindRange(s, i).Some?
    ensures i <= k < |s| && RangeAt(s, k) == FindRange(s, i)
    ensures forall j :: i <= j < k ==> RangeAt(s, j).None?
    decreases |s| - i
  {
    if i == |s| {
      assert false;
    } else if RangeAt(s, i).Some? {
      FindRangeStep(s, i);
      k := i;
    } else {
      FindRangeStep(s, i);
      k := FindRangeSome(s, i + 1);
      forall j | i <= j < k ensures RangeAt(s, j).None? {
        if j > i {
          assert i + 1 <= j < k;
        }
      }
    }
  }

  /** One step of the search: a match at `i` is the answer, otherwise the search moves on. */
  lemma FindRangeStep(s: string, i: nat)
    requires i < |s|
    ensures RangeAt(s, i).Some? ==> FindRange(s, i) == RangeAt(s, i)
    ensures RangeAt(s, i).None? ==> FindRange(s, i) == FindRange(s, i + 1)
  {
  }

  /** `getMonthsFromTimeframe`: the midpoint of the first `<low>-<high>` range, else 3. The
      groups are pure digit strings, so `parseInt` reads their decimal values
      (ParseIntOfDigits). */
  function MonthsFromTimeframe(timeframe: string): (months: real)
    ensures months >= 0.0
    ensures FindRange(timeframe, 0).None? ==> months == 3.0
  {
    match FindRange(timeframe, 0)
    case Some((low, high)) => (DecimalValue(low) + DecimalValue(high)) as real / 2.0
    case None => 3.0
  }

  /** `parseInt` of a non-empty digit string is its decimal value. */
  lemma ParseIntOfDigits(d: string)
    requires |d| > 0 && AllDigits(d)
    ensures ParseInt(d) == Some(DecimalValue(d) as int)
  {
    assert TrimStart(d) == d;
    RunLengthUpTo(d, 0, |d|, false);
    assert d[..|d|] == d;
    RadixValueDecimal(d);
  }

  lemma RangeAtRuns(s: string, i: nat, low: string, high: string)
    requires i <= |s| && |low| == RunLength(s, i, false) && |low| > 0
    requires i + |low| < |s| && s[i + |low|] == '-'
    requires |high| == RunLength(s, i + |low| + 1, false) && |high| > 0
    requires s[i..i + |low|] == low && s[i + |low| + 1..i + |low| + 1 + |high|] == high
    ensures RangeAt(s, i) == Some((low, high))
  {
  }

  lemma FindRangeHere(s: string, i: nat)
    requires i < |s| && RangeAt(s, i).Some?
    ensures FindRange(s, i) == RangeAt(s, i)
  {
  }

  lemma MonthsOfMatch(t: string, low: string, high: string)
    requires FindRange(t, 0) == Some((low, high))
    ensures MonthsFromTimeframe(t) == (DecimalValue(low) + DecimalValue(high)) as real / 2.0
  {
  }

  /** A range written out in decimal is read back: its midpoint is the duration, whatever
      follows the second number. */
  lemma MonthsOfRange(low: nat, high: nat, rest: string)
    requires rest == [] || !IsDigit(rest[0])
    ensures MonthsFromTimeframe(Show(low) + ("-" + (Show(high) + rest))) == (low + high) as real / 2.0
  {
    var lo := Show(low);
    var hi := Show(high);
    RangeOfWritten(lo, hi, rest);
    MonthsOfMatch(lo + ("-" + (hi + rest)), lo, hi);
    DecimalValueShow(low);
    DecimalValueShow(high);
  }

  /** Two digit strings joined by '-' are the leftmost match, group for group. */
  lemma RangeOfWritten(lo: string, hi: string, rest: string)
    requires |lo| > 0 && AllDigits(lo) && |hi| > 0 && AllDigits(hi)
    requires rest == [] || !IsDigit(rest[0])
    ensures FindRange(lo + ("-" + (hi + rest)), 0) == Some((lo, hi))
  {
    var s := lo + ("-" + (hi + rest));
    WrittenRuns(lo, hi, rest, s);
    RangeAtRuns(s, 0, lo, hi);
    FindRangeHere(s, 0);
  }

  lemma WrittenRuns(lo: string, hi: string, rest: string, s: string)
    requires |lo| > 0 && AllDigits(lo) && |hi| > 0 && AllDigits(hi)
    requires rest == [] || !IsDigit(rest[0])
    requires s == lo + ("-" + (hi + rest))
    ensures RunLength(s, 0, false) == |lo| && s[|lo|] == '-'
    ensures RunLength(s, |lo| + 1, false) == |hi|
    ensures s[0..|lo|] == lo && s[|lo| + 1..|lo| + 1 + |hi|] == hi
  {
    WrittenSlices(lo, hi, rest, s);
    DigitRun(lo, s, 0);
    DigitRun(hi, s, |lo| + 1);
  }

  lemma WrittenSlices(lo: string, hi: string, rest: string, s: string)
    requires s == lo + ("-" + (hi + rest))
    ensures |s| == |lo| + 1 + |hi| + |rest|
    ensures s[0..|lo|] == lo && s[|lo|] == '-'
    ensures s[|lo| + 1..|lo| + 1 + |hi|] == hi
    ensures rest != [] ==> s[|lo| + 1 + |hi|] == rest[0]
  {
    var tail := "-" + (hi + rest);
    assert s[|lo|..] == tail;
    assert tail[1..] == hi + rest;
    assert s[|lo| + 1..] == hi + rest;
    assert (hi + rest)[..|hi|] == hi;
  }

  /** A digit string `d` found at `i` and followed by a non-digit (or the end) is the run
      of digits from `i`. */
  lemma DigitRun(d: string, s: string, i: nat)
    requires AllDigits(d) && i + |d| <= |s| && s[i..i + |d|] == d
    requires i + |d| == |s| || !IsDigit(s[i + |d|])
    ensures RunLength(s, i, false) == |d|
  {
    forall k | i <= k < i + |d| ensures IsRadixDigit(s[k], false) {
      assert s[k] == d[k - i];
    }
    RunLengthUpTo(s, i, i + |d|, false);
  }

  /** A timeframe that starts with `<digit>-<digit>` and no third digit. */
  lemma MonthsOfDigitPair(t: string)
    requires |t| >= 3 && IsDigit(t[0]) && t[1] == '-' && IsDigit(t[2])
    requires |t| == 3 || !IsDigit(t[3])
    ensures MonthsFromTimeframe(t) == ((t[0] as int - '0' as int) + (t[2] as int - '0' as int)) as real / 2.0
  {
    RunLengthUpTo(t, 0, 1, false);
    RunLengthUpTo(t, 2, 3, false);
    RangeAtRuns(t, 0, t[0..1], t[2..3]);
    FindRangeHere(t, 0);
    MonthsOfMatch(t, t[0..1], t[2..3]);
    assert DecimalValue(t[0..1]) == t[0] as int - '0' as int by {
      assert t[0..1][..0] == [];
    }
    assert DecimalValue(t[2..3]) == t[2] as int - '0' as int by {
      assert t[2..3][..0] == [];
    }
  }

  /** The durations of the first five catalog modules: 4.5, 6, 5.5, 3.5 and 4.5 months. */
  lemma CatalogDurations()
    ensures MonthsFromTimeframe(Modules[0].implementationTime) == 4.5
    ensures MonthsFromTimeframe(Modules[1].implementationTime) == 6.0
    ensures MonthsFromTimeframe(Modules[2].implementationTime) == 5.5
    ensures MonthsFromTimeframe(Modules[3].implementationTime) == 3.5
    ensures MonthsFromTimeframe(Modules[4].implementationTime) == 4.5
  {
    CatalogTimes();
    TimeframeDurations();
  }

  /** The timeframes of the catalog, read. */
  lemma TimeframeDurations()
    ensures MonthsFromTimeframe("3-6 months") == 4.5
    ensures MonthsFromTimeframe("4-8 months") == 6.0
    ensures MonthsFromTimeframe("4-7 months") == 5.5
    ensures MonthsFromTimeframe("2-5 months") == 3.5
  {
    MonthsOfDigitPair("3-6 months");
    MonthsOfDigitPair("4-8 months");
    MonthsOfDigitPair("4-7 months");
    MonthsOfDigitPair("2-5 months");
  }

  /** The range read from a timeframe that starts with `<digit>-<digit>` and no third digit. */
  lemma DigitPairRange(t: string)
    requires |t| >= 3 && IsDigit(t[0]) && t[1] == '-' && IsDigit(t[2])
    requires |t| == 3 || !IsDigit(t[3])
    ensures FindRange(t, 0) == Some(([t[0]], [t[2]]))
  {
    RunLengthUpTo(t, 0, 1, false);
    RunLengthUpTo(t, 2, 3, false);
    RangeAtRuns(t, 0, [t[0]], [t[2]]);
    FindRangeHere(t, 0);
  }

  /** Every catalog `implementationTime` holds a range whose low end is below its high end:
      3-6, 4-8, 4-7, 2-5 and 3-6 (app_engine's 1-6 is in AppEngineDuration). */
  lemma CatalogRanges()
    ensures FindRange(Modules[0].implementationTime, 0) == Some(("3", "6"))
    ensures FindRange(Modules[1].implementationTime, 0) == Some(("4", "8"))
    ensures FindRange(Modules[2].implementationTime, 0) == Some(("4", "7"))
    ensures FindRange(Modules[3].implementationTime, 0) == Some(("2", "5"))
    ensures FindRange(Modules[4].implementationTime, 0) == Some(("3", "6"))
  {
    CatalogTimes();
    TimeframeRanges();
  }

  lemma TimeframeRanges()
    ensures FindRange("3-6 months", 0) == Some(("3", "6"))
    ensures FindRange("4-8 months", 0) == Some(("4", "8"))
    ensures FindRange("4-7 months", 0) == Some(("4", "7"))
    ensures FindRange("2-5 months", 0) == Some(("2", "5"))
  {
    DigitPairRange("3-6 months");
    DigitPairRange("4-8 months");
    DigitPairRange("4-7 months");
    DigitPairRange("2-5 months");
  }

  /** app_engine's "1-6 months (varies by app)" holds the range 1-6 and reads as 3.5 months. */
  lemma AppEngineDuration()
    ensures FindRange(Modules[5].implementationTime, 0) == Some(("1", "6"))
    ensures MonthsFromTimeframe(Modules[5].implementationTime) == 3.5
  {
    CatalogTimes();
    DigitPairRange("1-6 months (varies by app)");
    MonthsOfDigitPair("1-6 months (varies by app)");
  }

  // Placement: `getTimelinePosition`.

  datatype Span = Span(start: real, end: real)

  function Duration(m: RankedModule): real {
    MonthsFromTimeframe(m.entry.implementationTime)
  }

  /** Priority 1 starts at once; priority 2 starts half-way through the first module and
      priority 3 three quarters of the way; any other priority is an empty span at 0. The
      source reads `top[priority - 1]`, and `top[0]` for the offset, so those must exist. */
  function TimelinePosition(priority: int, top: seq<RankedModule>): (span: Span)
    requires 1 <= priority <= 3 ==> priority <= |top|
    ensures span.start >= 0.0 && span.end >= span.start
    ensures 1 <= priority <= 3 ==> span.end - span.start == Duration(top[priority - 1])
    ensures priority == 1 ==> span.start == 0.0
    ensures priority == 2 ==> span.start == Duration(top[0]) / 2.0
    ensures priority == 3 ==> span.start == 3.0 * Duration(top[0]) / 4.0
    ensures !(1 <= priority <= 3) ==> span == Span(0.0, 0.0)
  {
    if priority == 1 then Span(0.0, Duration(top[0]))
    else if priority == 2 then Span(Duration(top[0]) * 0.5, Duration(top[0]) * 0.5 + Duration(top[1]))
    else if priority == 3 then Span(Duration(top[0]) * 0.75, Duration(top[0]) * 0.75 + Duration(top[2]))
    else Span(0.0, 0.0)
  }

  /** Modules whose priorities can be placed against `top`. */
  predicate Placeable(top: seq<RankedModule>) {
    forall i :: 0 <= i < |top| ==> (1 <= top[i].priority <= 3 ==> top[i].priority <= |top|)
  }

  /** The end of every module's span. */
  function Ends(top: seq<RankedModule>): (ends: seq<real>)
    requires Placeable(top)
    ensures |ends| == |top|
  {
    seq(|top|, i requires 0 <= i < |top| => TimelinePosition(top[i].priority, top).end)
  }

  /** `Math.max(...xs)` of a non-empty list. */
  function MaxOf(xs: seq<real>): (m: real)
    requires |xs| > 0
    ensures m in xs
    ensures forall i :: 0 <= i < |xs| ==> xs[i] <= m
  {
    if |xs| == 1 then xs[0]
    else
      var m := MaxOf(xs[..|xs| - 1]);
      if xs[|xs| - 1] > m then xs[|xs| - 1] else m
  }

  /** `Math.ceil`: the least integer at or above `x`. */
  function Ceil(x: real): (n: int)
    ensures n as real >= x && (n - 1) as real < x
  {
    if x.Floor as real == x then x.Floor else x.Floor + 1
  }

  /** `totalMonths`: `Math.ceil` of the latest end (TotalMonthsCovers). */
  function TotalMonths(top: seq<RankedModule>): (total: int)
    requires |top| > 0 && Placeable(top)
  {
    Ceil(MaxOf(Ends(top)))
  }

  /** The timeline is the first whole month at or after every module's end: it reaches
      every end, and one month less would cut some module short. */
  lemma TotalMonthsCovers(top: seq<RankedModule>)
    requires |top| > 0 && Placeable(top)
    ensures TotalMonths(top) >= 0
    ensures forall i :: 0 <= i < |top| ==> TimelinePosition(top[i].priority, top).end <= TotalMonths(top) as real
    ensures exists i :: 0 <= i < |top| && (TotalMonths(top) - 1) as real < TimelinePosition(top[i].priority, top).end
  {
    var ends := Ends(top);
    var m := MaxOf(ends);
    var i :| 0 <= i < |ends| && ends[i] == m;
    assert TimelinePosition(top[i].priority, top).end == m;
    forall j | 0 <= j < |top| ensures TimelinePosition(top[j].priority, top).end <= TotalMonths(top) as real {
      assert ends[j] == TimelinePosition(top[j].priority, top).end;
    }
  }

  /** `monthLabels`: "Month 0" to "Month total". */
  function MonthLabels(total: nat): (labels: seq<string>)
    ensures |labels| == total + 1
    ensures forall i :: 0 <= i < |labels| ==> labels[i] == "Month " + Show(i)
  {
    seq(total + 1, i requires 0 <= i <= total => "Month " + Show(i))
  }

  /** No two labels are the same. */
  lemma MonthLabelsDistinct(total: nat)
    ensures forall i, j :: 0 <= i < j < |MonthLabels(total)| ==> MonthLabels(total)[i] != MonthLabels(total)[j]
  {
    var labels := MonthLabels(total);
    forall i, j | 0 <= i < j < |labels| ensures labels[i] != labels[j] {
      if labels[i] == labels[j] {
        assert Show(i) == labels[i][6..] && Show(j) == labels[j][6..];
        ShowInjective(i, j);
      }
    }
  }

  // Drawing the bars: `position.start / totalMonths * 100` and the width likewise.

  /** A bar's left edge and width, in percent of the timeline. */
  function BarPercent(span: Span, total: int): (bar: (real, real))
    requires total > 0
  {
    (span.start / total as real * 100.0, (span.end - span.start) / total as real * 100.0)
  }

  /** A bar drawn on a timeline at least as long as its end starts inside it and ends by
      its right edge. */
  lemma BarFits(span: Span, total: int)
    requires total > 0 && 0.0 <= span.start <= span.end <= total as real
    ensures 0.0 <= BarPercent(span, total).0
    ensures 0.0 <= BarPercent(span, total).1
    ensures BarPercent(span, total).0 + BarPercent(span, total).1 <= 100.0
  {
    var t := total as real;
    var bar := BarPercent(span, total);
    assert bar.0 + bar.1 == span.end / t * 100.0;
    assert span.end / t <= 1.0;
  }

  /** Every top module's bar lies within the drawn timeline. */
  lemma BarsWithinTimeline(top: seq<RankedModule>)
    requires |top| > 0 && Placeable(top) && TotalMonths(top) > 0
    ensures forall i :: 0 <= i < |top| ==>
      var bar := BarPercent(TimelinePosition(top[i].priority, top), TotalMonths(top));
      0.0 <= bar.0 && 0.0 <= bar.1 && bar.0 + bar.1 <= 100.0
  {
    TotalMonthsCovers(top);
    forall i | 0 <= i < |top|
      ensures var bar := BarPercent(TimelinePosition(top[i].priority, top), TotalMonths(top));
        0.0 <= bar.0 && 0.0 <= bar.1 && bar.0 + bar.1 <= 100.0
    {
      BarFits(TimelinePosition(top[i].priority, top), TotalMonths(top));
    }
  }

  /** The top of any ranking can be placed: its priorities are 1, 2 and 3. */
  lemma RankedTopPlaceable(answers: seq<Answer>)
    ensures |TopModules(Recommendations(answers))| == 3
    ensures Placeable(TopModules(Recommendations(answers)))
  {
    TopOfRanking(answers);
  }

  /** With no answers the top three are itsm, itom and itbm: they run over months 0-4.5,
      2.25-8.25 and 3.375-8.875, so the timeline is 9 months long with ten labels. */
  lemma NoAnswersTimeline()
    ensures var top := TopModules(Recommendations([]));
      |top| == 3 && Placeable(top)
      && TimelinePosition(1, top) == Span(0.0, 4.5)
      && TimelinePosition(2, top) == Span(2.25, 8.25)
      && TimelinePosition(3, top) == Span(3.375, 8.875)
      && TotalMonths(top) == 9 && |MonthLabels(TotalMonths(top))| == 10
  {
    var top := TopModules(Recommendations([]));
    NoAnswersDurations();
    Staggered(top, 4.5, 6.0, 5.5);
    NineMonths();
    TimelineOfEnds(top, [4.5, 8.25, 8.875], 9);
  }

  /** With no answers the top three are ranked 1 to 3 and last 4.5, 6 and 5.5 months. */
  lemma NoAnswersDurations()
    ensures var top := TopModules(Recommendations([]));
      |top| == 3 && (forall k :: 0 <= k < 3 ==> top[k].priority == k + 1)
      && Duration(top[0]) == 4.5 && Duration(top[1]) == 6.0 && Duration(top[2]) == 5.5
  {
    NoAnswersTop();
    CatalogDurations();
    TopDurations(TopModules(Recommendations([])), Modules[0], Modules[1], Modules[2]);
  }

  lemma TopDurations(top: seq<RankedModule>, m0: Module, m1: Module, m2: Module)
    requires top == [RankedModule(m0, 0, 1), RankedModule(m1, 0, 2), RankedModule(m2, 0, 3)]
    ensures |top| == 3 && forall k :: 0 <= k < 3 ==> top[k].priority == k + 1
    ensures Duration(top[0]) == MonthsFromTimeframe(m0.implementationTime)
    ensures Duration(top[1]) == MonthsFromTimeframe(m1.implementationTime)
    ensures Duration(top[2]) == MonthsFromTimeframe(m2.implementationTime)
  {
  }

  /** The timeline length from a known list of ends. */
  lemma TimelineOfEnds(top: seq<RankedModule>, ends: seq<real>, total: int)
    requires |top| > 0 && Placeable(top) && Ends(top) == ends
    requires |ends| == 3 && Ceil(MaxOf(ends)) == total
    ensures TotalMonths(top) == total
  {
  }

  lemma NineMonths()
    ensures Ceil(MaxOf([4.5, 8.25, 8.875])) == 9
  {
    assert [4.5, 8.25, 8.875][..2] == [4.5, 8.25];
    assert [4.5, 8.25][..1] == [4.5];
  }

  lemma NoAnswersTop()
    ensures TopModules(Recommendations([]))
      == [RankedModule(Modules[0], 0, 1), RankedModule(Modules[1], 0, 2), RankedModule(Modules[2], 0, 3)]
  {
    NoAnswersCatalogOrder();
  }

  /** Three modules ranked 1, 2, 3 whose durations are d0, d1 and d2. */
  lemma Staggered(top: seq<RankedModule>, d0: real, d1: real, d2: real)
    requires |top| == 3 && forall k :: 0 <= k < 3 ==> top[k].priority == k + 1
    requires Duration(top[0]) == d0 && Duration(top[1]) == d1 && Duration(top[2]) == d2
    ensures Placeable(top)
    ensures TimelinePosition(1, top) == Span(0.0, d0)
    ensures TimelinePosition(2, top) == Span(d0 * 0.5, d0 * 0.5 + d1)
    ensures TimelinePosition(3, top) == Span(d0 * 0.75, d0 * 0.75 + d2)
    ensures Ends(top) == [d0, d0 * 0.5 + d1, d0 * 0.75 + d2]
  {
  }

  // Tips: `getImplementationTips`.

  /** The tips the roadmap can show, in the order they are added. */
  datatype Tip = IntegrationStrategy | ExecutiveDashboards | ProcessAutomation | PhasedImplementation

  function TipTitle(tip: Tip): (title: string) {
    match tip
    case IntegrationStrategy => "Integration Strategy"
    case ExecutiveDashboards => "Executive Dashboards"
    case ProcessAutomation => "Process Automation"
    case PhasedImplementation => "Phased Implementation"
  }

  /** The order in which the tips are checked. */
  function TipRank(tip: Tip): nat {
    match tip
    case IntegrationStrategy => 0
    case ExecutiveDashboards => 1
    case ProcessAutomation => 2
    case PhasedImplementation => 3
  }

  /** The three tips the answers can call for, and the general one when none applies; each
      at most once, in the order they are checked. */
  method GetImplementationTips(answers: seq<Answer>) returns (tips: seq<Tip>)
    ensures IntegrationStrategy in tips <==> exists a :: a in answers && IntegrationGap(a)
    ensures ExecutiveDashboards in tips <==> exists a :: a in answers && VisibilityBelow(a, 3)
    ensures ProcessAutomation in tips <==> exists a :: a in answers && ManualProcessesDescribed(a)
    ensures PhasedImplementation in tips <==> tips == [PhasedImplementation]
    ensures PhasedImplementation in tips <==> forall a :: a in answers ==>
      !IntegrationGap(a) && !VisibilityBelow(a, 3) && !ManualProcessesDescribed(a)
    ensures 1 <= |tips| <= 3
    ensures forall i, j :: 0 <= i < j < |tips| ==> TipRank(tips[i]) < TipRank(tips[j])
  {
    tips := [];
    if exists a | a in answers :: IntegrationGap(a) {
      tips := tips + [IntegrationStrategy];
    }
    if exists a | a in answers :: VisibilityBelow(a, 3) {
      tips := tips + [ExecutiveDashboards];
    }
    if exists a | a in answers :: ManualProcessesDescribed(a) {
      tips := tips + [ProcessAutomation];
    }
    if |tips| == 0 {
      tips := tips + [PhasedImplementation];
    }
  }

  /** The tip titles are the ones shown, and tell the tips apart. */
  lemma TipTitlesDistinct(x: Tip, y: Tip)
    ensures TipTitle(x) == TipTitle(y) <==> x == y
  {
    if x != y {
      assert TipTitle(x)[0] != TipTitle(y)[0] || TipTitle(x)[1] != TipTitle(y)[1];
    }
  }
}
