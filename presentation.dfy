/**
 * Two pieces of the dashboard's presentation (client/src/components.tsx):
 * which tasks the Gantt chart draws (1056-1067, fed by
 * client/src/App.tsx:432), and the urgency colour and "days left" label of
 * an upcoming item (1195-1239).
 */
module Presentation {
  import opened Wrappers
  import opened Lists
  import opened Sorting
  import opened Text
  import opened Dates
  import opened Domain
  import opened Dashboard

  // ------------------------------------------------------------ Gantt chart

  const GanttSize: nat := 15

  /** Latest end first: the comparator `end(b) - end(a)`. */
  function LatestFirst(): (Task, Task) -> bool {
    Descending(EndKey)
  }

  /** `chartTasks`: sorted by end date, latest first, cut to fifteen, then reversed. */
  function GanttSelection(tasks: seq<Task>): seq<Task> {
    Reverse(Take(Sort(tasks, LatestFirst()), GanttSize))
  }

  /**
   * The chart shows fifteen of the tasks (all of them when there are fewer),
   * earliest end first, and they are the latest-ending ones: every task
   * left out ends no later than every task shown.
   */
  lemma GanttSelectionSpec(tasks: seq<Task>)
    ensures var r := GanttSelection(tasks);
      && |r| == (if |tasks| <= GanttSize then |tasks| else GanttSize)
      && multiset(r) <= multiset(tasks)
      && (forall i, j :: 0 <= i < j < |r| ==> EndKey(r[i]) <= EndKey(r[j]))
      && (forall t :: multiset(r)[t] < multiset(tasks)[t] ==>
            forall i :: 0 <= i < |r| ==> EndKey(t) <= EndKey(r[i]))
  {
    var s := Sort(tasks, LatestFirst());
    var k := |Take(s, GanttSize)|;
    assert Take(s, GanttSize) == s[..k];
    LatestFirstSorted(tasks);
    ReversedTop(s, k);
    LeftOutAfterTop(s, k);
  }

  /** What the reversed top `k` misses of a sequence lies after position `k`; they are a sub-multiset of it. */
  lemma LeftOutAfterTop<T>(s: seq<T>, k: nat)
    requires k <= |s|
    ensures var r := Reverse(s[..k]);
      && multiset(r) <= multiset(s)
      && forall t :: multiset(r)[t] < multiset(s)[t] ==> exists j :: k <= j < |s| && s[j] == t
  {
    var top, rest := s[..k], s[k..];
    ReverseMultiset(top);
    assert s == top + rest;
    forall t | multiset(Reverse(top))[t] < multiset(s)[t]
      ensures exists j :: k <= j < |s| && s[j] == t
    {
      assert t in multiset(rest);
      var jj :| 0 <= jj < |rest| && rest[jj] == t;
      assert s[k + jj] == t;
    }
  }

  /** End dates never increase along the sequence. */
  predicate EndDescending(s: seq<Task>) {
    forall i, j :: 0 <= i < j < |s| ==> EndKey(s[i]) >= EndKey(s[j])
  }

  lemma LatestFirstSorted(tasks: seq<Task>)
    ensures EndDescending(Sort(tasks, LatestFirst()))
  {
    DescendingIsTotalPreorder(EndKey);
    SortSorted(tasks, LatestFirst());
  }

  /** The first `k` of a latest-first sequence, reversed, run earliest first and end no earlier than anything after them. */
  lemma ReversedTop(s: seq<Task>, k: nat)
    requires EndDescending(s) && k <= |s|
    ensures var r := Reverse(s[..k]);
      && (forall i, j :: 0 <= i < j < |r| ==> EndKey(r[i]) <= EndKey(r[j]))
      && (forall j, i :: k <= j < |s| && 0 <= i < |r| ==> EndKey(s[j]) <= EndKey(r[i]))
  {
    var r := Reverse(s[..k]);
    assert forall i :: 0 <= i < |r| ==> r[i] == s[k - 1 - i];
  }

  /** The dashboard as written hands the chart only the first fifteen tasks of the list. */
  function DashboardGanttAsWritten(tasks: seq<Task>): seq<Task> {
    GanttSelection(Take(tasks, GanttSize))
  }

  /** The chart as its heading and its own selection intend: the fifteen latest-ending tasks of all of them. */
  function DashboardGantt(tasks: seq<Task>): seq<Task> {
    GanttSelection(tasks)
  }

  /**
   * With more than fifteen tasks, a sixteenth task that ends after every
   * other one is left off the chart as written, while the intended chart
   * shows it.
   */
  lemma GanttMissesLatest(tasks: seq<Task>)
    requires |tasks| > GanttSize
    requires forall i :: 0 <= i < |tasks| && i != GanttSize ==> EndKey(tasks[i]) < EndKey(tasks[GanttSize])
    ensures tasks[GanttSize] !in DashboardGanttAsWritten(tasks)
    ensures tasks[GanttSize] in DashboardGantt(tasks)
  {
    var t := tasks[GanttSize];
    var first := Take(tasks, GanttSize);
    GanttSelectionSpec(first);
    assert forall i :: 0 <= i < |first| ==> first[i] != t by {
      forall i | 0 <= i < |first|
        ensures first[i] != t
      {
        assert first[i] == tasks[i];
      }
    }
    assert multiset(first)[t] == 0;
    assert multiset(DashboardGanttAsWritten(tasks))[t] == 0;

    GanttSelectionSpec(tasks);
    var r := DashboardGantt(tasks);
    var x := r[0];
    assert x in multiset(r);
    var i :| 0 <= i < |tasks| && tasks[i] == x;
    if i != GanttSize {
      assert EndKey(x) < EndKey(t);
      assert t in multiset(tasks);
      assert multiset(r)[t] >= multiset(tasks)[t];
      assert t in multiset(r);
    }
  }

  // --------------------------------------------------------------- urgency

  /** An upcoming item: a task, dated by its end date, or a meeting, dated by its date. */
  datatype Item = TaskItem(task: Task) | MeetingItem(meeting: Meeting)

  function ItemDate(item: Item): Option<int> {
    match item
    case TaskItem(t) => ParseInstant(t.endDate)
    case MeetingItem(m) => ParseInstant(m.date)
  }

  /** `Math.ceil(a / b)` for a positive `b`. */
  function CeilDiv(a: int, b: int): (q: int)
    requires b > 0
    ensures (q - 1) * b < a <= q * b
  {
    -((-a) / b)
  }

  /**
   * `daysRemaining`: the whole number of days, rounded up, from `now` to the
   * item's date; `None` is NaN, for a date that does not parse.
   */
  function DaysRemaining(item: Item, now: int): (r: Option<int>)
    ensures r.None? <==> ItemDate(item).None?
    ensures r.Some? ==> (r.value - 1) * MsPerDay < ItemDate(item).value - now <= r.value * MsPerDay
  {
    match ItemDate(item)
    case None => None
    case Some(t) => Some(CeilDiv(t - now, MsPerDay))
  }

  datatype Urgency = Green | Yellow | Red

  /** The item counts as overdue: no days remain and it is a meeting or a task not yet completed. */
  predicate OverdueStyle(item: Item, d: int) {
    d <= 0 && (item.MeetingItem? || item.task.status != Completed)
  }

  /** `urgencyColor` for `daysRemaining`; every comparison with NaN is false, which leaves green. */
  function ColorFor(item: Item, days: Option<int>): (u: Urgency)
    ensures u == Red <==> days.Some? && OverdueStyle(item, days.value)
    ensures u == Yellow <==> days.Some? && days.value <= 3 && !OverdueStyle(item, days.value)
  {
    match days
    case None => Green
    case Some(d) => if OverdueStyle(item, d) then Red else if d <= 3 then Yellow else Green
  }

  function UrgencyColor(item: Item, now: int): Urgency {
    ColorFor(item, DaysRemaining(item, now))
  }

  /** How urgent a colour reads. */
  function Severity(u: Urgency): nat {
    match u
    case Green => 0
    case Yellow => 1
    case Red => 2
  }

  /** The colour only gets more urgent as fewer days remain. */
  lemma ColorMonotone(item: Item, d1: int, d2: int)
    requires d1 <= d2
    ensures Severity(ColorFor(item, Some(d1))) >= Severity(ColorFor(item, Some(d2)))
  {
  }

  /** A completed task is never shown red, however late; past its end it reads yellow. */
  lemma CompletedNeverRed(t: Task, now: int)
    requires t.status == Completed
    ensures UrgencyColor(TaskItem(t), now) != Red
    ensures DaysRemaining(TaskItem(t), now).Some? && DaysRemaining(TaskItem(t), now).value <= 0 ==>
      UrgencyColor(TaskItem(t), now) == Yellow
  {
  }

  /** A meeting or open task whose date is not after `now` is red. */
  lemma PastIsRed(item: Item, now: int)
    requires ItemDate(item).Some? && ItemDate(item).value <= now
    requires item.MeetingItem? || item.task.status != Completed
    ensures UrgencyColor(item, now) == Red
  {
    var d := DaysRemaining(item, now).value;
    assert (d - 1) * MsPerDay < 0;
  }

  /** An item dated a day and a half ahead is yellow. */
  lemma TomorrowIsYellow(item: Item, now: int)
    requires ItemDate(item).Some? && ItemDate(item).value == now + MsPerDay + MsPerDay / 2
    ensures DaysRemaining(item, now) == Some(2)
    ensures UrgencyColor(item, now) == Yellow
  {
    assert CeilDiv(MsPerDay + MsPerDay / 2, MsPerDay) == 2 by {
      assert -(MsPerDay + MsPerDay / 2) == -2 * MsPerDay + MsPerDay / 2;
    }
  }

  const OverduePrefix: string := "Overdue by "
  const LeftSuffix: string := "d left"

  /**
   * The label beside the date: shown only for `-30 < daysRemaining <= 7`,
   * "Overdue by |d|d" when the item counts as overdue, otherwise "{d}d left".
   */
  function LabelFor(item: Item, days: Option<int>): (r: Option<string>)
    ensures r.Some? <==> days.Some? && -30 < days.value <= 7
  {
    match days
    case None => None
    case Some(d) =>
      if d <= 7 && d > -30 then
        Some(if OverdueStyle(item, d) then OverduePrefix + NatToString(-d) + "d" else IntToString(d) + LeftSuffix)
      else None
  }

  function UrgencyLabel(item: Item, now: int): Option<string> {
    LabelFor(item, DaysRemaining(item, now))
  }

  /** A shown label says "Overdue" exactly when the colour is red. */
  lemma LabelAgreesWithColor(item: Item, days: Option<int>)
    requires LabelFor(item, days).Some?
    ensures StartsWith(LabelFor(item, days).value, OverduePrefix) <==> ColorFor(item, days) == Red
  {
    var d := days.value;
    var shown := LabelFor(item, days).value;
    if OverdueStyle(item, d) {
      assert shown[..|OverduePrefix|] == OverduePrefix;
    } else {
      var n := IntToString(d);
      assert shown == n + LeftSuffix;
      assert n[0] == '-' || IsDigit(n[0]);
      assert shown[0] == n[0];
      assert shown[0] != OverduePrefix[0];
    }
  }

  /** The number in a shown label is the count of days: read back, it gives `|d|` after "Overdue by " or `d` before "d left". */
  lemma LabelNumber(item: Item, d: int)
    requires -30 < d <= 7
    ensures OverdueStyle(item, d) ==>
      LabelFor(item, Some(d)) == Some(OverduePrefix + NatToString(-d) + "d") &&
      DigitsValue(NatToString(-d)) == -d
    ensures !OverdueStyle(item, d) ==> LabelFor(item, Some(d)) == Some(IntToString(d) + LeftSuffix)
  {
    if OverdueStyle(item, d) {
      NatToStringRoundTrip(-d);
    }
  }
}
