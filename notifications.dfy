/**
 * The overdue-task notifications of the client (client/src/App.tsx:304-339).
 * Whenever the task list changes, `Sync` recomputes the notification list
 * from the previous one: deadline warnings for tasks that are no longer
 * overdue are dropped, and a new unread warning is appended for every
 * overdue task that has none yet. `today` is local midnight and `stamp` the
 * `toISOString()` of the moment the effect runs, both passed in.
 */
module Notifications {
  import opened Wrappers
  import opened Lists
  import opened Text
  import opened Dates
  import opened Domain

  /** The word the synchroniser recognises its own warnings by ("deadline"). */
  const DeadlineWord: string := "마감"

  /** The message of an overdue warning: `태스크 "<name>" 마감일이 지났습니다.` */
  function OverdueMessage(name: string): string {
    "태스크 \"" + name + "\" " + DeadlineWord + "일이 지났습니다."
  }

  /** A task that is not completed and whose end date parses and lies before `today`. */
  predicate IsOverdue(t: Task, today: int) {
    t.status != Completed && Before(ParseInstant(t.endDate), today)
  }

  function OverdueTest(today: int): Task -> bool {
    (t: Task) => IsOverdue(t, today)
  }

  function OverdueTasks(tasks: seq<Task>, today: int): seq<Task> {
    Filter(tasks, OverdueTest(today))
  }

  /** A warning whose message mentions the deadline: the kind of notification the synchroniser manages. */
  predicate IsDeadlineNote(n: NotificationItem) {
    n.kind == Warning && Contains(n.message, DeadlineWord)
  }

  predicate RefersTo(n: NotificationItem, taskId: string) {
    n.relatedId == Some(taskId)
  }

  function CoveredTest(): NotificationItem -> bool {
    (n: NotificationItem) => IsDeadlineNote(n) && n.relatedId.Some?
  }

  function RelatedIdOf(n: NotificationItem): string {
    n.relatedId.GetOr("")
  }

  /** `existingIds`: the tasks that already have a deadline warning. */
  function ExistingIds(prev: seq<NotificationItem>): seq<string> {
    Map(Filter(prev, CoveredTest()), RelatedIdOf)
  }

  function TaskIdOf(t: Task): string {
    t.id
  }

  /** `stillOverdueIds`. */
  function StillOverdueIds(tasks: seq<Task>, today: int): seq<string> {
    Map(OverdueTasks(tasks, today), TaskIdOf)
  }

  /** The notification created for an overdue task. */
  function NewNote(t: Task, stamp: string): NotificationItem {
    NotificationItem(t.id + "-overdue", OverdueMessage(t.name), Warning, Some(t.id), false, stamp)
  }

  function UncoveredTest(existing: seq<string>): Task -> bool {
    (t: Task) => t.id !in existing
  }

  function NewNoteOf(stamp: string): Task -> NotificationItem {
    (t: Task) => NewNote(t, stamp)
  }

  /** `newNotis`: one notification per overdue task without one. */
  function NewNotes(prev: seq<NotificationItem>, tasks: seq<Task>, today: int, stamp: string): seq<NotificationItem> {
    Map(Filter(OverdueTasks(tasks, today), UncoveredTest(ExistingIds(prev))), NewNoteOf(stamp))
  }

  /** The test `filteredPrev` keeps a notification by. */
  predicate Keeps(n: NotificationItem, still: seq<string>) {
    !IsDeadlineNote(n) || (n.relatedId.Some? && n.relatedId.value in still)
  }

  function KeepTest(still: seq<string>): NotificationItem -> bool {
    (n: NotificationItem) => Keeps(n, still)
  }

  function KeptNotes(prev: seq<NotificationItem>, tasks: seq<Task>, today: int): seq<NotificationItem> {
    Filter(prev, KeepTest(StillOverdueIds(tasks, today)))
  }

  /** The state updater the effect passes to `setNotifications`: `[...filteredPrev, ...newNotis]`. */
  function Sync(prev: seq<NotificationItem>, tasks: seq<Task>, today: int, stamp: string): seq<NotificationItem> {
    KeptNotes(prev, tasks, today) + NewNotes(prev, tasks, today, stamp)
  }

  /** A new note is a deadline warning about its task: its id is then among `existingIds`. */
  lemma NewNoteIsDeadlineNote(t: Task, stamp: string)
    ensures IsDeadlineNote(NewNote(t, stamp)) && RefersTo(NewNote(t, stamp), t.id)
    ensures !NewNote(t, stamp).isRead && NewNote(t, stamp).id == t.id + "-overdue"
  {
    var rest := "일이 지났습니다.";
    ContainsOwnPrefix(DeadlineWord, rest);
    ContainsAfter("태스크 \"" + t.name + "\" ", DeadlineWord + rest, DeadlineWord);
    assert OverdueMessage(t.name) == ("태스크 \"" + t.name + "\" ") + (DeadlineWord + rest);
  }

  lemma StillOverdueIdsSpec(tasks: seq<Task>, today: int, id: string)
    ensures id in StillOverdueIds(tasks, today) <==> exists t :: t in tasks && IsOverdue(t, today) && t.id == id
  {
    var ov := OverdueTasks(tasks, today);
    if id in StillOverdueIds(tasks, today) {
      var k :| 0 <= k < |ov| && ov[k].id == id;
      assert ov[k] in tasks && IsOverdue(ov[k], today);
    }
    if exists t :: t in tasks && IsOverdue(t, today) && t.id == id {
      var t :| t in tasks && IsOverdue(t, today) && t.id == id;
      var j :| 0 <= j < |tasks| && tasks[j] == t;
      assert t in ov;
      var k :| 0 <= k < |ov| && ov[k] == t;
      assert StillOverdueIds(tasks, today)[k] == id;
    }
  }

  lemma ExistingIdsSpec(prev: seq<NotificationItem>, id: string)
    ensures id in ExistingIds(prev) <==> exists n :: n in prev && IsDeadlineNote(n) && RefersTo(n, id)
  {
    var cov := Filter(prev, CoveredTest());
    if id in ExistingIds(prev) {
      var k :| 0 <= k < |cov| && RelatedIdOf(cov[k]) == id;
      assert cov[k] in prev && IsDeadlineNote(cov[k]) && RefersTo(cov[k], id);
    }
    if exists n :: n in prev && IsDeadlineNote(n) && RefersTo(n, id) {
      var n :| n in prev && IsDeadlineNote(n) && RefersTo(n, id);
      var j :| 0 <= j < |prev| && prev[j] == n;
      assert n in cov;
      var k :| 0 <= k < |cov| && cov[k] == n;
      assert ExistingIds(prev)[k] == id;
    }
  }

  /** `n` is the notification created for an overdue task that had no deadline warning in `prev`. */
  ghost predicate CreatedFor(n: NotificationItem, prev: seq<NotificationItem>, tasks: seq<Task>, today: int, stamp: string) {
    exists t :: t in tasks && IsOverdue(t, today) && n == NewNote(t, stamp) && !Covered(prev, t.id)
  }

  ghost predicate Covered(ns: seq<NotificationItem>, id: string) {
    exists m :: m in ns && IsDeadlineNote(m) && RefersTo(m, id)
  }

  /** Every element of the new tail is the unread warning of an overdue task that had none. */
  lemma NewNotesSpec(prev: seq<NotificationItem>, tasks: seq<Task>, today: int, stamp: string)
    ensures forall n :: n in NewNotes(prev, tasks, today, stamp) ==> CreatedFor(n, prev, tasks, today, stamp)
  {
    var ov := OverdueTasks(tasks, today);
    var unc := Filter(ov, UncoveredTest(ExistingIds(prev)));
    var added := NewNotes(prev, tasks, today, stamp);
    forall n | n in added
      ensures CreatedFor(n, prev, tasks, today, stamp)
    {
      var i :| 0 <= i < |added| && added[i] == n;
      var t := unc[i];
      assert n == NewNote(t, stamp);
      assert t in ov;
      var k :| 0 <= k < |ov| && ov[k] == t;
      assert t in tasks && IsOverdue(t, today);
      ExistingIdsSpec(prev, t.id);
    }
  }

  /** A new notification is a deadline warning. */
  lemma NewNotesAreDeadlineNotes(prev: seq<NotificationItem>, tasks: seq<Task>, today: int, stamp: string)
    ensures forall n :: n in NewNotes(prev, tasks, today, stamp) ==>
      IsDeadlineNote(n) && !n.isRead && n.relatedId.Some?
  {
    NewNotesSpec(prev, tasks, today, stamp);
    forall n | n in NewNotes(prev, tasks, today, stamp)
      ensures IsDeadlineNote(n) && !n.isRead && n.relatedId.Some?
    {
      var t :| t in tasks && IsOverdue(t, today) && n == NewNote(t, stamp) && !Covered(prev, t.id);
      NewNoteIsDeadlineNote(t, stamp);
    }
  }

  lemma KeptContains(prev: seq<NotificationItem>, tasks: seq<Task>, today: int, n: NotificationItem)
    requires n in prev && Keeps(n, StillOverdueIds(tasks, today))
    ensures n in KeptNotes(prev, tasks, today)
  {
    var j :| 0 <= j < |prev| && prev[j] == n;
  }

  lemma AddedContains(prev: seq<NotificationItem>, tasks: seq<Task>, today: int, stamp: string, t: Task)
    requires t in tasks && IsOverdue(t, today) && t.id !in ExistingIds(prev)
    ensures NewNote(t, stamp) in NewNotes(prev, tasks, today, stamp)
  {
    var ov := OverdueTasks(tasks, today);
    var unc := Filter(ov, UncoveredTest(ExistingIds(prev)));
    var j :| 0 <= j < |tasks| && tasks[j] == t;
    assert t in ov;
    var k :| 0 <= k < |ov| && ov[k] == t;
    assert t in unc;
    var u :| 0 <= u < |unc| && unc[u] == t;
    assert NewNotes(prev, tasks, today, stamp)[u] == NewNote(t, stamp);
  }

  /** After a sync, every overdue task has a deadline warning that refers to it. */
  lemma SyncCoversOverdue(prev: seq<NotificationItem>, tasks: seq<Task>, today: int, stamp: string, t: Task)
    requires t in tasks && IsOverdue(t, today)
    ensures Covered(Sync(prev, tasks, today, stamp), t.id)
  {
    var kept := KeptNotes(prev, tasks, today);
    var added := NewNotes(prev, tasks, today, stamp);
    ExistingIdsSpec(prev, t.id);
    if t.id in ExistingIds(prev) {
      var n :| n in prev && IsDeadlineNote(n) && RefersTo(n, t.id);
      StillOverdueIdsSpec(tasks, today, t.id);
      KeptContains(prev, tasks, today, n);
      assert n in kept + added;
    } else {
      AddedContains(prev, tasks, today, stamp, t);
      NewNoteIsDeadlineNote(t, stamp);
      assert NewNote(t, stamp) in kept + added;
    }
  }

  /** After a sync, every deadline warning refers to a task that is overdue. */
  lemma SyncOnlyOverdue(prev: seq<NotificationItem>, tasks: seq<Task>, today: int, stamp: string, n: NotificationItem)
    requires n in Sync(prev, tasks, today, stamp) && IsDeadlineNote(n)
    ensures n.relatedId.Some? && exists t :: t in tasks && IsOverdue(t, today) && RefersTo(n, t.id)
  {
    var r := Sync(prev, tasks, today, stamp);
    var still := StillOverdueIds(tasks, today);
    var kept := KeptNotes(prev, tasks, today);
    if n in kept {
      assert Keeps(n, still);
      StillOverdueIdsSpec(tasks, today, n.relatedId.value);
    } else {
      assert n in NewNotes(prev, tasks, today, stamp);
      NewNotesSpec(prev, tasks, today, stamp);
      var t :| t in tasks && IsOverdue(t, today) && n == NewNote(t, stamp) && !Covered(prev, t.id);
    }
  }

  /**
   * Notifications the synchroniser does not manage are kept, all of them and
   * in their original order; whatever is kept of the previous list comes
   * first, unchanged (so a read warning stays read), and the appended tail
   * consists of unread warnings only.
   */
  lemma SyncKeepsOthers(prev: seq<NotificationItem>, tasks: seq<Task>, today: int, stamp: string)
    ensures Filter(Sync(prev, tasks, today, stamp), NotDeadlineTest()) == Filter(prev, NotDeadlineTest())
    ensures var k := |KeptNotes(prev, tasks, today)|;
      && k <= |Sync(prev, tasks, today, stamp)|
      && (forall i :: 0 <= i < k ==> Sync(prev, tasks, today, stamp)[i] in prev)
      && (forall i :: k <= i < |Sync(prev, tasks, today, stamp)| ==>
            !Sync(prev, tasks, today, stamp)[i].isRead && Sync(prev, tasks, today, stamp)[i].kind == Warning)
  {
    var still := StillOverdueIds(tasks, today);
    var kept := KeptNotes(prev, tasks, today);
    var added := NewNotes(prev, tasks, today, stamp);
    FilterConcat(kept, added, NotDeadlineTest());
    NewNotesAreDeadlineNotes(prev, tasks, today, stamp);
    FilterDropsAll(added, NotDeadlineTest());
    FilterNested(prev, KeepTest(still), NotDeadlineTest());
  }

  function NotDeadlineTest(): NotificationItem -> bool {
    (n: NotificationItem) => !IsDeadlineNote(n)
  }

  /** Running the synchroniser again on the same tasks changes nothing, whatever the new time stamp. */
  lemma SyncIdempotent(prev: seq<NotificationItem>, tasks: seq<Task>, today: int, stamp: string, stamp': string)
    ensures Sync(Sync(prev, tasks, today, stamp), tasks, today, stamp') == Sync(prev, tasks, today, stamp)
  {
    var r := Sync(prev, tasks, today, stamp);
    var still := StillOverdueIds(tasks, today);
    var ov := OverdueTasks(tasks, today);
    forall i | 0 <= i < |r|
      ensures Keeps(r[i], still)
    {
      if IsDeadlineNote(r[i]) {
        SyncOnlyOverdue(prev, tasks, today, stamp, r[i]);
        var t :| t in tasks && IsOverdue(t, today) && RefersTo(r[i], t.id);
        StillOverdueIdsSpec(tasks, today, t.id);
      }
    }
    FilterKeepsAll(r, KeepTest(still));
    forall i | 0 <= i < |ov|
      ensures !UncoveredTest(ExistingIds(r))(ov[i])
    {
      var t := ov[i];
      assert t in tasks && IsOverdue(t, today);
      SyncCoversOverdue(prev, tasks, today, stamp, t);
      ExistingIdsSpec(r, t.id);
    }
    FilterDropsAll(ov, UncoveredTest(ExistingIds(r)));
    assert NewNotes(r, tasks, today, stamp') == [];
    assert KeptNotes(r, tasks, today) == r;
  }

  function UnreadTest(): NotificationItem -> bool {
    (n: NotificationItem) => !n.isRead
  }

  /** `unreadCount`. */
  function UnreadCount(ns: seq<NotificationItem>): nat {
    |Filter(ns, UnreadTest())|
  }

  function ReadTest(): NotificationItem -> bool {
    (n: NotificationItem) => n.isRead
  }

  /** The unread and the read notifications together are all of them. */
  lemma UnreadCountSplit(ns: seq<NotificationItem>)
    ensures UnreadCount(ns) + |Filter(ns, ReadTest())| == |ns|
  {
    FilterSplitCount(ns, UnreadTest(), ReadTest());
  }

  /** `markNotificationAsRead(id)`: every notification with that id becomes read. */
  function MarkAsRead(ns: seq<NotificationItem>, id: string): (r: seq<NotificationItem>)
    ensures |r| == |ns|
    ensures forall i :: 0 <= i < |ns| ==>
      && r[i].isRead == (ns[i].isRead || ns[i].id == id)
      && r[i].(isRead := ns[i].isRead) == ns[i]
  {
    Map(ns, MarkOne(id))
  }

  function MarkOne(id: string): NotificationItem -> NotificationItem {
    (n: NotificationItem) => if n.id == id then n.(isRead := true) else n
  }

  /** Marking the same id twice is marking it once. */
  lemma MarkAsReadIdempotent(ns: seq<NotificationItem>, id: string)
    ensures MarkAsRead(MarkAsRead(ns, id), id) == MarkAsRead(ns, id)
  {
  }

  function UnreadWithId(id: string): NotificationItem -> bool {
    (n: NotificationItem) => !n.isRead && n.id == id
  }

  /** Marking as read lowers the unread count by exactly the unread notifications with that id. */
  lemma {:induction false} MarkAsReadUnreadCount(ns: seq<NotificationItem>, id: string)
    ensures UnreadCount(MarkAsRead(ns, id)) + |Filter(ns, UnreadWithId(id))| == UnreadCount(ns)
    decreases |ns|
  {
    if ns != [] {
      MarkAsReadUnreadCount(ns[1..], id);
      assert MarkAsRead(ns, id)[1..] == MarkAsRead(ns[1..], id);
    }
  }
}
