/**
 * The state the client's `App` component keeps in `useState`
 * (client/src/App.tsx:146-165) and the handlers that change it (196-339).
 * A handler first awaits the server; its answer is a parameter here
 * (`None` or `false` for a request that failed), and a failed request
 * leaves the state as it was, as the handlers' `catch` blocks do.
 */
module ClientState {
  import opened Wrappers
  import opened Lists
  import opened Domain
  import opened Notifications

  /** The page on show. */
  datatype View =
    | DashboardView
    | ClientList
    | ClientDetail(clientId: string)
    | CalendarView
    | AnalyticsView
    | DataExport

  /** Everything the handlers below read or write, taken together. */
  datatype State = State(
    view: View,
    companies: seq<Company>,
    meetings: seq<Meeting>,
    tasks: seq<Task>,
    notifications: seq<NotificationItem>,
    showCompanyModal: bool,
    showMeetingModal: bool,
    showTaskModal: bool,
    editingCompany: Option<Company>,
    editingMeeting: Option<Meeting>,
    editingTask: Option<Task>)

  function CompanyId(c: Company): string { c.id }
  function MeetingId(m: Meeting): string { m.id }

  function ReplaceOne<T>(idOf: T -> string, id: string, y: T): T -> T {
    (x: T) => if idOf(x) == id then y else x
  }

  /** `prev.map(x => x.id === id ? updated : x)`: every entry with the id becomes `updated`. */
  function ReplaceById<T>(xs: seq<T>, idOf: T -> string, id: string, y: T): (r: seq<T>)
    ensures |r| == |xs|
    ensures forall i :: 0 <= i < |xs| ==> r[i] == if idOf(xs[i]) == id then y else xs[i]
  {
    Map(xs, ReplaceOne(idOf, id, y))
  }

  /** No two entries share an id. */
  predicate UniqueIds<T>(xs: seq<T>, idOf: T -> string) {
    forall i, j :: 0 <= i < j < |xs| ==> idOf(xs[i]) != idOf(xs[j])
  }

  /** With distinct ids, replacing the id of entry `k` replaces that entry and no other. */
  lemma ReplaceByIdAt<T>(xs: seq<T>, idOf: T -> string, k: nat, y: T)
    requires UniqueIds(xs, idOf) && k < |xs|
    ensures ReplaceById(xs, idOf, idOf(xs[k]), y) == xs[k := y]
  {
    var r := ReplaceById(xs, idOf, idOf(xs[k]), y);
    forall i | 0 <= i < |xs|
      ensures r[i] == xs[k := y][i]
    {
      if i < k {
        assert idOf(xs[i]) != idOf(xs[k]);
      } else if i > k {
        assert idOf(xs[k]) != idOf(xs[i]);
      }
    }
  }

  /** Replacing an id no entry has changes nothing. */
  lemma ReplaceMissingId<T>(xs: seq<T>, idOf: T -> string, id: string, y: T)
    requires forall i :: 0 <= i < |xs| ==> idOf(xs[i]) != id
    ensures ReplaceById(xs, idOf, id, y) == xs
  {
    var r := ReplaceById(xs, idOf, id, y);
    assert forall i :: 0 <= i < |xs| ==> r[i] == xs[i];
  }

  /** A replacement that keeps the id keeps the ids distinct. */
  lemma ReplaceKeepsUnique<T>(xs: seq<T>, idOf: T -> string, id: string, y: T)
    requires UniqueIds(xs, idOf) && idOf(y) == id
    ensures UniqueIds(ReplaceById(xs, idOf, id, y), idOf)
  {
    var r := ReplaceById(xs, idOf, id, y);
    assert forall i :: 0 <= i < |xs| ==> idOf(r[i]) == idOf(xs[i]);
  }

  /** With distinct ids, removing the id of entry `k` removes exactly that entry. */
  lemma RemoveByIdAt<T(!new)>(xs: seq<T>, idOf: T -> string, k: nat)
    requires UniqueIds(xs, idOf) && k < |xs|
    ensures RemoveById(xs, idOf, idOf(xs[k])) == RemoveAt(xs, k)
  {
    var p := IdIsNot(idOf, idOf(xs[k]));
    var front, back := xs[..k], xs[k + 1..];
    assert forall i :: 0 <= i < |front| ==> p(front[i]) by {
      forall i | 0 <= i < |front|
        ensures p(front[i])
      {
        assert front[i] == xs[i];
      }
    }
    assert forall i :: 0 <= i < |back| ==> p(back[i]) by {
      forall i | 0 <= i < |back|
        ensures p(back[i])
      {
        assert back[i] == xs[k + 1 + i];
      }
    }
    assert xs == front + [xs[k]] + back;
    FilterAround(front, xs[k], back, p);
  }

  /** Filtering out one element that fails the test, between two runs that pass it, leaves the runs. */
  lemma FilterAround<T>(front: seq<T>, x: T, back: seq<T>, p: T -> bool)
    requires forall i :: 0 <= i < |front| ==> p(front[i])
    requires forall i :: 0 <= i < |back| ==> p(back[i])
    requires !p(x)
    ensures Filter(front + [x] + back, p) == front + back
  {
    var fx := front + [x];
    assert [x][1..] == [];
    assert Filter([x], p) == Filter([], p) == [];
    FilterConcat(front, [x], p);
    FilterKeepsAll(front, p);
    assert Filter(fx, p) == front;
    FilterConcat(fx, back, p);
    FilterKeepsAll(back, p);
  }

  /** Filtering keeps the ids distinct. */
  lemma {:induction false} FilterKeepsUnique<T>(xs: seq<T>, idOf: T -> string, p: T -> bool)
    requires UniqueIds(xs, idOf)
    ensures UniqueIds(Filter(xs, p), idOf)
    decreases |xs|
  {
    if xs != [] {
      var rest := xs[1..];
      assert UniqueIds(rest, idOf) by {
        forall i, j | 0 <= i < j < |rest|
          ensures idOf(rest[i]) != idOf(rest[j])
        {
          assert rest[i] == xs[i + 1] && rest[j] == xs[j + 1];
        }
      }
      FilterKeepsUnique(rest, idOf, p);
      if p(xs[0]) {
        var tail := Filter(rest, p);
        forall j | 0 <= j < |tail|
          ensures idOf(xs[0]) != idOf(tail[j])
        {
          var m :| 0 <= m < |rest| && rest[m] == tail[j];
          assert xs[m + 1] == tail[j];
        }
        var r := [xs[0]] + tail;
        forall i, j | 0 <= i < j < |r|
          ensures idOf(r[i]) != idOf(r[j])
        {
          if i > 0 {
            assert r[i] == tail[i - 1] && r[j] == tail[j - 1];
          } else {
            assert r[j] == tail[j - 1];
          }
        }
      }
    }
  }

  /** Removing by id keeps the ids distinct. */
  lemma RemoveKeepsUnique<T(!new)>(xs: seq<T>, idOf: T -> string, id: string)
    requires UniqueIds(xs, idOf)
    ensures UniqueIds(RemoveById(xs, idOf, id), idOf)
  {
    FilterKeepsUnique(xs, idOf, IdIsNot(idOf, id));
  }

  /** Appending an entry under an id no entry has keeps the ids distinct. */
  lemma AppendKeepsUnique<T>(xs: seq<T>, idOf: T -> string, y: T)
    requires UniqueIds(xs, idOf)
    requires forall i :: 0 <= i < |xs| ==> idOf(xs[i]) != idOf(y)
    ensures UniqueIds(xs + [y], idOf)
  {
    var r := xs + [y];
    forall i, j | 0 <= i < j < |r|
      ensures idOf(r[i]) != idOf(r[j])
    {
      assert r[i] == xs[i];
      if j < |xs| {
        assert r[j] == xs[j];
      }
    }
  }

  /** Once a task is deleted, the next sync leaves no deadline warning about it. */
  lemma DeletedTaskLosesWarning(tasks: seq<Task>, id: string, prev: seq<NotificationItem>, today: int, stamp: string)
    ensures forall n :: n in Sync(prev, RemoveById(tasks, TaskIdOf, id), today, stamp) && IsDeadlineNote(n) ==>
      !RefersTo(n, id)
  {
    var left := RemoveById(tasks, TaskIdOf, id);
    forall n | n in Sync(prev, left, today, stamp) && IsDeadlineNote(n)
      ensures !RefersTo(n, id)
    {
      SyncOnlyOverdue(prev, left, today, stamp, n);
      var t :| t in left && IsOverdue(t, today) && RefersTo(n, t.id);
      assert TaskIdOf(t) != id;
    }
  }

  /** Once a task is updated to completed under its own id, the next sync leaves no deadline warning about it. */
  lemma CompletedTaskLosesWarning(tasks: seq<Task>, done: Task, prev: seq<NotificationItem>, today: int, stamp: string)
    requires done.status == Completed
    ensures forall n :: n in Sync(prev, ReplaceById(tasks, TaskIdOf, done.id, done), today, stamp) && IsDeadlineNote(n) ==>
      !RefersTo(n, done.id)
  {
    var now := ReplaceById(tasks, TaskIdOf, done.id, done);
    forall n | n in Sync(prev, now, today, stamp) && IsDeadlineNote(n)
      ensures !RefersTo(n, done.id)
    {
      SyncOnlyOverdue(prev, now, today, stamp, n);
      var t :| t in now && IsOverdue(t, today) && RefersTo(n, t.id);
      var i :| 0 <= i < |now| && now[i] == t;
      assert TaskIdOf(tasks[i]) != done.id;
    }
  }

  /** The `App` component's state, one field per `useState` the handlers touch. */
  class Crm {
    var view: View
    var companies: seq<Company>
    var meetings: seq<Meeting>
    var tasks: seq<Task>
    var notifications: seq<NotificationItem>
    var showCompanyModal: bool
    var showMeetingModal: bool
    var showTaskModal: bool
    var editingCompany: Option<Company>
    var editingMeeting: Option<Meeting>
    var editingTask: Option<Task>

    function Snapshot(): State
      reads this
    {
      State(view, companies, meetings, tasks, notifications, showCompanyModal, showMeetingModal,
        showTaskModal, editingCompany, editingMeeting, editingTask)
    }

    /** The initial state: the dashboard, empty lists, no modal open. */
    constructor()
      ensures Snapshot() == State(DashboardView, [], [], [], [], false, false, false, None, None, None)
    {
      view := DashboardView;
      companies, meetings, tasks, notifications := [], [], [], [];
      showCompanyModal, showMeetingModal, showTaskModal := false, false, false;
      editingCompany, editingMeeting, editingTask := None, None, None;
    }

    /** `loadData`: the three collections as the server returned them; on a failed request nothing changes. */
    method LoadData(fetched: Option<(seq<Company>, seq<Meeting>, seq<Task>)>)
      modifies this
      ensures fetched.None? ==> Snapshot() == old(Snapshot())
      ensures fetched.Some? ==> Snapshot() == old(Snapshot()).(
        companies := fetched.value.0, meetings := fetched.value.1, tasks := fetched.value.2)
    {
      if fetched.Some? {
        companies, meetings, tasks := fetched.value.0, fetched.value.1, fetched.value.2;
      }
    }

    /**
     * `handleCreateCompany`: once the server has stored the company, the
     * client list is shown; the local company list is not extended.
     */
    method CreateCompany(succeeded: bool)
      modifies this
      ensures !succeeded ==> Snapshot() == old(Snapshot())
      ensures succeeded ==> Snapshot() == old(Snapshot()).(view := ClientList)
    {
      if succeeded {
        view := ClientList;
      }
    }

    /** `handleUpdateCompany`: the server's answer replaces every company with the id, and the modal closes. */
    method UpdateCompany(id: string, updated: Option<Company>)
      modifies this
      ensures updated.None? ==> Snapshot() == old(Snapshot())
      ensures updated.Some? ==> Snapshot() == old(Snapshot()).(
        companies := ReplaceById(old(companies), CompanyId, id, updated.value),
        showCompanyModal := false, editingCompany := None)
    {
      if updated.Some? {
        companies := ReplaceById(companies, CompanyId, id, updated.value);
        showCompanyModal := false;
        editingCompany := None;
      }
    }

    /** `handleDeleteCompany`: once the server has deleted it, every company with the id goes. */
    method DeleteCompany(id: string, succeeded: bool)
      modifies this
      ensures !succeeded ==> Snapshot() == old(Snapshot())
      ensures succeeded ==> Snapshot() == old(Snapshot()).(companies := RemoveById(old(companies), CompanyId, id))
    {
      if succeeded {
        companies := RemoveById(companies, CompanyId, id);
      }
    }

    /** `handleCreateMeeting`: the stored meeting goes at the end of the list, and the modal closes. */
    method CreateMeeting(created: Option<Meeting>)
      modifies this
      ensures created.None? ==> Snapshot() == old(Snapshot())
      ensures created.Some? ==> Snapshot() == old(Snapshot()).(
        meetings := old(meetings) + [created.value], showMeetingModal := false)
    {
      if created.Some? {
        meetings := meetings + [created.value];
        showMeetingModal := false;
      }
    }

    /** `handleUpdateMeeting`. */
    method UpdateMeeting(id: string, updated: Option<Meeting>)
      modifies this
      ensures updated.None? ==> Snapshot() == old(Snapshot())
      ensures updated.Some? ==> Snapshot() == old(Snapshot()).(
        meetings := ReplaceById(old(meetings), MeetingId, id, updated.value),
        showMeetingModal := false, editingMeeting := None)
    {
      if updated.Some? {
        meetings := ReplaceById(meetings, MeetingId, id, updated.value);
        showMeetingModal := false;
        editingMeeting := None;
      }
    }

    /** `handleDeleteMeeting`. */
    method DeleteMeeting(id: string, succeeded: bool)
      modifies this
      ensures !succeeded ==> Snapshot() == old(Snapshot())
      ensures succeeded ==> Snapshot() == old(Snapshot()).(meetings := RemoveById(old(meetings), MeetingId, id))
    {
      if succeeded {
        meetings := RemoveById(meetings, MeetingId, id);
      }
    }

    /** `handleCreateTask`. */
    method CreateTask(created: Option<Task>)
      modifies this
      ensures created.None? ==> Snapshot() == old(Snapshot())
      ensures created.Some? ==> Snapshot() == old(Snapshot()).(
        tasks := old(tasks) + [created.value], showTaskModal := false)
    {
      if created.Some? {
        tasks := tasks + [created.value];
        showTaskModal := false;
      }
    }

    /** `handleUpdateTask`. */
    method UpdateTask(id: string, updated: Option<Task>)
      modifies this
      ensures updated.None? ==> Snapshot() == old(Snapshot())
      ensures updated.Some? ==> Snapshot() == old(Snapshot()).(
        tasks := ReplaceById(old(tasks), TaskIdOf, id, updated.value),
        showTaskModal := false, editingTask := None)
    {
      if updated.Some? {
        tasks := ReplaceById(tasks, TaskIdOf, id, updated.value);
        showTaskModal := false;
        editingTask := None;
      }
    }

    /** `handleDeleteTask`. */
    method DeleteTask(id: string, succeeded: bool)
      modifies this
      ensures !succeeded ==> Snapshot() == old(Snapshot())
      ensures succeeded ==> Snapshot() == old(Snapshot()).(tasks := RemoveById(old(tasks), TaskIdOf, id))
    {
      if succeeded {
        tasks := RemoveById(tasks, TaskIdOf, id);
      }
    }

    /**
     * The effect that runs after every change to `tasks`: the notifications
     * become `Sync` of the previous ones, after which running it again
     * would change nothing, whatever its time stamp.
     */
    method SyncNotifications(today: int, stamp: string)
      modifies this
      ensures Snapshot() == old(Snapshot()).(notifications := Sync(old(notifications), tasks, today, stamp))
      ensures forall stamp' :: Sync(notifications, tasks, today, stamp') == notifications
    {
      var prev := notifications;
      notifications := Sync(prev, tasks, today, stamp);
      forall stamp': string
        ensures Sync(notifications, tasks, today, stamp') == notifications
      {
        SyncIdempotent(prev, tasks, today, stamp, stamp');
      }
    }

    /** `unreadCount`, the badge on the bell. */
    function UnreadBadge(): (n: nat)
      reads this
      ensures n <= |notifications|
    {
      UnreadCount(notifications)
    }

    /** `markNotificationAsRead`: the badge drops by the unread notifications with the id. */
    method MarkNotificationAsRead(id: string)
      modifies this
      ensures Snapshot() == old(Snapshot()).(notifications := MarkAsRead(old(notifications), id))
      ensures UnreadBadge() + |Filter(old(notifications), UnreadWithId(id))| == old(UnreadBadge())
    {
      MarkAsReadUnreadCount(notifications, id);
      notifications := MarkAsRead(notifications, id);
    }
  }
}
