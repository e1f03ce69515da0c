/**
 * The dashboard's derived lists (client/src/App.tsx:343-391, 441-481): the
 * upcoming and the overdue task lists, the upcoming meetings, the counters,
 * the recent-activity feed and the three contract buckets. `now` is the
 * instant `new Date()` at rendering, passed in.
 */
module Dashboard {
  import opened Wrappers
  import opened Lists
  import opened Sorting
  import opened Dates
  import opened Domain

  /** How many entries a dashboard list shows. */
  const PreviewSize: nat := 5
  /** How many entries the recent-activity feed shows. */
  const FeedSize: nat := 10

  // ---------------------------------------------------------------- tasks

  function EndTime(t: Task): Option<int> {
    ParseInstant(t.endDate)
  }

  /** The sort key `new Date(t.endDate).getTime()`, for tasks whose end date parses. */
  function EndKey(t: Task): int {
    EndTime(t).GetOr(0)
  }

  function ByEnd(): (Task, Task) -> bool {
    Ascending(EndKey)
  }

  predicate IsUpcoming(t: Task, now: int) {
    t.status != Completed && NotBefore(EndTime(t), now)
  }

  predicate IsLate(t: Task, now: int) {
    t.status != Completed && Before(EndTime(t), now)
  }

  function UpcomingTest(now: int): Task -> bool {
    (t: Task) => IsUpcoming(t, now)
  }

  function LateTest(now: int): Task -> bool {
    (t: Task) => IsLate(t, now)
  }

  /** All upcoming tasks, earliest end date first. */
  function UpcomingSorted(tasks: seq<Task>, now: int): seq<Task> {
    Sort(Filter(tasks, UpcomingTest(now)), ByEnd())
  }

  /** All overdue tasks, earliest end date first. */
  function LateSorted(tasks: seq<Task>, now: int): seq<Task> {
    Sort(Filter(tasks, LateTest(now)), ByEnd())
  }

  /** `upcomingTasks`: the first five of the upcoming tasks by end date. */
  function UpcomingTasks(tasks: seq<Task>, now: int): (r: seq<Task>)
    ensures var n := |Filter(tasks, UpcomingTest(now))|; |r| == if n <= PreviewSize then n else PreviewSize
    ensures |r| <= |UpcomingSorted(tasks, now)| && r == UpcomingSorted(tasks, now)[..|r|]
    ensures forall i :: 0 <= i < |r| ==> r[i] in tasks && IsUpcoming(r[i], now)
    ensures forall i, j :: 0 <= i < j < |r| ==> EndKey(r[i]) <= EndKey(r[j])
  {
    var all := UpcomingSorted(tasks, now);
    AscendingIsTotalPreorder(EndKey);
    SortSorted(Filter(tasks, UpcomingTest(now)), ByEnd());
    SortedMembers(Filter(tasks, UpcomingTest(now)), ByEnd());
    Take(all, PreviewSize)
  }

  /** The dashboard's `overdueTasks`: the first five of the overdue tasks by end date. */
  function LateTasks(tasks: seq<Task>, now: int): (r: seq<Task>)
    ensures var n := |Filter(tasks, LateTest(now))|; |r| == if n <= PreviewSize then n else PreviewSize
    ensures |r| <= |LateSorted(tasks, now)| && r == LateSorted(tasks, now)[..|r|]
    ensures forall i :: 0 <= i < |r| ==> r[i] in tasks && IsLate(r[i], now)
    ensures forall i, j :: 0 <= i < j < |r| ==> EndKey(r[i]) <= EndKey(r[j])
  {
    var all := LateSorted(tasks, now);
    AscendingIsTotalPreorder(EndKey);
    SortSorted(Filter(tasks, LateTest(now)), ByEnd());
    SortedMembers(Filter(tasks, LateTest(now)), ByEnd());
    Take(all, PreviewSize)
  }

  /** The shown upcoming tasks end no later than any upcoming task left out. */
  lemma UpcomingTasksAreEarliest(tasks: seq<Task>, now: int)
    ensures var shown := UpcomingTasks(tasks, now);
      var all := UpcomingSorted(tasks, now);
      && multiset(all) == multiset(Filter(tasks, UpcomingTest(now)))
      && forall i, j :: 0 <= i < |shown| <= j < |all| ==> EndKey(shown[i]) <= EndKey(all[j])
  {
    var all := UpcomingSorted(tasks, now);
    AscendingIsTotalPreorder(EndKey);
    SortSorted(Filter(tasks, UpcomingTest(now)), ByEnd());
    SortedSplit(all, |UpcomingTasks(tasks, now)|, ByEnd());
  }

  /** The shown overdue tasks end no later than any overdue task left out. */
  lemma LateTasksAreEarliest(tasks: seq<Task>, now: int)
    ensures var shown := LateTasks(tasks, now);
      var all := LateSorted(tasks, now);
      && multiset(all) == multiset(Filter(tasks, LateTest(now)))
      && forall i, j :: 0 <= i < |shown| <= j < |all| ==> EndKey(shown[i]) <= EndKey(all[j])
  {
    var all := LateSorted(tasks, now);
    AscendingIsTotalPreorder(EndKey);
    SortSorted(Filter(tasks, LateTest(now)), ByEnd());
    SortedSplit(all, |LateTasks(tasks, now)|, ByEnd());
  }

  /** No task is both upcoming and overdue, and neither list holds a completed task or one without a valid end date. */
  lemma UpcomingLateDisjoint(t: Task, now: int)
    ensures !(IsUpcoming(t, now) && IsLate(t, now))
    ensures (IsUpcoming(t, now) || IsLate(t, now)) <==> t.status != Completed && EndTime(t).Some?
  {
  }

  function OpenTest(): Task -> bool {
    (t: Task) => t.status != Completed
  }

  function OpenUndatedTest(): Task -> bool {
    (t: Task) => t.status != Completed && EndTime(t).None?
  }

  function DatedOpenTest(now: int): Task -> bool {
    (t: Task) => IsUpcoming(t, now) || IsLate(t, now)
  }

  /**
   * Every task that is not completed is upcoming, overdue, or has an end
   * date that does not parse; the three counts add up to the open tasks.
   */
  lemma OpenTasksPartition(tasks: seq<Task>, now: int)
    ensures |Filter(tasks, OpenTest())|
      == |Filter(tasks, UpcomingTest(now))| + |Filter(tasks, LateTest(now))| + |Filter(tasks, OpenUndatedTest())|
  {
    FilterDisjointUnionCount(tasks, UpcomingTest(now), LateTest(now), DatedOpenTest(now));
    FilterDisjointUnionCount(tasks, DatedOpenTest(now), OpenUndatedTest(), OpenTest());
  }

  // ------------------------------------------------------------- meetings

  function MeetingKey(m: Meeting): int {
    ParseInstant(m.date).GetOr(0)
  }

  function ByMeetingDate(): (Meeting, Meeting) -> bool {
    Ascending(MeetingKey)
  }

  predicate IsUpcomingMeeting(m: Meeting, now: int) {
    NotBefore(ParseInstant(m.date), now)
  }

  function UpcomingMeetingTest(now: int): Meeting -> bool {
    (m: Meeting) => IsUpcomingMeeting(m, now)
  }

  function UpcomingMeetingsSorted(meetings: seq<Meeting>, now: int): seq<Meeting> {
    Sort(Filter(meetings, UpcomingMeetingTest(now)), ByMeetingDate())
  }

  /** `upcomingMeetings`: the first five meetings from now on, earliest first. */
  function UpcomingMeetings(meetings: seq<Meeting>, now: int): (r: seq<Meeting>)
    ensures var n := |Filter(meetings, UpcomingMeetingTest(now))|; |r| == if n <= PreviewSize then n else PreviewSize
    ensures |r| <= |UpcomingMeetingsSorted(meetings, now)| && r == UpcomingMeetingsSorted(meetings, now)[..|r|]
    ensures forall i :: 0 <= i < |r| ==> r[i] in meetings && IsUpcomingMeeting(r[i], now)
    ensures forall i, j :: 0 <= i < j < |r| ==> MeetingKey(r[i]) <= MeetingKey(r[j])
  {
    AscendingIsTotalPreorder(MeetingKey);
    SortSorted(Filter(meetings, UpcomingMeetingTest(now)), ByMeetingDate());
    SortedMembers(Filter(meetings, UpcomingMeetingTest(now)), ByMeetingDate());
    Take(UpcomingMeetingsSorted(meetings, now), PreviewSize)
  }

  /** The shown meetings are dated no later than any upcoming meeting left out. */
  lemma UpcomingMeetingsAreEarliest(meetings: seq<Meeting>, now: int)
    ensures var shown := UpcomingMeetings(meetings, now);
      var all := UpcomingMeetingsSorted(meetings, now);
      && multiset(all) == multiset(Filter(meetings, UpcomingMeetingTest(now)))
      && forall i, j :: 0 <= i < |shown| <= j < |all| ==> MeetingKey(shown[i]) <= MeetingKey(all[j])
  {
    var all := UpcomingMeetingsSorted(meetings, now);
    AscendingIsTotalPreorder(MeetingKey);
    SortSorted(Filter(meetings, UpcomingMeetingTest(now)), ByMeetingDate());
    SortedSplit(all, |UpcomingMeetings(meetings, now)|, ByMeetingDate());
  }

  // --------------------------------------------------------------- counts

  function StatusTest(s: TaskStatus): Task -> bool {
    (t: Task) => t.status == s
  }

  /** `activeTasks`: tasks in progress. */
  function ActiveTaskCount(tasks: seq<Task>): nat {
    |Filter(tasks, StatusTest(InProgress))|
  }

  /** `completedTasks`. */
  function CompletedTaskCount(tasks: seq<Task>): nat {
    |Filter(tasks, StatusTest(Completed))|
  }

  function ActiveOrCompletedTest(): Task -> bool {
    (t: Task) => t.status == InProgress || t.status == Completed
  }

  /** A task is counted as active or as completed, never both. */
  lemma TaskCountsBounded(tasks: seq<Task>)
    ensures ActiveTaskCount(tasks) + CompletedTaskCount(tasks) == |Filter(tasks, ActiveOrCompletedTest())|
    ensures ActiveTaskCount(tasks) + CompletedTaskCount(tasks) <= |tasks|
  {
    FilterDisjointUnionCount(tasks, StatusTest(InProgress), StatusTest(Completed), ActiveOrCompletedTest());
  }

  /** The completed tasks and the rest are all the tasks. */
  lemma CompletedAndOpenSplit(tasks: seq<Task>)
    ensures CompletedTaskCount(tasks) + |Filter(tasks, OpenTest())| == |tasks|
  {
    FilterSplitCount(tasks, StatusTest(Completed), OpenTest());
  }

  // ------------------------------------------------------ recent activity

  /** An entry of the recent-activity feed, with the company it belongs to if found. */
  datatype Activity =
    | TaskActivity(task: Task, owner: Option<Company>)
    | MeetingActivity(meeting: Meeting, owner: Option<Company>)
    | CompanyActivity(company: Company)
  {
    /** The date the feed is ordered by. */
    function Date(): string {
      match this
      case TaskActivity(t, _) => t.endDate
      case MeetingActivity(m, _) => m.date
      case CompanyActivity(c) => c.createdAt
    }
  }

  function ActivityKey(a: Activity): int {
    ParseInstant(a.Date()).GetOr(0)
  }

  function CompanyIdTest(id: string): Company -> bool {
    (c: Company) => c.id == id
  }

  function TaskEntry(companies: seq<Company>): Task -> Activity {
    (t: Task) => TaskActivity(t, Find(companies, CompanyIdTest(t.companyId)))
  }

  function MeetingEntry(companies: seq<Company>): Meeting -> Activity {
    (m: Meeting) => MeetingActivity(m, Find(companies, CompanyIdTest(m.companyId)))
  }

  function CompanyEntry(c: Company): Activity {
    CompanyActivity(c)
  }

  /** Every task, then every meeting, then every company, each as an activity. */
  function Activities(tasks: seq<Task>, meetings: seq<Meeting>, companies: seq<Company>): (r: seq<Activity>)
    ensures |r| == |tasks| + |meetings| + |companies|
    ensures forall i :: 0 <= i < |tasks| ==> r[i].TaskActivity? && r[i].task == tasks[i]
    ensures forall i :: 0 <= i < |meetings| ==>
      r[|tasks| + i].MeetingActivity? && r[|tasks| + i].meeting == meetings[i]
    ensures forall i :: 0 <= i < |companies| ==> r[|tasks| + |meetings| + i] == CompanyActivity(companies[i])
  {
    Map(tasks, TaskEntry(companies)) + Map(meetings, MeetingEntry(companies)) + Map(companies, CompanyEntry)
  }

  function Newest(): (Activity, Activity) -> bool {
    Descending(ActivityKey)
  }

  function ActivitiesSorted(tasks: seq<Task>, meetings: seq<Meeting>, companies: seq<Company>): seq<Activity> {
    Sort(Activities(tasks, meetings, companies), Newest())
  }

  /** `recentActivities`: the ten latest activities, latest first. */
  function RecentActivities(tasks: seq<Task>, meetings: seq<Meeting>, companies: seq<Company>): (r: seq<Activity>)
    ensures |r| == if |tasks| + |meetings| + |companies| <= FeedSize then |tasks| + |meetings| + |companies| else FeedSize
    ensures r == ActivitiesSorted(tasks, meetings, companies)[..|r|]
    ensures forall i, j :: 0 <= i < j < |r| ==> ActivityKey(r[i]) >= ActivityKey(r[j])
  {
    DescendingIsTotalPreorder(ActivityKey);
    SortSorted(Activities(tasks, meetings, companies), Newest());
    Take(ActivitiesSorted(tasks, meetings, companies), FeedSize)
  }

  /** The feed holds the latest activities: none left out is later than one shown. */
  lemma RecentActivitiesAreLatest(tasks: seq<Task>, meetings: seq<Meeting>, companies: seq<Company>)
    ensures var shown := RecentActivities(tasks, meetings, companies);
      var all := ActivitiesSorted(tasks, meetings, companies);
      && multiset(all) == multiset(Activities(tasks, meetings, companies))
      && forall i, j :: 0 <= i < |shown| <= j < |all| ==> ActivityKey(shown[i]) >= ActivityKey(all[j])
  {
    DescendingIsTotalPreorder(ActivityKey);
    SortSorted(Activities(tasks, meetings, companies), Newest());
    SortedSplit(ActivitiesSorted(tasks, meetings, companies), |RecentActivities(tasks, meetings, companies)|, Newest());
  }

  /** `companies.find(c => c.id === id)` found `owner`: none has the id, or `owner` is the first company that has it. */
  predicate FirstWithId(companies: seq<Company>, id: string, owner: Option<Company>) {
    && (owner.None? <==> forall j :: 0 <= j < |companies| ==> companies[j].id != id)
    && (owner.Some? ==>
          exists k :: 0 <= k < |companies| && companies[k] == owner.value && companies[k].id == id &&
                      forall j :: 0 <= j < k ==> companies[j].id != id)
  }

  lemma FindFirstWithId(companies: seq<Company>, id: string)
    ensures FirstWithId(companies, id, Find(companies, CompanyIdTest(id)))
  {
    var owner := Find(companies, CompanyIdTest(id));
    if owner.Some? {
      var k := FirstIndex(companies, CompanyIdTest(id));
      assert companies[k] == owner.value;
    }
  }

  /** A task's activity carries the task and the first company whose id is the task's `companyId`, or none. */
  lemma ActivityOwner(tasks: seq<Task>, meetings: seq<Meeting>, companies: seq<Company>, i: nat)
    requires i < |tasks|
    ensures var a := Activities(tasks, meetings, companies)[i];
      a.TaskActivity? && a.task == tasks[i] && FirstWithId(companies, tasks[i].companyId, a.owner)
  {
    FindFirstWithId(companies, tasks[i].companyId);
  }

  /** A meeting's activity carries the meeting and the first company whose id is the meeting's `companyId`, or none. */
  lemma MeetingActivityOwner(tasks: seq<Task>, meetings: seq<Meeting>, companies: seq<Company>, i: nat)
    requires i < |meetings|
    ensures var a := Activities(tasks, meetings, companies)[|tasks| + i];
      a.MeetingActivity? && a.meeting == meetings[i] && FirstWithId(companies, meetings[i].companyId, a.owner)
  {
    FindFirstWithId(companies, meetings[i].companyId);
  }

  // ------------------------------------------------------------ contracts

  /** A contract with the name of the company it belongs to. */
  datatype ContractEntry = ContractEntry(companyName: string, contract: Contract)

  function EntryOf(name: string): Contract -> ContractEntry {
    (ct: Contract) => ContractEntry(name, ct)
  }

  function EntriesOf(c: Company): seq<ContractEntry> {
    Map(c.contracts.GetOr([]), EntryOf(c.name))
  }

  /** `companies.flatMap(c => (c.contracts || []).map(ct => ({...ct, companyName: c.name})))`. */
  function AllContracts(companies: seq<Company>): seq<ContractEntry> {
    Flatten(Map(companies, EntriesOf))
  }

  /** Contracts of consecutive groups of companies come one group after the other. */
  lemma AllContractsConcat(a: seq<Company>, b: seq<Company>)
    ensures AllContracts(a + b) == AllContracts(a) + AllContracts(b)
  {
    assert Map(a + b, EntriesOf) == Map(a, EntriesOf) + Map(b, EntriesOf);
    FlattenConcat(Map(a, EntriesOf), Map(b, EntriesOf));
  }

  function StartTime(ct: Contract): Option<int> {
    ParseInstant(ct.contractPeriodStart)
  }

  function FinishTime(ct: Contract): Option<int> {
    ParseInstant(ct.contractPeriodEnd)
  }

  /** Ongoing: both period dates valid, started at or before now and ending at or after now. */
  predicate IsOngoing(ct: Contract, now: int) {
    && IsValidDate(Some(ct.contractPeriodStart)) && IsValidDate(Some(ct.contractPeriodEnd))
    && StartTime(ct).value <= now && FinishTime(ct).value >= now
  }

  /** Completed: the end date is valid and lies before now. */
  predicate IsFinished(ct: Contract, now: int) {
    IsValidDate(Some(ct.contractPeriodEnd)) && FinishTime(ct).value < now
  }

  /** The planned tax-invoice instant: signing date plus thirty days. */
  function InvoiceTime(ct: Contract): Option<int>
    requires IsValidDate(ct.contractSigningDate)
  {
    Some(AddDays(ParseInstant(ct.contractSigningDate.value).value, 30))
  }

  /** Invoice due: the signing date is valid and the planned invoice falls within the coming week. */
  predicate IsInvoiceDue(ct: Contract, now: int) {
    && IsValidDate(ct.contractSigningDate)
    && var d := InvoiceTime(ct).value;
      now <= d <= AddDays(now, 7)
  }

  function OngoingTest(now: int): ContractEntry -> bool {
    (e: ContractEntry) => IsOngoing(e.contract, now)
  }

  function FinishedTest(now: int): ContractEntry -> bool {
    (e: ContractEntry) => IsFinished(e.contract, now)
  }

  function InvoiceDueTest(now: int): ContractEntry -> bool {
    (e: ContractEntry) => IsInvoiceDue(e.contract, now)
  }

  /** The ongoing contracts of all companies, in company order and, within a company, in contract order. */
  function OngoingContracts(companies: seq<Company>, now: int): (r: seq<ContractEntry>)
    ensures forall i :: 0 <= i < |r| ==> r[i] in AllContracts(companies) && IsOngoing(r[i].contract, now)
    ensures forall i :: 0 <= i < |AllContracts(companies)| && IsOngoing(AllContracts(companies)[i].contract, now) ==>
      AllContracts(companies)[i] in r
  {
    Filter(AllContracts(companies), OngoingTest(now))
  }

  /** The completed contracts of all companies, in company and contract order. */
  function FinishedContracts(companies: seq<Company>, now: int): (r: seq<ContractEntry>)
    ensures forall i :: 0 <= i < |r| ==> r[i] in AllContracts(companies) && IsFinished(r[i].contract, now)
    ensures forall i :: 0 <= i < |AllContracts(companies)| && IsFinished(AllContracts(companies)[i].contract, now) ==>
      AllContracts(companies)[i] in r
  {
    Filter(AllContracts(companies), FinishedTest(now))
  }

  /** Exactly the contracts with a valid signing date whose planned invoice lies in [now, now + 7 days]. */
  function InvoiceDueContracts(companies: seq<Company>, now: int): (r: seq<ContractEntry>)
    ensures forall i :: 0 <= i < |r| ==>
      && r[i] in AllContracts(companies)
      && IsValidDate(r[i].contract.contractSigningDate)
      && now <= AddDays(ParseInstant(r[i].contract.contractSigningDate.value).value, 30) <= now + 7 * MsPerDay
    ensures forall i :: 0 <= i < |AllContracts(companies)| ==>
              var ct := AllContracts(companies)[i].contract;
              IsValidDate(ct.contractSigningDate) &&
              now <= AddDays(ParseInstant(ct.contractSigningDate.value).value, 30) <= now + 7 * MsPerDay ==>
              AllContracts(companies)[i] in r
  {
    Filter(AllContracts(companies), InvoiceDueTest(now))
  }

  /** No contract is both ongoing and completed. */
  lemma OngoingFinishedDisjoint(ct: Contract, now: int)
    ensures !(IsOngoing(ct, now) && IsFinished(ct, now))
  {
  }

  /** The preview of a bucket: its first five entries. */
  function Preview(bucket: seq<ContractEntry>): (r: seq<ContractEntry>)
    ensures |r| <= PreviewSize && |r| <= |bucket| && r == bucket[..|r|]
    ensures |bucket| >= PreviewSize ==> |r| == PreviewSize
  {
    Take(bucket, PreviewSize)
  }

  /**
   * The buckets follow the company order: the bucket of two groups of
   * companies is the first group's bucket followed by the second's.
   */
  lemma BucketsFollowCompanyOrder(a: seq<Company>, b: seq<Company>, now: int)
    ensures OngoingContracts(a + b, now) == OngoingContracts(a, now) + OngoingContracts(b, now)
    ensures FinishedContracts(a + b, now) == FinishedContracts(a, now) + FinishedContracts(b, now)
    ensures InvoiceDueContracts(a + b, now) == InvoiceDueContracts(a, now) + InvoiceDueContracts(b, now)
  {
    AllContractsConcat(a, b);
    FilterConcat(AllContracts(a), AllContracts(b), OngoingTest(now));
    FilterConcat(AllContracts(a), AllContracts(b), FinishedTest(now));
    FilterConcat(AllContracts(a), AllContracts(b), InvoiceDueTest(now));
  }

  /** The invoice date shown in the preview: `toISOString().slice(0, 10)` of the planned invoice. */
  function InvoiceDateText(ct: Contract): string {
    if IsValidDate(ct.contractSigningDate) then IsoDate(InvoiceTime(ct).value) else "-"
  }
}
