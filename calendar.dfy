/**
 * The calendar view (client/src/App.tsx:1054-1086, 1226): the month grid of
 * blank cells and day numbers, and the meetings, tasks and contracts shown
 * for one day. A day is identified by its `toISOString().slice(0, 10)`
 * text; time zones are not modelled, so the cell for day `d` is the UTC date
 * `year-month-d`.
 */
module Calendar {
  import opened Wrappers
  import opened Lists
  import opened Text
  import opened Dates
  import opened Domain
  import opened Dashboard

  /**
   * `calendarDays` for the month `month` (0-11, as `getMonth()` returns it):
   * `startDayOfWeek` blanks, the days 1..daysInMonth in order, then blanks
   * up to a whole number of weeks.
   */
  method BuildGrid(year: int, month: int) returns (cells: seq<Option<nat>>)
    requires 0 <= month < 12
    ensures var start, n := DayOfWeek(year, month + 1, 1), DaysInMonth(year, month + 1);
      && |cells| % 7 == 0
      && start + n <= |cells| < start + n + 7
      && (forall i :: 0 <= i < start ==> cells[i] == None)
      && (forall d :: 1 <= d <= n ==> cells[start + d - 1] == Some(d))
      && (forall i :: start + n <= i < |cells| ==> cells[i] == None)
  {
    var start := DayOfWeek(year, month + 1, 1);
    var n := DaysInMonth(year, month + 1);
    cells := [];
    var i := 0;
    while i < start
      invariant 0 <= i <= start && |cells| == i
      invariant forall k :: 0 <= k < i ==> cells[k] == None
    {
      cells := cells + [None];
      i := i + 1;
    }
    var d := 1;
    while d <= n
      invariant 1 <= d <= n + 1 && |cells| == start + d - 1
      invariant forall k :: 0 <= k < start ==> cells[k] == None
      invariant forall e :: 1 <= e < d ==> cells[start + e - 1] == Some(e)
    {
      cells := cells + [Some(d)];
      d := d + 1;
    }
    ghost var filled := start + n;
    ghost var pad := (7 - filled % 7) % 7;
    PadToWeek(filled);
    while |cells| % 7 != 0
      invariant filled <= |cells| <= filled + pad
      invariant forall k :: 0 <= k < start ==> cells[k] == None
      invariant forall e :: 1 <= e <= n ==> cells[start + e - 1] == Some(e)
      invariant forall k :: filled <= k < |cells| ==> cells[k] == None
      decreases filled + pad - |cells|
    {
      assert |cells| != filled + pad;
      cells := cells + [None];
    }
  }

  /** Padding `filled` cells by `(7 - filled % 7) % 7` blanks, fewer than a week, ends a week. */
  lemma PadToWeek(filled: nat)
    ensures var pad := (7 - filled % 7) % 7;
      pad < 7 && (filled + pad) % 7 == 0
  {
    var q, r := filled / 7, filled % 7;
    assert filled == 7 * q + r;
    if r != 0 {
      assert (7 - r) % 7 == 7 - r;
      assert filled + (7 - r) == 7 * (q + 1);
    }
  }

  /** The text `toISOString().slice(0, 10)` of the cell for day `d`. */
  function CellDate(year: int, month: int, d: int): string
    requires 0 <= month < 12
  {
    IsoDate(DaysFromCivil(year, month + 1, d) * MsPerDay)
  }

  predicate OnDay(m: Meeting, dateStr: string) {
    Prefix(m.date, 10) == dateStr
  }

  function MeetingOnTest(dateStr: string): Meeting -> bool {
    (m: Meeting) => OnDay(m, dateStr)
  }

  /** `dayMeetings`: meetings whose date text starts with the day. */
  function DayMeetings(meetings: seq<Meeting>, dateStr: string): (r: seq<Meeting>)
    ensures forall i :: 0 <= i < |r| ==> r[i] in meetings && Prefix(r[i].date, 10) == dateStr
    ensures forall i :: 0 <= i < |meetings| && Prefix(meetings[i].date, 10) == dateStr ==> meetings[i] in r
  {
    Filter(meetings, MeetingOnTest(dateStr))
  }

  /** A task spans the day when its start text is at most, and its end text at least, the day (string order). */
  predicate Spans(t: Task, dateStr: string) {
    StrLe(Prefix(t.startDate, 10), dateStr) && StrLe(dateStr, Prefix(t.endDate, 10))
  }

  function SpansTest(dateStr: string): Task -> bool {
    (t: Task) => Spans(t, dateStr)
  }

  /** `dayTasks`. */
  function DayTasks(tasks: seq<Task>, dateStr: string): (r: seq<Task>)
    ensures forall i :: 0 <= i < |r| ==> r[i] in tasks && Spans(r[i], dateStr)
    ensures forall i :: 0 <= i < |tasks| && Spans(tasks[i], dateStr) ==> tasks[i] in r
  {
    Filter(tasks, SpansTest(dateStr))
  }

  /** A task whose start and end day are the same text is shown on that day. */
  lemma OneDayTaskShown(t: Task, dateStr: string)
    requires Prefix(t.startDate, 10) == dateStr && Prefix(t.endDate, 10) == dateStr
    ensures Spans(t, dateStr)
  {
    StrLeReflexive(dateStr);
  }

  predicate StartsOrEnds(ct: Contract, dateStr: string) {
    ct.contractPeriodStart == dateStr || ct.contractPeriodEnd == dateStr
  }

  /** The signing date is present and not empty (JavaScript truthiness). */
  predicate HasSigningDate(ct: Contract) {
    ct.contractSigningDate.Some? && ct.contractSigningDate.value != ""
  }

  /** The planned invoice of the contract falls on the day. */
  predicate InvoiceOn(ct: Contract, dateStr: string) {
    IsValidDate(ct.contractSigningDate) && IsoDate(InvoiceTime(ct).value) == dateStr
  }

  /**
   * The contract filter as the source writes it: `None` stands for the
   * `RangeError` that `toISOString()` throws on an invalid date, which
   * happens for a contract that neither starts nor ends on the day and has
   * a non-empty signing date that does not parse.
   */
  function DayContractsAsWritten(entries: seq<ContractEntry>, dateStr: string): Option<seq<ContractEntry>>
    decreases |entries|
  {
    if entries == [] then Some([])
    else
      var ct := entries[0].contract;
      var keep :=
        if StartsOrEnds(ct, dateStr) then Some(true)
        else if HasSigningDate(ct) then (if IsValidDate(ct.contractSigningDate) then Some(InvoiceOn(ct, dateStr)) else None)
        else Some(false);
      match keep
      case None => None
      case Some(k) =>
        match DayContractsAsWritten(entries[1..], dateStr)
        case None => None
        case Some(rest) => Some(if k then [entries[0]] + rest else rest)
  }

  predicate ContractOnDay(ct: Contract, dateStr: string) {
    StartsOrEnds(ct, dateStr) || InvoiceOn(ct, dateStr)
  }

  function ContractOnTest(dateStr: string): ContractEntry -> bool {
    (e: ContractEntry) => ContractOnDay(e.contract, dateStr)
  }

  /**
   * `dayContracts` with an unparseable signing date read as "no planned
   * invoice": the contracts that start, end, or are due for invoicing on the day.
   */
  function DayContracts(companies: seq<Company>, dateStr: string): (r: seq<ContractEntry>)
    ensures forall i :: 0 <= i < |r| ==> r[i] in AllContracts(companies) && ContractOnDay(r[i].contract, dateStr)
    ensures forall i :: 0 <= i < |AllContracts(companies)| && ContractOnDay(AllContracts(companies)[i].contract, dateStr) ==>
      AllContracts(companies)[i] in r
  {
    Filter(AllContracts(companies), ContractOnTest(dateStr))
  }

  /** A contract on which the written filter throws: it neither starts nor ends on the day and its signing date is garbage. */
  predicate Throws(ct: Contract, dateStr: string) {
    !StartsOrEnds(ct, dateStr) && HasSigningDate(ct) && !IsValidDate(ct.contractSigningDate)
  }

  /**
   * The written filter fails exactly when some contract makes it throw, and
   * where it does not fail it agrees with `DayContracts`.
   */
  lemma {:induction false} AsWrittenAgrees(entries: seq<ContractEntry>, dateStr: string)
    ensures DayContractsAsWritten(entries, dateStr).None? <==> exists i :: 0 <= i < |entries| && Throws(entries[i].contract, dateStr)
    ensures DayContractsAsWritten(entries, dateStr).Some? ==>
      DayContractsAsWritten(entries, dateStr).value == Filter(entries, ContractOnTest(dateStr))
    decreases |entries|
  {
    if entries != [] {
      AsWrittenAgrees(entries[1..], dateStr);
      if exists i :: 0 <= i < |entries[1..]| && Throws(entries[1..][i].contract, dateStr) {
        var i :| 0 <= i < |entries[1..]| && Throws(entries[1..][i].contract, dateStr);
        assert entries[i + 1] == entries[1..][i];
      }
      if exists i :: 0 <= i < |entries| && Throws(entries[i].contract, dateStr) {
        var i :| 0 <= i < |entries| && Throws(entries[i].contract, dateStr);
        if i > 0 {
          assert entries[1..][i - 1] == entries[i];
        }
      }
    }
  }

  function SampleContract(signing: string): Contract {
    Contract("ct-1", "cn-1", "C-001", "Safety study", "1000000", "2024-01-01", "2024-02-01",
      Some(signing), None, None, None, None)
  }

  function SampleCompany(signing: string): Company {
    Company("co-1", "Acme", "Seoul", [], None, "2024-01-01", None, Some([SampleContract(signing)]), None, None, None)
  }

  /**
   * Opening 2024-01-15 in the calendar while some company holds a contract
   * whose signing date is not a date makes the lookup throw instead of
   * listing the day's contracts.
   */
  lemma GarbageSigningDateThrows()
    ensures DayContractsAsWritten(AllContracts([SampleCompany("garbage")]), "2024-01-15") == None
    ensures DayContracts([SampleCompany("garbage")], "2024-01-15") == []
  {
    var entries := AllContracts([SampleCompany("garbage")]);
    var group := EntriesOf(SampleCompany("garbage"));
    assert group == [ContractEntry("Acme", SampleContract("garbage"))];
    assert Map([SampleCompany("garbage")], EntriesOf) == [group];
    assert Flatten([group]) == group + Flatten([group][1..]);
    assert entries == [ContractEntry("Acme", SampleContract("garbage"))];
    assert FixedDigits("garbage", 0, 4) == None by {
      assert !IsDigit("garbage"[0]);
    }
    assert !IsValidDate(Some("garbage"));
    assert DayContractsAsWritten(entries[1..], "2024-01-15") == Some([]);
  }

  /** The label shown next to a contract on the day: start, end, or invoice, in that order of precedence. */
  function ContractLabel(ct: Contract, dateStr: string): string {
    if ct.contractPeriodStart == dateStr then "시작"
    else if ct.contractPeriodEnd == dateStr then "종료"
    else "세금계산서 발행"
  }

  /**
   * For a contract listed on the day, the label names the first of start,
   * end and invoice that falls on the day; an invoice label means the
   * planned invoice date is that day.
   */
  lemma LabelPrecedence(companies: seq<Company>, dateStr: string, e: ContractEntry)
    requires e in DayContracts(companies, dateStr)
    ensures ContractLabel(e.contract, dateStr) == "시작" <==> e.contract.contractPeriodStart == dateStr
    ensures ContractLabel(e.contract, dateStr) == "종료" <==>
      e.contract.contractPeriodStart != dateStr && e.contract.contractPeriodEnd == dateStr
    ensures ContractLabel(e.contract, dateStr) == "세금계산서 발행" ==> InvoiceOn(e.contract, dateStr)
  {
    var r := DayContracts(companies, dateStr);
    var i :| 0 <= i < |r| && r[i] == e;
  }

  /** The three lists shown for one day. */
  datatype DayItems = DayItems(meetings: seq<Meeting>, tasks: seq<Task>, contracts: seq<ContractEntry>)

  /**
   * `getItemsForDate`: the day's meetings, tasks and contracts, or `None`
   * when the contract lookup throws on a garbage signing date.
   */
  function ItemsForDate(meetings: seq<Meeting>, tasks: seq<Task>, companies: seq<Company>, dateStr: string): (r: Option<DayItems>)
    ensures r.None? <==>
      exists i :: 0 <= i < |AllContracts(companies)| && Throws(AllContracts(companies)[i].contract, dateStr)
    ensures r.Some? ==> r.value == DayItems(DayMeetings(meetings, dateStr), DayTasks(tasks, dateStr), DayContracts(companies, dateStr))
  {
    AsWrittenAgrees(AllContracts(companies), dateStr);
    match DayContractsAsWritten(AllContracts(companies), dateStr)
    case None => None
    case Some(contracts) => Some(DayItems(DayMeetings(meetings, dateStr), DayTasks(tasks, dateStr), contracts))
  }
}
