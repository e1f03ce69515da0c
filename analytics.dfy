/**
 * The analytics view (client/src/App.tsx:1240-1269): record totals, the
 * task completion rate, and the trend series that counts, for every month
 * any record falls in, the records of each kind in that month. A record's
 * month is the first seven characters of its date text; quotations are
 * bucketed by their quotation number, as the source does.
 */
module Analytics {
  import opened Wrappers
  import opened Lists
  import opened Sorting
  import opened Text
  import opened Dates
  import opened Domain
  import opened Dashboard

  // --------------------------------------------------------------- totals

  function ContractsOf(c: Company): seq<Contract> {
    c.contracts.GetOr([])
  }

  function QuotationsOf(c: Company): seq<Quotation> {
    c.quotations.GetOr([])
  }

  function StudiesOf(c: Company): seq<Study> {
    c.studies.GetOr([])
  }

  function CountOf<T>(items: Company -> seq<T>): Company -> nat {
    (c: Company) => |items(c)|
  }

  /** `totalContracts`: `c.contracts?.length || 0` summed over the companies. */
  function TotalContracts(companies: seq<Company>): nat {
    Sum(Map(companies, CountOf(ContractsOf)))
  }

  function TotalQuotations(companies: seq<Company>): nat {
    Sum(Map(companies, CountOf(QuotationsOf)))
  }

  function TotalStudies(companies: seq<Company>): nat {
    Sum(Map(companies, CountOf(StudiesOf)))
  }

  /** Summing the per-company counts counts all records of the companies together. */
  lemma {:induction false} TotalIsFlatLength<T>(companies: seq<Company>, items: Company -> seq<T>)
    ensures Sum(Map(companies, CountOf(items))) == |Flatten(Map(companies, items))|
    decreases |companies|
  {
    if companies != [] {
      TotalIsFlatLength(companies[1..], items);
      assert Map(companies, CountOf(items))[1..] == Map(companies[1..], CountOf(items));
      assert Map(companies, items)[1..] == Map(companies[1..], items);
    }
  }

  /**
   * `Math.round(completed / total * 100)` in exact arithmetic: the integer
   * nearest to the percentage, halves rounded up; 0 when there are no tasks.
   */
  function CompletionRate(completed: nat, total: nat): (r: nat)
    ensures total == 0 ==> r == 0
    ensures total > 0 ==> 2 * r * total <= 200 * completed + total < 2 * r * total + 2 * total
  {
    if total == 0 then 0 else (200 * completed + total) / (2 * total)
  }

  /** Multiplying by a non-negative factor keeps the order. */
  lemma MulLe(a: int, b: int, t: nat)
    requires a <= b
    ensures a * t <= b * t
  {
  }

  /** With at most as many completed tasks as tasks, the rate is a percentage; all done is 100, none done is 0. */
  lemma CompletionRateBounds(completed: nat, total: nat)
    requires completed <= total
    ensures CompletionRate(completed, total) <= 100
    ensures total > 0 && completed == total ==> CompletionRate(completed, total) == 100
    ensures completed == 0 ==> CompletionRate(completed, total) == 0
  {
    var r := CompletionRate(completed, total);
    if total > 0 {
      MulLe(200 * completed, 200 * total, 1);
      assert 2 * r * total < 202 * total;
      if r >= 101 {
        MulLe(202, 2 * r, total);
        assert false;
      }
      if completed == total && r <= 99 {
        MulLe(2 * r, 198, total);
        assert false;
      }
      if completed == 0 && r >= 1 {
        MulLe(2, 2 * r, total);
        assert false;
      }
    }
  }

  /** `taskCompletionRate`. */
  function TaskCompletionRate(tasks: seq<Task>): (r: nat)
    ensures r <= 100
  {
    CompletedAndOpenSplit(tasks);
    CompletionRateBounds(CompletedTaskCount(tasks), |tasks|);
    CompletionRate(CompletedTaskCount(tasks), |tasks|)
  }

  // --------------------------------------------------------------- months

  function ContractMonth(ct: Contract): string { MonthKey(ct.contractPeriodStart) }
  function QuotationMonth(q: Quotation): string { MonthKey(q.quotationNumber) }
  function StudyMonth(s: Study): string { MonthKey(s.studyPeriodStart) }
  function MeetingMonth(m: Meeting): string { MonthKey(m.date) }
  function TaskMonth(t: Task): string { MonthKey(t.startDate) }

  /** One company's months: its contracts', then its quotations', then its studies'. */
  function CompanyMonths(c: Company): seq<string> {
    Map(ContractsOf(c), ContractMonth) + Map(QuotationsOf(c), QuotationMonth) + Map(StudiesOf(c), StudyMonth)
  }

  /** Every record's month, in the order the source lists them before building the set. */
  function AllMonthKeys(companies: seq<Company>, meetings: seq<Meeting>, tasks: seq<Task>): seq<string> {
    Flatten(Map(companies, CompanyMonths)) + Map(meetings, MeetingMonth) + Map(tasks, TaskMonth)
  }

  /** `Array.from(new Set(xs))`: the first occurrence of every element, in order. */
  function Dedup(xs: seq<string>): (r: seq<string>)
    ensures Distinct(r)
    ensures forall x :: x in r <==> x in xs
    decreases |xs|
  {
    if xs == [] then []
    else
      var rest := Dedup(xs[..|xs| - 1]);
      assert xs == xs[..|xs| - 1] + [xs[|xs| - 1]];
      if xs[|xs| - 1] in rest then rest else rest + [xs[|xs| - 1]]
  }

  /** The default order of `sort()` on strings. */
  function StringOrder(): (string, string) -> bool {
    (a: string, b: string) => StrLe(a, b)
  }

  lemma StringOrderIsTotalPreorder()
    ensures TotalPreorder(StringOrder())
  {
    forall a: string, b: string
      ensures StrLe(a, b) || StrLe(b, a)
    {
      StrLeTotal(a, b);
    }
    forall a: string, b: string, c: string | StrLe(a, b) && StrLe(b, c)
      ensures StrLe(a, c)
    {
      StrLeTransitive(a, b, c);
    }
  }

  /** `months`: every month that occurs, each once, in strictly ascending order. */
  function Months(companies: seq<Company>, meetings: seq<Meeting>, tasks: seq<Task>): (r: seq<string>)
    ensures Distinct(r)
    ensures forall i, j :: 0 <= i < j < |r| ==> StrLt(r[i], r[j])
    ensures forall k :: k in r <==> k in AllMonthKeys(companies, meetings, tasks)
  {
    var keys := AllMonthKeys(companies, meetings, tasks);
    var unique := Dedup(keys);
    var r := Sort(unique, StringOrder());
    StringOrderIsTotalPreorder();
    SortSorted(unique, StringOrder());
    DistinctPermutation(unique, r);
    forall k
      ensures k in r <==> k in unique
    {
      assert k in r <==> k in multiset(r);
      assert k in unique <==> k in multiset(unique);
    }
    r
  }

  // --------------------------------------------------------------- counts

  function KeyIs<T>(key: T -> string, month: string): T -> bool {
    (x: T) => key(x) == month
  }

  /** The records of one kind whose month is `month`. */
  function CountIn<T>(xs: seq<T>, key: T -> string, month: string): nat {
    |Filter(xs, KeyIs(key, month))|
  }

  /** The per-month counter of a flat list (meetings, tasks). */
  function Counter<T>(xs: seq<T>, key: T -> string): string -> nat {
    (month: string) => CountIn(xs, key, month)
  }

  /** `companies.reduce((sum, c) => sum + (c.items?.filter(month matches).length || 0), 0)`. */
  function NestedCountIn<T>(companies: seq<Company>, items: Company -> seq<T>, key: T -> string, month: string): nat {
    Sum(Map(companies, CompanyCounter(items, key, month)))
  }

  function CompanyCounter<T>(items: Company -> seq<T>, key: T -> string, month: string): Company -> nat {
    (c: Company) => CountIn(items(c), key, month)
  }

  /** Counting per company and adding up is counting in all the companies' records together. */
  lemma {:induction false} NestedCountIsFlat<T>(companies: seq<Company>, items: Company -> seq<T>, key: T -> string, month: string)
    ensures NestedCountIn(companies, items, key, month) == CountIn(Flatten(Map(companies, items)), key, month)
    decreases |companies|
  {
    if companies != [] {
      NestedCountIsFlat(companies[1..], items, key, month);
      assert Map(companies, CompanyCounter(items, key, month))[1..] == Map(companies[1..], CompanyCounter(items, key, month));
      assert Map(companies, items)[1..] == Map(companies[1..], items);
      FilterConcat(items(companies[0]), Flatten(Map(companies[1..], items)), KeyIs(key, month));
    }
  }

  function InMonths<T>(key: T -> string, months: seq<string>): T -> bool {
    (x: T) => key(x) in months
  }

  /** Over distinct months, the per-month counts add up to the records whose month is among them. */
  lemma {:induction false} CountsOverMonths<T>(xs: seq<T>, key: T -> string, months: seq<string>)
    requires Distinct(months)
    ensures Sum(Map(months, Counter(xs, key))) == |Filter(xs, InMonths(key, months))|
    decreases |months|
  {
    if months == [] {
      FilterDropsAll(xs, InMonths(key, months));
    } else {
      var tail := months[1..];
      CountsOverMonths(xs, key, tail);
      assert Map(months, Counter(xs, key))[1..] == Map(tail, Counter(xs, key));
      assert months == [months[0]] + tail;
      forall x
        ensures InMonths(key, months)(x) == (KeyIs(key, months[0])(x) || InMonths(key, tail)(x))
      {
      }
      forall j | 0 <= j < |tail|
        ensures tail[j] != months[0]
      {
        assert tail[j] == months[j + 1];
      }
      assert months[0] !in tail;
      FilterDisjointUnionCount(xs, KeyIs(key, months[0]), InMonths(key, tail), InMonths(key, months));
    }
  }

  /** When every record's month is listed, the per-month counts add up to the number of records. */
  lemma CountsAddUp<T>(xs: seq<T>, key: T -> string, months: seq<string>)
    requires Distinct(months)
    requires forall i :: 0 <= i < |xs| ==> key(xs[i]) in months
    ensures Sum(Map(months, Counter(xs, key))) == |xs|
  {
    CountsOverMonths(xs, key, months);
    FilterKeepsAll(xs, InMonths(key, months));
  }

  /** One point of `trendData`. */
  datatype TrendPoint = TrendPoint(month: string, contracts: nat, quotations: nat, studies: nat, meetings: nat, tasks: nat)

  function PointOf(companies: seq<Company>, meetings: seq<Meeting>, tasks: seq<Task>): string -> TrendPoint {
    (month: string) => TrendPoint(
      month,
      NestedCountIn(companies, ContractsOf, ContractMonth, month),
      NestedCountIn(companies, QuotationsOf, QuotationMonth, month),
      NestedCountIn(companies, StudiesOf, StudyMonth, month),
      CountIn(meetings, MeetingMonth, month),
      CountIn(tasks, TaskMonth, month))
  }

  /** `trendData`: one point per month, in month order. */
  function TrendData(companies: seq<Company>, meetings: seq<Meeting>, tasks: seq<Task>): (r: seq<TrendPoint>)
    ensures |r| == |Months(companies, meetings, tasks)|
    ensures forall i :: 0 <= i < |r| ==> r[i].month == Months(companies, meetings, tasks)[i]
  {
    Map(Months(companies, meetings, tasks), PointOf(companies, meetings, tasks))
  }

  function ContractsField(p: TrendPoint): nat { p.contracts }
  function QuotationsField(p: TrendPoint): nat { p.quotations }
  function StudiesField(p: TrendPoint): nat { p.studies }
  function MeetingsField(p: TrendPoint): nat { p.meetings }
  function TasksField(p: TrendPoint): nat { p.tasks }

  /** The month of every contract, quotation and study of a company is among the months. */
  lemma CompanyKeysListed<T>(companies: seq<Company>, meetings: seq<Meeting>, tasks: seq<Task>,
                             items: Company -> seq<T>, key: T -> string)
    requires forall c: Company, x: T :: x in items(c) ==> key(x) in CompanyMonths(c)
    ensures var flat := Flatten(Map(companies, items));
      forall i :: 0 <= i < |flat| ==> key(flat[i]) in Months(companies, meetings, tasks)
  {
    var flat := Flatten(Map(companies, items));
    var monthsOf := Map(companies, CompanyMonths);
    forall i | 0 <= i < |flat|
      ensures key(flat[i]) in Months(companies, meetings, tasks)
    {
      var x := flat[i];
      FlattenMember(Map(companies, items), x);
      var j :| 0 <= j < |companies| && x in Map(companies, items)[j];
      assert key(x) in monthsOf[j];
      FlattenMember(monthsOf, key(x));
    }
  }

  lemma ContractKeysInCompanyMonths()
    ensures forall c: Company, x: Contract :: x in ContractsOf(c) ==> ContractMonth(x) in CompanyMonths(c)
  {
    forall c: Company, x: Contract | x in ContractsOf(c)
      ensures ContractMonth(x) in CompanyMonths(c)
    {
      var i :| 0 <= i < |ContractsOf(c)| && ContractsOf(c)[i] == x;
      assert Map(ContractsOf(c), ContractMonth)[i] == ContractMonth(x);
    }
  }

  lemma QuotationKeysInCompanyMonths()
    ensures forall c: Company, x: Quotation :: x in QuotationsOf(c) ==> QuotationMonth(x) in CompanyMonths(c)
  {
    forall c: Company, x: Quotation | x in QuotationsOf(c)
      ensures QuotationMonth(x) in CompanyMonths(c)
    {
      var i :| 0 <= i < |QuotationsOf(c)| && QuotationsOf(c)[i] == x;
      assert Map(QuotationsOf(c), QuotationMonth)[i] == QuotationMonth(x);
    }
  }

  lemma StudyKeysInCompanyMonths()
    ensures forall c: Company, x: Study :: x in StudiesOf(c) ==> StudyMonth(x) in CompanyMonths(c)
  {
    forall c: Company, x: Study | x in StudiesOf(c)
      ensures StudyMonth(x) in CompanyMonths(c)
    {
      var i :| 0 <= i < |StudiesOf(c)| && StudiesOf(c)[i] == x;
      assert Map(StudiesOf(c), StudyMonth)[i] == StudyMonth(x);
    }
  }

  /** A by-company series over the months is the per-month count of all the companies' records together. */
  lemma NestedSeriesIsFlat<T>(companies: seq<Company>, items: Company -> seq<T>, key: T -> string,
                              months: seq<string>, series: seq<nat>)
    requires |series| == |months|
    requires forall i :: 0 <= i < |series| ==> series[i] == NestedCountIn(companies, items, key, months[i])
    ensures series == Map(months, Counter(Flatten(Map(companies, items)), key))
  {
    forall i | 0 <= i < |series|
      ensures series[i] == Counter(Flatten(Map(companies, items)), key)(months[i])
    {
      NestedCountIsFlat(companies, items, key, months[i]);
    }
  }

  /** Summing a by-company series over all months gives the total of that kind. */
  lemma NestedSeriesAddsUp<T>(companies: seq<Company>, meetings: seq<Meeting>, tasks: seq<Task>,
                              items: Company -> seq<T>, key: T -> string, series: seq<nat>)
    requires forall c: Company, x: T :: x in items(c) ==> key(x) in CompanyMonths(c)
    requires |series| == |Months(companies, meetings, tasks)|
    requires forall i :: 0 <= i < |series| ==> series[i] == NestedCountIn(companies, items, key, Months(companies, meetings, tasks)[i])
    ensures Sum(series) == Sum(Map(companies, CountOf(items)))
  {
    var months := Months(companies, meetings, tasks);
    NestedSeriesIsFlat(companies, items, key, months, series);
    CompanyKeysListed(companies, meetings, tasks, items, key);
    CountsAddUp(Flatten(Map(companies, items)), key, months);
    TotalIsFlatLength(companies, items);
  }

  /** The contract counts of the trend series add up to `totalContracts`. */
  lemma TrendContractsAddUp(companies: seq<Company>, meetings: seq<Meeting>, tasks: seq<Task>)
    ensures Sum(Map(TrendData(companies, meetings, tasks), ContractsField)) == TotalContracts(companies)
  {
    ContractKeysInCompanyMonths();
    NestedSeriesAddsUp(companies, meetings, tasks, ContractsOf, ContractMonth,
      Map(TrendData(companies, meetings, tasks), ContractsField));
  }

  /** The quotation counts of the trend series add up to `totalQuotations`. */
  lemma TrendQuotationsAddUp(companies: seq<Company>, meetings: seq<Meeting>, tasks: seq<Task>)
    ensures Sum(Map(TrendData(companies, meetings, tasks), QuotationsField)) == TotalQuotations(companies)
  {
    QuotationKeysInCompanyMonths();
    NestedSeriesAddsUp(companies, meetings, tasks, QuotationsOf, QuotationMonth,
      Map(TrendData(companies, meetings, tasks), QuotationsField));
  }

  /** The study counts of the trend series add up to `totalStudies`. */
  lemma TrendStudiesAddUp(companies: seq<Company>, meetings: seq<Meeting>, tasks: seq<Task>)
    ensures Sum(Map(TrendData(companies, meetings, tasks), StudiesField)) == TotalStudies(companies)
  {
    StudyKeysInCompanyMonths();
    NestedSeriesAddsUp(companies, meetings, tasks, StudiesOf, StudyMonth,
      Map(TrendData(companies, meetings, tasks), StudiesField));
  }

  /** The meeting counts of the trend series add up to `totalMeetings`. */
  lemma TrendMeetingsAddUp(companies: seq<Company>, meetings: seq<Meeting>, tasks: seq<Task>)
    ensures Sum(Map(TrendData(companies, meetings, tasks), MeetingsField)) == |meetings|
  {
    var months := Months(companies, meetings, tasks);
    assert Map(TrendData(companies, meetings, tasks), MeetingsField) == Map(months, Counter(meetings, MeetingMonth));
    forall i | 0 <= i < |meetings|
      ensures MeetingMonth(meetings[i]) in months
    {
      var keys := AllMonthKeys(companies, meetings, tasks);
      var flat := Flatten(Map(companies, CompanyMonths));
      assert keys[|flat| + i] == MeetingMonth(meetings[i]);
    }
    CountsAddUp(meetings, MeetingMonth, months);
  }

  /** The task counts of the trend series add up to `totalTasks`. */
  lemma TrendTasksAddUp(companies: seq<Company>, meetings: seq<Meeting>, tasks: seq<Task>)
    ensures Sum(Map(TrendData(companies, meetings, tasks), TasksField)) == |tasks|
  {
    var months := Months(companies, meetings, tasks);
    assert Map(TrendData(companies, meetings, tasks), TasksField) == Map(months, Counter(tasks, TaskMonth));
    forall i | 0 <= i < |tasks|
      ensures TaskMonth(tasks[i]) in months
    {
      var keys := AllMonthKeys(companies, meetings, tasks);
      var flat := Flatten(Map(companies, CompanyMonths));
      assert keys[|flat| + |meetings| + i] == TaskMonth(tasks[i]);
    }
    CountsAddUp(tasks, TaskMonth, months);
  }
}
