/**
 * The client list (client/src/App.tsx:639-647, 699): a case-insensitive
 * search on the company name, a stable sort by name or by registration date
 * in either direction, and the contact shown as a company's representative.
 * `localeCompare` is replaced by code-point order and `toLowerCase` by ASCII
 * case folding.
 */
module ClientList {
  import opened Wrappers
  import opened Lists
  import opened Sorting
  import opened Text
  import opened Dates
  import opened Domain

  datatype SortKey = Name | CreatedAt

  predicate Matches(c: Company, search: string) {
    Contains(ToLower(c.name), ToLower(search))
  }

  function MatchTest(search: string): Company -> bool {
    (c: Company) => Matches(c, search)
  }

  /** The companies whose lower-cased name contains the lower-cased search text, in list order. */
  function Search(companies: seq<Company>, search: string): (r: seq<Company>)
    ensures forall i :: 0 <= i < |r| ==> r[i] in companies && Matches(r[i], search)
    ensures forall i :: 0 <= i < |companies| && Matches(companies[i], search) ==> companies[i] in r
  {
    Filter(companies, MatchTest(search))
  }

  /** An empty search keeps every company, in order. */
  lemma EmptySearchKeepsAll(companies: seq<Company>)
    ensures Search(companies, "") == companies
  {
    FilterKeepsAll(companies, MatchTest(""));
  }

  lemma LowerCharIdempotent(c: char)
    ensures LowerChar(LowerChar(c)) == LowerChar(c)
  {
  }

  /** Searching is blind to the case of the search text. */
  lemma SearchIgnoresCase(companies: seq<Company>, search: string)
    ensures Search(companies, search) == Search(companies, ToLower(search))
  {
    var s := ToLower(search);
    forall i | 0 <= i < |search|
      ensures ToLower(s)[i] == s[i]
    {
      LowerCharIdempotent(search[i]);
    }
    assert ToLower(s) == s;
    FilterCongruent(companies, MatchTest(search), MatchTest(s));
  }

  function CreatedKey(c: Company): int {
    ParseInstant(c.createdAt).GetOr(0)
  }

  /** The comparator `a.name.localeCompare(b.name)` (or reversed) as "may stand before". */
  function NameOrder(asc: bool): (Company, Company) -> bool {
    if asc then (a: Company, b: Company) => StrLe(a.name, b.name)
    else (a: Company, b: Company) => StrLe(b.name, a.name)
  }

  function Comparator(key: SortKey, asc: bool): (Company, Company) -> bool {
    match key
    case Name => NameOrder(asc)
    case CreatedAt => if asc then Ascending(CreatedKey) else Descending(CreatedKey)
  }

  lemma ComparatorIsTotalPreorder(key: SortKey, asc: bool)
    ensures TotalPreorder(Comparator(key, asc))
  {
    match key
    case CreatedAt =>
      AscendingIsTotalPreorder(CreatedKey);
      DescendingIsTotalPreorder(CreatedKey);
    case Name =>
      var le := NameOrder(asc);
      forall a: Company, b: Company
        ensures le(a, b) || le(b, a)
      {
        StrLeTotal(a.name, b.name);
      }
      forall a: Company, b: Company, c: Company | le(a, b) && le(b, c)
        ensures le(a, c)
      {
        if asc {
          StrLeTransitive(a.name, b.name, c.name);
        } else {
          StrLeTransitive(c.name, b.name, a.name);
        }
      }
  }

  /** `filteredCompanies`: the matching companies, sorted by the chosen key and direction. */
  function FilteredCompanies(companies: seq<Company>, search: string, key: SortKey, asc: bool): (r: seq<Company>)
    ensures multiset(r) == multiset(Search(companies, search))
    ensures SortedBy(r, Comparator(key, asc))
  {
    ComparatorIsTotalPreorder(key, asc);
    SortSorted(Search(companies, search), Comparator(key, asc));
    Sort(Search(companies, search), Comparator(key, asc))
  }

  /** A company is listed exactly when it is in the store and matches the search. */
  lemma FilteredCompaniesMembers(companies: seq<Company>, search: string, key: SortKey, asc: bool, c: Company)
    ensures c in FilteredCompanies(companies, search, key, asc) <==> c in companies && Matches(c, search)
  {
    var found := Search(companies, search);
    var r := FilteredCompanies(companies, search, key, asc);
    assert c in r <==> c in multiset(r);
    assert c in found <==> c in multiset(found);
    if c in companies && Matches(c, search) {
      var i :| 0 <= i < |companies| && companies[i] == c;
    }
    if c in found {
      var i :| 0 <= i < |found| && found[i] == c;
    }
  }

  /** Sorted by name ascending, names never decrease along the list. */
  lemma ByNameAscending(companies: seq<Company>, search: string)
    ensures var r := FilteredCompanies(companies, search, Name, true);
      forall i, j :: 0 <= i < j < |r| ==> StrLe(r[i].name, r[j].name)
  {
    var r := FilteredCompanies(companies, search, Name, true);
    assert SortedBy(r, Comparator(Name, true));
  }

  function PrimaryTest(): Contact -> bool {
    (c: Contact) => c.isPrimary
  }

  /**
   * The representative contact: the first primary contact's name when it is
   * non-empty, otherwise the first contact's name, otherwise "-".
   */
  function PrimaryContactName(contacts: seq<Contact>): (r: string)
    ensures contacts == [] ==> r == "-"
    ensures r == "-" || exists i :: 0 <= i < |contacts| && contacts[i].name == r
  {
    match Find(contacts, PrimaryTest())
    case Some(p) => if p.name != "" then p.name else if contacts == [] then "-" else contacts[0].name
    case None => if contacts == [] then "-" else contacts[0].name
  }

  /** When the first primary contact has a name, that name is shown. */
  lemma PrimaryContactShown(contacts: seq<Contact>, i: nat)
    requires i < |contacts| && contacts[i].isPrimary && contacts[i].name != ""
    requires forall j :: 0 <= j < i ==> !contacts[j].isPrimary
    ensures PrimaryContactName(contacts) == contacts[i].name
  {
    assert FirstIndex(contacts, PrimaryTest()) == i;
  }

  /**
   * Without a primary contact, or when the first primary contact has an empty
   * name, the first contact's name is shown.
   */
  lemma PrimaryContactFallback(contacts: seq<Contact>)
    requires contacts != []
    requires forall i :: 0 <= i < |contacts| && contacts[i].isPrimary && (forall j :: 0 <= j < i ==> !contacts[j].isPrimary) ==>
      contacts[i].name == ""
    ensures PrimaryContactName(contacts) == contacts[0].name
  {
    var k := FirstIndex(contacts, PrimaryTest());
    if k >= 0 {
      assert contacts[k].name == "";
    }
  }
}
