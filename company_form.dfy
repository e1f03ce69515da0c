/**
 * The company form's list editing, validation and tab navigation
 * (client/src/components.tsx:149, 190-245, 693-710). Each list of the form
 * changes only by a new array: `map` for the primary-contact choice, a
 * guarded append for the add buttons, `filter` for the remove buttons.
 * The new entry's id, `Date.now().toString()`, is a parameter.
 */
module CompanyForm {
  import opened Wrappers
  import opened Lists
  import opened Text
  import opened Domain
  import opened ClientList

  // ------------------------------------------------------------- contacts

  function PrimaryCount(contacts: seq<Contact>): nat {
    |Filter(contacts, PrimaryTest())|
  }

  /** Contact `i` is primary and no other contact is. */
  predicate OnlyPrimary(contacts: seq<Contact>, i: int) {
    && 0 <= i < |contacts|
    && contacts[i].isPrimary
    && forall j :: 0 <= j < |contacts| && j != i ==> !contacts[j].isPrimary
  }

  lemma NoPrimaryIff(contacts: seq<Contact>)
    ensures PrimaryCount(contacts) == 0 <==> forall j :: 0 <= j < |contacts| ==> !contacts[j].isPrimary
  {
    var r := Filter(contacts, PrimaryTest());
    if r != [] {
      assert r[0] in contacts;
      var j :| 0 <= j < |contacts| && contacts[j] == r[0];
      assert contacts[j].isPrimary;
    }
  }

  /** `contacts.filter(c => c.isPrimary).length === 1` says that exactly one contact is primary. */
  lemma {:induction false} ExactlyOnePrimary(contacts: seq<Contact>)
    ensures PrimaryCount(contacts) == 1 <==> exists i :: OnlyPrimary(contacts, i)
    decreases |contacts|
  {
    if contacts != [] {
      var tail := contacts[1..];
      ExactlyOnePrimary(tail);
      NoPrimaryIff(tail);
      if contacts[0].isPrimary {
        assert PrimaryCount(contacts) == 1 + PrimaryCount(tail);
        if PrimaryCount(tail) == 0 {
          forall j | 0 < j < |contacts|
            ensures !contacts[j].isPrimary
          {
            assert contacts[j] == tail[j - 1];
          }
          assert OnlyPrimary(contacts, 0);
        }
        if exists i :: OnlyPrimary(contacts, i) {
          var i :| OnlyPrimary(contacts, i);
          assert i == 0;
          forall j | 0 <= j < |tail|
            ensures !tail[j].isPrimary
          {
            assert tail[j] == contacts[j + 1];
          }
        }
      } else {
        assert PrimaryCount(contacts) == PrimaryCount(tail);
        if exists i :: OnlyPrimary(tail, i) {
          var i :| OnlyPrimary(tail, i);
          forall j | 0 <= j < |contacts| && j != i + 1
            ensures !contacts[j].isPrimary
          {
            if j > 0 {
              assert contacts[j] == tail[j - 1];
            }
          }
          assert OnlyPrimary(contacts, i + 1);
        }
        if exists i :: OnlyPrimary(contacts, i) {
          var i :| OnlyPrimary(contacts, i);
          assert i > 0;
          forall j | 0 <= j < |tail| && j != i - 1
            ensures !tail[j].isPrimary
          {
            assert tail[j] == contacts[j + 1];
          }
          assert OnlyPrimary(tail, i - 1);
        }
      }
    }
  }

  /** `handlePrimaryChange(idx)`: contact `idx` becomes the primary one and every other contact stops being primary. */
  function HandlePrimaryChange(contacts: seq<Contact>, idx: int): (r: seq<Contact>)
    ensures |r| == |contacts|
    ensures forall i :: 0 <= i < |r| ==> r[i].isPrimary == (i == idx)
    ensures forall i :: 0 <= i < |r| ==> r[i].(isPrimary := contacts[i].isPrimary) == contacts[i]
  {
    seq(|contacts|, i requires 0 <= i < |contacts| => contacts[i].(isPrimary := i == idx))
  }

  /** Choosing a contact in range leaves exactly that one primary; an index out of range leaves none. */
  lemma PrimaryChangeSelects(contacts: seq<Contact>, idx: int)
    ensures 0 <= idx < |contacts| ==> OnlyPrimary(HandlePrimaryChange(contacts, idx), idx)
    ensures 0 <= idx < |contacts| ==> PrimaryCount(HandlePrimaryChange(contacts, idx)) == 1
    ensures !(0 <= idx < |contacts|) ==> PrimaryCount(HandlePrimaryChange(contacts, idx)) == 0
  {
    var r := HandlePrimaryChange(contacts, idx);
    ExactlyOnePrimary(r);
    NoPrimaryIff(r);
  }

  // --------------------------------------------------- adding and removing

  /** What an add button leaves behind: the list and the draft shown in the inputs. */
  datatype Added<T> = Added(items: seq<T>, draft: T)

  /** The name holds a character other than white space, so `!name.trim()` is false. */
  predicate HasText(name: string) {
    exists i :: 0 <= i < |name| && !IsJsWhitespace(name[i])
  }

  lemma HasTextIff(name: string)
    ensures Trim(name) != [] <==> HasText(name)
  {
    TrimEmptyIffBlank(name);
  }

  const BlankContact: Contact := Contact("", "", Some(""), Some(""), false, Some(""), Some(""))

  /** `addContact`: a contact whose name is blank is not added; otherwise the draft is appended under the new id and the inputs are cleared. */
  function AddContact(contacts: seq<Contact>, draft: Contact, stamp: string): (r: Added<Contact>)
    ensures !HasText(draft.name) ==> r == Added(contacts, draft)
    ensures HasText(draft.name) ==>
      && |r.items| == |contacts| + 1 && r.items[..|contacts|] == contacts
      && r.items[|contacts|].id == stamp && r.items[|contacts|].(id := draft.id) == draft
      && r.draft == BlankContact
  {
    HasTextIff(draft.name);
    if Trim(draft.name) == [] then Added(contacts, draft)
    else Added(contacts + [draft.(id := stamp)], BlankContact)
  }

  const BlankQuotation: Quotation := Quotation("", "", "", "", "", Some(""), Some(Plain("")))

  /** `addQuotation`: the same rule on the quotation name. */
  function AddQuotation(quotations: seq<Quotation>, draft: Quotation, stamp: string): (r: Added<Quotation>)
    ensures !HasText(draft.quotationName) ==> r == Added(quotations, draft)
    ensures HasText(draft.quotationName) ==>
      && |r.items| == |quotations| + 1 && r.items[..|quotations|] == quotations
      && r.items[|quotations|].id == stamp && r.items[|quotations|].(id := draft.id) == draft
      && r.draft == BlankQuotation
  {
    HasTextIff(draft.quotationName);
    if Trim(draft.quotationName) == [] then Added(quotations, draft)
    else Added(quotations + [draft.(id := stamp)], BlankQuotation)
  }

  const BlankContract: Contract :=
    Contract("", "", "", "", "", "", "", Some(""), Some(Plain("")), Some(false), Some(""), None)

  /** `addContract`: the same rule on the contract name. */
  function AddContract(contracts: seq<Contract>, draft: Contract, stamp: string): (r: Added<Contract>)
    ensures !HasText(draft.contractName) ==> r == Added(contracts, draft)
    ensures HasText(draft.contractName) ==>
      && |r.items| == |contracts| + 1 && r.items[..|contracts|] == contracts
      && r.items[|contracts|].id == stamp && r.items[|contracts|].(id := draft.id) == draft
      && r.draft == BlankContract
  {
    HasTextIff(draft.contractName);
    if Trim(draft.contractName) == [] then Added(contracts, draft)
    else Added(contracts + [draft.(id := stamp)], BlankContract)
  }

  const BlankStudy: Study := Study("", "", "", "", "", "", "", Some(""), Some(""), Some(""))

  /** `addStudy`: the same rule on the study name. */
  function AddStudy(studies: seq<Study>, draft: Study, stamp: string): (r: Added<Study>)
    ensures !HasText(draft.studyName) ==> r == Added(studies, draft)
    ensures HasText(draft.studyName) ==>
      && |r.items| == |studies| + 1 && r.items[..|studies|] == studies
      && r.items[|studies|].id == stamp && r.items[|studies|].(id := draft.id) == draft
      && r.draft == BlankStudy
  {
    HasTextIff(draft.studyName);
    if Trim(draft.studyName) == [] then Added(studies, draft)
    else Added(studies + [draft.(id := stamp)], BlankStudy)
  }

  function ContactId(c: Contact): string { c.id }
  function QuotationId(q: Quotation): string { q.id }
  function ContractId(c: Contract): string { c.id }
  function StudyId(s: Study): string { s.id }

  /** Adding a contact and removing it again by its new id leaves the contact list as it was. */
  lemma AddThenRemoveContact(contacts: seq<Contact>, draft: Contact, stamp: string)
    requires forall i :: 0 <= i < |contacts| ==> contacts[i].id != stamp
    ensures RemoveById(AddContact(contacts, draft, stamp).items, ContactId, stamp) == contacts
  {
    if HasText(draft.name) {
      var r := AddContact(contacts, draft, stamp);
      assert r.items == contacts + [draft.(id := stamp)];
      RemoveUndoesAdd(contacts, ContactId, draft.(id := stamp));
    } else {
      RemoveMissingId(contacts, ContactId, stamp);
    }
  }

  // ------------------------------------------------------------ validation

  /** `isValid()`. */
  function IsValid(name: string, address: string, contacts: seq<Contact>): bool {
    Trim(name) != [] && Trim(address) != [] && |contacts| != 0 && PrimaryCount(contacts) == 1
  }

  /**
   * The form is valid exactly when name and address hold some text and one
   * contact, and only one, is primary; the separate non-empty check is
   * implied by the last condition.
   */
  lemma IsValidIff(name: string, address: string, contacts: seq<Contact>)
    ensures IsValid(name, address, contacts) <==>
      HasText(name) && HasText(address) && exists i :: OnlyPrimary(contacts, i)
  {
    HasTextIff(name);
    HasTextIff(address);
    ExactlyOnePrimary(contacts);
  }

  /** Choosing a primary contact makes a form with a name, an address and contacts valid. */
  lemma PrimaryChangeValidates(name: string, address: string, contacts: seq<Contact>, idx: int)
    requires HasText(name) && HasText(address) && 0 <= idx < |contacts|
    ensures IsValid(name, address, HandlePrimaryChange(contacts, idx))
  {
    PrimaryChangeSelects(contacts, idx);
    HasTextIff(name);
    HasTextIff(address);
  }

  // ----------------------------------------------------------------- tabs

  datatype Tab = InfoTab | QuotationsTab | ContractsTab | StudiesTab | SummaryTab

  /** The "previous" button: hidden on the first tab, otherwise one step back. */
  function PrevTab(tab: Tab): Option<Tab> {
    if tab == InfoTab then None
    else Some(match tab
      case QuotationsTab => InfoTab
      case ContractsTab => QuotationsTab
      case StudiesTab => ContractsTab
      case _ => InfoTab)
  }

  /** The "next" button: hidden on the studies tab, where the save button shows, otherwise one step on. */
  function NextTab(tab: Tab): Option<Tab> {
    if tab == StudiesTab then None
    else Some(match tab
      case InfoTab => QuotationsTab
      case QuotationsTab => ContractsTab
      case ContractsTab => StudiesTab
      case _ => StudiesTab)
  }

  /** The position of a wizard step. */
  function StepOf(tab: Tab): nat {
    match tab
    case InfoTab => 0
    case QuotationsTab => 1
    case ContractsTab => 2
    case StudiesTab => 3
    case SummaryTab => 4
  }

  /**
   * The buttons walk the four steps in order: "next" moves one step
   * forward and "previous" one step back, each undoes the other, and
   * neither ever leads to the summary tab.
   */
  lemma TabsWalkInOrder(tab: Tab)
    ensures NextTab(tab).None? <==> tab == StudiesTab
    ensures PrevTab(tab).None? <==> tab == InfoTab
    ensures tab != SummaryTab && NextTab(tab).Some? ==> StepOf(NextTab(tab).value) == StepOf(tab) + 1
    ensures tab != SummaryTab && PrevTab(tab).Some? ==> StepOf(PrevTab(tab).value) + 1 == StepOf(tab)
    ensures tab != SummaryTab && tab != StudiesTab ==> PrevTab(NextTab(tab).value) == Some(tab)
    ensures tab != SummaryTab && tab != InfoTab ==> NextTab(PrevTab(tab).value) == Some(tab)
    ensures NextTab(tab) != Some(SummaryTab) && PrevTab(tab) != Some(SummaryTab)
  {
  }

  /** Pressing "next" `n` times from a tab, stopping where the button disappears. */
  function NextTimes(tab: Tab, n: nat): Tab
    decreases n
  {
    if n == 0 then tab
    else match NextTab(tab)
      case None => tab
      case Some(t) => NextTimes(t, n - 1)
  }

  /** Three presses of "next" from the first tab reach the studies tab, and the save button. */
  lemma InfoReachesStudies()
    ensures NextTimes(InfoTab, 3) == StudiesTab
    ensures forall n :: n >= 3 ==> NextTimes(InfoTab, n) == StudiesTab
  {
    forall n | n >= 3
      ensures NextTimes(InfoTab, n) == StudiesTab
    {
      assert NextTimes(InfoTab, n) == NextTimes(QuotationsTab, n - 1);
      assert NextTimes(QuotationsTab, n - 1) == NextTimes(ContractsTab, n - 2);
      assert NextTimes(ContractsTab, n - 2) == NextTimes(StudiesTab, n - 3);
    }
  }
}
