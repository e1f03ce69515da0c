/**
 * The records the CRM keeps (client/src/types.ts, server/src/data.ts).
 * Optional TypeScript fields are `Option`s; the optional lists of a company
 * are `Option<seq<...>>`, read as `c.contracts || []` with `GetOr([])`.
 */
module Domain {
  import opened Wrappers

  datatype Contact = Contact(
    id: string,
    name: string,
    email: Option<string>,
    phone: Option<string>,
    isPrimary: bool,
    department: Option<string>,
    fax: Option<string>)

  /**
   * The payment terms of a quotation or contract. The declared field type is
   * a string, but the company form stores an object with an advance, a list
   * of interim payments and a balance; an empty string is an amount not
   * entered.
   */
  datatype PaymentTerms =
    | Plain(text: string)
    | Structured(advance: string, interims: Option<seq<string>>, balance: string)

  datatype Quotation = Quotation(
    id: string,
    contactId: string,
    quotationNumber: string,
    quotationName: string,
    quotationAmount: string,
    discountRate: Option<string>,
    paymentTerms: Option<PaymentTerms>)

  datatype Contract = Contract(
    id: string,
    contactId: string,
    contractNumber: string,
    contractName: string,
    contractAmount: string,
    contractPeriodStart: string,
    contractPeriodEnd: string,
    contractSigningDate: Option<string>,
    paymentTerms: Option<PaymentTerms>,
    taxInvoiceIssued: Option<bool>,
    taxInvoiceIssueDate: Option<string>,
    quotationId: Option<string>)

  datatype Study = Study(
    id: string,
    contactId: string,
    studyNumber: string,
    studyName: string,
    studyDirector: string,
    studyPeriodStart: string,
    studyPeriodEnd: string,
    testingStandards: Option<string>,
    substanceInfo: Option<string>,
    submissionPurpose: Option<string>)

  datatype Company = Company(
    id: string,
    name: string,
    address: string,
    contacts: seq<Contact>,
    notes: Option<string>,
    createdAt: string,
    quotations: Option<seq<Quotation>>,
    contracts: Option<seq<Contract>>,
    studies: Option<seq<Study>>,
    website: Option<string>,
    mainPhoneNumber: Option<string>)

  datatype Meeting = Meeting(
    id: string,
    companyId: string,
    contactId: Option<string>,
    title: string,
    date: string,
    attendees: string,
    summary: string,
    actionItems: Option<string>)

  datatype TaskStatus = Pending | InProgress | Completed | Delayed | OnHold

  datatype Task = Task(
    id: string,
    companyId: string,
    contactId: Option<string>,
    name: string,
    description: Option<string>,
    startDate: string,
    endDate: string,
    status: TaskStatus,
    assignee: Option<string>)

  /** The `type` of a notification. */
  datatype NotificationKind = Info | Warning | Error

  datatype NotificationItem = NotificationItem(
    id: string,
    message: string,
    kind: NotificationKind,
    relatedId: Option<string>,
    isRead: bool,
    createdAt: string)
}
