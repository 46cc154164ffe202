/** The franchise-enquiry document: its fields, the closed status enum, the
    schema defaults and setters, and what the schema validates on save. */
module FranchiseEnquiryModel {
  import opened Common
  import opened Strings

  /** The seven values of the `status` enum. */
  datatype EnquiryStatus =
    | Pending
    | HrApproved
    | HrRejected
    | OperationalApproved
    | OperationalRejected
    | Approved
    | Rejected

  const AllStatuses: seq<EnquiryStatus> :=
    [Pending, HrApproved, HrRejected, OperationalApproved, OperationalRejected, Approved, Rejected]

  /** The stored spelling of each status. */
  function StatusName(s: EnquiryStatus): string {
    match s
    case Pending => "pending"
    case HrApproved => "hr_approved"
    case HrRejected => "hr_rejected"
    case OperationalApproved => "operational_approved"
    case OperationalRejected => "operational_rejected"
    case Approved => "approved"
    case Rejected => "rejected"
  }

  /** Casting a string to the enum, as the schema's enum validator does: a string is
      accepted only when it is the stored spelling of the status it yields. */
  function ParseStatus(name: string): (r: Option<EnquiryStatus>)
    ensures r.Some? ==> StatusName(r.value) == name
  {
    if name == "pending" then Some(Pending)
    else if name == "hr_approved" then Some(HrApproved)
    else if name == "hr_rejected" then Some(HrRejected)
    else if name == "operational_approved" then Some(OperationalApproved)
    else if name == "operational_rejected" then Some(OperationalRejected)
    else if name == "approved" then Some(Approved)
    else if name == "rejected" then Some(Rejected)
    else None
  }

  /** Every stored spelling is accepted: with `ParseStatus`'s own contract, a string casts
      to a status exactly when it is that status's spelling. */
  lemma ParseStatusName(s: EnquiryStatus)
    ensures ParseStatus(StatusName(s)) == Some(s)
  {
  }

  lemma AllStatusesListed(s: EnquiryStatus)
    ensures s in AllStatuses
  {
  }

  /** A stored enquiry. `partnerType` is what a read of `enquiry.partnerType` yields; the
      schema does not declare it (see `NewEnquiry`). */
  datatype Enquiry = Enquiry(
    id: Id,
    name: string,
    email: string,
    phone: string,
    location: string,
    city: Option<string>,
    state: Option<string>,
    message: Option<string>,
    status: EnquiryStatus,
    hrNotes: string,
    operationalNotes: string,
    hrApprovedBy: Option<Id>,
    operationalApprovedBy: Option<Id>,
    hrApprovedAt: Option<Time>,
    operationalApprovedAt: Option<Time>,
    submittedAt: Time,
    partnerType: Option<PartnerType>)

  /** The object handed to the model's constructor (absent paths are `None`). */
  datatype EnquiryFields = EnquiryFields(
    name: string,
    email: string,
    phone: string,
    location: string,
    city: Option<string>,
    state: Option<string>,
    message: Option<string>,
    status: Option<EnquiryStatus>,
    hrNotes: Option<string>,
    operationalNotes: Option<string>,
    hrApprovedBy: Option<Id>,
    operationalApprovedBy: Option<Id>,
    hrApprovedAt: Option<Time>,
    operationalApprovedAt: Option<Time>,
    submittedAt: Option<Time>,
    partnerType: Option<PartnerType>)

  function TrimOpt(s: Option<string>): Option<string> {
    match s
    case None => None
    case Some(v) => Some(Trim(v))
  }

  /** An optional value that is absent or has no white space at its edges. */
  predicate TrimmedOpt(s: Option<string>) {
    s.None? || Trimmed(s.value)
  }

  /** The `trim` setter keeps a path's presence and leaves it without edge white space. */
  lemma TrimOptTrimmed(s: Option<string>)
    ensures TrimOpt(s).Some? == s.Some? && TrimmedOpt(TrimOpt(s))
  {
  }

  /** `new FranchiseEnquiry(fields)`: the `trim`/`lowercase` setters, then the defaults
      for the paths left absent (status pending, empty notes, no approvers, `submittedAt`
      the current time); a path that is present is stored as given.
      Under the default strict schema mode a path the schema does not declare
      (`partnerType`) is dropped. */
  function NewEnquiry(id: Id, f: EnquiryFields, now: Time, strict: bool): (e: Enquiry)
    ensures e.id == id
    ensures e.name == Trim(f.name) && e.phone == Trim(f.phone) && e.location == Trim(f.location)
    ensures e.email == NormalizeStored(f.email)
    ensures e.city == TrimOpt(f.city) && e.state == TrimOpt(f.state) && e.message == TrimOpt(f.message)
    ensures Normalized(e)
    ensures f.status.None? ==> e.status == Pending
    ensures f.status.Some? ==> e.status == f.status.value
    ensures f.hrNotes.None? ==> e.hrNotes == ""
    ensures f.hrNotes.Some? ==> e.hrNotes == f.hrNotes.value
    ensures f.operationalNotes.None? ==> e.operationalNotes == ""
    ensures f.operationalNotes.Some? ==> e.operationalNotes == f.operationalNotes.value
    ensures e.hrApprovedBy == f.hrApprovedBy && e.hrApprovedAt == f.hrApprovedAt
    ensures e.operationalApprovedBy == f.operationalApprovedBy && e.operationalApprovedAt == f.operationalApprovedAt
    ensures f.submittedAt.None? ==> e.submittedAt == now
    ensures f.submittedAt.Some? ==> e.submittedAt == f.submittedAt.value
    ensures e.partnerType == if strict then None else f.partnerType
  {
    Enquiry(
      id := id,
      name := Trim(f.name),
      email := NormalizeStored(f.email),
      phone := Trim(f.phone),
      location := Trim(f.location),
      city := TrimOpt(f.city),
      state := TrimOpt(f.state),
      message := TrimOpt(f.message),
      status := f.status.GetOr(Pending),
      hrNotes := f.hrNotes.GetOr(""),
      operationalNotes := f.operationalNotes.GetOr(""),
      hrApprovedBy := f.hrApprovedBy,
      operationalApprovedBy := f.operationalApprovedBy,
      hrApprovedAt := f.hrApprovedAt,
      operationalApprovedAt := f.operationalApprovedAt,
      submittedAt := f.submittedAt.GetOr(now),
      partnerType := if strict then None else f.partnerType)
  }

  /** The schema's `required` validators, run on every save: an empty string fails. */
  predicate EnquiryStorable(e: Enquiry) {
    e.name != "" && e.email != "" && e.phone != "" && e.location != ""
  }

  /** The schema setters have run: the string paths are trimmed, the email is trimmed
      and lowercased. */
  predicate Normalized(e: Enquiry) {
    Trimmed(e.name) && Trimmed(e.phone) && Trimmed(e.location) && Trimmed(e.email) && IsLower(e.email)
  }

  /** Each approver is recorded together with the time of approval. The schema does not
      enforce it (a public body may name an approver without a time); the approval steps
      keep it. */
  predicate Paired(e: Enquiry) {
    && (e.hrApprovedBy.Some? <==> e.hrApprovedAt.Some?)
    && (e.operationalApprovedBy.Some? <==> e.operationalApprovedAt.Some?)
  }
}
