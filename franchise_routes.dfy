/** The franchise routes: the public enquiry form, the approvers' queue, HR's manual
    partner entry, the franchise list and the two-step approval that ends in account
    provisioning. The role gate in front of a handler answers `Forbidden`. */
module FranchiseRoutes {
  import opened Common
  import opened Strings
  import opened Query
  import opened FranchiseEnquiryModel
  import opened FranchiseModel
  import opened Store
  import opened FranchiseCodes
  import opened FranchiseUtils

  /** `notEmpty()` on a body field: present and not "". It runs before the `trim()`
      sanitizer of the same chain, so a value of blanks passes. */
  predicate NotEmpty(v: Option<string>) {
    v.Some? && v.value != ""
  }

  /** `isEmail()`: its verdict comes with the body, and it never accepts a missing or
      blank value, nor one with white space at its edges. */
  predicate EmailAccepted(email: Option<string>, verdict: bool) {
    email.Some? && verdict && email.value != "" && Trimmed(email.value)
  }

  /** An email `isEmail()` accepts is stored non-empty, so it never makes the save fail. */
  lemma AcceptedEmailKept(email: Option<string>, verdict: bool)
    requires EmailAccepted(email, verdict)
    ensures NormalizeStored(email.value) != "" && |NormalizeStored(email.value)| == |email.value|
  {
    TrimOfTrimmed(email.value);
  }

  // ----- POST /enquiry (public) -----

  /** The public form's body. `emailValid` is the `isEmail()` verdict on `email`, and the
      `normalizeEmail()` output is `email` itself. Every other path the enquiry schema
      declares may be sent along too (the status, the notes, the approvers with their times
      and the submission time), and the constructor takes each from the body. A
      `partnerType`, which the schema does not declare, is kept only when the schema is
      not strict. */
  datatype EnquiryBody = EnquiryBody(
    name: Option<string>,
    email: Option<string>,
    emailValid: bool,
    phone: Option<string>,
    location: Option<string>,
    city: Option<string>,
    state: Option<string>,
    message: Option<string>,
    status: Option<string>,
    hrNotes: Option<string>,
    operationalNotes: Option<string>,
    hrApprovedBy: Option<Id>,
    operationalApprovedBy: Option<Id>,
    hrApprovedAt: Option<Time>,
    operationalApprovedAt: Option<Time>,
    submittedAt: Option<Time>,
    partnerType: Option<PartnerType>)

  /** The validator chain of the form. A body it passes has an email the schema's
      `required` validator accepts once stored. */
  predicate EnquiryBodyValid(b: EnquiryBody)
    ensures EnquiryBodyValid(b) ==> b.email.Some? && NormalizeStored(b.email.value) != ""
  {
    && NotEmpty(b.name) && EmailAccepted(b.email, b.emailValid)
    && (AcceptedEmailKept(b.email, b.emailValid); NotEmpty(b.phone))
    && NotEmpty(b.location)
  }

  /** The sanitized body as the constructor receives it. */
  function PublicFields(b: EnquiryBody, status: Option<EnquiryStatus>): EnquiryFields
    requires EnquiryBodyValid(b)
  {
    EnquiryFields(
      name := Trim(b.name.value),
      email := b.email.value,
      phone := Trim(b.phone.value),
      location := Trim(b.location.value),
      city := b.city,
      state := b.state,
      message := b.message,
      status := status,
      hrNotes := b.hrNotes,
      operationalNotes := b.operationalNotes,
      hrApprovedBy := b.hrApprovedBy,
      operationalApprovedBy := b.operationalApprovedBy,
      hrApprovedAt := b.hrApprovedAt,
      operationalApprovedAt := b.operationalApprovedAt,
      submittedAt := b.submittedAt,
      partnerType := b.partnerType)
  }

  /** What the public form stores and answers for a body, given the next id. A status in
      the body replaces the default `pending`; a status outside the enum, and a required
      field left empty by the trim, make the save throw. */
  function PublicSubmission(b: EnquiryBody, id: Id, now: Time, strict: bool): (r: Reply<Enquiry>)
    ensures r == Fail(ValidationFailed) <==> !EnquiryBodyValid(b)
    ensures r.Fail? ==> r.failure == ValidationFailed || r.failure == ServerError
    ensures r.Done? <==>
              && EnquiryBodyValid(b)
              && (b.status.None? || ParseStatus(b.status.value).Some?)
              && PublicBodyStorable(b)
    ensures r.Done? ==> r.status == 201 && r.value.id == id && r.value.submittedAt == b.submittedAt.GetOr(now)
    ensures r.Done? ==> EnquiryStorable(r.value) && Normalized(r.value)
    ensures r.Done? ==> r.value.name == Trim(b.name.value) && r.value.phone == Trim(b.phone.value) &&
                        r.value.location == Trim(b.location.value) &&
                        r.value.email == NormalizeStored(b.email.value)
    ensures r.Done? ==> r.value.city == TrimOpt(b.city) && r.value.state == TrimOpt(b.state) &&
                        r.value.message == TrimOpt(b.message)
    ensures r.Done? ==> r.value.hrNotes == b.hrNotes.GetOr("") &&
                        r.value.operationalNotes == b.operationalNotes.GetOr("")
    ensures r.Done? && b.status.None? ==> r.value.status == Pending
    ensures r.Done? && b.status.Some? ==> ParseStatus(b.status.value) == Some(r.value.status)
    ensures r.Done? ==> r.value.hrApprovedBy == b.hrApprovedBy && r.value.hrApprovedAt == b.hrApprovedAt
    ensures r.Done? ==> r.value.operationalApprovedBy == b.operationalApprovedBy &&
                        r.value.operationalApprovedAt == b.operationalApprovedAt
    ensures r.Done? ==> r.value.partnerType == if strict then None else b.partnerType
  {
    if !EnquiryBodyValid(b) then Fail(ValidationFailed)
    else if !PublicBodyStorable(b) then Fail(ServerError)
    else
      var status := if b.status.Some? then ParseStatus(b.status.value) else None;
      if b.status.Some? && status.None? then Fail(ServerError)
      else Done(201, PublicDocument(b, status, id, now, strict))
  }

  /** The required paths stay non-empty once trimmed and normalized. */
  predicate RequiredKept(name: string, email: string, phone: string, location: string) {
    Trim(name) != "" && Trim(phone) != "" && Trim(location) != "" && NormalizeStored(email) != ""
  }

  predicate PublicBodyStorable(b: EnquiryBody)
    requires EnquiryBodyValid(b)
  {
    RequiredKept(b.name.value, b.email.value, b.phone.value, b.location.value)
  }

  /** `new FranchiseEnquiry(req.body)` for a valid body whose status, if any, was cast. */
  function PublicDocument(b: EnquiryBody, status: Option<EnquiryStatus>, id: Id, now: Time, strict: bool)
    : (e: Enquiry)
    requires EnquiryBodyValid(b)
    ensures e.id == id && e.submittedAt == b.submittedAt.GetOr(now) && Normalized(e)
    ensures e.name == Trim(b.name.value) && e.phone == Trim(b.phone.value) &&
            e.location == Trim(b.location.value) && e.email == NormalizeStored(b.email.value)
    ensures e.city == TrimOpt(b.city) && e.state == TrimOpt(b.state) && e.message == TrimOpt(b.message)
    ensures e.hrNotes == b.hrNotes.GetOr("") && e.operationalNotes == b.operationalNotes.GetOr("")
    ensures e.status == status.GetOr(Pending)
    ensures e.hrApprovedBy == b.hrApprovedBy && e.hrApprovedAt == b.hrApprovedAt
    ensures e.operationalApprovedBy == b.operationalApprovedBy && e.operationalApprovedAt == b.operationalApprovedAt
    ensures e.partnerType == if strict then None else b.partnerType
    ensures EnquiryStorable(e) <==> PublicBodyStorable(b)
  {
    TrimIdempotent(b.name.value);
    TrimIdempotent(b.phone.value);
    TrimIdempotent(b.location.value);
    NewEnquiry(id, PublicFields(b, status), now, strict)
  }

  /** A status outside the enum makes the save throw. */
  lemma PublicSubmissionBadStatus(b: EnquiryBody, id: Id, now: Time, strict: bool)
    requires EnquiryBodyValid(b) && b.status.Some? && ParseStatus(b.status.value).None?
    ensures PublicSubmission(b, id, now, strict) == Fail(ServerError)
  {
  }

  /** The form stores an approver the caller names in the body, with or without a time:
      an anonymous submission can record an HR approval that no approval step made. */
  lemma PublicBodyNamesApprover(b: EnquiryBody, id: Id, now: Time, strict: bool)
    requires PublicSubmission(b, id, now, strict).Done?
    requires b.hrApprovedBy.Some? && b.hrApprovedAt.None?
    ensures PublicSubmission(b, id, now, strict).value.hrApprovedBy == b.hrApprovedBy
    ensures !Paired(PublicSubmission(b, id, now, strict).value)
  {
  }

  /** The city and state a form submission carries reach the franchise provisioned for
      it trimmed: a city left blank by the trim falls back to the trimmed location, a
      missing state to "". */
  lemma PublicCityReachesFranchise(b: EnquiryBody, id: Id, now: Time, strict: bool, uid: Id, code: string)
    requires EnquiryBodyValid(b) && PublicBodyStorable(b)
    requires b.status.None? || ParseStatus(b.status.value).Some?
    ensures PublicSubmission(b, id, now, strict).Done?
    ensures var f := ProvisionedFields(PublicSubmission(b, id, now, strict).value, uid, code);
            && f.city == Some(if b.city.Some? && Trim(b.city.value) != "" then Trim(b.city.value)
                              else Trim(b.location.value))
            && f.state == Some(if b.state.Some? then Trim(b.state.value) else "")
  {
    StoredCityState(b, id, now, strict);
    ProvisionedCityState(PublicSubmission(b, id, now, strict).value, b, uid, code);
  }

  /** A helper for `PublicCityReachesFranchise`: provisioning reads the trimmed city and
      state an enquiry was stored with. */
  lemma ProvisionedCityState(e: Enquiry, b: EnquiryBody, uid: Id, code: string)
    requires b.location.Some?
    requires e.city == TrimOpt(b.city) && e.state == TrimOpt(b.state) && e.location == Trim(b.location.value)
    ensures var f := ProvisionedFields(e, uid, code);
            && f.city == Some(if b.city.Some? && Trim(b.city.value) != "" then Trim(b.city.value)
                              else Trim(b.location.value))
            && f.state == Some(if b.state.Some? then Trim(b.state.value) else "")
  {
  }

  /** A helper for `PublicCityReachesFranchise`: the stored city, state and location. */
  lemma StoredCityState(b: EnquiryBody, id: Id, now: Time, strict: bool)
    requires EnquiryBodyValid(b) && PublicBodyStorable(b)
    requires b.status.None? || ParseStatus(b.status.value).Some?
    ensures var r := PublicSubmission(b, id, now, strict);
            && r.Done? && r.value.city == TrimOpt(b.city) && r.value.state == TrimOpt(b.state)
            && r.value.location == Trim(b.location.value)
  {
  }

  /** The part of the stored enquiry the form's answer shows. */
  datatype EnquirySummary = EnquirySummary(id: Id, name: string, email: string, status: EnquiryStatus)

  function Summary(e: Enquiry): EnquirySummary {
    EnquirySummary(e.id, e.name, e.email, e.status)
  }

  /** The handler: validation, the constructor, then `save()`, whose validators decide
      whether the document is written. */
  method SubmitEnquiry(db: Database, b: EnquiryBody, now: Time) returns (reply: Reply<EnquirySummary>)
    requires db.Valid()
    modifies db
    ensures db.unlogged == old(db.unlogged)
    ensures db.Valid()
    ensures db.franchises == old(db.franchises) && db.users == old(db.users) && db.logs == old(db.logs)
    ensures var p := PublicSubmission(b, old(db.nextId), now, db.strictSchema);
            && (p.Done? ==> db.enquiries == old(db.enquiries) + [p.value] &&
                            reply == Done(201, Summary(p.value)))
            && (p.Fail? ==> db.enquiries == old(db.enquiries) && reply == Fail(p.failure))
  {
    var p := PublicSubmission(b, db.nextId, now, db.strictSchema);
    if p.Fail? {
      return Fail(p.failure);
    }
    var saved := db.InsertEnquiry(p.value);
    assert saved;
    reply := Done(201, Summary(p.value));
  }

  // ----- GET /enquiry/pending -----

  /** The `role` and `status` query parameters. */
  datatype PendingQuery = PendingQuery(role: Option<string>, status: Option<string>)

  /** The statuses the handler's filter matches: the caller's stage for the `hr` and
      `operational_head` roles, else the status asked for (a name outside the enum matches
      nothing), else the three open statuses. */
  function PendingSelection(q: PendingQuery): (selected: set<EnquiryStatus>)
    ensures q.role == Some("hr") ==> selected == {Pending}
    ensures q.role == Some("operational_head") ==> selected == {HrApproved}
    ensures q.role != Some("hr") && q.role != Some("operational_head") && NotEmpty(q.status) ==>
              forall s :: s in selected <==> StatusName(s) == q.status.value
    ensures q.role != Some("hr") && q.role != Some("operational_head") && !NotEmpty(q.status) ==>
              selected == {Pending, HrApproved, OperationalApproved}
  {
    if q.role == Some("hr") then {Pending}
    else if q.role == Some("operational_head") then {HrApproved}
    else if NotEmpty(q.status) then
      match ParseStatus(q.status.value)
      case None =>
        assert forall s :: StatusName(s) != q.status.value by {
          forall s ensures StatusName(s) != q.status.value { ParseStatusName(s); }
        }
        {}
      case Some(t) =>
        assert forall s :: StatusName(s) == q.status.value ==> s == t by {
          forall s | StatusName(s) == q.status.value ensures s == t { ParseStatusName(s); }
        }
        {t}
    else {Pending, HrApproved, OperationalApproved}
  }

  predicate InQueue(q: PendingQuery, e: Enquiry) {
    e.status in PendingSelection(q)
  }

  function SubmittedKey(e: Enquiry): int {
    e.submittedAt
  }

  /** The approvers' queue: the matching enquiries, most recently submitted first. */
  function PendingEnquiries(es: seq<Enquiry>, actor: Actor, q: PendingQuery): (r: Reply<seq<Enquiry>>)
    ensures r.Fail? <==> actor.role !in {Hr, Admin, OperationalHead}
    ensures r.Fail? ==> r.failure == Forbidden
    ensures r.Done? ==> r.status == 200 && SortedDesc(r.value, SubmittedKey)
    ensures r.Done? ==> forall k :: 0 <= k < |r.value| ==> r.value[k] in es && InQueue(q, r.value[k])
    ensures r.Done? ==> forall j :: 0 <= j < |es| && InQueue(q, es[j]) ==> es[j] in r.value
    ensures r.Done? ==> multiset(r.value) <= multiset(es)
    ensures r.Done? ==> forall j :: 0 <= j < |es| && InQueue(q, es[j]) ==> multiset(r.value)[es[j]] == multiset(es)[es[j]]
  {
    if actor.role !in {Hr, Admin, OperationalHead} then Fail(Forbidden)
    else
      var selected := Filter(es, (e: Enquiry) => InQueue(q, e));
      var sorted := SortDesc(selected, SubmittedKey);
      forall k | 0 <= k < |sorted| ensures sorted[k] in es && InQueue(q, sorted[k]) {
        assert sorted[k] in multiset(selected);
      }
      forall j | 0 <= j < |es| && InQueue(q, es[j]) ensures es[j] in sorted {
        assert es[j] in multiset(sorted);
      }
      Done(200, sorted)
  }

  // ----- GET /enquiry/:id -----

  /** A single enquiry for the approvers. */
  function EnquiryById(es: seq<Enquiry>, actor: Actor, id: Id): (r: Reply<Enquiry>)
    ensures r.Fail? ==> r.failure == Forbidden || r.failure == NotFound(EnquiryMissing)
    ensures r == Fail(Forbidden) <==> actor.role !in {Hr, Admin, OperationalHead}
    ensures r.Done? <==> actor.role in {Hr, Admin, OperationalHead} && exists j :: 0 <= j < |es| && es[j].id == id
    ensures r.Done? ==> r.status == 200 && r.value in es && r.value.id == id
  {
    if actor.role !in {Hr, Admin, OperationalHead} then Fail(Forbidden)
    else
      match FindEnquiry(es, id)
      case None => Fail(NotFound(EnquiryMissing))
      case Some(i) => Done(200, es[i])
  }

  // ----- POST /create-partner (HR) -----

  /** HR's manual entry: the contact data, the partner `role` and optional `notes`. */
  datatype PartnerBody = PartnerBody(
    name: Option<string>,
    email: Option<string>,
    emailValid: bool,
    phone: Option<string>,
    location: Option<string>,
    role: Option<string>,
    notes: Option<string>)

  /** The validator chain of the manual entry. A body it passes names a partner type and
      has an email the schema's `required` validator accepts once stored. */
  predicate PartnerBodyValid(b: PartnerBody)
    ensures PartnerBodyValid(b) ==> b.email.Some? && NormalizeStored(b.email.value) != ""
    ensures PartnerBodyValid(b) ==> b.role.Some? && ParsePartnerType(b.role.value).Some?
  {
    && NotEmpty(b.name) && EmailAccepted(b.email, b.emailValid)
    && (AcceptedEmailKept(b.email, b.emailValid); NotEmpty(b.phone))
    && NotEmpty(b.location)
    && b.role.Some? && ParsePartnerType(b.role.value).Some?
  }

  function ManualFields(b: PartnerBody, actor: Actor, now: Time): EnquiryFields
    requires PartnerBodyValid(b)
  {
    EnquiryFields(
      name := Trim(b.name.value),
      email := b.email.value,
      phone := Trim(b.phone.value),
      location := Trim(b.location.value),
      city := None,
      state := None,
      message := None,
      status := Some(HrApproved),
      hrNotes := Some(Or(b.notes, "")),
      operationalNotes := None,
      hrApprovedBy := Some(actor.id),
      operationalApprovedBy := None,
      hrApprovedAt := Some(now),
      operationalApprovedAt := None,
      submittedAt := None,
      partnerType := ParsePartnerType(b.role.value))
  }

  /** What the manual entry stores: an enquiry already approved by the HR caller, waiting
      for the operational head. The partner type is kept only when the schema is not
      strict, since the enquiry schema does not declare it. */
  function ManualEntry(b: PartnerBody, actor: Actor, id: Id, now: Time, strict: bool): (r: Reply<Enquiry>)
    ensures r == Fail(Forbidden) <==> actor.role != Hr
    ensures actor.role == Hr ==> (r == Fail(ValidationFailed) <==> !PartnerBodyValid(b))
    ensures r.Done? <==>
              && actor.role == Hr && PartnerBodyValid(b)
              && RequiredKept(b.name.value, b.email.value, b.phone.value, b.location.value)
    ensures r.Fail? && actor.role == Hr && PartnerBodyValid(b) ==> r.failure == ServerError
    ensures r.Done? ==> r.status == 200 && r.value.id == id && r.value.submittedAt == now
    ensures r.Done? ==> EnquiryStorable(r.value) && Normalized(r.value) && Paired(r.value)
    ensures r.Done? ==> r.value.status == HrApproved && r.value.hrApprovedBy == Some(actor.id) &&
                        r.value.hrApprovedAt == Some(now) && r.value.hrNotes == Or(b.notes, "")
    ensures r.Done? ==> r.value.name == Trim(b.name.value) && r.value.email == NormalizeStored(b.email.value)
    ensures r.Done? && strict ==> r.value.partnerType.None?
    ensures r.Done? && !strict ==> r.value.partnerType == ParsePartnerType(b.role.value)
  {
    if actor.role != Hr then Fail(Forbidden)
    else if !PartnerBodyValid(b) then Fail(ValidationFailed)
    else if !RequiredKept(b.name.value, b.email.value, b.phone.value, b.location.value) then Fail(ServerError)
    else Done(200, ManualDocument(b, actor, id, now, strict))
  }

  /** `FranchiseEnquiry.create` on the fields of a valid manual entry. */
  function ManualDocument(b: PartnerBody, actor: Actor, id: Id, now: Time, strict: bool): (e: Enquiry)
    requires PartnerBodyValid(b)
    ensures e.id == id && e.submittedAt == now && Normalized(e) && Paired(e)
    ensures e.name == Trim(b.name.value) && e.phone == Trim(b.phone.value) &&
            e.location == Trim(b.location.value) && e.email == NormalizeStored(b.email.value)
    ensures e.status == HrApproved && e.hrApprovedBy == Some(actor.id) && e.hrApprovedAt == Some(now)
    ensures e.hrNotes == Or(b.notes, "")
    ensures e.partnerType == if strict then None else ParsePartnerType(b.role.value)
    ensures EnquiryStorable(e) <==> RequiredKept(b.name.value, b.email.value, b.phone.value, b.location.value)
  {
    TrimIdempotent(b.name.value);
    TrimIdempotent(b.phone.value);
    TrimIdempotent(b.location.value);
    NewEnquiry(id, ManualFields(b, actor, now), now, strict)
  }

  /** The handler: gate, validation, then `FranchiseEnquiry.create`. */
  method CreatePartner(db: Database, actor: Actor, b: PartnerBody, now: Time) returns (reply: Reply<Enquiry>)
    requires db.Valid()
    modifies db
    ensures db.unlogged == old(db.unlogged)
    ensures db.Valid()
    ensures db.franchises == old(db.franchises) && db.users == old(db.users) && db.logs == old(db.logs)
    ensures reply == ManualEntry(b, actor, old(db.nextId), now, db.strictSchema)
    ensures reply.Done? ==> db.enquiries == old(db.enquiries) + [reply.value]
    ensures reply.Fail? ==> db.enquiries == old(db.enquiries)
  {
    var m := ManualEntry(b, actor, db.nextId, now, db.strictSchema);
    if m.Fail? {
      return m;
    }
    var saved := db.InsertEnquiry(m.value);
    assert saved;
    reply := m;
  }

  /** Under the strict schema a manually entered channel partner loses its type, so the
      account later provisioned for it is a franchise-partner account. */
  lemma ManualEntryProvisionsFranchisePartner(b: PartnerBody, actor: Actor, id: Id, now: Time)
    requires ManualEntry(b, actor, id, now, true).Done?
    ensures AccountRole(ManualEntry(b, actor, id, now, true).value) == FranchiseType
  {
  }

  // ----- GET /list -----

  /** One row of the franchise list; every text column falls back to "—". */
  datatype ListEntry = ListEntry(
    id: Id,
    franchiseCode: string,
    partnerType: PartnerType,
    businessName: string,
    ownerName: string,
    email: string,
    phone: string,
    location: string)

  const Dash: string := "—"

  /** The populated `userId`: null when the user is gone. */
  function UserOf(us: seq<User>, id: Id): (r: Option<User>)
    ensures r.Some? ==> r.value in us && r.value.id == id
    ensures r.None? <==> forall j :: 0 <= j < |us| ==> us[j].id != id
  {
    match FindUser(us, id)
    case None => None
    case Some(i) => Some(us[i])
  }

  /** The populated `enquiryId`: null when the enquiry is gone. */
  function EnquiryOf(es: seq<Enquiry>, id: Id): (r: Option<Enquiry>)
    ensures r.Some? ==> r.value in es && r.value.id == id
    ensures r.None? <==> forall j :: 0 <= j < |es| ==> es[j].id != id
  {
    match FindEnquiry(es, id)
    case None => None
    case Some(i) => Some(es[i])
  }

  function UserEmail(u: Option<User>): Option<string> {
    if u.Some? then Some(u.value.email) else None
  }

  function UserPhone(u: Option<User>): Option<string> {
    if u.Some? then Some(u.value.phone) else None
  }

  function EnquiryField(q: Option<Enquiry>, pick: Enquiry -> string): Option<string> {
    if q.Some? then Some(pick(q.value)) else None
  }

  /** The row for one franchise: the franchise's own value when it is non-empty, else the
      linked user's or enquiry's, else "—". */
  function FormatEntry(f: Franchise, u: Option<User>, q: Option<Enquiry>): (r: ListEntry)
    ensures r.id == f.id && r.franchiseCode == f.franchiseCode && r.partnerType == f.partnerType
    ensures r.businessName != "" && r.ownerName != "" && r.email != "" && r.phone != "" && r.location != ""
    ensures f.ownerName != "" ==> r.ownerName == f.ownerName
    ensures f.email != "" ==> r.email == f.email
    ensures f.phone != "" ==> r.phone == f.phone
    ensures NotEmpty(f.address.city) ==> r.location == f.address.city.value
    ensures NotEmpty(f.businessName) ==> r.businessName == f.businessName.value
    ensures f.businessName.None? ==> r.businessName == Dash
    ensures f.ownerName == "" && q.None? ==> r.ownerName == Dash
    ensures !NotEmpty(f.address.city) && q.None? ==> r.location == Dash
    ensures f.ownerName == "" && q.Some? && q.value.name != "" ==> r.ownerName == q.value.name
    ensures f.email == "" && u.Some? && u.value.email != "" ==> r.email == u.value.email
    ensures f.email == "" && (u.None? || u.value.email == "") && q.Some? && q.value.email != "" ==>
              r.email == q.value.email
    ensures f.email == "" && (u.None? || u.value.email == "") && (q.None? || q.value.email == "") ==>
              r.email == Dash
    ensures f.phone == "" && u.Some? && u.value.phone != "" ==> r.phone == u.value.phone
    ensures f.phone == "" && (u.None? || u.value.phone == "") && q.Some? && q.value.phone != "" ==>
              r.phone == q.value.phone
    ensures f.phone == "" && (u.None? || u.value.phone == "") && (q.None? || q.value.phone == "") ==>
              r.phone == Dash
    ensures !NotEmpty(f.address.city) && q.Some? && q.value.location != "" ==> r.location == q.value.location
    ensures f.businessName == Some("") ==> r.businessName == Dash
  {
    var name := EnquiryField(q, (e: Enquiry) => e.name);
    var email := EnquiryField(q, (e: Enquiry) => e.email);
    var phone := EnquiryField(q, (e: Enquiry) => e.phone);
    var location := EnquiryField(q, (e: Enquiry) => e.location);
    FirstOfTwo(Some(f.ownerName), name, Dash);
    FirstOfThree(Some(f.email), UserEmail(u), email, Dash);
    FirstOfThree(Some(f.phone), UserPhone(u), phone, Dash);
    FirstOfTwo(f.address.city, location, Dash);
    ListEntry(
      id := f.id,
      franchiseCode := f.franchiseCode,
      partnerType := f.partnerType,
      businessName := Or(f.businessName, Dash),
      ownerName := FirstNonEmpty([Some(f.ownerName), name], Dash),
      email := FirstNonEmpty([Some(f.email), UserEmail(u), email], Dash),
      phone := FirstNonEmpty([Some(f.phone), UserPhone(u), phone], Dash),
      location := FirstNonEmpty([f.address.city, location], Dash))
  }

  function Entry(f: Franchise, us: seq<User>, es: seq<Enquiry>): ListEntry {
    FormatEntry(f, UserOf(us, f.userId), EnquiryOf(es, f.enquiryId))
  }

  function CreatedKey(f: Franchise): int {
    f.createdAt
  }

  function Entries(fs: seq<Franchise>, us: seq<User>, es: seq<Enquiry>): (r: seq<ListEntry>)
    ensures |r| == |fs| && forall k :: 0 <= k < |fs| ==> r[k] == Entry(fs[k], us, es)
  {
    var r := seq(|fs|, k requires 0 <= k < |fs| => Entry(fs[k], us, es));
    assert |r| == |fs|;
    r
  }

  /** The franchise list: every franchise exactly once, newest first, each as its row. */
  function ListFranchises(fs: seq<Franchise>, us: seq<User>, es: seq<Enquiry>, actor: Actor)
    : (r: Reply<seq<ListEntry>>)
    ensures r.Fail? <==> actor.role !in {Admin, OperationalHead}
    ensures r.Fail? ==> r.failure == Forbidden
    ensures r.Done? ==> r.status == 200 && |r.value| == |fs|
    ensures r.Done? ==> exists s :: SortedDesc(s, CreatedKey) && multiset(s) == multiset(fs) &&
                                    r.value == Entries(s, us, es)
    ensures r.Done? ==> forall j :: 0 <= j < |fs| ==> Entry(fs[j], us, es) in r.value
  {
    if actor.role !in {Admin, OperationalHead} then Fail(Forbidden)
    else
      var s := SortDesc(fs, CreatedKey);
      var rows := Entries(s, us, es);
      assert |s| == |fs| by {
        assert |multiset(s)| == |multiset(fs)|;
      }
      forall j | 0 <= j < |fs| ensures Entry(fs[j], us, es) in rows {
        assert fs[j] in multiset(s);
        var k :| 0 <= k < |s| && s[k] == fs[j];
        assert rows[k] == Entry(fs[j], us, es);
      }
      Done(200, rows)
  }

  /** A franchise as provisioning writes it lists the enquiry's contact data, and as
      location the enquiry's city, or its location when no city was given. */
  lemma ProvisionedEntry(e: Enquiry, uid: Id, code: string, now: Time, t: Time, u: Option<User>, q: Option<Enquiry>)
    requires EnquiryStorable(e) && Normalized(e) && code != ""
    ensures var r := FormatEntry(PreSave(ProvisionedFranchise(e, uid, code, now), t), u, q);
            && r.ownerName == e.name && r.email == e.email && r.phone == e.phone
            && r.businessName == Dash && r.franchiseCode == code
            && r.location == (if NotEmpty(e.city) then e.city.value else e.location)
  {
    var f := PreSave(ProvisionedFranchise(e, uid, code, now), t);
    assert f.address.city == ProvisionedFields(e, uid, code).city;
  }

  // ----- POST /approve/:id -----

  datatype ApprovalStep = HrStep | OperationalStep

  /** The enquiry at `index` and the step the caller takes on it. */
  datatype Approval = Approval(index: nat, step: ApprovalStep)

  /** Which role may act on which status: HR on a pending enquiry, the operational head on
      one HR approved. */
  predicate CanAct(role: Role, s: EnquiryStatus) {
    (role == Hr && s == Pending) || (role == OperationalHead && s == HrApproved)
  }

  /** The handler's branching before it writes anything. */
  function ApprovalDecision(es: seq<Enquiry>, actor: Actor, id: Id): (r: Reply<Approval>)
    ensures r == Fail(Forbidden) <==> actor.role !in {Hr, OperationalHead}
    ensures actor.role in {Hr, OperationalHead} && FindEnquiry(es, id).None? ==>
              r == Fail(NotFound(EnquiryMissing))
    ensures r.Done? <==> actor.role in {Hr, OperationalHead} && FindEnquiry(es, id).Some? &&
                         CanAct(actor.role, es[FindEnquiry(es, id).value].status)
    ensures r.Done? ==> FindEnquiry(es, id) == Some(r.value.index) && es[r.value.index].id == id
    ensures r.Done? ==> (r.value.step == HrStep <==> actor.role == Hr)
    ensures r.Fail? && actor.role in {Hr, OperationalHead} && FindEnquiry(es, id).Some? ==>
              r.failure == BadRequest(ApprovalRefused)
  {
    if actor.role !in {Hr, OperationalHead} then Fail(Forbidden)
    else
      match FindEnquiry(es, id)
      case None => Fail(NotFound(EnquiryMissing))
      case Some(i) =>
        if actor.role == Hr && es[i].status == Pending then Done(200, Approval(i, HrStep))
        else if actor.role == OperationalHead && es[i].status == HrApproved then
          Done(200, Approval(i, OperationalStep))
        else Fail(BadRequest(ApprovalRefused))
  }

  /** The write of a step: the new status with the approver and the time, nothing else. */
  function ApplyStep(step: ApprovalStep, e: Enquiry, actor: Actor, now: Time): (r: Enquiry)
    ensures step == HrStep ==>
              r.status == HrApproved && r.hrApprovedBy == Some(actor.id) && r.hrApprovedAt == Some(now) &&
              r.(status := e.status, hrApprovedBy := e.hrApprovedBy, hrApprovedAt := e.hrApprovedAt) == e
    ensures step == OperationalStep ==>
              r.status == OperationalApproved && r.operationalApprovedBy == Some(actor.id) &&
              r.operationalApprovedAt == Some(now) &&
              r.(status := e.status, operationalApprovedBy := e.operationalApprovedBy,
                 operationalApprovedAt := e.operationalApprovedAt) == e
    ensures Paired(e) ==> Paired(r)
    ensures EnquiryStorable(e) && Normalized(e) ==> EnquiryStorable(r) && Normalized(r)
  {
    match step
    case HrStep =>
      e.(status := HrApproved, hrApprovedBy := Some(actor.id), hrApprovedAt := Some(now))
    case OperationalStep =>
      e.(status := OperationalApproved, operationalApprovedBy := Some(actor.id),
         operationalApprovedAt := Some(now))
  }

  /** The approval route writes only the two approved statuses: no rejection and no final
      `approved` status is ever set. */
  lemma OnlyApprovalsWritten(step: ApprovalStep, e: Enquiry, actor: Actor, now: Time)
    ensures ApplyStep(step, e, actor, now).status in {HrApproved, OperationalApproved}
    ensures ApplyStep(step, e, actor, now).status !in {HrRejected, OperationalRejected, Approved, Rejected}
  {
  }

  datatype ApprovalResult =
    | HrApprovedResult(enquiry: Enquiry)
    | AccountCreated(enquiry: Enquiry, account: AccountRecord)

  /** The operational head's step: the enquiry is saved first, then the account is
      provisioned; when provisioning throws, the answer is a server error and the enquiry
      stays operationally approved, with whatever provisioning wrote before it threw. */
  method ApproveOperational(db: Database, i: nat, actor: Actor, now: Time) returns (reply: Reply<ApprovalResult>)
    requires db.Valid() && i < |db.enquiries|
    modifies db
    ensures db.unlogged == old(db.unlogged)
    ensures db.Valid()
    ensures db.logs == old(db.logs)
    ensures var e := ApplyStep(OperationalStep, old(db.enquiries)[i], actor, now);
            var p := Provision(old(db.users), old(db.franchises), old(db.nextId), e, now);
            && db.enquiries == old(db.enquiries)[i := e]
            && db.users == p.users && db.franchises == p.franchises
            && reply == (if p.account.Some? then Done(200, AccountCreated(e, p.account.value)) else Fail(ServerError))
  {
    var e := ApplyStep(OperationalStep, db.enquiries[i], actor, now);
    db.SaveEnquiry(i, e);
    var account := CreateFranchiseAccount(db, e, now);
    if account.None? {
      return Fail(ServerError);
    }
    reply := Done(200, AccountCreated(e, account.value));
  }

  /** The handler: gate, lookup, then the step the caller's role and the status allow. */
  method Approve(db: Database, actor: Actor, id: Id, now: Time) returns (reply: Reply<ApprovalResult>)
    requires db.Valid()
    modifies db
    ensures db.unlogged == old(db.unlogged)
    ensures db.Valid()
    ensures db.logs == old(db.logs)
    ensures var d := ApprovalDecision(old(db.enquiries), actor, id);
            && (d.Fail? ==> reply == Fail(d.failure) && db.enquiries == old(db.enquiries) &&
                            db.franchises == old(db.franchises) && db.users == old(db.users))
            && (d.Done? ==> db.enquiries ==
                              old(db.enquiries)[d.value.index := ApplyStep(d.value.step, old(db.enquiries)[d.value.index], actor, now)])
            && (d.Done? && d.value.step == HrStep ==>
                  reply == Done(200, HrApprovedResult(ApplyStep(HrStep, old(db.enquiries)[d.value.index], actor, now))) &&
                  db.franchises == old(db.franchises) && db.users == old(db.users))
            && (d.Done? && d.value.step == OperationalStep ==>
                  var e := ApplyStep(OperationalStep, old(db.enquiries)[d.value.index], actor, now);
                  var p := Provision(old(db.users), old(db.franchises), old(db.nextId), e, now);
                  && db.users == p.users && db.franchises == p.franchises
                  && reply == (if p.account.Some? then Done(200, AccountCreated(e, p.account.value)) else Fail(ServerError)))
  {
    var d := ApprovalDecision(db.enquiries, actor, id);
    if d.Fail? {
      return Fail(d.failure);
    }
    var i := d.value.index;
    if d.value.step == HrStep {
      var e := ApplyStep(HrStep, db.enquiries[i], actor, now);
      db.SaveEnquiry(i, e);
      return Done(200, HrApprovedResult(e));
    }
    reply := ApproveOperational(db, i, actor, now);
  }

  // ----- workflow properties -----

  /** With distinct ids, looking up the id of the enquiry at `j` finds `j`. */
  lemma FindStoredEnquiry(es: seq<Enquiry>, j: nat)
    requires forall i, k :: 0 <= i < k < |es| ==> es[i].id != es[k].id
    requires j < |es|
    ensures FindEnquiry(es, es[j].id) == Some(j)
  {
  }

  /** An enquiry stored under the next id keeps the ids distinct. */
  lemma AppendFreshId(es: seq<Enquiry>, n: Id, e: Enquiry)
    requires EnquiryIdsIssued(es, n) && e.id == n
    ensures forall i, k :: 0 <= i < k < |es + [e]| ==> (es + [e])[i].id != (es + [e])[k].id
  {
  }

  /** A save at the found position keeps the id found there. */
  lemma FindAfterSave(es: seq<Enquiry>, i: nat, e: Enquiry)
    requires FindEnquiry(es, e.id) == Some(i)
    ensures FindEnquiry(es[i := e], e.id) == Some(i)
  {
    var es' := es[i := e];
    assert es'[i].id == e.id;
  }

  /** A step is never taken twice: after HR's approval neither HR nor anyone else gets
      another HR step on that enquiry, and after the operational head's approval no
      approval at all is possible. */
  lemma ApprovalIsOneWay(es: seq<Enquiry>, actor: Actor, id: Id, now: Time, other: Actor)
    requires ApprovalDecision(es, actor, id).Done?
    ensures var a := ApprovalDecision(es, actor, id).value;
            var es' := es[a.index := ApplyStep(a.step, es[a.index], actor, now)];
            var d := ApprovalDecision(es', other, id);
            && (a.step == HrStep ==> d.Done? ==> d.value.step == OperationalStep)
            && (a.step == OperationalStep ==> d.Fail?)
  {
    var a := ApprovalDecision(es, actor, id).value;
    var e := ApplyStep(a.step, es[a.index], actor, now);
    FindAfterSave(es, a.index, e);
  }

  /** The HR queue lists exactly enquiries HR can approve, and the operational head's
      queue exactly those the operational head can approve. */
  lemma QueueIsActionable(es: seq<Enquiry>, n: Id, actor: Actor, q: PendingQuery, k: nat)
    requires EnquiryIdsIssued(es, n)
    requires actor.role in {Hr, OperationalHead}
    requires q.role == Some(if actor.role == Hr then "hr" else "operational_head")
    requires PendingEnquiries(es, actor, q).Done? && k < |PendingEnquiries(es, actor, q).value|
    ensures ApprovalDecision(es, actor, PendingEnquiries(es, actor, q).value[k].id).Done?
  {
    var e := PendingEnquiries(es, actor, q).value[k];
    var j :| 0 <= j < |es| && es[j] == e;
    FindStoredEnquiry(es, j);
    assert e.status == (if actor.role == Hr then Pending else HrApproved) by {
      assert InQueue(q, e);
    }
    assert CanAct(actor.role, es[FindEnquiry(es, e.id).value].status);
  }

  /** A public submission that names the status `hr_approved` skips HR: the operational
      head can approve the stored enquiry at once. */
  lemma PublicStatusSkipsHr(es: seq<Enquiry>, b: EnquiryBody, n: Id, now: Time, strict: bool, head: Actor)
    requires EnquiryIdsIssued(es, n) && head.role == OperationalHead
    requires b.status.Some? && ParseStatus(b.status.value) == Some(HrApproved)
    requires PublicSubmission(b, n, now, strict).Done?
    ensures var e := PublicSubmission(b, n, now, strict).value;
            ApprovalDecision(es + [e], head, e.id) == Done(200, Approval(|es|, OperationalStep))
  {
    var e := PublicSubmission(b, n, now, strict).value;
    HeadApprovesNew(es, n, e, head);
  }

  /** HR's manual entry likewise waits only for the operational head. */
  lemma ManualEntryAwaitsHead(es: seq<Enquiry>, b: PartnerBody, hr: Actor, n: Id, now: Time, strict: bool, head: Actor)
    requires EnquiryIdsIssued(es, n) && head.role == OperationalHead
    requires ManualEntry(b, hr, n, now, strict).Done?
    ensures var e := ManualEntry(b, hr, n, now, strict).value;
            ApprovalDecision(es + [e], head, e.id) == Done(200, Approval(|es|, OperationalStep))
  {
    var e := ManualEntry(b, hr, n, now, strict).value;
    HeadApprovesNew(es, n, e, head);
  }

  /** An enquiry stored at `hr_approved` under the next id is open to the operational
      head's approval. */
  lemma HeadApprovesNew(es: seq<Enquiry>, n: Id, e: Enquiry, head: Actor)
    requires EnquiryIdsIssued(es, n) && head.role == OperationalHead
    requires e.id == n && e.status == HrApproved
    ensures ApprovalDecision(es + [e], head, e.id) == Done(200, Approval(|es|, OperationalStep))
  {
    AppendFreshId(es, n, e);
    FindStoredEnquiry(es + [e], |es|);
  }
}
