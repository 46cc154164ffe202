/** The franchise document: a provisioned partner's business record with its
    enums, defaults, setters, required paths, unique indexes and pre-save hook. */
module FranchiseModel {
  import opened Common
  import opened Strings

  datatype ProfileStatus = Incomplete | Complete

  datatype AgreementStatus = AgreementPending | Accepted | Declined

  datatype IdProofType = Aadhar | Pan | Passport | DrivingLicense

  /** The `isIn(["aadhar", "pan", "passport", "driving_license"])` check on `idProof.type`. */
  function ParseIdProofType(s: string): (r: Option<IdProofType>)
    ensures r.Some? <==> s in {"aadhar", "pan", "passport", "driving_license"}
    ensures r == Some(Aadhar) <==> s == "aadhar"
    ensures r == Some(Pan) <==> s == "pan"
    ensures r == Some(Passport) <==> s == "passport"
    ensures r == Some(DrivingLicense) <==> s == "driving_license"
  {
    if s == "aadhar" then Some(Aadhar)
    else if s == "pan" then Some(Pan)
    else if s == "passport" then Some(Passport)
    else if s == "driving_license" then Some(DrivingLicense)
    else None
  }

  datatype Address = Address(
    street: Option<string>,
    city: Option<string>,
    state: Option<string>,
    pincode: Option<string>,
    country: Option<string>)

  datatype IdProof = IdProof(
    kind: Option<IdProofType>,
    number: Option<string>,
    documentUrl: Option<string>)

  datatype Franchise = Franchise(
    id: Id,
    enquiryId: Id,
    userId: Id,
    franchiseCode: string,
    partnerType: PartnerType,
    ownerName: string,
    businessName: Option<string>,
    email: string,
    phone: string,
    address: Address,
    idProof: IdProof,
    businessDetails: Option<string>,
    profileStatus: ProfileStatus,
    agreementStatus: AgreementStatus,
    agreementAcceptedAt: Option<Time>,
    createdAt: Time,
    updatedAt: Time)

  /** The object handed to `Franchise.create` (absent paths are `None`). */
  datatype FranchiseFields = FranchiseFields(
    enquiryId: Id,
    userId: Id,
    franchiseCode: string,
    ownerName: string,
    email: string,
    phone: string,
    partnerType: Option<PartnerType>,
    city: Option<string>,
    state: Option<string>)

  /** `new Franchise(fields)`: setters, then defaults (`partnerType` franchise_partner,
      `address.country` "India", profile incomplete, agreement pending, no acceptance time). */
  function NewFranchise(id: Id, f: FranchiseFields, now: Time): (r: Franchise)
    ensures r.id == id && r.enquiryId == f.enquiryId && r.userId == f.userId
    ensures r.franchiseCode == f.franchiseCode
    ensures r.partnerType == f.partnerType.GetOr(FranchiseType)
    ensures r.ownerName == Trim(f.ownerName) && r.phone == Trim(f.phone)
    ensures r.email == NormalizeStored(f.email)
    ensures r.address.city == f.city && r.address.state == f.state
    ensures r.address.country == Some("India")
    ensures r.profileStatus == Incomplete && r.agreementStatus == AgreementPending
    ensures r.agreementAcceptedAt.None?
    ensures r.businessName.None? && r.businessDetails.None? && r.idProof == IdProof(None, None, None)
  {
    Franchise(
      id := id,
      enquiryId := f.enquiryId,
      userId := f.userId,
      franchiseCode := f.franchiseCode,
      partnerType := f.partnerType.GetOr(FranchiseType),
      ownerName := Trim(f.ownerName),
      businessName := None,
      email := NormalizeStored(f.email),
      phone := Trim(f.phone),
      address := Address(None, f.city, f.state, None, Some("India")),
      idProof := IdProof(None, None, None),
      businessDetails := None,
      profileStatus := Incomplete,
      agreementStatus := AgreementPending,
      agreementAcceptedAt := None,
      createdAt := now,
      updatedAt := now)
  }

  /** The `required` validators run on every save. */
  predicate FranchiseStorable(f: Franchise) {
    f.franchiseCode != "" && f.ownerName != "" && f.email != "" && f.phone != ""
  }

  /** The pre-save hook: every save stamps `updatedAt` and touches nothing else. */
  function PreSave(f: Franchise, now: Time): (r: Franchise)
    ensures r.updatedAt == now
    ensures r.(updatedAt := f.updatedAt) == f
  {
    f.(updatedAt := now)
  }

  /** The two unique indexes: at most one franchise per user, and no code used twice. */
  predicate UniqueKeys(fs: seq<Franchise>) {
    forall i, j :: 0 <= i < j < |fs| ==>
      fs[i].userId != fs[j].userId && fs[i].franchiseCode != fs[j].franchiseCode
  }

  /** An accepted agreement comes with a complete profile and an acceptance time. */
  predicate AgreementConsistent(f: Franchise) {
    f.agreementStatus == Accepted ==> f.profileStatus == Complete && f.agreementAcceptedAt.Some?
  }
}
