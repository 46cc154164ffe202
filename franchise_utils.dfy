/** Partner provisioning: the account creation that turns an approved enquiry into a
    user plus a franchise. */
module FranchiseUtils {
  import opened Common
  import opened Strings
  import opened FranchiseEnquiryModel
  import opened FranchiseModel
  import opened Store
  import opened FranchiseCodes

  /** What the handler returns to the approver. */
  datatype AccountRecord = AccountRecord(
    email: string,
    franchiseCode: string,
    tempPassword: string,
    role: PartnerType)

  /** `enquiry.partnerType || "franchise_partner"`. */
  function AccountRole(e: Enquiry): (role: PartnerType)
    ensures e.partnerType.Some? ==> role == e.partnerType.value
    ensures e.partnerType.None? ==> role == FranchiseType
  {
    e.partnerType.GetOr(FranchiseType)
  }

  /** The partner's login: the enquiry's contact data, the partner role, and as password
      the hash of the temporary password, which is the email itself. */
  function PartnerUser(e: Enquiry, uid: Id): (u: User)
    ensures u.id == uid && u.email == e.email && u.name == e.name && u.phone == e.phone
    ensures u.role == PartnerRole(AccountRole(e)) && u.password == Hashed(e.email)
    ensures u.franchiseId.None?
  {
    User(uid, e.name, e.email, e.phone, PartnerRole(AccountRole(e)), Hashed(e.email), None)
  }

  /** The fields handed to `Franchise.create`: contact data copied from the enquiry, the
      city falling back to the location (and then to "", which the location string already
      is when empty), the state to "". */
  function ProvisionedFields(e: Enquiry, uid: Id, code: string): (f: FranchiseFields)
    ensures f.enquiryId == e.id && f.userId == uid && f.franchiseCode == code
    ensures f.ownerName == e.name && f.email == e.email && f.phone == e.phone
    ensures f.partnerType == Some(AccountRole(e))
    ensures f.city.Some? && f.state.Some?
    ensures e.city.Some? && e.city.value != "" ==> f.city.value == e.city.value
    ensures (e.city.None? || e.city.value == "") ==> f.city.value == e.location
    ensures e.state.Some? ==> f.state == e.state
    ensures e.state.None? ==> f.state == Some("")
  {
    FranchiseFields(
      enquiryId := e.id,
      userId := uid,
      franchiseCode := code,
      ownerName := e.name,
      email := e.email,
      phone := e.phone,
      partnerType := Some(AccountRole(e)),
      city := Some(Or(e.city, Or(Some(e.location), ""))),
      state := Some(Or(e.state, "")))
  }

  /** The franchise document a successful provisioning creates. */
  function ProvisionedFranchise(e: Enquiry, uid: Id, code: string, now: Time): (f: Franchise)
    requires EnquiryStorable(e) && Normalized(e) && code != ""
    ensures FranchiseStorable(f) && AgreementConsistent(f)
    ensures f.id == uid + 1 && f.userId == uid && f.enquiryId == e.id && f.franchiseCode == code
    ensures f.ownerName == e.name && f.email == e.email && f.phone == e.phone
    ensures f.partnerType == AccountRole(e)
    ensures f.agreementStatus == AgreementPending && f.profileStatus == Incomplete
    ensures f.createdAt == now && f.updatedAt == now
  {
    TrimOfTrimmed(e.name);
    TrimOfTrimmed(e.phone);
    NormalizeOfNormal(e.email);
    NewFranchise(uid + 1, ProvisionedFields(e, uid, code), now)
  }

  /** The writes of `createFranchiseAccount(enquiry)` once the code is chosen. The user is
      created first; when the email is already registered nothing is written. When the code
      is already taken the franchise is refused after the user was written, and that user
      stays behind without a franchise. Otherwise the user is linked to the new franchise
      and the record of the new account is returned. */
  method ProvisionAccount(db: Database, e: Enquiry, code: string, now: Time) returns (r: Option<AccountRecord>)
    requires db.Valid() && EnquiryStorable(e) && Normalized(e) && code != ""
    modifies db
    ensures db.unlogged == old(db.unlogged)
    ensures db.Valid()
    ensures db.enquiries == old(db.enquiries) && db.logs == old(db.logs)
    ensures EmailTaken(old(db.users), e.email) ==>
              r.None? && db.users == old(db.users) && db.franchises == old(db.franchises)
    ensures !EmailTaken(old(db.users), e.email) && CodeTaken(old(db.franchises), code) ==>
              r.None? && db.users == old(db.users) + [PartnerUser(e, old(db.nextId))] &&
              db.franchises == old(db.franchises)
    ensures !EmailTaken(old(db.users), e.email) && !CodeTaken(old(db.franchises), code) ==>
              var uid := old(db.nextId);
              r == Some(AccountRecord(e.email, code, e.email, AccountRole(e))) &&
              db.users == old(db.users) + [PartnerUser(e, uid).(franchiseId := Some(uid + 1))] &&
              db.franchises == old(db.franchises) + [PreSave(ProvisionedFranchise(e, uid, code, now), now)]
  {
    var uid := db.nextId;
    var user := PartnerUser(e, uid);
    ghost var users0 := db.users;
    var created := db.InsertUser(user);
    if !created {
      return None;
    }
    r := LinkFranchise(db, e, uid, code, now, users0);
  }

  /** The second half of provisioning: the franchise for the user just created (the last
      of `users0 + [user]`), and the user's back-reference to it. */
  method LinkFranchise(db: Database, e: Enquiry, uid: Id, code: string, now: Time, ghost users0: seq<User>)
    returns (r: Option<AccountRecord>)
    requires db.Valid() && EnquiryStorable(e) && Normalized(e) && code != ""
    requires db.nextId == uid + 1 && db.users == users0 + [PartnerUser(e, uid)]
    requires !UserTaken(db.franchises, uid)
    modifies db
    ensures db.unlogged == old(db.unlogged)
    ensures db.Valid()
    ensures db.enquiries == old(db.enquiries) && db.logs == old(db.logs)
    ensures CodeTaken(old(db.franchises), code) ==>
              r.None? && db.users == old(db.users) && db.franchises == old(db.franchises)
    ensures !CodeTaken(old(db.franchises), code) ==>
              r == Some(AccountRecord(e.email, code, e.email, AccountRole(e))) &&
              db.users == users0 + [PartnerUser(e, uid).(franchiseId := Some(uid + 1))] &&
              db.franchises == old(db.franchises) + [PreSave(ProvisionedFranchise(e, uid, code, now), now)]
  {
    var doc := ProvisionedFranchise(e, uid, code, now);
    var users := db.users;
    var stored := db.InsertFranchise(doc, now);
    if !stored {
      return None;
    }
    assert db.users == users;
    var linked := PartnerUser(e, uid).(franchiseId := Some(doc.id));
    db.SaveUser(|users| - 1, linked);
    assert users[|users| - 1 := linked] == users0 + [linked];
    r := Some(AccountRecord(e.email, code, e.email, AccountRole(e)));
  }

  /** What account creation leaves behind: the users, the franchises and the record the
      approver is shown, if any. */
  datatype Provisioning = Provisioning(users: seq<User>, franchises: seq<Franchise>, account: Option<AccountRecord>)

  /** `createFranchiseAccount(enquiry)` on the users `us` and the franchises `fs`, with
      `uid` the next id: the code is generated from the stored codes for the enquiry's
      partner type; a registered email writes nothing, a taken code leaves the new user
      behind without a franchise, and otherwise the linked user and the franchise are both
      stored. */
  function Provision(us: seq<User>, fs: seq<Franchise>, uid: Id, e: Enquiry, now: Time): (p: Provisioning)
    requires EnquiryStorable(e) && Normalized(e)
    ensures p.account.Some? <==>
              !EmailTaken(us, e.email) && !CodeTaken(fs, GenerateFranchiseCode(AccountRole(e), Codes(fs)))
    ensures p.account.None? ==> p.franchises == fs
    ensures |p.users| >= |us| && p.users[..|us|] == us
  {
    var code := GenerateFranchiseCode(AccountRole(e), Codes(fs));
    if EmailTaken(us, e.email) then Provisioning(us, fs, None)
    else if CodeTaken(fs, code) then Provisioning(us + [PartnerUser(e, uid)], fs, None)
    else
      Provisioning(
        us + [PartnerUser(e, uid).(franchiseId := Some(uid + 1))],
        fs + [PreSave(ProvisionedFranchise(e, uid, code, now), now)],
        Some(AccountRecord(e.email, code, e.email, AccountRole(e))))
  }

  /** There is no rollback: when the generated code is already taken, the user just created
      stays behind without a franchise, and no franchise is written. */
  lemma TakenCodeStrandsUser(us: seq<User>, fs: seq<Franchise>, uid: Id, e: Enquiry, now: Time)
    requires EnquiryStorable(e) && Normalized(e)
    requires !EmailTaken(us, e.email) && CodeTaken(fs, GenerateFranchiseCode(AccountRole(e), Codes(fs)))
    ensures var p := Provision(us, fs, uid, e, now);
            && p.account.None? && p.franchises == fs
            && |p.users| == |us| + 1 && p.users[|us|].id == uid && p.users[|us|].franchiseId.None?
  {
  }

  /** `createFranchiseAccount(enquiry)`: generate the code, then provision the account. */
  method CreateFranchiseAccount(db: Database, e: Enquiry, now: Time) returns (r: Option<AccountRecord>)
    requires db.Valid() && EnquiryStorable(e) && Normalized(e)
    modifies db
    ensures db.unlogged == old(db.unlogged)
    ensures db.Valid()
    ensures db.enquiries == old(db.enquiries) && db.logs == old(db.logs)
    ensures var p := Provision(old(db.users), old(db.franchises), old(db.nextId), e, now);
            db.users == p.users && db.franchises == p.franchises && r == p.account
  {
    var code := GenerateFranchiseCode(AccountRole(e), Codes(db.franchises));
    r := ProvisionAccount(db, e, code, now);
  }
}
