/** The partner's own profile: reading the franchise record and submitting the
    onboarding details, which overwrite a fixed set of paths and mark the profile
    complete. Both routes are open to franchise and channel partners. */
module UserRoutes {
  import opened Common
  import opened Strings
  import opened FranchiseEnquiryModel
  import opened FranchiseModel
  import opened Store
  import opened FranchiseUtils
  import FranchiseRoutes

  /** The role gate of both routes. */
  predicate IsPartner(actor: Actor) {
    actor.role in {FranchisePartner, ChannelPartner}
  }

  // ----- GET /franchise/details -----

  /** The caller's franchise (`findOne({ userId })`). */
  function FranchiseDetails(fs: seq<Franchise>, actor: Actor): (r: Reply<Franchise>)
    ensures r == Fail(Forbidden) <==> !IsPartner(actor)
    ensures r.Done? <==> IsPartner(actor) && UserTaken(fs, actor.id)
    ensures r.Fail? && IsPartner(actor) ==> r.failure == NotFound(FranchiseDetailsMissing)
    ensures r.Done? ==> r.status == 200 && r.value in fs && r.value.userId == actor.id
  {
    if !IsPartner(actor) then Fail(Forbidden)
    else
      match FranchiseOfUser(fs, actor.id)
      case None => Fail(NotFound(FranchiseDetailsMissing))
      case Some(i) => Done(200, fs[i])
  }

  /** Under the unique index on `userId` the read returns the one franchise the caller owns. */
  lemma DetailsAreOwnFranchise(fs: seq<Franchise>, actor: Actor, j: nat)
    requires UniqueKeys(fs) && IsPartner(actor)
    requires j < |fs| && fs[j].userId == actor.id
    ensures FranchiseDetails(fs, actor) == Done(200, fs[j])
  {
    var i := FranchiseOfUser(fs, actor.id).value;
    if j < i {
      assert false;
    }
  }

  /** A partner account just provisioned finds its new franchise, with the profile still
      to be completed: the user id is the one issued before the franchise's, and no stored
      franchise belonged to it. */
  lemma ProvisionedPartnerFindsFranchise(us: seq<User>, fs: seq<Franchise>, uid: Id, e: Enquiry, now: Time)
    requires EnquiryStorable(e) && Normalized(e)
    requires forall j :: 0 <= j < |fs| ==> fs[j].userId < uid
    requires Provision(us, fs, uid, e, now).account.Some?
    ensures var p := Provision(us, fs, uid, e, now);
            var partner := Actor(uid, p.users[|us|].role);
            && p.users[|us|].id == uid && p.users[|us|].franchiseId == Some(p.franchises[|fs|].id)
            && FranchiseDetails(p.franchises, partner) == Done(200, p.franchises[|fs|])
            && p.franchises[|fs|].franchiseCode == p.account.value.franchiseCode
            && p.franchises[|fs|].profileStatus == Incomplete
  {
    var p := Provision(us, fs, uid, e, now);
    var f := p.franchises[|fs|];
    assert p.franchises == fs + [f] && f.userId == uid;
    OwnerFindsAppended(fs, f);
  }

  /** A franchise appended for an owner with no franchise yet is the one found for it. */
  lemma OwnerFindsAppended(fs: seq<Franchise>, f: Franchise)
    requires forall j :: 0 <= j < |fs| ==> fs[j].userId < f.userId
    ensures FranchiseOfUser(fs + [f], f.userId) == Some(|fs|)
  {
    var fs' := fs + [f];
    forall j | 0 <= j < |fs| ensures fs'[j].userId != f.userId {
      assert fs'[j] == fs[j];
    }
    assert fs'[|fs|] == f;
  }

  // ----- POST /franchise/submit-details -----

  /** The submitted `address` object, path by path. */
  datatype AddressBody = AddressBody(
    street: Option<string>,
    city: Option<string>,
    state: Option<string>,
    pincode: Option<string>,
    country: Option<string>)

  /** The submitted `idProof` object; `kind` is its `type` path. */
  datatype IdProofBody = IdProofBody(
    kind: Option<string>,
    number: Option<string>,
    documentUrl: Option<string>)

  datatype DetailsBody = DetailsBody(
    ownerName: Option<string>,
    businessName: Option<string>,
    address: AddressBody,
    idProof: IdProofBody,
    businessDetails: Option<string>)

  /** The validator chain: the owner, the business, the city, the state and the proof
      number are non-empty (before trimming) and the proof type is one of the four kinds. */
  predicate DetailsBodyValid(b: DetailsBody)
    ensures DetailsBodyValid(b) ==> b.idProof.kind.Some? && SubmittedIdProof(b.idProof).kind.Some? &&
                                    SubmittedIdProof(b.idProof).number.Some?
    ensures DetailsBodyValid(b) ==> SubmittedAddress(b.address).city.Some? && SubmittedAddress(b.address).state.Some?
  {
    && FranchiseRoutes.NotEmpty(b.ownerName)
    && FranchiseRoutes.NotEmpty(b.businessName)
    && FranchiseRoutes.NotEmpty(b.address.city)
    && FranchiseRoutes.NotEmpty(b.address.state)
    && b.idProof.kind.Some? && ParseIdProofType(b.idProof.kind.value).Some?
    && FranchiseRoutes.NotEmpty(b.idProof.number)
  }

  /** The address as stored: the sanitizers trimmed street, city, state and pincode; the
      whole object replaces the stored one, so an omitted path is left unset. */
  function SubmittedAddress(a: AddressBody): (r: Address)
    ensures r.street.Some? == a.street.Some? && r.city.Some? == a.city.Some? &&
            r.state.Some? == a.state.Some? && r.pincode.Some? == a.pincode.Some? && r.country == a.country
    ensures TrimmedOpt(r.street) && TrimmedOpt(r.city) && TrimmedOpt(r.state) && TrimmedOpt(r.pincode)
  {
    TrimOptTrimmed(a.street);
    TrimOptTrimmed(a.city);
    TrimOptTrimmed(a.state);
    TrimOptTrimmed(a.pincode);
    Address(TrimOpt(a.street), TrimOpt(a.city), TrimOpt(a.state), TrimOpt(a.pincode), a.country)
  }

  /** The proof as stored: the type cast to its kind (a spelling outside the enum leaves
      it unset), the number trimmed, the document link as sent. */
  function SubmittedIdProof(p: IdProofBody): (r: IdProof)
    requires p.kind.Some?
    ensures r.kind.Some? <==> ParseIdProofType(p.kind.value).Some?
    ensures r.number.Some? == p.number.Some? && TrimmedOpt(r.number) && r.documentUrl == p.documentUrl
  {
    TrimOptTrimmed(p.number);
    IdProof(ParseIdProofType(p.kind.value), TrimOpt(p.number), p.documentUrl)
  }

  /** `Object.assign` of the submitted details onto the loaded franchise, through the
      schema's `trim` setters: exactly the owner, the business name, the address, the
      proof, the business details (`|| ""`) and the profile status change. */
  function AssignDetails(f: Franchise, b: DetailsBody): (r: Franchise)
    requires DetailsBodyValid(b)
    ensures r.profileStatus == Complete
    ensures r == f.(ownerName := r.ownerName, businessName := r.businessName, address := r.address,
                    idProof := r.idProof, businessDetails := r.businessDetails, profileStatus := Complete)
  {
    f.(ownerName := Trim(b.ownerName.value),
       businessName := Some(Trim(b.businessName.value)),
       address := SubmittedAddress(b.address),
       idProof := SubmittedIdProof(b.idProof),
       businessDetails := Some(Trim(Or(b.businessDetails, ""))),
       profileStatus := Complete)
  }

  /** The handler's branching before it writes: the role gate, the validators, then the
      lookup of the caller's franchise. */
  function DetailsDecision(fs: seq<Franchise>, actor: Actor, b: DetailsBody): (r: Reply<nat>)
    ensures r == Fail(Forbidden) <==> !IsPartner(actor)
    ensures r == Fail(ValidationFailed) <==> IsPartner(actor) && !DetailsBodyValid(b)
    ensures r == Fail(NotFound(FranchiseMissing)) <==>
              IsPartner(actor) && DetailsBodyValid(b) && !UserTaken(fs, actor.id)
    ensures r.Done? <==> IsPartner(actor) && DetailsBodyValid(b) && UserTaken(fs, actor.id)
    ensures r.Done? ==> FranchiseOfUser(fs, actor.id) == Some(r.value) && r.value < |fs|
  {
    if !IsPartner(actor) then Fail(Forbidden)
    else if !DetailsBodyValid(b) then Fail(ValidationFailed)
    else
      match FranchiseOfUser(fs, actor.id)
      case None => Fail(NotFound(FranchiseMissing))
      case Some(i) => Done(200, i)
  }

  /** The handler: on success the caller's franchise holds the submitted details and the
      profile is complete; a blank owner name (it passes `notEmpty` and trims to "") fails
      the `required` check of `save()`, a server error. Nothing else is written. */
  method SubmitDetails(db: Database, actor: Actor, b: DetailsBody, now: Time) returns (reply: Reply<Franchise>)
    requires db.Valid()
    modifies db
    ensures db.unlogged == old(db.unlogged)
    ensures db.Valid()
    ensures db.enquiries == old(db.enquiries) && db.users == old(db.users) && db.logs == old(db.logs)
    ensures var d := DetailsDecision(old(db.franchises), actor, b);
            && (d.Fail? ==> reply == Fail(d.failure) && db.franchises == old(db.franchises))
            && (d.Done? ==>
                  var doc := PreSave(AssignDetails(old(db.franchises)[d.value], b), now);
                  && (FranchiseStorable(doc) ==>
                        reply == Done(200, doc) && db.franchises == old(db.franchises)[d.value := doc])
                  && (!FranchiseStorable(doc) ==>
                        reply == Fail(ServerError) && db.franchises == old(db.franchises)))
  {
    var d := DetailsDecision(db.franchises, actor, b);
    if d.Fail? {
      return Fail(d.failure);
    }
    var i := d.value;
    var doc := AssignDetails(db.franchises[i], b);
    var saved := db.SaveFranchise(i, doc, now);
    if !saved {
      return Fail(ServerError);
    }
    reply := Done(200, PreSave(doc, now));
  }

  /** Submitting the same details again finds the same franchise and leaves the same
      record, up to the save time. */
  lemma SubmitDetailsIdempotent(fs: seq<Franchise>, actor: Actor, b: DetailsBody, t1: Time, t2: Time)
    requires DetailsDecision(fs, actor, b).Done?
    ensures var i := DetailsDecision(fs, actor, b).value;
            var fs1 := fs[i := PreSave(AssignDetails(fs[i], b), t1)];
            && DetailsDecision(fs1, actor, b) == Done(200, i)
            && fs1[i := PreSave(AssignDetails(fs1[i], b), t2)] == fs[i := PreSave(AssignDetails(fs[i], b), t2)]
  {
    var i := DetailsDecision(fs, actor, b).value;
    FranchiseOfUserAfterSave(fs, actor.id, i, PreSave(AssignDetails(fs[i], b), t1));
    SaveTwice(fs, i, b, t1, t2);
  }

  /** Two saves of the same details at one position leave what the second alone leaves. */
  lemma SaveTwice(fs: seq<Franchise>, i: nat, b: DetailsBody, t1: Time, t2: Time)
    requires i < |fs| && DetailsBodyValid(b)
    ensures var fs1 := fs[i := PreSave(AssignDetails(fs[i], b), t1)];
            fs1[i := PreSave(AssignDetails(fs1[i], b), t2)] == fs[i := PreSave(AssignDetails(fs[i], b), t2)]
  {
    var once := PreSave(AssignDetails(fs[i], b), t1);
    AssignTwice(fs[i], b, t1, t2);
    assert fs[i := once][i] == once;
  }

  /** The second assignment overwrites every path the first one wrote. */
  lemma AssignTwice(f: Franchise, b: DetailsBody, t1: Time, t2: Time)
    requires DetailsBodyValid(b)
    ensures PreSave(AssignDetails(PreSave(AssignDetails(f, b), t1), b), t2) == PreSave(AssignDetails(f, b), t2)
  {
  }

  /** Submit, then read: the details route returns the submitted values (as sanitized)
      with the profile complete. */
  lemma SubmitThenRead(fs: seq<Franchise>, actor: Actor, b: DetailsBody, now: Time)
    requires DetailsDecision(fs, actor, b).Done?
    ensures var i := DetailsDecision(fs, actor, b).value;
            var r := FranchiseDetails(fs[i := PreSave(AssignDetails(fs[i], b), now)], actor);
            && r.Done?
            && r.value.ownerName == Trim(b.ownerName.value)
            && r.value.businessName == Some(Trim(b.businessName.value))
            && r.value.address == SubmittedAddress(b.address)
            && r.value.idProof == SubmittedIdProof(b.idProof)
            && r.value.businessDetails == Some(Trim(Or(b.businessDetails, "")))
            && r.value.profileStatus == Complete
  {
    var i := DetailsDecision(fs, actor, b).value;
    FranchiseOfUserAfterSave(fs, actor.id, i, PreSave(AssignDetails(fs[i], b), now));
  }
}
