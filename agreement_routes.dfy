/** The agreement routes: a franchise partner accepts the agreement once the profile is
    complete (the acceptance is stamped on the franchise and appended to the agreement
    log), prints it once accepted, and reads its status. */
module AgreementRoutes {
  import opened Common
  import opened FranchiseModel
  import opened AgreementLogModel
  import opened Store
  import UserRoutes

  // ----- POST /accept -----

  /** The JSON value of the body's `signatureData`. `Text` is a string, or a number or a
      boolean as `String` renders it (a falsy one as ""); an object whose `_id` is a
      non-empty string is cast to that `_id` and counts as `Text` too. `Composite` is any
      other object or array: it is truthy, and the schema's String cast rejects it. */
  datatype SignatureValue = Text(text: string) | Composite

  /** What the request carries into the log entry besides the time: the body's
      `signatureData`, the client address and the `user-agent` header. */
  datatype AcceptRequest = AcceptRequest(
    signatureData: Option<SignatureValue>,
    ipAddress: Option<string>,
    userAgent: Option<string>)

  /** The signature makes the log's `save()` fail its String cast. */
  predicate SignatureRejected(v: Option<SignatureValue>) {
    v == Some(Composite)
  }

  /** `req.body.signatureData || null` as the String path stores it, for a value the
      cast accepts: an empty signature is stored as null. */
  function SignatureOrNull(v: Option<SignatureValue>): (r: Option<string>)
    ensures r.Some? <==> v.Some? && v.value.Text? && v.value.text != ""
    ensures r.Some? ==> r.value == v.value.text
  {
    if v.Some? && v.value.Text? && v.value.text != "" then Some(v.value.text) else None
  }

  /** The handler's branching before it writes: the role gate (franchise partners only),
      the caller's franchise, then the profile check ahead of the already-accepted check.
      A declined agreement is not blocked. */
  function AcceptDecision(fs: seq<Franchise>, actor: Actor): (r: Reply<nat>)
    ensures r == Fail(Forbidden) <==> actor.role != FranchisePartner
    ensures r == Fail(NotFound(FranchiseMissing)) <==>
              actor.role == FranchisePartner && !UserTaken(fs, actor.id)
    ensures r == Fail(BadRequest(ProfileIncomplete)) <==>
              actor.role == FranchisePartner && FranchiseOfUser(fs, actor.id).Some? &&
              fs[FranchiseOfUser(fs, actor.id).value].profileStatus != Complete
    ensures r == Fail(BadRequest(AlreadyAccepted)) <==>
              actor.role == FranchisePartner && FranchiseOfUser(fs, actor.id).Some? &&
              fs[FranchiseOfUser(fs, actor.id).value].profileStatus == Complete &&
              fs[FranchiseOfUser(fs, actor.id).value].agreementStatus == Accepted
    ensures r.Done? <==>
              actor.role == FranchisePartner && FranchiseOfUser(fs, actor.id).Some? &&
              fs[FranchiseOfUser(fs, actor.id).value].profileStatus == Complete &&
              fs[FranchiseOfUser(fs, actor.id).value].agreementStatus != Accepted
    ensures r.Done? ==> FranchiseOfUser(fs, actor.id) == Some(r.value) && r.value < |fs|
  {
    if actor.role != FranchisePartner then Fail(Forbidden)
    else
      match FranchiseOfUser(fs, actor.id)
      case None => Fail(NotFound(FranchiseMissing))
      case Some(i) =>
        if fs[i].profileStatus != Complete then Fail(BadRequest(ProfileIncomplete))
        else if fs[i].agreementStatus == Accepted then Fail(BadRequest(AlreadyAccepted))
        else Done(200, i)
  }

  /** A declined agreement can still be accepted: with a complete profile, the partner's
      acceptance goes ahead from `declined` exactly as from `pending`. */
  lemma DeclinedIsAcceptable(fs: seq<Franchise>, actor: Actor, i: nat)
    requires actor.role == FranchisePartner && FranchiseOfUser(fs, actor.id) == Some(i)
    requires fs[i].profileStatus == Complete
    ensures fs[i].agreementStatus in {AgreementPending, Declined} ==> AcceptDecision(fs, actor) == Done(200, i)
    ensures fs[i].agreementStatus == Accepted ==> AcceptDecision(fs, actor) == Fail(BadRequest(AlreadyAccepted))
  {
  }

  /** The field update of an acceptance: the status and the acceptance time, nothing else. */
  function AcceptAgreement(f: Franchise, now: Time): (r: Franchise)
    ensures r.agreementStatus == Accepted && r.agreementAcceptedAt == Some(now)
    ensures r.(agreementStatus := f.agreementStatus, agreementAcceptedAt := f.agreementAcceptedAt) == f
  {
    f.(agreementStatus := Accepted, agreementAcceptedAt := Some(now))
  }

  /** The handler: a refusal writes nothing; an acceptance saves the franchise and then
      appends exactly one log entry for it. A signature the log's String cast rejects
      fails that second save after the first: the answer is 500, the franchise stays
      accepted and no log entry is written for it. */
  method Accept(db: Database, actor: Actor, req: AcceptRequest, now: Time) returns (reply: Reply<Franchise>)
    requires db.Valid()
    modifies db
    ensures db.Valid()
    ensures db.enquiries == old(db.enquiries) && db.users == old(db.users)
    ensures var d := AcceptDecision(old(db.franchises), actor);
            && (d.Fail? ==> reply == Fail(d.failure) && db.franchises == old(db.franchises) &&
                            db.logs == old(db.logs) && db.nextId == old(db.nextId) &&
                            db.unlogged == old(db.unlogged))
            && (d.Done? ==>
                  var doc := PreSave(AcceptAgreement(old(db.franchises)[d.value], now), now);
                  && db.franchises == old(db.franchises)[d.value := doc]
                  && (!SignatureRejected(req.signatureData) ==>
                        && reply == Done(200, doc)
                        && db.logs == old(db.logs) + [NewAgreementLog(old(db.nextId), doc.id, now,
                             SignatureOrNull(req.signatureData), req.ipAddress, req.userAgent)]
                        && db.unlogged == old(db.unlogged))
                  && (SignatureRejected(req.signatureData) ==>
                        && reply == Fail(ServerError)
                        && db.logs == old(db.logs) && db.nextId == old(db.nextId)
                        && db.unlogged == old(db.unlogged) + {doc.id}))
  {
    var d := AcceptDecision(db.franchises, actor);
    if d.Fail? {
      return Fail(d.failure);
    }
    var i := d.value;
    var doc := AcceptAgreement(db.franchises[i], now);
    var log := NewAgreementLog(db.nextId, doc.id, now, SignatureOrNull(req.signatureData), req.ipAddress, req.userAgent);
    AcceptanceLogged(db.franchises, db.logs, db.unlogged, i, PreSave(doc, now), log);
    var saved := db.SaveFranchise(i, doc, now);
    assert saved;
    assert db.franchises[i].id == doc.id;
    if SignatureRejected(req.signatureData) {
      db.unlogged := db.unlogged + {doc.id};
      return Fail(ServerError);
    }
    db.InsertLog(log);
    reply := Done(200, PreSave(doc, now));
  }

  /** A rejected signature leaves the acceptance unlogged for good: the franchise reads
      accepted with no log entry for it, and every retry is refused as already accepted. */
  lemma RejectedSignatureUnlogged(fs: seq<Franchise>, logs: seq<AgreementLog>, actor: Actor, now: Time)
    requires AcceptDecision(fs, actor).Done?
    requires fs[AcceptDecision(fs, actor).value].id !in LoggedFranchises(logs)
    ensures var i := AcceptDecision(fs, actor).value;
            var fs' := fs[i := PreSave(AcceptAgreement(fs[i], now), now)];
            && !AcceptancesLogged(fs', logs, {})
            && AcceptDecision(fs', actor) == Fail(BadRequest(AlreadyAccepted))
  {
    var i := AcceptDecision(fs, actor).value;
    AcceptanceUnlogged(fs, logs, i, PreSave(AcceptAgreement(fs[i], now), now));
    SecondAcceptFails(fs, actor, now);
  }

  /** After a successful acceptance a second one is refused and changes nothing. */
  lemma SecondAcceptFails(fs: seq<Franchise>, actor: Actor, now: Time)
    requires AcceptDecision(fs, actor).Done?
    ensures var i := AcceptDecision(fs, actor).value;
            AcceptDecision(fs[i := PreSave(AcceptAgreement(fs[i], now), now)], actor) ==
              Fail(BadRequest(AlreadyAccepted))
  {
    var i := AcceptDecision(fs, actor).value;
    FranchiseOfUserAfterSave(fs, actor.id, i, PreSave(AcceptAgreement(fs[i], now), now));
  }

  /** Completing the profile opens the acceptance to a franchise partner whose agreement
      is pending or declined. */
  lemma DetailsOpenAcceptance(fs: seq<Franchise>, actor: Actor, b: UserRoutes.DetailsBody, now: Time)
    requires actor.role == FranchisePartner
    requires UserRoutes.DetailsDecision(fs, actor, b).Done?
    requires fs[UserRoutes.DetailsDecision(fs, actor, b).value].agreementStatus != Accepted
    ensures var i := UserRoutes.DetailsDecision(fs, actor, b).value;
            AcceptDecision(fs[i := PreSave(UserRoutes.AssignDetails(fs[i], b), now)], actor) == Done(200, i)
  {
    var i := UserRoutes.DetailsDecision(fs, actor, b).value;
    FranchiseOfUserAfterSave(fs, actor.id, i, PreSave(UserRoutes.AssignDetails(fs[i], b), now));
  }

  // ----- GET /print/:id -----

  /** The franchise a print request is about: a franchise partner's own, whatever the
      `:id`; for every other role the one with that id. */
  function PrintTarget(fs: seq<Franchise>, actor: Actor, id: Id): (r: Option<nat>)
    ensures r.Some? ==> r.value < |fs|
    ensures actor.role == FranchisePartner ==>
              (r.None? <==> !UserTaken(fs, actor.id)) && (r.Some? ==> fs[r.value].userId == actor.id)
    ensures actor.role != FranchisePartner ==>
              (r.None? <==> forall j :: 0 <= j < |fs| ==> fs[j].id != id) && (r.Some? ==> fs[r.value].id == id)
  {
    if actor.role == FranchisePartner then FranchiseOfUser(fs, actor.id) else FindFranchise(fs, id)
  }

  /** The attachment sent back: its file name and the rendered document. */
  datatype Download<Pdf> = Download(fileName: string, document: Pdf)

  /** The attachment name `Agreement-<code>.pdf`. */
  function AgreementFileName(code: string): (name: string)
    ensures |name| == |code| + 14 && name[10..10 + |code|] == code
  {
    "Agreement-" + code + ".pdf"
  }

  /** The print guard: 404 without a franchise, 400 until the agreement is accepted; only
      then does the (opaque) renderer run. */
  function PrintAgreement<Pdf>(fs: seq<Franchise>, actor: Actor, id: Id, render: Franchise -> Pdf)
    : (r: Reply<Download<Pdf>>)
    ensures PrintTarget(fs, actor, id).None? <==> r == Fail(NotFound(FranchiseMissing))
    ensures r == Fail(BadRequest(NotYetAccepted)) <==>
              PrintTarget(fs, actor, id).Some? && fs[PrintTarget(fs, actor, id).value].agreementStatus != Accepted
    ensures r.Done? <==>
              PrintTarget(fs, actor, id).Some? && fs[PrintTarget(fs, actor, id).value].agreementStatus == Accepted
    ensures r.Done? ==>
              var f := fs[PrintTarget(fs, actor, id).value];
              r.status == 200 && r.value.document == render(f) &&
              r.value.fileName == AgreementFileName(f.franchiseCode)
  {
    match PrintTarget(fs, actor, id)
    case None => Fail(NotFound(FranchiseMissing))
    case Some(i) =>
      if fs[i].agreementStatus != Accepted then Fail(BadRequest(NotYetAccepted))
      else Done(200, Download(AgreementFileName(fs[i].franchiseCode), render(fs[i])))
  }

  /** A franchise partner prints only their own agreement: the `:id` makes no difference. */
  lemma PartnerPrintIgnoresId<Pdf>(fs: seq<Franchise>, actor: Actor, id1: Id, id2: Id, render: Franchise -> Pdf)
    requires actor.role == FranchisePartner
    ensures PrintAgreement(fs, actor, id1, render) == PrintAgreement(fs, actor, id2, render)
  {
  }

  /** After the partner's acceptance both the partner and, by the franchise's id, every
      other caller can print the accepted agreement. */
  lemma AcceptThenPrint<Pdf>(fs: seq<Franchise>, partner: Actor, other: Actor, now: Time, render: Franchise -> Pdf)
    requires AcceptDecision(fs, partner).Done?
    requires forall i, j :: 0 <= i < j < |fs| ==> fs[i].id != fs[j].id
    requires other.role != FranchisePartner
    ensures var i := AcceptDecision(fs, partner).value;
            var doc := PreSave(AcceptAgreement(fs[i], now), now);
            var fs' := fs[i := doc];
            var expected := Done(200, Download(AgreementFileName(doc.franchiseCode), render(doc)));
            PrintAgreement(fs', partner, 0, render) == expected &&
            PrintAgreement(fs', other, doc.id, render) == expected
  {
    var i := AcceptDecision(fs, partner).value;
    var doc := PreSave(AcceptAgreement(fs[i], now), now);
    FranchiseOfUserAfterSave(fs, partner.id, i, doc);
    FindStoredFranchise(fs, i);
    FindFranchiseAfterSave(fs, doc.id, i, doc);
  }

  /** With distinct ids, looking up the id of the franchise at `j` finds `j`. */
  lemma FindStoredFranchise(fs: seq<Franchise>, j: nat)
    requires forall i, k :: 0 <= i < k < |fs| ==> fs[i].id != fs[k].id
    requires j < |fs|
    ensures FindFranchise(fs, fs[j].id) == Some(j)
  {
  }

  // ----- GET /status -----

  /** The three paths the status route shows. */
  datatype AgreementView = AgreementView(
    agreementStatus: AgreementStatus,
    agreementAcceptedAt: Option<Time>,
    profileStatus: ProfileStatus)

  /** A franchise partner's view of their own agreement. */
  function AgreementStatusOf(fs: seq<Franchise>, actor: Actor): (r: Reply<AgreementView>)
    ensures r == Fail(Forbidden) <==> actor.role != FranchisePartner
    ensures r == Fail(NotFound(FranchiseMissing)) <==> actor.role == FranchisePartner && !UserTaken(fs, actor.id)
    ensures r.Done? <==> actor.role == FranchisePartner && UserTaken(fs, actor.id)
    ensures r.Done? ==>
              && r.status == 200
              && exists j :: 0 <= j < |fs| && fs[j].userId == actor.id &&
                   r.value == AgreementView(fs[j].agreementStatus, fs[j].agreementAcceptedAt, fs[j].profileStatus)
  {
    if actor.role != FranchisePartner then Fail(Forbidden)
    else
      match FranchiseOfUser(fs, actor.id)
      case None => Fail(NotFound(FranchiseMissing))
      case Some(i) =>
        var f := fs[i];
        Done(200, AgreementView(f.agreementStatus, f.agreementAcceptedAt, f.profileStatus))
  }

  /** After an acceptance the status route reports it with its time. */
  lemma AcceptThenStatus(fs: seq<Franchise>, actor: Actor, now: Time)
    requires AcceptDecision(fs, actor).Done?
    ensures var i := AcceptDecision(fs, actor).value;
            AgreementStatusOf(fs[i := PreSave(AcceptAgreement(fs[i], now), now)], actor) ==
              Done(200, AgreementView(Accepted, Some(now), Complete))
  {
    var i := AcceptDecision(fs, actor).value;
    FranchiseOfUserAfterSave(fs, actor.id, i, PreSave(AcceptAgreement(fs[i], now), now));
  }
}
