/** The persistent state the routes share: the enquiry, franchise, user and
    agreement-log collections, with the writes the document models allow (insert and
    save, each validated, unique indexes enforced). Requests run one at a time. */
module Store {
  import opened Common
  import opened FranchiseEnquiryModel
  import opened FranchiseModel
  import opened AgreementLogModel
  import opened Query

  /** The result of hashing a password; the hash function itself is opaque, so the
      value records only what was hashed. */
  datatype PasswordHash = Hashed(secret: string)

  /** A user of the directory. The user schema is not part of this model; email
      uniqueness is enforced as the directory's one store-level constraint. */
  datatype User = User(
    id: Id,
    name: string,
    email: string,
    phone: string,
    role: Role,
    password: PasswordHash,
    franchiseId: Option<Id>)

  predicate EmailsUnique(us: seq<User>) {
    forall i, j :: 0 <= i < j < |us| ==> us[i].email != us[j].email
  }

  predicate EmailTaken(us: seq<User>, email: string) {
    exists i :: 0 <= i < |us| && us[i].email == email
  }

  predicate CodeTaken(fs: seq<Franchise>, code: string) {
    exists i :: 0 <= i < |fs| && fs[i].franchiseCode == code
  }

  predicate UserTaken(fs: seq<Franchise>, userId: Id) {
    exists i :: 0 <= i < |fs| && fs[i].userId == userId
  }

  function FranchiseIds(fs: seq<Franchise>): set<Id> {
    set i | 0 <= i < |fs| :: fs[i].id
  }

  function LoggedFranchises(logs: seq<AgreementLog>): set<Id> {
    set k | 0 <= k < |logs| :: logs[k].franchiseId
  }

  lemma FranchiseIdsAppend(fs: seq<Franchise>, f: Franchise)
    ensures FranchiseIds(fs + [f]) == FranchiseIds(fs) + {f.id}
  {
    var fs' := fs + [f];
    forall x | x in FranchiseIds(fs) ensures x in FranchiseIds(fs') {
      var j :| 0 <= j < |fs| && fs[j].id == x;
      assert fs'[j].id == x;
    }
    assert fs'[|fs|].id == f.id;
  }

  lemma LoggedFranchisesAppend(logs: seq<AgreementLog>, l: AgreementLog)
    ensures LoggedFranchises(logs + [l]) == LoggedFranchises(logs) + {l.franchiseId}
  {
    var logs' := logs + [l];
    forall x | x in LoggedFranchises(logs) ensures x in LoggedFranchises(logs') {
      var j :| 0 <= j < |logs| && logs[j].franchiseId == x;
      assert logs'[j].franchiseId == x;
    }
    assert logs'[|logs|].franchiseId == l.franchiseId;
  }

  /** The codes of all franchises, in natural order. */
  function Codes(fs: seq<Franchise>): (r: seq<string>)
    ensures |r| == |fs| && forall i :: 0 <= i < |fs| ==> r[i] == fs[i].franchiseCode
  {
    seq(|fs|, i requires 0 <= i < |fs| => fs[i].franchiseCode)
  }

  // ----- lookups -----

  function FindEnquiry(es: seq<Enquiry>, id: Id): Option<nat> {
    FindFirst(es, (e: Enquiry) => e.id == id)
  }

  function FindFranchise(fs: seq<Franchise>, id: Id): Option<nat> {
    FindFirst(fs, (f: Franchise) => f.id == id)
  }

  /** `Franchise.findOne({ userId })`. */
  function FranchiseOfUser(fs: seq<Franchise>, userId: Id): Option<nat> {
    FindFirst(fs, (f: Franchise) => f.userId == userId)
  }

  function FindUser(us: seq<User>, id: Id): Option<nat> {
    FindFirst(us, (u: User) => u.id == id)
  }

  /** Stored enquiries have distinct ids already issued, pass validation and went through
      the setters. */
  predicate EnquiriesWellformed(es: seq<Enquiry>, nextId: Id) {
    && EnquiryIdsIssued(es, nextId)
    && (forall i :: 0 <= i < |es| ==> EnquiryStorable(es[i]) && Normalized(es[i]))
  }

  /** The enquiries carry distinct ids, all already issued. */
  predicate EnquiryIdsIssued(es: seq<Enquiry>, nextId: Id) {
    && (forall i :: 0 <= i < |es| ==> es[i].id < nextId)
    && (forall i, j :: 0 <= i < j < |es| ==> es[i].id != es[j].id)
  }

  /** Stored franchises have distinct ids already issued, owners already issued, pass
      validation, respect the unique indexes and never claim an unrecorded acceptance. */
  predicate FranchisesWellformed(fs: seq<Franchise>, nextId: Id) {
    && (forall i :: 0 <= i < |fs| ==>
          fs[i].id < nextId && fs[i].userId < nextId && FranchiseStorable(fs[i]) &&
          AgreementConsistent(fs[i]))
    && (forall i, j :: 0 <= i < j < |fs| ==> fs[i].id != fs[j].id)
    && UniqueKeys(fs)
  }

  /** Users have distinct ids already issued and distinct emails. */
  predicate UsersWellformed(us: seq<User>, nextId: Id) {
    && (forall i :: 0 <= i < |us| ==> us[i].id < nextId)
    && (forall i, j :: 0 <= i < j < |us| ==> us[i].id != us[j].id)
    && EmailsUnique(us)
  }

  lemma FranchisesAppend(fs: seq<Franchise>, f: Franchise, nextId: Id)
    requires FranchisesWellformed(fs, nextId) && f.id == nextId && f.userId < nextId
    requires FranchiseStorable(f) && AgreementConsistent(f)
    requires !CodeTaken(fs, f.franchiseCode) && !UserTaken(fs, f.userId)
    ensures FranchisesWellformed(fs + [f], nextId + 1)
  {
    var fs' := fs + [f];
    forall i, j | 0 <= i < j < |fs'|
      ensures fs'[i].id != fs'[j].id
      ensures fs'[i].userId != fs'[j].userId && fs'[i].franchiseCode != fs'[j].franchiseCode
    {
      if j == |fs| {
        assert fs'[i] == fs[i];
      }
    }
  }

  /** A save that keeps the id keeps the set of franchise ids. */
  lemma FranchiseIdsSave(fs: seq<Franchise>, i: nat, doc: Franchise)
    requires i < |fs| && doc.id == fs[i].id
    ensures FranchiseIds(fs[i := doc]) == FranchiseIds(fs)
  {
    forall x | x in FranchiseIds(fs) ensures x in FranchiseIds(fs[i := doc]) {
      var j :| 0 <= j < |fs| && fs[j].id == x;
      assert fs[i := doc][j].id == x;
    }
  }

  /** A save that keeps the id and both unique keys of a valid document keeps the
      franchises well formed. */
  lemma FranchisesSave(fs: seq<Franchise>, nextId: Id, i: nat, doc: Franchise)
    requires FranchisesWellformed(fs, nextId) && i < |fs|
    requires doc.id == fs[i].id && doc.userId == fs[i].userId && doc.franchiseCode == fs[i].franchiseCode
    requires FranchiseStorable(doc) && AgreementConsistent(doc)
    ensures FranchisesWellformed(fs[i := doc], nextId)
  {
    var fs' := fs[i := doc];
    forall j, k | 0 <= j < k < |fs'|
      ensures fs'[j].id != fs'[k].id
      ensures fs'[j].userId != fs'[k].userId && fs'[j].franchiseCode != fs'[k].franchiseCode
    {
      assert fs'[j].id == fs[j].id && fs'[k].id == fs[k].id;
      assert fs'[j].userId == fs[j].userId && fs'[k].userId == fs[k].userId;
      assert fs'[j].franchiseCode == fs[j].franchiseCode && fs'[k].franchiseCode == fs[k].franchiseCode;
    }
  }

  /** Every accepted agreement among `fs` has its acceptance in `logs`, or is one of
      the `unlogged` acceptances whose log entry the store rejected. */
  predicate AcceptancesLogged(fs: seq<Franchise>, logs: seq<AgreementLog>, unlogged: set<Id>) {
    forall i :: 0 <= i < |fs| && fs[i].agreementStatus == Accepted ==>
      fs[i].id in LoggedFranchises(logs) || fs[i].id in unlogged
  }

  /** A save that accepts nothing new keeps every acceptance accounted for. */
  lemma SaveKeepsLogged(fs: seq<Franchise>, logs: seq<AgreementLog>, unlogged: set<Id>, i: nat, doc: Franchise)
    requires AcceptancesLogged(fs, logs, unlogged) && i < |fs| && doc.id == fs[i].id
    requires doc.agreementStatus == Accepted ==> fs[i].agreementStatus == Accepted
    ensures AcceptancesLogged(fs[i := doc], logs, unlogged)
  {
  }

  /** An acceptance saved together with its log entry keeps every acceptance logged. */
  lemma AcceptanceLogged(fs: seq<Franchise>, logs: seq<AgreementLog>, unlogged: set<Id>, i: nat, doc: Franchise,
                         l: AgreementLog)
    requires AcceptancesLogged(fs, logs, unlogged) && i < |fs| && l.franchiseId == doc.id
    ensures AcceptancesLogged(fs[i := doc], logs + [l], unlogged)
  {
    LoggedFranchisesAppend(logs, l);
  }

  /** An acceptance saved without a log entry, for a franchise not logged before, leaves
      the logs short of an accepted agreement. */
  lemma AcceptanceUnlogged(fs: seq<Franchise>, logs: seq<AgreementLog>, i: nat, doc: Franchise)
    requires i < |fs| && doc.agreementStatus == Accepted && doc.id !in LoggedFranchises(logs)
    ensures !AcceptancesLogged(fs[i := doc], logs, {})
  {
    assert fs[i := doc][i] == doc;
  }

  /** A save that keeps the owner keeps the owner's franchise where it was. */
  lemma FranchiseOfUserAfterSave(fs: seq<Franchise>, userId: Id, i: nat, doc: Franchise)
    requires FranchiseOfUser(fs, userId) == Some(i) && doc.userId == userId
    ensures FranchiseOfUser(fs[i := doc], userId) == Some(i)
  {
    assert fs[i := doc][i].userId == userId;
  }

  /** A save that keeps the id keeps the franchise found by that id where it was. */
  lemma FindFranchiseAfterSave(fs: seq<Franchise>, id: Id, i: nat, doc: Franchise)
    requires FindFranchise(fs, id) == Some(i) && doc.id == id
    ensures FindFranchise(fs[i := doc], id) == Some(i)
  {
    assert fs[i := doc][i].id == id;
  }

  class Database {
    var enquiries: seq<Enquiry>
    var franchises: seq<Franchise>
    var users: seq<User>
    var logs: seq<AgreementLog>
    /** The next fresh document id. */
    var nextId: Id
    /** Whether the schemas run in Mongoose's default strict mode, which drops paths a
        schema does not declare. */
    const strictSchema: bool
    /** The franchises whose acceptance was saved while the store rejected its log entry. */
    ghost var unlogged: set<Id>

    /** What every single write preserves: fresh distinct ids, the documents pass their
        schema validation, the unique indexes hold and logs point at franchises. */
    ghost predicate Wellformed()
      reads this
    {
      && EnquiriesWellformed(enquiries, nextId)
      && FranchisesWellformed(franchises, nextId)
      && UsersWellformed(users, nextId)
      && (forall k :: 0 <= k < |logs| ==> logs[k].id < nextId)
      && LoggedFranchises(logs) <= FranchiseIds(franchises)
    }

    /** Every accepted agreement has its acceptance logged, or is one whose log entry the
        store rejected. */
    ghost predicate Audited()
      reads this
    {
      AcceptancesLogged(franchises, logs, unlogged)
    }

    /** The state between requests. */
    ghost predicate Valid()
      reads this
    {
      Wellformed() && Audited()
    }

    constructor (strict: bool)
      ensures Valid() && strictSchema == strict
      ensures enquiries == [] && franchises == [] && users == [] && logs == [] && unlogged == {}
    {
      enquiries, franchises, users, logs := [], [], [], [];
      unlogged := {};
      nextId := 0;
      strictSchema := strict;
    }

    /** `save()` of a new enquiry: rejected unless its required paths are non-empty. */
    method InsertEnquiry(doc: Enquiry) returns (ok: bool)
      requires Valid() && doc.id == nextId && Normalized(doc)
      modifies this`enquiries, this`nextId
      ensures unlogged == old(unlogged)
      ensures Valid()
      ensures ok <==> EnquiryStorable(doc)
      ensures franchises == old(franchises) && users == old(users) && logs == old(logs)
      ensures ok ==> enquiries == old(enquiries) + [doc] && nextId == old(nextId) + 1
      ensures !ok ==> enquiries == old(enquiries) && nextId == old(nextId)
    {
      ok := EnquiryStorable(doc);
      if ok {
        enquiries := enquiries + [doc];
        nextId := nextId + 1;
      }
    }

    /** `save()` of an enquiry already stored at position `i`. */
    method SaveEnquiry(i: nat, doc: Enquiry)
      requires Valid() && i < |enquiries| && doc.id == enquiries[i].id
      requires EnquiryStorable(doc) && Normalized(doc)
      modifies this`enquiries
      ensures unlogged == old(unlogged)
      ensures Valid()
      ensures enquiries == old(enquiries)[i := doc]
      ensures franchises == old(franchises) && users == old(users) && logs == old(logs)
      ensures nextId == old(nextId)
    {
      enquiries := enquiries[i := doc];
    }

    /** `User.create`: rejected when the email is already registered. */
    method InsertUser(u: User) returns (ok: bool)
      requires Valid() && u.id == nextId
      modifies this`users, this`nextId
      ensures unlogged == old(unlogged)
      ensures Valid()
      ensures ok <==> !EmailTaken(old(users), u.email)
      ensures enquiries == old(enquiries) && franchises == old(franchises) && logs == old(logs)
      ensures !UserTaken(franchises, u.id)
      ensures ok ==> users == old(users) + [u] && nextId == old(nextId) + 1
      ensures !ok ==> users == old(users) && nextId == old(nextId)
    {
      ok := !EmailTaken(users, u.email);
      if ok {
        users := users + [u];
        nextId := nextId + 1;
      }
    }

    /** `save()` of a user already stored at position `i`, email unchanged. */
    method SaveUser(i: nat, u: User)
      requires Valid() && i < |users| && u.id == users[i].id && u.email == users[i].email
      modifies this`users
      ensures unlogged == old(unlogged)
      ensures Valid()
      ensures users == old(users)[i := u]
      ensures enquiries == old(enquiries) && franchises == old(franchises) && logs == old(logs)
      ensures nextId == old(nextId)
    {
      users := users[i := u];
    }

    /** `Franchise.create`: the pre-save hook stamps `updatedAt`; the document is rejected
        when a required path is empty or a unique index (user, code) is already taken. */
    method InsertFranchise(doc: Franchise, now: Time) returns (ok: bool)
      requires Valid() && doc.id == nextId && doc.userId < nextId
      requires doc.agreementStatus == AgreementPending
      modifies this`franchises, this`nextId
      ensures unlogged == old(unlogged)
      ensures Valid()
      ensures ok <==> FranchiseStorable(doc) && !CodeTaken(old(franchises), doc.franchiseCode) &&
                      !UserTaken(old(franchises), doc.userId)
      ensures enquiries == old(enquiries) && users == old(users) && logs == old(logs)
      ensures ok ==> franchises == old(franchises) + [PreSave(doc, now)] && nextId == old(nextId) + 1
      ensures !ok ==> franchises == old(franchises) && nextId == old(nextId)
    {
      ok := FranchiseStorable(doc) && !CodeTaken(franchises, doc.franchiseCode) &&
            !UserTaken(franchises, doc.userId);
      if ok {
        var stored := PreSave(doc, now);
        FranchiseIdsAppend(franchises, stored);
        FranchisesAppend(franchises, stored, nextId);
        franchises := franchises + [stored];
        nextId := nextId + 1;
      }
    }

    /** `save()` of a franchise already stored at position `i`, keys unchanged. */
    method SaveFranchise(i: nat, doc: Franchise, now: Time) returns (ok: bool)
      requires Wellformed() && i < |franchises| && doc.id == franchises[i].id
      requires doc.userId == franchises[i].userId && doc.franchiseCode == franchises[i].franchiseCode
      requires AgreementConsistent(doc)
      modifies this`franchises
      ensures unlogged == old(unlogged)
      ensures Wellformed()
      ensures ok <==> FranchiseStorable(doc)
      ensures enquiries == old(enquiries) && users == old(users) && logs == old(logs)
      ensures nextId == old(nextId)
      ensures ok ==> franchises == old(franchises)[i := PreSave(doc, now)]
      ensures !ok ==> franchises == old(franchises)
      ensures old(Audited()) && (doc.agreementStatus == Accepted ==> old(franchises)[i].agreementStatus == Accepted) ==>
                Audited()
    {
      ok := FranchiseStorable(doc);
      if ok {
        var stored := PreSave(doc, now);
        if Audited() && (doc.agreementStatus == Accepted ==> franchises[i].agreementStatus == Accepted) {
          SaveKeepsLogged(franchises, logs, unlogged, i, stored);
        }
        FranchiseIdsSave(franchises, i, stored);
        FranchisesSave(franchises, nextId, i, stored);
        franchises := franchises[i := stored];
      }
    }

    /** `save()` of a new agreement log; logs are only ever appended. */
    method InsertLog(l: AgreementLog)
      requires Wellformed() && l.id == nextId && l.franchiseId in FranchiseIds(franchises)
      modifies this`logs, this`nextId
      ensures unlogged == old(unlogged)
      ensures Wellformed()
      ensures logs == old(logs) + [l] && nextId == old(nextId) + 1
      ensures enquiries == old(enquiries) && franchises == old(franchises) && users == old(users)
    {
      LoggedFranchisesAppend(logs, l);
      logs := logs + [l];
      nextId := nextId + 1;
    }
  }
}
