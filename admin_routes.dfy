/** The admin dashboard: document counts over the three collections and the enquiries
    grouped by status. It only reads the stores. */
module AdminRoutes {
  import opened Common
  import opened Query
  import opened FranchiseEnquiryModel
  import opened FranchiseModel
  import opened Store
  import FranchiseRoutes

  datatype Statistics = Statistics(
    totalEnquiries: nat,
    pendingEnquiries: nat,
    approvedEnquiries: nat,
    totalFranchises: nat,
    activeFranchises: nat,
    totalUsers: nat)

  /** One group of the `$group` stage: a status and how many enquiries have it. */
  datatype StatusCount = StatusCount(status: EnquiryStatus, count: nat)

  datatype DashboardView = DashboardView(statistics: Statistics, statusBreakdown: seq<StatusCount>)

  /** `countDocuments({ status })`. */
  function CountStatus(es: seq<Enquiry>, s: EnquiryStatus): (n: nat)
    ensures n <= |es|
    ensures n == 0 <==> forall j :: 0 <= j < |es| ==> es[j].status != s
  {
    Count(es, (e: Enquiry) => e.status == s)
  }

  /** `countDocuments({ agreementStatus: s })` on the franchises. */
  function CountAgreement(fs: seq<Franchise>, s: AgreementStatus): (n: nat)
    ensures n <= |fs|
    ensures n == 0 <==> forall j :: 0 <= j < |fs| ==> fs[j].agreementStatus != s
    ensures n == |fs| <==> forall j :: 0 <= j < |fs| ==> fs[j].agreementStatus == s
  {
    Count(fs, (f: Franchise) => f.agreementStatus == s)
  }

  /** The counters: every document, the enquiries `pending` and `approved`, every
      franchise, the franchises whose agreement is accepted, and every user. */
  function Stats(es: seq<Enquiry>, fs: seq<Franchise>, us: seq<User>): (r: Statistics)
    ensures r.totalEnquiries == |es| && r.totalFranchises == |fs| && r.totalUsers == |us|
    ensures r.pendingEnquiries == CountStatus(es, Pending) && r.pendingEnquiries <= r.totalEnquiries
    ensures r.approvedEnquiries == CountStatus(es, Approved) && r.approvedEnquiries <= r.totalEnquiries
    ensures r.activeFranchises == CountAgreement(fs, Accepted) && r.activeFranchises <= r.totalFranchises
    ensures r.activeFranchises == 0 <==> forall j :: 0 <= j < |fs| ==> fs[j].agreementStatus != Accepted
    ensures r.activeFranchises == r.totalFranchises <==> forall j :: 0 <= j < |fs| ==> fs[j].agreementStatus == Accepted
  {
    Statistics(
      totalEnquiries := |es|,
      pendingEnquiries := CountStatus(es, Pending),
      approvedEnquiries := CountStatus(es, Approved),
      totalFranchises := |fs|,
      activeFranchises := CountAgreement(fs, Accepted),
      totalUsers := |us|)
  }

  /** The groups for the statuses `ss` that occur in `es`, in the order of `ss`. */
  function Groups(es: seq<Enquiry>, ss: seq<EnquiryStatus>): (r: seq<StatusCount>)
    ensures forall k :: 0 <= k < |r| ==> r[k].status in ss && r[k].count == CountStatus(es, r[k].status) && r[k].count > 0
  {
    if ss == [] then []
    else
      var n := CountStatus(es, ss[0]);
      var rest := Groups(es, ss[1..]);
      (if n > 0 then [StatusCount(ss[0], n)] else []) + rest
  }

  /** Every status of `ss` that occurs has its group. */
  lemma {:induction false} GroupsComplete(es: seq<Enquiry>, ss: seq<EnquiryStatus>, s: EnquiryStatus)
    requires s in ss && CountStatus(es, s) > 0
    ensures exists k :: 0 <= k < |Groups(es, ss)| && Groups(es, ss)[k].status == s
  {
    var g := Groups(es, ss);
    var rest := Groups(es, ss[1..]);
    var head: seq<StatusCount> := if CountStatus(es, ss[0]) > 0 then [StatusCount(ss[0], CountStatus(es, ss[0]))] else [];
    assert g == head + rest;
    if ss[0] == s {
      assert g[0].status == s;
    } else {
      assert s in ss[1..];
      GroupsComplete(es, ss[1..], s);
      var k :| 0 <= k < |rest| && rest[k].status == s;
      GroupAfterHead(head, rest, k);
    }
  }

  /** A group of `rest` keeps its place after the head group. */
  lemma GroupAfterHead(head: seq<StatusCount>, rest: seq<StatusCount>, k: nat)
    requires k < |rest|
    ensures (head + rest)[|head| + k] == rest[k]
  {
  }

  /** The `$group` by status: one group per status that occurs (the aggregation leaves
      the order unspecified; the model lists them in enum order). */
  function Breakdown(es: seq<Enquiry>): (g: seq<StatusCount>)
    ensures forall k :: 0 <= k < |g| ==> g[k].count == CountStatus(es, g[k].status) && g[k].count > 0
  {
    Groups(es, AllStatuses)
  }

  /** The statuses of a grouping are distinct. */
  predicate DistinctGroups(g: seq<StatusCount>) {
    forall k, l :: 0 <= k < l < |g| ==> g[k].status != g[l].status
  }

  function Total(g: seq<StatusCount>): nat {
    if g == [] then 0 else g[0].count + Total(g[1..])
  }

  /** The sum over `ss` of the count of each status. */
  function CountOver(es: seq<Enquiry>, ss: seq<EnquiryStatus>): nat {
    if ss == [] then 0 else CountStatus(es, ss[0]) + CountOver(es, ss[1..])
  }

  /** How often `s` occurs in `ss`. */
  function Occurrences(s: EnquiryStatus, ss: seq<EnquiryStatus>): nat {
    if ss == [] then 0 else (if ss[0] == s then 1 else 0) + Occurrences(s, ss[1..])
  }

  lemma {:induction false} GroupsDistinct(es: seq<Enquiry>, ss: seq<EnquiryStatus>)
    requires forall i, j :: 0 <= i < j < |ss| ==> ss[i] != ss[j]
    ensures DistinctGroups(Groups(es, ss))
  {
    if ss != [] {
      var tail := ss[1..];
      assert forall i, j :: 0 <= i < j < |tail| ==> tail[i] != tail[j] by {
        forall i, j | 0 <= i < j < |tail| ensures tail[i] != tail[j] {
          assert tail[i] == ss[i + 1] && tail[j] == ss[j + 1];
        }
      }
      GroupsDistinct(es, tail);
      var rest := Groups(es, tail);
      assert ss[0] !in tail by {
        forall k | 0 <= k < |tail| ensures tail[k] != ss[0] {
          assert tail[k] == ss[k + 1];
        }
      }
      forall k | 0 <= k < |rest| ensures rest[k].status != ss[0] {
        assert rest[k].status in tail;
      }
      var n := CountStatus(es, ss[0]);
      if n > 0 {
        DistinctCons(StatusCount(ss[0], n), rest);
      } else {
        assert Groups(es, ss) == rest;
      }
    }
  }

  lemma DistinctCons(c: StatusCount, rest: seq<StatusCount>)
    requires DistinctGroups(rest) && forall k :: 0 <= k < |rest| ==> rest[k].status != c.status
    ensures DistinctGroups([c] + rest)
  {
    var g := [c] + rest;
    forall k, l | 0 <= k < l < |g| ensures g[k].status != g[l].status {
      assert g[l] == rest[l - 1];
      if k > 0 {
        assert g[k] == rest[k - 1];
      }
    }
  }

  lemma {:induction false} GroupsTotal(es: seq<Enquiry>, ss: seq<EnquiryStatus>)
    ensures Total(Groups(es, ss)) == CountOver(es, ss)
  {
    if ss != [] {
      GroupsTotal(es, ss[1..]);
      var n := CountStatus(es, ss[0]);
      var rest := Groups(es, ss[1..]);
      if n > 0 {
        assert ([StatusCount(ss[0], n)] + rest)[1..] == rest;
      } else {
        assert ([] + rest) == rest;
      }
    }
  }

  /** Adding one enquiry in front adds, over `ss`, as many as its status occurs in `ss`. */
  lemma {:induction false} CountOverCons(e: Enquiry, es: seq<Enquiry>, ss: seq<EnquiryStatus>)
    ensures CountOver([e] + es, ss) == Occurrences(e.status, ss) + CountOver(es, ss)
  {
    if ss != [] {
      CountOverCons(e, es, ss[1..]);
      assert ([e] + es)[1..] == es;
    }
  }

  lemma AllStatusesOnce(s: EnquiryStatus)
    ensures Occurrences(s, AllStatuses) == 1
  {
  }

  /** Every enquiry is counted under exactly one status. */
  lemma {:induction false} CountOverAll(es: seq<Enquiry>)
    ensures CountOver(es, AllStatuses) == |es|
  {
    if es == [] {
      assert CountOver(es, AllStatuses) == 0 by {
        ZeroOver(es, AllStatuses);
      }
    } else {
      assert es == [es[0]] + es[1..];
      CountOverCons(es[0], es[1..], AllStatuses);
      AllStatusesOnce(es[0].status);
      CountOverAll(es[1..]);
    }
  }

  /** A helper for `CountOverAll`: over no enquiries every status count is 0. */
  lemma {:induction false} ZeroOver(es: seq<Enquiry>, ss: seq<EnquiryStatus>)
    requires es == []
    ensures CountOver(es, ss) == 0
  {
    if ss != [] {
      ZeroOver(es, ss[1..]);
    }
  }

  /** The breakdown's groups have distinct statuses. */
  lemma BreakdownDistinct(es: seq<Enquiry>)
    ensures DistinctGroups(Breakdown(es))
  {
    AllStatusesDistinct();
    GroupsDistinct(es, AllStatuses);
  }

  lemma AllStatusesDistinct()
    ensures forall i, j :: 0 <= i < j < |AllStatuses| ==> AllStatuses[i] != AllStatuses[j]
  {
  }

  /** Every status that occurs has its group in the breakdown. */
  lemma BreakdownComplete(es: seq<Enquiry>, s: EnquiryStatus)
    requires CountStatus(es, s) > 0
    ensures exists k :: 0 <= k < |Breakdown(es)| && Breakdown(es)[k] == StatusCount(s, CountStatus(es, s))
  {
    AllStatusesListed(s);
    GroupsComplete(es, AllStatuses, s);
    var g := Breakdown(es);
    var k :| 0 <= k < |g| && g[k].status == s;
    assert g[k] == StatusCount(s, CountStatus(es, s));
  }

  /** The breakdown's counts add up to the number of enquiries. */
  lemma BreakdownTotal(es: seq<Enquiry>)
    ensures Total(Breakdown(es)) == |es|
  {
    GroupsTotal(es, AllStatuses);
    CountOverAll(es);
  }

  /** The route: admins and the operational head see the counters and the breakdown. */
  function Dashboard(es: seq<Enquiry>, fs: seq<Franchise>, us: seq<User>, actor: Actor): (r: Reply<DashboardView>)
    ensures r.Fail? <==> actor.role !in {Admin, OperationalHead}
    ensures r.Fail? ==> r.failure == Forbidden
    ensures r.Done? ==> r.status == 200 && r.value == DashboardView(Stats(es, fs, us), Breakdown(es))
  {
    if actor.role !in {Admin, OperationalHead} then Fail(Forbidden)
    else Done(200, DashboardView(Stats(es, fs, us), Breakdown(es)))
  }

  /** Only a public submission whose body names the status `approved` stores an
      `approved` enquiry: neither the manual entry nor an approval step writes it, so the
      `approvedEnquiries` counter counts exactly such submissions. */
  lemma ApprovedOnlyFromBody(b: FranchiseRoutes.EnquiryBody, id: Id, now: Time, strict: bool)
    requires FranchiseRoutes.PublicSubmission(b, id, now, strict).Done?
    ensures FranchiseRoutes.PublicSubmission(b, id, now, strict).value.status == Approved <==>
              b.status == Some("approved")
  {
    if b.status == Some("approved") {
      ParseStatusName(Approved);
    }
  }

  lemma ManualEntryNotApproved(b: FranchiseRoutes.PartnerBody, actor: Actor, id: Id, now: Time, strict: bool)
    requires FranchiseRoutes.ManualEntry(b, actor, id, now, strict).Done?
    ensures FranchiseRoutes.ManualEntry(b, actor, id, now, strict).value.status != Approved
  {
  }
}
