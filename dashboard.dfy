/** The dashboard's counters, the per-status badge colour and icon, and the create button's gate. */
module Dashboard {
  import opened Types
  import opened Seqs
  import CaseStore
  import CaseDetails

  datatype Stats = Stats(total: nat, pending: nat, inReview: nat, completed: nat)

  /** A case under review: with OKW or with CDD. */
  predicate InReview(status: Status) {
    status == WithOkw || status == WithCdd
  }

  /** A decided case: approved or rejected. */
  predicate Completed(status: Status) {
    status == Approved || status == Rejected
  }

  /**
   * `stats`: the number of cases, and at how many positions the case is pending, under review (with
   * OKW or with CDD) or decided (approved or rejected).
   */
  function ComputeStats(cases: seq<Case>): (r: Stats)
    ensures r.total == |cases|
    ensures r.pending == |CaseStore.StatusPositions(cases, Pending)|
    ensures r.inReview == |CaseStore.StatusPositions(cases, WithOkw)| + |CaseStore.StatusPositions(cases, WithCdd)|
    ensures r.completed == |CaseStore.StatusPositions(cases, Approved)| + |CaseStore.StatusPositions(cases, Rejected)|
  {
    BucketCounts(cases);
    CaseStore.CasesWithStatusLength(cases, Pending);
    CaseStore.CasesWithStatusLength(cases, WithOkw);
    CaseStore.CasesWithStatusLength(cases, WithCdd);
    CaseStore.CasesWithStatusLength(cases, Approved);
    CaseStore.CasesWithStatusLength(cases, Rejected);
    Stats(|cases|,
          Count((c: Case) => c.status == Pending, cases),
          Count((c: Case) => InReview(c.status), cases),
          Count((c: Case) => Completed(c.status), cases))
  }

  /** The three buckets partition the cases: every case is in exactly one, so they add up to `total`. */
  lemma BucketsPartition(cases: seq<Case>)
    ensures var s := ComputeStats(cases); s.pending + s.inReview + s.completed == s.total
  {
    CountDisjointUnion((c: Case) => InReview(c.status), (c: Case) => Completed(c.status),
                       (c: Case) => c.status != Pending, cases);
    CountComplement((c: Case) => c.status == Pending, (c: Case) => c.status != Pending, cases);
  }

  /** The two compound buckets, counted status by status. */
  lemma BucketCounts(cases: seq<Case>)
    ensures Count((c: Case) => InReview(c.status), cases)
         == |CaseStore.CasesWithStatus(cases, WithOkw)| + |CaseStore.CasesWithStatus(cases, WithCdd)|
    ensures Count((c: Case) => Completed(c.status), cases)
         == |CaseStore.CasesWithStatus(cases, Approved)| + |CaseStore.CasesWithStatus(cases, Rejected)|
  {
    CountDisjointUnion((c: Case) => c.status == WithOkw, (c: Case) => c.status == WithCdd,
                       (c: Case) => InReview(c.status), cases);
    CountDisjointUnion((c: Case) => c.status == Approved, (c: Case) => c.status == Rejected,
                       (c: Case) => Completed(c.status), cases);
  }

  /**
   * The buckets in terms of the per-status lists: pending is one status, under review is with-OKW
   * plus with-CDD, and decided is approved plus rejected.
   */
  lemma StatsByStatus(cases: seq<Case>)
    ensures var s := ComputeStats(cases);
      s.pending == |CaseStore.CasesWithStatus(cases, Pending)|
      && s.inReview == |CaseStore.CasesWithStatus(cases, WithOkw)| + |CaseStore.CasesWithStatus(cases, WithCdd)|
      && s.completed == |CaseStore.CasesWithStatus(cases, Approved)| + |CaseStore.CasesWithStatus(cases, Rejected)|
  {
    BucketCounts(cases);
  }

  /** `statusColors`: yellow for pending, blue for OKW, purple for CDD, green once approved and red once rejected. */
  function StatusColor(status: Status): (r: string)
    ensures r == "bg-yellow-100 text-yellow-800" <==> status == Pending
    ensures r == "bg-blue-100 text-blue-800" <==> status == WithOkw
    ensures r == "bg-purple-100 text-purple-800" <==> status == WithCdd
    ensures r == "bg-green-100 text-green-800" <==> status == Approved
    ensures r == "bg-red-100 text-red-800" <==> status == Rejected
  {
    match status
    case Pending => "bg-yellow-100 text-yellow-800"
    case WithOkw => "bg-blue-100 text-blue-800"
    case WithCdd => "bg-purple-100 text-purple-800"
    case Approved => "bg-green-100 text-green-800"
    case Rejected => "bg-red-100 text-red-800"
  }

  datatype Icon = ClockIcon | FileTextIcon | UsersIcon | CheckCircleIcon | XCircleIcon

  /** `statusIcons`: a clock for pending, a document for OKW, people for CDD, a check or a cross once decided. */
  function StatusIcon(status: Status): (r: Icon)
    ensures r == ClockIcon <==> status == Pending
    ensures r == FileTextIcon <==> status == WithOkw
    ensures r == UsersIcon <==> status == WithCdd
    ensures r == CheckCircleIcon <==> status == Approved
    ensures r == XCircleIcon <==> status == Rejected
  {
    match status
    case Pending => ClockIcon
    case WithOkw => FileTextIcon
    case WithCdd => UsersIcon
    case Approved => CheckCircleIcon
    case Rejected => XCircleIcon
  }

  /** Both maps are total over the five statuses, and no two statuses share a colour or an icon. */
  lemma BadgesDistinguishStatuses(a: Status, b: Status)
    ensures StatusColor(a) != ""
    ensures StatusColor(a) == StatusColor(b) <==> a == b
    ensures StatusIcon(a) == StatusIcon(b) <==> a == b
  {
  }

  /**
   * The "Submit New Case" button is shown only to clients: exactly to the role that has no comment box,
   * and never to a role that has a status button.
   */
  predicate CanCreateNew(role: Role): (r: bool)
    ensures r <==> !CaseDetails.CanComment(role)
    ensures r ==> forall s :: !CaseDetails.CanApprove(role, s) && !CaseDetails.CanMoveForward(role, s)
  {
    role == Client
  }
}
