/**
 * The reports page: per-team case counts and day totals, the status distribution, and the records of
 * the exported report. The day difference of each case (`updatedAt - submittedAt`, rounded up to whole
 * days) is an input, aligned with the cases.
 */
module Reports {
  import opened Wrappers
  import opened Types
  import opened Seqs
  import CaseStore

  /** A case OKW has handled: every status but pending. */
  predicate OkwCounts(status: Status) {
    status == WithOkw || status == WithCdd || status == Approved || status == Rejected
  }

  /** A case that has reached CDD: with CDD, approved or rejected. */
  predicate CddCounts(status: Status) {
    status == WithCdd || status == Approved || status == Rejected
  }

  /** OKW is credited with at most three days of a case. */
  function OkwShare(d: int): int {
    if d < 3 then d else 3
  }

  /** CDD is credited with the days beyond three, never fewer than none. */
  function CddShare(d: int): int {
    if 0 < d - 3 then d - 3 else 0
  }

  /** Every day of a case goes to exactly one team: the two shares add up to the day difference. */
  lemma SharesSplitDays(d: int)
    ensures OkwShare(d) + CddShare(d) == d
    ensures OkwShare(d) <= 3 && CddShare(d) >= 0
  {
  }

  /** The sum of the day differences. */
  function SumDays(days: seq<int>): int {
    if days == [] then 0 else SumDays(days[..|days| - 1]) + days[|days| - 1]
  }

  /** OKW's days: its share of every case it counts. */
  function OkwDays(cases: seq<Case>, days: seq<int>): int
    requires |days| == |cases|
  {
    if cases == [] then 0
    else
      OkwDays(cases[..|cases| - 1], days[..|days| - 1])
      + (if OkwCounts(cases[|cases| - 1].status) then OkwShare(days[|days| - 1]) else 0)
  }

  /** CDD's days: its share of every case it counts. */
  function CddDays(cases: seq<Case>, days: seq<int>): int
    requires |days| == |cases|
  {
    if cases == [] then 0
    else
      CddDays(cases[..|cases| - 1], days[..|days| - 1])
      + (if CddCounts(cases[|cases| - 1].status) then CddShare(days[|days| - 1]) else 0)
  }

  function OkwCount(cases: seq<Case>): nat {
    Count((c: Case) => OkwCounts(c.status), cases)
  }

  function CddCount(cases: seq<Case>): nat {
    Count((c: Case) => CddCounts(c.status), cases)
  }

  /**
   * The average of the ternary `count > 0 ? days / count : 0`, as an exact quotient: zero when nothing
   * was counted, otherwise the number that multiplied by the count gives the days.
   */
  function Average(days: int, count: nat): (r: real)
    ensures count == 0 ==> r == 0.0
    ensures count > 0 ==> r * (count as real) == days as real
  {
    if count > 0 then (days as real) / (count as real) else 0.0
  }

  /** How each running total grows when the pass takes in case `i`. */
  lemma TotalsStep(cases: seq<Case>, days: seq<int>, i: int)
    requires |days| == |cases| && 0 <= i < |cases|
    ensures SumDays(days[..i + 1]) == SumDays(days[..i]) + days[i]
    ensures OkwCount(cases[..i + 1]) == OkwCount(cases[..i]) + if OkwCounts(cases[i].status) then 1 else 0
    ensures CddCount(cases[..i + 1]) == CddCount(cases[..i]) + if CddCounts(cases[i].status) then 1 else 0
    ensures OkwDays(cases[..i + 1], days[..i + 1])
      == OkwDays(cases[..i], days[..i]) + if OkwCounts(cases[i].status) then OkwShare(days[i]) else 0
    ensures CddDays(cases[..i + 1], days[..i + 1])
      == CddDays(cases[..i], days[..i]) + if CddCounts(cases[i].status) then CddShare(days[i]) else 0
  {
    assert cases[..i + 1][..i] == cases[..i];
    assert days[..i + 1][..i] == days[..i];
    assert cases[..i + 1] == cases[..i] + [cases[i]];
    FilterSnoc((c: Case) => OkwCounts(c.status), cases[..i], cases[i]);
    FilterSnoc((c: Case) => CddCounts(c.status), cases[..i], cases[i]);
  }

  datatype TeamTotals = TeamTotals(totalCases: nat, avgDays: real, totalDays: int)

  datatype TeamMetrics = TeamMetrics(okw: TeamTotals, cdd: TeamTotals, overall: TeamTotals)

  /**
   * `calculateTeamMetrics`: one pass over the cases adds each day difference to the overall total and
   * each team's share to the teams that count the case; the averages come last.
   */
  method CalculateTeamMetrics(cases: seq<Case>, days: seq<int>) returns (m: TeamMetrics)
    requires |days| == |cases|
    ensures m.overall.totalCases == |cases| && m.overall.totalDays == SumDays(days)
    ensures m.okw.totalCases == OkwCount(cases) && m.okw.totalDays == OkwDays(cases, days)
    ensures m.cdd.totalCases == CddCount(cases) && m.cdd.totalDays == CddDays(cases, days)
    ensures m.okw.avgDays == Average(m.okw.totalDays, m.okw.totalCases)
    ensures m.cdd.avgDays == Average(m.cdd.totalDays, m.cdd.totalCases)
    ensures m.overall.avgDays == Average(m.overall.totalDays, m.overall.totalCases)
  {
    var okwCases, okwDays, cddCases, cddDays, overallDays := 0, 0, 0, 0, 0;
    var i := 0;
    while i < |cases|
      invariant 0 <= i <= |cases|
      invariant overallDays == SumDays(days[..i])
      invariant okwCases == OkwCount(cases[..i]) && okwDays == OkwDays(cases[..i], days[..i])
      invariant cddCases == CddCount(cases[..i]) && cddDays == CddDays(cases[..i], days[..i])
    {
      var d := days[i];
      var status := cases[i].status;
      TotalsStep(cases, days, i);
      overallDays := overallDays + d;
      if status == WithOkw || status == WithCdd || status == Approved || status == Rejected {
        okwCases := okwCases + 1;
        okwDays := okwDays + OkwShare(d);
      }
      if status == WithCdd || status == Approved || status == Rejected {
        cddCases := cddCases + 1;
        cddDays := cddDays + CddShare(d);
      }
      i := i + 1;
    }
    assert cases[..i] == cases;
    assert days[..i] == days;
    m := TeamMetrics(TeamTotals(okwCases, Average(okwDays, okwCases), okwDays),
                     TeamTotals(cddCases, Average(cddDays, cddCases), cddDays),
                     TeamTotals(|cases|, Average(overallDays, |cases|), overallDays));
  }

  /** CDD never counts more cases than OKW, and OKW never more than there are. */
  lemma TeamCountsOrdered(cases: seq<Case>)
    ensures CddCount(cases) <= OkwCount(cases) <= |cases|
  {
    CountMonotone((c: Case) => CddCounts(c.status), (c: Case) => OkwCounts(c.status), cases);
  }

  /** OKW counts exactly the cases that are not pending. */
  lemma OkwCountsNonPending(cases: seq<Case>)
    ensures OkwCount(cases) == |cases| - |CaseStore.CasesWithStatus(cases, Pending)|
  {
    CountComplement((c: Case) => c.status == Pending, (c: Case) => OkwCounts(c.status), cases);
  }

  /** CDD counts exactly the with-CDD, approved and rejected cases. */
  lemma CddCountIsSumOfStatuses(cases: seq<Case>)
    ensures CddCount(cases) == |CaseStore.CasesWithStatus(cases, WithCdd)| + |CaseStore.CasesWithStatus(cases, Approved)|
                              + |CaseStore.CasesWithStatus(cases, Rejected)|
  {
    CountDisjointUnion((c: Case) => c.status == Approved || c.status == Rejected,
                       (c: Case) => c.status == WithCdd,
                       (c: Case) => CddCounts(c.status), cases);
    CountDisjointUnion((c: Case) => c.status == Approved, (c: Case) => c.status == Rejected,
                       (c: Case) => c.status == Approved || c.status == Rejected, cases);
  }

  /** When every case has reached CDD, the two teams' days together are all the days. */
  lemma {:induction false} TeamDaysCoverAll(cases: seq<Case>, days: seq<int>)
    requires |days| == |cases|
    requires forall i :: 0 <= i < |cases| ==> CddCounts(cases[i].status)
    ensures OkwDays(cases, days) + CddDays(cases, days) == SumDays(days)
  {
    if cases != [] {
      var n := |cases| - 1;
      TeamDaysCoverAll(cases[..n], days[..n]);
      SharesSplitDays(days[n]);
    }
  }

  /** The team totals never exceed the overall days when no day difference is negative. */
  lemma {:induction false} TeamDaysBounded(cases: seq<Case>, days: seq<int>)
    requires |days| == |cases|
    requires forall i :: 0 <= i < |days| ==> days[i] >= 0
    ensures 0 <= OkwDays(cases, days) && 0 <= CddDays(cases, days)
    ensures OkwDays(cases, days) + CddDays(cases, days) <= SumDays(days)
  {
    if cases != [] {
      var n := |cases| - 1;
      TeamDaysBounded(cases[..n], days[..n]);
      SharesSplitDays(days[n]);
    }
  }

  datatype StatusCounts = StatusCounts(pending: nat, withOkw: nat, withCdd: nat, approved: nat, rejected: nat)

  /** `statusDistribution`: for each status, the number of positions whose case is in it. */
  function StatusDistribution(cases: seq<Case>): (r: StatusCounts)
    ensures r.pending == |CaseStore.StatusPositions(cases, Pending)|
    ensures r.withOkw == |CaseStore.StatusPositions(cases, WithOkw)|
    ensures r.withCdd == |CaseStore.StatusPositions(cases, WithCdd)|
    ensures r.approved == |CaseStore.StatusPositions(cases, Approved)|
    ensures r.rejected == |CaseStore.StatusPositions(cases, Rejected)|
  {
    CaseStore.CasesWithStatusLength(cases, Pending);
    CaseStore.CasesWithStatusLength(cases, WithOkw);
    CaseStore.CasesWithStatusLength(cases, WithCdd);
    CaseStore.CasesWithStatusLength(cases, Approved);
    CaseStore.CasesWithStatusLength(cases, Rejected);
    StatusCounts(|CaseStore.CasesWithStatus(cases, Pending)|, |CaseStore.CasesWithStatus(cases, WithOkw)|,
                 |CaseStore.CasesWithStatus(cases, WithCdd)|, |CaseStore.CasesWithStatus(cases, Approved)|,
                 |CaseStore.CasesWithStatus(cases, Rejected)|)
  }

  /** Every case is in exactly one status, so the five counts add up to the number of cases. */
  lemma DistributionSumsToTotal(cases: seq<Case>)
    ensures var r := StatusDistribution(cases);
      r.pending + r.withOkw + r.withCdd + r.approved + r.rejected == |cases|
  {
    StatusListsCoverAll(cases);
  }

  /** The five per-status counts add up to the length of the case list. */
  lemma {:induction false} StatusListsCoverAll(cases: seq<Case>)
    ensures Count((c: Case) => c.status == Pending, cases) + Count((c: Case) => c.status == WithOkw, cases)
          + Count((c: Case) => c.status == WithCdd, cases) + Count((c: Case) => c.status == Approved, cases)
          + Count((c: Case) => c.status == Rejected, cases) == |cases|
  {
    if cases != [] {
      var n := |cases| - 1;
      StatusListsCoverAll(cases[..n]);
      assert cases == cases[..n] + [cases[n]];
      FilterSnoc((c: Case) => c.status == Pending, cases[..n], cases[n]);
      FilterSnoc((c: Case) => c.status == WithOkw, cases[..n], cases[n]);
      FilterSnoc((c: Case) => c.status == WithCdd, cases[..n], cases[n]);
      FilterSnoc((c: Case) => c.status == Approved, cases[..n], cases[n]);
      FilterSnoc((c: Case) => c.status == Rejected, cases[..n], cases[n]);
    }
  }

  /** One exported `caseDetails` record. */
  datatype CaseRecord = CaseRecord(
    id: string,
    clientName: string,
    status: string,
    submittedAt: Timestamp,
    updatedAt: Timestamp,
    currentAssignee: string)

  function RecordOf(c: Case): CaseRecord {
    CaseRecord(c.id, c.clientInfo.clientName, StatusLiteral(c.status), c.submittedAt, c.updatedAt, c.currentAssignee)
  }

  /** The export's `caseDetails`: one record per case, in case order, copying the case's fields. */
  function ExportRecords(cases: seq<Case>): (r: seq<CaseRecord>)
    ensures |r| == |cases|
    ensures forall i :: 0 <= i < |cases| ==>
      r[i].id == cases[i].id && r[i].clientName == cases[i].clientInfo.clientName
      && ParseStatus(r[i].status) == Some(cases[i].status) && r[i].currentAssignee == cases[i].currentAssignee
      && r[i].submittedAt == cases[i].submittedAt && r[i].updatedAt == cases[i].updatedAt
  {
    seq(|cases|, i requires 0 <= i < |cases| => RecordOf(cases[i]))
  }
}
