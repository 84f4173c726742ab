/**
 * The case store hook: an ordered list of cases that is only ever appended to or rewritten element by
 * element, plus lookups by id, by status and by role. The store does no checking of its own: any
 * status may be written over any other, and comments are appended as given.
 */
module CaseStore {
  import opened Wrappers
  import opened Types
  import opened Seqs

  /** `c` with a new status and assignee and a refreshed `updatedAt` (`{ ...case_, status, currentAssignee, updatedAt }`). */
  function SetStatus(c: Case, status: Status, assignee: string, now: Timestamp): Case {
    c.(status := status, currentAssignee := assignee, updatedAt := now)
  }

  /**
   * The case list after `updateCaseStatus(caseId, status, assignee)` at time `now`: the same cases in
   * the same places, the ones with that id carrying the new status, assignee and `updatedAt` and
   * nothing else changed, every other case untouched. Any target status is accepted.
   */
  function UpdateStatusIn(cases: seq<Case>, caseId: string, status: Status, assignee: string, now: Timestamp): (r: seq<Case>)
    ensures |r| == |cases|
    ensures forall i :: 0 <= i < |cases| ==> r[i].id == cases[i].id
    ensures forall i :: 0 <= i < |cases| && cases[i].id != caseId ==> r[i] == cases[i]
    ensures forall i :: 0 <= i < |cases| && cases[i].id == caseId ==>
      r[i].status == status && r[i].currentAssignee == assignee && r[i].updatedAt == now
      && r[i].(status := cases[i].status, currentAssignee := cases[i].currentAssignee, updatedAt := cases[i].updatedAt) == cases[i]
  {
    MapWhere((c: Case) => c.id == caseId, (c: Case) => SetStatus(c, status, assignee, now), cases)
  }

  /** The comment the store builds from a draft: the draft's fields plus a fresh id and the current time. */
  function NewComment(draft: CommentDraft, freshId: string, now: Timestamp): Comment {
    Comment(freshId, draft.text, draft.author, now, draft.target, draft.targetId)
  }

  /** `c` with `comment` appended to its thread and a refreshed `updatedAt`. */
  function WithComment(c: Case, comment: Comment, now: Timestamp): Case {
    c.(comments := c.comments + [comment], updatedAt := now)
  }

  /**
   * The case list after `addComment(caseId, ...)` stored `comment` at time `now`: the cases with that id
   * get the comment at the end of their thread and a new `updatedAt` and nothing else; every other
   * case is untouched and the list keeps its length. Neither text nor target is checked.
   */
  function AddCommentIn(cases: seq<Case>, caseId: string, comment: Comment, now: Timestamp): (r: seq<Case>)
    ensures |r| == |cases|
    ensures forall i :: 0 <= i < |cases| ==> r[i].id == cases[i].id
    ensures forall i :: 0 <= i < |cases| && cases[i].id != caseId ==> r[i] == cases[i]
    ensures forall i :: 0 <= i < |cases| && cases[i].id == caseId ==>
      r[i].comments == cases[i].comments + [comment] && r[i].updatedAt == now
      && r[i].(comments := cases[i].comments, updatedAt := cases[i].updatedAt) == cases[i]
  {
    MapWhere((c: Case) => c.id == caseId, (c: Case) => WithComment(c, comment, now), cases)
  }

  /** Position `i` holds the first case with id `caseId`. */
  ghost predicate FirstWithId(cases: seq<Case>, caseId: string, i: int) {
    0 <= i < |cases| && cases[i].id == caseId && forall j :: 0 <= j < i ==> cases[j].id != caseId
  }

  /** `cases.find(c => c.id === caseId)`: the first case with that id, or nothing when there is none. */
  function FindCase(cases: seq<Case>, caseId: string): (r: Option<Case>)
    ensures r.None? <==> forall i :: 0 <= i < |cases| ==> cases[i].id != caseId
    ensures r.Some? ==> exists i :: FirstWithId(cases, caseId, i) && cases[i] == r.value
  {
    var r := Find((c: Case) => c.id == caseId, cases);
    assert forall i :: IsFirst((c: Case) => c.id == caseId, cases, i) ==> FirstWithId(cases, caseId, i);
    r
  }

  /** `FindCase` returns the case at the first position with the id. */
  lemma FindCaseAt(cases: seq<Case>, caseId: string, i: int)
    requires FirstWithId(cases, caseId, i)
    ensures FindCase(cases, caseId) == Some(cases[i])
  {
    FindAt((c: Case) => c.id == caseId, cases, i);
  }

  /** `cases.filter(c => c.status === status)`: exactly the cases with that status, in their original order. */
  function CasesWithStatus(cases: seq<Case>, status: Status): (r: seq<Case>)
    ensures forall i :: 0 <= i < |r| ==> r[i] in cases && r[i].status == status
    ensures forall i :: 0 <= i < |cases| && cases[i].status == status ==> cases[i] in r
    ensures IsSubsequence(r, cases)
    ensures forall c :: multiset(r)[c] == if c.status == status then multiset(cases)[c] else 0
  {
    FilterIsSubsequence((c: Case) => c.status == status, cases);
    FilterMultiplicities((c: Case) => c.status == status, cases);
    Filter((c: Case) => c.status == status, cases)
  }

  /** The positions of the case list that hold a case with the status. */
  ghost function StatusPositions(cases: seq<Case>, status: Status): set<int> {
    set i | 0 <= i < |cases| && cases[i].status == status
  }

  /** The list of the cases with a status is as long as the number of positions holding such a case. */
  lemma CasesWithStatusLength(cases: seq<Case>, status: Status)
    ensures |CasesWithStatus(cases, status)| == |StatusPositions(cases, status)|
  {
    CountIsPositions((c: Case) => c.status == status, cases);
    assert Positions((c: Case) => c.status == status, cases) == StatusPositions(cases, status);
  }

  /** What `getCasesForRole` shows: the client all cases, okw the pending and with-okw ones, cdd the with-cdd ones. */
  function CasesForRole(cases: seq<Case>, role: Role): (r: seq<Case>)
    ensures forall i :: 0 <= i < |r| ==> r[i] in cases
    ensures role == Client ==> r == cases
    ensures role == Okw ==> forall i :: 0 <= i < |r| ==> r[i].status == Pending || r[i].status == WithOkw
    ensures role == Okw ==> forall i :: 0 <= i < |cases| && (cases[i].status == Pending || cases[i].status == WithOkw) ==> cases[i] in r
    ensures role == Cdd ==> forall i :: 0 <= i < |r| ==> r[i].status == WithCdd
    ensures role == Cdd ==> forall i :: 0 <= i < |cases| && cases[i].status == WithCdd ==> cases[i] in r
    ensures forall c :: multiset(r)[c] == if Sees(role, c.status) then multiset(cases)[c] else 0
  {
    match role
    case Client => cases
    case Okw =>
      FilterMultiplicities((c: Case) => c.status == WithOkw || c.status == Pending, cases);
      Filter((c: Case) => c.status == WithOkw || c.status == Pending, cases)
    case Cdd =>
      FilterMultiplicities((c: Case) => c.status == WithCdd, cases);
      Filter((c: Case) => c.status == WithCdd, cases)
  }

  /** The statuses a role's case list shows: every status to the client, pending and with-okw to okw, with-cdd to cdd. */
  predicate Sees(role: Role, status: Status) {
    match role
    case Client => true
    case Okw => status == Pending || status == WithOkw
    case Cdd => status == WithCdd
  }

  /** Every role's view keeps the order of the store: it is a subsequence of the case list. */
  lemma CasesForRoleIsSubsequence(cases: seq<Case>, role: Role)
    ensures IsSubsequence(CasesForRole(cases, role), cases)
  {
    match role
    case Client => FilterKeepsAll((c: Case) => true, cases); FilterIsSubsequence((c: Case) => true, cases);
    case Okw => FilterIsSubsequence((c: Case) => c.status == WithOkw || c.status == Pending, cases);
    case Cdd => FilterIsSubsequence((c: Case) => c.status == WithCdd, cases);
  }

  /** The okw queue is exactly the pending cases plus the with-okw cases, and cdd's is the with-cdd status list. */
  lemma CasesForRoleCounts(cases: seq<Case>)
    ensures |CasesForRole(cases, Okw)| == |CasesWithStatus(cases, Pending)| + |CasesWithStatus(cases, WithOkw)|
    ensures CasesForRole(cases, Cdd) == CasesWithStatus(cases, WithCdd)
  {
    CountDisjointUnion((c: Case) => c.status == Pending, (c: Case) => c.status == WithOkw,
                       (c: Case) => c.status == WithOkw || c.status == Pending, cases);
  }

  /** `getCase` after `addCase`: an id already present still finds the earlier case; otherwise it finds the new one. */
  lemma FindAfterAdd(cases: seq<Case>, newCase: Case, caseId: string)
    ensures FindCase(cases + [newCase], caseId) ==
      if FindCase(cases, caseId).Some? then FindCase(cases, caseId)
      else if newCase.id == caseId then Some(newCase) else None
  {
    var all := cases + [newCase];
    if FindCase(cases, caseId).Some? {
      var i :| FirstWithId(cases, caseId, i) && cases[i] == FindCase(cases, caseId).value;
      assert FirstWithId(all, caseId, i);
      FindCaseAt(all, caseId, i);
    } else if newCase.id == caseId {
      assert FirstWithId(all, caseId, |cases|);
      FindCaseAt(all, caseId, |cases|);
    } else {
      assert forall i :: 0 <= i < |all| ==> all[i].id != caseId by {
        forall i | 0 <= i < |all| ensures all[i].id != caseId {
          if i < |cases| { assert all[i] == cases[i]; }
        }
      }
    }
  }

  /**
   * `getCase` after `updateCaseStatus` on the same id: the case it finds carries the new status and
   * assignee whatever status it had before (there is no transition check); an unknown id stays unknown.
   */
  lemma FindAfterUpdate(cases: seq<Case>, caseId: string, status: Status, assignee: string, now: Timestamp)
    ensures FindCase(UpdateStatusIn(cases, caseId, status, assignee, now), caseId) ==
      match FindCase(cases, caseId)
      case None => None
      case Some(c) => Some(SetStatus(c, status, assignee, now))
  {
    var r := UpdateStatusIn(cases, caseId, status, assignee, now);
    if FindCase(cases, caseId).Some? {
      var i :| FirstWithId(cases, caseId, i) && cases[i] == FindCase(cases, caseId).value;
      assert FirstWithId(r, caseId, i);
      FindCaseAt(r, caseId, i);
    }
  }

  /** `getCase` of any other id is not affected by `updateCaseStatus`. */
  lemma FindOtherAfterUpdate(cases: seq<Case>, caseId: string, otherId: string, status: Status, assignee: string, now: Timestamp)
    requires otherId != caseId
    ensures FindCase(UpdateStatusIn(cases, caseId, status, assignee, now), otherId) == FindCase(cases, otherId)
  {
    var r := UpdateStatusIn(cases, caseId, status, assignee, now);
    if FindCase(cases, otherId).Some? {
      var i :| FirstWithId(cases, otherId, i) && cases[i] == FindCase(cases, otherId).value;
      assert FirstWithId(r, otherId, i);
      FindCaseAt(r, otherId, i);
    }
  }

  /** `getCase` after `addComment`: the case found has the comment at the end of its thread. */
  lemma FindAfterAddComment(cases: seq<Case>, caseId: string, comment: Comment, now: Timestamp)
    ensures FindCase(AddCommentIn(cases, caseId, comment, now), caseId) ==
      match FindCase(cases, caseId)
      case None => None
      case Some(c) => Some(WithComment(c, comment, now))
  {
    var r := AddCommentIn(cases, caseId, comment, now);
    if FindCase(cases, caseId).Some? {
      var i :| FirstWithId(cases, caseId, i) && cases[i] == FindCase(cases, caseId).value;
      assert FirstWithId(r, caseId, i);
      FindCaseAt(r, caseId, i);
    }
  }

  /** Every case was last updated no earlier than it was submitted and no later than `now`. */
  ghost predicate TimesOrdered(cases: seq<Case>, now: Timestamp) {
    forall i :: 0 <= i < |cases| ==> cases[i].submittedAt <= cases[i].updatedAt <= now
  }

  /** With a clock that does not run backwards, status updates and comments keep `submittedAt <= updatedAt`. */
  lemma UpdatesKeepTimesOrdered(cases: seq<Case>, caseId: string, status: Status, assignee: string,
                                comment: Comment, now: Timestamp, later: Timestamp)
    requires TimesOrdered(cases, now) && now <= later
    ensures TimesOrdered(UpdateStatusIn(cases, caseId, status, assignee, later), later)
    ensures TimesOrdered(AddCommentIn(cases, caseId, comment, later), later)
  {
  }

  /** The in-memory case list of the hook, rewritten by its three setters. */
  class Store {
    var cases: seq<Case>

    /** `useState<Case[]>(initial)`. */
    constructor (initial: seq<Case>)
      ensures cases == initial
    {
      cases := initial;
    }

    /** `addCase`: the new case goes at the end; the earlier cases are unchanged. */
    method AddCase(newCase: Case)
      modifies this
      ensures cases == old(cases) + [newCase]
      ensures |cases| == |old(cases)| + 1 && cases[..|old(cases)|] == old(cases)
    {
      cases := cases + [newCase];
    }

    /** `updateCaseStatus` at time `now`. */
    method UpdateCaseStatus(caseId: string, status: Status, assignee: string, now: Timestamp)
      modifies this
      ensures cases == UpdateStatusIn(old(cases), caseId, status, assignee, now)
    {
      cases := UpdateStatusIn(cases, caseId, status, assignee, now);
    }

    /** `addComment` with the id and the time the clock gives. */
    method AddComment(caseId: string, draft: CommentDraft, freshId: string, now: Timestamp)
      modifies this
      ensures cases == AddCommentIn(old(cases), caseId, NewComment(draft, freshId, now), now)
    {
      cases := AddCommentIn(cases, caseId, NewComment(draft, freshId, now), now);
    }

    /** `getCase`: the first case with the id, or nothing when no case has it. */
    function GetCase(caseId: string): (r: Option<Case>)
      reads this
      ensures r.None? <==> forall i :: 0 <= i < |cases| ==> cases[i].id != caseId
      ensures r.Some? ==> r.value.id == caseId && r.value in cases
      ensures r.Some? ==> exists i :: FirstWithId(cases, caseId, i) && cases[i] == r.value
    {
      FindCase(cases, caseId)
    }

    /** `getCasesByStatus`: the cases with that status, in their order. */
    function GetCasesByStatus(status: Status): (r: seq<Case>)
      reads this
      ensures IsSubsequence(r, cases)
      ensures forall i :: 0 <= i < |r| ==> r[i].status == status
      ensures forall i :: 0 <= i < |cases| && cases[i].status == status ==> cases[i] in r
      ensures forall c :: multiset(r)[c] == if c.status == status then multiset(cases)[c] else 0
    {
      CasesWithStatus(cases, status)
    }

    /**
     * `getCasesForRole`, in the cases' order: everything for a client, the pending and with-okw cases
     * for okw, the with-cdd cases for cdd, each as often as it occurs in the store.
     */
    function GetCasesForRole(role: Role): (r: seq<Case>)
      reads this
      ensures r == CasesForRole(cases, role)
      ensures IsSubsequence(r, cases)
      ensures forall i :: 0 <= i < |r| ==> r[i] in cases && Sees(role, r[i].status)
      ensures forall i :: 0 <= i < |cases| && Sees(role, cases[i].status) ==> cases[i] in r
      ensures forall c :: multiset(r)[c] == if Sees(role, c.status) then multiset(cases)[c] else 0
      ensures role == Client ==> r == cases
    {
      CasesForRoleIsSubsequence(cases, role);
      CasesForRole(cases, role)
    }
  }
}
