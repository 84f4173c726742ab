/**
 * The application shell: the acting user, the current view, the selected case and the sidebar, over
 * one case store. Submitting a case also schedules its automatic assignment to OKW; the scheduled
 * assignments run later, one per `FireScheduled` step, in the order they were scheduled.
 */
module App {
  import opened Wrappers
  import opened Types
  import opened Seqs
  import CaseStore
  import MockData

  datatype View = DashboardView | ClientFormView | CaseDetailsView | ReportsView

  /** The pages the sidebar can navigate to. */
  datatype Page = DashboardPage | ReportsPage

  function PageView(page: Page): View {
    match page
    case DashboardPage => DashboardView
    case ReportsPage => ReportsView
  }

  /** The display name `handleRoleChange` gives each role. */
  function RoleName(role: Role): (r: string)
    ensures role == Client <==> r == "MPJORGAN"
    ensures role == Okw <==> r == "OKW TEAM"
    ensures role == Cdd <==> r == "CDD TEAM"
  {
    match role
    case Client => "MPJORGAN"
    case Okw => "OKW TEAM"
    case Cdd => "CDD TEAM"
  }

  /** The status and assignee the deferred step of `handleCaseSubmit` writes. */
  const AutoAssignStatus := WithOkw
  const AutoAssignee := "OKW Team"

  /**
   * The deferred write ignores the state the case has reached by the time it runs: a case that was
   * submitted, then moved on (even approved or rejected) before the step ran, is put back with OKW.
   */
  lemma {:induction false} DeferredAssignmentOverwrites(cases: seq<Case>, newCase: Case, status: Status, assignee: string, t1: Timestamp, t2: Timestamp)
    requires forall i :: 0 <= i < |cases| ==> cases[i].id != newCase.id
    ensures
      var submitted := cases + [newCase];
      var moved := CaseStore.UpdateStatusIn(submitted, newCase.id, status, assignee, t1);
      var afterTimer := CaseStore.UpdateStatusIn(moved, newCase.id, AutoAssignStatus, AutoAssignee, t2);
      CaseStore.FindCase(moved, newCase.id) == Some(CaseStore.SetStatus(newCase, status, assignee, t1))
      && CaseStore.FindCase(afterTimer, newCase.id) == Some(CaseStore.SetStatus(newCase, AutoAssignStatus, AutoAssignee, t2))
  {
    var submitted := cases + [newCase];
    var moved := CaseStore.UpdateStatusIn(submitted, newCase.id, status, assignee, t1);
    CaseStore.FindAfterAdd(cases, newCase, newCase.id);
    CaseStore.FindAfterUpdate(submitted, newCase.id, status, assignee, t1);
    CaseStore.FindAfterUpdate(moved, newCase.id, AutoAssignStatus, AutoAssignee, t2);
  }

  class App {
    var user: User
    var currentView: View
    var selectedCaseId: string
    var isSidebarOpen: bool
    /** The ids whose automatic assignment is still to run, oldest first. */
    var scheduled: seq<string>
    const store: CaseStore.Store

    /** The initial state: a client named "John Doe" on the dashboard, nothing selected, the mock cases. */
    constructor ()
      ensures user == User(Client, "John Doe") && currentView == DashboardView
      ensures selectedCaseId == "" && !isSidebarOpen && scheduled == []
      ensures fresh(store) && store.cases == MockData.MockCases()
    {
      user := User(Client, "John Doe");
      currentView := DashboardView;
      selectedCaseId := "";
      isSidebarOpen := false;
      scheduled := [];
      store := new CaseStore.Store(MockData.MockCases());
    }

    /** `filteredCases`: what the dashboard lists for the current role. */
    function FilteredCases(): (r: seq<Case>)
      reads this, store
      ensures r == CaseStore.CasesForRole(store.cases, user.role)
      ensures IsSubsequence(r, store.cases)
      ensures user.role == Client ==> r == store.cases
      ensures forall i :: 0 <= i < |r| ==> r[i] in store.cases && CaseStore.Sees(user.role, r[i].status)
      ensures forall i :: 0 <= i < |store.cases| && CaseStore.Sees(user.role, store.cases[i].status) ==> store.cases[i] in r
      ensures forall c :: multiset(r)[c] == if CaseStore.Sees(user.role, c.status) then multiset(store.cases)[c] else 0
    {
      store.GetCasesForRole(user.role)
    }

    /** `selectedCase`: nothing while no id is selected, else the first case with the selected id, if any. */
    function SelectedCase(): (r: Option<Case>)
      reads this, store
      ensures selectedCaseId == "" ==> r.None?
      ensures selectedCaseId != "" ==> (r.None? <==> forall i :: 0 <= i < |store.cases| ==> store.cases[i].id != selectedCaseId)
      ensures r.Some? ==> r.value.id == selectedCaseId && r.value in store.cases
      ensures r.Some? ==> exists i :: CaseStore.FirstWithId(store.cases, selectedCaseId, i) && store.cases[i] == r.value
    {
      if selectedCaseId == "" then None else store.GetCase(selectedCaseId)
    }

    /** The case-details page renders only in its view and only when the selection resolves. */
    predicate ShowsCaseDetails(): (r: bool)
      reads this, store
      ensures r <==> currentView == CaseDetailsView && selectedCaseId != ""
                     && exists i :: 0 <= i < |store.cases| && store.cases[i].id == selectedCaseId
    {
      currentView == CaseDetailsView && SelectedCase().Some?
    }

    /** `handleRoleChange`: the role's fixed name, back to the dashboard; the selection is kept. */
    method HandleRoleChange(role: Role)
      modifies this`user, this`currentView
      ensures user == User(role, RoleName(role)) && currentView == DashboardView
    {
      user := User(role, RoleName(role));
      currentView := DashboardView;
    }

    /**
     * `handleCaseSubmit`: the case is appended, the dashboard shows, and its automatic assignment is
     * scheduled behind the ones already waiting.
     */
    method HandleCaseSubmit(newCase: Case)
      modifies this`currentView, this`scheduled, store
      ensures store.cases == old(store.cases) + [newCase]
      ensures currentView == DashboardView
      ensures scheduled == old(scheduled) + [newCase.id]
    {
      store.AddCase(newCase);
      currentView := DashboardView;
      scheduled := scheduled + [newCase.id];
    }

    /**
     * The timer of the oldest scheduled assignment fires at `now`: that id is set to with-okw and
     * "OKW Team", whatever its status; with nothing scheduled nothing happens.
     */
    method FireScheduled(now: Timestamp)
      modifies this`scheduled, store
      ensures old(scheduled) == [] ==> scheduled == [] && store.cases == old(store.cases)
      ensures old(scheduled) != [] ==>
        scheduled == old(scheduled)[1..]
        && store.cases == CaseStore.UpdateStatusIn(old(store.cases), old(scheduled)[0], AutoAssignStatus, AutoAssignee, now)
    {
      if scheduled != [] {
        var id := scheduled[0];
        scheduled := scheduled[1..];
        store.UpdateCaseStatus(id, AutoAssignStatus, AutoAssignee, now);
      }
    }

    /** `handleCaseSelect`. */
    method HandleCaseSelect(caseId: string)
      modifies this`selectedCaseId, this`currentView
      ensures selectedCaseId == caseId && currentView == CaseDetailsView
    {
      selectedCaseId := caseId;
      currentView := CaseDetailsView;
    }

    /** `handleSidebarNavigate`: the page's view, and the selection is cleared. */
    method HandleSidebarNavigate(page: Page)
      modifies this`currentView, this`selectedCaseId
      ensures currentView == PageView(page) && selectedCaseId == ""
      ensures SelectedCase().None? && !ShowsCaseDetails()
    {
      currentView := PageView(page);
      selectedCaseId := "";
    }

    /** The dashboard's `onCreateNew`. */
    method CreateNew()
      modifies this`currentView
      ensures currentView == ClientFormView
    {
      currentView := ClientFormView;
    }

    /** The form's `onCancel` and the details page's `onBack`. */
    method BackToDashboard()
      modifies this`currentView
      ensures currentView == DashboardView
    {
      currentView := DashboardView;
    }

    /** The header's menu button and the sidebar's close button. */
    method SetSidebarOpen(open: bool)
      modifies this`isSidebarOpen
      ensures isSidebarOpen == open
    {
      isSidebarOpen := open;
    }

    /** `handleAddComment`, with the id and the time the clock gives. */
    method HandleAddComment(caseId: string, draft: CommentDraft, freshId: string, now: Timestamp)
      modifies store
      ensures store.cases == CaseStore.AddCommentIn(old(store.cases), caseId, CaseStore.NewComment(draft, freshId, now), now)
    {
      store.AddComment(caseId, draft, freshId, now);
    }

    /** `handleStatusUpdate`: any status and assignee are passed straight to the store. */
    method HandleStatusUpdate(caseId: string, status: Status, assignee: string, now: Timestamp)
      modifies store
      ensures store.cases == CaseStore.UpdateStatusIn(old(store.cases), caseId, status, assignee, now)
    {
      store.UpdateCaseStatus(caseId, status, assignee, now);
    }
  }
}
