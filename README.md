# Case review workflow — a Dafny model

This project models the workflow core of a small case-review application. A client submits a case through an intake form. The case holds the client's details, one or more change requests and the supporting documents. The OKW team and then the CDD team review the case. The CDD team approves or rejects it. Comments can be attached to the client information or to one change request. A reports page and a dashboard count the cases.

The model has one Dafny module per source file:

- `Types` (`types.dfy`): the records of the workflow.
- `CaseStore` (`case_store.dfy`): the case-store hook.
  - A class `Store` holds the ordered case list.
  - Three methods rewrite that list.
  - Specification functions describe each rewrite and each lookup.
- `ClientForm` (`client_form.dfy`): the intake form.
  - The change-type → required-documents table, and the recompute that retags the `required` flags.
  - Validation.
  - Change-request editing.
  - The document-slot operations.
  - Submission.
  - A class `IntakeForm` with the form's state fields.
- `AttachmentsPane` (`attachments_pane.dfy`): the attachment lists beside the form.
  - Their filters.
  - The two gated callbacks.
- `CaseDetails` (`case_details.dfy`): the review page.
  - The role/status permission predicates.
  - The status requests the buttons emit.
  - Comment drafts and threads.
  - A class `Composer` with the comment box's state.
- `App` (`app.dfy`): the application shell.
  - A class `App` with the acting user, the view, the selection, the sidebar and the store.
  - A queue of scheduled automatic assignments.
- `Reports` (`reports.dfy`) and `Dashboard` (`dashboard.dfy`): the counters.
- `MockData` (`mock_data.dfy`): the two initial cases.
- Three helper modules:
  - `Wrappers`: `Option`.
  - `Seqs`: an order-preserving `Filter`, a `Find` and a `MapWhere`, with their laws.
  - `Text`: the ECMAScript whitespace set, `trim` and the email pattern `\S+@\S+\.\S+`.

The store does no checking of its own. `updateCaseStatus` writes any status over any other. `addComment` appends whatever it is given. The permission rules exist only as the predicates that decide which buttons the review page shows. Nothing in the code checks a transition, raises a permission error, checks an assignee or limits a client to their own cases, and the model follows the code. For example, a client sees every case (`src/hooks/useCaseStore.ts:41-42`). A case that moves on before its deferred automatic assignment runs is put back with OKW (`App.DeferredAssignmentOverwrites`). That is how the code behaves, and the model proves it rather than correcting it.

Inputs the code takes from its environment are parameters here:

- the current time is `now: Timestamp`, in milliseconds;
- a fresh id from `Date.now()` is `freshId: string`;
- the answer to `window.prompt` is an `Option<string>`;
- the answer to `window.confirm` is a `bool`;
- a chosen file is an `Option<FileHandle>`;
- the day difference of each case on the reports page is an integer input.

The interfaces in `src/types/index.ts` leave out several properties the components use:

- `coltId` and `email` on `ClientInfo`;
- `awaiting` on `Document`.

The model includes them as `Option` fields.

## Model

| member | source | states |
|---|---|---|
| Types.ParseStatus | src/types/index.ts:37 | a string denotes a status iff it is one of the five literals, and each literal denotes exactly its status (so a status is exactly one of five) |
| Types.ParseRole | src/types/index.ts:43 | a string denotes a role iff it is one of `client`, `okw`, `cdd` |
| Types.ParseTarget | src/types/index.ts:27-28 | a comment target is exactly one of `client-info`, `change-request` |
| CaseStore.UpdateStatusIn | src/hooks/useCaseStore.ts:12-18 | same length and ids; every case with the id gets the status, assignee and `updatedAt` and nothing else; every other case is unchanged; any status is accepted; an unknown id changes nothing |
| CaseStore.AddCommentIn | src/hooks/useCaseStore.ts:20-32 | cases with the id get the comment appended at the end of their thread and a new `updatedAt`, and nothing else changes; other cases and the length are unchanged |
| CaseStore.FindCase | src/hooks/useCaseStore.ts:34 | nothing iff no case has the id; otherwise the first case with that id |
| CaseStore.FindCaseAt | src/hooks/useCaseStore.ts:34 | if position `i` holds the first case with the id, the lookup returns that case |
| CaseStore.CasesWithStatus | src/hooks/useCaseStore.ts:36-37 | exactly the cases with that status, in the list's order (an order-preserving subsequence), each as often as it occurs in the list |
| CaseStore.CasesWithStatusLength | src/hooks/useCaseStore.ts:36-37 | the status list is as long as the set of positions holding a case of that status |
| CaseStore.CasesForRole | src/hooks/useCaseStore.ts:39-50 | client: all cases; okw: exactly the pending and with-okw cases; cdd: exactly the with-cdd cases; each case the role sees occurs as often as in the list, and the others not at all |
| CaseStore.CasesForRoleIsSubsequence | src/hooks/useCaseStore.ts:39-50 | every role's list is an order-preserving subsequence of the cases |
| CaseStore.CasesForRoleCounts | src/hooks/useCaseStore.ts:36-50 | okw's list has as many cases as the pending and with-okw lists together; cdd's list is the with-cdd list |
| CaseStore.FindAfterAdd | src/hooks/useCaseStore.ts:8-10 | after an append, an id already present finds the earlier case; otherwise the new case is found if it has the id |
| CaseStore.FindAfterUpdate | src/hooks/useCaseStore.ts:12-18 | after a status update, the case found for that id carries the new status and assignee, whatever it had before; an unknown id stays unknown |
| CaseStore.FindOtherAfterUpdate | src/hooks/useCaseStore.ts:12-18 | a status update does not change what any other id finds |
| CaseStore.FindAfterAddComment | src/hooks/useCaseStore.ts:20-32 | after a comment is added, the case found has the comment at the end of its thread |
| CaseStore.UpdatesKeepTimesOrdered | src/hooks/useCaseStore.ts:12-32 | with a clock that does not go backwards, `submittedAt <= updatedAt <= now` survives updates and comments |
| CaseStore.Store.constructor | src/hooks/useCaseStore.ts:6 | the store starts with the given cases |
| CaseStore.Store.AddCase | src/hooks/useCaseStore.ts:8-10 | the new case goes at the end; the length grows by one and the earlier cases are unchanged |
| CaseStore.Store.UpdateCaseStatus | src/hooks/useCaseStore.ts:12-18 | the new list is `UpdateStatusIn` of the old one |
| CaseStore.Store.AddComment | src/hooks/useCaseStore.ts:20-32 | the comment gets the fresh id and the time; the new list is `AddCommentIn` of the old one |
| CaseStore.Store.GetCase | src/hooks/useCaseStore.ts:34 | nothing iff no case has the id; otherwise the case at the first position holding that id |
| CaseStore.Store.GetCasesByStatus | src/hooks/useCaseStore.ts:36-37 | an order-preserving subsequence holding exactly the cases of that status, each as often as in the list |
| CaseStore.Store.GetCasesForRole | src/hooks/useCaseStore.ts:39-50 | the role's list `CasesForRole`: an order-preserving subsequence; a case is in it iff the role sees its status, with its multiplicity in the list; all cases for a client |
| Text.Trim | src/components/ClientForm.tsx:73 | the result is the infix of the input left after a run of whitespace at each end; empty iff every character is whitespace; otherwise it starts and ends with a non-whitespace character |
| Text.BlankIffAllWhitespace | src/components/ClientForm.tsx:73 | a string is blank iff all its characters are whitespace |
| Text.BlankIffTrimEmpty | src/components/ClientForm.tsx:73-98 | `!s.trim()` (blank) holds iff `trim` gives the empty string |
| Text.LooksLikeEmailIffPattern | src/components/ClientForm.tsx:87 | the executable email check holds iff some substring matches `\S+@\S+\.\S+` (unanchored) |
| ClientForm.RequiredDocNamesMembership | src/components/ClientForm.tsx:49-58 | a name is required iff some request's type lists it; "Other", empty and unknown types list nothing |
| ClientForm.DocsForChangeType | src/components/ClientForm.tsx:11-17 | a type lists documents iff it is one of the four configured types ("Other", empty and unknown types list none), and at most two |
| ClientForm.ConfiguredDocsHaveSlots | src/components/ClientForm.tsx:11-24 | every document the table lists has one of the form's five initial slots |
| ClientForm.RequiredDocsHaveSlots | src/components/ClientForm.tsx:48-67 | every name the requests make required has an initial slot, so the retag can mark it |
| ClientForm.AddNames | src/components/ClientForm.tsx:56 | the inner loop adds exactly the type's document names to the set |
| ClientForm.RequiredDocNamesEmptyIff | src/components/ClientForm.tsx:52-60 | no document is required iff every request's type lists no documents |
| ClientForm.RequiredDocNamesOrderIndependent | src/components/ClientForm.tsx:52-58 | two request lists with the same set of types require the same documents |
| ClientForm.AddressUpdateRequiresProofOfAddress | src/components/ClientForm.tsx:12 | one address update requires exactly "Proof of Address" |
| ClientForm.CollectRequiredDocs | src/components/ClientForm.tsx:48-60 | the loop's set is `RequiredDocNames`; the flag is set iff some type lists a document, iff the set is non-empty |
| ClientForm.Retag | src/components/ClientForm.tsx:62-67 | same length; each document's `required` is whether its name is in the set; every other field is kept |
| ClientForm.RetagIdempotent | src/components/ClientForm.tsx:62-67 | retagging twice gives the same result as retagging once |
| ClientForm.SetRequestField | src/components/ClientForm.tsx:150-153 | the named field gets the value; the id and the other fields are kept |
| ClientForm.BlankRequest | src/components/ClientForm.tsx:136-144 | a new request has the fresh id, all three of its keys fail their checks, and it requires no documents |
| ClientForm.RemoveRequest | src/components/ClientForm.tsx:146-148 | the requests without the id, in their order, each as often as before; none with the id |
| ClientForm.UpdateRequest | src/components/ClientForm.tsx:150-154 | same length; requests with the id change only the named field; the others are unchanged |
| ClientForm.MarkUploaded | src/components/ClientForm.tsx:156-162 | same length; documents with the id get `uploaded` and the file and nothing else; the others are unchanged |
| ClientForm.FillAwaiting | src/components/ClientForm.tsx:164-170 | as `MarkUploaded`, and the slot also stops awaiting |
| ClientForm.RemoveDocument | src/components/ClientForm.tsx:172-185 | unknown id: unchanged; the first match is required: every match is reset to not uploaded without a file, in place; otherwise: every document with the id is deleted and the rest keep their order and multiplicity |
| ClientForm.RemoveRequiredKeepsLength | src/components/ClientForm.tsx:177-179 | removing a required document keeps the length |
| ClientForm.RemoveOptionalDropsOne | src/components/ClientForm.tsx:180-183 | with unique ids, removing an optional document shortens the list by one |
| ClientForm.AddAttachmentTo | src/components/ClientForm.tsx:187-199 | a cancelled or empty name changes nothing; otherwise one optional, not uploaded, awaiting slot without a file is appended |
| ClientForm.AwaitingSlot | src/components/ClientForm.tsx:190-196 | the new slot has the fresh id and the name, is optional, not uploaded, awaiting and has no file |
| ClientForm.RemoveUndoesAddAttachment | src/components/ClientForm.tsx:172-199 | removing a just-added attachment by its fresh id gives back the documents as they were |
| ClientForm.AddAttachmentKeepsIdsUnique | src/components/ClientForm.tsx:187-199 | with a fresh id, adding an attachment keeps the ids unique |
| ClientForm.ValidIffNoInvalidField | src/components/ClientForm.tsx:70-112 | the form is valid (all the checks pass) iff no error key applies |
| ClientForm.ValidHasNoInvalidField | src/components/ClientForm.tsx:70-112 | a valid form raises no error key |
| ClientForm.NoInvalidFieldIsValid | src/components/ClientForm.tsx:70-112 | a form that raises no error key is valid |
| ClientForm.RequestChecksPass | src/components/ClientForm.tsx:91-101 | no key for request `i` means its HDI number, country and type are all non-blank |
| ClientForm.InfoChecksPass | src/components/ClientForm.tsx:73-108 | no client-information or documents key means every such check passes |
| ClientForm.CheckClientInfo | src/components/ClientForm.tsx:73-89 | a key is recorded iff its client-information check fails (the date is checked without trim; the email is blank or does not match the pattern) |
| ClientForm.ErrorMessage | src/components/ClientForm.tsx:73-107 | every key has a non-empty message; the email key says "Email is required" iff the email is blank |
| ClientForm.RequestKeysMembership | src/components/ClientForm.tsx:91-101 | a key is in `RequestKeys` iff it is the HDI-number, country or type key of a position `j` whose field is blank; no other key |
| ClientForm.RequestKeysStep | src/components/ClientForm.tsx:91-101 | appending a request keeps the keys equal to the failing checks |
| ClientForm.CheckRequests | src/components/ClientForm.tsx:91-101 | the loop adds exactly `RequestKeys` to the keys it is given |
| ClientForm.KeysMatchChecks | src/components/ClientForm.tsx:70-108 | the three groups of keys together are exactly the keys whose check fails |
| ClientForm.CollectErrors | src/components/ClientForm.tsx:70-111 | a key is recorded iff its check fails, with that check's message; the record is empty iff the form is valid |
| ClientForm.NewCase | src/components/ClientForm.tsx:121-131 | the submitted case carries the fresh id and the form's data; it is pending, assigned to "System", without comments, with both timestamps the time; OKW sees it and CDD does not |
| ClientForm.IntakeForm.constructor | src/components/ClientForm.tsx:28-45 | empty client fields, one blank request with id "1", the five slots not required and not uploaded, no errors, section hidden |
| ClientForm.IntakeForm.EditClientInfo | src/components/ClientForm.tsx:251-321 | one client field is replaced |
| ClientForm.IntakeForm.RecomputeRequiredDocuments | src/components/ClientForm.tsx:48-68 | the section is shown iff some document is required; the documents are retagged against the required names |
| ClientForm.IntakeForm.AddChangeRequest | src/components/ClientForm.tsx:136-144 | one blank request is appended, then the documents are retagged |
| ClientForm.IntakeForm.RemoveChangeRequest | src/components/ClientForm.tsx:146-148 | the requests become `RemoveRequest`, then the documents are retagged |
| ClientForm.IntakeForm.UpdateChangeRequest | src/components/ClientForm.tsx:150-154 | the requests become `UpdateRequest`, then the documents are retagged |
| ClientForm.IntakeForm.HandleFileUpload | src/components/ClientForm.tsx:156-162 | the documents become `MarkUploaded` |
| ClientForm.IntakeForm.HandleAwaitingFileUpload | src/components/ClientForm.tsx:164-170 | the documents become `FillAwaiting` |
| ClientForm.IntakeForm.RemoveAttachment | src/components/ClientForm.tsx:172-185 | the documents become `RemoveDocument` |
| ClientForm.IntakeForm.AddAttachment | src/components/ClientForm.tsx:187-199 | the documents become `AddAttachmentTo` |
| ClientForm.IntakeForm.ValidateForm | src/components/ClientForm.tsx:70-112 | the stored errors hold exactly the failing keys, each with its message (`ErrorMessage`); the result is true iff no error was recorded, iff the form is valid |
| ClientForm.IntakeForm.HandleSubmit | src/components/ClientForm.tsx:114-134 | the errors are stored as in `ValidateForm`; a case is produced iff no error was recorded, iff the form is valid; it is `NewCase` of the form's data, and every document it marks as required is uploaded |
| AttachmentsPane.UploadedDocuments | src/components/AttachmentsPane.tsx:14 | exactly the uploaded documents, in order, each as often as in the list |
| AttachmentsPane.AwaitingDocuments | src/components/AttachmentsPane.tsx:15 | exactly the awaiting documents, in order, each as often as in the list |
| AttachmentsPane.AttachsExist | src/components/AttachmentsPane.tsx:13 | true iff some document is uploaded or awaiting |
| AttachmentsPane.PaneListsAgree | src/components/AttachmentsPane.tsx:13-15 | for every list: something is listed iff `attachsExist`; a document that is neither uploaded nor awaiting is in neither list |
| AttachmentsPane.RemoveRequest | src/components/AttachmentsPane.tsx:17-21 | the removal is requested iff the confirmation was accepted, and it names the document |
| AttachmentsPane.UploadRequest | src/components/AttachmentsPane.tsx:64-69 | the upload callback fires iff a file was chosen, with that slot and file |
| AttachmentsPane.AddedSlotIsAwaiting | src/components/AttachmentsPane.tsx:15 | a named attachment is appended to the awaiting list, so `attachsExist` |
| AttachmentsPane.FilledSlotIsUploaded | src/components/AttachmentsPane.tsx:14-15 | filling the slot at any position `i`, whose id no other document has, changes only that position, and the filled slot enters the uploaded list between the uploaded documents before and after it |
| AttachmentsPane.FilledSlotLeavesAwaiting | src/components/AttachmentsPane.tsx:15 | filling the slot at any position `i` with a unique id takes exactly it off the awaiting list |
| AttachmentsPane.FillingLeavesAwaiting | src/components/ClientForm.tsx:164-170 | with any ids, the awaiting list after a fill is the awaiting documents without the filled id, in order |
| AttachmentsPane.AwaitingAround | src/components/AttachmentsPane.tsx:15 | the awaiting list of a list split around one document |
| AttachmentsPane.UploadedAround | src/components/AttachmentsPane.tsx:14 | the uploaded list of a list split around one document |
| AttachmentsPane.FillAt | src/components/ClientForm.tsx:164-170 | filling the only slot with an id changes that one position |
| AttachmentsPane.AddedSlotIsAwaitingThenUploaded | src/components/AttachmentsPane.tsx:13-15 | add then upload: the slot shows as awaiting, then as uploaded |
| CaseDetails.AuthorLabel | src/components/CaseDetails.tsx:29 | 'OKW Team' iff okw, 'CDD Team' iff cdd, 'Client' iff client |
| CaseDetails.DraftComment | src/components/CaseDetails.tsx:24-36 | no draft iff the text is blank; otherwise the untrimmed text, the author label and the target; `targetId` is set iff the target is a change request, and is then the selected id |
| CaseDetails.MoveToNext | src/components/CaseDetails.tsx:50-54 | a request is emitted iff the status is pending or with-okw, and it is (with-cdd, 'CDD Team') |
| CaseDetails.DecisionRequest | src/components/CaseDetails.tsx:38-48 | approve emits (approved, "System"), reject (rejected, "System") |
| CaseDetails.CanComment | src/components/CaseDetails.tsx:56 | the composer shows iff the role is not a client |
| CaseDetails.CanApprove | src/components/CaseDetails.tsx:57 | approve and reject show exactly to CDD, for an undecided case that `handleMoveToNext` would not move |
| CaseDetails.CanMoveForward | src/components/CaseDetails.tsx:58 | the move button shows exactly to OKW, for the statuses `handleMoveToNext` acts on |
| CaseDetails.ActionsMatchHandlers | src/components/CaseDetails.tsx:50-58 | the move button is shown exactly to okw for the statuses `handleMoveToNext` acts on; a client sees no action and no composer; a decided case offers no action; approve and move never show together |
| CaseDetails.ButtonsAdvanceTheCase | src/components/CaseDetails.tsx:38-58 | the move puts the case with CDD, where approval is available; both `DecisionRequest`s assign "System" and leave a case no role can act on |
| CaseDetails.CommentsForTarget | src/components/CaseDetails.tsx:60-65 | exactly the comments of the thread: the target matches, and for a change request the id matches too |
| CaseDetails.ThreadIsSubsequence | src/components/CaseDetails.tsx:60-65 | a thread keeps the comments' order |
| CaseDetails.ClientInfoThreadIgnoresTargetId | src/components/CaseDetails.tsx:63 | the client-information thread is the same whatever `targetId` is asked for |
| CaseDetails.AddedCommentEndsItsThread | src/components/CaseDetails.tsx:60-65 | adding a comment appends it to exactly the threads it belongs to and leaves the others unchanged |
| CaseDetails.DraftLandsInItsThread | src/components/CaseDetails.tsx:24-65 | a stored draft belongs to the thread it was written for |
| CaseDetails.EnabledButtonYieldsDraft | src/components/CaseDetails.tsx:271 | an enabled add button always yields a draft, and a change-request draft then names a request |
| CaseDetails.AddCommentDisabled | src/components/CaseDetails.tsx:271 | the button is enabled iff every role would get a draft from the text, and a change-request target has a selected request |
| CaseDetails.Composer.constructor | src/components/CaseDetails.tsx:20-22 | empty text, client-information target, no selected request |
| CaseDetails.Composer.SetText | src/components/CaseDetails.tsx:262 | the text is replaced |
| CaseDetails.Composer.SetTarget | src/components/CaseDetails.tsx:232 | the target is replaced; the selection is kept |
| CaseDetails.Composer.SelectRequest | src/components/CaseDetails.tsx:245 | the selected request is replaced |
| CaseDetails.Composer.HandleAddComment | src/components/CaseDetails.tsx:24-36 | sends `DraftComment` of the state; a blank text sends nothing and changes nothing; otherwise the text is cleared |
| App.RoleName | src/App.tsx:30-35 | each role's fixed display name |
| App.DeferredAssignmentOverwrites | src/App.tsx:40-47 | a submitted case that was moved on before the deferred step runs is put back to with-okw / 'OKW Team' |
| App.App.constructor | src/App.tsx:15-28 | a client "John Doe" on the dashboard, no selection, sidebar closed, the mock cases |
| App.App.FilteredCases | src/App.tsx:62 | the dashboard list is `CasesForRole` for the acting user: an order-preserving subsequence; a case is in it iff the role sees its status, with its multiplicity; all cases for a client |
| App.App.SelectedCase | src/App.tsx:63 | nothing without a selection; otherwise nothing iff no case has the selected id, else the case at the first position holding it |
| App.App.ShowsCaseDetails | src/App.tsx:103 | the details page shows iff the view is case details and some case has the non-empty selected id |
| App.App.HandleRoleChange | src/App.tsx:30-38 | the user becomes the role with its fixed name; the view returns to the dashboard |
| App.App.HandleCaseSubmit | src/App.tsx:40-43 | the case is appended, the dashboard shows, and its automatic assignment is queued |
| App.App.FireScheduled | src/App.tsx:44-46 | the oldest queued id is set to with-okw / 'OKW Team' whatever its status; nothing happens when the queue is empty |
| App.App.HandleCaseSelect | src/App.tsx:49-52 | the selection and the case-details view are set |
| App.App.HandleSidebarNavigate | src/App.tsx:65-68 | the page's view; the selection is cleared, so no case details show |
| App.App.CreateNew | src/App.tsx:92 | the form view |
| App.App.BackToDashboard | src/App.tsx:99-106 | the dashboard view |
| App.App.SetSidebarOpen | src/App.tsx:74-81 | the sidebar flag is set |
| App.App.HandleAddComment | src/App.tsx:54-56 | the store gets the comment with the fresh id and the time |
| App.App.HandleStatusUpdate | src/App.tsx:58-60 | any status and assignee go straight to the store |
| Reports.SharesSplitDays | src/components/Reports.tsx:27-32 | `min(d, 3) + max(0, d - 3) == d`; OKW's share is at most 3 and CDD's is never negative |
| Reports.Average | src/components/Reports.tsx:36-38 | 0 when the count is 0, otherwise the exact quotient |
| Reports.TotalsStep | src/components/Reports.tsx:18-34 | how each running total grows when one case is taken in |
| Reports.CalculateTeamMetrics | src/components/Reports.tsx:11-41 | overall count is the number of cases and overall days their sum; each team's count and days are its counted cases and its share of their days; the averages are `Average` of those |
| Reports.TeamCountsOrdered | src/components/Reports.tsx:25-33 | cdd ≤ okw ≤ total |
| Reports.OkwCountsNonPending | src/components/Reports.tsx:25 | OKW counts exactly the non-pending cases |
| Reports.CddCountIsSumOfStatuses | src/components/Reports.tsx:30 | CDD counts exactly the with-cdd, approved and rejected cases |
| Reports.TeamDaysCoverAll | src/components/Reports.tsx:23-33 | when every case has reached CDD, the two teams' days add up to the overall days |
| Reports.TeamDaysBounded | src/components/Reports.tsx:23-33 | with non-negative day differences, the team days are non-negative and together at most the overall days |
| Reports.StatusDistribution | src/components/Reports.tsx:45-51 | each count is the number of positions holding a case of that status |
| Reports.DistributionSumsToTotal | src/components/Reports.tsx:45-51 | the five counts add up to the number of cases |
| Reports.StatusListsCoverAll | src/components/Reports.tsx:45-51 | the five status counts add up to the length of the list |
| Reports.ExportRecords | src/components/Reports.tsx:61-69 | one record per case, in order, copying id, client name, status literal, timestamps and assignee |
| Dashboard.ComputeStats | src/components/Dashboard.tsx:29-34 | total is the number of cases; pending is the number of positions with a pending case; in review those with a with-okw or with-cdd case; completed those with an approved or rejected case |
| Dashboard.BucketsPartition | src/components/Dashboard.tsx:29-34 | the three buckets add up to the total |
| Dashboard.StatsByStatus | src/components/Dashboard.tsx:31-33 | the buckets are sums of per-status list lengths |
| Dashboard.BucketCounts | src/components/Dashboard.tsx:31-33 | the in-review and completed counts are the sums of their two status lists' lengths |
| Dashboard.BadgesDistinguishStatuses | src/components/Dashboard.tsx:12-26 | both maps are defined for all five statuses, and no two statuses share a colour or an icon |
| Dashboard.StatusColor | src/components/Dashboard.tsx:12-18 | yellow iff pending, blue iff with-okw, purple iff with-cdd, green iff approved, red iff rejected |
| Dashboard.StatusIcon | src/components/Dashboard.tsx:20-26 | clock iff pending, file iff with-okw, users iff with-cdd, check iff approved, cross iff rejected |
| Dashboard.CanCreateNew | src/components/Dashboard.tsx:43-50 | the submit button shows exactly to the role that cannot comment, and that role has no review action on any status |
| MockData.InitialDashboards | src/data/mockData.ts:11-60 | on the initial cases the client sees both, OKW sees Acme's, CDD sees Global Tech's |

## Left out

- Rendering: JSX, CSS classes, icons as images, tab switching and the Header and Sidebar components. The theme hook is left out too. `DocumentsSection.tsx` is not part of this model: it only repeats a required-document filter.
- The export download in `Reports.tsx:72-80` (Blob, object URL, DOM anchor) is left out. Only the `caseDetails` records are modelled.
- `daysSinceSubmission` needs the current date and `Math.ceil`, so it is left out of `CaseRecord`.
- ISO date strings become the millisecond `Timestamp` they denote.
- Clocks and id generation are parameters (`now`, `freshId`). The model does not capture that two `Date.now()` ids taken in the same millisecond can collide.
- The model reads the clock once per handler. The source calls `new Date()` twice: in `addComment` (`src/hooks/useCaseStore.ts:24` and `:29`) and in `handleSubmit` (`src/components/ClientForm.tsx:129` and `:130`). So `submittedAt == updatedAt` in `NewCase` and `HandleSubmit`, and the comment timestamp equal to `updatedAt` in `AddComment`, are properties of the model, not of the source.
- Floating point: day differences are integer inputs, so the `Math.ceil` millisecond-to-day conversion is left out. Averages are exact reals, and the percentage bar widths are left out.
- Browser dialogs:
  - the answers to `window.prompt` and `window.confirm` are inputs;
  - the `alert` "emails" in `CaseDetails.tsx:41,47` are dropped.
- The `setTimeout` of `handleCaseSubmit` is an explicit later step, `App.App.FireScheduled`. Timers fire in the order they were set, which is what the source's equal delays give. Interleavings with real time are not modelled.
- React effect and re-render ordering. Each change-request method runs the recompute that `useEffect` would run after it.
- `File` objects are opaque handles.
- The error record's keys are the datatype `FormField` (`HdiNumberField(i)` for the string `hdiNumber-${i}`), not strings. The record is built from the set of failing keys at the end, rather than written key by key.
- ClientForm.DocsForChangeType: looking up an inherited `Object.prototype` key such as `toString` is not modelled. Every name outside the table yields no documents.
- ClientForm.IntakeForm.Valid: `coltId` and `email` are always present in the form's own state. So validation requires them, where `.trim()` on an absent value would throw.
- ClientForm.CheckClientInfo: the `else if` means a blank email gets only "Email is required". This is modelled in `ErrorMessage`, and the method's contract speaks about keys.

