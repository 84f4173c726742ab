/**
 * The case-details view: which actions a role may take on a case in a given status, the status
 * requests the buttons send, the comment threads it shows, and the comment composer.
 */
module CaseDetails {
  import opened Wrappers
  import opened Types
  import opened Seqs
  import opened Text
  import CaseStore

  /** The `author` a comment gets from the role writing it. */
  function AuthorLabel(role: Role): (r: string)
    ensures role == Okw <==> r == "OKW Team"
    ensures role == Cdd <==> r == "CDD Team"
    ensures role == Client <==> r == "Client"
  {
    match role
    case Okw => "OKW Team"
    case Cdd => "CDD Team"
    case Client => "Client"
  }

  /**
   * `handleAddComment`'s draft: nothing when the text is blank; otherwise the text as typed (not
   * trimmed), the role's label, the chosen target, and the selected request id only when the target is
   * a change request.
   */
  function DraftComment(text: string, role: Role, target: CommentTarget, selectedId: string): (r: Option<CommentDraft>)
    ensures r.None? <==> IsBlank(text)
    ensures r.Some? ==> r.value.text == text && r.value.author == AuthorLabel(role) && r.value.target == target
    ensures r.Some? ==> (r.value.targetId.Some? <==> target == ChangeRequestTarget)
    ensures r.Some? && target == ChangeRequestTarget ==> r.value.targetId == Some(selectedId)
  {
    if IsBlank(text) then None
    else
      Some(CommentDraft(text, AuthorLabel(role), target,
                        if target == ChangeRequestTarget then Some(selectedId) else None))
  }

  /** What a status button asks the store for: a new status and the new assignee. */
  datatype StatusRequest = StatusRequest(status: Status, assignee: string)

  /**
   * `handleApprove` (`approve`) and `handleReject` (`!approve`): both hand the case to "System" and
   * differ only in the decided status they write.
   */
  function DecisionRequest(approve: bool): (r: StatusRequest)
    ensures r.assignee == "System"
    ensures r.status == Approved <==> approve
    ensures r.status == Rejected <==> !approve
  {
    StatusRequest(if approve then Approved else Rejected, "System")
  }

  /** `handleMoveToNext`: only a pending or OKW-held case is handed to the CDD team; otherwise nothing is sent. */
  function MoveToNext(status: Status): (r: Option<StatusRequest>)
    ensures r.Some? <==> status == Pending || status == WithOkw
    ensures r.Some? ==> r.value == StatusRequest(WithCdd, "CDD Team")
  {
    if status == Pending || status == WithOkw then Some(StatusRequest(WithCdd, "CDD Team")) else None
  }

  /** Whether the comment composer is shown: to both review teams, never to the client. */
  predicate CanComment(role: Role): (r: bool)
    ensures r <==> role != Client
  {
    role == Okw || role == Cdd
  }

  /**
   * Whether the approve and reject buttons are shown: to CDD, exactly for the undecided cases that the
   * move button no longer applies to.
   */
  predicate CanApprove(role: Role, status: Status): (r: bool)
    ensures r <==> role == Cdd && MoveToNext(status).None? && status != Approved && status != Rejected
  {
    role == Cdd && status == WithCdd
  }

  /** Whether the "Move to CDD Review" button is shown: to OKW, exactly for the statuses `handleMoveToNext` acts on. */
  predicate CanMoveForward(role: Role, status: Status): (r: bool)
    ensures r <==> role == Okw && MoveToNext(status).Some?
  {
    role == Okw && (status == Pending || status == WithOkw)
  }

  /**
   * The buttons agree with the handlers: the move button is shown exactly to OKW for the statuses
   * `handleMoveToNext` acts on, clients never see an action or the composer, and a decided case offers
   * no action to anyone.
   */
  lemma ActionsMatchHandlers(role: Role, status: Status)
    ensures CanMoveForward(role, status) <==> role == Okw && MoveToNext(status).Some?
    ensures role == Client ==> !CanComment(role) && !CanApprove(role, status) && !CanMoveForward(role, status)
    ensures status == Approved || status == Rejected ==> !CanApprove(role, status) && !CanMoveForward(role, status)
    ensures !(CanApprove(role, status) && CanMoveForward(role, status))
  {
  }

  /**
   * A button press followed by the store's update: the move puts a pending or OKW-held case with the
   * CDD team, and approval or rejection from the CDD stage ends in a decided status that offers no
   * further action.
   */
  lemma ButtonsAdvanceTheCase(role: Role, c: Case, now: Timestamp)
    ensures CanMoveForward(role, c.status) ==>
      var r := MoveToNext(c.status).value;
      var next := CaseStore.SetStatus(c, r.status, r.assignee, now);
      next.status == WithCdd && next.currentAssignee == "CDD Team" && CanApprove(Cdd, next.status)
    ensures CanApprove(role, c.status) ==>
      forall approve: bool ::
        var r := DecisionRequest(approve);
        var next := CaseStore.SetStatus(c, r.status, r.assignee, now);
        next.currentAssignee == "System" && forall who :: !CanApprove(who, next.status) && !CanMoveForward(who, next.status)
  {
  }

  /** Whether a comment belongs to a thread: the client-information thread, or one request's thread. */
  predicate InThread(comment: Comment, target: CommentTarget, targetId: Option<string>) {
    comment.target == target && (target == ClientInfoTarget || comment.targetId == targetId)
  }

  /** `getCommentsForTarget`: the comments of one thread, in the order they were added. */
  function CommentsForTarget(comments: seq<Comment>, target: CommentTarget, targetId: Option<string>): (r: seq<Comment>)
    ensures forall i :: 0 <= i < |r| ==> r[i] in comments && r[i].target == target
    ensures target == ChangeRequestTarget ==> forall i :: 0 <= i < |r| ==> r[i].targetId == targetId
    ensures forall i :: 0 <= i < |comments| && InThread(comments[i], target, targetId) ==> comments[i] in r
  {
    Filter((c: Comment) => InThread(c, target, targetId), comments)
  }

  /** Each thread keeps the comments' relative order. */
  lemma ThreadIsSubsequence(comments: seq<Comment>, target: CommentTarget, targetId: Option<string>)
    ensures IsSubsequence(CommentsForTarget(comments, target, targetId), comments)
  {
    FilterIsSubsequence((c: Comment) => InThread(c, target, targetId), comments);
  }

  /** The client-information thread ignores `targetId`: every client-information comment is in it. */
  lemma ClientInfoThreadIgnoresTargetId(comments: seq<Comment>, a: Option<string>, b: Option<string>)
    ensures CommentsForTarget(comments, ClientInfoTarget, a) == CommentsForTarget(comments, ClientInfoTarget, b)
  {
    FilterAgree((c: Comment) => InThread(c, ClientInfoTarget, a), (c: Comment) => InThread(c, ClientInfoTarget, b), comments);
  }

  /**
   * Adding a comment through the store extends exactly the threads it belongs to, at their end, and
   * leaves every other thread as it was.
   */
  lemma AddedCommentEndsItsThread(c: Case, comment: Comment, now: Timestamp, target: CommentTarget, targetId: Option<string>)
    ensures CommentsForTarget(CaseStore.WithComment(c, comment, now).comments, target, targetId)
      == CommentsForTarget(c.comments, target, targetId) + (if InThread(comment, target, targetId) then [comment] else [])
  {
    FilterAppend((x: Comment) => InThread(x, target, targetId), c.comments, [comment]);
  }

  /**
   * A draft the composer emits lands in the thread it was written for: the client-information thread,
   * or the thread of the selected request.
   */
  lemma DraftLandsInItsThread(text: string, role: Role, target: CommentTarget, selectedId: string, freshId: string, now: Timestamp)
    requires DraftComment(text, role, target, selectedId).Some?
    ensures InThread(CaseStore.NewComment(DraftComment(text, role, target, selectedId).value, freshId, now),
                     target, if target == ChangeRequestTarget then Some(selectedId) else None)
  {
  }

  /**
   * The add button's `disabled`: a blank text, or a change-request comment without a selected request.
   * It is enabled exactly when `handleAddComment` would produce a draft, for any role, and a
   * change-request draft would name a request.
   */
  predicate AddCommentDisabled(text: string, target: CommentTarget, selectedId: string): (r: bool)
    ensures !r <==> (forall role :: DraftComment(text, role, target, selectedId).Some?)
                    && (target == ChangeRequestTarget ==> selectedId != "")
  {
    assert DraftComment(text, Client, target, selectedId).None? <==> IsBlank(text);
    IsBlank(text) || (target == ChangeRequestTarget && selectedId == "")
  }

  /** An enabled button always yields a draft, and a change-request draft then names a request. */
  lemma EnabledButtonYieldsDraft(text: string, role: Role, target: CommentTarget, selectedId: string)
    requires !AddCommentDisabled(text, target, selectedId)
    ensures DraftComment(text, role, target, selectedId).Some?
    ensures target == ChangeRequestTarget ==> DraftComment(text, role, target, selectedId).value.targetId != Some("")
  {
  }

  /** The composer's state: the text, the chosen target and the selected request. */
  class Composer {
    var commentText: string
    var commentTarget: CommentTarget
    var selectedChangeRequestId: string

    constructor ()
      ensures commentText == "" && commentTarget == ClientInfoTarget && selectedChangeRequestId == ""
    {
      commentText := "";
      commentTarget := ClientInfoTarget;
      selectedChangeRequestId := "";
    }

    /** The textarea's `onChange`. */
    method SetText(text: string)
      modifies this`commentText
      ensures commentText == text
    {
      commentText := text;
    }

    /** The target select's `onChange`; the selected request is kept. */
    method SetTarget(target: CommentTarget)
      modifies this`commentTarget
      ensures commentTarget == target
    {
      commentTarget := target;
    }

    /** The request select's `onChange`. */
    method SelectRequest(id: string)
      modifies this`selectedChangeRequestId
      ensures selectedChangeRequestId == id
    {
      selectedChangeRequestId := id;
    }

    /**
     * `handleAddComment`: with a blank text nothing is sent and nothing changes; otherwise the draft is
     * sent and the text is cleared, while the target and the selection stay.
     */
    method HandleAddComment(role: Role) returns (sent: Option<CommentDraft>)
      modifies this`commentText
      ensures sent == DraftComment(old(commentText), role, commentTarget, selectedChangeRequestId)
      ensures sent.None? ==> commentText == old(commentText)
      ensures sent.Some? ==> commentText == ""
    {
      if IsBlank(commentText) {
        return None;
      }
      sent := Some(CommentDraft(commentText, AuthorLabel(role), commentTarget,
                                if commentTarget == ChangeRequestTarget then Some(selectedChangeRequestId) else None));
      commentText := "";
    }
  }
}
