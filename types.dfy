/**
 * The records of the case-review workflow. TypeScript string unions become enumerations; optional
 * properties (`file?`, `targetId?`, and the `awaiting`, `coltId` and `email` properties the components
 * use although the interfaces do not declare them) become `Option`s.
 */
module Types {
  import opened Wrappers

  /** A point in time, in milliseconds since the epoch (the value of `Date.getTime()`). */
  type Timestamp = int

  /** A chosen file: the workflow never looks inside it. */
  datatype FileHandle = FileHandle(handle: nat)

  /** The review status of a case: exactly one of five. */
  datatype Status = Pending | WithOkw | WithCdd | Approved | Rejected

  /** The acting user's role: exactly one of three. */
  datatype Role = Client | Okw | Cdd

  /** What a comment is about: the client's information, or one change request. */
  datatype CommentTarget = ClientInfoTarget | ChangeRequestTarget

  datatype ClientInfo = ClientInfo(
    clientName: string,
    address: string,
    dateOfInformation: string,
    coltId: Option<string>,
    email: Option<string>)

  datatype ChangeRequest = ChangeRequest(id: string, hdiNumber: string, country: string, typeOfChange: string)

  /** A document slot; `awaiting` marks a slot added by hand that has no file yet. */
  datatype Document = Document(
    id: string,
    name: string,
    required: bool,
    uploaded: bool,
    awaiting: Option<bool>,
    file: Option<FileHandle>)
  {
    /** The JavaScript truthiness of `awaiting`: absent counts as false. */
    predicate IsAwaiting() {
      awaiting == Some(true)
    }
  }

  /** A comment as the store keeps it; `targetId` names a change request, or is absent. */
  datatype Comment = Comment(
    id: string,
    text: string,
    author: string,
    timestamp: Timestamp,
    target: CommentTarget,
    targetId: Option<string>)

  /** A comment before the store gives it an id and a timestamp (`Omit<Comment, 'id' | 'timestamp'>`). */
  datatype CommentDraft = CommentDraft(text: string, author: string, target: CommentTarget, targetId: Option<string>)

  /** A case: the client's data, its ordered change requests, documents and comments, and its review state. */
  datatype Case = Case(
    id: string,
    clientInfo: ClientInfo,
    changeRequests: seq<ChangeRequest>,
    documents: seq<Document>,
    comments: seq<Comment>,
    status: Status,
    currentAssignee: string,
    submittedAt: Timestamp,
    updatedAt: Timestamp)

  datatype User = User(role: Role, name: string)

  /** The string each status is in the TypeScript union. */
  function StatusLiteral(s: Status): string {
    match s
    case Pending => "pending"
    case WithOkw => "with-okw"
    case WithCdd => "with-cdd"
    case Approved => "approved"
    case Rejected => "rejected"
  }

  /** Membership in the status union: a string is a status exactly when it is one of the five literals. */
  function ParseStatus(str: string): (r: Option<Status>)
    ensures forall s :: r == Some(s) <==> StatusLiteral(s) == str
  {
    match str
    case "pending" => Some(Pending)
    case "with-okw" => Some(WithOkw)
    case "with-cdd" => Some(WithCdd)
    case "approved" => Some(Approved)
    case "rejected" => Some(Rejected)
    case _ => None
  }

  /** The string each role is in the TypeScript union. */
  function RoleLiteral(role: Role): string {
    match role
    case Client => "client"
    case Okw => "okw"
    case Cdd => "cdd"
  }

  /** Membership in the role union: a string is a role exactly when it is one of the three literals. */
  function ParseRole(str: string): (r: Option<Role>)
    ensures forall role :: r == Some(role) <==> RoleLiteral(role) == str
  {
    match str
    case "client" => Some(Client)
    case "okw" => Some(Okw)
    case "cdd" => Some(Cdd)
    case _ => None
  }

  /** The string each comment target is in the TypeScript union. */
  function TargetLiteral(t: CommentTarget): string {
    match t
    case ClientInfoTarget => "client-info"
    case ChangeRequestTarget => "change-request"
  }

  /** Membership in the comment-target union. */
  function ParseTarget(str: string): (r: Option<CommentTarget>)
    ensures forall t :: r == Some(t) <==> TargetLiteral(t) == str
  {
    match str
    case "client-info" => Some(ClientInfoTarget)
    case "change-request" => Some(ChangeRequestTarget)
    case _ => None
  }
}
