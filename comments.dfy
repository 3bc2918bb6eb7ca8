/** Adding a comment to a ticket from the bot: the tracker-side rule
    `add_comment_to_issue` applies, and what `process_comment` then tells the
    user. */
module Comments {
  import opened Text

  /** `get_issue_details`: `None` on a 404 or any error, else the status name. */
  datatype IssueLookup = NoIssue | IssueStatus(status: string)

  /** The answer to the POST of the comment. */
  datatype PostResult = Posted | Forbidden | PostFailed

  datatype CommentOutcome = Added | IssueMissing | IssueClosed | NoPermission | PostError

  /** `add_comment_to_issue`: a missing ticket and a closed one are refused
      before anything is posted; the POST can then be forbidden or fail. */
  function AddComment(lookup: IssueLookup, post: PostResult): (o: CommentOutcome)
    ensures o == Added <==> lookup.IssueStatus? && !IsClosedStatus(lookup.status) && post == Posted
    ensures lookup.IssueStatus? && IsClosedStatus(lookup.status) ==> o == IssueClosed
    ensures lookup == NoIssue ==> o == IssueMissing
  {
    match lookup
    case NoIssue => IssueMissing
    case IssueStatus(status) =>
      if IsClosedStatus(status) then IssueClosed
      else match post
        case Posted => Added
        case Forbidden => NoPermission
        case PostFailed => PostError
  }

  /** Whether the comment is posted at all. */
  predicate Reaches(lookup: IssueLookup) {
    lookup.IssueStatus? && !IsClosedStatus(lookup.status)
  }

  /** A ticket is refused as closed, whatever the POST would do, exactly
      when its status is Done or Готово in some letter case. */
  lemma ClosedTicketRefusesComments(status: string, post: PostResult)
    ensures AddComment(IssueStatus(status), post) == IssueClosed <==>
            EqualsIgnoringCase(status, "done") || EqualsIgnoringCase(status, "готово")
  {
    ClosedStatusIff(status);
  }

  /** What the user is told afterwards: the success message, or the error
      message for the exception. */
  datatype Report = ReportAdded | ReportError(reason: CommentOutcome)

  /** `process_comment`: `add_comment_to_issue` logs and re-raises every
      refusal, so the error branch is taken exactly when the comment was not
      added, with that refusal as the reason. */
  function CommentReport(o: CommentOutcome): (r: Report)
  {
    if o == Added then ReportAdded else ReportError(o)
  }

  /** The user hears "added" exactly when the ticket exists, is open, and
      the tracker accepted the POST. */
  lemma ReportedAddedOnlyWhenPosted(lookup: IssueLookup, post: PostResult)
    ensures CommentReport(AddComment(lookup, post)) == ReportAdded
            <==> Reaches(lookup) && post == Posted
  {
  }
}
