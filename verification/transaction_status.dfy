/** The status of a transaction: which changes are allowed, and which statuses may no longer be reversed. */
module TransactionStatus {

  datatype Status =
    | Created | Pending | Authorized | Processing | Settled | Completed | Failed | Reversed | Refunded | Cancelled
    | HeldForReview | AwaitingReceiverAcceptance | PaysafeConfirmed | ReturnRequested

  /** The last three statuses can be stored, but the table of transitions does not know them. */
  function NextStatuses(s: Status): set<Status> {
    match s
    case Created => {Created, Pending, Failed, Cancelled, HeldForReview}
    case Pending => {Authorized, Failed, Cancelled, HeldForReview, Processing, Completed}
    case Authorized => {Processing, Failed, Reversed, Completed, HeldForReview}
    case Processing => {Settled, Failed, Reversed, Completed, HeldForReview}
    case Settled => {Completed, Reversed, Refunded}
    case Completed => {Reversed, Refunded, HeldForReview}
    case Reversed => {Refunded}
    case HeldForReview => {Pending, Authorized, Failed, Cancelled, Completed, Reversed}
    case _ => {}
  }

  predicate IsValidTransition(s: Status, next: Status) { next in NextStatuses(s) }

  predicate IsReversalEligible(s: Status) { s !in {Reversed, Failed, Refunded, Cancelled} }

  /** The statuses from which one may be reached: the same table by its columns. */
  function Before(next: Status): set<Status> {
    match next
    case Created => {Created}
    case Pending => {Created, HeldForReview}
    case Authorized => {Pending, HeldForReview}
    case Processing => {Pending, Authorized}
    case Settled => {Processing}
    case Completed => {Pending, Authorized, Processing, Settled, HeldForReview}
    case Failed => {Created, Pending, Authorized, Processing, HeldForReview}
    case Reversed => {Authorized, Processing, Settled, Completed, HeldForReview}
    case Refunded => {Settled, Completed, Reversed}
    case Cancelled => {Created, Pending, HeldForReview}
    case HeldForReview => {Created, Pending, Authorized, Processing, Completed}
    case _ => {}
  }

  lemma TransitionsBothWays(s: Status, next: Status)
    ensures IsValidTransition(s, next) <==> s in Before(next)
  {
  }

  /** No allowed change makes a transaction eligible for reversal again. */
  lemma IneligibleStays(s: Status, next: Status)
    requires !IsReversalEligible(s) && IsValidTransition(s, next)
    ensures !IsReversalEligible(next)
  {
  }
}
