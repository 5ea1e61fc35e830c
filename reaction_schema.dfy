/** Reactions to pops (`reactions` collection). */
module ReactionSchema {
  import opened Common

  datatype ReactionStatus = Pending | Accepted | Rejected | Cancelled

  datatype Reaction = Reaction(
    reactionId: string,
    popId: string,
    fromUserId: string,
    toUserId: string,
    message: Option<string>,
    createdAt: Time,
    status: ReactionStatus)

  /** A reaction that still counts on its pop: not rejected and not cancelled. */
  predicate Live(r: Reaction) {
    r.status == Pending || r.status == Accepted
  }
}
