/**
 * The reaction service (`ReactionService`): a user reacts to someone
 * else's pop, the pop's author accepts or rejects, the sender may cancel.
 * The pop's `reactionCount` follows every change, so that it always equals
 * the number of live (PENDING or ACCEPTED) reactions on the pop.
 */
module Reactions {
  import opened Common
  import opened PopSchema
  import opened ReactionSchema
  import Pops
  import Store

  // ---------------------------------------------------------------------
  // Invariants of the two collections
  // ---------------------------------------------------------------------

  /** Every reaction is stored under its own id. */
  predicate Keyed(reactions: map<string, Reaction>) {
    forall k :: k in reactions ==> reactions[k].reactionId == k
  }

  /** The live reactions on pop `popId`. */
  function LiveOn(reactions: map<string, Reaction>, popId: string): set<string> {
    set k | k in reactions && reactions[k].popId == popId && Live(reactions[k])
  }

  /** Every stored pop counts exactly its live reactions. */
  predicate CountInv(pops: map<string, Pop>, reactions: map<string, Reaction>) {
    forall id :: id in pops ==> pops[id].reactionCount == |LiveOn(reactions, id)|
  }

  /** At most one live reaction per pop and sender. */
  predicate LiveUnique(reactions: map<string, Reaction>) {
    forall k1, k2 ::
      (k1 in reactions && k2 in reactions && Live(reactions[k1]) && Live(reactions[k2]) &&
       reactions[k1].popId == reactions[k2].popId && reactions[k1].fromUserId == reactions[k2].fromUserId)
      ==> k1 == k2
  }

  /** A new pop starts at zero, which is right when no reaction names its id yet. */
  lemma {:induction false} CountInvNewPop(pops: map<string, Pop>, reactions: map<string, Reaction>, p: Pop)
    requires CountInv(pops, reactions)
    requires p.reactionCount == 0
    requires forall k :: k in reactions ==> reactions[k].popId != p.popId
    ensures CountInv(pops[p.popId := p], reactions)
  {
    assert LiveOn(reactions, p.popId) == {};
  }

  /** Adding a live reaction adds it to its pop's live set and to no other. */
  lemma {:induction false} LiveOnAdd(m: map<string, Reaction>, k: string, x: Reaction, popId: string)
    requires k !in m && Live(x)
    ensures x.popId == popId ==> LiveOn(m[k := x], popId) == LiveOn(m, popId) + {k}
    ensures x.popId != popId ==> LiveOn(m[k := x], popId) == LiveOn(m, popId)
    ensures |LiveOn(m[k := x], popId)| == |LiveOn(m, popId)| + (if x.popId == popId then 1 else 0)
  {
    if x.popId == popId {
      assert LiveOn(m[k := x], popId) == LiveOn(m, popId) + {k};
      assert k !in LiveOn(m, popId);
    } else {
      assert LiveOn(m[k := x], popId) == LiveOn(m, popId);
    }
  }

  /** Moving a live reaction to a status that is not live removes it from its pop's live set. */
  lemma {:induction false} LiveOnKill(m: map<string, Reaction>, k: string, s: ReactionStatus, popId: string)
    requires k in m && Live(m[k]) && s != Pending && s != Accepted
    ensures |LiveOn(m[k := m[k].(status := s)], popId)| ==
            |LiveOn(m, popId)| - (if m[k].popId == popId then 1 else 0)
  {
    var m1 := m[k := m[k].(status := s)];
    if m[k].popId == popId {
      assert LiveOn(m1, popId) == LiveOn(m, popId) - {k};
      assert k in LiveOn(m, popId);
    } else {
      assert LiveOn(m1, popId) == LiveOn(m, popId);
    }
  }

  /** Moving a live reaction to another live status changes no live set. */
  lemma {:induction false} LiveOnKeep(m: map<string, Reaction>, k: string, s: ReactionStatus, popId: string)
    requires k in m && Live(m[k]) && (s == Pending || s == Accepted)
    ensures LiveOn(m[k := m[k].(status := s)], popId) == LiveOn(m, popId)
  {
    var m1 := m[k := m[k].(status := s)];
    forall j
      ensures j in LiveOn(m1, popId) <==> j in LiveOn(m, popId)
    {
      if j == k {
        assert Live(m1[k]);
      }
    }
  }

  // ---------------------------------------------------------------------
  // create_reaction
  // ---------------------------------------------------------------------

  /** A live reaction by `from` on pop `popId` already exists. */
  predicate HasLiveReaction(reactions: map<string, Reaction>, popId: string, from: string) {
    exists k :: k in reactions && reactions[k].popId == popId && reactions[k].fromUserId == from && Live(reactions[k])
  }

  /** The guards of `create_reaction`, in the service's order. */
  function CreateCheck(pops: map<string, Pop>, reactions: map<string, Reaction>, from: string, popId: string): (r: Outcome)
    ensures r.Pass? <==>
      popId in pops && pops[popId].userId != from && !HasLiveReaction(reactions, popId, from)
    ensures popId !in pops ==> r == Fail(NotFound)
    ensures popId in pops && pops[popId].userId == from ==> r == Fail(OwnPop)
    ensures r.Fail? ==> r.error in {NotFound, OwnPop, DuplicateReaction}
  {
    if popId !in pops then Fail(NotFound)
    else if pops[popId].userId == from then Fail(OwnPop)
    else if HasLiveReaction(reactions, popId, from) then Fail(DuplicateReaction)
    else Pass
  }

  /** Storing a new live reaction and adding one to its pop's counter keeps the count invariant. */
  lemma {:induction false} CountInvAdd(pops: map<string, Pop>, reactions: map<string, Reaction>, k: string, x: Reaction)
    requires CountInv(pops, reactions)
    requires k !in reactions && Live(x) && x.popId in pops
    ensures CountInv(pops[x.popId := Pops.Bumped(pops[x.popId], 1)], reactions[k := x])
  {
    var pops1 := pops[x.popId := Pops.Bumped(pops[x.popId], 1)];
    forall q | q in pops1
      ensures pops1[q].reactionCount == |LiveOn(reactions[k := x], q)|
    {
      LiveOnAdd(reactions, k, x, q);
    }
  }

  /** A new reaction by a sender with no live reaction on that pop keeps senders unique. */
  lemma {:induction false} LiveUniqueAdd(reactions: map<string, Reaction>, k: string, x: Reaction)
    requires LiveUnique(reactions) && k !in reactions
    requires !HasLiveReaction(reactions, x.popId, x.fromUserId)
    ensures LiveUnique(reactions[k := x])
  {
    var m := reactions[k := x];
    forall k1, k2 |
      k1 in m && k2 in m && Live(m[k1]) && Live(m[k2]) &&
      m[k1].popId == m[k2].popId && m[k1].fromUserId == m[k2].fromUserId
      ensures k1 == k2
    {
      if k1 != k && k2 != k {
        assert reactions[k1] == m[k1] && reactions[k2] == m[k2];
      }
    }
  }

  /**
   * `create_reaction`: a PENDING reaction addressed to the pop's author,
   * stored under a fresh id; the pop's counter goes up by one.  Both
   * invariants are kept.
   */
  method CreateReaction(db: Store.Db, from: string, popId: string, message: Option<string>, now: Time)
    returns (r: Result<Reaction>)
    modifies db`reactions, db`pops
    ensures r.Err? <==> CreateCheck(old(db.pops), old(db.reactions), from, popId).Fail?
    ensures r.Err? ==> Fail(r.error) == CreateCheck(old(db.pops), old(db.reactions), from, popId) &&
                       db.reactions == old(db.reactions) && db.pops == old(db.pops)
    ensures r.Ok? ==>
      r.value.reactionId !in old(db.reactions) &&
      r.value == Reaction(r.value.reactionId, popId, from, old(db.pops)[popId].userId, message, now, Pending) &&
      db.reactions == old(db.reactions)[r.value.reactionId := r.value] &&
      db.pops == old(db.pops)[popId := Pops.Bumped(old(db.pops)[popId], 1)]
    ensures Keyed(old(db.reactions)) ==> Keyed(db.reactions)
    ensures LiveUnique(old(db.reactions)) ==> LiveUnique(db.reactions)
    ensures CountInv(old(db.pops), old(db.reactions)) ==> CountInv(db.pops, db.reactions)
  {
    var check := CreateCheck(db.pops, db.reactions, from, popId);
    if check.Fail? {
      return Err(check.error);
    }
    ghost var pops0, reactions0 := db.pops, db.reactions;
    var id := FreshKey(db.reactions.Keys);
    var x := Reaction(id, popId, from, db.pops[popId].userId, message, now, Pending);
    db.reactions := db.reactions[id := x];
    db.pops := db.pops[popId := Pops.Bumped(db.pops[popId], 1)];
    r := Ok(x);
    if CountInv(pops0, reactions0) {
      CountInvAdd(pops0, reactions0, id, x);
    }
    if LiveUnique(reactions0) {
      LiveUniqueAdd(reactions0, id, x);
    }
  }

  /** `get_reaction_by_id`. */
  method GetReactionById(db: Store.Db, id: string) returns (r: Option<Reaction>)
    ensures id in db.reactions ==> r == Some(db.reactions[id])
    ensures id !in db.reactions ==> r == None
  {
    if id in db.reactions {
      return Some(db.reactions[id]);
    }
    r := None;
  }

  // ---------------------------------------------------------------------
  // Listings
  // ---------------------------------------------------------------------

  function CreatedKey(x: Reaction): real {
    x.createdAt as real
  }

  /** The optional status filter of the listings (none means every status). */
  predicate StatusMatches(x: Reaction, statusFilter: Option<ReactionStatus>) {
    statusFilter.Some? ==> x.status == statusFilter.value
  }

  /** `get_received_reactions`: newest first. */
  method GetReceivedReactions(db: Store.Db, userId: string, statusFilter: Option<ReactionStatus>)
    returns (r: seq<Reaction>)
    ensures forall x :: x in r <==>
      x in db.reactions.Values && x.toUserId == userId && StatusMatches(x, statusFilter)
    ensures |r| == |KeysWhere(db.reactions, (x: Reaction) => x.toUserId == userId && StatusMatches(x, statusFilter))|
    ensures SortedBy(r, CreatedKey, true)
  {
    r := SelectSorted(db.reactions, (x: Reaction) => x.toUserId == userId && StatusMatches(x, statusFilter),
                      CreatedKey, true);
  }

  /** `get_sent_reactions`: newest first. */
  method GetSentReactions(db: Store.Db, userId: string, statusFilter: Option<ReactionStatus>)
    returns (r: seq<Reaction>)
    ensures forall x :: x in r <==>
      x in db.reactions.Values && x.fromUserId == userId && StatusMatches(x, statusFilter)
    ensures |r| == |KeysWhere(db.reactions, (x: Reaction) => x.fromUserId == userId && StatusMatches(x, statusFilter))|
    ensures SortedBy(r, CreatedKey, true)
  {
    r := SelectSorted(db.reactions, (x: Reaction) => x.fromUserId == userId && StatusMatches(x, statusFilter),
                      CreatedKey, true);
  }

  /** `get_pop_reactions`: every reaction on the pop, whatever its status, newest first. */
  method GetPopReactions(db: Store.Db, popId: string) returns (r: seq<Reaction>)
    ensures forall x :: x in r <==> x in db.reactions.Values && x.popId == popId
    ensures |r| == |KeysWhere(db.reactions, (x: Reaction) => x.popId == popId)|
    ensures SortedBy(r, CreatedKey, true)
  {
    r := SelectSorted(db.reactions, (x: Reaction) => x.popId == popId, CreatedKey, true);
  }

  // ---------------------------------------------------------------------
  // Answering a reaction
  // ---------------------------------------------------------------------

  /** Who may move a reaction on: its addressee (accept, reject) or its sender (cancel). */
  datatype Role = Receiver | Sender

  function Party(x: Reaction, role: Role): string {
    match role
    case Receiver => x.toUserId
    case Sender => x.fromUserId
  }

  /** The guards of accept, reject and cancel: the reaction exists, the caller holds the role, it is still PENDING. */
  function AnswerCheck(reactions: map<string, Reaction>, id: string, userId: string, role: Role): (r: Outcome)
    ensures r.Pass? <==>
      id in reactions && Party(reactions[id], role) == userId && reactions[id].status == Pending
    ensures id !in reactions ==> r == Fail(NotFound)
    ensures id in reactions && Party(reactions[id], role) != userId ==> r == Fail(Forbidden)
    ensures id in reactions && Party(reactions[id], role) == userId && reactions[id].status != Pending ==>
      r == Fail(AlreadyProcessed)
  {
    if id !in reactions then Fail(NotFound)
    else if Party(reactions[id], role) != userId then Fail(Forbidden)
    else if reactions[id].status != Pending then Fail(AlreadyProcessed)
    else Pass
  }

  /** `accept_reaction`: PENDING to ACCEPTED by the addressee; the counter does not move. */
  method AcceptReaction(db: Store.Db, id: string, userId: string) returns (r: Outcome)
    modifies db`reactions
    ensures r == AnswerCheck(old(db.reactions), id, userId, Receiver)
    ensures r.Pass? ==> db.reactions == old(db.reactions)[id := old(db.reactions)[id].(status := Accepted)]
    ensures r.Fail? ==> db.reactions == old(db.reactions)
    ensures Keyed(old(db.reactions)) ==> Keyed(db.reactions)
    ensures LiveUnique(old(db.reactions)) ==> LiveUnique(db.reactions)
    ensures CountInv(db.pops, old(db.reactions)) ==> CountInv(db.pops, db.reactions)
  {
    r := AnswerCheck(db.reactions, id, userId, Receiver);
    if r.Fail? {
      return;
    }
    ghost var reactions0 := db.reactions;
    db.reactions := db.reactions[id := db.reactions[id].(status := Accepted)];
    forall q
      ensures LiveOn(db.reactions, q) == LiveOn(reactions0, q)
    {
      LiveOnKeep(reactions0, id, Accepted, q);
    }
    forall k | k in db.reactions
      ensures Live(db.reactions[k]) <==> Live(reactions0[k])
    {
    }
  }

  /**
   * The shared second half of reject and cancel: the reaction leaves the
   * live set, then the pop's counter goes down by one; when the pop is no
   * longer stored the status change stays and the caller gets NotFound.
   */
  method Close(db: Store.Db, id: string, userId: string, role: Role, status: ReactionStatus) returns (r: Outcome)
    requires status == Rejected || status == Cancelled
    modifies db`reactions, db`pops
    ensures AnswerCheck(old(db.reactions), id, userId, role).Fail? ==>
      r == AnswerCheck(old(db.reactions), id, userId, role) &&
      db.reactions == old(db.reactions) && db.pops == old(db.pops)
    ensures AnswerCheck(old(db.reactions), id, userId, role).Pass? ==>
      db.reactions == old(db.reactions)[id := old(db.reactions)[id].(status := status)] &&
      (old(db.reactions)[id].popId in old(db.pops) ==>
         r == Pass &&
         db.pops == old(db.pops)[old(db.reactions)[id].popId := Pops.Bumped(old(db.pops)[old(db.reactions)[id].popId], -1)]) &&
      (old(db.reactions)[id].popId !in old(db.pops) ==>
         r == Fail(NotFound) && db.pops == old(db.pops))
    ensures Keyed(old(db.reactions)) ==> Keyed(db.reactions)
    ensures LiveUnique(old(db.reactions)) ==> LiveUnique(db.reactions)
    ensures CountInv(old(db.pops), old(db.reactions)) ==> CountInv(db.pops, db.reactions)
  {
    r := AnswerCheck(db.reactions, id, userId, role);
    if r.Fail? {
      return;
    }
    ghost var pops0, reactions0 := db.pops, db.reactions;
    var popId := db.reactions[id].popId;
    db.reactions := db.reactions[id := db.reactions[id].(status := status)];
    r := Pops.DecrementReactionCount(db, popId);
    if CountInv(pops0, reactions0) {
      forall q | q in db.pops
        ensures db.pops[q].reactionCount == |LiveOn(db.reactions, q)|
      {
        LiveOnKill(reactions0, id, status, q);
      }
    }
  }

  /** `reject_reaction`: PENDING to REJECTED by the addressee; the counter goes down by one. */
  method RejectReaction(db: Store.Db, id: string, userId: string) returns (r: Outcome)
    modifies db`reactions, db`pops
    ensures AnswerCheck(old(db.reactions), id, userId, Receiver).Fail? ==>
      r == AnswerCheck(old(db.reactions), id, userId, Receiver) &&
      db.reactions == old(db.reactions) && db.pops == old(db.pops)
    ensures AnswerCheck(old(db.reactions), id, userId, Receiver).Pass? ==>
      db.reactions == old(db.reactions)[id := old(db.reactions)[id].(status := Rejected)] &&
      (old(db.reactions)[id].popId in old(db.pops) ==>
         r == Pass &&
         db.pops == old(db.pops)[old(db.reactions)[id].popId := Pops.Bumped(old(db.pops)[old(db.reactions)[id].popId], -1)]) &&
      (old(db.reactions)[id].popId !in old(db.pops) ==>
         r == Fail(NotFound) && db.pops == old(db.pops))
    ensures Keyed(old(db.reactions)) ==> Keyed(db.reactions)
    ensures LiveUnique(old(db.reactions)) ==> LiveUnique(db.reactions)
    ensures CountInv(old(db.pops), old(db.reactions)) ==> CountInv(db.pops, db.reactions)
  {
    r := Close(db, id, userId, Receiver, Rejected);
  }

  /** `cancel_reaction`: PENDING to CANCELLED by the sender; the counter goes down by one. */
  method CancelReaction(db: Store.Db, id: string, userId: string) returns (r: Outcome)
    modifies db`reactions, db`pops
    ensures AnswerCheck(old(db.reactions), id, userId, Sender).Fail? ==>
      r == AnswerCheck(old(db.reactions), id, userId, Sender) &&
      db.reactions == old(db.reactions) && db.pops == old(db.pops)
    ensures AnswerCheck(old(db.reactions), id, userId, Sender).Pass? ==>
      db.reactions == old(db.reactions)[id := old(db.reactions)[id].(status := Cancelled)] &&
      (old(db.reactions)[id].popId in old(db.pops) ==>
         r == Pass &&
         db.pops == old(db.pops)[old(db.reactions)[id].popId := Pops.Bumped(old(db.pops)[old(db.reactions)[id].popId], -1)]) &&
      (old(db.reactions)[id].popId !in old(db.pops) ==>
         r == Fail(NotFound) && db.pops == old(db.pops))
    ensures Keyed(old(db.reactions)) ==> Keyed(db.reactions)
    ensures LiveUnique(old(db.reactions)) ==> LiveUnique(db.reactions)
    ensures CountInv(old(db.pops), old(db.reactions)) ==> CountInv(db.pops, db.reactions)
  {
    r := Close(db, id, userId, Sender, Cancelled);
  }

  // ---------------------------------------------------------------------
  // get_unread_count
  // ---------------------------------------------------------------------

  /** A reaction the user has not answered yet. */
  predicate Unread(x: Reaction, userId: string) {
    x.toUserId == userId && x.status == Pending
  }

  /** `get_unread_count`: the size of the query's result. */
  method GetUnreadCount(db: Store.Db, userId: string) returns (n: nat)
    ensures n == |KeysWhere(db.reactions, (x: Reaction) => Unread(x, userId))|
    ensures n <= |db.reactions|
  {
    var docs := Select(db.reactions, (x: Reaction) => Unread(x, userId));
    n := |docs|;
    WithoutSize(db.reactions, (x: Reaction) => Unread(x, userId));
    assert |db.reactions| == |db.reactions.Keys|;
  }

  /** The unread reactions of a user. */
  function UnreadOf(m: map<string, Reaction>, userId: string): set<string> {
    set k | k in m && Unread(m[k], userId)
  }

  /**
   * Answering a reaction takes it off its addressee's unread count and
   * leaves everyone else's alone; a new reaction adds one to its
   * addressee's count.
   */
  lemma {:induction false} UnreadAfterAnswer(m: map<string, Reaction>, id: string, s: ReactionStatus, userId: string)
    requires id in m && m[id].status == Pending && s != Pending
    ensures |UnreadOf(m[id := m[id].(status := s)], userId)| ==
            |UnreadOf(m, userId)| - (if m[id].toUserId == userId then 1 else 0)
  {
    var m1 := m[id := m[id].(status := s)];
    if m[id].toUserId == userId {
      assert UnreadOf(m1, userId) == UnreadOf(m, userId) - {id};
      assert id in UnreadOf(m, userId);
    } else {
      assert UnreadOf(m1, userId) == UnreadOf(m, userId);
    }
  }

  lemma {:induction false} UnreadAfterCreate(m: map<string, Reaction>, x: Reaction, userId: string)
    requires x.reactionId !in m && x.status == Pending
    ensures |UnreadOf(m[x.reactionId := x], userId)| ==
            |UnreadOf(m, userId)| + (if x.toUserId == userId then 1 else 0)
  {
    var m1 := m[x.reactionId := x];
    if x.toUserId == userId {
      assert UnreadOf(m1, userId) == UnreadOf(m, userId) + {x.reactionId};
      assert x.reactionId !in UnreadOf(m, userId);
    } else {
      assert UnreadOf(m1, userId) == UnreadOf(m, userId);
    }
  }
}
