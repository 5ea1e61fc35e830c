/**
 * The two scheduled pop functions: every five minutes, pops whose expiry
 * has passed are flagged as deleted (`is_active = False`, `deleted_at`,
 * `auto_deleted`); every hour, pops flagged a day ago or more are removed
 * for good.  Both stage their writes in batches committed every 500
 * documents, plus a last commit for the remainder.
 */
module PopSweeps {
  import opened Common
  import opened PopSchema
  import Store

  // ---------------------------------------------------------------------
  // Filters and the documents they produce
  // ---------------------------------------------------------------------

  /** The query of `delete_expired_pops`: `is_active == True` and expired at `now`. */
  predicate Flagged(p: Pop, now: Time) {
    p.activeFlag == Some(true) && p.expiresAt <= now
  }

  /**
   * The intended selection: a pop counts as active when its `is_active`
   * flag says so or, lacking the flag, when its status is ACTIVE.
   */
  predicate ExpiredLive(p: Pop, now: Time) {
    (p.activeFlag == Some(true) || (p.activeFlag.None? && p.status == Active)) && p.expiresAt <= now
  }

  /** The query of `cleanup_old_deleted_pops`: flagged inactive at or before `cutoff`. */
  predicate DeletedBy(p: Pop, cutoff: Time) {
    p.activeFlag == Some(false) && p.deletedAt.Some? && p.deletedAt.value <= cutoff
  }

  /** The three fields the expiry function writes. */
  function Mark(p: Pop, now: Time): (q: Pop)
    ensures q.activeFlag == Some(false) && q.deletedAt == Some(now) && q.autoDeleted == Some(true)
    ensures q.(activeFlag := p.activeFlag, deletedAt := p.deletedAt, autoDeleted := p.autoDeleted) == p
  {
    p.(activeFlag := Some(false), deletedAt := Some(now), autoDeleted := Some(true))
  }

  /** The pops after every selected one has been marked. */
  function MarkWhere(m: map<string, Pop>, sel: Pop -> bool, now: Time): map<string, Pop> {
    map k | k in m :: if sel(m[k]) then Mark(m[k], now) else m[k]
  }

  /** The pops after one committed batch of updates. */
  function MarkKeys(m: map<string, Pop>, ks: set<string>, now: Time): map<string, Pop> {
    map k | k in m :: if k in ks then Mark(m[k], now) else m[k]
  }

  /** Committed batch sizes: none empty, none over the limit, all full but the last. */
  predicate FullBatches(commits: seq<nat>) {
    forall i :: 0 <= i < |commits| ==>
      0 < commits[i] <= BATCH_SIZE && (i < |commits| - 1 ==> commits[i] == BATCH_SIZE)
  }

  // ---------------------------------------------------------------------
  // Batch bookkeeping shared by both loops
  // ---------------------------------------------------------------------

  /**
   * The loop over the query's documents: `todo` are still to come; each
   * of the others is either committed or staged in the open batch, and
   * counted once.
   */
  ghost predicate Progress(matching: set<string>, todo: set<string>, staged: set<string>, committed: set<string>,
                           count: nat)
  {
    todo <= matching && committed !! staged && committed + staged == matching - todo &&
    count + |todo| == |matching|
  }

  /** The open batch is below the limit, and the count is the committed sizes plus the open batch. */
  ghost predicate Batches(count: nat, commits: seq<nat>, staged: set<string>, batchCount: nat) {
    batchCount == |staged| < BATCH_SIZE && count == Sum(commits) + batchCount &&
    forall i :: 0 <= i < |commits| ==> commits[i] == BATCH_SIZE
  }

  /** Staging one more document. */
  lemma {:induction false} StageStep(matching: set<string>, todo: set<string>, staged: set<string>,
                                     committed: set<string>, count: nat, k: string)
    requires Progress(matching, todo, staged, committed, count) && k in todo
    ensures Progress(matching, todo - {k}, staged + {k}, committed, count + 1)
    ensures |staged + {k}| == |staged| + 1
  {
    assert matching - (todo - {k}) == (matching - todo) + {k};
  }

  /** Committing the open batch. */
  lemma {:induction false} CommitStep(matching: set<string>, todo: set<string>, staged: set<string>,
                                      committed: set<string>, count: nat, commits: seq<nat>)
    requires Progress(matching, todo, staged, committed, count)
    requires count == Sum(commits) + |staged|
    ensures Progress(matching, todo, {}, committed + staged, count)
    ensures count == Sum(commits + [|staged|])
  {
    SumSnoc(commits, |staged|);
  }

  /** After the last commit every matched document is committed, in full batches but the last. */
  lemma {:induction false} BatchesDone(count: nat, commits: seq<nat>, staged: set<string>, batchCount: nat)
    requires Batches(count, commits, staged, batchCount) && 0 < batchCount
    ensures count == Sum(commits + [batchCount]) && FullBatches(commits + [batchCount])
  {
    SumSnoc(commits, batchCount);
  }

  // ---------------------------------------------------------------------
  // The update loop
  // ---------------------------------------------------------------------

  /** The store holds exactly the committed updates. */
  ghost predicate MarksCommitted(m0: map<string, Pop>, m: map<string, Pop>, committed: set<string>, now: Time) {
    m == MarkKeys(m0, committed, now)
  }

  /** Committing a batch disjoint from the earlier ones adds its updates to the store. */
  lemma {:induction false} MarkKeysCommit(m0: map<string, Pop>, m: map<string, Pop>, committed: set<string>,
                                          staged: set<string>, now: Time)
    requires MarksCommitted(m0, m, committed, now) && committed !! staged
    ensures MarksCommitted(m0, MarkKeys(m, staged, now), committed + staged, now)
  {
  }

  /** `batch.commit()` of a batch of staged updates. */
  method CommitMarks(db: Store.Db, staged: set<string>, now: Time, ghost m0: map<string, Pop>, ghost committed: set<string>)
    requires MarksCommitted(m0, db.pops, committed, now) && committed !! staged
    modifies db`pops
    ensures MarksCommitted(m0, db.pops, committed + staged, now)
  {
    MarkKeysCommit(m0, db.pops, committed, staged, now);
    db.pops := MarkKeys(db.pops, staged, now);
  }

  /**
   * One pass of the loop of `delete_expired_pops`: stage the update of
   * document `k`, and commit the batch once it holds 500 updates.
   */
  method StageMark(db: Store.Db, k: string, now: Time, ghost m0: map<string, Pop>, ghost matching: set<string>,
                   todo: set<string>, staged: set<string>, ghost committed: set<string>, count: nat,
                   ghost commits: seq<nat>, batchCount: nat)
    returns (todo': set<string>, staged': set<string>, ghost committed': set<string>, count': nat,
             ghost commits': seq<nat>, batchCount': nat)
    requires Progress(matching, todo, staged, committed, count) && k in todo
    requires Batches(count, commits, staged, batchCount)
    requires MarksCommitted(m0, db.pops, committed, now)
    modifies db`pops
    ensures todo' == todo - {k}
    ensures Progress(matching, todo', staged', committed', count')
    ensures Batches(count', commits', staged', batchCount')
    ensures MarksCommitted(m0, db.pops, committed', now)
  {
    StageStep(matching, todo, staged, committed, count, k);
    todo', staged', committed', count', commits', batchCount' :=
      todo - {k}, staged + {k}, committed, count + 1, commits, batchCount + 1;
    if batchCount' >= BATCH_SIZE {
      CommitMarks(db, staged', now, m0, committed');
      CommitStep(matching, todo', staged', committed', count', commits');
      committed', commits' := committed' + staged', commits' + [batchCount'];
      staged', batchCount' := {}, 0;
    }
  }

  /** The last `batch.commit()` of `delete_expired_pops`, for the remainder, if any. */
  method FinishMarks(db: Store.Db, now: Time, ghost m0: map<string, Pop>, ghost matching: set<string>,
                     staged: set<string>, ghost committed: set<string>, count: nat, ghost commits: seq<nat>,
                     batchCount: nat)
    returns (ghost commits': seq<nat>)
    requires Progress(matching, {}, staged, committed, count)
    requires Batches(count, commits, staged, batchCount)
    requires MarksCommitted(m0, db.pops, committed, now)
    modifies db`pops
    ensures MarksCommitted(m0, db.pops, matching, now)
    ensures count == |matching| && count == Sum(commits') && FullBatches(commits')
  {
    commits' := commits;
    if batchCount > 0 {
      CommitMarks(db, staged, now, m0, committed);
      CommitStep(matching, {}, staged, committed, count, commits);
      BatchesDone(count, commits, staged, batchCount);
      commits' := commits + [batchCount];
    } else {
      assert staged == {};
    }
  }

  /** Once every selected key has been committed, the pops are the marked pops. */
  lemma {:induction false} MarkKeysDone(m0: map<string, Pop>, m: map<string, Pop>, sel: Pop -> bool, now: Time)
    requires MarksCommitted(m0, m, KeysWhere(m0, sel), now)
    ensures m == MarkWhere(m0, sel, now)
  {
  }

  /**
   * The loop of `delete_expired_pops` over the documents `sel` picks: each
   * update is staged, a full batch of 500 is committed and a new one
   * started, and what is left is committed at the end.  Every selected pop
   * is marked, in exactly one commit, and counted.
   */
  method MarkInBatches(db: Store.Db, sel: Pop -> bool, now: Time) returns (count: nat, ghost commits: seq<nat>)
    modifies db`pops
    ensures db.pops == MarkWhere(old(db.pops), sel, now)
    ensures count == |KeysWhere(old(db.pops), sel)|
    ensures count == Sum(commits) && FullBatches(commits)
  {
    ghost var m0 := db.pops;
    var matching := KeysWhere(db.pops, sel);
    var todo := matching;
    var staged: set<string> := {};
    ghost var committed: set<string> := {};
    var batchCount: nat := 0;
    count := 0;
    commits := [];
    assert MarksCommitted(m0, db.pops, committed, now);
    while todo != {}
      invariant Progress(matching, todo, staged, committed, count)
      invariant Batches(count, commits, staged, batchCount)
      invariant MarksCommitted(m0, db.pops, committed, now)
      decreases todo
    {
      var k :| k in todo;
      todo, staged, committed, count, commits, batchCount :=
        StageMark(db, k, now, m0, matching, todo, staged, committed, count, commits, batchCount);
    }
    commits := FinishMarks(db, now, m0, matching, staged, committed, count, commits, batchCount);
    MarkKeysDone(m0, db.pops, sel, now);
  }

  /** `delete_expired_pops`, with the query as written. */
  method DeleteExpiredPops(db: Store.Db, now: Time) returns (count: nat, ghost commits: seq<nat>)
    modifies db`pops
    ensures db.pops == MarkWhere(old(db.pops), p => Flagged(p, now), now)
    ensures count == |KeysWhere(old(db.pops), p => Flagged(p, now))|
    ensures count == Sum(commits) && FullBatches(commits)
  {
    count, commits := MarkInBatches(db, p => Flagged(p, now), now);
  }

  /** `delete_expired_pops` with the intended query: pops that carry no flag follow their status. */
  method DeleteExpiredPopsCorrected(db: Store.Db, now: Time) returns (count: nat, ghost commits: seq<nat>)
    modifies db`pops
    ensures db.pops == MarkWhere(old(db.pops), p => ExpiredLive(p, now), now)
    ensures count == |KeysWhere(old(db.pops), p => ExpiredLive(p, now))|
    ensures count == Sum(commits) && FullBatches(commits)
  {
    count, commits := MarkInBatches(db, p => ExpiredLive(p, now), now);
  }

  /**
   * As written, a pop stored by `create_pop` is never picked up: it has no
   * `is_active` field, so the equality filter never matches it, however
   * long ago it expired.
   */
  lemma {:induction false} CreatedPopNeverSwept(m: map<string, Pop>, id: string, userId: string, c: PopCreate,
                                                created: Time, now: Time)
    requires id in m && m[id] == NewPop(id, userId, c, created)
    requires ValidateDuration(c.durationMinutes) && m[id].expiresAt <= now
    ensures MarkWhere(m, p => Flagged(p, now), now)[id] == m[id]
    ensures MarkWhere(m, p => Flagged(p, now), now)[id].activeFlag.None?
  {
    assert !Flagged(m[id], now);
  }

  /** With the intended query the same pop is marked once it has expired. */
  lemma {:induction false} CorrectedSweepsCreatedPops(m: map<string, Pop>, id: string, userId: string, c: PopCreate,
                                                      created: Time, now: Time)
    requires id in m && m[id] == NewPop(id, userId, c, created)
    requires m[id].expiresAt <= now
    ensures MarkWhere(m, p => ExpiredLive(p, now), now)[id] == Mark(m[id], now)
    ensures MarkWhere(m, p => ExpiredLive(p, now), now)[id].activeFlag == Some(false)
  {
    assert ExpiredLive(m[id], now);
  }

  /**
   * A marked pop is not selected again, so later runs leave its
   * `deleted_at` alone: a second run at any later time changes nothing
   * that the first one marked.
   */
  lemma {:induction false} CorrectedSweepStable(m: map<string, Pop>, t: Time, t2: Time)
    requires t <= t2
    ensures forall k :: k in m && ExpiredLive(m[k], t) ==>
      MarkWhere(MarkWhere(m, p => ExpiredLive(p, t), t), p => ExpiredLive(p, t2), t2)[k] ==
      MarkWhere(m, p => ExpiredLive(p, t), t)[k]
  {
    var m1 := MarkWhere(m, p => ExpiredLive(p, t), t);
    forall k | k in m && ExpiredLive(m[k], t)
      ensures !ExpiredLive(m1[k], t2)
    {
      assert m1[k].activeFlag == Some(false);
    }
  }

  // ---------------------------------------------------------------------
  // The delete loop
  // ---------------------------------------------------------------------

  /** The store lacks exactly the committed deletions. */
  ghost predicate DeletesCommitted(m0: map<string, Pop>, m: map<string, Pop>, committed: set<string>) {
    m == m0 - committed
  }

  /** `batch.commit()` of a batch of staged deletions. */
  method CommitDeletes(db: Store.Db, staged: set<string>, ghost m0: map<string, Pop>, ghost committed: set<string>)
    requires DeletesCommitted(m0, db.pops, committed)
    modifies db`pops
    ensures DeletesCommitted(m0, db.pops, committed + staged)
  {
    assert m0 - committed - staged == m0 - (committed + staged);
    db.pops := db.pops - staged;
  }

  /**
   * One pass of the loop of `cleanup_old_deleted_pops`: stage the deletion
   * of document `k`, and commit the batch once it holds 500 deletions.
   */
  method StageDelete(db: Store.Db, k: string, ghost m0: map<string, Pop>, ghost matching: set<string>,
                     todo: set<string>, staged: set<string>, ghost committed: set<string>, count: nat,
                     ghost commits: seq<nat>, batchCount: nat)
    returns (todo': set<string>, staged': set<string>, ghost committed': set<string>, count': nat,
             ghost commits': seq<nat>, batchCount': nat)
    requires Progress(matching, todo, staged, committed, count) && k in todo
    requires Batches(count, commits, staged, batchCount)
    requires DeletesCommitted(m0, db.pops, committed)
    modifies db`pops
    ensures todo' == todo - {k}
    ensures Progress(matching, todo', staged', committed', count')
    ensures Batches(count', commits', staged', batchCount')
    ensures DeletesCommitted(m0, db.pops, committed')
  {
    StageStep(matching, todo, staged, committed, count, k);
    todo', staged', committed', count', commits', batchCount' :=
      todo - {k}, staged + {k}, committed, count + 1, commits, batchCount + 1;
    if batchCount' >= BATCH_SIZE {
      CommitDeletes(db, staged', m0, committed');
      CommitStep(matching, todo', staged', committed', count', commits');
      committed', commits' := committed' + staged', commits' + [batchCount'];
      staged', batchCount' := {}, 0;
    }
  }

  /** The last `batch.commit()` of `cleanup_old_deleted_pops`, for the remainder, if any. */
  method FinishDeletes(db: Store.Db, ghost m0: map<string, Pop>, ghost matching: set<string>,
                       staged: set<string>, ghost committed: set<string>, count: nat, ghost commits: seq<nat>,
                       batchCount: nat)
    returns (ghost commits': seq<nat>)
    requires Progress(matching, {}, staged, committed, count)
    requires Batches(count, commits, staged, batchCount)
    requires DeletesCommitted(m0, db.pops, committed)
    modifies db`pops
    ensures DeletesCommitted(m0, db.pops, matching)
    ensures count == |matching| && count == Sum(commits') && FullBatches(commits')
  {
    commits' := commits;
    if batchCount > 0 {
      CommitDeletes(db, staged, m0, committed);
      CommitStep(matching, {}, staged, committed, count, commits);
      BatchesDone(count, commits, staged, batchCount);
      commits' := commits + [batchCount];
    } else {
      assert staged == {};
    }
  }

  /** Once every selected key has been deleted, the pops are the pops without the selected ones. */
  lemma {:induction false} DeletesDone(m0: map<string, Pop>, m: map<string, Pop>, sel: Pop -> bool)
    requires DeletesCommitted(m0, m, KeysWhere(m0, sel))
    ensures m == Without(m0, sel)
  {
  }

  /**
   * `cleanup_old_deleted_pops`: every pop flagged inactive at least a day
   * before `now` is deleted, in batches of 500 plus a remainder, and
   * counted once.
   */
  method CleanupOldDeletedPops(db: Store.Db, now: Time) returns (count: nat, ghost commits: seq<nat>)
    modifies db`pops
    ensures db.pops == Without(old(db.pops), p => DeletedBy(p, now - RETENTION))
    ensures count == |KeysWhere(old(db.pops), p => DeletedBy(p, now - RETENTION))|
    ensures count == Sum(commits) && FullBatches(commits)
  {
    ghost var m0 := db.pops;
    var cutoff := now - RETENTION;
    var matching := KeysWhere(db.pops, p => DeletedBy(p, cutoff));
    var todo := matching;
    var staged: set<string> := {};
    ghost var committed: set<string> := {};
    var batchCount: nat := 0;
    count := 0;
    commits := [];
    assert DeletesCommitted(m0, db.pops, committed);
    while todo != {}
      invariant Progress(matching, todo, staged, committed, count)
      invariant Batches(count, commits, staged, batchCount)
      invariant DeletesCommitted(m0, db.pops, committed)
      decreases todo
    {
      var k :| k in todo;
      todo, staged, committed, count, commits, batchCount :=
        StageDelete(db, k, m0, matching, todo, staged, committed, count, commits, batchCount);
    }
    commits := FinishDeletes(db, m0, matching, staged, committed, count, commits, batchCount);
    DeletesDone(m0, db.pops, p => DeletedBy(p, cutoff));
  }

  /**
   * The two functions together: a pop the corrected expiry run marks at
   * `t` is removed by any hourly run a day or more later.
   */
  lemma {:induction false} MarkedThenPurged(m: map<string, Pop>, k: string, t: Time, later: Time)
    requires k in m && ExpiredLive(m[k], t) && later - RETENTION >= t
    ensures k in MarkWhere(m, p => ExpiredLive(p, t), t)
    ensures k !in Without(MarkWhere(m, p => ExpiredLive(p, t), t), p => DeletedBy(p, later - RETENTION))
  {
    var m1 := MarkWhere(m, p => ExpiredLive(p, t), t);
    assert m1[k] == Mark(m[k], t);
    assert DeletedBy(m1[k], later - RETENTION);
  }
}
