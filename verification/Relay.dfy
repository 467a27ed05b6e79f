/**
 * The relay as it is written: statements on tables updated in place, and the
 * loop of RunOnce. Every effect also takes one action of the system model, so
 * whatever the relay does is a run of that model. How each request ends is a
 * parameter, so the contracts say exactly what comes of it.
 */
module RelayService {
  import opened Wrappers
  import opened OutboxModel
  import opened OutboxInvariant
  import opened SharedWorld

  /** A configuration is valid exactly when every number is at least one. */
  lemma ConfigDemands(c: Config)
    ensures ValidConfig(c) <==> c.batchSize >= 1 && c.threshold >= 1 && c.visibilityNanos >= 1
  {
  }

  // ------------------------------------------------------------- one action

  /** Every live row may be claimed: its lease has run out. */
  ghost predicate LeasesOver(c: Config, s: State) {
    forall id | id in s.rows && Live(c, s.rows[id]) :: Eligible(c, s.rows[id], s.clock)
  }

  /** A drain allows the action: it begins a round only when leases are over, and gives up no claim. */
  predicate KeepsClaims(op: WorkerOp) {
    !op.Crash? && !op.ClaimRollback? && !op.ClaimLost? && !op.MarkFailed? && !op.RecordFailed?
  }

  /** What one action of worker w does to the trace. */
  lemma MoveOne(c: Config, t: Trace, w: nat, op: WorkerOp)
    requires WorkerEnabled(c, t.s, w, op)
    ensures var t' := Extend(c, t, OfWorker(w, op));
            Moved(t, t', w, t'.s.workers[w], if op.ClaimLock? then 1 else 0,
                  KeepsClaims(op) && (op.ClaimLock? ==> LeasesOver(c, t.s)), if Refused(OfWorker(w, op)) then 1 else 0)
  {
  }

  lemma MoveTick(c: Config, t: Trace, w: nat, d: Time)
    requires w < |t.s.workers|
    ensures Moved(t, Extend(c, t, Tick(d)), w, t.s.workers[w], 0, true, 0)
  {
  }

  /** A worker that changes without locking anything leaves all locks as they are. */
  lemma SameLocks(workers: seq<Worker>, w: nat, x: Worker)
    requires w < |workers| && !workers[w].Claiming? && !x.Claiming?
    ensures LockedIds(workers[w := x]) == LockedIds(workers)
  {
    LocksSplit(workers, w, x);
    LocksSplit(workers, w, workers[w]);
    assert workers[w := workers[w]] == workers;
  }

  // ---------------------------------------------------------------- the store

  lemma {:induction false} OldestExists(rows: Table, ids: set<EventId>)
    requires ids != {} && ids <= rows.Keys
    ensures exists i :: i in ids && forall j | j in ids :: rows[i].createdAt <= rows[j].createdAt
    decreases |ids|
  {
    var x :| x in ids;
    if ids == {x} {
      assert forall j | j in ids :: rows[x].createdAt <= rows[j].createdAt;
    } else {
      OldestExists(rows, ids - {x});
      var i :| i in ids - {x} && forall j | j in ids - {x} :: rows[i].createdAt <= rows[j].createdAt;
      var best := if rows[x].createdAt <= rows[i].createdAt then x else i;
      assert best in ids && forall j | j in ids :: rows[best].createdAt <= rows[j].createdAt;
    }
  }

  /** The rows a claim may take: eligible, and not skipped as locked. */
  function Claimable(c: Config, rows: Table, locked: set<EventId>, now: Time): set<EventId> {
    set id | id in rows && Eligible(c, rows[id], now) && id !in locked
  }

  lemma ClaimableIsAvailable(c: Config, s: State)
    ensures Claimable(c, s.rows, LockedIds(s.workers), s.clock) == Available(c, s)
  {
    forall id {
      LockedMeans(s, id);
    }
  }

  /** An oldest-first choice among the claimable rows can be locked, and then is. */
  lemma LockEnabled(c: Config, s: State, w: nat, ids: set<EventId>)
    requires w < |s.workers| && s.workers[w].Idle?
    requires OldestFirst(c, s.rows, Claimable(c, s.rows, LockedIds(s.workers), s.clock), ids)
    ensures WorkerEnabled(c, s, w, ClaimLock(ids))
    ensures LockedIds(WorkerStep(c, s, w, ClaimLock(ids)).workers) == LockedIds(s.workers) + ids
  {
    ClaimableIsAvailable(c, s);
    LocksSplit(s.workers, w, Claiming(s.clock, ids));
    assert s.workers[w := Idle] == s.workers;
  }

  /** A finished claim gives its locks back, and they were nobody else's. */
  lemma UnlockOne(s: State, w: nat, x: Worker)
    requires LocksDisjoint(s) && w < |s.workers| && s.workers[w].Claiming? && !x.Claiming?
    ensures LockedIds(s.workers[w := x]) == LockedIds(s.workers) - s.workers[w].ids
  {
    LocksSplit(s.workers, w, x);
    LocksSplit(s.workers, w, s.workers[w]);
    assert s.workers[w := s.workers[w]] == s.workers;
    var rest := s.workers[w := Idle];
    forall id | id in LockedIds(rest)
      ensures id !in s.workers[w].ids
    {
      LockedIdsMeans(rest, id);
      var v :| 0 <= v < |rest| && id in LockSet(rest[v]);
      assert v != w && s.workers[v].Claiming?;
      assert v < w ==> s.workers[v].ids !! s.workers[w].ids;
      assert w < v ==> s.workers[w].ids !! s.workers[v].ids;
    }
  }

  predicate EndsClaim(op: WorkerOp, ids: set<EventId>) {
    op.ClaimRollback? || ((op.ClaimLost? || op.ClaimCommit?) && Listing(op.order, ids))
  }

  /** How a claim can end, and what that writes and unlocks. */
  lemma ClaimEnds(c: Config, s: State, w: nat, op: WorkerOp)
    requires WorkersOk(c, s) && LocksDisjoint(s) && w < |s.workers| && s.workers[w].Claiming?
    requires EndsClaim(op, s.workers[w].ids)
    ensures WorkerEnabled(c, s, w, op)
    ensures var s', ids := WorkerStep(c, s, w, op), s.workers[w].ids;
            && s'.rows == (if op.ClaimRollback? then s.rows else Stamp(s.rows, ids, s.workers[w].now))
            && LockedIds(s'.workers) == LockedIds(s.workers) - ids
            && s' == s.(rows := s'.rows, claims := s'.claims, workers := s'.workers)
  {
    assert WorkerOk(c, s, s.workers[w]);
    UnlockOne(s, w, WorkerStep(c, s, w, op).workers[w]);
  }

  /** A claim, locked and ended, as one move. */
  lemma ClaimMoves(c: Config, t: Trace, w: nat, ids: set<EventId>, op: WorkerOp)
    requires WorkerEnabled(c, t.s, w, ClaimLock(ids))
    requires WorkerEnabled(c, Extend(c, t, OfWorker(w, ClaimLock(ids))).s, w, op) && EndsClaim(op, ids)
    ensures var t' := Extend(c, Extend(c, t, OfWorker(w, ClaimLock(ids))), OfWorker(w, op));
            Moved(t, t', w, t'.s.workers[w], 1, op.ClaimCommit? && LeasesOver(c, t.s), 0)
  {
    var mid := Extend(c, t, OfWorker(w, ClaimLock(ids)));
    MoveOne(c, t, w, ClaimLock(ids));
    MoveOne(c, mid, w, op);
    var t' := Extend(c, mid, OfWorker(w, op));
    MovedTwice(t, mid, t', w, mid.s.workers[w], 1, LeasesOver(c, t.s), 0, t'.s.workers[w], 0, op.ClaimCommit?, 0);
  }

  /** What a successful claim is, on the table alone. */
  ghost predicate ClaimSpec(c: Config, rows: Table, locked: set<EventId>, now: Time, rows': Table, claimed: seq<Claimed>) {
    var ids := Held(Working(now, claimed, ToPublish));
    && OldestFirst(c, rows, Claimable(c, rows, locked, now), ids)
    && Distinct(claimed)
    && rows' == Stamp(rows, ids, now)
    && forall k | 0 <= k < |claimed| ::
         && claimed[k].eventId in rows && claimed[k].eventId !in locked
         && claimed[k].eventType == rows[claimed[k].eventId].eventType
         && claimed[k].payload == rows[claimed[k].eventId].payload
         && claimed[k].failureCount == rows[claimed[k].eventId].failureCount
  }

  lemma ClaimMeetsSpec(c: Config, rows: Table, locked: set<EventId>, now: Time, ids: set<EventId>, order: seq<EventId>)
    requires OldestFirst(c, rows, Claimable(c, rows, locked, now), ids) && Listing(order, ids)
    ensures ClaimSpec(c, rows, locked, now, Stamp(rows, ids, now), ReadClaimed(Stamp(rows, ids, now), order))
  {
    FreshBatchOk(rows, ids, now, order);
    forall k | 0 <= k < |order|
      ensures order[k] in rows && order[k] !in locked
    {
      assert order[k] in ids;
    }
  }

  /** What a claim whose reply is lost has done: it stamped an oldest-first batch that nobody will process. */
  ghost predicate LostClaim(c: Config, rows: Table, locked: set<EventId>, now: Time, rows': Table) {
    exists ids :: OldestFirst(c, rows, Claimable(c, rows, locked, now), ids) && rows' == Stamp(rows, ids, now)
  }

  /** The worker is about to do this phase for this row. */
  predicate Due(x: Worker, id: EventId, phase: Phase) {
    x.Working? && x.batch != [] && x.batch[0].eventId == id && x.phase == phase
  }

  /** The WHERE clause and SKIP LOCKED, for one row. */
  predicate Takable(rows: Table, id: EventId, failureThreshold: nat, visibilityNanos: nat, now: Time, locked: set<EventId>) {
    && id in rows && rows[id].publishedAt.None? && rows[id].failureCount < failureThreshold
    && (rows[id].lastAttemptedAt.None? || rows[id].lastAttemptedAt.value + visibilityNanos / 1_000_000 * 1000 < now)
    && id !in locked
  }

  lemma HeldIsListed(now: Time, claimed: seq<Claimed>, id: EventId)
    ensures id in Held(Working(now, claimed, ToPublish)) <==> exists k :: 0 <= k < |claimed| && claimed[k].eventId == id
  {
  }

  lemma {:induction false} HeldSize(now: Time, claimed: seq<Claimed>)
    requires Distinct(claimed)
    ensures |Held(Working(now, claimed, ToPublish))| == |claimed|
    decreases |claimed|
  {
    if claimed != [] {
      var rest := claimed[1..];
      HeldSize(now, rest);
      assert forall k | 1 <= k < |claimed| :: claimed[k] == rest[k - 1];
      assert Held(Working(now, claimed, ToPublish)) == {claimed[0].eventId} + Held(Working(now, rest, ToPublish));
      assert claimed[0].eventId !in Held(Working(now, rest, ToPublish));
    }
  }

  /** A claim row by row, against the filter itself. */
  lemma ClaimSpelled(c: Config, rows: Table, locked: set<EventId>, now: Time, rows': Table, claimed: seq<Claimed>)
    requires ClaimSpec(c, rows, locked, now, rows', claimed)
    ensures |claimed| <= c.batchSize
    ensures forall k | 0 <= k < |claimed| ::
              && Takable(rows, claimed[k].eventId, c.threshold, c.visibilityNanos, now, locked)
              && claimed[k].eventId in rows'
              && rows'[claimed[k].eventId] == rows[claimed[k].eventId].(lastAttemptedAt := Some(now))
    ensures forall id | id in rows && (forall k | 0 <= k < |claimed| :: claimed[k].eventId != id) ::
              && id in rows' && rows'[id] == rows[id]
              && (Takable(rows, id, c.threshold, c.visibilityNanos, now, locked) ==>
                    |claimed| == c.batchSize
                    && forall k | 0 <= k < |claimed| :: rows[claimed[k].eventId].createdAt <= rows[id].createdAt)
  {
    var ids := Held(Working(now, claimed, ToPublish));
    HeldSize(now, claimed);
    forall k | 0 <= k < |claimed|
      ensures claimed[k].eventId in ids
    {
    }
    forall id | id in rows && (forall k | 0 <= k < |claimed| :: claimed[k].eventId != id)
      ensures id !in ids
    {
      HeldIsListed(now, claimed, id);
    }
  }

  function MarkOp(fault: Fault): WorkerOp {
    match fault
    case NoFault => MarkOk
    case NotApplied => MarkFailed
    case ReplyLost => MarkLost
  }

  function RecordOp(fault: Fault): WorkerOp {
    match fault
    case NoFault => OutboxModel.RecordOk
    case NotApplied => RecordFailed
    case ReplyLost => RecordLost
  }

  /** `ids` have been taken from the candidates, oldest first, and `left` are the others. */
  ghost predicate Taking(rows: Table, candidates: set<EventId>, limit: nat, ids: set<EventId>, left: set<EventId>) {
    && candidates <= rows.Keys && ids + left == candidates && ids !! left && |ids| <= limit
    && forall i, j | i in ids && j in left :: rows[i].createdAt <= rows[j].createdAt
  }

  lemma TakeNext(rows: Table, candidates: set<EventId>, limit: nat, ids: set<EventId>, left: set<EventId>, id: EventId)
    requires Taking(rows, candidates, limit, ids, left) && |ids| < limit
    requires id in left && forall j | j in left :: rows[id].createdAt <= rows[j].createdAt
    ensures Taking(rows, candidates, limit, ids + {id}, left - {id})
  {
  }

  lemma TakenEnough(c: Config, rows: Table, candidates: set<EventId>, ids: set<EventId>, left: set<EventId>)
    requires Taking(rows, candidates, c.batchSize, ids, left) && (|ids| == c.batchSize || left == {})
    ensures OldestFirst(c, rows, candidates, ids)
  {
    assert candidates - ids == left;
  }

  class OutboxRepository {
    const world: World

    constructor (world: World)
      ensures this.world == world
    {
      this.world := world;
    }

    /** ORDER BY created_at LIMIT: repeatedly take an oldest candidate. */
    static method SelectOldest(rows: Table, candidates: set<EventId>, limit: nat, ghost c: Config) returns (ids: set<EventId>)
      requires candidates <= rows.Keys && limit == c.batchSize
      ensures OldestFirst(c, rows, candidates, ids)
    {
      ids := {};
      var left := candidates;
      while |ids| < limit && left != {}
        invariant Taking(rows, candidates, limit, ids, left)
        decreases left
      {
        OldestExists(rows, left);
        var id :| id in left && forall j | j in left :: rows[id].createdAt <= rows[j].createdAt;
        TakeNext(rows, candidates, limit, ids, left, id);
        ids := ids + {id};
        left := left - {id};
      }
      TakenEnough(c, rows, candidates, ids, left);
    }

    /** RETURNING: the claimed rows in whatever order the statement produces. */
    method List(ids: set<EventId>) returns (order: seq<EventId>)
      ensures Listing(order, ids)
    {
      order := [];
      var left := ids;
      while left != {}
        invariant left <= ids && Listing(order, ids - left)
        decreases left
      {
        var id :| id in left;
        order := order + [id];
        left := left - {id};
      }
    }

    /** SET last_attempted_at on the claimed rows, in place. */
    method StampAll(order: seq<EventId>, ids: set<EventId>)
      requires Listing(order, ids) && ids <= world.rows.Keys
      modifies world`rows
      ensures world.rows == Stamp(old(world.rows), ids, world.clock)
    {
      var i := 0;
      while i < |order|
        invariant 0 <= i <= |order|
        invariant world.rows == Stamp(old(world.rows), (set k | 0 <= k < i :: order[k]), world.clock)
      {
        assert order[i] in ids;
        world.rows := world.rows[order[i] := world.rows[order[i]].(lastAttemptedAt := Some(world.clock))];
        i := i + 1;
      }
      assert (set k | 0 <= k < |order| :: order[k]) == ids;
    }

    /** The scan loop. */
    method Scan(order: seq<EventId>) returns (claimed: seq<Claimed>)
      requires forall id | id in order :: id in world.rows
      ensures claimed == ReadClaimed(world.rows, order)
    {
      claimed := [];
      var i := 0;
      while i < |order|
        invariant 0 <= i <= |order|
        invariant |claimed| == i && claimed == ReadClaimed(world.rows, order)[..i]
      {
        var row := world.rows[order[i]];
        claimed := claimed + [Claimed(order[i], row.eventType, row.payload, row.failureCount)];
        i := i + 1;
      }
    }

    /** The filter of the CTE; the lease is cut to whole milliseconds. */
    static method Candidates(rows: Table, locked: set<EventId>, now: Time, visibilityNanos: nat, failureThreshold: nat,
                             ghost c: Config)
      returns (ids: set<EventId>)
      requires visibilityNanos == c.visibilityNanos && failureThreshold == c.threshold
      ensures ids == Claimable(c, rows, locked, now)
    {
      var lease := (visibilityNanos / 1_000_000) * 1000;
      ids := set id | id in rows && rows[id].publishedAt.None? && rows[id].failureCount < failureThreshold
                      && (rows[id].lastAttemptedAt.None? || rows[id].lastAttemptedAt.value + lease < now)
                      && id !in locked;
    }

    /** The CTE: choose among the rows that nobody has locked, and lock them. */
    method LockOldest(limit: nat, visibilityNanos: nat, failureThreshold: nat, ghost w: nat) returns (ids: set<EventId>)
      requires world.Valid() && w < |world.trace.s.workers| && world.trace.s.workers[w].Idle?
      requires limit == world.c.batchSize && visibilityNanos == world.c.visibilityNanos
      requires failureThreshold == world.c.threshold
      modifies world`locked, world`trace
      ensures world.Valid()
      ensures OldestFirst(world.c, world.rows, Claimable(world.c, world.rows, old(world.locked), world.clock), ids)
      ensures world.locked == old(world.locked) + ids
      ensures WorkerEnabled(world.c, old(world.trace).s, w, ClaimLock(ids))
      ensures world.trace == Extend(world.c, old(world.trace), OfWorker(w, ClaimLock(ids)))
    {
      var candidates := Candidates(world.rows, world.locked, world.clock, visibilityNanos, failureThreshold, world.c);
      ids := SelectOldest(world.rows, candidates, limit, world.c);
      LockEnabled(world.c, world.trace.s, w, ids);
      world.Do(OfWorker(w, ClaimLock(ids)));
      world.locked := world.locked + ids;
    }

    /** The UPDATE, its commit and the scan. */
    method FinishClaim(ids: set<EventId>, fault: Fault, ghost w: nat)
      returns (r: Result<seq<Claimed>, string>, ghost op: WorkerOp)
      requires world.Valid() && w < |world.trace.s.workers| && world.trace.s.workers[w] == Claiming(world.clock, ids)
      requires ids <= world.rows.Keys
      modifies world`rows, world`locked, world`trace
      ensures world.Valid() && world.locked == old(world.locked) - ids
      ensures WorkerEnabled(world.c, old(world.trace).s, w, op)
      ensures world.trace == Extend(world.c, old(world.trace), OfWorker(w, op))
      ensures world.rows == if fault.NotApplied? then old(world.rows) else Stamp(old(world.rows), ids, world.clock)
      ensures match fault
              case NoFault => op.ClaimCommit? && Listing(op.order, ids) && r == Ok(ReadClaimed(world.rows, op.order))
              case NotApplied => op.ClaimRollback? && r.Err?
              case ReplyLost => op.ClaimLost? && r.Err?
    {
      ReachableInv(world.c, world.trace.run);
      if fault.NotApplied? {
        op := ClaimRollback;
        r := Err("claim unpublished");
      } else {
        var order := List(ids);
        StampAll(order, ids);
        if fault.ReplyLost? {
          op := ClaimLost(order);
          r := Err("iterate claimed rows");
        } else {
          var claimed := Scan(order);
          op := ClaimCommit(order);
          r := Ok(claimed);
        }
      }
      ClaimEnds(world.c, world.trace.s, w, op);
      world.Do(OfWorker(w, op));
      world.locked := world.locked - ids;
    }

    /** Both halves of the claim as one move of the worker. */
    method LockAndFinish(limit: nat, visibilityNanos: nat, failureThreshold: nat, fault: Fault, ghost w: nat)
      returns (r: Result<seq<Claimed>, string>)
      requires world.Valid() && w < |world.trace.s.workers| && world.trace.s.workers[w].Idle?
      requires limit == world.c.batchSize && visibilityNanos == world.c.visibilityNanos
      requires failureThreshold == world.c.threshold
      modifies world`rows, world`locked, world`trace
      ensures world.Valid() && world.locked == old(world.locked)
      ensures Moved(old(world.trace), world.trace, w, if r.Ok? then StartBatch(world.clock, r.value) else Idle,
                    1, fault.NoFault? && LeasesOver(world.c, old(world.trace).s), 0)
      ensures r.Ok? <==> fault.NoFault?
      ensures match fault
              case NoFault => ClaimSpec(world.c, old(world.rows), world.locked, world.clock, world.rows, r.value)
              case NotApplied => world.rows == old(world.rows)
              case ReplyLost => LostClaim(world.c, old(world.rows), world.locked, world.clock, world.rows)
    {
      var ids := LockOldest(limit, visibilityNanos, failureThreshold, w);
      ghost var op;
      r, op := FinishClaim(ids, fault, w);
      ClaimMoves(world.c, old(world.trace), w, ids, op);
      assert world.locked == old(world.locked);
      if r.Ok? {
        ClaimMeetsSpec(world.c, old(world.rows), old(world.locked), world.clock, ids, op.order);
      }
    }

    /**
     * ClaimUnpublished: at most `limit` rows, all eligible and locked by nobody
     * else, no such row left out is older, each returned as it was, nothing
     * else written. The lease in the SQL is cut to whole milliseconds.
     */
    method ClaimUnpublished(limit: nat, visibilityNanos: nat, failureThreshold: nat, fault: Fault, ghost w: nat)
      returns (r: Result<seq<Claimed>, string>)
      requires world.Valid() && w < |world.trace.s.workers| && world.trace.s.workers[w].Idle?
      requires limit == world.c.batchSize && visibilityNanos == world.c.visibilityNanos
      requires failureThreshold == world.c.threshold
      modifies world`rows, world`locked, world`trace
      ensures world.Valid() && world.locked == old(world.locked)
      ensures Moved(old(world.trace), world.trace, w, if r.Ok? then StartBatch(world.clock, r.value) else Idle,
                    1, fault.NoFault? && LeasesOver(world.c, old(world.trace).s), 0)
      ensures r.Ok? <==> fault.NoFault?
      ensures match fault
              case NoFault => ClaimSpec(world.c, old(world.rows), world.locked, world.clock, world.rows, r.value)
              case NotApplied => world.rows == old(world.rows)
              case ReplyLost => LostClaim(world.c, old(world.rows), world.locked, world.clock, world.rows)
      ensures r.Ok? ==>
                && |r.value| <= limit
                && (forall i, j | 0 <= i < j < |r.value| :: r.value[i].eventId != r.value[j].eventId)
                && (forall k | 0 <= k < |r.value| ::
                      && Takable(old(world.rows), r.value[k].eventId, failureThreshold, visibilityNanos, world.clock, world.locked)
                      && r.value[k].eventType == old(world.rows)[r.value[k].eventId].eventType
                      && r.value[k].payload == old(world.rows)[r.value[k].eventId].payload
                      && r.value[k].failureCount == old(world.rows)[r.value[k].eventId].failureCount
                      && r.value[k].eventId in world.rows
                      && world.rows[r.value[k].eventId] ==
                           old(world.rows)[r.value[k].eventId].(lastAttemptedAt := Some(world.clock)))
      ensures r.Ok? ==>
                forall id | id in old(world.rows) && (forall k | 0 <= k < |r.value| :: r.value[k].eventId != id) ::
                  && id in world.rows && world.rows[id] == old(world.rows)[id]
                  && (Takable(old(world.rows), id, failureThreshold, visibilityNanos, world.clock, world.locked) ==>
                        && |r.value| == limit
                        && forall k | 0 <= k < |r.value| ::
                             old(world.rows)[r.value[k].eventId].createdAt <= old(world.rows)[id].createdAt)
    {
      r := LockAndFinish(limit, visibilityNanos, failureThreshold, fault, w);
      if r.Ok? {
        ClaimSpelled(world.c, old(world.rows), world.locked, world.clock, world.rows, r.value);
      }
    }

    /** MarkPublished: one row, published now, its error cleared, once nobody else has it locked. */
    method MarkPublished(eventId: EventId, fault: Fault, ghost w: nat) returns (failed: bool)
      requires world.Valid() && w < |world.trace.s.workers| && eventId !in world.locked
      requires Due(world.trace.s.workers[w], eventId, ToMark)
      modifies world`rows, world`trace
      ensures world.Stored()
      ensures failed <==> !fault.NoFault?
      ensures world.rows == if fault.NotApplied? || eventId !in old(world.rows) then old(world.rows)
                            else old(world.rows)[eventId :=
                                   old(world.rows)[eventId].(publishedAt := Some(world.clock),
                                                             lastAttemptedAt := Some(world.clock), lastError := None)]
      ensures WorkerEnabled(world.c, old(world.trace).s, w, MarkOp(fault))
      ensures world.trace == Extend(world.c, old(world.trace), OfWorker(w, MarkOp(fault)))
    {
      LockedMeans(world.trace.s, eventId);
      SameLocks(world.trace.s.workers, w, WorkerStep(world.c, world.trace.s, w, MarkOp(fault)).workers[w]);
      if !fault.NotApplied? && eventId in world.rows {
        world.rows := world.rows[eventId := world.rows[eventId].(publishedAt := Some(world.clock),
                                                                 lastAttemptedAt := Some(world.clock), lastError := None)];
      }
      world.Do(OfWorker(w, MarkOp(fault)));
      return !fault.NoFault?;
    }

    /** RecordFailure: one row, one failure more, with its error, once nobody else has it locked. */
    method RecordFailure(eventId: EventId, errMsg: string, fault: Fault, ghost w: nat) returns (failed: bool)
      requires world.Valid() && w < |world.trace.s.workers| && eventId !in world.locked
      requires Due(world.trace.s.workers[w], eventId, ToRecord(errMsg))
      modifies world`rows, world`trace
      ensures world.Stored()
      ensures failed <==> !fault.NoFault?
      ensures world.rows == if fault.NotApplied? || eventId !in old(world.rows) then old(world.rows)
                            else old(world.rows)[eventId :=
                                   old(world.rows)[eventId].(failureCount := old(world.rows)[eventId].failureCount + 1,
                                                             lastAttemptedAt := Some(world.clock), lastError := Some(errMsg))]
      ensures WorkerEnabled(world.c, old(world.trace).s, w, RecordOp(fault))
      ensures world.trace == Extend(world.c, old(world.trace), OfWorker(w, RecordOp(fault)))
    {
      LockedMeans(world.trace.s, eventId);
      SameLocks(world.trace.s.workers, w, WorkerStep(world.c, world.trace.s, w, RecordOp(fault)).workers[w]);
      if !fault.NotApplied? && eventId in world.rows {
        var row := world.rows[eventId];
        world.rows := world.rows[eventId := row.(failureCount := row.failureCount + 1,
                                                 lastAttemptedAt := Some(world.clock), lastError := Some(errMsg))];
      }
      world.Do(OfWorker(w, RecordOp(fault)));
      return !fault.NoFault?;
    }
  }

  // ------------------------------------------------------------ the publisher

  /** The error the caller sees. */
  function PublishError(fault: Fault): Option<string> {
    match fault
    case NoFault => None
    case NotApplied => Some("publish: refused")
    case ReplyLost => Some("publish: no reply")
  }

  function PublishOp(fault: Fault): WorkerOp {
    match fault
    case NoFault => PublishOk
    case NotApplied => PublishRejected("publish: refused")
    case ReplyLost => PublishUnknown("publish: no reply")
  }

  class EventPublisher {
    const world: World

    constructor (world: World)
      ensures this.world == world
    {
      this.world := world;
    }

    /** Accepted, refused, or accepted with the reply lost. */
    method Publish(eventType: string, payload: Payload, fault: Fault, ghost w: nat) returns (err: Option<string>)
      requires world.Valid() && w < |world.trace.s.workers|
      requires world.trace.s.workers[w].Working? && world.trace.s.workers[w].batch != []
      requires world.trace.s.workers[w].phase.ToPublish?
      requires world.trace.s.workers[w].batch[0].eventType == eventType && world.trace.s.workers[w].batch[0].payload == payload
      modifies world`accepted, world`trace
      ensures world.Valid()
      ensures err == PublishError(fault)
      ensures world.accepted == old(world.accepted) + (if fault.NotApplied? then [] else [Message(eventType, payload)])
      ensures WorkerEnabled(world.c, old(world.trace).s, w, PublishOp(fault))
      ensures world.trace == Extend(world.c, old(world.trace), OfWorker(w, PublishOp(fault)))
    {
      if !fault.NotApplied? {
        world.accepted := world.accepted + [Message(eventType, payload)];
      }
      SameLocks(world.trace.s.workers, w, WorkerStep(world.c, world.trace.s, w, PublishOp(fault)).workers[w]);
      world.Do(OfWorker(w, PublishOp(fault)));
      return PublishError(fault);
    }
  }

  // ---------------------------------------------- what processing a row means

  /** How the publish of one row ends, how long that takes, and how the write of its outcome ends. */
  datatype Ending = Ending(publishing: Fault, delay: Time, writing: Fault)

  /** What one row becomes: published, or failed once more, or as it was if the write did not happen. */
  function OutcomeRow(row: Row, now: Time, ending: Ending): Row {
    if ending.writing.NotApplied? then row
    else match PublishError(ending.publishing)
         case None => row.(publishedAt := Some(now), lastAttemptedAt := Some(now), lastError := None)
         case Some(err) =>
           row.(failureCount := row.failureCount + 1, lastAttemptedAt := Some(now), lastError := Some(err))
  }

  function OutcomeRows(rows: Table, id: EventId, now: Time, ending: Ending): Table {
    if id in rows then rows[id := OutcomeRow(rows[id], now, ending)] else rows
  }

  /** The logs that go with one failed publish. */
  function FailureLogs(ev: Claimed, threshold: nat, writing: Fault): seq<LogRecord> {
    var attempts := ev.failureCount + 1;
    [if attempts >= threshold then Stuck(ev.eventId, attempts) else Warned(ev.eventId, attempts)]
    + (if writing.NoFault? then [] else [RecordFailedLog(ev.eventId)])
  }

  /** The logs that go with one processed row. */
  function OutcomeLogs(ev: Claimed, threshold: nat, ending: Ending): seq<LogRecord> {
    if !ending.publishing.NoFault? then FailureLogs(ev, threshold, ending.writing)
    else if ending.writing.NoFault? then [] else [MarkFailedLog(ev.eventId)]
  }

  function OutcomeMessages(ev: Claimed, publishing: Fault): seq<Message> {
    if publishing.NotApplied? then [] else [Message(ev.eventType, ev.payload)]
  }

  function NextPhase(publishing: Fault): Phase {
    match PublishError(publishing)
    case None => ToMark
    case Some(err) => ToLog(err)
  }

  /** What processing one row makes of everything. */
  function OutcomeView(v: View, ev: Claimed, threshold: nat, ending: Ending): View {
    var now := v.clock + ending.delay;
    View(OutcomeRows(v.rows, ev.eventId, now, ending),
         v.logs + OutcomeLogs(ev, threshold, ending),
         v.accepted + OutcomeMessages(ev, ending.publishing),
         now)
  }

  /** The first n rows of a batch, each with its own ending, one after the other. */
  function ViewAfter(v: View, batch: seq<Claimed>, threshold: nat, endings: nat -> Ending, n: nat): View
    requires n <= |batch|
  {
    if n == 0 then v
    else OutcomeView(ViewAfter(v, batch, threshold, endings, n - 1), batch[n - 1], threshold, endings(n - 1))
  }

  ghost predicate AllWritten(endings: nat -> Ending, n: nat) {
    forall k: nat | k < n :: !endings(k).writing.NotApplied?
  }

  /** The publishes that were not confirmed. */
  function RefusedIn(endings: nat -> Ending, n: nat): nat {
    if n == 0 then 0 else RefusedIn(endings, n - 1) + (if endings(n - 1).publishing.NoFault? then 0 else 1)
  }

  /** An outcome column by column and log by log. */
  lemma OutcomeSpelled(v: View, ev: Claimed, threshold: nat, ending: Ending)
    ensures var v' := OutcomeView(v, ev, threshold, ending);
            && v'.rows == (if ending.writing.NotApplied? || ev.eventId !in v.rows then v.rows
                           else if ending.publishing.NoFault?
                           then v.rows[ev.eventId := v.rows[ev.eventId].(publishedAt := Some(v'.clock),
                                                                         lastAttemptedAt := Some(v'.clock), lastError := None)]
                           else v.rows[ev.eventId := v.rows[ev.eventId].(failureCount := v.rows[ev.eventId].failureCount + 1,
                                                                         lastAttemptedAt := Some(v'.clock),
                                                                         lastError := PublishError(ending.publishing))])
            && v'.accepted == v.accepted + (if ending.publishing.NotApplied? then [] else [Message(ev.eventType, ev.payload)])
            && v'.logs == v.logs
                 + (if ending.publishing.NoFault? then []
                    else if ev.failureCount + 1 >= threshold then [Stuck(ev.eventId, ev.failureCount + 1)]
                    else [Warned(ev.eventId, ev.failureCount + 1)])
                 + (if ending.writing.NoFault? then []
                    else if ending.publishing.NoFault? then [MarkFailedLog(ev.eventId)]
                    else [RecordFailedLog(ev.eventId)])
            && v'.clock == v.clock + ending.delay
  {
    if ending.writing.NotApplied? && ev.eventId in v.rows {
      assert v.rows[ev.eventId := v.rows[ev.eventId]] == v.rows;
    }
  }

  lemma OneOutcome(v: View, ev: Claimed, threshold: nat, ending: Ending, id: EventId)
    requires id in v.rows
    ensures var v' := OutcomeView(v, ev, threshold, ending);
            && id in v'.rows
            && v'.rows[id] == if id == ev.eventId then OutcomeRow(v.rows[id], v'.clock, ending) else v.rows[id]
  {
  }

  /** Rows outside the batch are untouched. */
  lemma {:induction false} OtherRowsStay(v: View, batch: seq<Claimed>, threshold: nat, endings: nat -> Ending, n: nat,
                                         id: EventId)
    requires n <= |batch| && forall k | 0 <= k < n :: batch[k].eventId != id
    ensures id in ViewAfter(v, batch, threshold, endings, n).rows <==> id in v.rows
    ensures id in v.rows ==> ViewAfter(v, batch, threshold, endings, n).rows[id] == v.rows[id]
    decreases n
  {
    if n > 0 {
      OtherRowsStay(v, batch, threshold, endings, n - 1, id);
    }
  }

  /** Each row of a processed batch has exactly its own outcome, at its own time. */
  lemma {:induction false} OwnOutcome(v: View, batch: seq<Claimed>, threshold: nat, endings: nat -> Ending, n: nat, k: nat)
    requires k < n <= |batch| && Distinct(batch) && batch[k].eventId in v.rows
    ensures var id, rows' := batch[k].eventId, ViewAfter(v, batch, threshold, endings, n).rows;
            && id in rows'
            && rows'[id] == OutcomeRow(v.rows[id], ViewAfter(v, batch, threshold, endings, k + 1).clock, endings(k))
    decreases n
  {
    if k == n - 1 {
      OtherRowsStay(v, batch, threshold, endings, k, batch[k].eventId);
    } else {
      OwnOutcome(v, batch, threshold, endings, n - 1, k);
      assert batch[n - 1].eventId != batch[k].eventId;
    }
    OneOutcome(ViewAfter(v, batch, threshold, endings, n - 1), batch[n - 1], threshold, endings(n - 1), batch[k].eventId);
  }

  lemma MovedOneRow(t0: Trace, t1: Trace, t2: Trace, w: nat, at: Time, batch: seq<Claimed>, endings: nat -> Ending, i: nat)
    requires i < |batch|
    requires Moved(t0, t1, w, StartBatch(at, batch[i..]), 0, AllWritten(endings, i), RefusedIn(endings, i))
    requires Moved(t1, t2, w, StartBatch(at, batch[i + 1..]), 0, !endings(i).writing.NotApplied?,
                   if endings(i).publishing.NoFault? then 0 else 1)
    ensures Moved(t0, t2, w, StartBatch(at, batch[i + 1..]), 0, AllWritten(endings, i + 1), RefusedIn(endings, i + 1))
  {
    MovedTwice(t0, t1, t2, w, StartBatch(at, batch[i..]), 0, AllWritten(endings, i), RefusedIn(endings, i),
               StartBatch(at, batch[i + 1..]), 0, !endings(i).writing.NotApplied?,
               if endings(i).publishing.NoFault? then 0 else 1);
  }

  /** Writing the log is an action of its own, before the record. */
  lemma LogEnds(c: Config, t: Trace, w: nat, ev: Claimed, err: string)
    requires w < |t.s.workers| && Due(t.s.workers[w], ev.eventId, ToLog(err)) && t.s.workers[w].batch[0] == ev
    ensures WorkerEnabled(c, t.s, w, LogOutcome)
    ensures var t', x := Extend(c, t, OfWorker(w, LogOutcome)), t.s.workers[w].(phase := ToRecord(err));
            && t'.s == t.s.(logs := t.s.logs + FailureLogs(ev, c.threshold, NoFault), workers := t.s.workers[w := x])
            && LockedIds(t'.s.workers) == LockedIds(t.s.workers)
            && Moved(t, t', w, x, 0, true, 0)
  {
    MoveOne(c, t, w, LogOutcome);
    SameLocks(t.s.workers, w, t.s.workers[w].(phase := ToRecord(err)));
  }

  /** A round that claimed: an oldest-first batch, stamped, then each row with its own outcome. */
  ghost predicate RoundSpec(c: Config, v: View, locked: set<EventId>, endings: nat -> Ending, claimed: seq<Claimed>, v': View) {
    exists stamped ::
      && ClaimSpec(c, v.rows, locked, v.clock, stamped, claimed)
      && v' == ViewAfter(v.(rows := stamped), claimed, c.threshold, endings, |claimed|)
  }

  // ---------------------------------------------------------------- the relay

  datatype NewError = StoreIsNil | PublisherIsNil | BatchSizeNotPositive | ThresholdNotPositive | TimeoutNotPositive

  class Relay {
    const store: OutboxRepository
    const pub: EventPublisher
    const batchSize: nat
    const failureThreshold: nat
    const visibilityNanos: nat
    ghost const w: nat

    ghost predicate Valid()
      reads this, store, pub, store.world
    {
      && store.world == pub.world && store.world.Valid()
      && batchSize == store.world.c.batchSize
      && failureThreshold == store.world.c.threshold
      && visibilityNanos == store.world.c.visibilityNanos
      && w < |store.world.trace.s.workers|
    }

    /** The row at the head of this relay's batch, locked by nobody, and what is due for it. */
    ghost predicate At(ev: Claimed, phase: Phase)
      reads this, store, pub, store.world
    {
      && Valid() && ev.eventId !in store.world.locked
      && Due(store.world.trace.s.workers[w], ev.eventId, phase) && store.world.trace.s.workers[w].batch[0] == ev
    }

    /** The batch without its head. */
    ghost function Rest(x: Worker): Worker
      requires x.Working? && x.batch != []
    {
      StartBatch(x.at, x.batch[1..])
    }

    constructor (store: OutboxRepository, pub: EventPublisher, batchSize: nat, failureThreshold: nat, visibilityNanos: nat,
                 ghost w: nat)
      requires store.world == pub.world && store.world.Valid() && w < |store.world.trace.s.workers|
      requires batchSize == store.world.c.batchSize && failureThreshold == store.world.c.threshold
      requires visibilityNanos == store.world.c.visibilityNanos
      ensures Valid() && this.store == store && this.pub == pub && this.w == w
    {
      this.store := store;
      this.pub := pub;
      this.batchSize := batchSize;
      this.failureThreshold := failureThreshold;
      this.visibilityNanos := visibilityNanos;
      this.w := w;
    }

    /** New: the first check that fails decides the error. */
    static method New(store: OutboxRepository?, pub: EventPublisher?,
                      batchSize: int, failureThreshold: int, visibilityNanos: int, ghost w: nat)
      returns (r: Result<Relay, NewError>)
      requires store != null && pub != null ==>
                 store.world == pub.world && store.world.Valid() && w < |store.world.trace.s.workers|
      requires store != null && batchSize > 0 && failureThreshold > 0 && visibilityNanos > 0 ==>
                 && batchSize == store.world.c.batchSize as int && failureThreshold == store.world.c.threshold as int
                 && visibilityNanos == store.world.c.visibilityNanos as int
      ensures r.Ok? <==> store != null && pub != null && batchSize > 0 && failureThreshold > 0 && visibilityNanos > 0
      ensures r.Ok? ==> fresh(r.value) && r.value.Valid() && r.value.store == store && r.value.pub == pub && r.value.w == w
      ensures r.Err? ==>
                match r.error
                case StoreIsNil => store == null
                case PublisherIsNil => store != null && pub == null
                case BatchSizeNotPositive => store != null && pub != null && batchSize <= 0
                case ThresholdNotPositive => store != null && pub != null && batchSize > 0 && failureThreshold <= 0
                case TimeoutNotPositive =>
                  store != null && pub != null && batchSize > 0 && failureThreshold > 0 && visibilityNanos <= 0
    {
      if store == null {
        return Err(StoreIsNil);
      }
      if pub == null {
        return Err(PublisherIsNil);
      }
      if batchSize <= 0 {
        return Err(BatchSizeNotPositive);
      }
      if failureThreshold <= 0 {
        return Err(ThresholdNotPositive);
      }
      if visibilityNanos <= 0 {
        return Err(TimeoutNotPositive);
      }
      var relay := new Relay(store, pub, batchSize, failureThreshold, visibilityNanos, w);
      return Ok(relay);
    }

    /** The warning or error that goes with a failed publish. */
    method LogFailure(ev: Claimed, ghost err: string)
      requires At(ev, ToLog(err))
      modifies store.world`logs, store.world`trace
      ensures At(ev, ToRecord(err))
      ensures store.world.logs == old(store.world.logs) + FailureLogs(ev, failureThreshold, NoFault)
      ensures Moved(old(store.world.trace), store.world.trace, w,
                    old(store.world.trace).s.workers[w].(phase := ToRecord(err)), 0, true, 0)
    {
      var attempts := ev.failureCount + 1;
      if attempts >= failureThreshold {
        store.world.logs := store.world.logs + [Stuck(ev.eventId, attempts)];
      } else {
        store.world.logs := store.world.logs + [Warned(ev.eventId, attempts)];
      }
      LogEnds(store.world.c, store.world.trace, w, ev, err);
      store.world.Do(OfWorker(w, LogOutcome));
    }

    /** Mark the accepted head of the batch; a failure is only logged. */
    method MarkAndMoveOn(ev: Claimed, fault: Fault)
      requires At(ev, ToMark)
      modifies store.world`rows, store.world`logs, store.world`trace
      ensures Valid()
      ensures Moved(old(store.world.trace), store.world.trace, w, Rest(old(store.world.trace).s.workers[w]),
                    0, !fault.NotApplied?, 0)
      ensures store.world.logs == old(store.world.logs) + OutcomeLogs(ev, failureThreshold, Ending(NoFault, 0, fault))
      ensures store.world.rows ==
                OutcomeRows(old(store.world.rows), ev.eventId, store.world.clock, Ending(NoFault, 0, fault))
    {
      MoveOne(store.world.c, store.world.trace, w, MarkOp(fault)) by {
        LockedMeans(store.world.trace.s, ev.eventId);
      }
      var failed := store.MarkPublished(ev.eventId, fault, w);
      if failed {
        store.world.logs := store.world.logs + [MarkFailedLog(ev.eventId)];
      }
    }

    /** Record the failed head of the batch; a failed write is only logged. */
    method RecordAndMoveOn(ev: Claimed, err: string, fault: Fault)
      requires At(ev, ToRecord(err))
      modifies store.world`rows, store.world`logs, store.world`trace
      ensures Valid()
      ensures Moved(old(store.world.trace), store.world.trace, w, Rest(old(store.world.trace).s.workers[w]),
                    0, !fault.NotApplied?, 0)
      ensures store.world.logs == old(store.world.logs) + (if fault.NoFault? then [] else [RecordFailedLog(ev.eventId)])
      ensures store.world.rows == if fault.NotApplied? then old(store.world.rows)
                                  else RecordRow(old(store.world.rows), ev.eventId, store.world.clock, err)
    {
      MoveOne(store.world.c, store.world.trace, w, RecordOp(fault)) by {
        LockedMeans(store.world.trace.s, ev.eventId);
      }
      var failed := store.RecordFailure(ev.eventId, err, fault, w);
      if failed {
        store.world.logs := store.world.logs + [RecordFailedLog(ev.eventId)];
      }
    }

    /** The failure path: the log first, then the record. */
    method LogAndRecord(ev: Claimed, err: string, fault: Fault)
      requires At(ev, ToLog(err))
      modifies store.world`rows, store.world`logs, store.world`trace
      ensures Valid()
      ensures Moved(old(store.world.trace), store.world.trace, w, Rest(old(store.world.trace).s.workers[w]),
                    0, !fault.NotApplied?, 0)
      ensures store.world.logs == old(store.world.logs) + FailureLogs(ev, failureThreshold, fault)
      ensures store.world.rows == if fault.NotApplied? then old(store.world.rows)
                                  else RecordRow(old(store.world.rows), ev.eventId, store.world.clock, err)
    {
      ghost var t0 := store.world.trace;
      LogFailure(ev, err);
      ghost var t1 := store.world.trace;
      RecordAndMoveOn(ev, err, fault);
      MovedTwice(t0, t1, store.world.trace, w, t1.s.workers[w], 0, true, 0, Rest(t1.s.workers[w]), 0, !fault.NotApplied?, 0);
    }

    method Elapse(d: Time)
      requires Valid()
      modifies store.world`clock, store.world`trace
      ensures Valid() && store.world.clock == old(store.world.clock) + d
      ensures store.world.trace == Extend(store.world.c, old(store.world.trace), Tick(d))
      ensures Moved(old(store.world.trace), store.world.trace, w, old(store.world.trace).s.workers[w], 0, true, 0)
    {
      MoveTick(store.world.c, store.world.trace, w, d);
      store.world.Elapse(d);
    }

    /** Publish the head of the batch and wait for the answer. */
    method PublishAndWait(ev: Claimed, publishing: Fault, delay: Time) returns (pubErr: Option<string>)
      requires At(ev, ToPublish)
      modifies store.world`accepted, store.world`clock, store.world`trace
      ensures pubErr == PublishError(publishing) && At(ev, NextPhase(publishing))
      ensures Moved(old(store.world.trace), store.world.trace, w,
                    old(store.world.trace).s.workers[w].(phase := NextPhase(publishing)),
                    0, true, if publishing.NoFault? then 0 else 1)
      ensures store.world.accepted == old(store.world.accepted) + OutcomeMessages(ev, publishing)
      ensures store.world.clock == old(store.world.clock) + delay
    {
      ghost var t0 := store.world.trace;
      MoveOne(store.world.c, t0, w, PublishOp(publishing));
      pubErr := pub.Publish(ev.eventType, ev.payload, publishing, w);
      ghost var t1 := store.world.trace;
      Elapse(delay);
      MovedTwice(t0, t1, store.world.trace, w, t1.s.workers[w], 0, true, if publishing.NoFault? then 0 else 1,
                 t1.s.workers[w], 0, true, 0);
    }

    /**
     * processOne: publish, then mark or log and record; time passes in between.
     * What the broker accepts, what is written and what is logged follow from
     * how the two requests end.
     */
    method ProcessOne(ev: Claimed, ending: Ending)
      requires At(ev, ToPublish)
      modifies store.world`rows, store.world`logs, store.world`accepted, store.world`clock, store.world`trace
      ensures Valid()
      ensures Moved(old(store.world.trace), store.world.trace, w, Rest(old(store.world.trace).s.workers[w]),
                    0, !ending.writing.NotApplied?, if ending.publishing.NoFault? then 0 else 1)
      ensures store.world.Seen() == OutcomeView(old(store.world.Seen()), ev, failureThreshold, ending)
      ensures store.world.rows ==
                if ending.writing.NotApplied? || ev.eventId !in old(store.world.rows) then old(store.world.rows)
                else if ending.publishing.NoFault?
                then old(store.world.rows)[ev.eventId :=
                       old(store.world.rows)[ev.eventId].(publishedAt := Some(store.world.clock),
                                                          lastAttemptedAt := Some(store.world.clock), lastError := None)]
                else old(store.world.rows)[ev.eventId :=
                       old(store.world.rows)[ev.eventId].(failureCount := old(store.world.rows)[ev.eventId].failureCount + 1,
                                                          lastAttemptedAt := Some(store.world.clock),
                                                          lastError := PublishError(ending.publishing))]
      ensures store.world.accepted == old(store.world.accepted)
                                      + (if ending.publishing.NotApplied? then [] else [Message(ev.eventType, ev.payload)])
      ensures store.world.logs == old(store.world.logs)
                + (if ending.publishing.NoFault? then []
                   else if ev.failureCount + 1 >= failureThreshold then [Stuck(ev.eventId, ev.failureCount + 1)]
                   else [Warned(ev.eventId, ev.failureCount + 1)])
                + (if ending.writing.NoFault? then []
                   else if ending.publishing.NoFault? then [MarkFailedLog(ev.eventId)]
                   else [RecordFailedLog(ev.eventId)])
      ensures store.world.clock == old(store.world.clock) + ending.delay
    {
      ghost var t0 := store.world.trace;
      var pubErr := PublishAndWait(ev, ending.publishing, ending.delay);
      ghost var t1 := store.world.trace;
      if pubErr.None? {
        MarkAndMoveOn(ev, ending.writing);
      } else {
        LogAndRecord(ev, pubErr.value, ending.writing);
      }
      MovedTwice(t0, t1, store.world.trace, w, t1.s.workers[w], 0, true, if ending.publishing.NoFault? then 0 else 1,
                 Rest(t1.s.workers[w]), 0, !ending.writing.NotApplied?, 0);
      OutcomeSpelled(old(store.world.Seen()), ev, failureThreshold, ending);
    }

    /** The body of the loop, for row i of the batch. */
    method ProcessNext(batch: seq<Claimed>, endings: nat -> Ending, i: nat, ghost at: Time, ghost t0: Trace)
      requires Valid() && i < |batch| && batch[i].eventId !in store.world.locked
      requires Moved(t0, store.world.trace, w, StartBatch(at, batch[i..]), 0, AllWritten(endings, i), RefusedIn(endings, i))
      modifies store.world`rows, store.world`logs, store.world`accepted, store.world`clock, store.world`trace
      ensures Valid()
      ensures Moved(t0, store.world.trace, w, StartBatch(at, batch[i + 1..]),
                    0, AllWritten(endings, i + 1), RefusedIn(endings, i + 1))
      ensures store.world.Seen() == OutcomeView(old(store.world.Seen()), batch[i], failureThreshold, endings(i))
    {
      ghost var t1 := store.world.trace;
      assert batch[i..][0] == batch[i] && batch[i..][1..] == batch[i + 1..];
      ProcessOne(batch[i], endings(i));
      MovedOneRow(t0, t1, store.world.trace, w, at, batch, endings, i);
    }

    /** The loop of RunOnce: every claimed row in turn, each with its own ending. */
    method ProcessAll(batch: seq<Claimed>, endings: nat -> Ending)
      requires Valid() && store.world.trace.s.workers[w] == StartBatch(store.world.clock, batch)
      requires forall k | 0 <= k < |batch| :: batch[k].eventId !in store.world.locked
      modifies store.world`rows, store.world`logs, store.world`accepted, store.world`clock, store.world`trace
      ensures Valid()
      ensures Moved(old(store.world.trace), store.world.trace, w, Idle,
                    0, AllWritten(endings, |batch|), RefusedIn(endings, |batch|))
      ensures store.world.Seen() == ViewAfter(old(store.world.Seen()), batch, failureThreshold, endings, |batch|)
    {
      ghost var t0, at := store.world.trace, store.world.clock;
      assert batch[0..] == batch;
      var i := 0;
      while i < |batch|
        invariant 0 <= i <= |batch|
        invariant Valid()
        invariant Moved(t0, store.world.trace, w, StartBatch(at, batch[i..]), 0, AllWritten(endings, i), RefusedIn(endings, i))
        invariant store.world.Seen() == ViewAfter(old(store.world.Seen()), batch, failureThreshold, endings, i)
      {
        ProcessNext(batch, endings, i, at, t0);
        i := i + 1;
      }
    }

    /**
     * RunOnce: one claim, every claimed row processed in turn to its outcome,
     * and the worker idle again. A failed claim is reported, nothing else is.
     */
    method RunOnce(claiming: Fault, endings: nat -> Ending) returns (err: Option<string>, ghost claimed: seq<Claimed>)
      requires Valid() && store.world.trace.s.workers[w].Idle?
      modifies store.world`rows, store.world`locked, store.world`logs, store.world`accepted, store.world`clock,
               store.world`trace
      ensures Valid() && store.world.locked == old(store.world.locked)
      ensures err.Some? <==> !claiming.NoFault?
      ensures err.Some? ==> claimed == []
      ensures Moved(old(store.world.trace), store.world.trace, w, Idle,
                    1, claiming.NoFault? && LeasesOver(store.world.c, old(store.world.trace).s) && AllWritten(endings, |claimed|),
                    RefusedIn(endings, |claimed|))
      ensures var world := store.world;
              match claiming
              case NoFault => RoundSpec(world.c, old(world.Seen()), world.locked, endings, claimed, world.Seen())
              case NotApplied => world.Seen() == old(world.Seen())
              case ReplyLost =>
                && LostClaim(world.c, old(world.rows), world.locked, world.clock, world.rows)
                && world.Seen() == old(world.Seen()).(rows := world.rows)
    {
      ghost var t0 := store.world.trace;
      var batch := store.ClaimUnpublished(batchSize, visibilityNanos, failureThreshold, claiming, w);
      if batch.Err? {
        return Some(batch.error), [];
      }
      claimed := batch.value;
      ghost var t1 := store.world.trace;
      ProcessAll(batch.value, endings);
      MovedTwice(t0, t1, store.world.trace, w, t1.s.workers[w], 1, LeasesOver(store.world.c, t0.s), 0,
                 Idle, 0, AllWritten(endings, |claimed|), RefusedIn(endings, |claimed|));
      return None, claimed;
    }
  }
}
