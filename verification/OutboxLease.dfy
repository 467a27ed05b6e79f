/** The time lease: how far apart claims are, and when workers hold rows exclusively. */
module OutboxLease {
  import opened OutboxModel
  import opened OutboxInvariant

  // ------------------------------------------------------- lease separation

  ghost predicate StillStamped(s: State, r: ClaimRecord) {
    && r.eventId in s.rows
    && s.rows[r.eventId].lastAttemptedAt.Some?
    && r.at <= s.rows[r.eventId].lastAttemptedAt.value
  }

  ghost predicate Separated(c: Config, claims: seq<ClaimRecord>) {
    forall i, j | 0 <= i < j < |claims| && claims[i].eventId == claims[j].eventId ::
      claims[i].at + Lease(c) < claims[j].at
  }

  ghost predicate ClaimsOk(c: Config, s: State) {
    && (forall r | r in s.claims :: StillStamped(s, r))
    && Separated(c, s.claims)
  }

  lemma AppendRecords(c: Config, s: State, x: Worker, order: seq<EventId>)
    requires ClaimsOk(c, s) && x.Claiming? && WorkerOk(c, s, x) && Listing(order, x.ids)
    ensures Separated(c, s.claims + Records(order, x.now))
  {
    var more := Records(order, x.now);
    var all := s.claims + more;
    assert forall i, j | 0 <= i < j < |more| :: more[i].eventId != more[j].eventId;
    forall i, j | 0 <= i < j < |all| && all[i].eventId == all[j].eventId
      ensures all[i].at + Lease(c) < all[j].at
    {
      if j >= |s.claims| {
        var id := order[j - |s.claims|];
        assert id in x.ids;
        if i < |s.claims| {
          assert s.claims[i] in s.claims && StillStamped(s, s.claims[i]);
          assert Eligible(c, s.rows[id], x.now);
        }
      }
    }
  }

  lemma WorkerKeepsClaims(c: Config, s: State, w: nat, op: WorkerOp)
    requires WorkerEnabled(c, s, w, op) && RowsOk(s) && WorkersOk(c, s) && ClaimsOk(c, s)
    ensures ClaimsOk(c, WorkerStep(c, s, w, op))
  {
    var s' := WorkerStep(c, s, w, op);
    var x := s.workers[w];
    WorkerRows(c, s, w, op);
    assert WorkerOk(c, s, x);
    if op.ClaimCommit? || op.ClaimLost? {
      AppendRecords(c, s, x, op.order);
    }
    forall r | r in s'.claims
      ensures StillStamped(s', r)
    {
      if r in s.claims {
        assert StillStamped(s, r);
      } else {
        var k :| 0 <= k < |op.order| && Records(op.order, x.now)[k] == r;
        assert op.order[k] in x.ids;
      }
    }
  }

  lemma StepKeepsClaims(c: Config, s: State, a: Action)
    requires Enabled(c, s, a) && RowsOk(s) && WorkersOk(c, s) && CallsOk(s) && ClaimsOk(c, s)
    ensures ClaimsOk(c, Step(c, s, a))
  {
    assert forall r | r in s.claims :: StillStamped(s, r);
    match a
    case OfWorker(w, op) => WorkerKeepsClaims(c, s, w, op);
    case OfCall(k, op) =>
      if op.Commit? {
        CommitRows(c, s, k);
      } else {
        CallFrame(c, s, k, op);
      }
    case Tick(_) =>
    case AccountConsumes(_) =>
  }

  lemma {:induction false} RunKeepsClaims(c: Config, s: State, run: seq<Action>)
    requires ValidRun(c, s, run) && Inv(c, s) && ClaimsOk(c, s)
    ensures ClaimsOk(c, Exec(c, s, run))
    decreases |run|
  {
    if run != [] {
      StepKeepsClaims(c, s, run[0]);
      StepInv(c, s, run[0]);
      RunKeepsClaims(c, Step(c, s, run[0]), run[1..]);
    }
  }

  /** Over every run, two claims of one row are strictly more than the lease apart. */
  lemma LeaseSeparation(c: Config, run: seq<Action>)
    requires ValidRun(c, Init(c), run)
    ensures var claims := Exec(c, Init(c), run).claims;
            forall i, j | 0 <= i < j < |claims| && claims[i].eventId == claims[j].eventId ::
              claims[i].at + Lease(c) < claims[j].at
  {
    InitInv(c);
    RunKeepsClaims(c, Init(c), run);
  }

  /** The claim statements that are in flight together lock disjoint sets of rows. */
  lemma LockedSetsDisjoint(c: Config, run: seq<Action>, v: nat, w: nat)
    requires ValidRun(c, Init(c), run)
    requires v < w < |Exec(c, Init(c), run).workers|
    requires Exec(c, Init(c), run).workers[v].Claiming? && Exec(c, Init(c), run).workers[w].Claiming?
    ensures Exec(c, Init(c), run).workers[v].ids !! Exec(c, Init(c), run).workers[w].ids
  {
    ReachableInv(c, run);
  }

  // -------------------------------------------------------- counting holders

  /** How many workers hold a claim on the row: its outstanding claims. */
  function Holders(workers: seq<Worker>, id: EventId): nat {
    if workers == [] then 0
    else (if id in Held(workers[0]) then 1 else 0) + Holders(workers[1..], id)
  }

  function Holds(x: Worker, id: EventId): nat {
    if id in Held(x) then 1 else 0
  }

  lemma {:induction false} HoldersUpdate(workers: seq<Worker>, w: nat, x: Worker, id: EventId)
    requires w < |workers|
    ensures Holders(workers[w := x], id) == Holders(workers, id) - Holds(workers[w], id) + Holds(x, id)
    decreases |workers|
  {
    if w == 0 {
      assert workers[w := x][1..] == workers[1..];
    } else {
      HoldersUpdate(workers[1..], w - 1, x, id);
      assert workers[w := x][1..] == workers[1..][w - 1 := x];
    }
  }

  lemma {:induction false} HoldersBounds(workers: seq<Worker>, id: EventId)
    ensures Holders(workers, id) <= |workers|
    ensures Holders(workers, id) > 0 <==> exists w :: 0 <= w < |workers| && id in Held(workers[w])
    decreases |workers|
  {
    if workers != [] {
      HoldersBounds(workers[1..], id);
      if w :| 0 <= w < |workers| && id in Held(workers[w]) {
        if w > 0 {
          assert workers[1..][w - 1] == workers[w];
        }
      }
      if w :| 0 <= w < |workers[1..]| && id in Held(workers[1..][w]) {
        assert workers[w + 1] == workers[1..][w];
      }
    }
  }

  lemma {:induction false} TwoHolders(workers: seq<Worker>, v: nat, w: nat, id: EventId)
    requires v < w < |workers| && id in Held(workers[v]) && id in Held(workers[w])
    ensures Holders(workers, id) >= 2
    decreases |workers|
  {
    if v == 0 {
      assert workers[1..][w - 1] == workers[w];
      HoldersBounds(workers[1..], id);
    } else {
      assert workers[1..][v - 1] == workers[v] && workers[1..][w - 1] == workers[w];
      TwoHolders(workers[1..], v - 1, w - 1, id);
    }
  }

  /** What one worker action does to the acting worker's claims. */
  lemma ActorHeld(c: Config, s: State, w: nat, op: WorkerOp)
    requires WorkerEnabled(c, s, w, op) && WorkersOk(c, s)
    ensures var x := s.workers[w];
            var s' := WorkerStep(c, s, w, op);
            && s'.workers == s.workers[w := s'.workers[w]]
            && Held(s'.workers[w]) ==
               match op
               case ClaimLock(ids) => ids
               case ClaimCommit(_) => Held(x)
               case PublishOk => Held(x)
               case PublishRejected(_) => Held(x)
               case PublishUnknown(_) => Held(x)
               case LogOutcome => Held(x)
               case MarkOk => Held(x) - {x.batch[0].eventId}
               case MarkLost => Held(x) - {x.batch[0].eventId}
               case MarkFailed => Held(x) - {x.batch[0].eventId}
               case RecordOk => Held(x) - {x.batch[0].eventId}
               case RecordLost => Held(x) - {x.batch[0].eventId}
               case RecordFailed => Held(x) - {x.batch[0].eventId}
               case ClaimLost(_) => {}
               case ClaimRollback => {}
               case Crash => {}
  {
    var x := s.workers[w];
    assert WorkerOk(c, s, x);
    if x.Working? {
      HeldRest(x.at, x.batch, x.phase);
    }
    if op.ClaimCommit? {
      FreshBatchOk(s.rows, x.ids, x.now, op.order);
    }
  }

  // -------------------------------------------------------------- exclusivity

  /** No row is held by two workers at once. */
  ghost predicate Exclusive(s: State) {
    forall id :: Holders(s.workers, id) <= 1
  }

  /** Nobody is holding a claim whose lease has run out. */
  ghost predicate Timely(c: Config, s: State) {
    forall w | 0 <= w < |s.workers| && s.workers[w].Working? :: s.clock <= s.workers[w].at + Lease(c)
  }

  ghost predicate TimelyRun(c: Config, s: State, run: seq<Action>)
    requires ValidRun(c, s, run)
    decreases |run|
  {
    Timely(c, s) && (run != [] ==> TimelyRun(c, Step(c, s, run[0]), run[1..]))
  }

  ghost predicate ExclusiveRun(c: Config, s: State, run: seq<Action>)
    requires ValidRun(c, s, run)
    decreases |run|
  {
    Exclusive(s) && (run != [] ==> ExclusiveRun(c, Step(c, s, run[0]), run[1..]))
  }

  /** While leases are respected, holding a row keeps it out of every claim. */
  lemma HolderBlocksClaim(c: Config, s: State, w: nat, id: EventId)
    requires WorkersOk(c, s) && Timely(c, s) && w < |s.workers| && id in Held(s.workers[w])
    ensures id !in Available(c, s)
  {
    assert WorkerOk(c, s, s.workers[w]);
    if s.workers[w].Working? {
      var k :| 0 <= k < |s.workers[w].batch| && s.workers[w].batch[k].eventId == id;
      assert ClaimedOk(s.rows, s.workers[w].at, s.workers[w].batch[k]);
    } else {
      assert Locked(s, id);
    }
  }

  /** A row that can be claimed while every lease is respected is held by nobody. */
  lemma FreeToClaim(c: Config, s: State, id: EventId)
    requires WorkersOk(c, s) && Timely(c, s) && id in Available(c, s)
    ensures Holders(s.workers, id) == 0
  {
    HoldersBounds(s.workers, id);
    forall w | 0 <= w < |s.workers|
      ensures id in Held(s.workers[w]) ==> id !in Available(c, s)
    {
      if id in Held(s.workers[w]) {
        HolderBlocksClaim(c, s, w, id);
      }
    }
  }

  /** Only claiming can create a second holder. */
  lemma ClaimingAddsHolders(c: Config, s: State, w: nat, op: WorkerOp, id: EventId)
    requires WorkerEnabled(c, s, w, op) && WorkersOk(c, s)
    ensures Holders(WorkerStep(c, s, w, op).workers, id) <=
              Holders(s.workers, id) + (if op.ClaimLock? && id in op.ids then 1 else 0)
  {
    ActorHeld(c, s, w, op);
    HoldersUpdate(s.workers, w, WorkerStep(c, s, w, op).workers[w], id);
  }

  lemma StepExclusive(c: Config, s: State, a: Action)
    requires Enabled(c, s, a) && Inv(c, s) && Exclusive(s) && Timely(c, s)
    ensures Exclusive(Step(c, s, a))
  {
    match a
    case OfWorker(w, op) =>
      forall id
        ensures Holders(WorkerStep(c, s, w, op).workers, id) <= 1
      {
        ClaimingAddsHolders(c, s, w, op, id);
        if op.ClaimLock? && id in op.ids {
          FreeToClaim(c, s, id);
        }
      }
    case OfCall(_, _) =>
    case Tick(_) =>
    case AccountConsumes(_) =>
  }

  lemma {:induction false} TimelyIsExclusive(c: Config, s: State, run: seq<Action>)
    requires ValidRun(c, s, run) && Inv(c, s) && Exclusive(s) && TimelyRun(c, s, run)
    ensures ExclusiveRun(c, s, run)
    decreases |run|
  {
    if run != [] {
      StepExclusive(c, s, run[0]);
      StepInv(c, s, run[0]);
      TimelyIsExclusive(c, Step(c, s, run[0]), run[1..]);
    }
  }

  /** Workers that resolve each claim within the lease never hold one row at once. */
  lemma TimelyWorkersNeverOverlap(c: Config, run: seq<Action>, v: nat, w: nat)
    requires ValidRun(c, Init(c), run) && TimelyRun(c, Init(c), run)
    requires v < w < |Exec(c, Init(c), run).workers|
    ensures Held(Exec(c, Init(c), run).workers[v]) !! Held(Exec(c, Init(c), run).workers[w])
  {
    InitInv(c);
    InitExclusive(c);
    TimelyIsExclusive(c, Init(c), run);
    ExclusiveAtEnd(c, Init(c), run);
    var ws := Exec(c, Init(c), run).workers;
    forall id | id in Held(ws[v])
      ensures id !in Held(ws[w])
    {
      if id in Held(ws[w]) {
        TwoHolders(ws, v, w, id);
      }
    }
  }

  lemma InitExclusive(c: Config)
    ensures Exclusive(Init(c))
  {
    forall id
      ensures Holders(Init(c).workers, id) <= 1
    {
      HoldersBounds(Init(c).workers, id);
    }
  }

  lemma {:induction false} ExclusiveAtEnd(c: Config, s: State, run: seq<Action>)
    requires ValidRun(c, s, run) && ExclusiveRun(c, s, run)
    ensures Exclusive(Exec(c, s, run))
    decreases |run|
  {
    if run != [] {
      ExclusiveAtEnd(c, Step(c, s, run[0]), run[1..]);
    }
  }

  /** A single relay is exclusive however slow it is. */
  lemma {:induction false} OneRelayIsExclusive(c: Config, s: State, run: seq<Action>)
    requires c.workers <= 1
    requires ValidRun(c, s, run) && Inv(c, s)
    ensures ExclusiveRun(c, s, run)
    decreases |run|
  {
    forall id
      ensures Holders(s.workers, id) <= 1
    {
      HoldersBounds(s.workers, id);
    }
    if run != [] {
      StepInv(c, s, run[0]);
      OneRelayIsExclusive(c, Step(c, s, run[0]), run[1..]);
    }
  }
}
