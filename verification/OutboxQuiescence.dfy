/** What is final: published rows, and rows that nobody can touch any more. */
module OutboxQuiescence {
  import opened OutboxModel
  import opened OutboxInvariant
  import opened OutboxLease
  import opened OutboxRefinement

  // ------------------------------------------------ published rows are final

  lemma RecordsAreLive(c: Config, s: State, x: Worker, order: seq<EventId>)
    requires x.Claiming? && WorkerOk(c, s, x) && Listing(order, x.ids)
    ensures forall k | 0 <= k < |Records(order, x.now)| ::
              var id := Records(order, x.now)[k].eventId;
              id in s.rows && Live(c, s.rows[id])
  {
    forall k | 0 <= k < |order|
      ensures order[k] in s.rows && Live(c, s.rows[order[k]])
    {
      assert order[k] in x.ids;
    }
  }

  /** Only a committing claim extends the claim history. */
  lemma ClaimsGrowBy(c: Config, s: State, a: Action)
    requires Enabled(c, s, a)
    ensures Step(c, s, a).claims ==
              if a.OfWorker? && (a.wop.ClaimCommit? || a.wop.ClaimLost?)
              then s.claims + Records(a.wop.order, s.workers[a.worker].now)
              else s.claims
  {
  }

  /** A claim that commits is recorded only for rows that are still to be delivered. */
  lemma NewClaimsAreLive(c: Config, s: State, a: Action)
    requires Enabled(c, s, a) && WorkersOk(c, s)
    ensures s.claims <= Step(c, s, a).claims
    ensures forall k | |s.claims| <= k < |Step(c, s, a).claims| ::
              var id := Step(c, s, a).claims[k].eventId;
              id in s.rows && Live(c, s.rows[id])
  {
    ClaimsGrowBy(c, s, a);
    if a.OfWorker? && (a.wop.ClaimCommit? || a.wop.ClaimLost?) {
      RecordsAreLive(c, s, s.workers[a.worker], a.wop.order);
    }
  }

  lemma StepKeepsPublished(c: Config, s: State, a: Action, id: EventId)
    requires Enabled(c, s, a) && Inv(c, s) && id in s.rows && s.rows[id].publishedAt.Some?
    ensures id in Step(c, s, a).rows && Step(c, s, a).rows[id].publishedAt.Some?
  {
    match a
    case OfWorker(w, op) => WorkerRows(c, s, w, op);
    case OfCall(k, op) =>
      if op.Commit? {
        CommitRows(c, s, k);
      }
    case Tick(_) =>
    case AccountConsumes(_) =>
  }

  /** From the moment it is published, a row is never claimed again and never becomes unpublished. */
  lemma {:induction false} PublishedIsFinal(c: Config, s: State, run: seq<Action>, id: EventId)
    requires ValidRun(c, s, run) && Inv(c, s)
    requires id in s.rows && s.rows[id].publishedAt.Some?
    ensures var s' := Exec(c, s, run);
            && id in s'.rows && s'.rows[id].publishedAt.Some?
            && s.claims <= s'.claims
            && (forall k | |s.claims| <= k < |s'.claims| :: s'.claims[k].eventId != id)
    decreases |run|
  {
    if run != [] {
      StepInv(c, s, run[0]);
      StepKeepsPublished(c, s, run[0], id);
      NewClaimsAreLive(c, s, run[0]);
      var s1 := Step(c, s, run[0]);
      PublishedIsFinal(c, s1, run[1..], id);
      var s' := Exec(c, s, run);
      forall k | |s.claims| <= k < |s'.claims|
        ensures s'.claims[k].eventId != id
      {
        if k < |s1.claims| {
          assert s'.claims[k] == s1.claims[k];
        }
      }
    }
  }

  // ------------------------------------------------------------ frozen rows

  /** Neither deliverable nor held by anybody. */
  ghost predicate Settled(c: Config, s: State, id: EventId) {
    id in s.rows && !Live(c, s.rows[id]) && Holders(s.workers, id) == 0
  }

  lemma TouchedIsHeld(c: Config, s: State, w: nat, op: WorkerOp, id: EventId)
    requires WorkerEnabled(c, s, w, op) && id in Touched(s, w, op)
    ensures Holders(s.workers, id) > 0
  {
    assert id in Held(s.workers[w]);
    HoldersBounds(s.workers, id);
  }

  lemma StepKeepsSettled(c: Config, s: State, a: Action, id: EventId)
    requires Enabled(c, s, a) && Inv(c, s) && Settled(c, s, id)
    ensures Settled(c, Step(c, s, a), id) && Step(c, s, a).rows[id] == s.rows[id]
  {
    match a
    case OfWorker(w, op) =>
      WorkerRows(c, s, w, op);
      if id in Touched(s, w, op) {
        TouchedIsHeld(c, s, w, op, id);
      }
      ClaimingAddsHolders(c, s, w, op, id);
    case OfCall(k, op) =>
      if op.Commit? {
        CommitRows(c, s, k);
      }
    case Tick(_) =>
    case AccountConsumes(_) =>
  }

  /** A settled row never changes again, in any column, whatever the workers do. */
  lemma {:induction false} SettledIsFrozen(c: Config, s: State, run: seq<Action>, id: EventId)
    requires ValidRun(c, s, run) && Inv(c, s) && Settled(c, s, id)
    ensures id in Exec(c, s, run).rows && Exec(c, s, run).rows[id] == s.rows[id]
    decreases |run|
  {
    if run != [] {
      StepInv(c, s, run[0]);
      StepKeepsSettled(c, s, run[0], id);
      SettledIsFrozen(c, Step(c, s, run[0]), run[1..], id);
    }
  }

  /** A row at the threshold with no outstanding claim stays as it is for ever. */
  lemma DeadLetterFrozen(c: Config, run: seq<Action>, later: seq<Action>, id: EventId)
    requires ValidRun(c, Init(c), run) && ValidRun(c, Exec(c, Init(c), run), later)
    requires id in Exec(c, Init(c), run).rows
    requires Exec(c, Init(c), run).rows[id].failureCount >= c.threshold
    requires Holders(Exec(c, Init(c), run).workers, id) == 0
    ensures var s := Exec(c, Init(c), run);
            id in Exec(c, s, later).rows && Exec(c, s, later).rows[id] == s.rows[id]
  {
    ReachableInv(c, run);
    SettledIsFrozen(c, Exec(c, Init(c), run), later, id);
  }

  // ------------------------------------------- published rows carry no error

  ghost predicate PublishedClean(s: State) {
    forall id | id in s.rows && s.rows[id].publishedAt.Some? ::
      s.rows[id].lastError.None? && Holders(s.workers, id) == 0
  }

  /** Marking clears the error and gives up the only claim. */
  lemma MarkCleans(c: Config, s: State, w: nat, op: WorkerOp, id: EventId)
    requires WorkerEnabled(c, s, w, op) && WorkersOk(c, s) && Exclusive(s)
    requires (op.MarkOk? || op.MarkLost?) && s.workers[w].batch[0].eventId == id && id in s.rows
    ensures WorkerStep(c, s, w, op).rows[id].lastError.None?
    ensures Holders(WorkerStep(c, s, w, op).workers, id) == 0
  {
    assert id in Held(s.workers[w]);
    ActorHeld(c, s, w, op);
    HoldersUpdate(s.workers, w, WorkerStep(c, s, w, op).workers[w], id);
  }

  lemma WorkerKeepsClean(c: Config, s: State, w: nat, op: WorkerOp, id: EventId)
    requires WorkerEnabled(c, s, w, op) && Inv(c, s) && Exclusive(s) && PublishedClean(s)
    requires id in s.rows && id in WorkerStep(c, s, w, op).rows && WorkerStep(c, s, w, op).rows[id].publishedAt.Some?
    ensures var s' := WorkerStep(c, s, w, op);
            s'.rows[id].lastError.None? && Holders(s'.workers, id) == 0
  {
    if s.rows[id].publishedAt.Some? {
      StepKeepsSettled(c, s, OfWorker(w, op), id);
    } else {
      WorkerPublishes(c, s, w, op, id);
      MarkCleans(c, s, w, op, id);
    }
  }

  lemma StepKeepsClean(c: Config, s: State, a: Action)
    requires Enabled(c, s, a) && Inv(c, s) && Exclusive(s) && PublishedClean(s)
    ensures PublishedClean(Step(c, s, a))
  {
    var s' := Step(c, s, a);
    match a
    case OfWorker(w, op) =>
      WorkerRows(c, s, w, op);
      forall id | id in s'.rows && s'.rows[id].publishedAt.Some?
        ensures s'.rows[id].lastError.None? && Holders(s'.workers, id) == 0
      {
        WorkerKeepsClean(c, s, w, op, id);
      }
    case OfCall(k, op) =>
      if op.Commit? {
        CommitRows(c, s, k);
        forall id | id in s'.rows && id !in s.rows
          ensures s'.rows[id].publishedAt.None?
        {
          var i :| 0 <= i < |s.calls[k].events| && s.calls[k].events[i].eventId == id;
          assert s'.rows[id] == NewRow(s.calls[k].events[i], s.calls[k].begun.value);
        }
      }
    case Tick(_) =>
    case AccountConsumes(_) =>
  }

  lemma {:induction false} RunKeepsClean(c: Config, s: State, run: seq<Action>)
    requires ValidRun(c, s, run) && Inv(c, s) && PublishedClean(s) && ExclusiveRun(c, s, run)
    ensures PublishedClean(Exec(c, s, run))
    decreases |run|
  {
    if run != [] {
      StepKeepsClean(c, s, run[0]);
      StepInv(c, s, run[0]);
      RunKeepsClean(c, Step(c, s, run[0]), run[1..]);
    }
  }

  /** With exclusive claims a published row shows no error and will never change again. */
  lemma PublishedHasNoError(c: Config, run: seq<Action>, id: EventId)
    requires ValidRun(c, Init(c), run) && ExclusiveRun(c, Init(c), run)
    requires id in Exec(c, Init(c), run).rows && Exec(c, Init(c), run).rows[id].publishedAt.Some?
    ensures Exec(c, Init(c), run).rows[id].lastError.None?
    ensures Settled(c, Exec(c, Init(c), run), id)
  {
    InitInv(c);
    RunKeepsClean(c, Init(c), run);
  }
}
