/**
 * When an event row was created: an observer who only watches transactions
 * begin and commit knows every row's creation time, and the claim order
 * follows it.
 */
module OutboxCreation {
  import opened OutboxModel
  import opened OutboxInvariant

  /** When each transaction began, and when the one that committed each event had begun. */
  datatype Notes = Notes(begins: map<CallId, Time>, committed: map<EventId, Time>)

  const NO_NOTES := Notes(map[], map[])

  /** What the observer writes down as the action happens in s; the table is never looked at. */
  ghost function Note(s: State, a: Action, n: Notes): Notes {
    if a.OfCall? && a.cop.BeginTx? then n.(begins := n.begins[a.call := s.clock])
    else if a.OfCall? && a.cop.Commit? && a.call in s.calls && a.call in n.begins then
      var ids := IdsOf(s.calls[a.call].events);
      n.(committed := map id | id in n.committed.Keys + ids ::
                        if id in ids then n.begins[a.call] else n.committed[id])
    else n
  }

  ghost function Observed(c: Config, s: State, run: seq<Action>, n: Notes): Notes
    requires ValidRun(c, s, run)
    decreases |run|
  {
    if run == [] then n else Observed(c, Step(c, s, run[0]), run[1..], Note(s, run[0], n))
  }

  ghost predicate RowsNoted(s: State, n: Notes) {
    forall id | id in s.rows :: id in n.committed && s.rows[id].createdAt == n.committed[id]
  }

  ghost predicate CallsNoted(s: State, n: Notes) {
    forall k | k in s.calls && s.calls[k].begun.Some? :: k in n.begins && s.calls[k].begun.value == n.begins[k]
  }

  lemma WorkerKeepsNotes(c: Config, s: State, w: nat, op: WorkerOp, n: Notes)
    requires WorkerEnabled(c, s, w, op) && RowsOk(s) && WorkersOk(c, s) && RowsNoted(s, n) && CallsNoted(s, n)
    ensures RowsNoted(WorkerStep(c, s, w, op), n) && CallsNoted(WorkerStep(c, s, w, op), n)
  {
    WorkerRows(c, s, w, op);
  }

  lemma CommitIsNoted(c: Config, s: State, k: CallId, n: Notes)
    requires CallEnabled(c, s, k, Commit) && CallsOk(s) && RowsNoted(s, n) && CallsNoted(s, n)
    ensures RowsNoted(CallStep(c, s, k, Commit), Note(s, OfCall(k, Commit), n))
    ensures CallsNoted(CallStep(c, s, k, Commit), Note(s, OfCall(k, Commit), n))
  {
    CommitRows(c, s, k);
    var s', events := CallStep(c, s, k, Commit), s.calls[k].events;
    var n' := Note(s, OfCall(k, Commit), n);
    forall id | id in s'.rows
      ensures id in n'.committed && s'.rows[id].createdAt == n'.committed[id]
    {
      if id in IdsOf(events) {
        var i :| 0 <= i < |events| && events[i].eventId == id;
        assert s'.rows[events[i].eventId].createdAt == s.calls[k].begun.value;
      }
    }
  }

  lemma CallIsNoted(c: Config, s: State, k: CallId, op: CallOp, n: Notes)
    requires CallEnabled(c, s, k, op) && !op.Commit? && RowsNoted(s, n) && CallsNoted(s, n)
    ensures RowsNoted(CallStep(c, s, k, op), Note(s, OfCall(k, op), n))
    ensures CallsNoted(CallStep(c, s, k, op), Note(s, OfCall(k, op), n))
  {
    CallFrame(c, s, k, op);
    var s' := CallStep(c, s, k, op);
    forall j | j in s'.calls && s'.calls[j].begun.Some?
      ensures j in Note(s, OfCall(k, op), n).begins
      ensures s'.calls[j].begun.value == Note(s, OfCall(k, op), n).begins[j]
    {
      OnlyActorChanges(c, s, k, op, if j == k then k + 1 else j);
    }
  }

  lemma StepIsNoted(c: Config, s: State, a: Action, n: Notes)
    requires Enabled(c, s, a) && RowsOk(s) && WorkersOk(c, s) && CallsOk(s) && RowsNoted(s, n) && CallsNoted(s, n)
    ensures RowsNoted(Step(c, s, a), Note(s, a, n)) && CallsNoted(Step(c, s, a), Note(s, a, n))
  {
    match a
    case OfWorker(w, op) => WorkerKeepsNotes(c, s, w, op, n);
    case OfCall(k, op) =>
      if op.Commit? {
        CommitIsNoted(c, s, k, n);
      } else {
        CallIsNoted(c, s, k, op, n);
      }
    case Tick(_) =>
    case AccountConsumes(_) =>
  }

  lemma {:induction false} RunIsNoted(c: Config, s: State, run: seq<Action>, n: Notes)
    requires ValidRun(c, s, run) && Inv(c, s) && RowsNoted(s, n) && CallsNoted(s, n)
    ensures RowsNoted(Exec(c, s, run), Observed(c, s, run, n))
    decreases |run|
  {
    if run != [] {
      StepIsNoted(c, s, run[0], n);
      StepInv(c, s, run[0]);
      RunIsNoted(c, Step(c, s, run[0]), run[1..], Note(s, run[0], n));
    }
  }

  /** On every run, each row was created at the moment its transaction began. */
  lemma CreatedWhenBegun(c: Config, run: seq<Action>, id: EventId)
    requires ValidRun(c, Init(c), run) && id in Exec(c, Init(c), run).rows
    ensures id in Observed(c, Init(c), run, NO_NOTES).committed
    ensures Exec(c, Init(c), run).rows[id].createdAt == Observed(c, Init(c), run, NO_NOTES).committed[id]
  {
    InitInv(c);
    RunIsNoted(c, Init(c), run, NO_NOTES);
  }

  /** The row could be taken by a claim now: unpublished, below the threshold, lease over, locked by nobody. */
  predicate MayBeClaimed(c: Config, s: State, id: EventId) {
    && id in s.rows && s.rows[id].publishedAt.None? && s.rows[id].failureCount < c.threshold
    && (s.rows[id].lastAttemptedAt.None?
        || s.rows[id].lastAttemptedAt.value + (c.visibilityNanos / 1_000_000) * 1000 < s.clock)
    && !Locked(s, id)
  }

  /**
   * The order law: of two rows whose transactions began one after the other, no
   * claim that could take both takes the newer and leaves the older.
   */
  lemma OlderClaimedFirst(c: Config, run: seq<Action>, w: nat, ids: set<EventId>, older: EventId, newer: EventId)
    requires ValidRun(c, Init(c), run) && WorkerEnabled(c, Exec(c, Init(c), run), w, ClaimLock(ids))
    requires MayBeClaimed(c, Exec(c, Init(c), run), older) && MayBeClaimed(c, Exec(c, Init(c), run), newer)
    requires var times := Observed(c, Init(c), run, NO_NOTES).committed;
             older in times && newer in times && times[older] < times[newer]
    ensures newer in ids ==> older in ids
  {
    CreatedWhenBegun(c, run, older);
    CreatedWhenBegun(c, run, newer);
    var s := Exec(c, Init(c), run);
    assert older in Available(c, s) && newer in Available(c, s);
  }
}
