/** Onboarding over the outbox: once per player, caused by a faction choice, one effect downstream. */
module Onboarding {
  import opened OutboxModel
  import opened OutboxInvariant

  // --------------------------------------------------------- once per player

  /**
   * In every committed state a player is in player_onboarding exactly when
   * exactly one player_onboarded row names that player. UUIDs may clash: a
   * clash rolls both writes back.
   */
  lemma OncePerPlayer(c: Config, run: seq<Action>, p: PlayerId)
    requires ValidRun(c, Init(c), run)
    ensures var s := Exec(c, Init(c), run);
            p in s.onboarded <==>
              exists id :: id in s.rows && Names(s.rows[id], p)
                           && forall other :: other in s.rows && Names(s.rows[other], p) ==> other == id
    ensures var s := Exec(c, Init(c), run);
            p !in s.onboarded ==> forall id :: id in s.rows ==> !Names(s.rows[id], p)
  {
    ReachableInv(c, run);
    var s := Exec(c, Init(c), run);
    if p in s.onboarded {
      var id :| id in s.rows && Names(s.rows[id], p);
      assert forall other :: other in s.rows && Names(s.rows[other], p) ==> other == id;
    }
  }

  // --------------------------------------------------------------- causality

  predicate ChoiceIn(log: seq<Message>, p: PlayerId, f: string) {
    exists k :: 0 <= k < |log| && ChoiceMessage(log[k], p, f)
  }

  predicate ChoiceMessage(m: Message, p: PlayerId, f: string) {
    m.payload.FactionSet? && m.payload.playerId == p && m.payload.initialFactionId == f
  }

  ghost predicate PayloadCaused(c: Config, s: State, p: Payload) {
    match p
    case NameSet(_, _, _, _) => true
    case FactionSet(_, _, _, f) => f in c.selectable
    case Onboarded(_, _, player, f) => f in c.selectable && ChoiceIn(s.broker, player, f)
  }

  ghost predicate CallsCaused(c: Config, s: State) {
    forall k | k in s.calls :: forall i | 0 <= i < |s.calls[k].events| :: PayloadCaused(c, s, s.calls[k].events[i].payload)
  }

  ghost predicate RowsCaused(c: Config, s: State) {
    forall id | id in s.rows :: PayloadCaused(c, s, s.rows[id].payload)
  }

  ghost predicate AccountCaused(c: Config, s: State) {
    forall p | p in s.account :: s.account[p] in c.selectable && ChoiceIn(s.broker, p, s.account[p])
  }

  /** Every player_onboarded message comes after a faction-set message for the same player and faction. */
  ghost predicate LogCaused(c: Config, log: seq<Message>) {
    forall k | 0 <= k < |log| && log[k].payload.Onboarded? ::
      && log[k].payload.initialFactionId in c.selectable
      && ChoiceIn(log[..k], log[k].payload.playerId, log[k].payload.initialFactionId)
  }

  ghost predicate Caused(c: Config, s: State) {
    CallsCaused(c, s) && RowsCaused(c, s) && AccountCaused(c, s) && LogCaused(c, s.broker)
  }

  lemma ChoiceGrows(log: seq<Message>, log': seq<Message>, p: PlayerId, f: string)
    requires log <= log' && ChoiceIn(log, p, f)
    ensures ChoiceIn(log', p, f)
  {
    var k :| 0 <= k < |log| && ChoiceMessage(log[k], p, f);
    assert log'[k] == log[k];
  }

  lemma CausedGrows(c: Config, s: State, s': State, p: Payload)
    requires s.broker <= s'.broker && PayloadCaused(c, s, p)
    ensures PayloadCaused(c, s', p)
  {
    if p.Onboarded? {
      ChoiceGrows(s.broker, s'.broker, p.playerId, p.initialFactionId);
    }
  }

  /** The account learns a faction only from a message that is in the log. */
  lemma AccountKeepsCaused(c: Config, s: State, k: nat)
    requires Enabled(c, s, AccountConsumes(k)) && Inv(c, s) && Caused(c, s)
    ensures Caused(c, Step(c, s, AccountConsumes(k)))
  {
    var s' := Step(c, s, AccountConsumes(k));
    var m := s.broker[k];
    assert m in s.broker;
    assert PayloadCaused(c, s, s.rows[m.payload.eventId].payload);
    assert ChoiceMessage(m, m.payload.playerId, m.payload.initialFactionId);
    CallsStayCaused(c, s, s');
    forall id | id in s'.rows
      ensures PayloadCaused(c, s', s'.rows[id].payload)
    {
      CausedGrows(c, s, s', s.rows[id].payload);
    }
  }

  lemma CallsStayCaused(c: Config, s: State, s': State)
    requires CallsCaused(c, s) && s.broker <= s'.broker
    requires forall k | k in s'.calls :: k in s.calls && s'.calls[k].events == s.calls[k].events
    ensures CallsCaused(c, s')
  {
    forall k, i | k in s'.calls && 0 <= i < |s'.calls[k].events|
      ensures PayloadCaused(c, s', s'.calls[k].events[i].payload)
    {
      CausedGrows(c, s, s', s.calls[k].events[i].payload);
    }
  }

  lemma StartKeepsCaused(c: Config, s: State, k: CallId, op: CallOp)
    requires op.StartUpdateName? || op.StartSelectFaction? || op.StartComplete?
    requires CallEnabled(c, s, k, op) && Caused(c, s)
    ensures Caused(c, CallStep(c, s, k, op))
  {
    var s' := CallStep(c, s, k, op);
    forall j, i | j in s'.calls && 0 <= i < |s'.calls[j].events|
      ensures PayloadCaused(c, s', s'.calls[j].events[i].payload)
    {
      if j != k {
        CausedGrows(c, s, s', s.calls[j].events[i].payload);
      }
    }
    forall id | id in s'.rows
      ensures PayloadCaused(c, s', s'.rows[id].payload)
    {
      CausedGrows(c, s, s', s.rows[id].payload);
    }
  }

  lemma OtherCallKeepsCaused(c: Config, s: State, k: CallId, op: CallOp)
    requires !op.StartUpdateName? && !op.StartSelectFaction? && !op.StartComplete? && !op.Commit?
    requires CallEnabled(c, s, k, op) && Caused(c, s)
    ensures Caused(c, CallStep(c, s, k, op))
  {
    var s' := CallStep(c, s, k, op);
    CallsStayCaused(c, s, s');
    forall id | id in s'.rows
      ensures PayloadCaused(c, s', s'.rows[id].payload)
    {
      CausedGrows(c, s, s', s.rows[id].payload);
    }
  }

  lemma CommitKeepsCaused(c: Config, s: State, k: CallId)
    requires CallEnabled(c, s, k, Commit) && Inv(c, s) && Caused(c, s)
    ensures Caused(c, CallStep(c, s, k, Commit))
  {
    var s' := CallStep(c, s, k, Commit);
    CommitRows(c, s, k);
    CallsStayCaused(c, s, s');
    forall id | id in s'.rows
      ensures PayloadCaused(c, s', s'.rows[id].payload)
    {
      if id in s.rows {
        CausedGrows(c, s, s', s.rows[id].payload);
      } else {
        var i :| 0 <= i < |s.calls[k].events| && s.calls[k].events[i].eventId == id;
        assert s'.rows[id] == NewRow(s.calls[k].events[i], s.calls[k].begun.value);
        CausedGrows(c, s, s', s.calls[k].events[i].payload);
      }
    }
  }

  lemma LogGrowsCaused(c: Config, s: State, m: Message)
    requires LogCaused(c, s.broker) && PayloadCaused(c, s, m.payload)
    ensures LogCaused(c, s.broker + [m])
  {
    var log := s.broker + [m];
    forall k | 0 <= k < |log| && log[k].payload.Onboarded?
      ensures log[k].payload.initialFactionId in c.selectable
      ensures ChoiceIn(log[..k], log[k].payload.playerId, log[k].payload.initialFactionId)
    {
      if k < |s.broker| {
        assert log[..k] == s.broker[..k];
      } else {
        assert log[..k] == s.broker;
      }
    }
  }

  lemma WorkerKeepsCaused(c: Config, s: State, w: nat, op: WorkerOp)
    requires WorkerEnabled(c, s, w, op) && Inv(c, s) && Caused(c, s)
    ensures Caused(c, WorkerStep(c, s, w, op))
  {
    var s' := WorkerStep(c, s, w, op);
    var x := s.workers[w];
    WorkerRows(c, s, w, op);
    assert WorkerOk(c, s, x);
    CallsStayCaused(c, s, s');
    forall id | id in s'.rows
      ensures PayloadCaused(c, s', s'.rows[id].payload)
    {
      CausedGrows(c, s, s', s.rows[id].payload);
    }
    forall p | p in s'.account
      ensures ChoiceIn(s'.broker, p, s'.account[p])
    {
      ChoiceGrows(s.broker, s'.broker, p, s.account[p]);
    }
    if op.PublishOk? || op.PublishUnknown? {
      assert ClaimedOk(s.rows, x.at, x.batch[0]);
      LogGrowsCaused(c, s, Message(x.batch[0].eventType, x.batch[0].payload));
    }
  }

  lemma StepKeepsCaused(c: Config, s: State, a: Action)
    requires Enabled(c, s, a) && Inv(c, s) && Caused(c, s)
    ensures Caused(c, Step(c, s, a))
  {
    match a
    case OfWorker(w, op) => WorkerKeepsCaused(c, s, w, op);
    case OfCall(k, op) =>
      if op.Commit? {
        CommitKeepsCaused(c, s, k);
      } else if op.StartUpdateName? || op.StartSelectFaction? || op.StartComplete? {
        StartKeepsCaused(c, s, k, op);
      } else {
        OtherCallKeepsCaused(c, s, k, op);
      }
    case Tick(_) =>
      var s' := Step(c, s, a);
      CallsStayCaused(c, s, s');
      forall id | id in s'.rows
        ensures PayloadCaused(c, s', s'.rows[id].payload)
      {
        CausedGrows(c, s, s', s.rows[id].payload);
      }
    case AccountConsumes(k) => AccountKeepsCaused(c, s, k);
  }

  lemma {:induction false} RunKeepsCaused(c: Config, s: State, run: seq<Action>)
    requires ValidRun(c, s, run) && Inv(c, s) && Caused(c, s)
    ensures Caused(c, Exec(c, s, run))
    decreases |run|
  {
    if run != [] {
      StepKeepsCaused(c, s, run[0]);
      StepInv(c, s, run[0]);
      RunKeepsCaused(c, Step(c, s, run[0]), run[1..]);
    }
  }

  /**
   * Each player_onboarded message has an earlier faction-set message for the
   * same player and faction, and that faction is selectable, although the
   * service reads the faction before its transaction starts.
   */
  lemma Causality(c: Config, run: seq<Action>, k: nat)
    requires ValidRun(c, Init(c), run)
    requires k < |Exec(c, Init(c), run).broker| && Exec(c, Init(c), run).broker[k].payload.Onboarded?
    ensures var log := Exec(c, Init(c), run).broker;
            && log[k].payload.initialFactionId in c.selectable
            && exists j :: 0 <= j < k && ChoiceMessage(log[j], log[k].payload.playerId, log[k].payload.initialFactionId)
  {
    InitInv(c);
    RunKeepsCaused(c, Init(c), run);
    var log := Exec(c, Init(c), run).broker;
    assert ChoiceIn(log[..k], log[k].payload.playerId, log[k].payload.initialFactionId);
    var j :| 0 <= j < k && ChoiceMessage(log[..k][j], log[k].payload.playerId, log[k].payload.initialFactionId);
    assert log[j] == log[..k][j];
  }

  // ------------------------------------------------- one effect per player

  /** A consumer that drops a message whose event id it has already processed. */
  function Deduplicate(deliveries: seq<Message>, processed: set<EventId>): (kept: seq<Message>)
    decreases |deliveries|
  {
    if deliveries == [] then []
    else if deliveries[0].payload.eventId in processed then Deduplicate(deliveries[1..], processed)
    else [deliveries[0]] + Deduplicate(deliveries[1..], processed + {deliveries[0].payload.eventId})
  }

  lemma {:induction false} DeduplicateDrawsFrom(deliveries: seq<Message>, processed: set<EventId>)
    ensures forall m | m in Deduplicate(deliveries, processed) :: m in deliveries && m.payload.eventId !in processed
    decreases |deliveries|
  {
    if deliveries != [] {
      DeduplicateDrawsFrom(deliveries[1..], processed);
      DeduplicateDrawsFrom(deliveries[1..], processed + {deliveries[0].payload.eventId});
    }
  }

  ghost predicate DistinctIds(log: seq<Message>) {
    forall i, j | 0 <= i < j < |log| :: log[i].payload.eventId != log[j].payload.eventId
  }

  lemma {:induction false} DeduplicateOnce(deliveries: seq<Message>, processed: set<EventId>)
    ensures DistinctIds(Deduplicate(deliveries, processed))
    decreases |deliveries|
  {
    if deliveries != [] {
      var id := deliveries[0].payload.eventId;
      if id in processed {
        DeduplicateOnce(deliveries[1..], processed);
      } else {
        var rest := Deduplicate(deliveries[1..], processed + {id});
        DeduplicateOnce(deliveries[1..], processed + {id});
        DeduplicateDrawsFrom(deliveries[1..], processed + {id});
        assert forall j | 0 <= j < |rest| :: rest[j] in rest && rest[j].payload.eventId != id;
      }
    }
  }

  /** No event is dropped altogether: each unprocessed id keeps a message. */
  lemma {:induction false} DeduplicateKeeps(deliveries: seq<Message>, processed: set<EventId>, m: Message)
    requires m in deliveries && m.payload.eventId !in processed
    ensures exists n :: n in Deduplicate(deliveries, processed) && n.payload.eventId == m.payload.eventId
    decreases |deliveries|
  {
    var id := deliveries[0].payload.eventId;
    if m.payload.eventId == id {
      assert deliveries[0] in Deduplicate(deliveries, processed);
    } else if id in processed {
      DeduplicateKeeps(deliveries[1..], processed, m);
    } else {
      DeduplicateKeeps(deliveries[1..], processed + {id}, m);
      var n :| n in Deduplicate(deliveries[1..], processed + {id}) && n.payload.eventId == m.payload.eventId;
      assert n in Deduplicate(deliveries, processed);
    }
  }

  /** Duplicates in the broker log with one event id are the same message, and the id is the row's own. */
  lemma DuplicatesAgree(c: Config, run: seq<Action>, i: nat, j: nat)
    requires ValidRun(c, Init(c), run)
    requires i < |Exec(c, Init(c), run).broker| && j < |Exec(c, Init(c), run).broker|
    requires Exec(c, Init(c), run).broker[i].payload.eventId == Exec(c, Init(c), run).broker[j].payload.eventId
    ensures var s := Exec(c, Init(c), run);
            && s.broker[i] == s.broker[j]
            && s.broker[i].payload.eventId in s.rows
            && s.rows[s.broker[i].payload.eventId].payload.eventId == s.broker[i].payload.eventId
            && s.broker[i].eventType == EventTypeOf(s.broker[i].payload)
  {
    ReachableInv(c, run);
    var s := Exec(c, Init(c), run);
    assert s.broker[i] in s.broker && s.broker[j] in s.broker;
    assert RowOk(s, s.broker[i].payload.eventId, s.rows[s.broker[i].payload.eventId]);
  }

  /** On every run a message, and the row it comes from, carries the wire name that belongs to its payload. */
  lemma WireNames(c: Config, run: seq<Action>, m: Message)
    requires ValidRun(c, Init(c), run) && m in Exec(c, Init(c), run).broker
    ensures m.payload.eventId in Exec(c, Init(c), run).rows
    ensures m.eventType == Exec(c, Init(c), run).rows[m.payload.eventId].eventType
    ensures m.payload.NameSet? <==> m.eventType == "onboarding_name_set"
    ensures m.payload.FactionSet? <==> m.eventType == "onboarding_faction_set"
    ensures m.payload.Onboarded? <==> m.eventType == "player_onboarded"
  {
    ReachableInv(c, run);
    var s := Exec(c, Init(c), run);
    assert RowOk(s, m.payload.eventId, s.rows[m.payload.eventId]);
    NamesDiffer();
  }

  lemma NamesDiffer()
    ensures "onboarding_name_set" != "onboarding_faction_set" && "onboarding_name_set" != "player_onboarded"
    ensures "onboarding_faction_set" != "player_onboarded"
  {
    assert "onboarding_name_set"[11] == 'n' && "onboarding_faction_set"[11] == 'f' && "player_onboarded"[0] == 'p';
    assert "onboarding_name_set"[0] == 'o' && "onboarding_faction_set"[0] == 'o';
  }

  /**
   * However the broker repeats and reorders what it accepted, a consumer that
   * de-duplicates by event id sees at most one player_onboarded per player.
   */
  lemma SingleEffect(c: Config, run: seq<Action>, deliveries: seq<Message>, i: nat, j: nat)
    requires ValidRun(c, Init(c), run)
    requires forall m | m in deliveries :: m in Exec(c, Init(c), run).broker
    requires i < j < |Deduplicate(deliveries, {})|
    requires Deduplicate(deliveries, {})[i].payload.Onboarded? && Deduplicate(deliveries, {})[j].payload.Onboarded?
    ensures Deduplicate(deliveries, {})[i].payload.playerId != Deduplicate(deliveries, {})[j].payload.playerId
  {
    ReachableInv(c, run);
    DeduplicateDrawsFrom(deliveries, {});
    DeduplicateOnce(deliveries, {});
    var s := Exec(c, Init(c), run);
    var m, n := Deduplicate(deliveries, {})[i], Deduplicate(deliveries, {})[j];
    assert m in Deduplicate(deliveries, {}) && n in Deduplicate(deliveries, {});
    assert m in s.broker && n in s.broker;
    assert Names(s.rows[n.payload.eventId], m.payload.playerId) ==> m.payload.eventId == n.payload.eventId;
  }
}
