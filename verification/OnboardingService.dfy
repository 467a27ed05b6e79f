/**
 * The onboarding commands as they are written: transactions over two tables
 * updated in place, and the service methods that decide which events exist.
 * Every statement also takes one action of the system model. Transactions of
 * other sessions may be open all the while.
 */
module OnboardingService {
  import opened Wrappers
  import opened OutboxModel
  import opened OutboxInvariant
  import opened SharedWorld

  datatype RepoError = RepoAlreadyOnboarded | RepoFailed

  /** Where a transaction meets trouble of the store's own making, if anywhere; statements count from 0. */
  datatype TxFault = BeginFails | StatementFails(at: nat) | CommitEnds(how: Fault) {
    /** One of the first n statements fails. */
    predicate StopsWithin(n: nat) {
      StatementFails? && at < n
    }

    /** After n statements the COMMIT is sent and takes effect. */
    predicate LetsCommit(n: nat) {
      !BeginFails? && !StopsWithin(n) && this != CommitEnds(NotApplied)
    }

    function AtCommit(): Fault {
      if CommitEnds? then how else NoFault
    }
  }

  /** Every key is free: not in the table, and none of them twice. */
  ghost predicate FreshKeys(rows: Table, events: seq<OutboxEvent>) {
    && (forall i | 0 <= i < |events| :: events[i].eventId !in rows)
    && (forall i, j | 0 <= i < j < |events| :: events[i].eventId != events[j].eventId)
  }

  lemma FreshNext(rows: Table, events: seq<OutboxEvent>, i: nat)
    requires i < |events|
    ensures FreshKeys(rows, events[..i + 1]) <==>
              && FreshKeys(rows, events[..i]) && events[i].eventId !in rows
              && forall j | 0 <= j < i :: events[j].eventId != events[i].eventId
    ensures FreshKeys(rows, events) ==> FreshKeys(rows, events[..i + 1])
  {
    assert events[..i + 1] == events[..i] + [events[i]];
  }

  /** This call is under way, at this point. */
  ghost predicate Open(s: State, k: CallId, call: Call) {
    k in s.calls && s.calls[k] == call
  }

  /** No other open transaction has staged one of these keys; a statement that met one would wait for it to end. */
  ghost predicate NotStaged(s: State, k: CallId, events: seq<OutboxEvent>) {
    forall i | 0 <= i < |events| :: !IdLocked(s, k, events[i].eventId)
  }

  /** The same state with one call moved on, or gone. */
  ghost function WithCall(s: State, k: CallId, call: Option<Call>): State {
    s.(calls := if call.Some? then s.calls[k := call.value] else Remove(s.calls, k))
  }

  lemma OthersStay(s: State, k: CallId, call: Call, id: EventId)
    ensures IdLocked(WithCall(s, k, Some(call)), k, id) <==> IdLocked(s, k, id)
  {
    var s' := WithCall(s, k, Some(call));
    assert forall j | j != k :: (j in s'.calls <==> j in s.calls) && (j in s.calls ==> s'.calls[j] == s.calls[j]);
  }

  lemma CallMovesOn(s: State, k: CallId, a: Call, b: Option<Call>)
    ensures WithCall(WithCall(s, k, Some(a)), k, b) == WithCall(s, k, b)
  {
    if b.None? {
      assert Remove(s.calls[k := a], k) == Remove(s.calls, k);
    }
  }

  lemma CallEnds(s: State, k: CallId, a: Call)
    requires k !in s.calls
    ensures WithCall(WithCall(s, k, Some(a)), k, None) == s
  {
    assert Remove(s.calls[k := a], k) == s.calls;
  }

  class OnboardingRepository {
    const world: World

    constructor (world: World)
      ensures this.world == world
    {
      this.world := world;
    }

    /** writeOutboxEvent: one INSERT; a key that is in the table or already staged fails the transaction. */
    method WriteOutboxEvent(events: seq<OutboxEvent>, i: nat, fails: bool, ghost k: CallId, ghost call: Call)
      returns (ok: bool)
      requires world.Valid() && i < |events| && Open(world.trace.s, k, call)
      requires call.events == events && call.written == i
      requires call.begun.Some? && (call.key.Some? ==> call.keyStaged)
      requires !IdLocked(world.trace.s, k, events[i].eventId)
      modifies world`trace
      ensures world.Valid()
      ensures ok <==> !fails && events[i].eventId !in world.rows
                      && forall j | 0 <= j < i :: events[j].eventId != events[i].eventId
      ensures world.trace.s == WithCall(old(world.trace).s, k, if ok then Some(call.(written := i + 1)) else None)
    {
      if fails {
        world.Do(OfCall(k, Rollback));
        return false;
      }
      world.Do(OfCall(k, WriteEvent));
      ok := events[i].eventId !in world.rows && forall j | 0 <= j < i :: events[j].eventId != events[i].eventId;
    }

    /** The loop of writeOutboxEvent calls inside one transaction, after `before` other statements. */
    method StageEvents(events: seq<OutboxEvent>, before: nat, fault: TxFault, ghost k: CallId, ghost call: Call)
      returns (ok: bool)
      requires world.Valid() && Open(world.trace.s, k, call) && call.events == events
      requires call.begun.Some? && call.written == 0 && (call.key.Some? ==> call.keyStaged)
      requires !fault.StopsWithin(before) && NotStaged(world.trace.s, k, events)
      modifies world`trace
      ensures world.Valid()
      ensures ok <==> FreshKeys(world.rows, events) && !fault.StopsWithin(before + |events|)
      ensures world.trace.s == WithCall(old(world.trace).s, k, if ok then Some(call.(written := |events|)) else None)
    {
      ghost var s0 := world.trace.s;
      assert s0.calls[k := call] == s0.calls;
      var i := 0;
      while i < |events|
        invariant 0 <= i <= |events|
        invariant world.Valid() && world.trace.s == WithCall(s0, k, Some(call.(written := i)))
        invariant FreshKeys(world.rows, events[..i]) && !fault.StopsWithin(before + i)
      {
        OthersStay(s0, k, call.(written := i), events[i].eventId);
        FreshNext(world.rows, events, i);
        ok := WriteOutboxEvent(events, i, fault == StatementFails(before + i), k, call.(written := i));
        CallMovesOn(s0, k, call.(written := i), if ok then Some(call.(written := i + 1)) else None);
        if !ok {
          return;
        }
        i := i + 1;
      }
      assert events[..i] == events;
      return true;
    }

    /** The staged event rows become visible, one after the other. */
    method ShowRows(events: seq<OutboxEvent>, createdAt: Time)
      modifies world`rows
      ensures world.rows == AddRows(old(world.rows), events, createdAt)
    {
      var i := 0;
      assert events[0..] == events;
      while i < |events|
        invariant 0 <= i <= |events|
        invariant AddRows(world.rows, events[i..], createdAt) == AddRows(old(world.rows), events, createdAt)
      {
        assert events[i..][1..] == events[i + 1..];
        world.rows := world.rows[events[i].eventId := NewRow(events[i], createdAt)];
        i := i + 1;
      }
    }

    /** COMMIT, with the three things that can come of it. */
    method CommitTx(events: seq<OutboxEvent>, key: Option<PlayerId>, createdAt: Time, fault: Fault, ghost k: CallId)
      returns (ok: bool)
      requires world.Valid() && Open(world.trace.s, k, Call(key, events, Some(createdAt), key.Some?, |events|))
      modifies world`rows, world`onboarded, world`trace
      ensures world.Valid()
      ensures ok <==> fault.NoFault?
      ensures world.rows == if fault.NotApplied? then old(world.rows) else AddRows(old(world.rows), events, createdAt)
      ensures world.onboarded == if fault.NotApplied? then old(world.onboarded) else old(world.onboarded) + KeySet(key)
      ensures world.trace.s ==
                WithCall(old(world.trace).s, k, None).(rows := world.rows, onboarded := world.onboarded)
    {
      if fault.NotApplied? {
        world.Do(OfCall(k, Rollback));
        return false;
      }
      world.Do(OfCall(k, Commit));
      ShowRows(events, createdAt);
      if key.Some? {
        world.onboarded := world.onboarded + {key.value};
      }
      return fault.NoFault?;
    }

    /** The event rows and the COMMIT, which both kinds of transaction end with. */
    method WriteAndCommit(events: seq<OutboxEvent>, key: Option<PlayerId>, createdAt: Time, before: nat, fault: TxFault,
                          ghost k: CallId)
      returns (ok: bool)
      requires world.Valid() && Open(world.trace.s, k, Call(key, events, Some(createdAt), key.Some?, 0))
      requires !fault.BeginFails? && !fault.StopsWithin(before) && NotStaged(world.trace.s, k, events)
      modifies world`rows, world`onboarded, world`trace
      ensures world.Valid()
      ensures world.trace.s ==
                WithCall(old(world.trace).s, k, None).(rows := world.rows, onboarded := world.onboarded)
      ensures var commits := FreshKeys(old(world.rows), events) && fault.LetsCommit(before + |events|);
              && world.rows == (if commits then AddRows(old(world.rows), events, createdAt) else old(world.rows))
              && world.onboarded == (if commits then old(world.onboarded) + KeySet(key) else old(world.onboarded))
              && (ok <==> commits && fault != CommitEnds(ReplyLost))
    {
      ghost var s0, call := world.trace.s, Call(key, events, Some(createdAt), key.Some?, 0);
      var staged := StageEvents(events, before, fault, k, call);
      if !staged {
        return false;
      }
      CallMovesOn(s0, k, call.(written := |events|), None);
      ok := CommitTx(events, key, createdAt, fault.AtCommit(), k);
    }

    /**
     * MarkComplete: the player_onboarding row and every event row, or none of
     * them, wherever the transaction fails; a player who is already there is
     * told so and nothing changes.
     */
    method MarkComplete(playerId: PlayerId, events: seq<OutboxEvent>, fault: TxFault, ghost k: CallId)
      returns (r: Result<(), RepoError>)
      requires world.Valid() && Open(world.trace.s, k, Call(Some(playerId), events, None, false, 0))
      requires !KeyLocked(world.trace.s, k, playerId) && NotStaged(world.trace.s, k, events)
      modifies world`rows, world`onboarded, world`trace
      ensures world.Valid()
      ensures world.trace.s ==
                WithCall(old(world.trace).s, k, None).(rows := world.rows, onboarded := world.onboarded)
      ensures var commits := && playerId !in old(world.onboarded) && FreshKeys(old(world.rows), events)
                             && fault.LetsCommit(1 + |events|);
              && world.rows == (if commits then AddRows(old(world.rows), events, world.clock) else old(world.rows))
              && world.onboarded == (if commits then old(world.onboarded) + {playerId} else old(world.onboarded))
              && (r.Ok? <==> commits && fault != CommitEnds(ReplyLost))
      ensures r == Err(RepoAlreadyOnboarded) <==>
                playerId in old(world.onboarded) && !fault.BeginFails? && fault != StatementFails(0)
      ensures playerId !in old(world.onboarded) && FreshKeys(old(world.rows), events) && fault.LetsCommit(1 + |events|) ==>
                forall i | 0 <= i < |events| ::
                  && events[i].eventId in world.rows
                  && world.rows[events[i].eventId] ==
                       Row(eventType := events[i].eventType, payload := events[i].payload, createdAt := world.clock,
                           publishedAt := None, failureCount := 0, lastError := None, lastAttemptedAt := None)
    {
      ghost var s0 := world.trace.s;
      if fault.BeginFails? {
        world.Do(OfCall(k, Rollback));
        return Err(RepoFailed);
      }
      ghost var begun := BeginTx(events, Some(playerId), k);
      if fault == StatementFails(0) {
        world.Do(OfCall(k, Rollback));
        CallMovesOn(s0, k, begun, None);
        return Err(RepoFailed);
      }
      var inserted := InsertPlayer(playerId, k, begun);
      CallMovesOn(s0, k, begun, if inserted then Some(begun.(keyStaged := true)) else None);
      if !inserted {
        return Err(RepoAlreadyOnboarded);
      }
      StillNotStaged(s0, k, begun.(keyStaged := true), events);
      var ok := WriteAndCommit(events, Some(playerId), world.clock, 1, fault, k);
      CallMovesOn(s0, k, begun.(keyStaged := true), None);
      if FreshKeys(old(world.rows), events) {
        CommitWrites(old(world.rows), events, world.clock);
      }
      return if ok then Ok(()) else Err(RepoFailed);
    }

    /** BEGIN, which fixes the creation time of the rows to come. */
    ghost method BeginTx(events: seq<OutboxEvent>, key: Option<PlayerId>, k: CallId) returns (begun: Call)
      requires world.Valid() && Open(world.trace.s, k, Call(key, events, None, false, 0))
      modifies world`trace
      ensures world.Valid() && begun == Call(key, events, Some(world.clock), false, 0)
      ensures world.trace.s == WithCall(old(world.trace).s, k, Some(begun))
    {
      begun := Call(key, events, Some(world.clock), false, 0);
      world.Do(OfCall(k, OutboxModel.BeginTx));
    }

    /** INSERT INTO player_onboarding: a unique violation ends the transaction. */
    method InsertPlayer(playerId: PlayerId, ghost k: CallId, ghost begun: Call) returns (ok: bool)
      requires world.Valid() && Open(world.trace.s, k, begun)
      requires begun.begun.Some? && begun.key == Some(playerId) && !begun.keyStaged
      requires !KeyLocked(world.trace.s, k, playerId)
      modifies world`trace
      ensures world.Valid() && (ok <==> playerId !in world.onboarded)
      ensures world.trace.s == WithCall(old(world.trace).s, k, if ok then Some(begun.(keyStaged := true)) else None)
    {
      world.Do(OfCall(k, OutboxModel.InsertPlayer));
      return playerId !in world.onboarded;
    }

    /** PublishEvents: all the event rows or none; nothing to do for no events. */
    method PublishEvents(events: seq<OutboxEvent>, fault: TxFault, ghost k: CallId) returns (r: Result<(), RepoError>)
      requires world.Valid()
      requires events != [] ==>
                 Open(world.trace.s, k, Call(None, events, None, false, 0)) && NotStaged(world.trace.s, k, events)
      modifies world`rows, world`onboarded, world`trace
      ensures world.Valid() && world.onboarded == old(world.onboarded)
      ensures events == [] ==> r.Ok? && world.trace == old(world.trace) && world.rows == old(world.rows)
      ensures events != [] ==>
                var commits := FreshKeys(old(world.rows), events) && fault.LetsCommit(|events|);
                && world.trace.s == WithCall(old(world.trace).s, k, None).(rows := world.rows)
                && world.rows == (if commits then AddRows(old(world.rows), events, world.clock) else old(world.rows))
                && (r.Ok? <==> commits && fault != CommitEnds(ReplyLost))
      ensures FreshKeys(old(world.rows), events) && fault.LetsCommit(|events|) ==>
                forall i | 0 <= i < |events| ::
                  && events[i].eventId in world.rows
                  && world.rows[events[i].eventId] ==
                       Row(eventType := events[i].eventType, payload := events[i].payload, createdAt := world.clock,
                           publishedAt := None, failureCount := 0, lastError := None, lastAttemptedAt := None)
    {
      if |events| == 0 {
        return Ok(());
      }
      ghost var s0 := world.trace.s;
      if fault.BeginFails? {
        world.Do(OfCall(k, Rollback));
        return Err(RepoFailed);
      }
      ghost var begun := BeginTx(events, None, k);
      StillNotStaged(s0, k, begun, events);
      var ok := WriteAndCommit(events, None, world.clock, 0, fault, k);
      CallMovesOn(s0, k, begun, None);
      if FreshKeys(old(world.rows), events) {
        CommitWrites(old(world.rows), events, world.clock);
      }
      return if ok then Ok(()) else Err(RepoFailed);
    }
  }

  lemma StillNotStaged(s: State, k: CallId, call: Call, events: seq<OutboxEvent>)
    requires NotStaged(s, k, events)
    ensures NotStaged(WithCall(s, k, Some(call)), k, events)
  {
    forall i | 0 <= i < |events|
      ensures !IdLocked(WithCall(s, k, Some(call)), k, events[i].eventId)
    {
      OthersStay(s, k, call, events[i].eventId);
    }
  }

  // ------------------------------------------------------------- the account

  datatype AccountError = AccountInvalidName | AccountPlayerNotFound | AccountOther

  /** What account knows about one player: the faction, once its message has been consumed. */
  class Account {
    const world: World

    constructor (world: World)
      ensures this.world == world
    {
      this.world := world;
    }

    /** The answer to one read, or the error in place of it. */
    function Answer(playerId: PlayerId, failure: Option<AccountError>): Result<Option<string>, AccountError>
      reads world
    {
      if failure.Some? then Err(failure.value)
      else if playerId in world.selected then Ok(Some(world.selected[playerId]))
      else Ok(None)
    }

    method GetOnboardingPlayer(playerId: PlayerId, failure: Option<AccountError>)
      returns (r: Result<Option<string>, AccountError>)
      ensures r == Answer(playerId, failure)
      ensures r.Ok? && r.value.Some? ==> playerId in world.selected && world.selected[playerId] == r.value.value
    {
      if failure.Some? {
        return Err(failure.value);
      }
      return Ok(if playerId in world.selected then Some(world.selected[playerId]) else None);
    }

    /** The subscriber: a faction-set message sets the player's faction. */
    method Consume(index: nat)
      requires world.Valid() && index < |world.accepted| && world.accepted[index].payload.FactionSet?
      modifies world`selected, world`trace
      ensures world.Valid()
      ensures world.selected == old(world.selected)[world.accepted[index].payload.playerId :=
                                                      world.accepted[index].payload.initialFactionId]
      ensures world.trace.s == old(world.trace).s.(account := world.selected)
    {
      var p := world.accepted[index].payload;
      world.selected := world.selected[p.playerId := p.initialFactionId];
      world.Do(AccountConsumes(index));
    }
  }

  // ------------------------------------------------------------- the service

  /** What the three builders refuse, and what they build otherwise. */
  lemma BuildersSpelled(id: EventId, ts: Time, player: PlayerId, text: string)
    ensures BuildNameSet(id, ts, player, text) ==
              if player == "" || text == "" then Err(EmptyField)
              else Ok(OutboxEvent(id, "onboarding_name_set", NameSet(id, ts, player, text)))
    ensures BuildFactionSet(id, ts, player, text) ==
              if player == "" || text == "" then Err(EmptyField)
              else Ok(OutboxEvent(id, "onboarding_faction_set", FactionSet(id, ts, player, text)))
    ensures BuildOnboarded(id, ts, player, text) ==
              if player == "" || text == "" then Err(EmptyField)
              else Ok(OutboxEvent(id, "player_onboarded", Onboarded(id, ts, player, text)))
  {
  }

  /** In the model a call starts exactly when its command gets as far as its transaction. */
  lemma CallStartsIff(c: Config, s: State, p: PlayerId, text: string, id: EventId, ts: Time)
    ensures StartedCall(c, s, StartUpdateName(p, text, id, ts)).Ok? <==> p != "" && text != ""
    ensures StartedCall(c, s, StartSelectFaction(p, text, id, ts)).Ok? <==> text in c.selectable && p != "" && text != ""
    ensures StartedCall(c, s, StartComplete(p, id, ts)).Ok? <==> p in s.account && s.account[p] != "" && p != ""
    ensures StartedCall(c, s, StartComplete(p, id, ts)) == Err(FactionNotSelected) <==>
              p !in s.account || s.account[p] == ""
    ensures StartedCall(c, s, StartSelectFaction(p, text, id, ts)) == Err(InvalidFaction) <==> text !in c.selectable
  {
  }

  /** What a commit of these events writes, column by column, and that it writes nothing else. */
  lemma CommitWrites(rows: Table, events: seq<OutboxEvent>, begun: Time)
    requires FreshKeys(rows, events)
    ensures var rows' := AddRows(rows, events, begun);
            && (forall i | 0 <= i < |events| ::
                  && events[i].eventId in rows'
                  && rows'[events[i].eventId] == Row(eventType := events[i].eventType, payload := events[i].payload,
                                                     createdAt := begun, publishedAt := None, failureCount := 0,
                                                     lastError := None, lastAttemptedAt := None))
            && (forall id | id in rows :: id in rows' && rows'[id] == rows[id])
            && (forall id | id in rows' && id !in rows :: exists i :: 0 <= i < |events| && events[i].eventId == id)
  {
    AddRowsSpec(rows, events, begun);
    forall id | id in rows
      ensures id !in IdsOf(events)
    {
    }
  }

  lemma AddOneRow(rows: Table, ev: OutboxEvent, t: Time)
    ensures AddRows(rows, [ev], t) == rows[ev.eventId := NewRow(ev, t)]
  {
    assert [ev][1..] == [];
  }

  /** No open transaction has staged this event id. */
  ghost predicate IdFree(s: State, id: EventId) {
    forall j | j in s.calls :: !Stages(s.calls[j], id)
  }

  ghost predicate PlayerFree(s: State, p: PlayerId) {
    forall j | j in s.calls :: !(s.calls[j].keyStaged && s.calls[j].key == Some(p))
  }

  class Service {
    const repo: OnboardingRepository
    const account: Account
    const selectable: seq<string>

    ghost predicate Valid()
      reads this, repo, repo.world, account
    {
      repo.world.Valid() && account.world == repo.world && selectable == repo.world.c.selectable
    }

    constructor (repo: OnboardingRepository, account: Account, selectable: seq<string>)
      requires repo.world.Valid() && account.world == repo.world && selectable == repo.world.c.selectable
      ensures Valid() && this.repo == repo && this.account == account && this.selectable == selectable
    {
      this.repo := repo;
      this.account := account;
      this.selectable := selectable;
    }

    /** UpdateName: account judges the name; only a valid name of a known player makes an event. */
    method UpdateName(playerId: PlayerId, name: string, verdict: Option<AccountError>,
                      eventId: EventId, timestamp: Time, fault: TxFault, ghost k: CallId)
      returns (err: Option<ServiceError>)
      requires Valid() && k !in repo.world.trace.s.calls && IdFree(repo.world.trace.s, eventId)
      modifies repo.world`rows, repo.world`onboarded, repo.world`trace
      ensures Valid() && repo.world.onboarded == old(repo.world.onboarded)
      ensures repo.world.trace.s == old(repo.world.trace).s.(rows := repo.world.rows)
      ensures verdict.Some? ==>
                err == Some(match verdict.value
                            case AccountInvalidName => InvalidName
                            case AccountPlayerNotFound => PlayerNotFound
                            case AccountOther => Other)
      ensures err == Some(EmptyField) <==> verdict.None? && (playerId == "" || name == "")
      ensures var commits := verdict.None? && playerId != "" && name != ""
                             && eventId !in old(repo.world.rows) && fault.LetsCommit(1);
              && repo.world.rows ==
                   (if commits
                    then old(repo.world.rows)[eventId :=
                           Row(eventType := "onboarding_name_set", payload := NameSet(eventId, timestamp, playerId, name),
                               createdAt := repo.world.clock, publishedAt := None, failureCount := 0,
                               lastError := None, lastAttemptedAt := None)]
                    else old(repo.world.rows))
              && (err.None? <==> commits && fault != CommitEnds(ReplyLost))
      ensures verdict.None? ==> err.None? || err == Some(EmptyField) || err == Some(Other)
    {
      if verdict.Some? {
        match verdict.value
        case AccountInvalidName => return Some(InvalidName);
        case AccountPlayerNotFound => return Some(PlayerNotFound);
        case AccountOther => return Some(Other);
      }
      var ev := BuildNameSet(eventId, timestamp, playerId, name);
      if ev.Err? {
        return Some(ev.error);
      }
      var r := Stage(ev.value, StartUpdateName(playerId, name, eventId, timestamp), fault, k);
      return if r.Ok? then None else Some(Other);
    }

    /** PublishEvents for the one event that a command has built. */
    method Stage(ev: OutboxEvent, ghost op: CallOp, fault: TxFault, ghost k: CallId) returns (r: Result<(), RepoError>)
      requires Valid() && k !in repo.world.trace.s.calls && IdFree(repo.world.trace.s, ev.eventId)
      requires op.StartUpdateName? || op.StartSelectFaction?
      requires StartedCall(repo.world.c, repo.world.trace.s, op) == Ok(Call(None, [ev], None, false, 0))
      modifies repo.world`rows, repo.world`onboarded, repo.world`trace
      ensures Valid() && repo.world.onboarded == old(repo.world.onboarded)
      ensures repo.world.trace.s == old(repo.world.trace).s.(rows := repo.world.rows)
      ensures var commits := ev.eventId !in old(repo.world.rows) && fault.LetsCommit(1);
              && repo.world.rows == (if commits then old(repo.world.rows)[ev.eventId := NewRow(ev, repo.world.clock)]
                                     else old(repo.world.rows))
              && (r.Ok? <==> commits && fault != CommitEnds(ReplyLost))
    {
      ghost var s0, call := repo.world.trace.s, Call(None, [ev], None, false, 0);
      repo.world.Do(OfCall(k, op));
      CallEnds(s0, k, call);
      OthersStay(s0, k, call, ev.eventId);
      r := repo.PublishEvents([ev], fault, k);
      AddOneRow(s0.rows, ev, repo.world.clock);
    }

    /** SelectFaction: only a selectable faction makes an event. */
    method SelectFaction(playerId: PlayerId, factionId: string, eventId: EventId, timestamp: Time, fault: TxFault,
                         ghost k: CallId)
      returns (err: Option<ServiceError>)
      requires Valid() && k !in repo.world.trace.s.calls && IdFree(repo.world.trace.s, eventId)
      modifies repo.world`rows, repo.world`onboarded, repo.world`trace
      ensures Valid() && repo.world.onboarded == old(repo.world.onboarded)
      ensures repo.world.trace.s == old(repo.world.trace).s.(rows := repo.world.rows)
      ensures err == Some(InvalidFaction) <==> factionId !in selectable
      ensures err == Some(EmptyField) <==> factionId in selectable && (playerId == "" || factionId == "")
      ensures var commits := factionId in selectable && playerId != "" && factionId != ""
                             && eventId !in old(repo.world.rows) && fault.LetsCommit(1);
              && repo.world.rows ==
                   (if commits
                    then old(repo.world.rows)[eventId :=
                           Row(eventType := "onboarding_faction_set",
                               payload := FactionSet(eventId, timestamp, playerId, factionId),
                               createdAt := repo.world.clock, publishedAt := None, failureCount := 0,
                               lastError := None, lastAttemptedAt := None)]
                    else old(repo.world.rows))
              && (err.None? <==> commits && fault != CommitEnds(ReplyLost))
      ensures err.None? || err == Some(InvalidFaction) || err == Some(EmptyField) || err == Some(Other)
    {
      if factionId !in selectable {
        return Some(InvalidFaction);
      }
      var ev := BuildFactionSet(eventId, timestamp, playerId, factionId);
      if ev.Err? {
        return Some(ev.error);
      }
      var r := Stage(ev.value, StartSelectFaction(playerId, factionId, eventId, timestamp), fault, k);
      return if r.Ok? then None else Some(Other);
    }

    /**
     * Complete: account is read before any transaction. A player completes at
     * most once, with the faction account reported, and AlreadyOnboarded is
     * reported exactly to those who have.
     */
    method Complete(playerId: PlayerId, failure: Option<AccountError>, eventId: EventId, timestamp: Time, fault: TxFault,
                    ghost k: CallId)
      returns (err: Option<ServiceError>)
      requires Valid() && k !in repo.world.trace.s.calls
      requires IdFree(repo.world.trace.s, eventId) && PlayerFree(repo.world.trace.s, playerId)
      modifies repo.world`rows, repo.world`onboarded, repo.world`trace
      ensures Valid()
      ensures repo.world.trace.s ==
                old(repo.world.trace).s.(rows := repo.world.rows, onboarded := repo.world.onboarded)
      ensures err == Some(PlayerNotFound) <==> failure == Some(AccountPlayerNotFound)
      ensures err == Some(FactionNotSelected) <==>
                failure.None? && (playerId !in repo.world.selected || repo.world.selected[playerId] == "")
      ensures err == Some(EmptyField) <==>
                failure.None? && playerId in repo.world.selected && repo.world.selected[playerId] != "" && playerId == ""
      ensures err == Some(AlreadyOnboarded) <==>
                && failure.None? && playerId in repo.world.selected && repo.world.selected[playerId] != "" && playerId != ""
                && playerId in old(repo.world.onboarded) && !fault.BeginFails? && fault != StatementFails(0)
      ensures var commits := && failure.None? && playerId in repo.world.selected && repo.world.selected[playerId] != ""
                             && playerId != "" && playerId !in old(repo.world.onboarded)
                             && eventId !in old(repo.world.rows) && fault.LetsCommit(2);
              && repo.world.rows ==
                   (if commits
                    then old(repo.world.rows)[eventId :=
                           Row(eventType := "player_onboarded",
                               payload := Onboarded(eventId, timestamp, playerId, repo.world.selected[playerId]),
                               createdAt := repo.world.clock, publishedAt := None, failureCount := 0,
                               lastError := None, lastAttemptedAt := None)]
                    else old(repo.world.rows))
              && repo.world.onboarded == (if commits then old(repo.world.onboarded) + {playerId}
                                          else old(repo.world.onboarded))
              && (err.None? <==> commits && fault != CommitEnds(ReplyLost))
      ensures err.None? || err == Some(PlayerNotFound) || err == Some(FactionNotSelected) || err == Some(EmptyField)
              || err == Some(AlreadyOnboarded) || err == Some(Other)
    {
      var read := account.GetOnboardingPlayer(playerId, failure);
      if read.Err? {
        return Some(if read.error == AccountPlayerNotFound then PlayerNotFound else Other);
      }
      if read.value.None? || read.value.value == "" {
        return Some(FactionNotSelected);
      }
      var ev := BuildOnboarded(eventId, timestamp, playerId, read.value.value);
      if ev.Err? {
        return Some(ev.error);
      }
      var r := CompleteWith(playerId, ev.value, timestamp, fault, k);
      match r
      case Ok(_) => return None;
      case Err(RepoAlreadyOnboarded) => return Some(AlreadyOnboarded);
      case Err(RepoFailed) => return Some(Other);
    }

    /** MarkComplete for the event that Complete has built. */
    method CompleteWith(playerId: PlayerId, ev: OutboxEvent, ghost timestamp: Time, fault: TxFault, ghost k: CallId)
      returns (r: Result<(), RepoError>)
      requires Valid() && k !in repo.world.trace.s.calls
      requires IdFree(repo.world.trace.s, ev.eventId) && PlayerFree(repo.world.trace.s, playerId)
      requires StartedCall(repo.world.c, repo.world.trace.s, StartComplete(playerId, ev.eventId, timestamp))
               == Ok(Call(Some(playerId), [ev], None, false, 0))
      modifies repo.world`rows, repo.world`onboarded, repo.world`trace
      ensures Valid()
      ensures repo.world.trace.s ==
                old(repo.world.trace).s.(rows := repo.world.rows, onboarded := repo.world.onboarded)
      ensures var commits := && playerId !in old(repo.world.onboarded) && ev.eventId !in old(repo.world.rows)
                             && fault.LetsCommit(2);
              && repo.world.rows == (if commits then old(repo.world.rows)[ev.eventId := NewRow(ev, repo.world.clock)]
                                     else old(repo.world.rows))
              && repo.world.onboarded == (if commits then old(repo.world.onboarded) + {playerId}
                                          else old(repo.world.onboarded))
              && (r.Ok? <==> commits && fault != CommitEnds(ReplyLost))
      ensures r == Err(RepoAlreadyOnboarded) <==>
                playerId in old(repo.world.onboarded) && !fault.BeginFails? && fault != StatementFails(0)
    {
      ghost var s0, call := repo.world.trace.s, Call(Some(playerId), [ev], None, false, 0);
      repo.world.Do(OfCall(k, StartComplete(playerId, ev.eventId, timestamp)));
      CallEnds(s0, k, call);
      OthersStay(s0, k, call, ev.eventId);
      r := repo.MarkComplete(playerId, [ev], fault, k);
      AddOneRow(s0.rows, ev, repo.world.clock);
    }
  }
}
