/** One player's way through the service, over the same tables from end to end. */
module OnboardingJourney {
  import opened Wrappers
  import opened OutboxModel
  import opened OutboxInvariant
  import opened OutboxRefinement
  import opened OutboxProgress
  import opened Sums
  import opened SharedWorld
  import opened RelayService
  import opened OutboxTicking
  import opened OnboardingService

  /** A number of ticks that drains any table of this size. */
  function EnoughTicks(rows: nat, batchSize: nat, threshold: nat): nat
    requires batchSize > 0
  {
    rows * threshold / batchSize + threshold
  }

  lemma DivideMonotone(a: nat, b: nat, d: nat)
    requires a <= b && d > 0
    ensures a / d <= b / d
  {
    DivideBound(d, a / d, b);
  }

  lemma EnoughIsEnough(c: Config, s: State)
    requires ValidConfig(c)
    ensures EnoughTicks(|s.rows|, c.batchSize, c.threshold) >= AttemptsLeft(c, s) / c.batchSize + c.threshold
  {
    SumBound(s.rows.Keys,
             (j: EventId) => if j in s.rows && Live(c, s.rows[j]) then c.threshold - s.rows[j].failureCount else 0,
             c.threshold);
    assert |s.rows| == |s.rows.Keys|;
    DivideMonotone(AttemptsLeft(c, s), |s.rows| * c.threshold, c.batchSize);
  }

  /** What is published stays published, and the broker takes nothing back. */
  lemma LaterStill(c: Config, t: Trace, t': Trace, id: EventId)
    requires Traces(c, t) && Traces(c, t') && t.run <= t'.run
    requires id in t.s.rows && t.s.rows[id].publishedAt.Some?
    ensures id in t'.s.rows && t'.s.rows[id].publishedAt.Some?
    ensures t.s.broker <= t'.s.broker
  {
    var later := t'.run[|t.run|..];
    assert t'.run == t.run + later;
    SuffixIsRun(c, Init(c), t.run, later);
    FlawsConcat(c, Init(c), t.run, later);
    NothingLost(c, t.run, later);
  }

  /** An event that is not in the table was never published. */
  lemma NotYetAccepted(c: Config, t: Trace, m: Message)
    requires Traces(c, t) && m.payload.eventId !in t.s.rows
    ensures m !in t.s.broker
  {
    ReachableInv(c, t.run);
  }

  lemma FoundLater<T>(before: seq<T>, log: seq<T>, j: nat, m: T)
    requires before <= log && m !in before && j < |log| && log[j] == m
    ensures j >= |before|
  {
    assert forall i | 0 <= i < |before| :: before[i] in before && before[i] == log[i];
  }

  /** One world with one relay, and everything that works on it. */
  method Start(c: Config) returns (service: Service, ticker: OutboxTicker)
    requires ValidConfig(c) && c.workers == 1
    ensures fresh(service) && fresh(ticker) && fresh(service.repo.world)
    ensures Ready(service, ticker) && service.repo.world.c == c && service.repo.world.trace.s == Init(c)
  {
    var world := new World(c);
    var repo := new OnboardingRepository(world);
    var account := new Account(world);
    service := new Service(repo, account, c.selectable);
    var store := new OutboxRepository(world);
    var pub := new EventPublisher(world);
    var relay := Relay.New(store, pub, c.batchSize, c.threshold, c.visibilityNanos, 0);
    ticker := new OutboxTicker(relay.value);
  }

  /** The service and its only relay work on one world, and the relay is between rounds. */
  ghost predicate Ready(service: Service, ticker: OutboxTicker)
    reads service, service.repo, service.repo.world, service.account, ticker, ticker.runner, ticker.runner.store,
          ticker.runner.pub, ticker.runner.store.world
  {
    && service.Valid() && ticker.runner.Valid() && ticker.runner.store.world == service.repo.world
    && service.repo.world.c.workers == 1 && ticker.runner.w == 0
    && service.repo.world.trace.s.workers[0].Idle?
  }

  /** Drain: enough ticks for whatever is in the table. */
  method Drain(service: Service, ticker: OutboxTicker, script: nat -> TickScript)
    requires Ready(service, ticker)
    requires forall n: nat :: Steady(service.repo.world.c, script(n)) && Healthy(script(n))
    modifies ticker, service.repo.world
    ensures Ready(service, ticker)
    ensures var world := service.repo.world;
            && world.rows.Keys == old(world.rows).Keys && world.onboarded == old(world.onboarded)
            && world.selected == old(world.selected) && world.trace.s.calls == old(world.trace).s.calls
            && old(world.trace).run <= world.trace.run
            && Delivered(world.c, old(world.rows), world.rows, world.accepted)
  {
    var ticks := EnoughTicks(|service.repo.world.rows|, ticker.runner.batchSize, ticker.runner.failureThreshold);
    EnoughIsEnough(service.repo.world.c, service.repo.world.trace.s);
    ghost var refused := ticker.Run(ticks, script);
  }

  /**
   * Select a faction, let the relay drain, let account consume the message,
   * complete, let the relay drain again: with a store and a broker that work,
   * both events are published, the choice before the completion and with the
   * same faction, and the player is onboarded.
   */
  method Onboard(service: Service, ticker: OutboxTicker, playerId: PlayerId, factionId: string,
                 chosen: EventId, completed: EventId, now: Time, script: nat -> TickScript, ghost k: CallId)
    returns (i: nat, j: nat)
    requires Ready(service, ticker)
    requires forall n: nat :: Steady(service.repo.world.c, script(n)) && Healthy(script(n))
    requires playerId != "" && factionId != "" && factionId in service.selectable
    requires playerId !in service.repo.world.onboarded
    requires chosen !in service.repo.world.rows && completed !in service.repo.world.rows && chosen != completed
    requires k !in service.repo.world.trace.s.calls && PlayerFree(service.repo.world.trace.s, playerId)
    requires IdFree(service.repo.world.trace.s, chosen) && IdFree(service.repo.world.trace.s, completed)
    modifies ticker, service.repo.world
    ensures Ready(service, ticker)
    ensures var world := service.repo.world;
            && world.onboarded == old(world.onboarded) + {playerId}
            && playerId in world.selected && world.selected[playerId] == factionId
            && chosen in world.rows && world.rows[chosen].publishedAt.Some?
            && completed in world.rows && world.rows[completed].publishedAt.Some?
            && i < j < |world.accepted|
            && world.accepted[i] == Message("onboarding_faction_set", FactionSet(chosen, now, playerId, factionId))
            && world.accepted[j] == Message("player_onboarded", Onboarded(completed, now, playerId, factionId))
  {
    var world := service.repo.world;
    i := Choose(service, ticker, playerId, factionId, chosen, now, script, k);
    service.account.Consume(i);
    ghost var t1 := world.trace;
    var accepted := world.accepted;
    var completion := Message("player_onboarded", Onboarded(completed, now, playerId, factionId));
    NotYetAccepted(world.c, t1, completion);
    var err := service.Complete(playerId, None, completed, now, CommitEnds(NoFault), k);
    assert err.None?;
    ghost var t2, before := world.trace, world.rows;
    assert MessageOf(before[completed]) == completion && Live(world.c, before[completed]);
    Drain(service, ticker, script);
    LaterStill(world.c, t2, world.trace, chosen);
    assert completion in world.accepted;
    j :| 0 <= j < |world.accepted| && world.accepted[j] == completion;
    FoundLater(accepted, world.accepted, j, completion);
  }

  /** The first half: select and drain. */
  method Choose(service: Service, ticker: OutboxTicker, playerId: PlayerId, factionId: string, chosen: EventId, now: Time,
                script: nat -> TickScript, ghost k: CallId)
    returns (i: nat)
    requires Ready(service, ticker)
    requires forall n: nat :: Steady(service.repo.world.c, script(n)) && Healthy(script(n))
    requires playerId != "" && factionId != "" && factionId in service.selectable
    requires chosen !in service.repo.world.rows
    requires k !in service.repo.world.trace.s.calls && IdFree(service.repo.world.trace.s, chosen)
    modifies ticker, service.repo.world
    ensures Ready(service, ticker)
    ensures var world := service.repo.world;
            && world.onboarded == old(world.onboarded) && world.selected == old(world.selected)
            && world.trace.s.calls == old(world.trace).s.calls
            && world.rows.Keys == old(world.rows).Keys + {chosen} && world.rows[chosen].publishedAt.Some?
            && i < |world.accepted| && world.accepted[i] == Message("onboarding_faction_set", FactionSet(chosen, now, playerId, factionId))
  {
    var world := service.repo.world;
    var err := service.SelectFaction(playerId, factionId, chosen, now, CommitEnds(NoFault), k);
    assert err.None?;
    ghost var before := world.rows;
    var choice := Message("onboarding_faction_set", FactionSet(chosen, now, playerId, factionId));
    assert MessageOf(before[chosen]) == choice && Live(world.c, before[chosen]);
    Drain(service, ticker, script);
    assert choice in world.accepted;
    i :| 0 <= i < |world.accepted| && world.accepted[i] == choice;
  }
}
