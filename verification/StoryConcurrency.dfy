/**
 * Concurrent CompleteEpisode calls: each reads the level, the factions and the
 * completions at different moments, decides, and inserts later still.
 */
module StoryConcurrency {
  import opened Wrappers
  import opened StoryDomain
  import opened StoryFixpoint

  type PlayerId = string
  type CallId = nat

  datatype Account = Account(level: int, factions: set<string>)

  function Flags(s: set<string>): map<string, bool> {
    map k | k in s :: true
  }

  function ContextOf(level: int, factions: set<string>, done: set<EpisodeId>): UnlockContext {
    UnlockContext(level, Flags(factions), Flags(done))
  }

  datatype Phase =
    | Found
    | LevelRead(level: int)
    | ProgressRead(plevel: int, factions: set<string>)
    | Passed

  datatype Attempt = Attempt(player: PlayerId, id: EpisodeId, phase: Phase)

  /** `inserts` is the history of inserts in the order in which they committed. */
  datatype State = State(
    account: map<PlayerId, Account>,
    done: map<PlayerId, set<EpisodeId>>,
    calls: map<CallId, Attempt>,
    inserts: seq<(PlayerId, EpisodeId)>)

  datatype Action =
    | Begin(call: CallId, player: PlayerId, id: EpisodeId)
    | ReadLevel(call: CallId)
    | ReadFactions(call: CallId)
    | ReadCompletedAndCheck(call: CallId)
    | Insert(call: CallId)
    | Abandon(call: CallId)
    | AccountChange(player: PlayerId, account: Account)

  type Catalog = map<EpisodeId, Episode>

  function Done(s: State, p: PlayerId): set<EpisodeId> {
    if p in s.done then s.done[p] else {}
  }

  predicate InPhase(s: State, k: CallId, n: nat) {
    k in s.calls && (match s.calls[k].phase
                     case Found => n == 0
                     case LevelRead(_) => n == 1
                     case ProgressRead(_, _) => n == 2
                     case Passed => n == 3)
  }

  predicate Enabled(cat: Catalog, s: State, a: Action) {
    match a
    case Begin(k, _, id) => k !in s.calls && id in cat && cat[id].isActive
    case ReadLevel(k) => InPhase(s, k, 0) && s.calls[k].player in s.account
    case ReadFactions(k) => InPhase(s, k, 1) && s.calls[k].player in s.account
    case ReadCompletedAndCheck(k) => InPhase(s, k, 2) && s.calls[k].id in cat
    case Insert(k) => InPhase(s, k, 3)
    case Abandon(k) => k in s.calls
    case AccountChange(_, _) => true
  }

  function Step(cat: Catalog, s: State, a: Action): State
    requires Enabled(cat, s, a)
  {
    match a
    case Begin(k, p, id) => s.(calls := s.calls[k := Attempt(p, id, Found)])
    case ReadLevel(k) =>
      s.(calls := s.calls[k := s.calls[k].(phase := LevelRead(s.account[s.calls[k].player].level))])
    case ReadFactions(k) =>
      s.(calls := s.calls[k := s.calls[k].(
        phase := ProgressRead(s.calls[k].phase.level, s.account[s.calls[k].player].factions))])
    case ReadCompletedAndCheck(k) =>
      var x := s.calls[k];
      if Unlocked(cat[x.id], ContextOf(x.phase.plevel, x.phase.factions, Done(s, x.player)))
      then s.(calls := s.calls[k := x.(phase := Passed)])
      else s.(calls := Remove(s.calls, k))
    case Insert(k) =>
      var x := s.calls[k];
      s.(done := s.done[x.player := Done(s, x.player) + {x.id}],
         inserts := s.inserts + [(x.player, x.id)],
         calls := Remove(s.calls, k))
    case Abandon(k) => s.(calls := Remove(s.calls, k))
    case AccountChange(p, account) => s.(account := s.account[p := account])
  }

  predicate ValidRun(cat: Catalog, s: State, run: seq<Action>)
    decreases |run|
  {
    run == [] || (Enabled(cat, s, run[0]) && ValidRun(cat, Step(cat, s, run[0]), run[1..]))
  }

  function Exec(cat: Catalog, s: State, run: seq<Action>): State
    requires ValidRun(cat, s, run)
    decreases |run|
  {
    if run == [] then s else Exec(cat, Step(cat, s, run[0]), run[1..])
  }

  function Init(account: map<PlayerId, Account>): State {
    State(account, map[], map[], [])
  }

  // -------------------------------------------- closed under prerequisites

  ghost predicate RequiredDone(cat: Catalog, id: EpisodeId, done: set<EpisodeId>) {
    id in cat && forall e | e in cat[id].requiredEpisodes :: e in done
  }

  ghost predicate ClosedState(cat: Catalog, s: State) {
    && (forall p, id | p in s.done && id in s.done[p] :: RequiredDone(cat, id, s.done[p]))
    && (forall k | k in s.calls && s.calls[k].phase.Passed? :: RequiredDone(cat, s.calls[k].id, Done(s, s.calls[k].player)))
  }

  lemma CheckMeansRequired(cat: Catalog, id: EpisodeId, level: int, factions: set<string>, done: set<EpisodeId>)
    requires id in cat && Unlocked(cat[id], ContextOf(level, factions, done))
    ensures RequiredDone(cat, id, done)
  {
    UnlockedMeans(cat[id], ContextOf(level, factions, done));
  }

  lemma StepKeepsClosed(cat: Catalog, s: State, a: Action)
    requires Enabled(cat, s, a) && ClosedState(cat, s)
    ensures ClosedState(cat, Step(cat, s, a))
  {
    match a
    case ReadCompletedAndCheck(k) =>
      var x := s.calls[k];
      if Unlocked(cat[x.id], ContextOf(x.phase.plevel, x.phase.factions, Done(s, x.player))) {
        CheckMeansRequired(cat, x.id, x.phase.plevel, x.phase.factions, Done(s, x.player));
      }
    case Insert(k) =>
      var s' := Step(cat, s, a);
      forall j | j in s'.calls && s'.calls[j].phase.Passed?
        ensures RequiredDone(cat, s'.calls[j].id, Done(s', s'.calls[j].player))
      {
        assert RequiredDone(cat, s.calls[j].id, Done(s, s.calls[j].player));
      }
      forall p, id | p in s'.done && id in s'.done[p]
        ensures RequiredDone(cat, id, s'.done[p])
      {
        if id in Done(s, p) {
          assert RequiredDone(cat, id, s.done[p]);
        } else {
          assert RequiredDone(cat, id, Done(s, p));
        }
      }
    case _ =>
  }

  lemma {:induction false} RunKeepsClosed(cat: Catalog, s: State, run: seq<Action>)
    requires ValidRun(cat, s, run) && ClosedState(cat, s)
    ensures ClosedState(cat, Exec(cat, s, run))
    decreases |run|
  {
    if run != [] {
      StepKeepsClosed(cat, s, run[0]);
      RunKeepsClosed(cat, Step(cat, s, run[0]), run[1..]);
    }
  }

  /**
   * Under every interleaving, and even if levels and factions shrink, each
   * player's completions contain the prerequisites of everything in them.
   */
  lemma CompletionsStayClosed(cat: Catalog, account: map<PlayerId, Account>, run: seq<Action>,
                              p: PlayerId, id: EpisodeId, e: EpisodeId)
    requires ValidRun(cat, Init(account), run)
    requires id in Done(Exec(cat, Init(account), run), p)
    requires id in cat && e in cat[id].requiredEpisodes
    ensures e in Done(Exec(cat, Init(account), run), p)
  {
    RunKeepsClosed(cat, Init(account), run);
    assert RequiredDone(cat, id, Exec(cat, Init(account), run).done[p]);
  }

  // ------------------------------------------------------- verdicts stay valid

  function Now(s: State, p: PlayerId): UnlockContext
    requires p in s.account
  {
    ContextOf(s.account[p].level, s.account[p].factions, Done(s, p))
  }

  /** The part of the unlock rule that account answers for. */
  predicate Qualifies(ep: Episode, a: Account) {
    a.level >= ep.requiredLevel && forall f | f in ep.requiredFactions :: f in a.factions
  }

  lemma UnlockedIff(ep: Episode, a: Account, done: set<EpisodeId>)
    ensures Unlocked(ep, ContextOf(a.level, a.factions, done))
            <==> Qualifies(ep, a) && forall e | e in ep.requiredEpisodes :: e in done
  {
    UnlockedMeans(ep, ContextOf(a.level, a.factions, done));
  }

  /** Every call is about an active episode and, once it has read anything, about a player account knows. */
  ghost predicate CallsKnown(cat: Catalog, s: State) {
    forall k | k in s.calls ::
      && s.calls[k].id in cat && cat[s.calls[k].id].isActive
      && (!s.calls[k].phase.Found? ==> s.calls[k].player in s.account)
  }

  lemma {:induction false} RunKeepsKnown(cat: Catalog, s: State, run: seq<Action>)
    requires ValidRun(cat, s, run) && CallsKnown(cat, s)
    ensures CallsKnown(cat, Exec(cat, s, run))
    decreases |run|
  {
    if run != [] {
      RunKeepsKnown(cat, Step(cat, s, run[0]), run[1..]);
    }
  }

  /**
   * On every run, whatever happens to levels and factions in between: when an
   * insert is about to commit, the episode is unlocked at that moment if and
   * only if the player's level and factions suffice at that moment. The
   * prerequisites always hold.
   */
  lemma VerdictAtInsertIff(cat: Catalog, account: map<PlayerId, Account>, run: seq<Action>, k: CallId)
    requires ValidRun(cat, Init(account), run)
    requires Enabled(cat, Exec(cat, Init(account), run), Insert(k))
    ensures var s := Exec(cat, Init(account), run);
            var x := s.calls[k];
            && x.id in cat && cat[x.id].isActive && x.player in s.account
            && (Unlocked(cat[x.id], Now(s, x.player)) <==> Qualifies(cat[x.id], s.account[x.player]))
  {
    RunKeepsKnown(cat, Init(account), run);
    RunKeepsClosed(cat, Init(account), run);
    var s := Exec(cat, Init(account), run);
    var x := s.calls[k];
    assert RequiredDone(cat, x.id, Done(s, x.player));
    UnlockedIff(cat[x.id], s.account[x.player], Done(s, x.player));
  }

  predicate Grows(a: Account, b: Account) {
    a.level <= b.level && a.factions <= b.factions
  }

  predicate GrowingAction(s: State, a: Action) {
    a.AccountChange? && a.player in s.account ==> Grows(s.account[a.player], a.account)
  }

  predicate GrowingRun(cat: Catalog, s: State, run: seq<Action>)
    requires ValidRun(cat, s, run)
    decreases |run|
  {
    run != [] ==> GrowingAction(s, run[0]) && GrowingRun(cat, Step(cat, s, run[0]), run[1..])
  }

  /** What a call has read is no more than what account says now, and a passed check was for no more than that. */
  ghost predicate ReadsOld(cat: Catalog, s: State, x: Attempt) {
    && x.id in cat
    && (!x.phase.Found? ==> x.player in s.account)
    && match x.phase
       case Found => true
       case LevelRead(level) => level <= s.account[x.player].level
       case ProgressRead(level, factions) => Grows(Account(level, factions), s.account[x.player])
       case Passed => Qualifies(cat[x.id], s.account[x.player])
  }

  ghost predicate AllReadOld(cat: Catalog, s: State) {
    forall k | k in s.calls :: ReadsOld(cat, s, s.calls[k])
  }

  lemma StepReadsOld(cat: Catalog, s: State, a: Action)
    requires Enabled(cat, s, a) && AllReadOld(cat, s) && GrowingAction(s, a)
    ensures AllReadOld(cat, Step(cat, s, a))
  {
    var s' := Step(cat, s, a);
    forall k | k in s'.calls
      ensures ReadsOld(cat, s', s'.calls[k])
    {
      if k in s.calls {
        var x := s.calls[k];
        assert ReadsOld(cat, s, x);
        if a == ReadCompletedAndCheck(k) {
          UnlockedIff(cat[x.id], Account(x.phase.plevel, x.phase.factions), Done(s, x.player));
        }
      }
    }
  }

  lemma {:induction false} RunReadsOld(cat: Catalog, s: State, run: seq<Action>)
    requires ValidRun(cat, s, run) && AllReadOld(cat, s) && GrowingRun(cat, s, run)
    ensures AllReadOld(cat, Exec(cat, s, run))
    decreases |run|
  {
    if run != [] {
      StepReadsOld(cat, s, run[0]);
      RunReadsOld(cat, Step(cat, s, run[0]), run[1..]);
    }
  }

  /**
   * If levels and factions only grow, the verdict reached from reads at three
   * different moments is still right at the moment of the insert.
   */
  lemma VerdictHoldsAtInsert(cat: Catalog, account: map<PlayerId, Account>, run: seq<Action>, k: CallId)
    requires ValidRun(cat, Init(account), run) && GrowingRun(cat, Init(account), run)
    requires Enabled(cat, Exec(cat, Init(account), run), Insert(k))
    ensures var s := Exec(cat, Init(account), run);
            var x := s.calls[k];
            && x.id in cat && cat[x.id].isActive && x.player in s.account
            && Unlocked(cat[x.id], Now(s, x.player))
  {
    RunReadsOld(cat, Init(account), run);
    VerdictAtInsertIff(cat, account, run, k);
    var s := Exec(cat, Init(account), run);
    assert ReadsOld(cat, s, s.calls[k]);
  }

  lemma {:induction false} RunOneMore(cat: Catalog, s: State, run: seq<Action>, a: Action)
    requires ValidRun(cat, s, run) && Enabled(cat, Exec(cat, s, run), a)
    ensures ValidRun(cat, s, run + [a]) && Exec(cat, s, run + [a]) == Step(cat, Exec(cat, s, run), a)
    decreases |run|
  {
    if run == [] {
      assert run + [a] == [a] && [a][1..] == [];
    } else {
      RunOneMore(cat, Step(cat, s, run[0]), run[1..], a);
      assert (run + [a])[1..] == run[1..] + [a];
    }
  }

  /** An active episode without prerequisites can get as far as its insert. */
  lemma PassIsReachable(cat: Catalog, id: EpisodeId) returns (account: map<PlayerId, Account>, run: seq<Action>)
    requires id in cat && cat[id].isActive && cat[id].requiredEpisodes == []
    ensures ValidRun(cat, Init(account), run) && Enabled(cat, Exec(cat, Init(account), run), Insert(0))
    ensures Exec(cat, Init(account), run).calls[0].id == id
  {
    var rich := Account(cat[id].requiredLevel, set f | f in cat[id].requiredFactions);
    account := map["p" := rich];
    var s0 := Init(account);
    UnlockedIff(cat[id], rich, {});
    RunOneMore(cat, s0, [], Begin(0, "p", id));
    run := [] + [Begin(0, "p", id)];
    RunOneMore(cat, s0, run, ReadLevel(0));
    run := run + [ReadLevel(0)];
    RunOneMore(cat, s0, run, ReadFactions(0));
    run := run + [ReadFactions(0)];
    RunOneMore(cat, s0, run, ReadCompletedAndCheck(0));
    run := run + [ReadCompletedAndCheck(0)];
  }

  /**
   * Growth is needed, on every run and for every episode: if before a passed
   * call inserts account changes to anything that does not qualify, a level too
   * low or a faction missing, the insert goes through although the episode is
   * locked.
   */
  lemma ShrinkingBreaksVerdict(cat: Catalog, account: map<PlayerId, Account>, run: seq<Action>, k: CallId, poor: Account)
    requires ValidRun(cat, Init(account), run)
    requires Enabled(cat, Exec(cat, Init(account), run), Insert(k))
    requires Exec(cat, Init(account), run).calls[k].id in cat
    requires !Qualifies(cat[Exec(cat, Init(account), run).calls[k].id], poor)
    ensures var x := Exec(cat, Init(account), run).calls[k];
            var run' := run + [AccountChange(x.player, poor)];
            && ValidRun(cat, Init(account), run')
            && var s := Exec(cat, Init(account), run');
               && Enabled(cat, s, Insert(k)) && s.calls[k] == x && x.player in s.account
               && !Unlocked(cat[x.id], Now(s, x.player))
               && x.id in Done(Step(cat, s, Insert(k)), x.player)
  {
    var x := Exec(cat, Init(account), run).calls[k];
    RunOneMore(cat, Init(account), run, AccountChange(x.player, poor));
    VerdictAtInsertIff(cat, account, run + [AccountChange(x.player, poor)], k);
  }

  // ---------------------------------------------------------- linearizability

  function InsertsOf(inserts: seq<(PlayerId, EpisodeId)>, p: PlayerId): seq<EpisodeId> {
    if inserts == [] then []
    else InsertsOf(inserts[..|inserts| - 1], p)
         + (if inserts[|inserts| - 1].0 == p then [inserts[|inserts| - 1].1] else [])
  }

  ghost predicate FixedRun(run: seq<Action>) {
    forall i | 0 <= i < |run| :: !run[i].AccountChange?
  }

  function WorldOf(cat: Catalog, a: Account): World {
    World(cat, a.level, Flags(a.factions))
  }

  /** The completions are what the inserts, as sequential calls, would have produced. */
  ghost predicate Linear(cat: Catalog, s: State, p: PlayerId) {
    p in s.account ==> Done(s, p) == CompleteAll(WorldOf(cat, s.account[p]), {}, InsertsOf(s.inserts, p))
  }

  lemma InsertIsLinear(cat: Catalog, s: State, k: CallId, p: PlayerId)
    requires Enabled(cat, s, Insert(k)) && AllReadOld(cat, s) && CallsKnown(cat, s) && ClosedState(cat, s)
    requires Linear(cat, s, p)
    ensures Linear(cat, Step(cat, s, Insert(k)), p)
  {
    var x, s' := s.calls[k], Step(cat, s, Insert(k));
    assert ReadsOld(cat, s, x);
    assert RequiredDone(cat, x.id, Done(s, x.player));
    UnlockedIff(cat[x.id], s.account[x.player], Done(s, x.player));
    assert s'.inserts[..|s'.inserts| - 1] == s.inserts;
    if p == x.player {
      var w := WorldOf(cat, s.account[p]);
      CompleteAllConcat(w, {}, InsertsOf(s.inserts, p), [x.id]);
      assert Context(w, Done(s, p)) == Now(s, p);
      assert [x.id][1..] == [];
      assert CompleteAll(w, Done(s, p), [x.id]) == Complete(w, Done(s, p), x.id);
    } else {
      assert InsertsOf(s'.inserts, p) == InsertsOf(s.inserts, p);
      assert Done(s', p) == Done(s, p);
    }
  }

  lemma {:induction false} RunIsLinear(cat: Catalog, s: State, run: seq<Action>, p: PlayerId)
    requires ValidRun(cat, s, run) && AllReadOld(cat, s) && CallsKnown(cat, s) && ClosedState(cat, s)
    requires FixedRun(run) && Linear(cat, s, p)
    ensures Linear(cat, Exec(cat, s, run), p) && Exec(cat, s, run).account == s.account
    decreases |run|
  {
    if run != [] {
      StepReadsOld(cat, s, run[0]);
      StepKeepsClosed(cat, s, run[0]);
      if run[0].Insert? {
        InsertIsLinear(cat, s, run[0].call, p);
      }
      RunIsLinear(cat, Step(cat, s, run[0]), run[1..], p);
    }
  }

  /**
   * With level and factions fixed, every interleaving is equivalent to calling
   * CompleteEpisode sequentially in insert order, so it stays inside the least
   * fixpoint of the unlock rule.
   */
  lemma ConcurrentCallsAreSequential(cat: Catalog, account: map<PlayerId, Account>, run: seq<Action>, p: PlayerId)
    requires ValidRun(cat, Init(account), run) && FixedRun(run) && p in account
    ensures var s := Exec(cat, Init(account), run);
            var w := WorldOf(cat, account[p]);
            && Done(s, p) == CompleteAll(w, {}, InsertsOf(s.inserts, p))
            && Done(s, p) <= Fixpoint(w, {})
  {
    RunIsLinear(cat, Init(account), run, p);
    RunsStayInside(WorldOf(cat, account[p]), {}, InsertsOf(Exec(cat, Init(account), run).inserts, p));
  }
}
