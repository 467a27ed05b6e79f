/** Over a fixed catalogue, level and set of factions, completions compute a least fixpoint. */
module StoryFixpoint {
  import opened StoryDomain

  /** The catalogue and what account says about the player, both fixed here. */
  datatype World = World(catalog: map<EpisodeId, Episode>, level: int, factions: map<string, bool>)

  function Context(w: World, done: set<EpisodeId>): UnlockContext {
    UnlockContext(w.level, w.factions, map id | id in done :: true)
  }

  /** CompleteEpisode would succeed: found, active and unlocked. */
  predicate Allowed(w: World, done: set<EpisodeId>, id: EpisodeId) {
    id in w.catalog && w.catalog[id].isActive && Unlocked(w.catalog[id], Context(w, done))
  }

  /** One CompleteEpisode call; the insert is idempotent. */
  function Complete(w: World, done: set<EpisodeId>, id: EpisodeId): set<EpisodeId> {
    if Allowed(w, done, id) then done + {id} else done
  }

  function CompleteAll(w: World, done: set<EpisodeId>, ids: seq<EpisodeId>): set<EpisodeId>
    decreases |ids|
  {
    if ids == [] then done else CompleteAll(w, Complete(w, done, ids[0]), ids[1..])
  }

  /** Nothing more can be completed. */
  ghost predicate Closed(w: World, done: set<EpisodeId>) {
    forall id | Allowed(w, done, id) :: id in done
  }

  function Round(w: World, done: set<EpisodeId>): set<EpisodeId> {
    done + set id | id in w.catalog && Allowed(w, done, id)
  }

  function Iterate(w: World, start: set<EpisodeId>, n: nat): set<EpisodeId> {
    if n == 0 then start else Round(w, Iterate(w, start, n - 1))
  }

  /** As many rounds as there are episodes. */
  function Fixpoint(w: World, start: set<EpisodeId>): set<EpisodeId> {
    Iterate(w, start, |w.catalog|)
  }

  lemma AllowedMonotone(w: World, a: set<EpisodeId>, b: set<EpisodeId>, id: EpisodeId)
    requires a <= b && Allowed(w, a, id)
    ensures Allowed(w, b, id)
  {
    UnlockedMeans(w.catalog[id], Context(w, a));
    UnlockedMeans(w.catalog[id], Context(w, b));
  }

  lemma RoundMonotone(w: World, a: set<EpisodeId>, b: set<EpisodeId>)
    requires a <= b
    ensures Round(w, a) <= Round(w, b)
  {
    forall id | Allowed(w, a, id)
      ensures Allowed(w, b, id)
    {
      AllowedMonotone(w, a, b, id);
    }
  }

  // ---------------------------------------------- the iteration is a least fixpoint

  lemma {:induction false} IterateBounds(w: World, start: set<EpisodeId>, n: nat)
    ensures start <= Iterate(w, start, n) <= start + w.catalog.Keys
  {
    if n > 0 {
      IterateBounds(w, start, n - 1);
    }
  }

  lemma GrowsBeyond<T>(start: set<T>, a: set<T>, b: set<T>)
    requires start <= a <= b && a != b
    ensures |b - start| >= |a - start| + 1
  {
    var x :| x in b && x !in a;
    SubsetSize((a - start) + {x}, b - start);
  }

  lemma SubsetSize<T>(a: set<T>, b: set<T>)
    requires a <= b
    ensures |a| <= |b|
  {
    assert b == a + (b - a);
  }

  ghost function Power<T(!new)>(f: set<T> -> set<T>, start: set<T>, n: nat): set<T> {
    if n == 0 then start else f(Power(f, start, n - 1))
  }

  lemma {:induction false} PowerAbove<T(!new)>(f: set<T> -> set<T>, start: set<T>, n: nat)
    requires forall s :: s <= f(s)
    ensures start <= Power(f, start, n)
  {
    if n > 0 {
      PowerAbove(f, start, n - 1);
    }
  }

  /** Until it stops, every application of an inflationary function adds an element. */
  lemma {:induction false} PowerGrows<T(!new)>(f: set<T> -> set<T>, start: set<T>, n: nat)
    requires forall s :: s <= f(s)
    requires f(Power(f, start, n)) != Power(f, start, n)
    ensures |f(Power(f, start, n)) - start| >= n + 1
  {
    PowerAbove(f, start, n);
    GrowsBeyond(start, Power(f, start, n), f(Power(f, start, n)));
    if n > 0 {
      PowerGrows(f, start, n - 1);
    }
  }

  function RoundOf(w: World): set<EpisodeId> -> set<EpisodeId> {
    done => Round(w, done)
  }

  lemma {:induction false} IterateIsPower(w: World, start: set<EpisodeId>, n: nat)
    ensures Iterate(w, start, n) == Power(RoundOf(w), start, n)
  {
    if n > 0 {
      IterateIsPower(w, start, n - 1);
    }
  }

  /** The catalogue is finite, so as many rounds as it has episodes are enough. */
  lemma FixpointIsFixed(w: World, start: set<EpisodeId>)
    ensures Round(w, Fixpoint(w, start)) == Fixpoint(w, start)
  {
    var n := |w.catalog|;
    IterateBounds(w, start, n);
    IterateIsPower(w, start, n);
    var next := Round(w, Fixpoint(w, start));
    SubsetSize(next - start, w.catalog.Keys);
    if next != Fixpoint(w, start) {
      PowerGrows(RoundOf(w), start, n);
    }
  }

  lemma FixpointClosed(w: World, start: set<EpisodeId>)
    ensures Closed(w, Fixpoint(w, start)) && start <= Fixpoint(w, start)
  {
    FixpointIsFixed(w, start);
    IterateBounds(w, start, |w.catalog|);
  }

  lemma {:induction false} IterateLeast(w: World, start: set<EpisodeId>, n: nat, x: set<EpisodeId>)
    requires start <= x && Closed(w, x)
    ensures Iterate(w, start, n) <= x
  {
    if n > 0 {
      IterateLeast(w, start, n - 1, x);
      RoundMonotone(w, Iterate(w, start, n - 1), x);
    }
  }

  /** The fixpoint is the least set above the start in which nothing more can be completed. */
  lemma LeastFixpoint(w: World, start: set<EpisodeId>, x: set<EpisodeId>)
    requires start <= x && Closed(w, x)
    ensures Closed(w, Fixpoint(w, start)) && start <= Fixpoint(w, start) <= x
  {
    FixpointClosed(w, start);
    IterateLeast(w, start, |w.catalog|, x);
  }

  // ------------------------------------------------------------- runs of calls

  lemma {:induction false} RunInside(w: World, done: set<EpisodeId>, ids: seq<EpisodeId>, x: set<EpisodeId>)
    requires done <= x && Closed(w, x)
    ensures done <= CompleteAll(w, done, ids) <= x
    decreases |ids|
  {
    if ids != [] {
      if Allowed(w, done, ids[0]) {
        AllowedMonotone(w, done, x, ids[0]);
      }
      RunInside(w, Complete(w, done, ids[0]), ids[1..], x);
    }
  }

  /** Whatever is called in whatever order, completions stay inside the fixpoint. */
  lemma RunsStayInside(w: World, start: set<EpisodeId>, ids: seq<EpisodeId>)
    ensures start <= CompleteAll(w, start, ids) <= Fixpoint(w, start)
  {
    FixpointClosed(w, start);
    RunInside(w, start, ids, Fixpoint(w, start));
  }

  /** Confluence: a run after which nothing more can be completed has reached the fixpoint. */
  lemma MaximalRunsAgree(w: World, start: set<EpisodeId>, ids: seq<EpisodeId>)
    ensures Closed(w, CompleteAll(w, start, ids)) <==> CompleteAll(w, start, ids) == Fixpoint(w, start)
  {
    RunsStayInside(w, start, ids);
    if Closed(w, CompleteAll(w, start, ids)) {
      LeastFixpoint(w, start, CompleteAll(w, start, ids));
    } else {
      FixpointClosed(w, start);
    }
  }

  lemma {:induction false} CompleteAllConcat(w: World, done: set<EpisodeId>, a: seq<EpisodeId>, b: seq<EpisodeId>)
    ensures CompleteAll(w, done, a + b) == CompleteAll(w, CompleteAll(w, done, a), b)
    decreases |a|
  {
    if a == [] {
      assert a + b == b;
    } else {
      CompleteAllConcat(w, Complete(w, done, a[0]), a[1..], b);
      assert (a + b)[1..] == a[1..] + b;
    }
  }

  /** A pass that tries every episode once does at least one round. */
  lemma {:induction false} PassCoversRound(w: World, done: set<EpisodeId>, ids: seq<EpisodeId>, id: EpisodeId)
    requires id in ids && Allowed(w, done, id)
    ensures id in CompleteAll(w, done, ids)
    decreases |ids|
  {
    var done' := Complete(w, done, ids[0]);
    if ids[0] == id {
      CompleteAllGrows(w, done', ids[1..]);
    } else {
      AllowedMonotone(w, done, done', id);
      PassCoversRound(w, done', ids[1..], id);
    }
  }

  lemma {:induction false} CompleteAllGrows(w: World, done: set<EpisodeId>, ids: seq<EpisodeId>)
    ensures done <= CompleteAll(w, done, ids)
    decreases |ids|
  {
    if ids != [] {
      CompleteAllGrows(w, Complete(w, done, ids[0]), ids[1..]);
    }
  }

  function Repeat(ids: seq<EpisodeId>, n: nat): seq<EpisodeId> {
    if n == 0 then [] else Repeat(ids, n - 1) + ids
  }

  lemma {:induction false} PassesCoverRounds(w: World, start: set<EpisodeId>, ids: seq<EpisodeId>, n: nat)
    requires forall id | id in w.catalog :: id in ids
    ensures Iterate(w, start, n) <= CompleteAll(w, start, Repeat(ids, n))
  {
    if n > 0 {
      PassesCoverRounds(w, start, ids, n - 1);
      var before := CompleteAll(w, start, Repeat(ids, n - 1));
      CompleteAllConcat(w, start, Repeat(ids, n - 1), ids);
      RoundMonotone(w, Iterate(w, start, n - 1), before);
      CompleteAllGrows(w, before, ids);
      forall id | id in w.catalog && Allowed(w, before, id)
        ensures id in CompleteAll(w, before, ids)
      {
        PassCoversRound(w, before, ids, id);
      }
    }
  }

  /** Every order works: trying all episodes in any order, once per episode of the catalogue, reaches the fixpoint. */
  lemma AnyOrderReachesFixpoint(w: World, start: set<EpisodeId>, ids: seq<EpisodeId>)
    requires forall id | id in w.catalog :: id in ids
    ensures CompleteAll(w, start, Repeat(ids, |w.catalog|)) == Fixpoint(w, start)
  {
    PassesCoverRounds(w, start, ids, |w.catalog|);
    RunsStayInside(w, start, Repeat(ids, |w.catalog|));
  }

  // ---------------------------------------------- topological order and cycles

  /** The episodes in the order in which they were first completed. */
  function Order(w: World, done: set<EpisodeId>, ids: seq<EpisodeId>): seq<EpisodeId>
    decreases |ids|
  {
    if ids == [] then []
    else (if Allowed(w, done, ids[0]) && ids[0] !in done then [ids[0]] else [])
         + Order(w, Complete(w, done, ids[0]), ids[1..])
  }

  ghost predicate Topological(w: World, start: set<EpisodeId>, order: seq<EpisodeId>) {
    forall k | 0 <= k < |order| ::
      order[k] in w.catalog &&
      forall e | e in w.catalog[order[k]].requiredEpisodes :: e in start || e in order[..k]
  }

  ghost function Elements(s: seq<EpisodeId>): set<EpisodeId> {
    set e | e in s
  }

  /** Completion order is topological, and it lists what was completed. */
  lemma {:induction false} CompletionOrderIsTopological(w: World, start: set<EpisodeId>, ids: seq<EpisodeId>)
    ensures Topological(w, start, Order(w, start, ids))
    ensures CompleteAll(w, start, ids) == start + Elements(Order(w, start, ids))
    decreases |ids|
  {
    if ids != [] {
      var id, next := ids[0], Complete(w, start, ids[0]);
      var rest, order := Order(w, next, ids[1..]), Order(w, start, ids);
      CompletionOrderIsTopological(w, next, ids[1..]);
      if Allowed(w, start, id) && id !in start {
        assert order == [id] + rest;
        UnlockedMeans(w.catalog[id], Context(w, start));
        forall k | 0 <= k < |order|
          ensures order[k] in w.catalog
          ensures forall e | e in w.catalog[order[k]].requiredEpisodes :: e in start || e in order[..k]
        {
          if k > 0 {
            assert order[k] == rest[k - 1];
            assert order[..k] == [id] + rest[..k - 1];
          }
        }
        assert Elements(order) == {id} + Elements(rest);
      } else {
        assert order == rest && next == start;
      }
    }
  }

  /** Episodes that only wait for each other are never completed. */
  lemma {:induction false} CyclesStayLocked(w: World, start: set<EpisodeId>, ids: seq<EpisodeId>, knot: set<EpisodeId>)
    requires start !! knot
    requires forall id | id in knot && id in w.catalog ::
               exists e :: e in w.catalog[id].requiredEpisodes && e in knot
    ensures CompleteAll(w, start, ids) !! knot
    decreases |ids|
  {
    if ids != [] {
      if Allowed(w, start, ids[0]) && ids[0] in knot {
        UnlockedMeans(w.catalog[ids[0]], Context(w, start));
      }
      CyclesStayLocked(w, Complete(w, start, ids[0]), ids[1..], knot);
    }
  }

  /** Each requires the next, and the last the first. */
  ghost predicate IsCycle(w: World, cycle: seq<EpisodeId>) {
    forall i | 0 <= i < |cycle| :: cycle[i] in w.catalog && After(cycle, i) in w.catalog[cycle[i]].requiredEpisodes
  }

  function After(cycle: seq<EpisodeId>, i: nat): EpisodeId
    requires i < |cycle|
  {
    if i + 1 < |cycle| then cycle[i + 1] else cycle[0]
  }

  /** On a cycle everybody waits for somebody on it. */
  lemma CycleWaits(w: World, cycle: seq<EpisodeId>, id: EpisodeId)
    requires IsCycle(w, cycle) && id in cycle
    ensures id in w.catalog && exists e :: e in w.catalog[id].requiredEpisodes && e in Elements(cycle)
  {
    var i :| 0 <= i < |cycle| && cycle[i] == id;
    assert After(cycle, i) in cycle;
  }

  /** In particular no episode of a prerequisite cycle, whatever its length, is ever completed. */
  lemma NoEpisodeOnACycle(w: World, ids: seq<EpisodeId>, cycle: seq<EpisodeId>, k: nat)
    requires k < |cycle| && IsCycle(w, cycle)
    ensures cycle[k] !in CompleteAll(w, {}, ids)
  {
    var knot := Elements(cycle);
    forall id | id in knot && id in w.catalog
      ensures exists e :: e in w.catalog[id].requiredEpisodes && e in knot
    {
      CycleWaits(w, cycle, id);
    }
    CyclesStayLocked(w, {}, ids, knot);
    assert cycle[k] in knot;
  }
}
