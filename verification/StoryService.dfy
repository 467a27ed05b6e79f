/** The story use cases over tables updated in place. */
module StoryService {
  import opened Wrappers
  import opened StoryDomain
  import opened StoryFixpoint
  import opened StoryConcurrency
  import opened ScriptPath

  datatype StoryError = EpisodeNotFound | EpisodeLocked | ScriptNotFound | Failed

  /** port.PlayerProgress, or the error account answered with. */
  datatype PlayerProgress = PlayerProgress(level: int, ownedFactions: seq<string>)

  /** Which reads of the two tables fail during one call. */
  datatype Outage = Outage(episodes: bool, completed: bool)

  /** What a gate in front of an episode answers; None lets the player in. */
  function Gate(episodes: Catalog, done: set<(PlayerId, EpisodeId)>, account: Result<PlayerProgress, string>,
                player: PlayerId, id: EpisodeId, down: Outage): Option<StoryError> {
    if down.episodes then Some(Failed)
    else if id !in episodes || !episodes[id].isActive then Some(EpisodeNotFound)
    else if account.Err? || down.completed then Some(Failed)
    else if Unlocked(episodes[id], ContextFor(account.value, done, player)) then None
    else Some(EpisodeLocked)
  }

  function DoneBy(done: set<(PlayerId, EpisodeId)>, player: PlayerId): set<EpisodeId> {
    set pair | pair in done && pair.0 == player :: pair.1
  }

  function ContextFor(progress: PlayerProgress, done: set<(PlayerId, EpisodeId)>, player: PlayerId): UnlockContext {
    ContextOf(progress.level, (set f | f in progress.ownedFactions), DoneBy(done, player))
  }

  /** What the script store, or the error in place of it, holds for a template and a language. */
  function ScriptFor(pathTemplate: string, lang: string, scripts: Result<map<string, string>, string>)
    : Result<string, StoryError>
  {
    match scripts
    case Err(_) => Err(Failed)
    case Ok(store) =>
      var key := ReplaceAll(pathTemplate, LANG, lang);
      if key in store then Ok(store[key]) else Err(ScriptNotFound)
  }

  /** What the script store answers, against the pieces between the placeholders. */
  lemma ScriptSpelled(pathTemplate: string, lang: string, scripts: Result<map<string, string>, string>)
    ensures var r := ScriptFor(pathTemplate, lang, scripts);
            forall pieces | pieces != [] && Leftmost(pieces, "{lang}") && pathTemplate == Join(pieces, "{lang}") ::
              && (r == Err(Failed) <==> scripts.Err?)
              && (r == Err(ScriptNotFound) <==> scripts.Ok? && Join(pieces, lang) !in scripts.value)
              && (r.Ok? <==> scripts.Ok? && Join(pieces, lang) in scripts.value)
              && (r.Ok? ==> r.value == scripts.value[Join(pieces, lang)])
  {
    forall pieces | pieces != [] && Leftmost(pieces, "{lang}") && pathTemplate == Join(pieces, "{lang}")
      ensures ReplaceAll(pathTemplate, LANG, lang) == Join(pieces, lang)
    {
      ReplaceJoined(pieces, "{lang}", lang);
    }
  }

  /** The episode's requirements, against what account reports and the table of completions. */
  predicate Meets(ep: Episode, progress: PlayerProgress, done: set<(PlayerId, EpisodeId)>, player: PlayerId) {
    && progress.level >= ep.requiredLevel
    && (forall f | f in ep.requiredFactions :: f in progress.ownedFactions)
    && (forall e | e in ep.requiredEpisodes :: (player, e) in done)
  }

  lemma MeetsIsUnlocked(ep: Episode, progress: PlayerProgress, done: set<(PlayerId, EpisodeId)>, player: PlayerId)
    ensures Unlocked(ep, ContextFor(progress, done, player))
            <==> && progress.level >= ep.requiredLevel
                 && (forall f | f in ep.requiredFactions :: f in progress.ownedFactions)
                 && (forall e | e in ep.requiredEpisodes :: (player, e) in done)
  {
    UnlockedMeans(ep, ContextFor(progress, done, player));
    forall e
      ensures e in DoneBy(done, player) <==> (player, e) in done
    {
    }
  }

  /** Each answer of the gate, in its own case. */
  lemma GateSpelled(episodes: Catalog, done: set<(PlayerId, EpisodeId)>, account: Result<PlayerProgress, string>,
                    player: PlayerId, id: EpisodeId, down: Outage)
    ensures var gate := Gate(episodes, done, account, player, id, down);
            var found := !down.episodes && id in episodes && episodes[id].isActive;
            && (gate == Some(EpisodeNotFound) <==> !down.episodes && !(id in episodes && episodes[id].isActive))
            && (gate == Some(Failed) <==> down.episodes || (found && (account.Err? || down.completed)))
            && (gate == Some(EpisodeLocked) <==>
                  found && account.Ok? && !down.completed && !Meets(episodes[id], account.value, done, player))
            && (gate.None? <==> found && account.Ok? && !down.completed && Meets(episodes[id], account.value, done, player))
  {
    if id in episodes && account.Ok? {
      MeetsIsUnlocked(episodes[id], account.value, done, player);
    }
  }

  const UP := Outage(false, false)

  /** The fixed world of the fixpoint theorems, as the tables and account show it. */
  function WorldFor(episodes: Catalog, progress: PlayerProgress): World {
    WorldOf(episodes, Account(progress.level, set f | f in progress.ownedFactions))
  }

  /** With everything up, the gate is the unlock rule of the fixpoint theorems. */
  lemma GateIsUnlockRule(episodes: Catalog, done: set<(PlayerId, EpisodeId)>, progress: PlayerProgress,
                         player: PlayerId, id: EpisodeId)
    ensures Gate(episodes, done, Ok(progress), player, id, UP).None?
            <==> Allowed(WorldFor(episodes, progress), DoneBy(done, player), id)
  {
    assert Context(WorldFor(episodes, progress), DoneBy(done, player)) == ContextFor(progress, done, player);
  }

  lemma InsertAddsOne(done: set<(PlayerId, EpisodeId)>, player: PlayerId, id: EpisodeId, other: PlayerId)
    ensures DoneBy(done + {(player, id)}, other) == DoneBy(done, other) + (if other == player then {id} else {})
  {
    forall e
      ensures e in DoneBy(done + {(player, id)}, other)
              <==> e in DoneBy(done, other) + (if other == player then {id} else {})
    {
      assert e in DoneBy(done, other) <==> (other, e) in done;
      assert e in DoneBy(done + {(player, id)}, other) <==> (other, e) in done + {(player, id)};
    }
  }

  class StoryRepository {
    var episodes: Catalog
    var progress: set<(PlayerId, EpisodeId)>

    /** The primary key of each row is the episode's own id. */
    ghost predicate Valid()
      reads this
    {
      forall id | id in episodes :: episodes[id].episodeId == id
    }

    constructor (episodes: Catalog)
      requires forall id | id in episodes :: episodes[id].episodeId == id
      ensures Valid() && this.episodes == episodes && progress == {}
    {
      this.episodes := episodes;
      progress := {};
    }

    /** FindEpisodeByID: the row with that key, active or not. */
    method FindEpisodeByID(id: EpisodeId, down: bool) returns (r: Result<Episode, StoryError>)
      requires Valid()
      ensures r == if down then Err(Failed) else if id in episodes then Ok(episodes[id]) else Err(EpisodeNotFound)
      ensures r.Ok? ==> r.value.episodeId == id
    {
      if down {
        return Err(Failed);
      }
      return if id in episodes then Ok(episodes[id]) else Err(EpisodeNotFound);
    }

    /** ListActiveEpisodes: exactly the active episodes, each once, by sort_order. */
    method ListActiveEpisodes(down: bool) returns (r: Result<seq<Episode>, StoryError>)
      requires Valid()
      ensures r.Err? <==> down
      ensures r.Err? ==> r.error == Failed
      ensures r.Ok? ==> ActiveList(episodes, r.value)
    {
      if down {
        return Err(Failed);
      }
      var list := SelectActive();
      return Ok(list);
    }

    method SelectActive() returns (list: seq<Episode>)
      requires Valid()
      ensures ActiveList(episodes, list)
    {
      list := [];
      var left := set id | id in episodes && episodes[id].isActive;
      while left != {}
        invariant Listed(episodes, list, left) && Ordered(episodes, list, left)
        decreases left
      {
        FirstExists(episodes, left);
        var id :| id in left && forall j | j in left :: episodes[id].sortOrder <= episodes[j].sortOrder;
        ListNext(episodes, list, left, id);
        OrderedNext(episodes, list, left, id);
        list := list + [episodes[id]];
        left := left - {id};
      }
    }

    /** GetCompletedEpisodeIDs: each completed id once, in no promised order. */
    method GetCompletedEpisodeIDs(player: PlayerId, down: bool) returns (r: Result<seq<EpisodeId>, StoryError>)
      ensures r.Err? <==> down
      ensures r.Err? ==> r.error == Failed
      ensures r.Ok? ==> (set id | id in r.value) == DoneBy(progress, player)
      ensures r.Ok? ==> forall i, j | 0 <= i < j < |r.value| :: r.value[i] != r.value[j]
    {
      if down {
        return Err(Failed);
      }
      var ids: seq<EpisodeId> := [];
      var left := DoneBy(progress, player);
      while left != {}
        invariant left <= DoneBy(progress, player)
        invariant (set id | id in ids) == DoneBy(progress, player) - left
        invariant forall i, j | 0 <= i < j < |ids| :: ids[i] != ids[j]
        decreases left
      {
        var id :| id in left;
        assert id !in ids by {
          assert id !in (set e | e in ids);
        }
        assert (set e | e in ids + [id]) == (set e | e in ids) + {id};
        ids := ids + [id];
        left := left - {id};
      }
      return Ok(ids);
    }

    /** MarkComplete: ON CONFLICT DO NOTHING makes it idempotent. */
    method MarkComplete(player: PlayerId, id: EpisodeId, fault: Fault) returns (ok: bool)
      modifies this`progress
      ensures ok <==> fault.NoFault?
      ensures progress == if fault.NotApplied? then old(progress) else old(progress) + {(player, id)}
    {
      if !fault.NotApplied? {
        progress := progress + {(player, id)};
      }
      return fault.NoFault?;
    }
  }

  /** Exactly the active episodes, each once, by sort_order. */
  ghost predicate ActiveList(episodes: Catalog, list: seq<Episode>) {
    && (forall i | 0 <= i < |list| ::
          list[i].episodeId in episodes && episodes[list[i].episodeId] == list[i] && list[i].isActive)
    && (forall id | id in episodes && episodes[id].isActive :: episodes[id] in list)
    && (forall i, j | 0 <= i < j < |list| ::
          list[i].sortOrder <= list[j].sortOrder && list[i].episodeId != list[j].episodeId)
  }

  /** The active episodes are split between the list, each once, and what is left. */
  ghost predicate Listed(episodes: Catalog, list: seq<Episode>, left: set<EpisodeId>) {
    && (forall id | id in left :: id in episodes && episodes[id].isActive)
    && (forall i | 0 <= i < |list| ::
          list[i].episodeId in episodes && episodes[list[i].episodeId] == list[i] && list[i].isActive
          && list[i].episodeId !in left)
    && (forall id | id in episodes && episodes[id].isActive :: id in left || episodes[id] in list)
    && (forall i, j | 0 <= i < j < |list| :: list[i].episodeId != list[j].episodeId)
  }

  lemma ListNext(episodes: Catalog, list: seq<Episode>, left: set<EpisodeId>, id: EpisodeId)
    requires Listed(episodes, list, left) && id in left && episodes[id].episodeId == id
    ensures Listed(episodes, list + [episodes[id]], left - {id})
  {
    var list' := list + [episodes[id]];
    assert list'[|list|] == episodes[id];
    forall e | e in episodes && episodes[e].isActive
      ensures e in left - {id} || episodes[e] in list'
    {
      if e != id && e !in left {
        assert episodes[e] in list;
      }
    }
  }

  ghost predicate Ordered(episodes: Catalog, list: seq<Episode>, left: set<EpisodeId>)
    requires left <= episodes.Keys
  {
    && (forall i, j | 0 <= i < j < |list| :: list[i].sortOrder <= list[j].sortOrder)
    && (forall i, id | 0 <= i < |list| && id in left :: list[i].sortOrder <= episodes[id].sortOrder)
  }

  lemma OrderedNext(episodes: Catalog, list: seq<Episode>, left: set<EpisodeId>, id: EpisodeId)
    requires left <= episodes.Keys && Ordered(episodes, list, left)
    requires id in left && forall j | j in left :: episodes[id].sortOrder <= episodes[j].sortOrder
    ensures Ordered(episodes, list + [episodes[id]], left - {id})
  {
  }

  lemma {:induction false} FirstExists(episodes: Catalog, ids: set<EpisodeId>)
    requires ids != {} && ids <= episodes.Keys
    ensures exists i :: i in ids && forall j | j in ids :: episodes[i].sortOrder <= episodes[j].sortOrder
    decreases |ids|
  {
    var x :| x in ids;
    if ids == {x} {
      assert forall j | j in ids :: episodes[x].sortOrder <= episodes[j].sortOrder;
    } else {
      FirstExists(episodes, ids - {x});
      var i :| i in ids - {x} && forall j | j in ids - {x} :: episodes[i].sortOrder <= episodes[j].sortOrder;
      var first := if episodes[x].sortOrder <= episodes[i].sortOrder then x else i;
      assert first in ids && forall j | j in ids :: episodes[first].sortOrder <= episodes[j].sortOrder;
    }
  }

  class Service {
    const repo: StoryRepository

    constructor (repo: StoryRepository)
      ensures this.repo == repo
    {
      this.repo := repo;
    }

    /** loadUnlockContext: two loops that fill the maps. */
    method LoadUnlockContext(account: Result<PlayerProgress, string>, player: PlayerId, down: Outage)
      returns (uc: Result<UnlockContext, StoryError>)
      ensures uc.Ok? <==> account.Ok? && !down.completed
      ensures uc.Err? ==> uc.error == Failed
      ensures uc.Ok? ==> uc.value == ContextFor(account.value, repo.progress, player)
    {
      if account.Err? {
        return Err(Failed);
      }
      var found := repo.GetCompletedEpisodeIDs(player, down.completed);
      if found.Err? {
        return Err(found.error);
      }
      var completed := found.value;
      var owned: map<string, bool> := map[];
      var i := 0;
      while i < |account.value.ownedFactions|
        invariant 0 <= i <= |account.value.ownedFactions|
        invariant owned == Flags(set k | 0 <= k < i :: account.value.ownedFactions[k])
      {
        owned := owned[account.value.ownedFactions[i] := true];
        i := i + 1;
      }
      var flags: map<EpisodeId, bool> := map[];
      i := 0;
      while i < |completed|
        invariant 0 <= i <= |completed|
        invariant flags == Flags(set k | 0 <= k < i :: completed[k])
      {
        flags := flags[completed[i] := true];
        i := i + 1;
      }
      assert (set k | 0 <= k < |completed| :: completed[k]) == DoneBy(repo.progress, player);
      assert (set k | 0 <= k < |account.value.ownedFactions| :: account.value.ownedFactions[k])
          == (set f | f in account.value.ownedFactions);
      return Ok(UnlockContext(account.value.level, owned, flags));
    }

    /** validateUnlock: an unknown standing is an error, not a lock. */
    method ValidateUnlock(ep: Episode, account: Result<PlayerProgress, string>, player: PlayerId, down: Outage)
      returns (err: Option<StoryError>)
      ensures err == Some(Failed) <==> account.Err? || down.completed
      ensures err == Some(EpisodeLocked) <==>
                account.Ok? && !down.completed && !Unlocked(ep, ContextFor(account.value, repo.progress, player))
      ensures err.Some? ==> err == Some(Failed) || err == Some(EpisodeLocked)
    {
      var uc := LoadUnlockContext(account, player, down);
      if uc.Err? {
        return Some(uc.error);
      }
      var reasons := LockReasons(ep, uc.value);
      return if |reasons| > 0 then Some(EpisodeLocked) else None;
    }

    /** The common front of GetScript and CompleteEpisode: find, active, unlocked. */
    method Admit(account: Result<PlayerProgress, string>, player: PlayerId, id: EpisodeId, down: Outage)
      returns (r: Result<Episode, StoryError>)
      requires repo.Valid()
      ensures match Gate(repo.episodes, repo.progress, account, player, id, down)
              case Some(e) => r == Err(e)
              case None => id in repo.episodes && r == Ok(repo.episodes[id])
    {
      r := repo.FindEpisodeByID(id, down.episodes);
      if r.Err? {
        return;
      }
      if !r.value.isActive {
        return Err(EpisodeNotFound);
      }
      var err := ValidateUnlock(r.value, account, player, down);
      if err.Some? {
        return Err(err.value);
      }
    }

    /** readScript: the body under the key that the template gives for this language. */
    method ReadScript(pathTemplate: string, lang: string, scripts: Result<map<string, string>, string>)
      returns (r: Result<string, StoryError>)
      ensures r == ScriptFor(pathTemplate, lang, scripts)
      ensures forall pieces | pieces != [] && Leftmost(pieces, "{lang}") && pathTemplate == Join(pieces, "{lang}") ::
                && (r == Err(Failed) <==> scripts.Err?)
                && (r == Err(ScriptNotFound) <==> scripts.Ok? && Join(pieces, lang) !in scripts.value)
                && (r.Ok? ==> scripts.Ok? && Join(pieces, lang) in scripts.value && r.value == scripts.value[Join(pieces, lang)])
    {
      ScriptSpelled(pathTemplate, lang, scripts);
      var key := ReplaceAll(pathTemplate, LANG, lang);
      if scripts.Err? {
        return Err(Failed);
      }
      return if key in scripts.value then Ok(scripts.value[key]) else Err(ScriptNotFound);
    }

    /** GetScript: past the gate, the script of the admitted episode in the wanted language. */
    method GetScript(account: Result<PlayerProgress, string>, player: PlayerId, id: EpisodeId, lang: string,
                     scripts: Result<map<string, string>, string>, down: Outage)
      returns (r: Result<string, StoryError>)
      requires repo.Valid()
      ensures match Gate(repo.episodes, repo.progress, account, player, id, down)
              case Some(e) => r == Err(e)
              case None => id in repo.episodes && r == ScriptFor(repo.episodes[id].scriptPath, lang, scripts)
      ensures r == Err(EpisodeNotFound) <==> !down.episodes && !(id in repo.episodes && repo.episodes[id].isActive)
      ensures r == Err(EpisodeLocked) <==>
                && !down.episodes && id in repo.episodes && repo.episodes[id].isActive
                && account.Ok? && !down.completed
                && !Meets(repo.episodes[id], account.value, repo.progress, player)
      ensures down.episodes ==> r == Err(Failed)
      ensures !down.episodes && id in repo.episodes && repo.episodes[id].isActive && (account.Err? || down.completed) ==>
                r == Err(Failed)
      ensures !down.episodes && id in repo.episodes && repo.episodes[id].isActive && account.Ok? && !down.completed
              && Meets(repo.episodes[id], account.value, repo.progress, player) ==>
                forall pieces | pieces != [] && Leftmost(pieces, "{lang}")
                                && repo.episodes[id].scriptPath == Join(pieces, "{lang}") ::
                  && (r == Err(Failed) <==> scripts.Err?)
                  && (r == Err(ScriptNotFound) <==> scripts.Ok? && Join(pieces, lang) !in scripts.value)
                  && (r.Ok? <==> scripts.Ok? && Join(pieces, lang) in scripts.value)
                  && (r.Ok? ==> r.value == scripts.value[Join(pieces, lang)])
    {
      GateSpelled(repo.episodes, repo.progress, account, player, id, down);
      if id in repo.episodes {
        ScriptSpelled(repo.episodes[id].scriptPath, lang, scripts);
      }
      var ep := Admit(account, player, id, down);
      if ep.Err? {
        return Err(ep.error);
      }
      r := ReadScript(ep.value.scriptPath, lang, scripts);
    }

    /** CompleteEpisode: records exactly this completion, and only past the gate. */
    method CompleteEpisode(account: Result<PlayerProgress, string>, player: PlayerId, id: EpisodeId,
                           down: Outage, fault: Fault)
      returns (err: Option<StoryError>)
      requires repo.Valid()
      modifies repo`progress
      ensures var gate := Gate(repo.episodes, old(repo.progress), account, player, id, down);
              && repo.progress == (if gate.None? && !fault.NotApplied? then old(repo.progress) + {(player, id)}
                                   else old(repo.progress))
              && err == (if gate.Some? then gate else if fault.NoFault? then None else Some(Failed))
      ensures account.Ok? && down == UP && fault.NoFault? ==>
                DoneBy(repo.progress, player) ==
                  Complete(WorldFor(repo.episodes, account.value), DoneBy(old(repo.progress), player), id)
      ensures forall other | other != player :: DoneBy(repo.progress, other) == DoneBy(old(repo.progress), other)
      ensures err == Some(EpisodeNotFound) <==> !down.episodes && !(id in repo.episodes && repo.episodes[id].isActive)
      ensures err == Some(EpisodeLocked) <==>
                && !down.episodes && id in repo.episodes && repo.episodes[id].isActive
                && account.Ok? && !down.completed
                && !Meets(repo.episodes[id], account.value, old(repo.progress), player)
      ensures err == Some(Failed) <==>
                || down.episodes
                || (id in repo.episodes && repo.episodes[id].isActive && (account.Err? || down.completed))
                || (id in repo.episodes && repo.episodes[id].isActive
                    && Meets(repo.episodes[id], account.value, old(repo.progress), player) && !fault.NoFault?)
      ensures err.None? <==>
                && !down.episodes && id in repo.episodes && repo.episodes[id].isActive
                && account.Ok? && !down.completed
                && Meets(repo.episodes[id], account.value, old(repo.progress), player) && fault.NoFault?
    {
      GateSpelled(repo.episodes, repo.progress, account, player, id, down);
      forall other {
        InsertAddsOne(repo.progress, player, id, other);
      }
      if account.Ok? {
        GateIsUnlockRule(repo.episodes, repo.progress, account.value, player, id);
      }
      var ep := Admit(account, player, id, down);
      if ep.Err? {
        return Some(ep.error);
      }
      var ok := repo.MarkComplete(player, id, fault);
      return if ok then None else Some(Failed);
    }

    /** ListEpisodes: what the list calls unlocked is exactly what the gate lets through. */
    method ListEpisodes(account: Result<PlayerProgress, string>, player: PlayerId, lang: string, down: Outage)
      returns (r: Result<seq<EpisodeWithStatus>, StoryError>)
      requires repo.Valid()
      ensures r.Ok? <==> account.Ok? && !down.episodes && !down.completed
      ensures r.Err? ==> r.error == Failed
      ensures r.Ok? ==>
                && (forall i | 0 <= i < |r.value| ::
                      && r.value[i].episodeId in repo.episodes
                      && Shows(r.value[i], repo.episodes[r.value[i].episodeId],
                               ContextFor(account.value, repo.progress, player), lang)
                      && (r.value[i].isUnlocked <==>
                            Gate(repo.episodes, repo.progress, account, player, r.value[i].episodeId, down).None?)
                      && (r.value[i].isUnlocked <==>
                            Meets(repo.episodes[r.value[i].episodeId], account.value, repo.progress, player))
                      && (lang == "en" ==> r.value[i].title == repo.episodes[r.value[i].episodeId].titleEn)
                      && (lang != "en" ==> r.value[i].title == repo.episodes[r.value[i].episodeId].titleJa)
                      && (r.value[i].isCompleted <==> (player, r.value[i].episodeId) in repo.progress))
                && (forall id | id in repo.episodes && repo.episodes[id].isActive ::
                      exists i :: 0 <= i < |r.value| && r.value[i].episodeId == id)
                && (forall i, j | 0 <= i < j < |r.value| ::
                      && r.value[i].episodeId != r.value[j].episodeId
                      && repo.episodes[r.value[i].episodeId].sortOrder <= repo.episodes[r.value[j].episodeId].sortOrder)
    {
      var found := repo.ListActiveEpisodes(down.episodes);
      if found.Err? {
        return Err(found.error);
      }
      var episodes := found.value;
      var uc := LoadUnlockContext(account, player, down);
      if uc.Err? {
        return Err(uc.error);
      }
      var list := BuildEpisodesWithStatus(episodes, uc.value, lang);
      forall i | 0 <= i < |list|
        ensures list[i].isUnlocked <==> Meets(episodes[i], account.value, repo.progress, player)
      {
        assert Shows(list[i], episodes[i], uc.value, lang);
        MeetsIsUnlocked(episodes[i], account.value, repo.progress, player);
      }
      forall id | id in repo.episodes && repo.episodes[id].isActive
        ensures exists i :: 0 <= i < |list| && list[i].episodeId == id
      {
        var i :| 0 <= i < |episodes| && episodes[i] == repo.episodes[id];
        assert Shows(list[i], episodes[i], uc.value, lang);
      }
      return Ok(list);
    }
  }
}
