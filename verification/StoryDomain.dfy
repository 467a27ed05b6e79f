/** Episodes, unlock requirements and the reasons an episode is locked. */
module StoryDomain {
  import opened Wrappers

  type EpisodeId = string

  datatype Episode = Episode(
    episodeId: EpisodeId,
    faction: Option<string>,
    episodeNumber: int,
    titleJa: string,
    titleEn: string,
    requiredLevel: int,
    requiredFactions: seq<string>,
    requiredEpisodes: seq<EpisodeId>,
    scriptPath: string,
    thumbnailPath: Option<string>,
    sortOrder: int,
    isActive: bool)

  datatype UnlockContext = UnlockContext(
    playerLevel: int,
    ownedFactions: map<string, bool>,
    completedEpisodes: map<EpisodeId, bool>)

  /** Reading a Go map[string]bool: a missing key is false. */
  predicate Has(m: map<string, bool>, k: string) {
    k in m && m[k]
  }

  /** Only the fields that belong to the reason's type; the others are zero in the source. */
  datatype LockReason =
    | LevelReason(requiredLevel: int, currentLevel: int)
    | FactionReason(requiredFaction: string)
    | EpisodeReason(requiredEpisode: EpisodeId)

  // ------------------------------------------------------------ requirements

  datatype Requirement = NeedsLevel(level: int) | NeedsFaction(faction: string) | NeedsEpisode(episode: EpisodeId)

  function FactionNeeds(factions: seq<string>): seq<Requirement> {
    seq(|factions|, i requires 0 <= i < |factions| => NeedsFaction(factions[i]))
  }

  function EpisodeNeeds(episodes: seq<EpisodeId>): seq<Requirement> {
    seq(|episodes|, i requires 0 <= i < |episodes| => NeedsEpisode(episodes[i]))
  }

  /** Everything an episode asks for, in order: level, factions, episodes. */
  function Requirements(ep: Episode): seq<Requirement> {
    [NeedsLevel(ep.requiredLevel)] + FactionNeeds(ep.requiredFactions) + EpisodeNeeds(ep.requiredEpisodes)
  }

  predicate Met(r: Requirement, uc: UnlockContext) {
    match r
    case NeedsLevel(n) => uc.playerLevel >= n
    case NeedsFaction(f) => Has(uc.ownedFactions, f)
    case NeedsEpisode(e) => Has(uc.completedEpisodes, e)
  }

  function ReasonFor(r: Requirement, uc: UnlockContext): LockReason {
    match r
    case NeedsLevel(n) => LevelReason(n, uc.playerLevel)
    case NeedsFaction(f) => FactionReason(f)
    case NeedsEpisode(e) => EpisodeReason(e)
  }

  /** The reasons for the unmet ones among the first n requirements. */
  function UnmetFirst(rs: seq<Requirement>, n: nat, uc: UnlockContext): seq<LockReason>
    requires n <= |rs|
  {
    if n == 0 then []
    else UnmetFirst(rs, n - 1, uc) + (if Met(rs[n - 1], uc) then [] else [ReasonFor(rs[n - 1], uc)])
  }

  function Unmet(rs: seq<Requirement>, uc: UnlockContext): seq<LockReason> {
    UnmetFirst(rs, |rs|, uc)
  }

  predicate Unlocked(ep: Episode, uc: UnlockContext) {
    forall r | r in Requirements(ep) :: Met(r, uc)
  }

  /**
   * `reasons` are the unmet ones among the first n requirements, each once per
   * occurrence, in order: `at` lists their positions and nothing else.
   */
  ghost predicate ListsUnmet(rs: seq<Requirement>, n: nat, uc: UnlockContext, reasons: seq<LockReason>, at: seq<int>)
    requires n <= |rs|
  {
    && |at| == |reasons|
    && (forall i, j | 0 <= i < j < |at| :: at[i] < at[j])
    && (forall k | 0 <= k < |at| :: 0 <= at[k] < n && !Met(rs[at[k]], uc) && reasons[k] == ReasonFor(rs[at[k]], uc))
    && (forall i | 0 <= i < n && !Met(rs[i], uc) :: i in at)
  }

  ghost predicate ExactlyUnmet(rs: seq<Requirement>, uc: UnlockContext, reasons: seq<LockReason>) {
    exists at :: ListsUnmet(rs, |rs|, uc, reasons, at)
  }

  lemma {:induction false} UnmetPositions(rs: seq<Requirement>, n: nat, uc: UnlockContext) returns (at: seq<int>)
    requires n <= |rs|
    ensures ListsUnmet(rs, n, uc, UnmetFirst(rs, n, uc), at)
  {
    at := [];
    if n > 0 {
      at := UnmetPositions(rs, n - 1, uc);
      if !Met(rs[n - 1], uc) {
        at := at + [n - 1];
        assert at[|at| - 1] == n - 1;
      }
    }
  }

  lemma UnmetIsExact(rs: seq<Requirement>, uc: UnlockContext)
    ensures ExactlyUnmet(rs, uc, Unmet(rs, uc))
  {
    var at := UnmetPositions(rs, |rs|, uc);
  }

  lemma NoReasonMeansUnlocked(rs: seq<Requirement>, uc: UnlockContext)
    ensures Unmet(rs, uc) == [] <==> forall r | r in rs :: Met(r, uc)
  {
    var at := UnmetPositions(rs, |rs|, uc);
    if Unmet(rs, uc) == [] {
      forall r | r in rs
        ensures Met(r, uc)
      {
        var i :| 0 <= i < |rs| && rs[i] == r;
      }
    } else {
      assert rs[at[0]] in rs;
    }
  }

  /** The reasons are exactly the unmet requirements, and there is none when the episode is unlocked. */
  lemma UnmetDecides(ep: Episode, uc: UnlockContext)
    ensures ExactlyUnmet(Requirements(ep), uc, Unmet(Requirements(ep), uc))
    ensures Unmet(Requirements(ep), uc) == [] <==> Unlocked(ep, uc)
  {
    UnmetIsExact(Requirements(ep), uc);
    NoReasonMeansUnlocked(Requirements(ep), uc);
  }

  lemma LevelFirst(ep: Episode)
    ensures |Requirements(ep)| == 1 + |ep.requiredFactions| + |ep.requiredEpisodes|
    ensures Requirements(ep)[0] == NeedsLevel(ep.requiredLevel)
  {
  }

  lemma FactionAt(ep: Episode, i: nat)
    requires i < |ep.requiredFactions|
    ensures |Requirements(ep)| > 1 + i && Requirements(ep)[1 + i] == NeedsFaction(ep.requiredFactions[i])
  {
  }

  lemma EpisodeAt(ep: Episode, i: nat)
    requires i < |ep.requiredEpisodes|
    ensures |Requirements(ep)| > 1 + |ep.requiredFactions| + i
    ensures Requirements(ep)[1 + |ep.requiredFactions| + i] == NeedsEpisode(ep.requiredEpisodes[i])
  {
  }

  /** One more requirement adds its own reason at the end, or nothing. */
  lemma UnmetNext(rs: seq<Requirement>, n: nat, r: Requirement, uc: UnlockContext)
    requires n < |rs| && rs[n] == r
    ensures UnmetFirst(rs, n + 1, uc) == UnmetFirst(rs, n, uc) + (if Met(r, uc) then [] else [ReasonFor(r, uc)])
  {
  }

  lemma UnmetIsListed(rs: seq<Requirement>, uc: UnlockContext, i: nat)
    requires i < |rs| && !Met(rs[i], uc)
    ensures ReasonFor(rs[i], uc) in Unmet(rs, uc)
  {
    var at := UnmetPositions(rs, |rs|, uc);
    assert i in at;
    var k :| 0 <= k < |at| && at[k] == i;
    assert Unmet(rs, uc)[k] == ReasonFor(rs[i], uc);
  }

  lemma ListedIsUnmet(rs: seq<Requirement>, uc: UnlockContext, r: LockReason) returns (i: nat)
    requires r in Unmet(rs, uc)
    ensures i < |rs| && !Met(rs[i], uc) && r == ReasonFor(rs[i], uc)
  {
    var at := UnmetPositions(rs, |rs|, uc);
    var k :| 0 <= k < |Unmet(rs, uc)| && Unmet(rs, uc)[k] == r;
    i := at[k];
  }

  /** The level comes first if it is missing. */
  lemma LevelLeads(rs: seq<Requirement>, n: nat, uc: UnlockContext)
    requires 0 < n <= |rs| && !Met(rs[0], uc)
    ensures UnmetFirst(rs, n, uc) != [] && UnmetFirst(rs, n, uc)[0] == ReasonFor(rs[0], uc)
  {
    if n > 1 {
      LevelLeads(rs, n - 1, uc);
    }
  }

  /** A requirement that an episode has is its level, one of its factions or one of its episodes. */
  lemma RequirementIs(ep: Episode, i: nat)
    requires i < |Requirements(ep)|
    ensures match Requirements(ep)[i]
            case NeedsLevel(n) => n == ep.requiredLevel
            case NeedsFaction(f) => f in ep.requiredFactions
            case NeedsEpisode(e) => e in ep.requiredEpisodes
  {
    LevelFirst(ep);
    if 0 < i <= |ep.requiredFactions| {
      FactionAt(ep, i - 1);
    } else if i > 0 {
      EpisodeAt(ep, i - 1 - |ep.requiredFactions|);
    }
  }

  /** The reasons, field by field. */
  lemma ReasonsSpelled(ep: Episode, uc: UnlockContext)
    ensures var reasons := Unmet(Requirements(ep), uc);
            && (forall r | r in reasons ::
                  match r
                  case LevelReason(required, current) =>
                    required == ep.requiredLevel && current == uc.playerLevel && current < required
                  case FactionReason(f) => f in ep.requiredFactions && !(f in uc.ownedFactions && uc.ownedFactions[f])
                  case EpisodeReason(e) => e in ep.requiredEpisodes && !(e in uc.completedEpisodes && uc.completedEpisodes[e]))
            && (uc.playerLevel < ep.requiredLevel ==>
                  reasons != [] && reasons[0] == LevelReason(requiredLevel := ep.requiredLevel, currentLevel := uc.playerLevel))
            && (forall f | f in ep.requiredFactions && !(f in uc.ownedFactions && uc.ownedFactions[f]) ::
                  FactionReason(f) in reasons)
            && (forall e | e in ep.requiredEpisodes && !(e in uc.completedEpisodes && uc.completedEpisodes[e]) ::
                  EpisodeReason(e) in reasons)
  {
    var rs := Requirements(ep);
    LevelFirst(ep);
    forall r | r in Unmet(rs, uc)
      ensures match r
              case LevelReason(required, current) =>
                required == ep.requiredLevel && current == uc.playerLevel && current < required
              case FactionReason(f) => f in ep.requiredFactions && !(f in uc.ownedFactions && uc.ownedFactions[f])
              case EpisodeReason(e) => e in ep.requiredEpisodes && !(e in uc.completedEpisodes && uc.completedEpisodes[e])
    {
      var i := ListedIsUnmet(rs, uc, r);
      RequirementIs(ep, i);
    }
    if uc.playerLevel < ep.requiredLevel {
      LevelLeads(rs, |rs|, uc);
    }
    forall f | f in ep.requiredFactions && !(f in uc.ownedFactions && uc.ownedFactions[f])
      ensures FactionReason(f) in Unmet(rs, uc)
    {
      var i :| 0 <= i < |ep.requiredFactions| && ep.requiredFactions[i] == f;
      FactionAt(ep, i);
      UnmetIsListed(rs, uc, 1 + i);
    }
    forall e | e in ep.requiredEpisodes && !(e in uc.completedEpisodes && uc.completedEpisodes[e])
      ensures EpisodeReason(e) in Unmet(rs, uc)
    {
      var i :| 0 <= i < |ep.requiredEpisodes| && ep.requiredEpisodes[i] == e;
      EpisodeAt(ep, i);
      UnmetIsListed(rs, uc, 1 + |ep.requiredFactions| + i);
    }
  }

  /** The two loops that append, over the requirements in order. */
  method CollectReasons(ep: Episode, uc: UnlockContext) returns (reasons: seq<LockReason>)
    ensures reasons == Unmet(Requirements(ep), uc)
  {
    ghost var rs := Requirements(ep);
    LevelFirst(ep);
    UnmetNext(rs, 0, NeedsLevel(ep.requiredLevel), uc);
    reasons := [];
    if uc.playerLevel < ep.requiredLevel {
      reasons := reasons + [LevelReason(ep.requiredLevel, uc.playerLevel)];
    }
    var i := 0;
    while i < |ep.requiredFactions|
      invariant 0 <= i <= |ep.requiredFactions|
      invariant reasons == UnmetFirst(rs, 1 + i, uc)
    {
      FactionAt(ep, i);
      UnmetNext(rs, 1 + i, NeedsFaction(ep.requiredFactions[i]), uc);
      if !Has(uc.ownedFactions, ep.requiredFactions[i]) {
        reasons := reasons + [FactionReason(ep.requiredFactions[i])];
      }
      i := i + 1;
    }
    i := 0;
    while i < |ep.requiredEpisodes|
      invariant 0 <= i <= |ep.requiredEpisodes|
      invariant reasons == UnmetFirst(rs, 1 + |ep.requiredFactions| + i, uc)
    {
      EpisodeAt(ep, i);
      UnmetNext(rs, 1 + |ep.requiredFactions| + i, NeedsEpisode(ep.requiredEpisodes[i]), uc);
      if !Has(uc.completedEpisodes, ep.requiredEpisodes[i]) {
        reasons := reasons + [EpisodeReason(ep.requiredEpisodes[i])];
      }
      i := i + 1;
    }
    assert 1 + |ep.requiredFactions| + i == |rs|;
    assert reasons == Unmet(rs, uc);
  }

  /** LockReasons: exactly the unmet requirements, in order, each with its own fields. */
  method LockReasons(ep: Episode, uc: UnlockContext) returns (reasons: seq<LockReason>)
    ensures ExactlyUnmet(Requirements(ep), uc, reasons)
    ensures reasons == Unmet(Requirements(ep), uc)
    ensures reasons == [] <==> Unlocked(ep, uc)
    ensures forall r | r in reasons ::
              match r
              case LevelReason(required, current) =>
                required == ep.requiredLevel && current == uc.playerLevel && current < required
              case FactionReason(f) => f in ep.requiredFactions && !(f in uc.ownedFactions && uc.ownedFactions[f])
              case EpisodeReason(e) => e in ep.requiredEpisodes && !(e in uc.completedEpisodes && uc.completedEpisodes[e])
    ensures uc.playerLevel < ep.requiredLevel ==>
              reasons != [] && reasons[0] == LevelReason(requiredLevel := ep.requiredLevel, currentLevel := uc.playerLevel)
    ensures forall f | f in ep.requiredFactions && !(f in uc.ownedFactions && uc.ownedFactions[f]) :: FactionReason(f) in reasons
    ensures forall e | e in ep.requiredEpisodes && !(e in uc.completedEpisodes && uc.completedEpisodes[e]) ::
              EpisodeReason(e) in reasons
  {
    reasons := CollectReasons(ep, uc);
    UnmetDecides(ep, uc);
    ReasonsSpelled(ep, uc);
  }

  /** What the unlock rule says, requirement by requirement. */
  lemma UnlockedMeans(ep: Episode, uc: UnlockContext)
    ensures Unlocked(ep, uc) <==>
              && uc.playerLevel >= ep.requiredLevel
              && (forall f | f in ep.requiredFactions :: Has(uc.ownedFactions, f))
              && (forall e | e in ep.requiredEpisodes :: Has(uc.completedEpisodes, e))
  {
    var rs := Requirements(ep);
    assert rs[0] == NeedsLevel(ep.requiredLevel);
    if Unlocked(ep, uc) {
      assert rs[0] in rs;
      forall f | f in ep.requiredFactions
        ensures Has(uc.ownedFactions, f)
      {
        var i :| 0 <= i < |ep.requiredFactions| && ep.requiredFactions[i] == f;
        assert rs[1 + i] == NeedsFaction(f) && rs[1 + i] in rs;
      }
      forall e | e in ep.requiredEpisodes
        ensures Has(uc.completedEpisodes, e)
      {
        var i :| 0 <= i < |ep.requiredEpisodes| && ep.requiredEpisodes[i] == e;
        assert rs[1 + |ep.requiredFactions| + i] == NeedsEpisode(e) && rs[1 + |ep.requiredFactions| + i] in rs;
      }
    }
  }

  /** The player has at least as much of everything. */
  ghost predicate AtLeast(uc: UnlockContext, uc': UnlockContext) {
    && uc.playerLevel <= uc'.playerLevel
    && (forall f | Has(uc.ownedFactions, f) :: Has(uc'.ownedFactions, f))
    && (forall e | Has(uc.completedEpisodes, e) :: Has(uc'.completedEpisodes, e))
  }

  lemma {:induction false} ProgressUnlocksFirst(rs: seq<Requirement>, n: nat, uc: UnlockContext, uc': UnlockContext)
    requires AtLeast(uc, uc') && n <= |rs|
    ensures |UnmetFirst(rs, n, uc')| <= |UnmetFirst(rs, n, uc)|
  {
    if n > 0 {
      ProgressUnlocksFirst(rs, n - 1, uc, uc');
    }
  }

  /** Progress never adds a reason: the list only gets shorter, and unlocked stays unlocked. */
  lemma ProgressUnlocks(ep: Episode, uc: UnlockContext, uc': UnlockContext)
    requires AtLeast(uc, uc')
    ensures |Unmet(Requirements(ep), uc')| <= |Unmet(Requirements(ep), uc)|
    ensures Unlocked(ep, uc) ==> Unlocked(ep, uc')
  {
    ProgressUnlocksFirst(Requirements(ep), |Requirements(ep)|, uc, uc');
  }

  // --------------------------------------------------------------- presenter

  datatype WireType = WireLevel | WireFaction | WireEpisode

  datatype WireLockReason = WireLockReason(
    kind: WireType,
    requiredLevel: Option<int>,
    currentLevel: Option<int>,
    requiredFaction: Option<string>,
    requiredEpisode: Option<EpisodeId>)

  function ToLockReason(r: LockReason): WireLockReason {
    match r
    case LevelReason(n, m) => WireLockReason(WireLevel, Some(n), Some(m), None, None)
    case FactionReason(f) => WireLockReason(WireFaction, None, None, Some(f), None)
    case EpisodeReason(e) => WireLockReason(WireEpisode, None, None, None, Some(e))
  }

  /** How a client reads a reason: the type says which fields are there. */
  function FromWire(w: WireLockReason): Option<LockReason> {
    match w
    case WireLockReason(WireLevel, Some(n), Some(m), None, None) => Some(LevelReason(n, m))
    case WireLockReason(WireFaction, None, None, Some(f), None) => Some(FactionReason(f))
    case WireLockReason(WireEpisode, None, None, None, Some(e)) => Some(EpisodeReason(e))
    case _ => None
  }

  datatype EpisodeWithStatus = EpisodeWithStatus(
    episodeId: EpisodeId,
    faction: Option<string>,
    episodeNumber: int,
    title: string,
    thumbnailUrl: Option<string>,
    isCompleted: bool,
    isUnlocked: bool,
    lockReasons: seq<WireLockReason>)

  function Title(ep: Episode, lang: string): string {
    if lang == "en" then ep.titleEn else ep.titleJa
  }

  /** What the list shows about one episode, against the unlock rule. */
  ghost predicate Shows(status: EpisodeWithStatus, ep: Episode, uc: UnlockContext, lang: string) {
    && status.episodeId == ep.episodeId && status.faction == ep.faction && status.episodeNumber == ep.episodeNumber
    && status.title == Title(ep, lang) && status.thumbnailUrl == ep.thumbnailPath
    && (status.isCompleted <==> Has(uc.completedEpisodes, ep.episodeId))
    && (status.isUnlocked <==> Unlocked(ep, uc))
    && |status.lockReasons| == |Unmet(Requirements(ep), uc)|
    && forall k | 0 <= k < |status.lockReasons| :: FromWire(status.lockReasons[k]) == Some(Unmet(Requirements(ep), uc)[k])
  }

  method ToLockReasons(reasons: seq<LockReason>) returns (wire: seq<WireLockReason>)
    ensures |wire| == |reasons|
    ensures forall k | 0 <= k < |reasons| :: FromWire(wire[k]) == Some(reasons[k])
    ensures forall k | 0 <= k < |reasons| ::
              match reasons[k]
              case LevelReason(required, current) =>
                && wire[k].kind == WireLevel && wire[k].requiredLevel == Some(required) && wire[k].currentLevel == Some(current)
                && wire[k].requiredFaction.None? && wire[k].requiredEpisode.None?
              case FactionReason(f) =>
                && wire[k].kind == WireFaction && wire[k].requiredFaction == Some(f)
                && wire[k].requiredLevel.None? && wire[k].currentLevel.None? && wire[k].requiredEpisode.None?
              case EpisodeReason(e) =>
                && wire[k].kind == WireEpisode && wire[k].requiredEpisode == Some(e)
                && wire[k].requiredLevel.None? && wire[k].currentLevel.None? && wire[k].requiredFaction.None?
  {
    var result := new WireLockReason[|reasons|](_ => WireLockReason(WireLevel, None, None, None, None));
    var i := 0;
    while i < |reasons|
      invariant 0 <= i <= |reasons|
      invariant forall k | 0 <= k < i :: result[k] == ToLockReason(reasons[k])
    {
      result[i] := ToLockReason(reasons[i]);
      i := i + 1;
    }
    wire := result[..];
  }

  method BuildEpisodeWithStatus(ep: Episode, uc: UnlockContext, lang: string) returns (status: EpisodeWithStatus)
    ensures Shows(status, ep, uc, lang)
    ensures lang == "en" ==> status.title == ep.titleEn
    ensures lang != "en" ==> status.title == ep.titleJa
  {
    var reasons := LockReasons(ep, uc);
    var wire := ToLockReasons(reasons);
    status := EpisodeWithStatus(ep.episodeId, ep.faction, ep.episodeNumber, Title(ep, lang), ep.thumbnailPath,
                                Has(uc.completedEpisodes, ep.episodeId), |reasons| == 0, wire);
  }

  /** One status per episode, in the same order, all against the same context. */
  method BuildEpisodesWithStatus(episodes: seq<Episode>, uc: UnlockContext, lang: string)
    returns (list: seq<EpisodeWithStatus>)
    ensures |list| == |episodes|
    ensures forall i | 0 <= i < |episodes| :: Shows(list[i], episodes[i], uc, lang)
    ensures lang == "en" ==> forall i | 0 <= i < |episodes| :: list[i].title == episodes[i].titleEn
    ensures lang != "en" ==> forall i | 0 <= i < |episodes| :: list[i].title == episodes[i].titleJa
  {
    var result := new EpisodeWithStatus[|episodes|](_ => EpisodeWithStatus("", None, 0, "", None, false, false, []));
    var i := 0;
    while i < |episodes|
      invariant 0 <= i <= |episodes|
      invariant forall k | 0 <= k < i :: Shows(result[k], episodes[k], uc, lang)
    {
      result[i] := BuildEpisodeWithStatus(episodes[i], uc, lang);
      i := i + 1;
    }
    list := result[..];
    forall i | 0 <= i < |episodes|
      ensures list[i].title == if lang == "en" then episodes[i].titleEn else episodes[i].titleJa
    {
      assert Shows(list[i], episodes[i], uc, lang);
    }
  }
}
