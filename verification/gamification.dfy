/**
 * The engagement engine of the portfolio site (`GamificationSystem`): XP and
 * levels, achievements unlocked at most once, a per-action-and-day audit log,
 * session statistics and the rules that unlock achievements.
 *
 * The browser is not modelled: the clock (`Date.now`), the day string
 * (`toDateString`), `document.hidden` and the number of page sections are
 * parameters, localStorage is the `store` field, and the grants that the
 * source defers with `setTimeout(…, 1000)` wait in the `pending` queue until
 * `FireTimer` runs the oldest one.
 */
module Gamification {
  import opened Wrappers
  import Seqs
  import Text
  import Achievements

  /** `levelThresholds`: the XP needed for levels 1 to 11. */
  const Thresholds: seq<int> := [0, 100, 250, 500, 1000, 1750, 2750, 4000, 5500, 7500, 10000]

  /** XP awarded by the rules below (`xpValues`, the entries the engine itself uses). */
  const SectionViewXP := 10
  const InteractionXP := 2
  const TimeMilestoneXP := 25
  const ExplorerBonusXP := 100
  const PageVisitXP := 5
  const LongSessionXP := 50
  const DefaultAchievementXP := 25

  /** Five minutes, ten minutes, fifteen and thirty, in milliseconds. */
  const MilestoneMs := 300000
  const LongSessionMs := 600000

  /** Number of finished sessions kept in the stored history. */
  const SessionHistoryCap := 20

  lemma ThresholdsIncreasing()
    ensures forall i, j :: 0 <= i < j < |Thresholds| ==> Thresholds[i] < Thresholds[j]
  {
  }

  /** Level by an ascending scan: one more than the last threshold reached from position `i` on. */
  function LevelFrom(xp: int, i: nat): int
    requires i <= |Thresholds|
    decreases |Thresholds| - i
  {
    if i < |Thresholds| && Thresholds[i] <= xp then LevelFrom(xp, i + 1)
    else if i == 0 then 1
    else i
  }

  /** The level that `xp` earns: the number of thresholds reached, and at least 1. */
  function Level(xp: int): int
  {
    LevelFrom(xp, 0)
  }

  lemma {:induction false} LevelFromIs(xp: int, k: nat, r: nat)
    requires 1 <= r <= |Thresholds| && k <= r
    requires forall j :: k <= j < r ==> Thresholds[j] <= xp
    requires r == |Thresholds| || xp < Thresholds[r]
    ensures LevelFrom(xp, k) == r
    decreases r - k
  {
    if k < r { LevelFromIs(xp, k + 1, r); }
  }

  /**
   * `Level` picks the largest `i + 1` whose threshold `xp` reaches: every
   * level lies in 1..11, and any xp below 100, negative xp included, is level 1.
   */
  lemma LevelSpec(xp: int)
    ensures 1 <= Level(xp) <= |Thresholds|
    ensures xp < Thresholds[1] ==> Level(xp) == 1
    ensures 0 <= xp ==> Thresholds[Level(xp) - 1] <= xp
    ensures Level(xp) < |Thresholds| ==> xp < Thresholds[Level(xp)]
  {
    ThresholdsIncreasing();
    if xp < 0 {
      assert LevelFrom(xp, 0) == 1;
    } else {
      var k := 1;
      while k < |Thresholds| && Thresholds[k] <= xp
        invariant 1 <= k <= |Thresholds| && Thresholds[k - 1] <= xp
        decreases |Thresholds| - k
      {
        k := k + 1;
      }
      LevelFromIs(xp, 0, k);
    }
  }

  /** More XP never means a lower level. */
  lemma LevelMonotone(a: int, b: int)
    requires a <= b
    ensures Level(a) <= Level(b)
  {
    LevelSpec(a);
    LevelSpec(b);
    ThresholdsIncreasing();
    assert forall i, j :: 0 <= i <= j < |Thresholds| ==> Thresholds[i] <= Thresholds[j];
  }

  /**
   * `calculateLevel`: scan the thresholds from the top and return one more
   * than the index of the first one `xp` reaches; 1 when it reaches none.
   */
  method CalculateLevel(xp: int) returns (level: int)
    ensures level == Level(xp)
    ensures 1 <= level <= |Thresholds|
    ensures xp < Thresholds[1] ==> level == 1
    ensures 0 <= xp ==> Thresholds[level - 1] <= xp
    ensures level < |Thresholds| ==> xp < Thresholds[level]
  {
    LevelSpec(xp);
    ThresholdsIncreasing();
    var i := |Thresholds| - 1;
    while i >= 0
      invariant -1 <= i < |Thresholds|
      invariant forall j :: i < j < |Thresholds| ==> xp < Thresholds[j]
    {
      if xp >= Thresholds[i] {
        LevelFromIs(xp, 0, i + 1);
        return i + 1;
      }
      i := i - 1;
    }
    return 1;
  }

  /** `checkLevelAchievements`: the achievement a level names, if any. */
  function LevelAchievementId(level: int): (r: Option<string>)
    ensures r.Some? <==> level in {5, 10, 15, 20}
  {
    if level == 5 then Some("rising-star")
    else if level == 10 then Some("experienced")
    else if level == 15 then Some("expert")
    else if level == 20 then Some("master")
    else None
  }

  /** The level map names levels 15 and 20, but no XP reaches them: `expert` and `master` are never unlocked by level. */
  lemma LevelAchievementsReachable(xp: int)
    ensures LevelAchievementId(Level(xp)) != Some("expert")
    ensures LevelAchievementId(Level(xp)) != Some("master")
    ensures xp >= Thresholds[4] && xp < Thresholds[5] ==> LevelAchievementId(Level(xp)) == Some("rising-star")
    ensures xp >= Thresholds[9] && xp < Thresholds[10] ==> LevelAchievementId(Level(xp)) == Some("experienced")
  {
    LevelSpec(xp);
    ThresholdsIncreasing();
  }

  // ---------------------------------------------------------------- state

  /** One value of the `achievements` Map: a catalog entry plus its unlock state. */
  datatype AchievementState = AchievementState(def: Achievements.Achievement, unlocked: bool, unlockedAt: Option<int>)

  /** One value of the `actions` Map. `lastOccurrence` is absent until the first update. */
  datatype ActionRecord = ActionRecord(action: string, count: int, totalXP: int, firstOccurrence: int, lastOccurrence: Option<int>)

  /** `sessionStats`. */
  datatype SessionStats = SessionStats(startTime: int, sectionsVisited: set<string>, interactionsCount: int, timeSpent: int)

  /** One entry of the stored `sessionHistory`. */
  datatype SessionRecord = SessionRecord(duration: int, sectionsVisited: set<string>, interactionsCount: int, timestamp: int)

  /**
   * The object stored under `gamificationData`, after `JSON.parse`. A field
   * that is missing or `null` is `None`; the entries arrays of the two Maps
   * are kept as the maps they encode.
   */
  datatype Blob = Blob(
    xp: Option<int>,
    level: Option<int>,
    achievements: Option<map<string, AchievementState>>,
    actions: Option<map<string, ActionRecord>>,
    lastUpdated: Option<int>)

  /** What `localStorage.getItem('gamificationData')` yields: nothing or "", text `JSON.parse` rejects, or an object. */
  datatype StoredProgress = Absent | Unparseable | Parsed(blob: Blob)

  /** The localStorage items the engine reads and writes. */
  datatype Storage = Storage(
    gamificationData: StoredProgress,
    hasVisitedBefore: bool,
    visitCount: int,
    sessionHistory: seq<SessionRecord>)

  /** A grant waiting for its one-second timer. */
  datatype Deferred =
    | AchievementXP(amount: int, title: string)   // `awardAchievementXP`: goes through `addXP`
    | LevelBonus(amount: int)                     // `addBonusReward`: added to the XP directly

  /** `a || d` for a number that may be missing: a missing value or 0 gives `d`. */
  function OrDefault(x: Option<int>, d: int): (r: int)
    ensures x.Some? && x.value != 0 ==> r == x.value
    ensures x.None? || x.value == 0 ==> r == d
  {
    match x
    case None => d
    case Some(v) => if v == 0 then d else v
  }

  /** `achievement.xpReward || 25`. */
  function RewardOf(a: Achievements.Achievement): (r: int)
    ensures a.xpReward != 0 ==> r == a.xpReward
    ensures a.xpReward == 0 ==> r == DefaultAchievementXP
  {
    OrDefault(Some(a.xpReward), DefaultAchievementXP)
  }

  /** The object `saveUserProgress` stores. */
  function Snapshot(xp: int, level: int, achievements: map<string, AchievementState>,
                    actions: map<string, ActionRecord>, now: int): Blob
  {
    Blob(Some(xp), Some(level), Some(achievements), Some(actions), Some(now))
  }

  /** The progress `loadUserProgress` takes from a stored object (with the `||` defaults). */
  datatype Progress = Progress(xp: int, level: int, achievements: map<string, AchievementState>, actions: map<string, ActionRecord>)

  function Restore(b: Blob): (p: Progress)
    ensures b.xp.Some? ==> p.xp == b.xp.value
    ensures b.xp.None? ==> p.xp == 0
    ensures b.level.Some? && b.level.value != 0 ==> p.level == b.level.value
    ensures b.level.None? || b.level == Some(0) ==> p.level == 1
    ensures p.achievements == if b.achievements.Some? then b.achievements.value else map[]
    ensures p.actions == if b.actions.Some? then b.actions.value else map[]
  {
    Progress(
      OrDefault(b.xp, 0),
      OrDefault(b.level, 1),
      if b.achievements.Some? then b.achievements.value else map[],
      if b.actions.Some? then b.actions.value else map[])
  }

  /**
   * What is saved is what is loaded back: XP, both Maps and any level but 0
   * (which `|| 1` turns into 1) survive a save and a load. The level is
   * taken as stored, not recomputed from the XP.
   */
  lemma {:induction false} SaveLoadRoundTrip(xp: int, level: int, achievements: map<string, AchievementState>,
                                             actions: map<string, ActionRecord>, now: int)
    ensures Restore(Snapshot(xp, level, achievements, actions, now))
            == Progress(xp, if level == 0 then 1 else level, achievements, actions)
  {
  }

  /** The entry `loadAchievements` creates for a catalog entry: locked, never unlocked. */
  function Fresh(a: Achievements.Achievement): (s: AchievementState)
    ensures !s.unlocked && s.unlockedAt.None? && s.def == a
  {
    AchievementState(a, false, None)
  }

  /** Whether `unlockAchievement(id)` does anything: the id is known and still locked. */
  predicate CanUnlock(achievements: map<string, AchievementState>, id: string)
  {
    id in achievements && !achievements[id].unlocked
  }

  /** The Map after `unlockAchievement(id)` at time `now`. */
  function Unlock(achievements: map<string, AchievementState>, id: string, now: int): (r: map<string, AchievementState>)
    ensures r.Keys == achievements.Keys
    ensures forall k :: k in achievements && k != id ==> r[k] == achievements[k]
    ensures CanUnlock(achievements, id) ==>
      r[id].unlocked && r[id].unlockedAt == Some(now) && r[id].def == achievements[id].def
    ensures !CanUnlock(achievements, id) ==> r == achievements
  {
    if CanUnlock(achievements, id) then achievements[id := achievements[id].(unlocked := true, unlockedAt := Some(now))]
    else achievements
  }

  /** The grant `unlockAchievement(id)` schedules: the reward (or 25), once, and only on an actual unlock. */
  function UnlockGrants(achievements: map<string, AchievementState>, id: string): (g: seq<Deferred>)
    ensures |g| == if CanUnlock(achievements, id) then 1 else 0
    ensures CanUnlock(achievements, id) ==>
      g[0] == AchievementXP(RewardOf(achievements[id].def), achievements[id].def.title)
  {
    if CanUnlock(achievements, id) then [AchievementXP(RewardOf(achievements[id].def), achievements[id].def.title)]
    else []
  }

  /** Two localStorage states that differ at most in the `gamificationData` item. */
  predicate SameOtherItems(a: Storage, b: Storage)
  {
    a.hasVisitedBefore == b.hasVisitedBefore && a.visitCount == b.visitCount && a.sessionHistory == b.sessionHistory
  }

  /** An unlocked achievement stays unlocked, with the same time, and no achievement disappears. */
  predicate UnlocksKept(before: map<string, AchievementState>, after: map<string, AchievementState>)
  {
    before.Keys <= after.Keys &&
    forall k :: k in before && before[k].unlocked ==> after[k] == before[k]
  }

  /** Unlocking twice is unlocking once: the second call changes nothing and grants nothing. */
  lemma UnlockOnce(achievements: map<string, AchievementState>, id: string, t1: int, t2: int)
    ensures Unlock(Unlock(achievements, id, t1), id, t2) == Unlock(achievements, id, t1)
    ensures UnlockGrants(Unlock(achievements, id, t1), id) == []
    ensures UnlocksKept(achievements, Unlock(achievements, id, t1))
  {
  }

  /** The `actions` key of an action on a day: the action, `_`, the day string. */
  function ActionKey(action: string, day: string): string
  {
    action + "_" + day
  }

  /** The `actions` Map after `trackAction(action, xp)` at time `now` on day `day`. */
  function Track(actions: map<string, ActionRecord>, action: string, xp: int, now: int, day: string): (r: map<string, ActionRecord>)
    ensures r.Keys == actions.Keys + {ActionKey(action, day)}
    ensures forall k :: k in actions && k != ActionKey(action, day) ==> r[k] == actions[k]
    ensures var key := ActionKey(action, day);
      && r[key].count == (if key in actions then actions[key].count else 0) + 1
      && r[key].totalXP == (if key in actions then actions[key].totalXP else 0) + xp
      && r[key].firstOccurrence == (if key in actions then actions[key].firstOccurrence else now)
      && r[key].action == (if key in actions then actions[key].action else action)
      && r[key].lastOccurrence == Some(now)
  {
    var key := ActionKey(action, day);
    var before := if key in actions then actions[key] else ActionRecord(action, 0, 0, now, None);
    actions[key := before.(count := before.count + 1, totalXP := before.totalXP + xp, lastOccurrence := Some(now))]
  }

  /** Tracking two actions on the same day under different names touches two different records. */
  lemma TrackSeparatesActions(actions: map<string, ActionRecord>, a: string, b: string, x: int, now: int, day: string)
    requires a != b
    ensures ActionKey(a, day) != ActionKey(b, day)
    ensures var r := Track(actions, a, x, now, day);
      ActionKey(b, day) in actions ==> r[ActionKey(b, day)] == actions[ActionKey(b, day)]
  {
    var ka, kb := ActionKey(a, day), ActionKey(b, day);
    if ka == kb {
      ActionKeyInjective(a, b, day);
    }
  }

  lemma {:induction false} ActionKeyInjective(a: string, b: string, day: string)
    requires ActionKey(a, day) == ActionKey(b, day)
    ensures a == b
  {
    var s := "_" + day;
    assert a + s == ActionKey(a, day) && b + s == ActionKey(b, day);
    assert |a| == |b|;
    assert a == (a + s)[..|a|] == (b + s)[..|b|] == b;
  }

  /** Ids of the achievements that are unlocked. */
  function UnlockedIds(achievements: map<string, AchievementState>): (r: set<string>)
    ensures r <= achievements.Keys
    ensures forall k :: k in r <==> k in achievements && achievements[k].unlocked
  {
    set k | k in achievements && achievements[k].unlocked
  }

  /** `getUnlockedCount() <= getTotalAchievements()`. */
  lemma UnlockedAtMostTotal(achievements: map<string, AchievementState>)
    ensures |UnlockedIds(achievements)| <= |achievements|
  {
    assert |achievements.Keys| == |achievements|;
    SubsetCard(UnlockedIds(achievements), achievements.Keys);
  }

  lemma {:induction false} SubsetCard(a: set<string>, b: set<string>)
    requires a <= b
    ensures |a| <= |b|
  {
    if a != {} {
      var x :| x in a;
      SubsetCard(a - {x}, b - {x});
    }
  }

  /** The stored session history after `saveSessionStats`. */
  function PushSession(history: seq<SessionRecord>, record: SessionRecord): seq<SessionRecord>
  {
    Seqs.KeepLast(history + [record], SessionHistoryCap)
  }

  lemma PushSessionBound(history: seq<SessionRecord>, record: SessionRecord)
    ensures |PushSession(history, record)| <= SessionHistoryCap
  {
  }

  /** The new record comes last, at most 20 are kept, and the ones kept are the latest of the old history. */
  lemma PushSessionSpec(history: seq<SessionRecord>, record: SessionRecord)
    ensures var r := PushSession(history, record);
      && |r| <= SessionHistoryCap
      && |r| == (if |history| < SessionHistoryCap then |history| + 1 else SessionHistoryCap)
      && r[|r| - 1] == record
      && r[..|r| - 1] == Seqs.KeepLast(history, SessionHistoryCap - 1)
  {
    Seqs.KeepLastAppend(history, record, SessionHistoryCap);
  }

  // ---------------------------------------------------------------- steps

  /** All fields of the engine at one moment; each method of the class is one step between two of these. */
  datatype Engine = Engine(
    xp: int,
    level: int,
    achievements: map<string, AchievementState>,
    actions: map<string, ActionRecord>,
    session: SessionStats,
    store: Storage,
    pending: seq<Deferred>)

  /** `saveUserProgress`: only the stored progress item changes. */
  function Saved(e: Engine, now: int): (r: Engine)
    ensures r.store.gamificationData == Parsed(Snapshot(e.xp, e.level, e.achievements, e.actions, now))
    ensures r.(store := e.store) == e && SameOtherItems(e.store, r.store)
  {
    e.(store := e.store.(gamificationData := Parsed(Snapshot(e.xp, e.level, e.achievements, e.actions, now))))
  }

  /** The ids of the catalog: exactly those `getById` finds. */
  function CatalogIds(catalog: seq<Achievements.Achievement>): (r: set<string>)
    ensures forall k :: k in r <==> Achievements.GetById(catalog, k).Some?
  {
    set a | a in catalog :: a.id
  }

  /** The Map after `loadAchievements`: every catalog id missing from it added, locked. */
  function WithCatalog(achievements: map<string, AchievementState>, catalog: seq<Achievements.Achievement>): (r: map<string, AchievementState>)
    ensures forall k :: k in r <==> k in achievements || Achievements.GetById(catalog, k).Some?
    ensures forall k :: k in achievements ==> r[k] == achievements[k]
    ensures forall k :: k in r && k !in achievements ==> r[k] == Fresh(Achievements.GetById(catalog, k).value)
  {
    map k | k in achievements.Keys + CatalogIds(catalog) ::
      if k in achievements then achievements[k] else Fresh(Achievements.GetById(catalog, k).value)
  }

  /** A Map that keeps every old entry and adds exactly the missing catalog ids, locked, is `WithCatalog`. */
  lemma WithCatalogUnique(before: map<string, AchievementState>, after: map<string, AchievementState>,
                          catalog: seq<Achievements.Achievement>)
    requires forall k :: k in after <==> k in before || Achievements.GetById(catalog, k).Some?
    requires forall k :: k in before ==> after[k] == before[k]
    requires forall k :: k in after && k !in before ==> after[k] == Fresh(Achievements.GetById(catalog, k).value)
    ensures after == WithCatalog(before, catalog)
  {
    var w := WithCatalog(before, catalog);
    forall k ensures k in after <==> k in w {
      assert k in after <==> k in before || Achievements.GetById(catalog, k).Some?;
    }
    forall k | k in after ensures after[k] == w[k] {
      if k !in before {
        assert after[k] == Fresh(Achievements.GetById(catalog, k).value) == w[k];
      }
    }
  }

  /** `loadUserProgress`: a stored object replaces XP, level and both Maps; anything else changes nothing. */
  function ProgressLoaded(e: Engine): Engine
  {
    match e.store.gamificationData
    case Parsed(b) =>
      var p := Restore(b);
      e.(xp := p.xp, level := p.level, achievements := p.achievements, actions := p.actions)
    case _ => e
  }

  /** `unlockAchievement(id)`: a known, locked id is unlocked, its reward queued and the progress saved. */
  function Unlocked(e: Engine, id: string, now: int): (r: Engine)
    ensures r.xp == e.xp && r.level == e.level && r.actions == e.actions && r.session == e.session
    ensures r.achievements == Unlock(e.achievements, id, now)
    ensures r.pending == e.pending + UnlockGrants(e.achievements, id)
    ensures SameOtherItems(e.store, r.store)
    ensures UnlocksKept(e.achievements, r.achievements)
  {
    if CanUnlock(e.achievements, id) then
      Saved(e.(achievements := Unlock(e.achievements, id, now), pending := e.pending + UnlockGrants(e.achievements, id)), now)
    else e
  }

  /** `checkLevelAchievements(level)`. */
  function LevelChecked(e: Engine, level: int, now: int): Engine
  {
    match LevelAchievementId(level)
    case None => e
    case Some(id) => Unlocked(e, id, now)
  }

  /** `addBonusReward(level)`: the bonus waits for its timer. */
  function BonusScheduled(e: Engine, level: int): Engine
  {
    e.(pending := e.pending + [LevelBonus(level * 10)])
  }

  /** The Map after reaching `level`: its achievement unlocked, if it names one. */
  function LevelUnlock(achievements: map<string, AchievementState>, level: int, now: int): map<string, AchievementState>
  {
    match LevelAchievementId(level)
    case None => achievements
    case Some(id) => Unlock(achievements, id, now)
  }

  /** The grants that reaching `level` queues: its achievement's reward, if any. */
  function LevelGrants(achievements: map<string, AchievementState>, level: int): seq<Deferred>
  {
    match LevelAchievementId(level)
    case None => []
    case Some(id) => UnlockGrants(achievements, id)
  }

  /** The first half of `addXP`: the XP grows, the level is recomputed, and a strictly higher level runs the level-up path. */
  function LeveledUp(e: Engine, amount: int, now: int): (r: Engine)
    ensures r.xp == e.xp + amount && r.level == Level(r.xp)
    ensures r.actions == e.actions && r.session == e.session && SameOtherItems(e.store, r.store)
    ensures r.level > e.level ==> r.achievements == LevelUnlock(e.achievements, r.level, now)
    ensures r.level > e.level ==> r.pending == e.pending + LevelGrants(e.achievements, r.level) + [LevelBonus(r.level * 10)]
    ensures r.level <= e.level ==> r.pending == e.pending && r.achievements == e.achievements && r.store == e.store
  {
    var e1 := e.(xp := e.xp + amount, level := Level(e.xp + amount));
    if e1.level > e.level then BonusScheduled(LevelChecked(e1, e1.level, now), e1.level) else e1
  }

  /**
   * `addXP(amount, reason)`: the XP grows by the amount and the level is
   * recomputed; a strictly higher level unlocks its achievement, if it names
   * one, and queues its bonus; the action is tracked and the progress saved.
   * Only the achievement the new level names can change.
   */
  function XPAdded(e: Engine, amount: int, reason: string, now: int, day: string): (r: Engine)
    ensures r.xp == e.xp + amount && r.level == Level(r.xp)
    ensures r.actions == Track(e.actions, reason, amount, now, day)
    ensures r.session == e.session && SameOtherItems(e.store, r.store)
    ensures r.store.gamificationData == Parsed(Snapshot(r.xp, r.level, r.achievements, r.actions, now))
    ensures r.level > e.level ==> r.achievements == LevelUnlock(e.achievements, r.level, now)
    ensures r.level > e.level ==> r.pending == e.pending + LevelGrants(e.achievements, r.level) + [LevelBonus(r.level * 10)]
    ensures r.level <= e.level ==> r.pending == e.pending && r.achievements == e.achievements
    ensures r.achievements.Keys == e.achievements.Keys
    ensures forall k :: k in e.achievements && Some(k) != LevelAchievementId(r.level) ==> r.achievements[k] == e.achievements[k]
    ensures UnlocksKept(e.achievements, r.achievements)
  {
    var e1 := LeveledUp(e, amount, now);
    Saved(e1.(actions := Track(e1.actions, reason, amount, now, day)), now)
  }

  /** The oldest timer fires: a level bonus is added as is, an achievement reward goes through `addXP`. */
  function TimerFired(e: Engine, now: int, day: string): Engine
    requires e.pending != []
  {
    var rest := e.(pending := e.pending[1..]);
    match e.pending[0]
    case LevelBonus(amount) => Saved(rest.(xp := rest.xp + amount), now)
    case AchievementXP(amount, title) => XPAdded(rest, amount, "Achievement: " + title, now, day)
  }

  /** `checkInteractionAchievements`. */
  function InteractionsChecked(e: Engine, now: int): Engine
  {
    var e1 := if e.session.interactionsCount >= 10 then Unlocked(e, "interactive", now) else e;
    if e.session.interactionsCount >= 50 then Unlocked(e1, "super-interactive", now) else e1
  }

  /** `checkTimeBasedAchievements`. */
  function TimeChecked(e: Engine, now: int): Engine
  {
    var t := e.session.timeSpent;
    var e1 := if t >= 5 * 60000 then Unlocked(e, "engaged", now) else e;
    var e2 := if t >= 15 * 60000 then Unlocked(e1, "dedicated", now) else e1;
    if t >= 30 * 60000 then Unlocked(e2, "devoted", now) else e2
  }

  /** `checkExplorerAchievement`. */
  function ExplorerChecked(e: Engine, totalSections: int, now: int, day: string): Engine
  {
    if |e.session.sectionsVisited| >= totalSections then
      XPAdded(Unlocked(e, "explorer", now), ExplorerBonusXP, "Explorer bonus", now, day)
    else e
  }

  /** The section observer: a named section seen for the first time. */
  function SectionVisited(e: Engine, sectionId: string, totalSections: int, now: int, day: string): Engine
  {
    if sectionId != "" && sectionId !in e.session.sectionsVisited then
      var e1 := e.(session := e.session.(sectionsVisited := e.session.sectionsVisited + {sectionId}));
      ExplorerChecked(XPAdded(e1, SectionViewXP, "Visited " + sectionId + " section", now, day), totalSections, now, day)
    else e
  }

  /** The click listener. */
  function Interacted(e: Engine, now: int, day: string): Engine
  {
    var e1 := e.(session := e.session.(interactionsCount := e.session.interactionsCount + 1));
    InteractionsChecked(XPAdded(e1, InteractionXP, "User interaction", now, day), now)
  }

  /** The one-second interval. */
  function Ticked(e: Engine, hidden: bool, now: int, day: string): Engine
  {
    if hidden then e
    else
      var e1 := e.(session := e.session.(timeSpent := e.session.timeSpent + 1000));
      if e1.session.timeSpent % MilestoneMs == 0 then
        TimeChecked(XPAdded(e1, TimeMilestoneXP, "Time milestone reached", now, day), now)
      else e1
  }

  /** The first-visit rule: a visitor never seen before unlocks `first-visit`, and is remembered. */
  function FirstVisitChecked(e: Engine, now: int): (r: Engine)
    ensures r.xp == e.xp && r.level == e.level && r.actions == e.actions && r.session == e.session
    ensures r.store == e.store.(hasVisitedBefore := true, gamificationData := r.store.gamificationData)
    ensures r.achievements.Keys == e.achievements.Keys && UnlocksKept(e.achievements, r.achievements)
    ensures "first-visit" in e.achievements ==>
      (r.achievements["first-visit"].unlocked <==> e.achievements["first-visit"].unlocked || !e.store.hasVisitedBefore)
  {
    if !e.store.hasVisitedBefore then
      var u := Unlocked(e, "first-visit", now);
      u.(store := u.store.(hasVisitedBefore := true))
    else e
  }

  /** The repeat-visit rules, once the count of this visit is stored: 3 visits unlock `return-visitor`, 10 `loyal-visitor`. */
  function RepeatVisitsChecked(e: Engine, now: int): (r: Engine)
    ensures r.xp == e.xp && r.level == e.level && r.actions == e.actions && r.session == e.session
    ensures r.store == e.store.(gamificationData := r.store.gamificationData)
    ensures r.achievements.Keys == e.achievements.Keys && UnlocksKept(e.achievements, r.achievements)
    ensures "first-visit" in e.achievements ==> r.achievements["first-visit"] == e.achievements["first-visit"]
    ensures "return-visitor" in e.achievements ==>
      (r.achievements["return-visitor"].unlocked <==> e.achievements["return-visitor"].unlocked || e.store.visitCount >= 3)
    ensures "loyal-visitor" in e.achievements ==>
      (r.achievements["loyal-visitor"].unlocked <==> e.achievements["loyal-visitor"].unlocked || e.store.visitCount >= 10)
  {
    var e1 := if e.store.visitCount >= 3 then Unlocked(e, "return-visitor", now) else e;
    assert "return-visitor" != "loyal-visitor" && "first-visit" != "return-visitor" && "first-visit" != "loyal-visitor";
    if e.store.visitCount >= 10 then Unlocked(e1, "loyal-visitor", now) else e1
  }

  /** `checkSpecialAchievements`: the first-visit rule, then one more stored visit, then the repeat-visit rules. */
  function VisitsChecked(e: Engine, now: int): Engine
  {
    var e1 := FirstVisitChecked(e, now);
    RepeatVisitsChecked(e1.(store := e1.store.(visitCount := e1.store.visitCount + 1)), now)
  }

  /** `startSessionTracking`. */
  function SessionStarted(e: Engine, now: int, day: string): Engine
  {
    XPAdded(VisitsChecked(e.(session := e.session.(startTime := now)), now), PageVisitXP, "Page visit", now, day)
  }

  /** The fields as the constructor sets them before it calls `init`. */
  function Defaults(store: Storage, now: int): Engine
  {
    Engine(0, 1, map[], map[], SessionStats(now, {}, 0, 0), store, [])
  }

  /** `init`: load the progress, add the catalog, start the session. */
  function Initialized(e: Engine, catalog: seq<Achievements.Achievement>, now: int, day: string): Engine
  {
    var loaded := ProgressLoaded(e);
    SessionStarted(loaded.(achievements := WithCatalog(loaded.achievements, catalog)), now, day)
  }

  /** The record `saveSessionStats` appends at time `now`. */
  function SessionRecordAt(session: SessionStats, now: int): SessionRecord
  {
    SessionRecord(now - session.startTime, session.sectionsVisited, session.interactionsCount, now)
  }

  /** `saveSessionStats`. */
  function SessionSaved(e: Engine, now: int): Engine
  {
    e.(store := e.store.(sessionHistory := PushSession(e.store.sessionHistory, SessionRecordAt(e.session, now))))
  }

  /** `endSession`. */
  function SessionEnded(e: Engine, now: int, day: string): Engine
  {
    var e1 := if now - e.session.startTime > LongSessionMs then XPAdded(e, LongSessionXP, "Long session bonus", now, day) else e;
    SessionSaved(e1, now)
  }

  // ---------------------------------------------------------------- rules

  /** Loading right after a save gives back what was saved; only a level of 0 comes back as 1. */
  lemma SaveThenLoad(e: Engine, now: int)
    ensures ProgressLoaded(Saved(e, now)) == Saved(e, now).(level := if e.level == 0 then 1 else e.level)
  {
    SaveLoadRoundTrip(e.xp, e.level, e.achievements, e.actions, now);
  }

  /** The level rule unlocks exactly the achievement the level names, queueing its grant, and changes nothing else that counts. */
  lemma LevelCheckedUnlocks(e: Engine, level: int, now: int)
    ensures var r := LevelChecked(e, level, now);
      r.achievements == LevelUnlock(e.achievements, level, now)
      && r.pending == e.pending + LevelGrants(e.achievements, level)
      && r.xp == e.xp && r.level == e.level && r.actions == e.actions && r.session == e.session
  {
  }

  /** Only the four level achievements can be unlocked by a level-up. */
  lemma NotLevelId(id: string, level: int)
    requires id !in {"rising-star", "experienced", "expert", "master"}
    ensures LevelAchievementId(level) != Some(id)
  {
  }

  /** `addXP` leaves an achievement that no level names as it was. */
  lemma XPKeeps(e: Engine, amount: int, reason: string, now: int, day: string, id: string)
    requires id in e.achievements && id !in {"rising-star", "experienced", "expert", "master"}
    ensures var r := XPAdded(e, amount, reason, now, day);
      id in r.achievements && r.achievements[id] == e.achievements[id]
  {
    NotLevelId(id, XPAdded(e, amount, reason, now, day).level);
  }

  /** The interaction rules unlock `interactive` from 10 interactions on, and leave it as it was below that. */
  lemma InteractionsCheckedInteractive(e: Engine, now: int)
    requires "interactive" in e.achievements
    ensures var r := InteractionsChecked(e, now);
      && "interactive" in r.achievements
      && (r.achievements["interactive"].unlocked <==> e.achievements["interactive"].unlocked || e.session.interactionsCount >= 10)
      && (!e.achievements["interactive"].unlocked && e.session.interactionsCount >= 10 ==>
            r.achievements["interactive"].unlockedAt == Some(now))
  {
    var e1 := if e.session.interactionsCount >= 10 then Unlocked(e, "interactive", now) else e;
    assert "interactive" != "super-interactive";
  }

  /** The time rules unlock `engaged` from five minutes on, and leave it as it was below that. */
  lemma TimeCheckedEngaged(e: Engine, now: int)
    requires "engaged" in e.achievements
    ensures var r := TimeChecked(e, now);
      && "engaged" in r.achievements
      && (r.achievements["engaged"].unlocked <==> e.achievements["engaged"].unlocked || e.session.timeSpent >= 5 * 60000)
  {
    var t := e.session.timeSpent;
    var e1 := if t >= 5 * 60000 then Unlocked(e, "engaged", now) else e;
    var e2 := if t >= 15 * 60000 then Unlocked(e1, "dedicated", now) else e1;
    assert "engaged" != "dedicated" && "engaged" != "devoted";
  }

  /**
   * The tenth click unlocks `interactive`: after a click it is unlocked
   * exactly when it already was or the count has reached 10, and a fresh
   * unlock is stamped with the time of the click.
   */
  lemma InteractionUnlocksInteractive(e: Engine, now: int, day: string)
    requires "interactive" in e.achievements
    ensures var r := Interacted(e, now, day);
      && "interactive" in r.achievements
      && (r.achievements["interactive"].unlocked <==>
            e.achievements["interactive"].unlocked || e.session.interactionsCount + 1 >= 10)
      && (!e.achievements["interactive"].unlocked && e.session.interactionsCount + 1 >= 10 ==>
            r.achievements["interactive"].unlockedAt == Some(now))
  {
    var e1 := e.(session := e.session.(interactionsCount := e.session.interactionsCount + 1));
    XPKeeps(e1, InteractionXP, "User interaction", now, day, "interactive");
    InteractionsCheckedInteractive(XPAdded(e1, InteractionXP, "User interaction", now, day), now);
  }

  /**
   * The first five-minute milestone unlocks `engaged`: after a tick it is
   * unlocked exactly when it already was, or the page is visible and the
   * visible time reaches a multiple of five minutes that is at least five.
   */
  lemma MilestoneUnlocksEngaged(e: Engine, hidden: bool, now: int, day: string)
    requires "engaged" in e.achievements
    ensures var r := Ticked(e, hidden, now, day);
      && "engaged" in r.achievements
      && (r.achievements["engaged"].unlocked <==>
            e.achievements["engaged"].unlocked ||
            (!hidden && (e.session.timeSpent + 1000) % MilestoneMs == 0 && e.session.timeSpent + 1000 >= 5 * 60000))
  {
    if !hidden {
      var e1 := e.(session := e.session.(timeSpent := e.session.timeSpent + 1000));
      if e1.session.timeSpent % MilestoneMs == 0 {
        XPKeeps(e1, TimeMilestoneXP, "Time milestone reached", now, day, "engaged");
        TimeCheckedEngaged(XPAdded(e1, TimeMilestoneXP, "Time milestone reached", now, day), now);
      }
    }
  }

  /**
   * Seeing the last unseen section unlocks `explorer` and earns 10 XP plus
   * the 100 XP bonus; a section already seen, or an unnamed one, earns nothing.
   * The achievement rewards wait in `pending` and are not part of this XP.
   */
  lemma LastSectionUnlocksExplorer(e: Engine, sectionId: string, totalSections: int, now: int, day: string)
    ensures var isNew := sectionId != "" && sectionId !in e.session.sectionsVisited;
      SectionVisited(e, sectionId, totalSections, now, day).xp == e.xp +
        (if !isNew then 0
         else if |e.session.sectionsVisited + {sectionId}| >= totalSections then SectionViewXP + ExplorerBonusXP
         else SectionViewXP)
    ensures "explorer" in e.achievements ==>
      (SectionVisited(e, sectionId, totalSections, now, day).achievements["explorer"].unlocked <==>
        e.achievements["explorer"].unlocked ||
        (sectionId != "" && sectionId !in e.session.sectionsVisited &&
         |e.session.sectionsVisited + {sectionId}| >= totalSections))
  {
    if sectionId != "" && sectionId !in e.session.sectionsVisited {
      var e1 := e.(session := e.session.(sectionsVisited := e.session.sectionsVisited + {sectionId}));
      var e2 := XPAdded(e1, SectionViewXP, "Visited " + sectionId + " section", now, day);
      if "explorer" in e.achievements {
        XPKeeps(e1, SectionViewXP, "Visited " + sectionId + " section", now, day, "explorer");
        if |e2.session.sectionsVisited| >= totalSections {
          XPKeeps(Unlocked(e2, "explorer", now), ExplorerBonusXP, "Explorer bonus", now, day, "explorer");
        }
      }
    }
  }

  /**
   * The visit rules: the stored count goes up by one and the first visit is
   * remembered; nothing but the Map, the queue and the stored progress item
   * changes, and no unlock is lost. `first-visit`, `return-visitor` and
   * `loyal-visitor` are unlocked afterwards exactly when they were before,
   * or the first, third or tenth visit has come.
   */
  lemma VisitRules(e: Engine, now: int)
    ensures var r := VisitsChecked(e, now);
      r.store.visitCount == e.store.visitCount + 1 && r.store.hasVisitedBefore &&
      r.store.sessionHistory == e.store.sessionHistory
    ensures var r := VisitsChecked(e, now);
      r.xp == e.xp && r.level == e.level && r.actions == e.actions && r.session == e.session
    ensures UnlocksKept(e.achievements, VisitsChecked(e, now).achievements)
    ensures "first-visit" in e.achievements ==>
      (VisitsChecked(e, now).achievements["first-visit"].unlocked <==>
        e.achievements["first-visit"].unlocked || !e.store.hasVisitedBefore)
    ensures "return-visitor" in e.achievements ==>
      (VisitsChecked(e, now).achievements["return-visitor"].unlocked <==>
        e.achievements["return-visitor"].unlocked || e.store.visitCount + 1 >= 3)
    ensures "loyal-visitor" in e.achievements ==>
      (VisitsChecked(e, now).achievements["loyal-visitor"].unlocked <==>
        e.achievements["loyal-visitor"].unlocked || e.store.visitCount + 1 >= 10)
  {
    var e1 := FirstVisitChecked(e, now);
    var e2 := e1.(store := e1.store.(visitCount := e1.store.visitCount + 1));
    UnlocksKeptTrans(e.achievements, e2.achievements, VisitsChecked(e, now).achievements);
  }

  lemma UnlocksKeptTrans(a: map<string, AchievementState>, b: map<string, AchievementState>, c: map<string, AchievementState>)
    requires UnlocksKept(a, b) && UnlocksKept(b, c)
    ensures UnlocksKept(a, c)
  {
  }

  /**
   * `init`: the stored progress is loaded, every catalog id is present,
   * no persisted unlock is lost, the session starts now, the visit is
   * counted and earns 5 XP on top of the loaded XP, and the result is saved.
   */
  lemma InitLoads(e: Engine, catalog: seq<Achievements.Achievement>, now: int, day: string)
    ensures var r := Initialized(e, catalog, now, day);
      r.session.startTime == now && r.store.visitCount == e.store.visitCount + 1 &&
      r.store.gamificationData == Parsed(Snapshot(r.xp, r.level, r.achievements, r.actions, now))
    ensures Initialized(e, catalog, now, day).xp == PageVisitXP +
      if e.store.gamificationData.Parsed? then Restore(e.store.gamificationData.blob).xp else e.xp
    ensures forall k :: Achievements.GetById(catalog, k).Some? ==> k in Initialized(e, catalog, now, day).achievements
    ensures UnlocksKept(ProgressLoaded(e).achievements, Initialized(e, catalog, now, day).achievements)
  {
    var loaded := ProgressLoaded(e);
    var e1 := loaded.(achievements := WithCatalog(loaded.achievements, catalog));
    var e2 := e1.(session := e1.session.(startTime := now));
    VisitRules(e2, now);
    var e3 := VisitsChecked(e2, now);
    UnlocksKeptTrans(loaded.achievements, e1.achievements, e3.achievements);
    UnlocksKeptTrans(loaded.achievements, e3.achievements, Initialized(e, catalog, now, day).achievements);
  }

  /**
   * `endSession`: a session longer than ten minutes earns 50 XP, and the
   * finished session is stored last in a history of at most 20.
   */
  lemma EndSessionStores(e: Engine, now: int, day: string)
    ensures SessionEnded(e, now, day).xp == e.xp + (if now - e.session.startTime > LongSessionMs then LongSessionXP else 0)
    ensures SessionEnded(e, now, day).session == e.session
    ensures var h := SessionEnded(e, now, day).store.sessionHistory;
      && h == PushSession(e.store.sessionHistory, SessionRecordAt(e.session, now))
      && 0 < |h| <= SessionHistoryCap && h[|h| - 1] == SessionRecordAt(e.session, now)
  {
    PushSessionSpec(e.store.sessionHistory, SessionRecordAt(e.session, now));
  }

  /** A fired grant adds exactly its amount, and the grants behind it stay queued in order. */
  lemma TimerAddsAmount(e: Engine, now: int, day: string)
    requires e.pending != []
    ensures TimerFired(e, now, day).xp == e.xp + e.pending[0].amount
    ensures e.pending[1..] <= TimerFired(e, now, day).pending
    ensures e.pending[0].LevelBonus? ==> TimerFired(e, now, day).level == e.level
    ensures e.pending[0].AchievementXP? ==> TimerFired(e, now, day).level == Level(TimerFired(e, now, day).xp)
  {
  }

  // ---------------------------------------------------------------- engine

  // ----------------------------------------------------- the level never falls

  /** Every reward in the Map is non-negative, so every grant it can still queue adds XP. */
  predicate RewardsNonNegative(achievements: map<string, AchievementState>)
  {
    forall k :: k in achievements ==> achievements[k].def.xpReward >= 0
  }

  /** No waiting grant takes XP away. */
  predicate GrantsNonNegative(pending: seq<Deferred>)
  {
    forall i :: 0 <= i < |pending| ==> pending[i].amount >= 0
  }

  /** Neither a waiting grant nor one the Map can still queue takes XP away. */
  predicate Grantable(e: Engine)
  {
    GrantsNonNegative(e.pending) && RewardsNonNegative(e.achievements)
  }

  /**
   * The invariant under which the level never falls: it does not run ahead
   * of what the XP earns, and no grant takes XP away. A level loaded from
   * storage may run ahead, since it is not recomputed; the first `addXP`
   * puts it back in step.
   */
  predicate Steady(e: Engine)
  {
    e.level <= Level(e.xp) && Grantable(e)
  }

  /** From `e` to `r` neither the XP nor the level fell, and `r` is steady. */
  predicate Advances(e: Engine, r: Engine)
  {
    e.xp <= r.xp && e.level <= r.level && Steady(r)
  }

  lemma GrantsAppend(p: seq<Deferred>, q: seq<Deferred>)
    requires GrantsNonNegative(p) && GrantsNonNegative(q)
    ensures GrantsNonNegative(p + q)
  {
    forall i | 0 <= i < |p + q| ensures (p + q)[i].amount >= 0 {
      if i < |p| { assert (p + q)[i] == p[i]; } else { assert (p + q)[i] == q[i - |p|]; }
    }
  }

  /** An unlock keeps every reward of the Map and queues only one of them. */
  lemma UnlockedGrantable(e: Engine, id: string, now: int)
    requires Grantable(e)
    ensures Grantable(Unlocked(e, id, now))
  {
    var g := UnlockGrants(e.achievements, id);
    if CanUnlock(e.achievements, id) {
      assert g[0].amount == RewardOf(e.achievements[id].def) >= 0;
    }
    assert GrantsNonNegative(g);
    GrantsAppend(e.pending, g);
    var a := Unlock(e.achievements, id, now);
    assert forall k :: k in a ==> a[k].def == e.achievements[k].def;
  }

  lemma LevelCheckedGrantable(e: Engine, level: int, now: int)
    requires Grantable(e)
    ensures Grantable(LevelChecked(e, level, now))
  {
    match LevelAchievementId(level)
    case None =>
    case Some(id) => UnlockedGrantable(e, id, now);
  }

  /** The level-up path queues only a reward of the Map and a positive bonus. */
  lemma LeveledUpGrantable(e: Engine, amount: int, now: int)
    requires Grantable(e)
    ensures Grantable(LeveledUp(e, amount, now))
  {
    var e1 := e.(xp := e.xp + amount, level := Level(e.xp + amount));
    if e1.level > e.level {
      LevelSpec(e1.xp);
      LevelCheckedGrantable(e1, e1.level, now);
      GrantsAppend(LevelChecked(e1, e1.level, now).pending, [LevelBonus(e1.level * 10)]);
    }
  }

  /**
   * After `addXP` the level is the one the XP earns, so the invariant holds
   * whatever the level was before; and a non-negative amount lowers neither
   * the XP nor a level that was in step.
   */
  lemma XPAddedSteady(e: Engine, amount: int, reason: string, now: int, day: string)
    requires Grantable(e)
    ensures Steady(XPAdded(e, amount, reason, now, day))
    ensures amount >= 0 && e.level <= Level(e.xp) ==> Advances(e, XPAdded(e, amount, reason, now, day))
  {
    LeveledUpGrantable(e, amount, now);
    if amount >= 0 {
      LevelMonotone(e.xp, e.xp + amount);
    }
  }

  /** A fired timer never lowers the XP or the level: a level bonus leaves the level as it is, a reward goes through `addXP`. */
  lemma TimerFiredSteady(e: Engine, now: int, day: string)
    requires Steady(e) && e.pending != []
    ensures Advances(e, TimerFired(e, now, day))
  {
    var rest := e.(pending := e.pending[1..]);
    assert forall i :: 0 <= i < |rest.pending| ==> rest.pending[i] == e.pending[i + 1];
    assert e.pending[0].amount >= 0;
    match e.pending[0]
    case LevelBonus(amount) => LevelMonotone(e.xp, e.xp + amount);
    case AchievementXP(amount, title) => XPAddedSteady(rest, amount, "Achievement: " + title, now, day);
  }

  lemma InteractionsCheckedSteady(e: Engine, now: int)
    requires Steady(e)
    ensures Advances(e, InteractionsChecked(e, now))
  {
    var e1 := if e.session.interactionsCount >= 10 then Unlocked(e, "interactive", now) else e;
    UnlockedGrantable(e, "interactive", now);
    UnlockedGrantable(e1, "super-interactive", now);
  }

  lemma TimeCheckedSteady(e: Engine, now: int)
    requires Steady(e)
    ensures Advances(e, TimeChecked(e, now))
  {
    var t := e.session.timeSpent;
    var e1 := if t >= 5 * 60000 then Unlocked(e, "engaged", now) else e;
    var e2 := if t >= 15 * 60000 then Unlocked(e1, "dedicated", now) else e1;
    UnlockedGrantable(e, "engaged", now);
    UnlockedGrantable(e1, "dedicated", now);
    UnlockedGrantable(e2, "devoted", now);
  }

  lemma ExplorerCheckedSteady(e: Engine, totalSections: int, now: int, day: string)
    requires Steady(e)
    ensures Advances(e, ExplorerChecked(e, totalSections, now, day))
  {
    UnlockedGrantable(e, "explorer", now);
    XPAddedSteady(Unlocked(e, "explorer", now), ExplorerBonusXP, "Explorer bonus", now, day);
  }

  lemma SectionVisitedSteady(e: Engine, sectionId: string, totalSections: int, now: int, day: string)
    requires Steady(e)
    ensures Advances(e, SectionVisited(e, sectionId, totalSections, now, day))
  {
    var e1 := e.(session := e.session.(sectionsVisited := e.session.sectionsVisited + {sectionId}));
    var e2 := XPAdded(e1, SectionViewXP, "Visited " + sectionId + " section", now, day);
    XPAddedSteady(e1, SectionViewXP, "Visited " + sectionId + " section", now, day);
    ExplorerCheckedSteady(e2, totalSections, now, day);
  }

  lemma InteractedSteady(e: Engine, now: int, day: string)
    requires Steady(e)
    ensures Advances(e, Interacted(e, now, day))
  {
    var e1 := e.(session := e.session.(interactionsCount := e.session.interactionsCount + 1));
    var e2 := XPAdded(e1, InteractionXP, "User interaction", now, day);
    XPAddedSteady(e1, InteractionXP, "User interaction", now, day);
    InteractionsCheckedSteady(e2, now);
    assert Interacted(e, now, day) == InteractionsChecked(e2, now);
  }

  lemma TickedSteady(e: Engine, hidden: bool, now: int, day: string)
    requires Steady(e)
    ensures Advances(e, Ticked(e, hidden, now, day))
  {
    if !hidden {
      var e1 := e.(session := e.session.(timeSpent := e.session.timeSpent + 1000));
      var e2 := XPAdded(e1, TimeMilestoneXP, "Time milestone reached", now, day);
      XPAddedSteady(e1, TimeMilestoneXP, "Time milestone reached", now, day);
      TimeCheckedSteady(e2, now);
      assert Ticked(e, hidden, now, day) in {e1, TimeChecked(e2, now)};
    }
  }

  lemma FirstVisitGrantable(e: Engine, now: int)
    requires Grantable(e)
    ensures Grantable(FirstVisitChecked(e, now))
  {
    UnlockedGrantable(e, "first-visit", now);
  }

  lemma RepeatVisitsGrantable(e: Engine, now: int)
    requires Grantable(e)
    ensures Grantable(RepeatVisitsChecked(e, now))
  {
    var e1 := if e.store.visitCount >= 3 then Unlocked(e, "return-visitor", now) else e;
    UnlockedGrantable(e, "return-visitor", now);
    UnlockedGrantable(e1, "loyal-visitor", now);
  }

  /** The visit rules only unlock: XP and level stay, and no reward turns negative. */
  lemma VisitsCheckedGrantable(e: Engine, now: int)
    requires Grantable(e)
    ensures var r := VisitsChecked(e, now); Grantable(r) && r.xp == e.xp && r.level == e.level
  {
    var e1 := FirstVisitChecked(e, now);
    FirstVisitGrantable(e, now);
    RepeatVisitsGrantable(e1.(store := e1.store.(visitCount := e1.store.visitCount + 1)), now);
  }

  /** After `startSessionTracking` the level is in step with the XP, whatever it was before. */
  lemma SessionStartedSteady(e: Engine, now: int, day: string)
    requires Grantable(e)
    ensures Steady(SessionStarted(e, now, day))
    ensures e.level <= Level(e.xp) ==> Advances(e, SessionStarted(e, now, day))
  {
    var e1 := e.(session := e.session.(startTime := now));
    VisitsCheckedGrantable(e1, now);
    XPAddedSteady(VisitsChecked(e1, now), PageVisitXP, "Page visit", now, day);
  }

  lemma SessionEndedSteady(e: Engine, now: int, day: string)
    requires Steady(e)
    ensures Advances(e, SessionEnded(e, now, day))
  {
    XPAddedSteady(e, LongSessionXP, "Long session bonus", now, day);
  }

  /**
   * `init` leaves the engine steady, even when the stored level ran ahead of
   * the stored XP, provided the stored and catalog rewards are non-negative.
   */
  lemma InitializedSteady(e: Engine, catalog: seq<Achievements.Achievement>, now: int, day: string)
    requires GrantsNonNegative(e.pending) && RewardsNonNegative(ProgressLoaded(e).achievements)
    requires forall a :: a in catalog ==> a.xpReward >= 0
    ensures Steady(Initialized(e, catalog, now, day))
  {
    var loaded := ProgressLoaded(e);
    var e1 := loaded.(achievements := WithCatalog(loaded.achievements, catalog));
    assert RewardsNonNegative(e1.achievements);
    SessionStartedSteady(e1, now, day);
  }

  /** One thing that happens to a running page, as the listeners and timers set up by `init` see it. */
  datatype Event =
    | Click(now: int, day: string)
    | Second(hidden: bool, now: int, day: string)
    | SectionSeen(sectionId: string, totalSections: int, now: int, day: string)
    | TimerDue(now: int, day: string)
    | Hidden(now: int)
    | Earned(amount: nat, reason: string, now: int, day: string)
    | Leave(now: int, day: string)

  /**
   * The engine after one event. `Earned` is another script's `addXP` call,
   * always with a positive constant; `TimerDue` fires the oldest waiting
   * grant, and does nothing when none waits.
   */
  function Step(e: Engine, ev: Event): Engine
  {
    match ev
    case Click(now, day) => Interacted(e, now, day)
    case Second(hidden, now, day) => Ticked(e, hidden, now, day)
    case SectionSeen(sectionId, totalSections, now, day) => SectionVisited(e, sectionId, totalSections, now, day)
    case TimerDue(now, day) => if e.pending != [] then TimerFired(e, now, day) else e
    case Hidden(now) => Saved(e, now)
    case Earned(amount, reason, now, day) => XPAdded(e, amount, reason, now, day)
    case Leave(now, day) => Saved(SessionEnded(e, now, day), now)
  }

  /** The engine after a sequence of events, in order. */
  function Run(e: Engine, events: seq<Event>): Engine
    decreases |events|
  {
    if events == [] then e else Run(Step(e, events[0]), events[1..])
  }

  lemma {:induction false} RunAppend(e: Engine, a: seq<Event>, b: seq<Event>)
    ensures Run(e, a + b) == Run(Run(e, a), b)
    decreases |a|
  {
    if a == [] {
      assert a + b == b;
    } else {
      assert (a + b)[0] == a[0] && (a + b)[1..] == a[1..] + b;
      RunAppend(Step(e, a[0]), a[1..], b);
    }
  }

  /** No single event lowers the XP or the level of a steady engine, and none leaves it unsteady. */
  lemma StepAdvances(e: Engine, ev: Event)
    requires Steady(e)
    ensures Advances(e, Step(e, ev))
  {
    match ev
    case Click(now, day) => InteractedSteady(e, now, day);
    case Second(hidden, now, day) => TickedSteady(e, hidden, now, day);
    case SectionSeen(sectionId, totalSections, now, day) =>
      if sectionId != "" && sectionId !in e.session.sectionsVisited {
        SectionVisitedSteady(e, sectionId, totalSections, now, day);
      }
    case TimerDue(now, day) =>
      if e.pending != [] {
        TimerFiredSteady(e, now, day);
      }
    case Hidden(now) =>
    case Earned(amount, reason, now, day) => XPAddedSteady(e, amount, reason, now, day);
    case Leave(now, day) => SessionEndedSteady(e, now, day);
  }

  lemma {:induction false} RunAdvances(e: Engine, events: seq<Event>)
    requires Steady(e)
    ensures Advances(e, Run(e, events))
    decreases |events|
  {
    if events != [] {
      StepAdvances(e, events[0]);
      RunAdvances(Step(e, events[0]), events[1..]);
    }
  }

  /**
   * Within a session the level never decreases: after `init`, whatever
   * events follow, the level (and the XP) only grow, given non-negative
   * rewards in the stored progress and the catalog.
   */
  lemma SessionLevelNeverFalls(e: Engine, catalog: seq<Achievements.Achievement>, now: int, day: string,
                               events: seq<Event>, later: seq<Event>)
    requires GrantsNonNegative(e.pending) && RewardsNonNegative(ProgressLoaded(e).achievements)
    requires forall a :: a in catalog ==> a.xpReward >= 0
    ensures var s := Initialized(e, catalog, now, day);
            Run(s, events).level <= Run(s, events + later).level && Run(s, events).xp <= Run(s, events + later).xp
  {
    var s := Initialized(e, catalog, now, day);
    InitializedSteady(e, catalog, now, day);
    RunAdvances(s, events);
    RunAdvances(Run(s, events), later);
    RunAppend(s, events, later);
  }

  class GamificationSystem {
    var userXP: int
    var userLevel: int
    var achievements: map<string, AchievementState>
    var actions: map<string, ActionRecord>
    var sessionStats: SessionStats
    var store: Storage
    var pending: seq<Deferred>

    /** The engine's fields as one value. */
    function State(): Engine
      reads this
    {
      Engine(userXP, userLevel, achievements, actions, sessionStats, store, pending)
    }

    /**
     * `new GamificationSystem()`: the field defaults over the given
     * localStorage contents and start time, then `init`.
     */
    constructor(store: Storage, catalog: seq<Achievements.Achievement>, now: int, day: string)
      ensures State() == Initialized(Defaults(store, now), catalog, now, day)
      ensures userXP == PageVisitXP +
        if store.gamificationData.Parsed? then Restore(store.gamificationData.blob).xp else 0
      ensures forall k :: Achievements.GetById(catalog, k).Some? ==> k in achievements
      ensures sessionStats.startTime == now && this.store.visitCount == store.visitCount + 1
      ensures RewardsNonNegative(ProgressLoaded(Defaults(store, now)).achievements) && (forall a :: a in catalog ==> a.xpReward >= 0)
              ==> Steady(State())
    {
      userXP := 0;
      userLevel := 1;
      achievements := map[];
      actions := map[];
      sessionStats := SessionStats(now, {}, 0, 0);
      this.store := store;
      pending := [];
      new;
      assert State() == Defaults(store, now);
      Init(catalog, now, day);
      InitLoads(Defaults(store, now), catalog, now, day);
      if RewardsNonNegative(ProgressLoaded(Defaults(store, now)).achievements) && (forall a :: a in catalog ==> a.xpReward >= 0) {
        InitializedSteady(Defaults(store, now), catalog, now, day);
      }
    }

    /** `saveUserProgress` at time `now`. */
    method SaveUserProgress(now: int)
      modifies this
      ensures State() == Saved(old(State()), now)
      ensures store == old(store).(gamificationData := Parsed(Snapshot(userXP, userLevel, achievements, actions, now)))
      ensures userXP == old(userXP) && userLevel == old(userLevel) && achievements == old(achievements)
      ensures actions == old(actions) && sessionStats == old(sessionStats) && pending == old(pending)
    {
      store := store.(gamificationData := Parsed(Snapshot(userXP, userLevel, achievements, actions, now)));
    }

    /**
     * `loadUserProgress`: an absent, empty or unreadable item changes
     * nothing; a stored object replaces XP, level and both Maps, with the
     * `||` defaults and the level taken as stored.
     */
    method LoadUserProgress()
      modifies this
      ensures State() == ProgressLoaded(old(State()))
      ensures store.gamificationData.Parsed? ==>
        Progress(userXP, userLevel, achievements, actions) == Restore(store.gamificationData.blob)
      ensures !store.gamificationData.Parsed? ==>
        userXP == old(userXP) && userLevel == old(userLevel) && achievements == old(achievements) && actions == old(actions)
      ensures store == old(store) && sessionStats == old(sessionStats) && pending == old(pending)
    {
      match store.gamificationData {
        case Parsed(blob) =>
          var p := Restore(blob);
          userXP := p.xp;
          userLevel := p.level;
          achievements := p.achievements;
          actions := p.actions;
        case _ =>
      }
    }

    /**
     * `loadAchievements`: every catalog id missing from the Map is added,
     * locked (the first catalog entry with that id); entries already there,
     * persisted state included, are left as they are.
     */
    method LoadAchievements(catalog: seq<Achievements.Achievement>)
      modifies this
      ensures State() == old(State()).(achievements := WithCatalog(old(achievements), catalog))
      ensures forall k :: k in achievements <==> k in old(achievements) || Achievements.GetById(catalog, k).Some?
      ensures forall k :: k in old(achievements) ==> achievements[k] == old(achievements)[k]
      ensures forall k :: k in achievements && k !in old(achievements) ==>
        achievements[k] == Fresh(Achievements.GetById(catalog, k).value)
      ensures userXP == old(userXP) && userLevel == old(userLevel) && actions == old(actions)
      ensures sessionStats == old(sessionStats) && store == old(store) && pending == old(pending)
    {
      for i := 0 to |catalog|
        invariant forall k :: k in achievements <==> k in old(achievements) || Achievements.GetById(catalog[..i], k).Some?
        invariant forall k :: k in old(achievements) ==> achievements[k] == old(achievements)[k]
        invariant forall k :: k in achievements && k !in old(achievements) ==>
          achievements[k] == Fresh(Achievements.GetById(catalog[..i], k).value)
        invariant userXP == old(userXP) && userLevel == old(userLevel) && actions == old(actions)
        invariant sessionStats == old(sessionStats) && store == old(store) && pending == old(pending)
      {
        var a := catalog[i];
        assert catalog[..i + 1] == catalog[..i] + [a];
        forall k ensures Achievements.GetById(catalog[..i + 1], k) ==
          if Achievements.GetById(catalog[..i], k).Some? then Achievements.GetById(catalog[..i], k)
          else if a.id == k then Some(a) else None
        {
          Achievements.GetByIdExtend(catalog[..i], a, k);
        }
        if a.id !in achievements {
          achievements := achievements[a.id := Fresh(a)];
        }
      }
      assert catalog[..|catalog|] == catalog;
      WithCatalogUnique(old(achievements), achievements, catalog);
    }

    /** `trackAction(action, xp)` at time `now` on day `day`. */
    method TrackAction(action: string, xp: int, now: int, day: string)
      modifies this
      ensures State() == old(State()).(actions := Track(old(actions), action, xp, now, day))
      ensures actions == Track(old(actions), action, xp, now, day)
      ensures userXP == old(userXP) && userLevel == old(userLevel) && achievements == old(achievements)
      ensures sessionStats == old(sessionStats) && store == old(store) && pending == old(pending)
    {
      actions := Track(actions, action, xp, now, day);
    }

    /**
     * `unlockAchievement(id)`: a known, locked achievement becomes unlocked at
     * `now`, its reward is scheduled and the progress is saved; otherwise
     * nothing happens.
     */
    method UnlockAchievement(id: string, now: int)
      modifies this
      ensures State() == Unlocked(old(State()), id, now)
      ensures achievements == Unlock(old(achievements), id, now)
      ensures pending == old(pending) + UnlockGrants(old(achievements), id)
      ensures CanUnlock(old(achievements), id) ==>
        store == old(store).(gamificationData := Parsed(Snapshot(userXP, userLevel, achievements, actions, now)))
      ensures !CanUnlock(old(achievements), id) ==> store == old(store)
      ensures userXP == old(userXP) && userLevel == old(userLevel) && actions == old(actions)
      ensures sessionStats == old(sessionStats)
      ensures UnlocksKept(old(achievements), achievements)
      ensures SameOtherItems(old(store), store)
    {
      if CanUnlock(achievements, id) {
        pending := pending + UnlockGrants(achievements, id);
        achievements := Unlock(achievements, id, now);
        SaveUserProgress(now);
      }
    }

    /** `checkLevelAchievements(level)`. */
    method CheckLevelAchievements(level: int, now: int)
      modifies this
      ensures State() == LevelChecked(old(State()), level, now)
      ensures LevelAchievementId(level).None? ==>
        achievements == old(achievements) && pending == old(pending) && store == old(store)
      ensures LevelAchievementId(level).Some? ==>
        achievements == Unlock(old(achievements), LevelAchievementId(level).value, now) &&
        pending == old(pending) + UnlockGrants(old(achievements), LevelAchievementId(level).value)
      ensures userXP == old(userXP) && userLevel == old(userLevel) && actions == old(actions)
      ensures sessionStats == old(sessionStats)
      ensures UnlocksKept(old(achievements), achievements)
      ensures SameOtherItems(old(store), store)
    {
      var id := LevelAchievementId(level);
      if id.Some? {
        UnlockAchievement(id.value, now);
      }
    }

    /** `addBonusReward(level)`: schedules `level * 10` XP, to be added without a level update. */
    method AddBonusReward(level: int)
      modifies this
      ensures State() == BonusScheduled(old(State()), level)
      ensures pending == old(pending) + [LevelBonus(level * 10)]
      ensures userXP == old(userXP) && userLevel == old(userLevel) && achievements == old(achievements)
      ensures actions == old(actions) && sessionStats == old(sessionStats) && store == old(store)
    {
      pending := pending + [LevelBonus(level * 10)];
    }

    /**
     * `addXP(amount, reason)`: the XP grows by exactly `amount` and the level
     * is recomputed from it; only a strictly higher level runs the level-up
     * path (level achievement, bonus scheduled); the action is tracked and
     * the progress saved.
     */
    method AddXP(amount: int, reason: string, now: int, day: string)
      modifies this
      ensures State() == XPAdded(old(State()), amount, reason, now, day)
      ensures userXP == old(userXP) + amount
      ensures userLevel == Level(userXP)
      ensures userLevel > old(userLevel) ==>
        achievements == LevelUnlock(old(achievements), userLevel, now) &&
        pending == old(pending) + LevelGrants(old(achievements), userLevel) + [LevelBonus(userLevel * 10)]
      ensures userLevel <= old(userLevel) ==> achievements == old(achievements) && pending == old(pending)
      ensures actions == Track(old(actions), reason, amount, now, day)
      ensures store == old(store).(gamificationData := Parsed(Snapshot(userXP, userLevel, achievements, actions, now)))
      ensures sessionStats == old(sessionStats)
      ensures UnlocksKept(old(achievements), achievements)
    {
      ghost var e0 := State();
      var oldLevel := userLevel;
      userXP := userXP + amount;
      userLevel := CalculateLevel(userXP);
      if userLevel > oldLevel {
        CheckLevelAchievements(userLevel, now);
        AddBonusReward(userLevel);
      }
      assert State() == LeveledUp(e0, amount, now);
      TrackAction(reason, amount, now, day);
      SaveUserProgress(now);
    }

    /**
     * One pending timer fires (the oldest: all of them wait one second).
     * An achievement reward goes through `addXP`; a level bonus is added to
     * the XP as is, so the level can lag behind the XP until the next `addXP`.
     */
    method FireTimer(now: int, day: string)
      requires pending != []
      modifies this
      ensures State() == TimerFired(old(State()), now, day)
      ensures old(pending[0]).LevelBonus? ==>
        userXP == old(userXP) + old(pending[0]).amount && userLevel == old(userLevel) &&
        achievements == old(achievements) && actions == old(actions) && pending == old(pending[1..]) &&
        store == old(store).(gamificationData := Parsed(Snapshot(userXP, userLevel, achievements, actions, now)))
      ensures old(pending[0]).AchievementXP? ==>
        userXP == old(userXP) + old(pending[0]).amount && userLevel == Level(userXP) &&
        actions == Track(old(actions), "Achievement: " + old(pending[0]).title, old(pending[0]).amount, now, day) &&
        old(pending[1..]) <= pending
      ensures sessionStats == old(sessionStats)
      ensures UnlocksKept(old(achievements), achievements)
    {
      var d := pending[0];
      pending := pending[1..];
      match d {
        case LevelBonus(amount) =>
          userXP := userXP + amount;
          SaveUserProgress(now);
        case AchievementXP(amount, title) =>
          AddXP(amount, "Achievement: " + title, now, day);
      }
    }

    /** `checkInteractionAchievements`. */
    method CheckInteractionAchievements(now: int)
      modifies this
      ensures State() == InteractionsChecked(old(State()), now)
      ensures var a1 := if sessionStats.interactionsCount >= 10 then Unlock(old(achievements), "interactive", now) else old(achievements);
        achievements == (if sessionStats.interactionsCount >= 50 then Unlock(a1, "super-interactive", now) else a1)
      ensures sessionStats.interactionsCount < 10 ==> achievements == old(achievements) && pending == old(pending)
      ensures userXP == old(userXP) && userLevel == old(userLevel) && actions == old(actions)
      ensures sessionStats == old(sessionStats)
      ensures UnlocksKept(old(achievements), achievements)
    {
      if sessionStats.interactionsCount >= 10 {
        UnlockAchievement("interactive", now);
      }
      if sessionStats.interactionsCount >= 50 {
        UnlockAchievement("super-interactive", now);
      }
    }

    /** `checkTimeBasedAchievements`: 5, 15 and 30 minutes of visible time. */
    method CheckTimeBasedAchievements(now: int)
      modifies this
      ensures State() == TimeChecked(old(State()), now)
      ensures var t := sessionStats.timeSpent;
        var a1 := if t >= 5 * 60000 then Unlock(old(achievements), "engaged", now) else old(achievements);
        var a2 := if t >= 15 * 60000 then Unlock(a1, "dedicated", now) else a1;
        achievements == (if t >= 30 * 60000 then Unlock(a2, "devoted", now) else a2)
      ensures userXP == old(userXP) && userLevel == old(userLevel) && actions == old(actions)
      ensures sessionStats == old(sessionStats)
      ensures UnlocksKept(old(achievements), achievements)
    {
      if sessionStats.timeSpent >= 5 * 60000 {
        UnlockAchievement("engaged", now);
      }
      if sessionStats.timeSpent >= 15 * 60000 {
        UnlockAchievement("dedicated", now);
      }
      if sessionStats.timeSpent >= 30 * 60000 {
        UnlockAchievement("devoted", now);
      }
    }

    /**
     * `checkExplorerAchievement`, with the page's section count as a
     * parameter: once every section has been seen, `explorer` is unlocked
     * (the first time) and the 100 XP bonus is added (every time).
     */
    method CheckExplorerAchievement(totalSections: int, now: int, day: string)
      modifies this
      ensures State() == ExplorerChecked(old(State()), totalSections, now, day)
      ensures |sessionStats.sectionsVisited| >= totalSections ==>
        userXP == old(userXP) + ExplorerBonusXP &&
        ("explorer" in old(achievements) ==> "explorer" in achievements && achievements["explorer"].unlocked)
      ensures |sessionStats.sectionsVisited| < totalSections ==>
        userXP == old(userXP) && achievements == old(achievements) && actions == old(actions) && store == old(store)
      ensures sessionStats == old(sessionStats)
      ensures UnlocksKept(old(achievements), achievements)
    {
      if |sessionStats.sectionsVisited| >= totalSections {
        UnlockAchievement("explorer", now);
        AddXP(ExplorerBonusXP, "Explorer bonus", now, day);
      }
    }

    /** A section becomes at least half visible: the first sighting of a named section earns 10 XP. */
    method VisitSection(sectionId: string, totalSections: int, now: int, day: string)
      modifies this
      ensures State() == SectionVisited(old(State()), sectionId, totalSections, now, day)
      ensures sessionStats.sectionsVisited == old(sessionStats.sectionsVisited) + (if sectionId != "" then {sectionId} else {})
      ensures sectionId == "" || sectionId in old(sessionStats.sectionsVisited) ==>
        userXP == old(userXP) && achievements == old(achievements) && actions == old(actions) && store == old(store)
      ensures sectionId != "" && sectionId !in old(sessionStats.sectionsVisited) ==>
        userXP == old(userXP) + SectionViewXP + (if |sessionStats.sectionsVisited| >= totalSections then ExplorerBonusXP else 0)
      ensures UnlocksKept(old(achievements), achievements)
    {
      if sectionId != "" && sectionId !in sessionStats.sectionsVisited {
        sessionStats := sessionStats.(sectionsVisited := sessionStats.sectionsVisited + {sectionId});
        AddXP(SectionViewXP, "Visited " + sectionId + " section", now, day);
        CheckExplorerAchievement(totalSections, now, day);
      }
    }

    /** A click on an interactive element: one more interaction, 2 XP, then the interaction rules. */
    method Interact(now: int, day: string)
      modifies this
      ensures State() == Interacted(old(State()), now, day)
      ensures sessionStats == old(sessionStats).(interactionsCount := old(sessionStats.interactionsCount) + 1)
      ensures userXP == old(userXP) + InteractionXP
      ensures UnlocksKept(old(achievements), achievements)
    {
      sessionStats := sessionStats.(interactionsCount := sessionStats.interactionsCount + 1);
      AddXP(InteractionXP, "User interaction", now, day);
      CheckInteractionAchievements(now);
    }

    /**
     * The one-second timer: a visible page gains 1000 ms; every full five
     * minutes earns 25 XP and runs the time rules. A hidden page changes nothing.
     */
    method Tick(hidden: bool, now: int, day: string)
      modifies this
      ensures State() == Ticked(old(State()), hidden, now, day)
      ensures hidden ==>
        sessionStats == old(sessionStats) && userXP == old(userXP) && achievements == old(achievements) &&
        actions == old(actions) && store == old(store) && pending == old(pending)
      ensures !hidden ==> sessionStats == old(sessionStats).(timeSpent := old(sessionStats.timeSpent) + 1000)
      ensures !hidden && sessionStats.timeSpent % MilestoneMs == 0 ==> userXP == old(userXP) + TimeMilestoneXP
      ensures !hidden && sessionStats.timeSpent % MilestoneMs != 0 ==>
        userXP == old(userXP) && achievements == old(achievements) && actions == old(actions) && store == old(store)
      ensures UnlocksKept(old(achievements), achievements)
    {
      if !hidden {
        sessionStats := sessionStats.(timeSpent := sessionStats.timeSpent + 1000);
        if sessionStats.timeSpent % MilestoneMs == 0 {
          AddXP(TimeMilestoneXP, "Time milestone reached", now, day);
          CheckTimeBasedAchievements(now);
        }
      }
    }

    /**
     * `checkSpecialAchievements`: the first visit is unlocked and remembered
     * when no visit was recorded; the stored visit count goes up by one
     * before the 3 and 10 visit rules look at it.
     */
    method CheckSpecialAchievements(now: int)
      modifies this
      ensures State() == VisitsChecked(old(State()), now)
      ensures store.visitCount == old(store.visitCount) + 1
      ensures store.hasVisitedBefore
      ensures store.sessionHistory == old(store.sessionHistory)
      ensures var a1 := if !old(store.hasVisitedBefore) then Unlock(old(achievements), "first-visit", now) else old(achievements);
        var a2 := if store.visitCount >= 3 then Unlock(a1, "return-visitor", now) else a1;
        achievements == (if store.visitCount >= 10 then Unlock(a2, "loyal-visitor", now) else a2)
      ensures userXP == old(userXP) && userLevel == old(userLevel) && actions == old(actions)
      ensures sessionStats == old(sessionStats)
      ensures UnlocksKept(old(achievements), achievements)
    {
      ghost var e0 := State();
      if !store.hasVisitedBefore {
        UnlockAchievement("first-visit", now);
        store := store.(hasVisitedBefore := true);
      }
      assert State() == FirstVisitChecked(e0, now);
      var visitCount := store.visitCount + 1;
      store := store.(visitCount := visitCount);
      ghost var e1 := State();
      assert e1 == var f := FirstVisitChecked(e0, now); f.(store := f.store.(visitCount := f.store.visitCount + 1));
      if visitCount >= 3 {
        UnlockAchievement("return-visitor", now);
      }
      assert State() == if visitCount >= 3 then Unlocked(e1, "return-visitor", now) else e1;
      if visitCount >= 10 {
        UnlockAchievement("loyal-visitor", now);
      }
      assert State() == RepeatVisitsChecked(e1, now);
    }

    /** `startSessionTracking`: the session starts now, the visit rules run, and the visit earns 5 XP. */
    method StartSessionTracking(now: int, day: string)
      modifies this
      ensures State() == SessionStarted(old(State()), now, day)
      ensures sessionStats == old(sessionStats).(startTime := now)
      ensures userXP == old(userXP) + PageVisitXP
      ensures store.visitCount == old(store.visitCount) + 1 && store.hasVisitedBefore
      ensures UnlocksKept(old(achievements), achievements)
    {
      sessionStats := sessionStats.(startTime := now);
      CheckSpecialAchievements(now);
      AddXP(PageVisitXP, "Page visit", now, day);
    }

    /** `init` without the DOM: load, add the catalog, start the session. */
    method Init(catalog: seq<Achievements.Achievement>, now: int, day: string)
      modifies this
      ensures State() == Initialized(old(State()), catalog, now, day)
      ensures forall k :: Achievements.GetById(catalog, k).Some? ==> k in achievements
      ensures sessionStats.startTime == now
    {
      LoadUserProgress();
      LoadAchievements(catalog);
      StartSessionTracking(now, day);
    }

    /** `saveSessionStats`: the finished session is appended to the stored history, which keeps the last 20. */
    method SaveSessionStats(now: int)
      modifies this
      ensures State() == SessionSaved(old(State()), now)
      ensures store == old(store).(sessionHistory := PushSession(old(store.sessionHistory),
        SessionRecord(now - sessionStats.startTime, sessionStats.sectionsVisited, sessionStats.interactionsCount, now)))
      ensures |store.sessionHistory| <= SessionHistoryCap
      ensures userXP == old(userXP) && userLevel == old(userLevel) && achievements == old(achievements)
      ensures actions == old(actions) && sessionStats == old(sessionStats) && pending == old(pending)
    {
      var record := SessionRecord(now - sessionStats.startTime, sessionStats.sectionsVisited, sessionStats.interactionsCount, now);
      PushSessionBound(store.sessionHistory, record);
      store := store.(sessionHistory := PushSession(store.sessionHistory, record));
    }

    /** `endSession`: a session longer than ten minutes earns 50 XP; then the session is stored. */
    method EndSession(now: int, day: string)
      modifies this
      ensures State() == SessionEnded(old(State()), now, day)
      ensures now - old(sessionStats.startTime) > LongSessionMs ==> userXP == old(userXP) + LongSessionXP
      ensures now - old(sessionStats.startTime) <= LongSessionMs ==> userXP == old(userXP) && actions == old(actions)
      ensures sessionStats == old(sessionStats)
      ensures store.sessionHistory == PushSession(old(store.sessionHistory),
        SessionRecord(now - sessionStats.startTime, sessionStats.sectionsVisited, sessionStats.interactionsCount, now))
    {
      if now - sessionStats.startTime > LongSessionMs {
        AddXP(LongSessionXP, "Long session bonus", now, day);
      }
      SaveSessionStats(now);
    }

    /** `pauseSession`: the page became hidden; the progress is saved. */
    method PauseSession(now: int)
      modifies this
      ensures State() == Saved(old(State()), now)
      ensures store == old(store).(gamificationData := Parsed(Snapshot(userXP, userLevel, achievements, actions, now)))
      ensures userXP == old(userXP) && userLevel == old(userLevel) && achievements == old(achievements)
      ensures actions == old(actions) && sessionStats == old(sessionStats) && pending == old(pending)
    {
      SaveUserProgress(now);
    }

    /** `getUnlockedAchievements`, as the set of their ids. */
    function GetUnlockedAchievements(): (r: set<string>)
      reads this
      ensures forall k :: k in r <==> k in achievements && achievements[k].unlocked
    {
      UnlockedIds(achievements)
    }

    /** `getTotalAchievements`: the size of the Map. */
    function GetTotalAchievements(): (r: int)
      reads this
      ensures r == |achievements.Keys|
    {
      |achievements|
    }

    /** `getUnlockedCount`, never more than `getTotalAchievements`. */
    function GetUnlockedCount(): (r: int)
      reads this
      ensures r == |GetUnlockedAchievements()|
      ensures 0 <= r <= GetTotalAchievements()
    {
      UnlockedAtMostTotal(achievements);
      |UnlockedIds(achievements)|
    }
  }
}
