/**
 * The achievement catalog (`achievementsData`) and the query helpers that go
 * with it (`achievementHelpers`): filters by a field, lookup by id, the XP
 * total, sorting by reward and the rarity/category distributions.
 */
module Achievements {
  import opened Wrappers
  import Seqs
  import Tallies

  /**
   * One catalog entry. The icon, description and requirement descriptor are
   * display data that no helper and no rule reads, so they are not kept here.
   */
  datatype Achievement = Achievement(
    id: string,
    title: string,
    category: string,
    xpReward: int,
    rarity: string,
    unlocked: bool,
    condition: string)

  /** `achievementsData`, in source order (written in blocks of five entries). */
  function AchievementsData(): seq<Achievement>
  {
    Block0() + Block1() + Block2() + Block3() + Block4() + Block5() + Block6()
  }

  function Block0(): seq<Achievement>
  { [
    Achievement("first-visit", "Welcome to The Legend", "introduction", 25, "Common", false, "automatic"),
    Achievement("return-visitor", "Coming Back for More", "engagement", 50, "Common", false, "visit_count"),
    Achievement("loyal-visitor", "Loyal Explorer", "loyalty", 100, "Rare", false, "visit_count"),
    Achievement("explorer", "Portfolio Explorer", "exploration", 75, "Uncommon", false, "sections_visited"),
    Achievement("deep-diver", "Deep Diver", "engagement", 60, "Uncommon", false, "time_spent")
  ] }

  function Block1(): seq<Achievement>
  { [
    Achievement("project-hunter", "Project Hunter", "projects", 40, "Common", false, "project_views"),
    Achievement("interactive", "Interactive User", "interaction", 35, "Common", false, "interactions"),
    Achievement("super-interactive", "Super Interactive", "interaction", 80, "Rare", false, "interactions"),
    Achievement("quote-collector", "Quote Collector", "content", 30, "Common", false, "quote_views"),
    Achievement("engaged", "Engaged Visitor", "engagement", 45, "Common", false, "time_spent")
  ] }

  function Block2(): seq<Achievement>
  { [
    Achievement("dedicated", "Dedicated Explorer", "engagement", 75, "Uncommon", false, "time_spent"),
    Achievement("devoted", "Devoted Fan", "engagement", 120, "Rare", false, "time_spent"),
    Achievement("first-contact", "First Contact", "communication", 100, "Uncommon", false, "form_submission"),
    Achievement("newsletter-subscriber", "Newsletter Subscriber", "communication", 50, "Common", false, "newsletter_signup"),
    Achievement("social-connector", "Social Connector", "social", 40, "Common", false, "social_click")
  ] }

  function Block3(): seq<Achievement>
  { [
    Achievement("gallery-explorer", "Gallery Explorer", "gallery", 35, "Common", false, "gallery_views"),
    Achievement("filter-master", "Filter Master", "navigation", 25, "Common", false, "filter_usage"),
    Achievement("lightbox-lover", "Lightbox Lover", "gallery", 30, "Common", false, "lightbox_views"),
    Achievement("rising-star", "Rising Star", "progression", 75, "Uncommon", false, "level_reached"),
    Achievement("experienced", "Experienced Explorer", "progression", 150, "Rare", false, "level_reached")
  ] }

  function Block4(): seq<Achievement>
  { [
    Achievement("expert", "Portfolio Expert", "progression", 250, "Epic", false, "level_reached"),
    Achievement("master", "Master of The Legend", "progression", 500, "Legendary", false, "level_reached"),
    Achievement("night-owl", "Night Owl", "special", 40, "Uncommon", false, "time_of_day"),
    Achievement("early-bird", "Early Bird", "special", 40, "Uncommon", false, "time_of_day"),
    Achievement("mobile-explorer", "Mobile Explorer", "device", 30, "Common", false, "device_type")
  ] }

  function Block5(): seq<Achievement>
  { [
    Achievement("speed-demon", "Speed Demon", "special", 35, "Uncommon", false, "navigation_speed"),
    Achievement("perfectionist", "Perfectionist", "special", 60, "Rare", false, "form_perfection"),
    Achievement("quote-sharer", "Quote Sharer", "sharing", 45, "Uncommon", false, "quote_share"),
    Achievement("brand-ambassador", "Brand Ambassador", "sharing", 75, "Rare", false, "portfolio_share"),
    Achievement("audio-enthusiast", "Audio Enthusiast", "multimedia", 35, "Common", false, "audio_enabled")
  ] }

  function Block6(): seq<Achievement>
  { [
    Achievement("visual-artist", "Visual Artist", "multimedia", 30, "Common", false, "visual_interaction"),
    Achievement("keyboard-ninja", "Keyboard Ninja", "technical", 50, "Uncommon", false, "keyboard_usage"),
    Achievement("accessibility-champion", "Accessibility Champion", "accessibility", 60, "Rare", false, "accessibility_usage"),
    Achievement("completionist", "Completionist", "ultimate", 200, "Epic", false, "achievement_percentage"),
    Achievement("legend-status", "Legend Status", "ultimate", 1000, "Legendary", false, "ultimate")
  ] }

  predicate RewardsPositive(s: seq<Achievement>)
  {
    forall i :: 0 <= i < |s| ==> s[i].xpReward > 0
  }

  lemma RewardsPositiveAppend(a: seq<Achievement>, b: seq<Achievement>)
    requires RewardsPositive(a) && RewardsPositive(b)
    ensures RewardsPositive(a + b)
  {
    forall i | 0 <= i < |a + b| ensures (a + b)[i].xpReward > 0 {
      if i < |a| { assert (a + b)[i] == a[i]; } else { assert (a + b)[i] == b[i - |a|]; }
    }
  }

  lemma BlockRewards0()
    ensures RewardsPositive(Block0())
  {
  }

  lemma BlockRewards1()
    ensures RewardsPositive(Block1())
  {
  }

  lemma BlockRewards2()
    ensures RewardsPositive(Block2())
  {
  }

  lemma BlockRewards3()
    ensures RewardsPositive(Block3())
  {
  }

  lemma BlockRewards4()
    ensures RewardsPositive(Block4())
  {
  }

  lemma BlockRewards5()
    ensures RewardsPositive(Block5())
  {
  }

  lemma BlockRewards6()
    ensures RewardsPositive(Block6())
  {
  }

  /** Every achievement of the catalog is worth a positive amount of XP. */
  lemma CatalogRewardsPositive()
    ensures forall a :: a in AchievementsData() ==> a.xpReward > 0
  {
    BlockRewards0(); BlockRewards1(); BlockRewards2(); BlockRewards3();
    BlockRewards4(); BlockRewards5(); BlockRewards6();
    var p := Block0() + Block1();
    RewardsPositiveAppend(Block0(), Block1());
    RewardsPositiveAppend(p, Block2());
    p := p + Block2();
    RewardsPositiveAppend(p, Block3());
    p := p + Block3();
    RewardsPositiveAppend(p, Block4());
    p := p + Block4();
    RewardsPositiveAppend(p, Block5());
    p := p + Block5();
    RewardsPositiveAppend(p, Block6());
    p := p + Block6();
    assert p == AchievementsData();
    forall a | a in p ensures a.xpReward > 0 {
      var i :| 0 <= i < |p| && p[i] == a;
    }
  }

  predicate DistinctIds(s: seq<Achievement>)
  {
    forall i, j :: 0 <= i < j < |s| ==> s[i].id != s[j].id
  }

  /** Length, first and last character of an id, packed into one number. */
  function Fingerprint(id: string): int
  {
    if id == [] then 0 else |id| * 65536 + (id[0] as int) * 256 + id[|id| - 1] as int
  }

  function FingerprintsOf(s: seq<Achievement>): (r: seq<int>)
    ensures |r| == |s|
    ensures forall i :: 0 <= i < |s| ==> r[i] == Fingerprint(s[i].id)
  {
    seq(|s|, i requires 0 <= i < |s| => Fingerprint(s[i].id))
  }

  lemma FingerprintsOfAppend(a: seq<Achievement>, b: seq<Achievement>)
    ensures FingerprintsOf(a + b) == FingerprintsOf(a) + FingerprintsOf(b)
  {
    assert forall i :: 0 <= i < |a + b| ==> FingerprintsOf(a + b)[i] == (FingerprintsOf(a) + FingerprintsOf(b))[i];
  }

  /** Entries whose fingerprints are pairwise different have pairwise different ids. */
  lemma DistinctByFingerprint(s: seq<Achievement>)
    requires forall i, j :: 0 <= i < j < |s| ==> FingerprintsOf(s)[i] != FingerprintsOf(s)[j]
    ensures DistinctIds(s)
  {
    forall i, j | 0 <= i < j < |s| ensures s[i].id != s[j].id {
      assert FingerprintsOf(s)[i] == Fingerprint(s[i].id) && FingerprintsOf(s)[j] == Fingerprint(s[j].id);
    }
  }

  /** The fingerprints of the catalog ids, in catalog order. */
  function CatalogFingerprints(): seq<int>
  {
    [747124, 946802, 879730, 550258, 681074, 946290, 747877, 1143653, 1012082, 484708, 615524, 484452, 878196, 1404530, 1078130, 1075058, 878194, 945266, 750194, 746852, 419188, 421234, 618092, 681316, 1011058, 750446, 880756, 815474, 1073778, 1073524, 882292, 944993, 1466734, 877428, 879731]
  }

  lemma FingerprintsDistinct0()
    ensures forall i, j :: 0 <= i < 5 && i < j < |CatalogFingerprints()| ==> CatalogFingerprints()[i] != CatalogFingerprints()[j]
  {
  }

  lemma FingerprintsDistinct1()
    ensures forall i, j :: 5 <= i < 10 && i < j < |CatalogFingerprints()| ==> CatalogFingerprints()[i] != CatalogFingerprints()[j]
  {
  }

  lemma FingerprintsDistinct2()
    ensures forall i, j :: 10 <= i < 15 && i < j < |CatalogFingerprints()| ==> CatalogFingerprints()[i] != CatalogFingerprints()[j]
  {
  }

  lemma FingerprintsDistinct3()
    ensures forall i, j :: 15 <= i < 20 && i < j < |CatalogFingerprints()| ==> CatalogFingerprints()[i] != CatalogFingerprints()[j]
  {
  }

  lemma FingerprintsDistinct4()
    ensures forall i, j :: 20 <= i < 25 && i < j < |CatalogFingerprints()| ==> CatalogFingerprints()[i] != CatalogFingerprints()[j]
  {
  }

  lemma FingerprintsDistinct5()
    ensures forall i, j :: 25 <= i < 30 && i < j < |CatalogFingerprints()| ==> CatalogFingerprints()[i] != CatalogFingerprints()[j]
  {
  }

  lemma FingerprintsDistinct6()
    ensures forall i, j :: 30 <= i < 35 && i < j < |CatalogFingerprints()| ==> CatalogFingerprints()[i] != CatalogFingerprints()[j]
  {
  }

  lemma BlockFingerprints0()
    ensures FingerprintsOf(Block0()) == CatalogFingerprints()[0..5]
  {
    var f, fps := FingerprintsOf(Block0()), CatalogFingerprints();
    assert f[0] == fps[0]
      && f[1] == fps[1]
      && f[2] == fps[2]
      && f[3] == fps[3]
      && f[4] == fps[4];
  }

  lemma BlockFingerprints1()
    ensures FingerprintsOf(Block1()) == CatalogFingerprints()[5..10]
  {
    var f, fps := FingerprintsOf(Block1()), CatalogFingerprints();
    assert f[0] == fps[5]
      && f[1] == fps[6]
      && f[2] == fps[7]
      && f[3] == fps[8]
      && f[4] == fps[9];
  }

  lemma BlockFingerprints2()
    ensures FingerprintsOf(Block2()) == CatalogFingerprints()[10..15]
  {
    var f, fps := FingerprintsOf(Block2()), CatalogFingerprints();
    assert f[0] == fps[10]
      && f[1] == fps[11]
      && f[2] == fps[12]
      && f[3] == fps[13]
      && f[4] == fps[14];
  }

  lemma BlockFingerprints3()
    ensures FingerprintsOf(Block3()) == CatalogFingerprints()[15..20]
  {
    var f, fps := FingerprintsOf(Block3()), CatalogFingerprints();
    assert f[0] == fps[15]
      && f[1] == fps[16]
      && f[2] == fps[17]
      && f[3] == fps[18]
      && f[4] == fps[19];
  }

  lemma BlockFingerprints4()
    ensures FingerprintsOf(Block4()) == CatalogFingerprints()[20..25]
  {
    var f, fps := FingerprintsOf(Block4()), CatalogFingerprints();
    assert f[0] == fps[20]
      && f[1] == fps[21]
      && f[2] == fps[22]
      && f[3] == fps[23]
      && f[4] == fps[24];
  }

  lemma BlockFingerprints5()
    ensures FingerprintsOf(Block5()) == CatalogFingerprints()[25..30]
  {
    var f, fps := FingerprintsOf(Block5()), CatalogFingerprints();
    assert f[0] == fps[25]
      && f[1] == fps[26]
      && f[2] == fps[27]
      && f[3] == fps[28]
      && f[4] == fps[29];
  }

  lemma BlockFingerprints6()
    ensures FingerprintsOf(Block6()) == CatalogFingerprints()[30..35]
  {
    var f, fps := FingerprintsOf(Block6()), CatalogFingerprints();
    assert f[0] == fps[30]
      && f[1] == fps[31]
      && f[2] == fps[32]
      && f[3] == fps[33]
      && f[4] == fps[34];
  }

  /** The table's fingerprints are pairwise different. */
  lemma FingerprintsDistinct()
    ensures forall i, j :: 0 <= i < j < |CatalogFingerprints()| ==> CatalogFingerprints()[i] != CatalogFingerprints()[j]
  {
    FingerprintsDistinct0();
    FingerprintsDistinct1();
    FingerprintsDistinct2();
    FingerprintsDistinct3();
    FingerprintsDistinct4();
    FingerprintsDistinct5();
    FingerprintsDistinct6();
  }

  /** Fingerprints of two consecutive stretches of the table join up. */
  lemma FingerprintsJoin(a: seq<Achievement>, b: seq<Achievement>, fps: seq<int>, n: nat, m: nat)
    requires n <= m <= |fps|
    requires FingerprintsOf(a) == fps[..n] && FingerprintsOf(b) == fps[n..m]
    ensures FingerprintsOf(a + b) == fps[..m]
  {
    FingerprintsOfAppend(a, b);
    assert fps[..m] == fps[..n] + fps[n..m];
  }

  lemma Prefix2Fingerprints()
    ensures FingerprintsOf(Block0() + Block1()) == CatalogFingerprints()[..10]
  {
    BlockFingerprints0();
    BlockFingerprints1();
    assert CatalogFingerprints()[0..5] == CatalogFingerprints()[..5];
    FingerprintsJoin(Block0(), Block1(), CatalogFingerprints(), 5, 10);
  }

  lemma Prefix4Fingerprints()
    ensures FingerprintsOf(Block0() + Block1() + Block2() + Block3()) == CatalogFingerprints()[..20]
  {
    Prefix2Fingerprints();
    BlockFingerprints2();
    FingerprintsJoin(Block0() + Block1(), Block2(), CatalogFingerprints(), 10, 15);
    BlockFingerprints3();
    FingerprintsJoin(Block0() + Block1() + Block2(), Block3(), CatalogFingerprints(), 15, 20);
  }

  lemma Prefix6Fingerprints()
    ensures FingerprintsOf(Block0() + Block1() + Block2() + Block3() + Block4() + Block5()) == CatalogFingerprints()[..30]
  {
    Prefix4Fingerprints();
    BlockFingerprints4();
    FingerprintsJoin(Block0() + Block1() + Block2() + Block3(), Block4(), CatalogFingerprints(), 20, 25);
    BlockFingerprints5();
    FingerprintsJoin(Block0() + Block1() + Block2() + Block3() + Block4(), Block5(), CatalogFingerprints(), 25, 30);
  }

  /** The table lists the catalog's fingerprints, block by block. */
  lemma CatalogFingerprintsMatch()
    ensures FingerprintsOf(AchievementsData()) == CatalogFingerprints()
  {
    Prefix6Fingerprints();
    BlockFingerprints6();
    FingerprintsJoin(Block0() + Block1() + Block2() + Block3() + Block4() + Block5(), Block6(), CatalogFingerprints(), 30, 35);
    assert CatalogFingerprints()[..35] == CatalogFingerprints();
  }

  /** Every `id` in the catalog is distinct (their fingerprints already are). */
  lemma CatalogIdsDistinct()
    ensures |AchievementsData()| == 35
    ensures DistinctIds(AchievementsData())
  {
    FingerprintsDistinct();
    CatalogFingerprintsMatch();
    DistinctByFingerprint(AchievementsData());
  }

  /** The string properties an entry can be filtered or counted by. */
  datatype Field = Category | Rarity | Condition

  function FieldOf(a: Achievement, f: Field): string
  {
    match f
    case Category => a.category
    case Rarity => a.rarity
    case Condition => a.condition
  }

  /** The `filter` callback comparing field `f` with `value`. */
  function FieldTest(f: Field, value: string): Achievement -> bool
  {
    (a: Achievement) => FieldOf(a, f) == value
  }

  /** The `forEach` key of a distribution over field `f`. */
  function FieldKey(f: Field): Achievement -> Option<string>
  {
    (a: Achievement) => Some(FieldOf(a, f))
  }

  /** The entries whose field `f` equals `value`, in catalog order. */
  function GetByField(data: seq<Achievement>, f: Field, value: string): (r: seq<Achievement>)
    ensures forall i :: 0 <= i < |r| ==> FieldOf(r[i], f) == value && r[i] in data
    ensures forall i :: 0 <= i < |data| && FieldOf(data[i], f) == value ==> data[i] in r
    ensures Seqs.IsSubsequence(r, data)
  {
    Seqs.Filter(data, FieldTest(f, value))
  }

  /** `getByCategory`. */
  function GetByCategory(data: seq<Achievement>, category: string): seq<Achievement>
  {
    GetByField(data, Category, category)
  }

  /** `getByRarity`. */
  function GetByRarity(data: seq<Achievement>, rarity: string): seq<Achievement>
  {
    GetByField(data, Rarity, rarity)
  }

  /** `getByCondition`. */
  function GetByCondition(data: seq<Achievement>, condition: string): seq<Achievement>
  {
    GetByField(data, Condition, condition)
  }

  /** `getUnlocked`: the entries whose `unlocked` flag is set, in catalog order. */
  function GetUnlocked(data: seq<Achievement>): (r: seq<Achievement>)
    ensures forall i :: 0 <= i < |r| ==> r[i].unlocked && r[i] in data
    ensures forall i :: 0 <= i < |data| && data[i].unlocked ==> data[i] in r
    ensures Seqs.IsSubsequence(r, data)
  {
    Seqs.Filter(data, (a: Achievement) => a.unlocked)
  }

  /** `getLocked`: the entries whose `unlocked` flag is clear, in catalog order. */
  function GetLocked(data: seq<Achievement>): (r: seq<Achievement>)
    ensures forall i :: 0 <= i < |r| ==> !r[i].unlocked && r[i] in data
    ensures forall i :: 0 <= i < |data| && !data[i].unlocked ==> data[i] in r
    ensures Seqs.IsSubsequence(r, data)
  {
    Seqs.Filter(data, (a: Achievement) => !a.unlocked)
  }

  /** Locked and unlocked split the catalog: each entry is in exactly one, and the sizes add up. */
  lemma UnlockedLockedPartition(data: seq<Achievement>)
    ensures |GetUnlocked(data)| + |GetLocked(data)| == |data|
    ensures forall i :: 0 <= i < |data| ==> (data[i] in GetUnlocked(data) <==> data[i] !in GetLocked(data))
  {
    Seqs.FilterPartition(data, (a: Achievement) => a.unlocked, (a: Achievement) => !a.unlocked);
    var u, l := GetUnlocked(data), GetLocked(data);
    forall i | 0 <= i < |data| ensures data[i] in u <==> data[i] !in l {
      assert data[i] in u <==> data[i].unlocked;
      assert data[i] in l <==> !data[i].unlocked;
    }
  }

  /** The shipped catalog has every entry locked: `getUnlocked` is empty and `getLocked` is all of it. */
  lemma CatalogStartsLocked()
    ensures GetUnlocked(AchievementsData()) == []
    ensures |GetLocked(AchievementsData())| == |AchievementsData()|
  {
    var s := AchievementsData();
    assert forall i :: 0 <= i < |s| ==> !s[i].unlocked;
    Seqs.CountNone(s, (a: Achievement) => a.unlocked);
    Seqs.FilterLength(s, (a: Achievement) => a.unlocked);
    UnlockedLockedPartition(s);
  }

  /** `getById`: the first entry with that id, or nothing when no entry has it. */
  function GetById(data: seq<Achievement>, id: string): (r: Option<Achievement>)
    ensures r.Some? ==> r.value in data && r.value.id == id
    ensures r.None? <==> forall i :: 0 <= i < |data| ==> data[i].id != id
  {
    match Seqs.FindIndex(data, (a: Achievement) => a.id == id)
    case None => None
    case Some(i) => Some(data[i])
  }

  /** With distinct ids, the entry `getById` returns is the only one with that id. */
  lemma GetByIdUnique(data: seq<Achievement>, id: string, i: nat)
    requires DistinctIds(data)
    requires i < |data| && data[i].id == id
    ensures GetById(data, id) == Some(data[i])
  {
    var k := Seqs.FindIndex(data, (a: Achievement) => a.id == id);
    assert k.Some? && k.value <= i;
    assert data[k.value].id == data[i].id;
  }

  /** Looking an id up in a longer catalog: the earlier entry wins, the new last entry counts only when nothing earlier matched. */
  lemma GetByIdExtend(data: seq<Achievement>, x: Achievement, id: string)
    ensures GetById(data + [x], id) ==
      if GetById(data, id).Some? then GetById(data, id) else if x.id == id then Some(x) else None
  {
    Seqs.FindIndexAppend(data, x, (a: Achievement) => a.id == id);
    var k := Seqs.FindIndex(data, (a: Achievement) => a.id == id);
    if k.Some? {
      assert (data + [x])[k.value] == data[k.value];
    }
  }

  function SumXP(s: seq<Achievement>): int
  {
    if s == [] then 0 else s[0].xpReward + SumXP(s[1..])
  }

  /** `getTotalPossibleXP`: the `reduce` that adds up every reward. */
  function GetTotalPossibleXP(data: seq<Achievement>): int
  {
    SumXP(data)
  }

  /** The XP of a filter and of its complement add up to the total. */
  lemma {:induction false} SumXPSplit(s: seq<Achievement>, p: Achievement -> bool, q: Achievement -> bool)
    requires forall a :: q(a) == !p(a)
    ensures SumXP(Seqs.Filter(s, p)) + SumXP(Seqs.Filter(s, q)) == SumXP(s)
  {
    if s != [] {
      SumXPSplit(s[1..], p, q);
    }
  }

  /** The total possible XP is what the unlocked and the locked entries are worth together. */
  lemma TotalPossibleXPSplits(data: seq<Achievement>)
    ensures SumXP(GetUnlocked(data)) + SumXP(GetLocked(data)) == GetTotalPossibleXP(data)
  {
    SumXPSplit(data, (a: Achievement) => a.unlocked, (a: Achievement) => !a.unlocked);
  }

  /**
   * `sortByXP`: a sorted copy (ECMAScript's sort is stable), by descending
   * reward by default and ascending when asked; the catalog itself is a value
   * and stays as it was.
   */
  function SortByXP(data: seq<Achievement>, ascending: bool): (r: seq<Achievement>)
    ensures multiset(r) == multiset(data)
    ensures |r| == |data|
    ensures ascending ==> forall i, j :: 0 <= i < j < |r| ==> r[i].xpReward <= r[j].xpReward
    ensures !ascending ==> forall i, j :: 0 <= i < j < |r| ==> r[i].xpReward >= r[j].xpReward
  {
    if ascending then Seqs.SortBy(data, (a: Achievement) => a.xpReward)
    else
      var r := Seqs.SortBy(data, (a: Achievement) => -a.xpReward);
      assert forall i, j :: 0 <= i < j < |r| ==> -r[i].xpReward <= -r[j].xpReward;
      r
  }

  /** The entries with key `k` are as many as its occurrences. */
  lemma {:induction false} FilterOccurrences(s: seq<Achievement>, key: Achievement -> Option<string>, k: string)
    ensures |Seqs.Filter(s, (a: Achievement) => key(a) == Some(k))| == Tallies.Occurrences(s, key, k)
  {
    if s != [] { FilterOccurrences(s[1..], key, k); }
  }

  /**
   * What a distribution over field `f` holds: each value that occurs once, in
   * order of first occurrence, counted as often as `GetByField` finds it; the
   * counts add up to the catalog size.
   */
  ghost predicate IsDistribution(data: seq<Achievement>, f: Field, keys: seq<string>, counts: map<string, nat>)
  {
    && Seqs.Distinct(keys)
    && (forall k :: k in counts <==> k in keys)
    && (forall k :: k in keys <==> exists j :: 0 <= j < |data| && FieldOf(data[j], f) == k)
    && (forall k :: k in counts ==> counts[k] == |GetByField(data, f, k)|)
    && Tallies.Total(keys, counts) == |data|
    && Tallies.FirstSeenOrder(data, FieldKey(f), keys)
  }

  /** The counting `forEach` over field `f`, shared by both distributions. */
  method Distribution(data: seq<Achievement>, f: Field) returns (keys: seq<string>, counts: map<string, nat>)
    ensures IsDistribution(data, f, keys, counts)
  {
    keys, counts := Tallies.Tally(data, FieldKey(f));
    Tallies.KeyedAll(data, FieldKey(f));
    forall k | k in counts ensures counts[k] == |GetByField(data, f, k)| {
      FilterOccurrences(data, FieldKey(f), k);
      Seqs.FilterSame(data, FieldTest(f, k), (a: Achievement) => FieldKey(f)(a) == Some(k));
    }
    forall k ensures k in keys <==> exists j :: 0 <= j < |data| && FieldOf(data[j], f) == k {
      assert forall j :: 0 <= j < |data| ==> (FieldKey(f)(data[j]) == Some(k) <==> FieldOf(data[j], f) == k);
    }
  }

  /** `getRarityDistribution`. */
  method GetRarityDistribution(data: seq<Achievement>) returns (keys: seq<string>, counts: map<string, nat>)
    ensures IsDistribution(data, Rarity, keys, counts)
  {
    keys, counts := Distribution(data, Rarity);
  }

  /** `getCategoryDistribution`. */
  method GetCategoryDistribution(data: seq<Achievement>) returns (keys: seq<string>, counts: map<string, nat>)
    ensures IsDistribution(data, Category, keys, counts)
  {
    keys, counts := Distribution(data, Category);
  }
}
