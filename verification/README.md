# LuxuryShowcase core, modelled in Dafny

This project models the bookkeeping logic of the LuxuryShowcase portfolio
site and proves properties about it. The page's DOM glue is not modelled.

- **Gamification engine.** `GamificationSystem` in `js/gamification.js`:
  - integer XP and a level read off an ascending threshold table;
  - achievements unlocked at most once, with their rewards granted one second later;
  - a per-action-and-day audit log;
  - session statistics and a session history capped at 20 entries;
  - the rules that unlock achievements for interactions, visible time, levels, visits and exploring.
  - the level never decreases within a session: the page's events, in any order, never lower the XP or the level once `init` has run.
- **Achievement catalog.** The `achievementsData` constant and the `achievementHelpers` query functions in `data/achievements.js`.
- **Contact form.** `ContactForm` in `js/contact.js`:
  - the rule table and per-field validation;
  - the error map;
  - the submit guard;
  - the timeline and message suggestions;
  - the submission log that keeps the last 10;
  - the top-three project types.
- **Quote carousel.** `QuoteManager` in `js/quotes.js`:
  - index arithmetic with JavaScript's `%`;
  - the play/pause flags;
  - favourites, search, category filtering and adding quotes.
- **Gallery.** `GalleryManager` in `js/gallery.js`:
  - the category-and-search filter;
  - lightbox navigation;
  - adding and updating items.
- **Server-side input checks.** In `server.py`:
  - `validate_email`;
  - `sanitize_input`;
  - the accept/reject decisions of the contact endpoint.

Modules:

| file | module | what |
|---|---|---|
| wrappers.dfy | `Wrappers` | `Option` |
| text.dfy | `Text` | ASCII lower-casing, substring search, JavaScript and Python whitespace, trimming, decimal rendering |
| seqs.dfy | `Seqs` | order-preserving filter, counting, keep-last-n, stable insertion sort, first-index search, distinctness |
| tally.dfy | `Tallies` | counting entries per key in first-seen order (the shape of both distributions and of the project-type count) |
| achievements.dfy | `Achievements` | the catalog and its helpers |
| gamification.dfy | `Gamification` | the engine as a class over its fields and an abstract localStorage |
| contact.dfy | `Contact` | the contact form as a class, with the rule table and its lemmas |
| quotes.dfy | `Quotes` | the quote carousel as a class |
| gallery.dfy | `Gallery` | the gallery as a class |
| server.dfy | `Server` | the server-side checks, as pure functions |

Objects whose methods update their fields are classes: `GamificationSystem`, `ContactForm`, `QuoteManager` and `GalleryManager`. Each method states its whole new state, and what it computes is specified by functions proved about in lemmas. The catalog helpers, the form rules and the server checks are pure, so they are functions.

The browser and the environment become parameters:

- `Date.now()`, `new Date().toDateString()`, `document.hidden` and the number of page sections;
- localStorage, which becomes a field holding the parsed items;
- timers. A `setTimeout` callback waits in a queue until `FireTimer` (gamification) or `FireRestore` (quotes) runs it; an interval is a boolean.

## Model

| member | source | states |
|---|---|---|
| Gamification.ThresholdsIncreasing | js/gamification.js:78-80 | the level thresholds are strictly increasing |
| Gamification.Level | js/gamification.js:205-212 | no contract of its own: one more than the last threshold reached, at least 1; `LevelSpec` brackets it, `LevelMonotone` orders it and `CalculateLevel` is proved equal to it |
| Gamification.LevelSpec | js/gamification.js:205-212 | the level lies in 1..11; it is 1 for any xp below 100, negative xp included; for xp ≥ 0 the threshold of the level is reached and the next one is not |
| Gamification.LevelMonotone | js/gamification.js:205-212 | more XP never gives a lower level |
| Gamification.CalculateLevel | js/gamification.js:205-212 | the top-down scan returns the largest i+1 whose threshold xp reaches, or 1 |
| Gamification.LevelAchievementId | js/gamification.js:415-426 | the level map names exactly the levels 5, 10, 15 and 20 |
| Gamification.LevelAchievementsReachable | js/gamification.js:415-426 | no XP reaches level 15 or 20, so `expert` and `master` are never unlocked by level; levels 5 and 10 are reachable |
| Gamification.OrDefault | js/gamification.js:33-34 | `x \|\| d` keeps a non-zero number and replaces a missing value or 0 by d |
| Gamification.RewardOf | js/gamification.js:373-378 | the reward is `xpReward`, or 25 when it is absent (0) |
| Gamification.Restore | js/gamification.js:28-41 | a loaded object gives XP or 0, the level as stored or 1, and both Maps or empty ones |
| Gamification.SaveLoadRoundTrip | js/gamification.js:28-56 | saving and then loading gives back the XP and both Maps, and any level but 0 |
| Gamification.Fresh | js/gamification.js:83-96 | a catalog entry enters the Map locked and with no unlock time |
| Gamification.Unlock | js/gamification.js:336-352 | only a known, locked id changes: it becomes unlocked at `now`; every other entry and the key set are unchanged |
| Gamification.UnlockGrants | js/gamification.js:336-352 | an actual unlock schedules exactly one grant of the reward; otherwise none |
| Gamification.UnlockOnce | js/gamification.js:336-352 | unlocking twice is unlocking once: the second call changes nothing and grants nothing, and unlocked entries stay unlocked |
| Gamification.Track | js/gamification.js:282-299 | the record under `action_day` counts one more and adds xp; `firstOccurrence` is set only on creation and `lastOccurrence` is always set; other keys are unchanged |
| Gamification.TrackSeparatesActions | js/gamification.js:282-299 | two different actions on one day update two different records |
| Gamification.ActionKeyInjective | js/gamification.js:284 | on one day, the action key determines the action |
| Gamification.UnlockedIds | js/gamification.js:514-516 | exactly the unlocked ids of the Map |
| Gamification.UnlockedAtMostTotal | js/gamification.js:514-524 | the unlocked count never exceeds the total count |
| Gamification.PushSessionBound | js/gamification.js:487-491 | the stored session history never holds more than 20 records |
| Gamification.PushSessionSpec | js/gamification.js:478-495 | the new record comes last, and the ones kept before it are the latest of the old history |
| Gamification.Saved | js/gamification.js:43-56 | only the stored progress item changes, to the snapshot of XP, level and both Maps; the other stored items stay |
| Gamification.WithCatalog | js/gamification.js:83-96 | the keys are the old ones plus the catalog ids; old entries are kept, and a new one is the first catalog entry with that id, locked |
| Gamification.WithCatalogUnique | js/gamification.js:83-96 | any Map that keeps the old entries and adds exactly the missing catalog ids, locked, is `WithCatalog` |
| Gamification.Unlocked | js/gamification.js:336-352 | XP, level, actions and session stay; the Map becomes `Unlock` of the old one, the grant is queued, no unlock is lost, and only the progress item of the store can change |
| Gamification.LeveledUp | js/gamification.js:180-193 | XP grows by the amount and the level is `Level(xp)`; a strictly higher level unlocks that level's achievement and queues its grant and then the bonus; otherwise Map, queue and store stay |
| Gamification.XPAdded | js/gamification.js:180-203 | on top of that, the action is tracked and the progress saved as the snapshot of the new XP, level and Maps; only the achievement the new level names can change, and no unlock is lost; `XPAddedSteady` proves that a non-negative amount never lowers the level |
| Gamification.Defaults | js/gamification.js:4-15 | no contract of its own: the fields the constructor sets before `init`: XP 0, level 1, empty Maps and queue, a session starting now |
| Gamification.ProgressLoaded | js/gamification.js:28-41 | no contract of its own: a parsed stored object replaces XP, level and both Maps with the `||` fallbacks of `Restore`; anything else changes nothing; `SaveThenLoad` is its partner |
| Gamification.SaveThenLoad | js/gamification.js:28-56 | loading right after a save gives back the saved XP, Maps and level, except that a level of 0 comes back as 1 |
| Gamification.LevelChecked | js/gamification.js:415-426 | no contract of its own: the level's achievement, if the level names one, goes through `unlockAchievement`; `LevelCheckedUnlocks` states the outcome |
| Gamification.LevelCheckedUnlocks | js/gamification.js:415-426 | the Map becomes `LevelUnlock` of the old one and the queue gains exactly `LevelGrants`; XP, level, actions and session stay |
| Gamification.TimerFired | js/gamification.js:273-280 | no contract of its own: the oldest grant leaves the queue; a level bonus is added and saved, an achievement reward goes through `addXP`; `TimerAddsAmount` states the outcome and `TimerFiredSteady` that the level never falls |
| Gamification.InteractionsChecked | js/gamification.js:389-397 | no contract of its own: 10 and 50 interactions unlock `interactive` and `super-interactive`; `InteractionsCheckedInteractive` states the first rule |
| Gamification.TimeChecked | js/gamification.js:399-413 | no contract of its own: 5, 15 and 30 minutes unlock `engaged`, `dedicated` and `devoted`; `TimeCheckedEngaged` states the first rule |
| Gamification.ExplorerChecked | js/gamification.js:381-387 | no contract of its own: with every section seen, `explorer` is unlocked and the 100 XP bonus goes through `addXP`; `LastSectionUnlocksExplorer` states the outcome |
| Gamification.SectionVisited | js/gamification.js:124-148 | no contract of its own: a new named section is recorded, earns 10 XP and runs the explorer rule; `LastSectionUnlocksExplorer` states the outcome |
| Gamification.Interacted | js/gamification.js:150-164 | no contract of its own: one more interaction, 2 XP, then the interaction rules; `InteractionUnlocksInteractive` states the outcome |
| Gamification.Ticked | js/gamification.js:166-178 | no contract of its own: a visible second is counted, and each five-minute mark earns 25 XP and runs the time rules; `MilestoneUnlocksEngaged` states the outcome |
| Gamification.VisitsChecked | js/gamification.js:428-446 | no contract of its own: `FirstVisitChecked`, one more stored visit, then `RepeatVisitsChecked`; `VisitRules` states the outcome |
| Gamification.SessionStarted | js/gamification.js:448-454 | no contract of its own: the session starts now, the visit rules run and the visit earns 5 XP; `InitLoads` states the outcome |
| Gamification.Initialized | js/gamification.js:19-26 | no contract of its own: load, add the catalog, start the session; `InitLoads` states the outcome |
| Gamification.SessionSaved | js/gamification.js:478-495 | no contract of its own: the finished session is appended to the stored history; `PushSessionSpec` and `PushSessionBound` state the result |
| Gamification.SessionEnded | js/gamification.js:466-476 | no contract of its own: a session over ten minutes earns 50 XP, then the session is stored; `EndSessionStores` states the outcome |
| Gamification.InteractionsCheckedInteractive | js/gamification.js:389-392 | the interaction rules unlock `interactive` exactly from 10 interactions on, stamped with the time |
| Gamification.InteractionUnlocksInteractive | js/gamification.js:150-164 | after a click, `interactive` is unlocked exactly when it already was or the count has reached 10; the tenth click stamps it with its time |
| Gamification.TimeCheckedEngaged | js/gamification.js:399-405 | the time rules unlock `engaged` exactly from five minutes of visible time on |
| Gamification.MilestoneUnlocksEngaged | js/gamification.js:166-178 | after a tick, `engaged` is unlocked exactly when it already was, or the page is visible and its time reaches a multiple of five minutes that is at least five |
| Gamification.XPKeeps | js/gamification.js:180-193 | `addXP` leaves every achievement that no level names as it was |
| Gamification.LastSectionUnlocksExplorer | js/gamification.js:124-148 | a new named section earns 10 XP, plus the 100 XP bonus when it is the last unseen one; `explorer` is unlocked exactly when it already was or the last section was just seen |
| Gamification.FirstVisitChecked | js/gamification.js:429-433 | `first-visit` ends up unlocked exactly when it was or this is the first visit, which is then remembered; XP, level, actions, session and every stored field but the saved progress stay, and no unlock is lost |
| Gamification.RepeatVisitsChecked | js/gamification.js:439-445 | with the visit count already stored, `return-visitor` is unlocked exactly when it was or the count is at least 3, `loyal-visitor` when it was or the count is at least 10; `first-visit`, XP, level, actions, session and every stored field but the saved progress stay |
| Gamification.VisitRules | js/gamification.js:428-446 | the visit count goes up by one and the first visit is remembered; `first-visit`, `return-visitor` and `loyal-visitor` are unlocked exactly when they were or the first, third or tenth visit has come; XP, level, actions and session stay and no unlock is lost |
| Gamification.InitLoads | js/gamification.js:19-26 | after `init` the XP is the loaded XP (or the old one) plus 5; every catalog id is present; no persisted unlock is lost; the session starts now; the visit is counted and the result saved |
| Gamification.EndSessionStores | js/gamification.js:466-495 | a session over ten minutes earns 50 XP, shorter ones nothing; the finished session is the last record of a history of at most 20 |
| Gamification.TimerAddsAmount | js/gamification.js:273-280 | a fired grant adds exactly its amount; a level bonus keeps the level and an achievement reward recomputes it; the grants behind it stay queued in order |
| Gamification.XPAddedSteady | js/gamification.js:180-203 | `addXP` recomputes the level from the XP, so afterwards the level is in step with the XP and no queued grant is negative, given non-negative rewards in the Map; a non-negative amount lowers neither the XP nor a level that was in step |
| Gamification.LeveledUpGrantable | js/gamification.js:180-193 | the level-up path queues only a reward of the Map and a positive bonus of ten times the new level |
| Gamification.UnlockedGrantable | js/gamification.js:336-379 | an unlock keeps every reward of the Map and queues only the reward of the entry it unlocks |
| Gamification.TimerFiredSteady | js/gamification.js:273-280 | from a steady engine a fired timer never lowers XP or level and leaves the engine steady: a level bonus adds XP without recomputing the level, an achievement reward goes through `addXP` |
| Gamification.InteractionsCheckedSteady | js/gamification.js:389-397 | the interaction rules keep the engine steady and keep XP and level |
| Gamification.TimeCheckedSteady | js/gamification.js:399-413 | the time rules keep the engine steady and keep XP and level |
| Gamification.ExplorerCheckedSteady | js/gamification.js:381-387 | the explorer rule never lowers XP or level and keeps the engine steady |
| Gamification.SectionVisitedSteady | js/gamification.js:124-148 | a section visit never lowers XP or level and keeps the engine steady |
| Gamification.InteractedSteady | js/gamification.js:150-164 | a click never lowers XP or level and keeps the engine steady |
| Gamification.TickedSteady | js/gamification.js:166-178 | a second of the interval never lowers XP or level and keeps the engine steady |
| Gamification.VisitsCheckedGrantable | js/gamification.js:428-446 | the visit rules keep XP and level and queue only rewards of the Map |
| Gamification.SessionStartedSteady | js/gamification.js:448-454 | after `startSessionTracking` the level is in step with the XP, even when it was not before; from a level in step, XP and level do not fall |
| Gamification.SessionEndedSteady | js/gamification.js:466-476 | ending a session never lowers XP or level and keeps the engine steady |
| Gamification.InitializedSteady | js/gamification.js:19-56 | `init` leaves the engine steady, even when the stored level ran ahead of the stored XP (it is loaded as is, line 34), provided the stored and catalog rewards are non-negative |
| Gamification.Step | js/gamification.js:98-178 | no contract of its own: one event of a running page (click, second, section, fired timer, hidden page, another script's `addXP` with a positive constant, unload) as the listeners set up by `init` handle it; `StepAdvances` states what it keeps |
| Gamification.Run | js/gamification.js:98-121 | no contract of its own: the events of a page in order; `RunAppend` and `RunAdvances` state its properties |
| Gamification.RunAppend | js/gamification.js:98-121 | running two event sequences one after the other is running their concatenation |
| Gamification.StepAdvances | js/gamification.js:98-178 | from a steady engine no single event lowers XP or level, and the engine stays steady |
| Gamification.RunAdvances | js/gamification.js:98-121 | from a steady engine no sequence of events lowers XP or level |
| Gamification.SessionLevelNeverFalls | js/gamification.js:19-121 | within a session the level never decreases: after `init`, the level (and the XP) after any events is at most the level after any continuation of them, given non-negative stored and catalog rewards |
| Gamification.GamificationSystem.constructor | js/gamification.js:4-17 | the field defaults, then `init`: the new state is `Initialized` of `Defaults`, so the progress is loaded, every catalog id is in the Map, the session starts now, the visit is counted and earns 5 XP; with non-negative stored and catalog rewards the engine is `Steady`, so the level cannot fall afterwards |
| Gamification.GamificationSystem.SaveUserProgress | js/gamification.js:43-56 | the new state is `Saved` of the old: only the stored progress item changes, and it becomes the snapshot of XP, level and both Maps |
| Gamification.GamificationSystem.LoadUserProgress | js/gamification.js:28-41 | the new state is `ProgressLoaded` of the old: an absent, empty or unparseable item changes nothing; a stored object replaces XP, level and Maps, and the level is not recomputed |
| Gamification.GamificationSystem.LoadAchievements | js/gamification.js:83-96 | only the Map changes, and it becomes `WithCatalog` of the old one: catalog ids missing from it are added, locked; persisted entries are never overwritten |
| Gamification.GamificationSystem.TrackAction | js/gamification.js:282-299 | the actions Map becomes `Track` of the old one; nothing else changes |
| Gamification.GamificationSystem.UnlockAchievement | js/gamification.js:336-352 | the new state is `Unlocked` of the old: the Map becomes `Unlock` of the old one, its grant is queued, and the progress is saved only on an actual unlock; no other field changes |
| Gamification.GamificationSystem.CheckLevelAchievements | js/gamification.js:415-426 | the new state is `LevelChecked` of the old: a level in the map unlocks its achievement (queueing its grant and saving the progress); any other level changes nothing |
| Gamification.GamificationSystem.AddBonusReward | js/gamification.js:273-280 | only the queue changes: exactly `level * 10` XP is queued, to be added later without a level update or an action record |
| Gamification.GamificationSystem.AddXP | js/gamification.js:180-203 | the new state is `XPAdded` of the old: XP grows by exactly the amount; the level becomes `Level(xp)`; only a strictly higher level unlocks the level's achievement and queues its grant and the bonus; the action is tracked and the progress saved |
| Gamification.GamificationSystem.FireTimer | js/gamification.js:273-280 | the new state is `TimerFired` of the old: the oldest grant leaves the queue; a level bonus adds its XP, keeps the level and saves; an achievement reward goes through `addXP` (js/gamification.js:373-378) |
| Gamification.GamificationSystem.CheckInteractionAchievements | js/gamification.js:389-397 | the new state is `InteractionsChecked` of the old: 10 or more interactions unlock `interactive`, and 50 or more unlock `super-interactive`, with their grants and saves |
| Gamification.GamificationSystem.CheckTimeBasedAchievements | js/gamification.js:399-413 | the new state is `TimeChecked` of the old: 5, 15 and 30 minutes of visible time unlock `engaged`, `dedicated` and `devoted`, with their grants and saves |
| Gamification.GamificationSystem.CheckExplorerAchievement | js/gamification.js:381-387 | the new state is `ExplorerChecked` of the old: once every section is seen, `explorer` is unlocked and then the 100 XP bonus goes through `addXP`; before that, nothing changes |
| Gamification.GamificationSystem.VisitSection | js/gamification.js:124-148 | the new state is `SectionVisited` of the old: the first sighting of a named section records it, earns 10 XP through `addXP` and runs the explorer rule; any other sighting changes nothing |
| Gamification.GamificationSystem.Interact | js/gamification.js:150-164 | the new state is `Interacted` of the old: one more interaction, 2 XP through `addXP`, then the interaction rules |
| Gamification.GamificationSystem.Tick | js/gamification.js:166-178 | the new state is `Ticked` of the old: a hidden page changes nothing; a visible one gains 1000 ms, and every multiple of 300000 ms earns 25 XP through `addXP` and runs the time rules |
| Gamification.GamificationSystem.CheckSpecialAchievements | js/gamification.js:428-446 | the new state is `VisitsChecked` of the old: the first visit is unlocked and remembered; the visit count goes up by one before the 3- and 10-visit rules look at it |
| Gamification.GamificationSystem.StartSessionTracking | js/gamification.js:448-454 | the new state is `SessionStarted` of the old: the session starts now, the visit rules run, and the visit earns 5 XP through `addXP` |
| Gamification.GamificationSystem.Init | js/gamification.js:19-26 | the new state is `Initialized` of the old: load the progress, add the catalog, start the session |
| Gamification.GamificationSystem.SaveSessionStats | js/gamification.js:478-495 | only the stored history changes: the finished session is appended, and at most 20 are kept |
| Gamification.GamificationSystem.EndSession | js/gamification.js:466-476 | the new state is `SessionEnded` of the old: a session over ten minutes earns 50 XP through `addXP`, then the session is stored |
| Gamification.GamificationSystem.PauseSession | js/gamification.js:456-459 | the new state is `Saved` of the old: hiding the page saves the progress and changes nothing else |
| Gamification.GamificationSystem.GetUnlockedAchievements | js/gamification.js:514-516 | the ids of exactly the unlocked entries |
| Gamification.GamificationSystem.GetTotalAchievements | js/gamification.js:518-520 | the size of the Map |
| Gamification.GamificationSystem.GetUnlockedCount | js/gamification.js:522-524 | exactly the number of unlocked entries, so between 0 and the total |
| Achievements.CatalogIdsDistinct | data/achievements.js:3-556 | every id in the catalog is distinct |
| Achievements.AchievementsData | data/achievements.js:3-556 | no contract of its own: the catalog in source order; `CatalogIdsDistinct` and `CatalogStartsLocked` state its properties |
| Achievements.GetByField | data/achievements.js:561-568 | exactly the entries whose category, rarity or condition (`getByCondition`, lines 591-593) equals the value, in catalog order; `getByCategory`, `getByRarity` and `getByCondition` are its three instances |
| Achievements.GetUnlocked | data/achievements.js:571-573 | exactly the unlocked entries, in catalog order |
| Achievements.GetLocked | data/achievements.js:576-578 | exactly the locked entries, in catalog order |
| Achievements.UnlockedLockedPartition | data/achievements.js:571-578 | every entry is in exactly one of unlocked and locked, and the two lengths add up to the catalog length |
| Achievements.CatalogStartsLocked | data/achievements.js:3-556 | the shipped catalog has no unlocked entry |
| Achievements.CatalogRewardsPositive | data/achievements.js:3-556 | every achievement of the shipped catalog is worth a positive amount of XP, so `InitializedSteady` applies to it |
| Achievements.GetById | data/achievements.js:581-583 | the first entry with that id, or nothing when no entry has it |
| Achievements.GetByIdUnique | data/achievements.js:581-583 | with distinct ids, the entry found is the only one with that id |
| Achievements.GetByIdExtend | data/achievements.js:581-583 | in a longer catalog, an earlier match wins over a later one |
| Achievements.SumXPSplit | data/achievements.js:586-588 | the rewards of a filter and of its complement add up to the total |
| Achievements.TotalPossibleXPSplits | data/achievements.js:586-588 | the total possible XP is the XP of the unlocked entries plus that of the locked ones |
| Achievements.GetTotalPossibleXP | data/achievements.js:586-588 | no contract of its own: the sum of every reward; `TotalPossibleXPSplits` states how it splits |
| Achievements.SortByXP | data/achievements.js:596-600 | a permutation of the catalog, sorted by descending reward by default and ascending when asked; the catalog itself is unchanged |
| Achievements.Distribution | data/achievements.js:603-618 | the values of the field, each once and in order of first occurrence in the catalog, each counted as often as `GetByField` finds it; the counts add up to the catalog size |
| Achievements.GetRarityDistribution | data/achievements.js:603-609 | that distribution over rarity |
| Achievements.GetCategoryDistribution | data/achievements.js:612-618 | that distribution over category |
| Tallies.FirstSeenOrdered | data/achievements.js:605-607 | a `forEach` that appends each new key lists exactly the keys that occur, ordered by their first occurrence |
| Tallies.Tally | data/achievements.js:603-609 | the keys are distinct, are exactly those that occur and are in order of first occurrence; each count is the number of occurrences; the counts add up to the number of keyed entries |
| Text.JsLength | js/contact.js:140 | JavaScript's `length`: one UTF-16 unit per character, two for a character outside the Basic Multilingual Plane, so between the number of characters and twice that |
| Text.JsLengthPlain | js/contact.js:140 | a string without such characters has a `length` equal to its number of characters |
| Text.JsLengthAstral | js/contact.js:145 | a string made only of such characters has a `length` of twice its number of characters |
| Contact.RuleFor | js/contact.js:40-77 | exactly the seven form fields have a rule |
| Contact.GetFieldLabel | js/contact.js:181-192 | a field without a label is shown as its own name; the labels of rule fields start with a capital letter |
| Contact.LabelsDistinct | js/contact.js:181-192 | no two rule fields share a label |
| Contact.EmailRegexShape | js/contact.js:51 | the e-mail pattern holds exactly when the value has one `@` with a dot strictly inside the part after it, and no whitespace |
| Contact.EmailSingleAt | js/contact.js:51 | a matching address has exactly one `@` |
| Contact.CheckEmpty | js/contact.js:132-136 | an empty value fails only a required rule, with "<label> is required" |
| Contact.Check | js/contact.js:130-160 | no contract of its own: the checks of `validateField` on a trimmed value, the last failing one winning; `CheckEmpty`, `CheckValidIff`, `PatternWins` and `MaxOverridesMin` state it |
| Contact.Outcome | js/contact.js:122-166 | no contract of its own: what `validateField` decides for a field; `MissingFieldValid`, `RequiredBlankFails` and the per-field rule lemmas state it |
| Contact.CheckValidIff | js/contact.js:138-155 | a non-empty value is valid exactly when its length in UTF-16 units (JavaScript `length`) meets the minimum and the maximum, and it matches the pattern |
| Contact.PatternWins | js/contact.js:150-154 | a pattern failure wins over any length failure |
| Contact.MaxOverridesMin | js/contact.js:139-149 | the maximum-length message overrides the minimum-length one |
| Contact.MissingFieldValid | js/contact.js:122-126 | a field that is absent or has no rule is valid |
| Contact.RequiredBlankFails | js/contact.js:128-136 | a required field whose trimmed value is empty is invalid |
| Contact.NameRule | js/contact.js:42-48 | a name is valid exactly when its trimmed value has 2 to 50 characters, all letters or spaces |
| Contact.EmailRule | js/contact.js:49-53 | an e-mail is valid exactly when its trimmed value matches the pattern |
| Contact.CompanyRule | js/contact.js:54-58 | a company is valid exactly when its trimmed value has at most 100 UTF-16 units |
| Contact.MessageRule | js/contact.js:71-76 | a message is valid exactly when its trimmed value has 10 to 1000 UTF-16 units |
| Contact.NameLength | js/contact.js:44-46 | a value the name pattern accepts has no character outside the Basic Multilingual Plane, so its `length` is its number of characters |
| Contact.AstralMessageRule | js/contact.js:71-76 | a message of 5 to 500 characters outside the Basic Multilingual Plane passes the 10 to 1000 rule, since `length` counts two units for each |
| Contact.SelectsAlwaysPass | js/contact.js:59-70 | project type, budget and timeline always pass |
| Contact.FormErrorsStep | js/contact.js:168-179 | validating one more field adds exactly that field's outcome to the error map |
| Contact.TimelineFor | js/contact.js:515-532 | the suggestion map has exactly the four budget keys |
| Contact.FormErrorsEmpty | js/contact.js:168-179 | the error map is empty exactly when every listed field passes |
| Contact.ValidateFormStep | js/contact.js:172-176 | one round of the loop extends the error map by one field, and the map stays empty exactly while all fields so far passed |
| Contact.LogSubmissionSpec | js/contact.js:722-730 | the log keeps the last 10 entries: the new one last, preceded by the latest of the old log |
| Contact.LogSubmission | js/contact.js:722-730 | no contract of its own: push, then `slice(-10)`; `LogSubmissionSpec` states the result |
| Contact.PermutedEntries | js/contact.js:752-764 | any reordering of the tallied entries still holds each type once, with its count |
| Contact.TopThree | js/contact.js:762 | the first three entries, or all of them when there are fewer |
| Contact.TopThreeSpec | js/contact.js:752-764 | the top three of a count-sorted tally are in non-increasing order, and any type left out counts no more than the third |
| Contact.GetMostPopularProjectTypes | js/contact.js:752-764 | at most 3 distinct types with non-increasing counts; each count is the number of submissions with that non-empty type; a type left out is no more popular than the third |
| Seqs.InsertStable | js/contact.js:760-761 | inserting into a sorted sequence puts the element in front of every element with its key and keeps the order of each key's elements |
| Seqs.SortByStable | js/contact.js:760-761 | the sort is stable, as `Array.prototype.sort` is since ECMAScript 2019: for every key, the elements with that key come out in the order they went in |
| Contact.ContactForm.constructor | js/contact.js:4-11 | no errors and not submitting |
| Contact.ContactForm.ValidateField | js/contact.js:122-166 | returns whether the field is valid; an absent field or rule leaves the errors alone; otherwise the field's error is present exactly when it is invalid |
| Contact.ContactForm.ValidateForm | js/contact.js:168-179 | the error map becomes exactly the failing outcomes of all seven fields, and the result says whether all passed |
| Contact.ContactForm.GetFormData | js/contact.js:272-293 | every field value trimmed, plus the newsletter flag and the timestamp |
| Contact.ContactForm.BeginSubmit | js/contact.js:220-233 | a second submit while one runs does nothing; an invalid form is refused without setting the flag; a valid one sets it and sends the form data |
| Contact.ContactForm.FinishSubmit | js/contact.js:234-270 | the flag is cleared on either outcome; on success the form is cleared and the submission logged |
| Contact.ContactForm.ClearForm | js/contact.js:410-424 | every value becomes empty and the checkbox is unticked |
| Contact.ContactForm.TrackFormSubmission | js/contact.js:710-734 | the submission is logged last, and the log holds at most 10 |
| Contact.ContactForm.SuggestTimeline | js/contact.js:515-532 | when the budget is set, the timeline is empty and the budget is one of the four keys, the timeline becomes that key's suggestion (`TimelineFor`); otherwise nothing changes |
| Contact.ContactForm.SuggestMessageTemplate | js/contact.js:534-552 | when the project type has a template and the trimmed message is empty, the message becomes exactly that template (`TemplateFor` holds the five texts of lines 540-546); otherwise nothing changes |
| Contact.TemplateFor | js/contact.js:540-546 | no contract of its own: the five project-type templates, verbatim; `SuggestMessageTemplate` states when one is used |
| Text.TrimDropsTrailingSpace | js/contact.js:130 | one whitespace character after an already trimmed string is cut off by `trim` |
| Contact.SuggestTimelineOnce | js/contact.js:515-532 | once filled, the timeline is not empty, so a second suggestion changes nothing |
| Quotes.JsRem | js/quotes.js:121 | JavaScript's `%`: NaN for a zero divisor, the Euclidean remainder for a non-negative dividend, and a value in (-abs n, 0] for a negative one, which `JsRemOdd` pins down; no reachable index is below -1 |
| Quotes.JsRemOdd | js/quotes.js:121 | the truncated remainder is odd in the dividend: that of `-a` is minus that of `a` |
| Quotes.NextInRange | js/quotes.js:120-124 | from an index in range (or -1), the next index is in range and wraps from n-1 to 0 |
| Quotes.EmptyListIndex | js/quotes.js:120-130 | on an empty list, next gives NaN and previous gives -1 or steps down |
| Quotes.PrevInRange | js/quotes.js:126-130 | from an index in range, or NaN, the previous index is in range |
| Quotes.NextIndex | js/quotes.js:120-124 | no contract of its own: `(i + 1) % n` with JavaScript's `%`; `NextInRange`, `PrevNextInverse`, `AdvanceWalk` and `FullCycle` state it |
| Quotes.PrevIndex | js/quotes.js:126-130 | no contract of its own: one down, or the last index from 0 or NaN; `PrevInRange` and `PrevNextInverse` state it |
| Quotes.PrevNextInverse | js/quotes.js:120-130 | previous undoes next, and next undoes previous |
| Quotes.AdvanceWalk | js/quotes.js:120-124 | k steps forward from i land on i+k, wrapping once past the end |
| Quotes.FullCycle | js/quotes.js:120-124 | n steps forward return to the start |
| Quotes.RemoveAt | js/quotes.js:502 | the splice removes exactly the element at the index |
| Quotes.ToggleFlips | js/quotes.js:497-509 | toggling flips the membership of that id, keeps every other id, and keeps the ids distinct |
| Quotes.ToggleFavorite | js/quotes.js:497-509 | no contract of its own: splice out the first occurrence of the id or push it; `ToggleFlips`, `ToggleTwiceRestores` and `ToggleTwiceSameIds` state it |
| Quotes.ToggleTwiceRestores | js/quotes.js:497-509 | toggling an absent id twice restores the list exactly |
| Quotes.ToggleTwiceSameIds | js/quotes.js:497-509 | toggling twice keeps the same ids |
| Quotes.SearchQuotes | js/quotes.js:488-494 | an order-preserving subsequence holding exactly the quotes whose lower-cased text or author contains the lower-cased term |
| Quotes.MatchesSearch | js/quotes.js:489-492 | no contract of its own: the lower-cased text or author contains the lower-cased term; `SearchQuotes` keeps exactly the quotes it accepts |
| Quotes.SearchEmptyTermKeepsAll | js/quotes.js:488-494 | the empty term keeps every quote |
| Quotes.FilterByCategory | js/quotes.js:426-428 | an order-preserving subsequence of the quotes of that category; `all` keeps the list as it is |
| Quotes.QuoteManager.constructor | js/quotes.js:4-20 | starts at index 0 with the rotation playing |
| Quotes.QuoteManager.StartAutoRotation | js/quotes.js:188-199 | an interval runs and the state is playing |
| Quotes.QuoteManager.PauseAutoRotation | js/quotes.js:201-206 | the interval stops and the playing flag is left as it was |
| Quotes.QuoteManager.ResumeAutoRotation | js/quotes.js:208-212 | restarts only when there is no interval and the state is playing |
| Quotes.QuoteManager.ResetAutoRotation | js/quotes.js:214-218 | the interval runs again exactly when the state is playing or it already ran |
| Quotes.QuoteManager.ToggleAutoRotation | js/quotes.js:220-229 | flips the playing flag, and the interval runs exactly when playing |
| Quotes.QuoteManager.NextQuote | js/quotes.js:120-124 | the index becomes the next index |
| Quotes.QuoteManager.PreviousQuote | js/quotes.js:126-130 | the index becomes the previous index |
| Quotes.QuoteManager.GoToQuote | js/quotes.js:180-186 | the index moves only to a target in range; otherwise nothing changes |
| Quotes.QuoteManager.ToggleFavoriteQuote | js/quotes.js:497-509 | the favourites become the toggled list |
| Quotes.QuoteManager.FilterQuotesByCategory | js/quotes.js:425-441 | an empty result changes nothing; otherwise the list becomes the filtered one, the index 0, and the old list waits to be restored |
| Quotes.QuoteManager.FireRestore | js/quotes.js:437-439 | the timer puts the oldest saved list back |
| Quotes.QuoteManager.AddQuote | js/quotes.js:444-457 | exactly one quote is appended, with id = old length + 1 and category `general` by default |
| Gallery.Merge | js/gallery.js:448-454 | each field given in the update replaces the item's field; the rest are kept |
| Gallery.MergeEmpty | js/gallery.js:448-454 | an empty update changes nothing |
| Gallery.MergeTwice | js/gallery.js:448-454 | applying the same update twice is applying it once |
| Gallery.MatchesCategory | js/gallery.js:220 | no contract of its own: `all` or the item's own category; `CategoryOnly` and `FilteredItemsSpec` state what it keeps |
| Gallery.MatchesSearch | js/gallery.js:221-224 | the search throws exactly when the term is non-empty, title and description miss it, and the item has no tags |
| Gallery.FilterItems | js/gallery.js:218-230 | throws exactly when some item's search throws; otherwise keeps, in order, the items that pass both tests |
| Gallery.FilteredItemsSpec | js/gallery.js:218-230 | an item is kept exactly when its category matches (or the filter is `all`) and the term is empty or found in title, description or a tag |
| Gallery.NoFilterShowsAll | js/gallery.js:218-230 | with filter `all` and no term, every item is shown |
| Gallery.CategoryOnly | js/gallery.js:218-230 | with no term, filtering never throws and keeps exactly the items of the category |
| Gallery.FilterAgainKeepsAll | js/gallery.js:218-230 | filtering the filtered items again keeps them all |
| Gallery.GalleryManager.constructor | js/gallery.js:4-13 | everything shown, filter `all`, no term |
| Gallery.GalleryManager.ApplyFilters | js/gallery.js:218-230 | the shown items become the filter result; when the filter throws, they stay as they were |
| Gallery.GalleryManager.SetActiveFilter | js/gallery.js:188-211 | stores the filter and recomputes the shown items |
| Gallery.GalleryManager.HandleSearch | js/gallery.js:213-216 | stores the lower-cased term and recomputes the shown items |
| Gallery.GalleryManager.ResetFilters | js/gallery.js:232-249 | filter `all`, empty term, and the shown items equal all items |
| Gallery.GalleryManager.OpenLightbox | js/gallery.js:286-304 | the lightbox index becomes the given one |
| Gallery.GalleryManager.NavigateLightbox | js/gallery.js:351-363 | the index moves only when the target is in range, so an index in range stays in range |
| Gallery.GalleryManager.AddGalleryItem | js/gallery.js:441-445 | appends exactly one item, with id = old length + 1, and recomputes the shown items |
| Gallery.GalleryManager.UpdateGalleryItem | js/gallery.js:448-454 | merges the update into the first item with that id and leaves all other items as they were; an unknown id changes nothing |
| Server.ValidateEmail | server.py:117-120 | no contract of its own: `re.match` of the pattern with `$` at the end or before one final newline; `TrailingNewlineAccepted`, `BodyEndsInLetter` and `ServerEmailTrimmed` state what it accepts |
| Server.TrailingNewlineAccepted | server.py:117-120 | an address followed by one newline is accepted exactly when the address is, because `$` also matches before a final newline |
| Server.BodyEndsInLetter | server.py:117-120 | an address the pattern accepts ends in a letter and has at least six characters |
| Server.ServerEmailPassesForm | server.py:117-120 | every address matching the server's pattern in full, without the trailing newline `$` also lets through, matches the browser's pattern |
| Server.ServerEmailTrimmed | server.py:117-120 | every value the server accepts, a trailing newline included, matches the browser's pattern once trimmed |
| Server.ServerEmailPassesFormRule | server.py:117-120 | so every value the server accepts passes the form's e-mail rule, which tests the trimmed value |
| Server.FormEmailNotServerEmail | server.py:117-120 | the converse fails: `a@b.c` passes the browser and is refused by the server |
| Server.StripTags | server.py:128 | tag removal never lengthens the text and leaves no `<` followed later by a `>` |
| Server.StripTagsKeepsTagless | server.py:128 | text with no tag left is unchanged by tag removal |
| Server.StripTagsIdempotent | server.py:128 | removing tags twice is removing them once |
| Server.RemoveScheme | server.py:129 | removing `javascript:` never lengthens the text and cannot create a tag |
| Server.RemoveSchemeShort | server.py:129 | text shorter than `javascript:` is unchanged |
| Server.PyPrefix | server.py:135-136 | Python's `s[:n]` is a prefix of length min(n, len) for n ≥ 0, and len + n clipped at 0 for n < 0 |
| Server.Cleaned | server.py:127-132 | after tag removal, scheme removal and `strip`: no longer than the input, no tag, and no whitespace at either end |
| Server.SanitizeInput | server.py:122-136 | `None` or empty input gives `""`, and the result never holds a tag |
| Server.SanitizeLength | server.py:134-136 | a positive cap bounds the length; no cap or a cap of 0 means no truncation |
| Server.SanitizeTrimmed | server.py:131-136 | when the cap does not cut, the result has no whitespace at either end |
| Server.SanitizeCut | server.py:134-136 | a positive cap below the cleaned length keeps exactly the first `n` cleaned characters |
| Server.CleanTextTruncated | server.py:122-136 | text with no tag, no `javascript:` and no edge whitespace is changed only by the cap |
| Server.TruncationMayEndInSpace | server.py:131-136 | the cap applies after `strip`, so a cut result can end in whitespace |
| Server.TagOnlyBecomesEmpty | server.py:122-136 | a value that is only a tag sanitises to `""` |
| Server.SanitizeValue | server.py:320-326 | a falsy value of any type becomes `""`; a truthy non-string raises; a string result is within the cap |
| Server.FirstMissing | server.py:302-308 | the first of name, email and message whose value is absent or falsy, in that order |
| Server.BuildRecord | server.py:318-332 | raises exactly when one of the seven sanitised keys holds a truthy non-string; otherwise every stored field is within its cap (100/255/100/50/50/50/2000) and `newsletter` is the truthiness of its value |
| Server.HandleContactForm | server.py:287-332 | no contract of its own: the handler's decisions up to storage; `NoDataFirst`, `RequiredInOrder`, `FormatCheckedAfterRequired` and `AcceptedSpec` state them in order, and `AcceptedWhenValid` states the converse of `AcceptedSpec` |
| Server.NoDataFirst | server.py:295-299 | a falsy body, and only a falsy body, gets "No data provided" |
| Server.RequiredInOrder | server.py:301-308 | an object body with a field missing gets "<Field> is required" for the first missing of name, email and message; with none missing, no such message is given |
| Server.FormatCheckedAfterRequired | server.py:310-315 | with all three present, a string e-mail gets "Invalid email address format" exactly when the pattern refuses it |
| Server.AcceptedSpec | server.py:289-332 | an accepted body is an object whose three required values are non-empty strings and whose e-mail passes the pattern; the stored fields are within their caps, and name, e-mail and message are the sanitised values |
| Server.AcceptedWhenValid | server.py:287-332 | the converse: an object body whose three required values are non-empty strings, whose e-mail passes the pattern and that has no truthy non-string under a sanitised key is accepted, with the record `BuildRecord` makes |

## Left out

- The DOM, CSS classes, notifications, modals, animations, audio, keyboard and scroll handlers, IntersectionObserver and all of `js/main.js`. These are presentation glue.
- Timers are a queue of pending callbacks or a boolean for an interval. The model does not capture real time, or the interleaving of timer callbacks with other events.
- The calls that the contact form, quote carousel and gallery make on the global gamification object: their `addXP` calls, and the contact form's `unlockAchievement('first-contact')` after a successful submission (js/contact.js:247-250). Each class is modelled on its own.
- Session records: `SessionRecord.sectionsVisited` is a set, where the source stores `Array.from` of the session's Set, in first-visit order (js/gamification.js:478-495). No rule reads that order back.
- JavaScript `Map` insertion order: the gamification Maps are Dafny maps. The two distributions do state first-seen key order (`Tallies.FirstSeenOrder`), but not the way a plain object lists integer-like keys (`"7"`) ahead of the others; no rarity or category of the catalog is integer-like.
- Contact.GetMostPopularProjectTypes: the order among types with equal counts is left unstated. `Seqs.SortByStable` proves that the sort keeps tied entries in the order the tally lists them, and `Tallies.Tally` lists types in first-seen order, but no lemma joins the two for the top three.
- Contact.TimelineFor, Contact.TemplateFor, Contact.GetMostPopularProjectTypes: plain-object lookups are Dafny map lookups, so a key inherited from `Object.prototype` (`constructor`, `toString`, `__proto__`) is absent in the model, where the source would find an inherited function (js/contact.js:528, 547, 755). Such a value cannot come from the form's select options.
- Gamification.GamificationSystem.LoadUserProgress: a stored item whose `achievements` is present but not iterable makes `new Map(...)` throw after XP and level were already assigned (js/gamification.js:33-36); the stored item is a `Blob`, which only `saveUserProgress` writes, so this half-applied load is not expressible.
- Parse failures of the stored `formSubmissions` and `favorites` items are not modelled. Only the gamification item has an "unparseable" state.
- `saveFormData`, `getSavedFormData`, `loadSavedData`, `restoreFormData`, `getFormStats`, `submitForm` (the network call) and the character counter and progress bar of the contact form. These are storage and DOM glue, and `submitForm` becomes the success flag of `FinishSubmit`.
- `getRandomQuote`, `shareCurrentQuote`, `generateQuoteImage`, `saveQuotesToStorage` and `loadCustomQuotes`. These involve randomness, canvas, sharing or storage. The favourites that `getFavoriteQuotes` reads from storage are the `favorites` field.
- `getProgress`, `getProgressToNextLevel`, `resetProgress`, `exportProgress`, `getLeaderboardData` and the achievement grid of the gamification engine. These are display helpers outside the engine's rules.
- Lower-casing and case-insensitive matching are ASCII only, in both JavaScript `toLowerCase` and Python `re.IGNORECASE`. The model does not capture non-ASCII letters: Python also folds `ſ`, `ı` and `İ` onto `s` and `i`.
- The global data arrays are values. The model does not capture aliasing between `achievementsData` or the gallery data and the objects that read them.
- Server: Flask routing, the rate limiter, CORS, SQLite, SMTP, logging, `uuid` and the timestamp, IP and header fields of the stored row. An exception raised by storage or mail, which would also yield 500, is not modelled. `Failed` covers only the exceptions raised by the decoding and sanitising logic modelled here.
- JSON numbers are integers in `Server.Json`. Floats such as `0.0` are not modelled.
- Server.SanitizeInput: `re.sub` with `javascript:` removes non-overlapping occurrences in one pass. The removal can splice a new occurrence together, for example `javajavascript:script:` becomes `javascript:`. No lemma states this, because evaluating the function on that long literal is too costly for the solver.
