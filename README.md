# 7-a-side balancer: a verified model of its core

This project models, in Dafny, the core logic of a small web app that
organises weekly 7-a-side football:

- the **balanced team generator**:
  - phase 1 fills per-position quotas, team 1 before team 2;
  - a slot takes the best-form player of that position, or else the best player
    by a position-specific score of their last match;
  - phase 2 hands out everyone else in descending form to the team with the
    lower running total, up to seven per team;
- the **form and skill-rating arithmetic** and the **player record**. The
  player record covers:
  - the rating difference;
  - notifications mirrored into the inbox;
  - its dictionary form;
- the **captains' draft**:
  - starting it requires exactly two captains and a non-empty pool;
  - the higher-rated captain picks first;
  - picks are checked in order and alternate until the pool is empty;
- the **admin rules**:
  - a captain toggle never makes a third captain and sends the captain notice at
    most once;
  - the player list is sorted by skill and then filtered;
- the **invite table**: validation against a use limit and an expiry time,
  counting uses, revoking;
- the **weekly draft window**: from Tuesday 00:00 to Saturday 23:59 of the
  current week.

## Modules

- `Performance` and `PlayerModel` (class `Player`) hold the record code.
- `TeamGenerator`:
  - the algorithm is specified once on values (`Candidate`, `Alloc`) by the
    functions `FillSlots` and `Distribute`;
  - loop methods are proved equal to them;
  - `GenerateBalancedTeams` works on the caller's `Player` objects, whose
    positions it upper-cases in place.
- `Draft`:
  - the stored draft record is the `DraftStore` class;
  - `StartDraftSpec` and `PickSpec` are the pure specifications its methods are
    proved against;
  - `Valid` is the invariant every stored record keeps.
- `Admin` holds the captain toggle on `Player` objects, and the sorted and
  filtered player list.
- `Invites`: a class holding the invite list, which its methods update in place.
- `Clock` and `DraftTimer` hold the window arithmetic.
- `Ranking`:
  - Python's stable descending sort, as an insertion sort by the key and then by
    list position;
  - `max(..., key=...)`, as the first maximum.
- `Text` holds ASCII upper/lower case and the substring test.
- `Wrappers` holds `Option` and `Result`.

## Model conventions

- Time is a whole number of minutes. Minute 0 is a Monday at 00:00, so that day
  numbers and weekdays agree with Python's `weekday()`.
- Clock readings, random ids and random codes are parameters.
- Ratings are exact `real`s.
- `round(x, 2)` is rounding half up of the exact value.

## Model

| member | source | states |
|---|---|---|
| Performance.NewLog | backend/models/performance.py:6-12 | counts and rating are kept; a missing or empty match id is replaced by the clock reading, so with a non-empty clock reading the id is never empty |
| Performance.LogFromDict | backend/models/performance.py:24-33 | every missing count and the rating default to 0; a non-empty stored match id is kept, and a missing or empty one becomes the clock reading |
| Performance.LogToDict | backend/models/performance.py:14-22 | reading the dictionary back gives the same log, for every clock reading, when the match id is non-empty |
| Performance.Round2 | backend/models/performance.py:40 | the rounded value is a whole number of hundredths within half a hundredth of the input, and rounding keeps a value at least 10 at least 10 and a value at most 1 at most 1 |
| Performance.Clamp | backend/models/performance.py:41 | the result lies in [1, 10]: an input below 1 gives 1, above 10 gives 10, and any other input is kept |
| Performance.LastN | backend/models/performance.py:38 | `h[-n:]` for n ≥ 1 (the code takes 3 and 5) is the suffix of length min(n, \|h\|) |
| Performance.MeanWithin | backend/models/performance.py:39 | a mean of ratings in [lo, hi] lies in [lo, hi] |
| Performance.RecentForm | backend/models/performance.py:43-47 | no history gives the fallback rating; otherwise the mean of the last three logs, or of all of them when there are at most three |
| Performance.RecentFormWithin | backend/models/performance.py:43-47 | no history gives the fallback rating; otherwise the form lies between the lowest and highest of the last min(3, n) ratings |
| Performance.UpdateSkillRating | backend/models/performance.py:35-41 | no history leaves the rating unchanged; otherwise the result lies in [1, 10], within rounding of 0.6·current + 0.4·mean(last five) when that blend is in [1, 10], exactly 10 when the blend is at least 10 and exactly 1 when it is at most 1 |
| Performance.UpdateStaysNearRange | backend/models/performance.py:35-41 | a player whose rating and last five ratings lie in a sub-range [lo, hi] of [1, 10] stays in that range, up to rounding |
| Performance.RatingDiffAfterAppend | backend/models/player.py:53-64 | after a log is appended, the rating difference is the new rating minus the previous last one, or 0 for a first log |
| PlayerModel.OrFresh | backend/models/player.py:29 | `value or fresh`: a missing or empty value is replaced, any other is kept |
| PlayerModel.LogsFromDicts | backend/models/player.py:124-125 | each stored log dictionary is read with `PerformanceLog.from_dict`, in order |
| PlayerModel.LogsToDicts | backend/models/player.py:114 | each log is written with `to_dict`, in order |
| PlayerModel.AnyRatingFrom | backend/models/player.py:81-84 | true exactly when some entry has the given `from` and match id |
| PlayerModel.Player.constructor | backend/models/player.py:7-51 | every field as given; position upper-cased; a missing or empty id or access code is replaced by a fresh one; missing lists are empty; the rating difference is computed |
| PlayerModel.Player.FromDict | backend/models/player.py:121-148 | defaults: position "Unknown" (stored "UNKNOWN"), skill 5.0, available, role "player", not a captain, empty lists |
| PlayerModel.Player.ToDict | backend/models/player.py:99-119 | every key holds its field's value (logs through `to_dict`); a `None` age or preference is a missing key |
| PlayerModel.Player.CalculateRatingDiff | backend/models/player.py:53-60 | the difference is last minus second-last rating, rounded, or 0 with fewer than two matches |
| PlayerModel.Player.UpdatePerformance | backend/models/player.py:62-64 | exactly one log is appended and the difference recomputed |
| PlayerModel.Player.UpdateSkillRating | backend/models/player.py:66-70 | unchanged without history, otherwise the `update_skill_rating` result |
| PlayerModel.Player.RecentForm | backend/models/player.py:74-75 | a player without matches has their own skill rating as form; otherwise the mean of their last three logs, or of all when there are at most three |
| PlayerModel.Player.HasRatedPlayer | backend/models/player.py:77-84 | true exactly when the target's peer ratings hold an entry from this player for the match |
| PlayerModel.Player.AddNotification | backend/models/player.py:86-93 | the same entry, stamped only when it has no timestamp, is appended to both lists; nothing else changes |
| PlayerModel.Player.ClearNotifications | backend/models/player.py:95-97 | notifications become empty; the inbox is not touched |
| PlayerModel.SaveAndLoad | backend/models/player.py:99-148 | saving a constructed player with `to_dict` and loading it with `from_dict` preserves its id, name, position, skill, availability, captain flag, access code, history and lists |
| Text.Upper | backend/models/player.py:31 | same length, each ASCII letter upper-cased |
| Text.Lower | backend/routes/admin.py:140 | same length, each ASCII letter lower-cased |
| Text.UpperIdempotent | team_generator.py:41-42 | upper-casing an upper-cased position changes nothing |
| Text.ContainsAt | backend/routes/admin.py:84 | `sub in s` holds exactly when `sub` occurs in `s` at some offset |
| Ranking.SortDesc | team_generator.py:51 | the stable descending sort is a ranked permutation of its input |
| Ranking.InsertRanked | team_generator.py:80 | inserting into a ranked list keeps it ranked |
| Ranking.RankedMeansDescending | team_generator.py:80 | in a ranked list keys never increase, and equal keys keep list order |
| Ranking.RankedUnique | backend/routes/admin.py:137 | two ranked lists with the same elements are equal: the stable sort has exactly one result |
| Ranking.FirstMaxAt | team_generator.py:32 | `max(xs, key=...)`: an element of maximal key, with every earlier element strictly smaller |
| TeamGenerator.AvailableOf | team_generator.py:36 | the result holds exactly the available players of the list |
| TeamGenerator.AvailableAt | team_generator.py:36 | exactly the positions of the available players, in increasing order |
| TeamGenerator.AvailableInOrder | team_generator.py:36 | the filtered list is the players at the available positions, one per entry, in list order |
| TeamGenerator.SelectAvailable | team_generator.py:36 | the loop builds `AvailableOf(players)` |
| TeamGenerator.UpperPositions | team_generator.py:41-42 | exactly the players listed in `available` have their position upper-cased; the rest keep it |
| TeamGenerator.NormalisePositions | team_generator.py:37-42 | with at least two available players, exactly the available players' positions are upper-cased in place; otherwise nothing changes |
| TeamGenerator.WithPosition | team_generator.py:45-47 | a group holds, once each and in list order, exactly the players of that position |
| TeamGenerator.Group | team_generator.py:45-51 | the sorted group holds exactly the players of that position, by form descending with ties in list order |
| TeamGenerator.GroupByPosition | team_generator.py:45-51 | the built map gives, for every position, its sorted group, or empty when it has none |
| TeamGenerator.Unused | team_generator.py:62 | the filter keeps order and drops exactly the players whose id is used |
| TeamGenerator.UnusedRanked | team_generator.py:62 | dropping used players from a group sorted by form keeps it sorted |
| TeamGenerator.GetBestFallbackPlayer | team_generator.py:12-32 | None exactly for no candidates; otherwise the first candidate of maximal fallback score |
| TeamGenerator.SlotPickPrimary | team_generator.py:61-64 | when a free player of the slot's position exists, the slot takes the free one of highest form, the earliest on a tie |
| TeamGenerator.SlotPickFallback | team_generator.py:65-68 | with no free player of the position, the slot takes the free player of highest fallback score, the earliest on a tie |
| TeamGenerator.SlotPickNone | team_generator.py:61-70 | a slot stays empty exactly when every player is used |
| TeamGenerator.PickForSlot | team_generator.py:61-68 | the method picks the slot's player as `SlotPick` specifies |
| TeamGenerator.Place | team_generator.py:70-76 | the picked player, if any, is appended to the team, its form added to that team's score and its id to the used set |
| TeamGenerator.FillOneSlot | team_generator.py:60-76 | one slot is filled as `FillSlot` specifies |
| TeamGenerator.FillRounds | team_generator.py:59-76 | `quota` rounds of one position, team 1 before team 2 in each |
| TeamGenerator.FillPositions | team_generator.py:58-76 | phase 1 fills the slots of the quota table in key order |
| TeamGenerator.FillSlotOk | team_generator.py:60-76 | a slot keeps the allocation invariant and adds at most one player, to its own team |
| TeamGenerator.Phase1Ok | team_generator.py:58-76 | after phase 1 the invariant holds and each team has at most the quota sum, 4 |
| TeamGenerator.AssignOk | team_generator.py:83-90 | a leftover player is placed exactly when a team has room, and the invariant is kept |
| TeamGenerator.DistributeAfterFull | team_generator.py:92-93 | once both teams are full the rest of the list changes nothing, so the `break` is harmless |
| TeamGenerator.DistributeOk | team_generator.py:82-93 | phase 2 only appends, keeps the invariant, places min(placed + leftovers, 14) players, and all leftovers when they fit |
| TeamGenerator.FillRemaining | team_generator.py:82-93 | the loop with its `break` computes `Distribute` |
| TeamGenerator.Leftover | team_generator.py:79-80 | `remaining` is a permutation of the unused players |
| TeamGenerator.LeftoverOk | team_generator.py:79-80 | the leftovers are repeat-free and unplaced; with distinct ids they are all the unplaced players |
| TeamGenerator.Phase2Ok | team_generator.py:79-93 | from a valid allocation, with distinct ids, phase 2 places min(n, 14) players in all, and everyone when n ≤ 14 |
| TeamGenerator.GenerateOk | team_generator.py:35-95 | teams are repeat-free and disjoint, hold listed players and have at most 7 each; fewer than two players give two empty teams; with distinct ids exactly min(n, 14) are placed |
| TeamGenerator.GenerateScores | team_generator.py:53-90 | the running scores always equal the form sums of the two teams |
| TeamGenerator.Balance | team_generator.py:35-95 | grouping plus both phases compute `Generate` |
| TeamGenerator.BalanceTeams | team_generator.py:53-95 | the returned teams are the players `Generate` picks, at most 7 each, all from `available` |
| TeamGenerator.GenerateBalancedTeams | team_generator.py:35-95 | positions of the available players are upper-cased in place (when there are two or more); the teams are those of `Generate` on the available players, and every member is an available player |
| Draft.FindMember | backend/routes/draft.py:16-18 | the first roster player with the id, or None when nobody has it |
| Draft.CaptainsAt | backend/routes/draft.py:40 | exactly the captains' positions, in roster order |
| Draft.PoolAt | backend/routes/draft.py:51 | exactly the positions of the available non-captains, in increasing order |
| Draft.PoolIds | backend/routes/draft.py:51 | exactly the ids of available non-captains, one per pool player, in roster order |
| Draft.CollectCaptains | backend/routes/draft.py:40 | the loop builds `CaptainsAt` |
| Draft.CollectPool | backend/routes/draft.py:51 | the loop builds `PoolIds` |
| Draft.StartDraftOk | backend/routes/draft.py:40-67 | refused exactly without two captains or with an empty pool; otherwise the higher-skill captain (earlier on a tie) is first and on turn, the teams are empty, the pool is in roster order, and the record is not complete |
| Draft.CaptainOrderIsSort | backend/routes/draft.py:47-48 | the captain order is the stable descending sort of the two captains by skill |
| Draft.StartValid | backend/routes/draft.py:40-67 | a start on a roster with distinct ids stores a valid record |
| Draft.IndexOf | backend/routes/draft.py:209 | the position of the first occurrence |
| Draft.RemoveFirst | backend/routes/draft.py:209 | `list.remove` cuts out the first occurrence and keeps the rest in order: one element fewer, one copy of the removed value fewer |
| Draft.RemoveFirstMembers | backend/routes/draft.py:209 | removing a pooled player from a repeat-free pool leaves exactly the other players, still without repeats |
| Draft.PickAccepted | backend/routes/draft.py:152-206 | accepted exactly when the draft is active, the actor is a roster captain on turn, the pick is a roster player in the pool, and a draft match exists; each failing check, in that order, gives its own refusal (not active, not a captain, not your turn, invalid pick, no match) |
| Draft.ApplyMoves | backend/routes/draft.py:172-233 | the pick joins the turn captain's team and leaves the pool; the turn passes to the other captain, or the draft completes with no turn when the pool empties |
| Draft.ApplyValid | backend/routes/draft.py:172-233 | an accepted pick keeps the record valid: no one twice, team sizes alternate |
| Draft.RunValid | backend/routes/draft.py:152-248 | over any sequence of requests, each with the roster it loads, every stored record is valid and has the same captains and players |
| Draft.CompleteIsFinal | backend/routes/draft.py:153-155 | a complete draft refuses every later pick, whatever the rosters, and never changes |
| Draft.NothingWithoutStart | backend/routes/draft.py:153-155 | without a stored record every pick is refused |
| Draft.DraftStore.constructor | backend/routes/draft.py:37 | the store starts empty |
| Draft.DraftStore.StartDraft | backend/routes/draft.py:35-69 | the store is cleared first; on success the new record is stored, so a refused start leaves it empty |
| Draft.DraftStore.DraftPick | backend/routes/draft.py:152-248 | the pick result is `PickSpec`; only an accepted pick is stored |
| Draft.ExampleStart | backend/routes/draft.py:40-67 | in a worked roster the higher-rated captain, listed second, picks first |
| Draft.ExampleFirstPick | backend/routes/draft.py:161-181 | the captain not on turn is refused; the one on turn picks into team 1 |
| Draft.ExampleLastPick | backend/routes/draft.py:208-216 | the last pick completes the draft with no turn |
| Draft.ExampleRun | backend/routes/draft.py:152-248 | a whole worked draft, with refused requests in between |
| Admin.FirstWithId | backend/routes/admin.py:77-78 | the first player with the id, or None when nobody has it |
| Admin.HasCaptainNotice | backend/routes/admin.py:84 | true exactly when some notification message contains "assigned as a captain" |
| Admin.CaptainMessageIsNotice | backend/routes/admin.py:84-86 | the message sent on promotion is itself a captain notice |
| Admin.AssignCaptainCount | backend/routes/admin.py:75-81 | refused exactly when promoting while two captains exist; a promotion adds one captain, staying at most two; a demotion removes one; an unknown id changes nothing |
| Admin.AssignChangesOne | backend/routes/admin.py:77-91 | only the first player with the id changes: its flag flips, and on promotion both lists gain the notice together or neither does |
| Admin.ToggleNotice | backend/routes/admin.py:83-90 | a toggle never gives a player a second captain notice |
| Admin.AssignStep | backend/routes/admin.py:75-93 | one accepted call keeps the players, their ids, at most two captains and at most one notice each |
| Admin.AssignAllKeepsBounds | backend/routes/admin.py:75-93 | after any sequence of toggles there are still at most two captains and at most one notice per player |
| Admin.CountCaptains | backend/routes/admin.py:75 | `captain_count` is the number of captains |
| Admin.FindPlayer | backend/routes/admin.py:77-78 | the loop finds the first player with the id |
| Admin.ToggleCaptain | backend/routes/admin.py:81-90 | the matched player is toggled as `Toggle` says |
| Admin.AssignCaptain | backend/routes/admin.py:74-93 | false exactly on the rejection, which changes no player; otherwise every player is as `AssignSpec` says |
| Admin.Where | backend/routes/admin.py:144-156 | a filter keeps exactly the listed players that pass it |
| Admin.WhereKeepsOrder | backend/routes/admin.py:144-156 | a filter keeps the sorted order and the absence of repeats |
| Admin.SortedAll | backend/routes/admin.py:137 | the sorted list names every player once, by skill descending with ties in stored order |
| Admin.ByNameAndPositionCorrect | backend/routes/admin.py:137-150 | after the name and position filters, exactly the players passing the filters that are switched on remain, still sorted |
| Admin.ViewOrderCorrect | backend/routes/admin.py:137-156 | the list shows exactly the players passing every switched-on filter, each once, by skill descending with ties in stored order |
| Admin.ViewOrderUnique | backend/routes/admin.py:137-156 | any repeat-free sorted list of exactly those players is the list shown |
| Admin.RefreshRatingDiffs | backend/routes/admin.py:129-135 | every player's rating difference is last minus second-last rating (rounded), or 0 |
| Admin.ViewPlayers | backend/routes/admin.py:128-158 | rating differences are refreshed, and the players shown are those `ViewOrder` selects, in its order |
| Invites.NewInvite | backend/utils/invite_manager.py:34-45 | a new record has no uses, the given limit, and expiry = creation + days_valid days |
| Invites.FirstWithCode | backend/utils/invite_manager.py:71-76 | the first invite with the code, or None when no invite has it |
| Invites.ValidateMeansUsable | backend/utils/invite_manager.py:52-61 | with readable expiries, a code validates exactly when some invite with it has uses < max_uses and now < expiry |
| Invites.ValidateSound | backend/utils/invite_manager.py:52-61 | even with unreadable expiries, a code validates only through a usable invite |
| Invites.ValidateOthers | backend/utils/invite_manager.py:54-55 | invites with other codes do not affect validation |
| Invites.GeneratedValidates | backend/utils/invite_manager.py:34-61 | a fresh invite with a new code, a positive limit and a positive lifetime validates at once |
| Invites.UpdatesTouchFirstOnly | backend/utils/invite_manager.py:63-85 | increment and revoke change only the uses of the first invite with the code, and nothing for an unknown code |
| Invites.UpdatesKeepReadable | backend/utils/invite_manager.py:34-85 | generating, incrementing and revoking never make an expiry unreadable |
| Invites.RevokedDoesNotValidate | backend/utils/invite_manager.py:78-85 | with unique codes, a revoked code no longer validates |
| Invites.IncrementTimesUses | backend/utils/invite_manager.py:63-69 | n increments add n uses to the first matching invite and leave every other invite alone |
| Invites.UseLimit | backend/utils/invite_manager.py:34-69 | a generated invite validates after n uses exactly when n < max_uses and it has not expired |
| Invites.InviteTable.constructor | backend/utils/invite_manager.py:15-18 | no invite file means no invites |
| Invites.InviteTable.GenerateInviteLink | backend/utils/invite_manager.py:34-49 | exactly one record is appended, and the code is returned |
| Invites.InviteTable.ValidateInvite | backend/utils/invite_manager.py:52-61 | the loop computes `Validate` |
| Invites.InviteTable.IncrementInviteUse | backend/utils/invite_manager.py:63-69 | the list becomes `Increment` of the old list |
| Invites.InviteTable.GetInviteData | backend/utils/invite_manager.py:71-76 | the first invite with the code, or None |
| Invites.InviteTable.RevokeInvite | backend/utils/invite_manager.py:78-85 | the list becomes `Revoke` of the old list |
| Clock.Weekday | backend/utils/draft_timer.py:8 | a weekday lies in 0..6 |
| Clock.Midnight | backend/utils/draft_timer.py:10 | midnight of a day is at most the time, less than a day before it, and on a day boundary |
| DraftTimer.DaysSinceTuesday | backend/utils/draft_timer.py:8 | lies in 0..6, and going back that many days from a weekday lands on Tuesday |
| DraftTimer.WindowStartIsLastTuesday | backend/utils/draft_timer.py:7-10 | the start is a Tuesday at 00:00, no later than today and less than a week before it |
| DraftTimer.WindowStartUnique | backend/utils/draft_timer.py:7-10 | the start is the one Tuesday midnight in the week up to today |
| DraftTimer.WindowEndsSaturday | backend/utils/draft_timer.py:12-13 | the end is a Saturday at 23:59 |
| DraftTimer.WindowLength | backend/utils/draft_timer.py:13 | the window lasts four days, 23 hours and 59 minutes |
| DraftTimer.OpenTuesdayToSaturday | backend/utils/draft_timer.py:17-21 | the window is open exactly on Tuesday to Saturday, at any time of day |

## Left out

- HTTP handling, sessions, flash messages, redirects, templates and the admin/login checks of every route are not modelled. The routes' logic takes the loaded data as parameters.
- Persistence is not modelled: loading and saving JSON (`_load_json`, `_save_json`, the player and draft stores). The stores are plain lists and fields.
- Random ids and codes (`uuid4`, `generate_invite_code`) are parameters. `generate_unique_code` is not part of this model.
- Clock readings (`datetime.now()`, `datetime.today()`) are parameters:
  - log match ids and notification timestamps take a string;
  - invites and the draft window take minutes;
  - `generate_invite_link` reads the clock twice, and the model uses one reading for both;
  - `is_draft_window_open` reads `today()` and `now()`, and the model uses one `now` for both.
- Times have minute resolution, so the seconds within Saturday 23:59, after the window's end, are not modelled.
- Python floats are modelled as exact reals. `round(x, 2)` is rounding half up of the exact value, not binary float rounding with ties to even.
  - Performance.Round2: a value exactly halfway between two hundredths goes up, where Python's float `round` goes to the even neighbour; binary float rounding is not modelled.
- Case conversion covers ASCII letters only. Unicode case mapping is not modelled.
- `PerformanceLog.from_dict` and `Player.from_dict` on keys that are present but `null` are not modelled: a dictionary key is either present or missing. The same goes for a record without `name`, which raises `KeyError`.
- `match_history` entries that are not dictionaries are not modelled; `from_dict` skips them.
- A notification holds only the type, message and timestamp keys; other keys are not modelled. Python appends the same dictionary object to both `notifications` and `inbox`; the model appends equal values, so the aliasing between them is not modelled.
- `assign_captain`'s single loop is modelled as a search (`FindPlayer`) followed by the toggle of the match. The players searched are distinct objects, as the loader builds them.
- Draft notifications and the `upcoming_match` field (backend/routes/draft.py:75-81, 183-206, 219-244) are not modelled. `get_current_draft_match` is not part of this model; its result is the boolean input `matchFound`, and without a match the pick is refused and nothing is saved.
- The draft start and the pick record the start and end times; these are not modelled.
- Invite records with missing keys or a non-numeric `uses` are not modelled (both raise in `validate_invite`). An unreadable expiry is modelled as `expiresAt == None`.
- `get_all_invites` returns the list unchanged and has no model of its own.
- TeamGenerator.AvailableOf: its own contract states membership only; the list order is stated by the lemma `AvailableInOrder`, which keeps the proof of the in-place generator small.
- The generator's teams are lists of the available players, taken in their position in the available list. `Snapshot` reads each player's form and last log once, after positions are upper-cased; `recent_form` does not depend on the position.
- The generator upper-cases the caller's objects in place. It does so only when at least two players are available, as the code does.
- `BalanceTeams`' claim that exactly min(n, 14) players are placed (`GenerateOk`) assumes distinct player ids. With repeated ids, the used-id set skips the duplicates, and only the bounds are proved.
- The superseded draft copies (`app.py`, `backend/old/app.py`, `backend/routes/captains.py`), the broken settings module and the front end are not part of this model.
