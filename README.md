# Clan food, event filters and text rules — a verified model

This project models the rule-bearing core of a Warriors-cats colony game, "Clan generator". Its centre is the freshkill pile of a Clan. The pile keeps prey in four sub-piles by moons until expiry (`expires_in_4` down to `expires_in_1`), along with a running total. Each moon the prey ages one step. Cats are fed from the soonest-to-expire prey first.

Each cat has a nutrition record: a maximum score and a current score, clamped to `0..max`. Feeding follows the Clan's settings, in two layers:
- an optional priority layer: sick and injured cats first, or the best hunters first;
- one ordering tactic: low or high rank first, youngest or oldest first, hungriest first, or most experienced first.

What a cat is allowed depends on rationing and on how far the pile exceeds what the Clan needs. Nursing queens and pregnant cats eat at their own requirement. Kits younger than three moons are fed by their queen and skipped.

Alongside the pile the project models these smaller parts:
- the queen and kit partition the feeding relies on, and the other cat-list queries of the same file;
- the eligibility filters of events: seasons, locations, mode and leader-life tags, reputation and relation bands, the frequency fallback and personality compatibility;
- three text rewrites used on event text, and the guard cases of pronoun replacement;
- the clamped reputation and relations arithmetic of the other Clans;
- the Clan settings table: get, set, cyclic switch, reset, and loading with key conversion;
- the weight and outcome queries of a patrol.

Where the source mutates state the model does too:
- `Freshkill.FreshkillPile` is a class with the pile, the total, the nutrition records, the fed list and the feeding context as fields. `Freshkill.CatList` is the caller's list, which the hunter priority edits in place.
- `Cotc.Clan`, `ClanSettings.Settings` and `PatrolEvent.PatrolEvent` are classes whose methods update their fields.

Each such method is proved against a specification function, and the properties are proved about those functions:
- the store and score functions of `FreshkillSpec`: `Take`, `Drain`, `Eat`, `Rotate`, `SetScore`, `ScoreAfter`;
- the per-cat step `FeedOne`, folded over an ordering by `FeedGroupSpec`;
- the ordering functions of the tactics;
- the nutrition update `UpdatedNutrition`;
- `FeedCatsSpec` and `TimeSkipSpec`.

The filters and the text rewrites are pure functions. The loops of the source stay loops: `GetAliveClanQueens`, `GetLivingClanCatCount`, `GetCatsSameAge`, `SelectiveReplace`, `ReplaceClanName`, `GetPersonalityCompatibility`, `HerbsGiven` and others.

Modules:
- `Common`: options, filtering, reversal, a stable sort by key;
- `Strings`: Python string operations;
- `ClanCats`: cats and `get_clan_cats.py`;
- `FreshkillSpec`: the value-level specification of feeding;
- `Freshkill`: the pile class;
- `EventFilters`, `TextAdjust`, `Cotc`, `ClanSettings` and `PatrolEvent`.

Prey amounts are reals. The global registry `Cat.all_cats` is a parameter `all: seq<Cat>`, in insertion order; `fetch_cat` is the first cat with that ID. The prey tables and the Clan settings are the `Config` parameter.

## Model

| member | source | states |
|---|---|---|
| FreshkillSpec.SetScore | scripts/clan_resources/freshkill.py:37-48 | assigning a score clamps it to `0..max`: the value itself when in range, `max` above, 0 below; the maximum is kept |
| FreshkillSpec.HungryBelowMax | scripts/clan_resources/freshkill.py:48 | a record is below 100% exactly when its current score is below its maximum; a full record is at 100% |
| Freshkill.NewPileOk | scripts/clan_resources/freshkill.py:77-84 | the pile built without a save is well formed: four sub-piles, the start amount in `expires_in_4`, total equal to their sum |
| Freshkill.FreshkillPile.constructor | scripts/clan_resources/freshkill.py:61-93 | a loaded pile is kept with its total recomputed as the sum of its sub-piles; otherwise the start amount goes to `expires_in_4`; every other field starts empty, 0 or false |
| Freshkill.FreshkillPile.AddFreshkill | scripts/clan_resources/freshkill.py:95-106 | only `expires_in_4` and the total grow, each by the amount; records, fed list and needed prey are unchanged |
| FreshkillSpec.Take | scripts/clan_resources/freshkill.py:531-564 | the remainder lies in `0..x`; only the named sub-pile drops, by exactly `x - r`, and the total drops by the same; it empties the sub-pile when something remains; nothing changes for `x == 0` or for a tick feed without auto-feeding |
| Freshkill.FreshkillPile.TakeFromPile | scripts/clan_resources/freshkill.py:531-564 | the new store and the returned remainder are those of `Take` on the old store |
| Freshkill.FreshkillPile.TakeFrom | scripts/clan_resources/freshkill.py:531-564 | the branches of `take_from_pile` on a store: the new store and the remainder are `Take` of the old store |
| FreshkillSpec.Drain | scripts/clan_resources/freshkill.py:121-125 | taking through a key order: the remainder lies in `0..x`, no sub-pile grows, the total drops by what was taken, keys outside the order are untouched, and unmet demand leaves every key of the order empty |
| FreshkillSpec.DrainSoonestFirst | scripts/clan_resources/freshkill.py:121-125 | while an earlier key of the order still holds prey, no later key has been touched |
| FreshkillSpec.DrainHeadLeftover | scripts/clan_resources/freshkill.py:121-125 | when the first key still holds prey after a draw, every other key of the order is untouched |
| Freshkill.FreshkillPile.RemoveFreshkill | scripts/clan_resources/freshkill.py:108-125 | the new store is `Drain` of the old one over the given order (the soonest-first order, or the shuffled one); amount 0 changes nothing |
| Freshkill.FreshkillPile.DrawInOrder | scripts/clan_resources/freshkill.py:124-125 | the loop of `take_from_pile` calls computes `Drain` over the order, store and remainder |
| Freshkill.FreshkillPile.DrainFrom | scripts/clan_resources/freshkill.py:124-125 | the loop over the order computes `Drain`, store and remainder, from any well-formed store |
| FreshkillSpec.Soonest | scripts/clan_resources/freshkill.py:493-498 | the i-th bucket of the soonest-to-expire order |
| FreshkillSpec.Eat | scripts/clan_resources/freshkill.py:493-501 | eating through `expires_in_1..4`: remainder in `0..x`, total down by what was eaten, earlier buckets untouched, unmet demand empties the rest |
| FreshkillSpec.EatIsDrain | scripts/clan_resources/freshkill.py:493-501 | eating soonest first is draining over the order `expires_in_1, _2, _3, _4` |
| FreshkillSpec.DrainEnough | scripts/clan_resources/freshkill.py:499-501 | a demand the total covers is met in full |
| Freshkill.FreshkillPile.EatSoonestFirst | scripts/clan_resources/freshkill.py:493-501 | the loop over the expiry order computes `Eat` from the first bucket, store and remainder |
| Freshkill.FreshkillPile.UpdateTotalAmount | scripts/clan_resources/freshkill.py:127-131 | the total becomes the sum of the sub-piles; nothing else changes |
| FreshkillSpec.Rotate | scripts/clan_resources/freshkill.py:190-194 | the rotation keeps the keys and keeps amounts non-negative |
| FreshkillSpec.RotateShifts | scripts/clan_resources/freshkill.py:190-194 | each key receives the old amount of the key before it in dictionary order, the first key receives 0 |
| FreshkillSpec.RotateOutside | scripts/clan_resources/freshkill.py:190-194 | keys not iterated keep their amount |
| FreshkillSpec.AgeOneMoon | scripts/clan_resources/freshkill.py:190-198 | in a new pile's key order: new `_3/_2/_1` are old `_4/_3/_2`, new `_4` is 0, and the sum falls by old `_1` |
| FreshkillSpec.FourMoonsEmpty | scripts/clan_resources/freshkill.py:190-198 | four moons of ageing without feeding or new prey empty every sub-pile |
| FreshkillSpec.RotationFollowsKeyOrder | scripts/clan_resources/freshkill.py:192-194 | a pile whose dictionary order is soonest-first ages the wrong way: `_1` becomes 0 and `_4` receives old `_3` |
| Freshkill.FreshkillPile.AgePile | scripts/clan_resources/freshkill.py:190-194 | the rotation loop leaves the pile at `Rotate(old pile, dict order, 0)` and keeps it well formed |
| Freshkill.FreshkillPile.StartTick | scripts/clan_resources/freshkill.py:189-201 | after the start of a moon: the pile aged, the total its sum, the fed list empty, the tick flag set; records and needed prey unchanged |
| FreshkillSpec.TimeSkipSpec | scripts/clan_resources/freshkill.py:183-207 | a moon ages the pile, feeds the living cats as a tick, and recomputes needed prey; the records end with the keys of the updated nutrition; without auto-feeding the pile is exactly the rotated one |
| FreshkillSpec.Aged | scripts/clan_resources/freshkill.py:189-201 | the state a tick feeds from: the pile rotated and its total summed, the fed list empty, records unchanged |
| FreshkillSpec.TickKeepsFeedPre | scripts/clan_resources/freshkill.py:189-201 | ageing the pile keeps what feeding the living cats needs |
| FreshkillSpec.TimeSkipAgesOnly | scripts/clan_resources/freshkill.py:183-207 | without auto-feeding, a moon only ages the prey and the total falls by exactly the expired `_1` |
| Freshkill.FreshkillPile.TimeSkip | scripts/clan_resources/freshkill.py:183-207 | the new pile state and the caller's list are those of `TimeSkipSpec`; the tick flag is cleared and the feeding context empty again |
| Freshkill.FreshkillPile.EndTick | scripts/clan_resources/freshkill.py:203-207 | the tick flag is cleared, needed prey becomes `NeededFood` of the living list and the total the sum of the pile; nothing else changes |
| FreshkillSpec.YoungKits | scripts/clan_resources/freshkill.py:141 | exactly the kits younger than three moons |
| FreshkillSpec.NursingQueenCount | scripts/clan_resources/freshkill.py:137-143 | counts at most one per queen of the dictionary |
| FreshkillSpec.NursingQueensCounted | scripts/clan_resources/freshkill.py:137-143 | the count is the number of queens of the dictionary that are not known to be out of the Clan and have a kit under three moons (`Count` under `NursingTest`) |
| FreshkillSpec.PregnantCats | scripts/clan_resources/freshkill.py:144-150 | exactly the pregnant cats of the list that are not queens (and alive, when asked) |
| FreshkillSpec.PregnantCatsFiltered | scripts/clan_resources/freshkill.py:144-150 | the result is the list filtered by `PregnantTest`, in list order |
| FreshkillSpec.RankNeed | scripts/clan_resources/freshkill.py:153-159 | the requirement summed over the cats is non-negative |
| FreshkillSpec.RankNeedAppend | scripts/clan_resources/freshkill.py:153-159 | the summed requirement of two lists joined is the sum of theirs |
| FreshkillSpec.WarriorAddsOwnNeed | scripts/clan_resources/freshkill.py:133-181 | one more healthy warrior, alive in the Clan, raises the needed prey by exactly the warrior requirement |
| FreshkillSpec.SickCount | scripts/clan_resources/freshkill.py:162-167 | at most the number of cats |
| FreshkillSpec.SickCounted | scripts/clan_resources/freshkill.py:162-167 | the count is the number of cats that are not working and not pregnant |
| FreshkillSpec.NeededCoversAdults | scripts/clan_resources/freshkill.py:133-181 | the needed prey is at least the requirement of the living adults |
| FreshkillSpec.LoneWarriorNeed | scripts/clan_resources/freshkill.py:133-181 | a Clan of one healthy warrior needs exactly the warrior requirement |
| FreshkillSpec.AliveCats | scripts/clan_resources/freshkill.py:250-252 | exactly the cats alive in the Clan |
| FreshkillSpec.AliveCatsFiltered | scripts/clan_resources/freshkill.py:250-252 | the result is the registry filtered, in order, to the cats alive in the Clan |
| Freshkill.FreshkillPile.UpdateNeededFood | scripts/clan_resources/freshkill.py:133-181 | needed prey becomes `NeededFood` of the cats, with queens read from the pile's living list; pile and records unchanged |
| Freshkill.FreshkillPile.NeedOf | scripts/clan_resources/freshkill.py:133-181 | the sum of `_update_needed_food` is `NeededFood` |
| Freshkill.FreshkillPile.QueensToFeed | scripts/clan_resources/freshkill.py:135-150 | returns the kits without an alive parent and the count of nursing queens plus pregnant non-queens |
| Freshkill.FreshkillPile.CountNursingQueens | scripts/clan_resources/freshkill.py:137-143 | the loop over the queen dictionary computes `NursingQueenCount` |
| Freshkill.FreshkillPile.AmountFoodNeeded | scripts/clan_resources/freshkill.py:245-254 | returns and stores the need of every cat alive in the Clan; nothing else changes |
| Freshkill.FreshkillPile.ClanHasEnoughFood | scripts/clan_resources/freshkill.py:256-261 | true exactly when that need is at most the total |
| FreshkillSpec.NursingQueens | scripts/clan_resources/freshkill.py:279-285 | the queens it lists are registered cats of the queen dictionary |
| FreshkillSpec.QueensRegistered | scripts/clan_resources/freshkill.py:278-280 | every queen of the partition is a known cat with a kit list |
| FreshkillSpec.NursedKitsMember | scripts/clan_resources/freshkill.py:279-285 | a kit is fed by a queen exactly when some queen lists it and it is under three moons |
| FreshkillSpec.FedKitsAreNursedYoung | scripts/clan_resources/freshkill.py:268-294 | the fed kits are exactly the alive baby cats of the list, under three moons, with an alive parent in the Clan |
| Freshkill.FreshkillPile.FindKittenAndQueen | scripts/clan_resources/freshkill.py:267-294 | the loop returns those kits and the nursing queens followed by the pregnant non-queens |
| FreshkillSpec.Bonus | scripts/clan_resources/freshkill.py:457-477 | the surplus bonus lies in `0..2`; none for a cat at 100% or when the pile does not exceed the need; 2, 1.5, 1 or 0.5 in the bands above 2, 1.8, 1.2 and 1 times the need |
| FreshkillSpec.BonusMonotone | scripts/clan_resources/freshkill.py:457-477 | a fuller pile never lowers the bonus |
| FreshkillSpec.Allowance | scripts/clan_resources/freshkill.py:449-477 | rationing gives a non-newborn half its requirement; otherwise the allowance lies between the requirement and the requirement plus 2 |
| FreshkillSpec.ScoreAfter | scripts/clan_resources/freshkill.py:505-527 | manual feeding adds what was eaten and never lowers the score; a tick with unmet demand subtracts it plus any ration deficit; a hungry cat fully served gains `allowed - required`; a satisfied cat loses only a ration deficit and is unchanged without one |
| FreshkillSpec.FeedOne | scripts/clan_resources/freshkill.py:433-529 | serving one cat: a cat already fed or a nursed kit is skipped; otherwise the cat joins the fed list, only its record changes, the pile only shrinks, and a suppressed tick leaves the pile alone |
| FreshkillSpec.EmptyPileStarves | scripts/clan_resources/freshkill.py:512-516 | from an empty pile a tick-fed cat loses its whole requirement and the pile is unchanged |
| FreshkillSpec.RationingHalves | scripts/clan_resources/freshkill.py:455-456 | with rationing a non-newborn eats half its requirement and loses that half from its score |
| FreshkillSpec.SurplusBonus | scripts/clan_resources/freshkill.py:458-462 | a hungry cat with the pile above twice the need eats requirement plus 2 and gains 2 |
| FreshkillSpec.NursedKitNotServed | scripts/clan_resources/freshkill.py:440-443 | a kit nursed by its queen is skipped: state unchanged |
| FreshkillSpec.FeedGroupSpec | scripts/clan_resources/freshkill.py:423-479 | after a group every member counts as fed or skipped, the fed list only grows, the pile only shrinks, records keep their keys |
| FreshkillSpec.FeedGroupAppend | scripts/clan_resources/freshkill.py:423-479 | feeding two groups in turn is feeding their concatenation |
| FreshkillSpec.FedOnce | scripts/clan_resources/freshkill.py:434-436 | no cat enters the fed list twice |
| Freshkill.FreshkillPile.ServeCat | scripts/clan_resources/freshkill.py:433-479 | one iteration of the group loop is `FeedOne` |
| Freshkill.FreshkillPile.ServeAllowance | scripts/clan_resources/freshkill.py:445-479 | a cat that is not skipped is served as `FeedOne` serves it, fed as a queen when it is one |
| Freshkill.FreshkillPile.FeedIndividual | scripts/clan_resources/freshkill.py:481-529 | the store becomes `Eat` of the allowance, the cat is appended to the fed list, and its record becomes `ScoreAfter` |
| Freshkill.FreshkillPile.MarkFed | scripts/clan_resources/freshkill.py:502-529 | the cat is appended to the fed list and only its record changes |
| Freshkill.FreshkillPile.FeedGroup | scripts/clan_resources/freshkill.py:423-479 | the loop over the group computes `FeedGroupSpec` |
| FreshkillSpec.SickCats | scripts/clan_resources/freshkill.py:416 | exactly the ill or injured cats |
| FreshkillSpec.SickCatsFiltered | scripts/clan_resources/freshkill.py:416 | the result is the list filtered, in order, to the ill or injured cats |
| Freshkill.FreshkillPile.FeedSickInjured | scripts/clan_resources/freshkill.py:411-417 | feeds the `SickCats` group |
| FreshkillSpec.Tiered | scripts/clan_resources/freshkill.py:391-407 | exactly the cats with a hunter skill of that tier |
| FreshkillSpec.Untiered | scripts/clan_resources/freshkill.py:391-407 | exactly the cats without a hunter skill of that tier |
| FreshkillSpec.TierSplit | scripts/clan_resources/freshkill.py:391-407 | a search round splits the list without losing or adding a cat |
| FreshkillSpec.HuntersFirst | scripts/clan_resources/freshkill.py:384-409 | the picked hunters and the rest come from the list |
| FreshkillSpec.HuntersBestTierFirst | scripts/clan_resources/freshkill.py:390-399 | hunters come out best tier first |
| FreshkillSpec.HuntersSplitList | scripts/clan_resources/freshkill.py:390-407 | picked plus left is the original list as a multiset; the cats left are exactly those without a hunter skill of tiers 1-3 |
| Freshkill.FreshkillPile.PickHunters | scripts/clan_resources/freshkill.py:389-407 | the three search rounds return `HuntersFirst` and leave its remainder in the caller's list |
| Freshkill.FreshkillPile.PickAtRank | scripts/clan_resources/freshkill.py:391-407 | one round prepends the tier's hunters in reverse and removes them from the caller's list |
| Freshkill.FreshkillPile.TryHunter | scripts/clan_resources/freshkill.py:391-407 | one cat of the copy: a hunter of the tier goes to the front of the hunters and out of the list, any other cat stays |
| Freshkill.FreshkillPile.FeedHunters | scripts/clan_resources/freshkill.py:384-409 | feeds the hunters best tier first and removes them from the caller's list |
| FreshkillSpec.OfRank | scripts/clan_resources/freshkill.py:312-324 | exactly the cats of that rank outside the excluded IDs |
| FreshkillSpec.RankOrder | scripts/clan_resources/freshkill.py:304-330 | every cat of the order comes from the list or the queens |
| FreshkillSpec.RankOrderMembers | scripts/clan_resources/freshkill.py:308-324 | a cat is ordered exactly when it belongs to the group of some status of the feeding order |
| FreshkillSpec.SameRankYoungestFirst | scripts/clan_resources/freshkill.py:329 | within a rank, younger cats come first whichever direction the ranks go |
| FreshkillSpec.SameRankSameGroup | scripts/clan_resources/freshkill.py:308-330 | two cats of one rank, neither fed as a queen, fall in the same status group |
| FreshkillSpec.CrossGroupsDiffer | scripts/clan_resources/freshkill.py:308-324 | cats of the groups of different statuses, neither fed as a queen, differ in rank |
| FreshkillSpec.YoungestFirstAt | scripts/clan_resources/freshkill.py:329 | a group sorted for `_feed_by_rank` has ascending moons |
| Freshkill.FreshkillPile.FeedByRank | scripts/clan_resources/freshkill.py:296-330 | feeds `RankOrder` over the feeding order or its reverse |
| Freshkill.FreshkillPile.RankPass | scripts/clan_resources/freshkill.py:308-330 | one status of the feeding order: the state moves from the groups before it to those including its group |
| Freshkill.FreshkillPile.FeedStatus | scripts/clan_resources/freshkill.py:309-330 | feeds the group of one status, youngest first, and does nothing for an empty group |
| Common.SortBy | scripts/clan_resources/freshkill.py:340-342 | the result is a permutation of the list |
| Common.SortByCorrect | scripts/clan_resources/freshkill.py:340-342 | the result is sorted by the key in the asked direction, and a permutation |
| Common.SortByStable | scripts/clan_resources/freshkill.py:340-342 | the sort is stable: the elements of any one key keep their order |
| Freshkill.FreshkillPile.FeedByAge | scripts/clan_resources/freshkill.py:332-343 | feeds the list sorted by moons, ascending or descending |
| Freshkill.FreshkillPile.FeedByExperienceFirst | scripts/clan_resources/freshkill.py:376-382 | feeds the list sorted by experience, descending |
| FreshkillSpec.HungryCats | scripts/clan_resources/freshkill.py:354-360 | exactly the cats below (or at) 100% |
| FreshkillSpec.HungryOrder | scripts/clan_resources/freshkill.py:345-374 | the order comes from the list or the queens |
| FreshkillSpec.HungriestServedFirst | scripts/clan_resources/freshkill.py:345-374 | the order begins with all hungry cats, lowest percentage first (corrected; see Findings) |
| FreshkillSpec.HungrySortRaises | scripts/clan_resources/freshkill.py:368-370 | as written, two or more hungry cats raise; with fewer the as-written order is the corrected one |
| FreshkillSpec.TwoWarriorsHungry | scripts/clan_resources/freshkill.py:354-360 | two warriors at 50% and 25% are both hungry |
| FreshkillSpec.TwoHungryWarriorsRaise | scripts/clan_resources/freshkill.py:368-370 | those two warriors make the hungriest-first tactic raise as written |
| FreshkillSpec.TwoHungryWarriorsIntended | scripts/clan_resources/freshkill.py:345-374 | corrected, the 25% warrior is fed before the 50% one |
| FreshkillSpec.TwoKeys | scripts/clan_resources/freshkill.py:48 | the two warriors are at 50% and 25% |
| Freshkill.FreshkillPile.FeedByHungryFirst | scripts/clan_resources/freshkill.py:345-374 | feeds the hungry cats lowest percentage first, then the rest by rank (corrected; see Findings) |
| Freshkill.FreshkillPile.SplitByHunger | scripts/clan_resources/freshkill.py:354-360 | the loop splits the list into `HungryCats` below 100% and the others, in list order |
| Freshkill.FreshkillPile.FeedHungryThenRest | scripts/clan_resources/freshkill.py:362-374 | feeds the hungry cats lowest percentage first, then `RankOrder` over the others (corrected; see Findings) |
| FreshkillSpec.Priority | scripts/clan_resources/freshkill.py:223-226 | the priority group and the list left afterwards come from the caller's list |
| Freshkill.FreshkillPile.FeedPriority | scripts/clan_resources/freshkill.py:223-226 | feeds the priority group of the settings and leaves the caller's list as the priority left it |
| FreshkillSpec.TacticOrder | scripts/clan_resources/freshkill.py:228-239 | the tactic's order comes from the list or the queens |
| Freshkill.FreshkillPile.FeedTactic | scripts/clan_resources/freshkill.py:228-239 | feeds in the order of the tactic the settings pick |
| FreshkillSpec.FeedCatsSpec | scripts/clan_resources/freshkill.py:209-243 | the pile only shrinks, the records have the keys of the updated nutrition, the fed list only grows, manual feeding never lowers a score, a suppressed tick leaves the pile alone |
| Freshkill.FreshkillPile.FeedCats | scripts/clan_resources/freshkill.py:209-243 | the new state and the caller's list are those of `FeedCatsSpec`; the manual flag, fed kits and queens are cleared (the hungriest-first tactic corrected; see Findings) |
| Freshkill.FreshkillPile.PrepareFeeding | scripts/clan_resources/freshkill.py:216-220 | the records are updated, the manual flag set, and the fed kits and queens found |
| Freshkill.FreshkillPile.FeedPriorityThenTactic | scripts/clan_resources/freshkill.py:222-239 | feeds the priority group and then the tactic order, which is `FeedOrdered` |
| Freshkill.FreshkillPile.EndFeeding | scripts/clan_resources/freshkill.py:241-243 | the manual flag, fed kits and queens are cleared; the pile state is unchanged |
| FreshkillSpec.FeedOrdered | scripts/clan_resources/freshkill.py:222-239 | the pile only shrinks, the records keep their keys, the fed list only grows, manual feeding never lowers a score, a suppressed tick leaves the pile alone |
| FreshkillSpec.NewRecord | scripts/clan_resources/freshkill.py:618-649 | a new record is full: `current == max == requirement × factor`, plus the surcharge for a non-working, non-pregnant cat in a cruel season |
| FreshkillSpec.Rescaled | scripts/clan_resources/freshkill.py:606-614 | the record gets the new maximum and stays well formed |
| FreshkillSpec.ScaledInRange | scripts/clan_resources/freshkill.py:612-614 | the rescaled score lies in `0..new max` |
| FreshkillSpec.RescaledKeepsPercentage | scripts/clan_resources/freshkill.py:606-614 | rescaling keeps the percentage |
| FreshkillSpec.RescaledScore | scripts/clan_resources/freshkill.py:612-614 | a rescaled score is the old fraction of the maximum times the new maximum |
| FreshkillSpec.PercentOf | scripts/clan_resources/freshkill.py:48 | a record at fraction `q` of its maximum is at `q × 100` percent |
| FreshkillSpec.Pruned | scripts/clan_resources/freshkill.py:582-589 | exactly the records of cats still alive in the Clan remain, unchanged |
| FreshkillSpec.TabledIds | scripts/clan_resources/freshkill.py:592-594 | exactly the IDs of the cats whose rank is in the requirement table |
| FreshkillSpec.RecordStep | scripts/clan_resources/freshkill.py:592-616 | a cat of a tabled rank gains or keeps a record, a cat of another rank is skipped, other records unchanged |
| FreshkillSpec.RefreshedKeepsPercentage | scripts/clan_resources/freshkill.py:596-614 | a known cat keeps its hunger percentage through the update, and its maximum becomes its status requirement times its factor |
| FreshkillSpec.UpdateRecords | scripts/clan_resources/freshkill.py:591-616 | the keys are the old ones plus every tabled cat of the list |
| FreshkillSpec.UpdatedNutrition | scripts/clan_resources/freshkill.py:570-616 | the records after pruning and refreshing stay well formed |
| FreshkillSpec.DeadRecordDropped | scripts/clan_resources/freshkill.py:582-589 | the record of a cat no longer alive in the Clan is gone unless the cat is fed again |
| FreshkillSpec.ElderFactorMismatch | scripts/clan_resources/freshkill.py:596-628 | an elder of at most 114 moons is added with factor 2 and rescaled to factor 3 at the next update |
| FreshkillSpec.SurchargeRescaledAway | scripts/clan_resources/freshkill.py:607-647 | the sickness surcharge of a new record is lost at the next update |
| Freshkill.FreshkillPile.UpdateNutrition | scripts/clan_resources/freshkill.py:570-616 | the records become `UpdatedNutrition` of the old ones; pile, fed list and needed prey unchanged |
| Freshkill.FreshkillPile.PruneRecords | scripts/clan_resources/freshkill.py:582-589 | the removal loop computes `Pruned` |
| Freshkill.FreshkillPile.SetRecords | scripts/clan_resources/freshkill.py:588-589 | the records are replaced; pile, fed list and needed prey unchanged |
| Freshkill.FreshkillPile.RefreshRecord | scripts/clan_resources/freshkill.py:592-616 | one iteration over the cats computes `RecordStep` |
| Freshkill.FreshkillPile.RequiredMax | scripts/clan_resources/freshkill.py:597-607 | the new maximum is the requirement of the cat's status × its update factor, and positive |
| Freshkill.FreshkillPile.RescaleRecord | scripts/clan_resources/freshkill.py:606-614 | only that cat's record changes, to `Rescaled` |
| Freshkill.FreshkillPile.RescaleTo | scripts/clan_resources/freshkill.py:609-614 | the record rescaled in proportion is `Rescaled` |
| Freshkill.FreshkillPile.AddCatToNutrition | scripts/clan_resources/freshkill.py:618-649 | only that cat's record changes, to `NewRecord` |
| Freshkill.FreshkillPile.BuildRecord | scripts/clan_resources/freshkill.py:618-649 | the record built is `NewRecord` |
| ClanCats.Fetch | scripts/clan_package/get_clan_cats.py:18-22 | the first registered cat with the ID, or none when no cat has it |
| ClanCats.AliveParents | scripts/clan_package/get_clan_cats.py:18-22 | the parents kept are registered cats alive in the Clan |
| ClanCats.QueenOf | scripts/clan_package/get_clan_cats.py:26-44 | the first parent when there is one parent, more than two, only male parents or a female first parent; with two parents, not all male and the first not female, the second |
| ClanCats.AddKit | scripts/clan_package/get_clan_cats.py:32-44 | the kit is appended to that queen's list, which is created if new; no other list changes |
| ClanCats.BabiesMember | scripts/clan_package/get_clan_cats.py:8-12 | exactly the alive newborns and kittens |
| ClanCats.NurseriesKits | scripts/clan_package/get_clan_cats.py:15-44 | a queen's list holds exactly the kits with an alive parent whose queen she is |
| ClanCats.NurseriesQueensRegistered | scripts/clan_package/get_clan_cats.py:18-22 | every queen is a registered cat alive in the Clan |
| ClanCats.OrphansMember | scripts/clan_package/get_clan_cats.py:23-24 | the kits left are exactly those without an alive parent |
| ClanCats.GetAliveClanQueens | scripts/clan_package/get_clan_cats.py:7-45 | the loop returns the queen dictionary and the kits left, as `Nurseries` and `Orphans` define them |
| ClanCats.ExactlyOnePlace | scripts/clan_package/get_clan_cats.py:15-44 | every alive baby is in exactly one place: its queen's list or the kits left |
| ClanCats.OrphanStaysKit | scripts/clan_package/get_clan_cats.py:23-24 | a kit with no alive parent in the Clan stays among the kits left |
| ClanCats.MotherIsQueen | scripts/clan_package/get_clan_cats.py:26-44 | with a male and a female parent, in that order, the mother is the queen |
| ClanCats.FindAliveCatsWithRank | scripts/clan_package/get_clan_cats.py:48-74 | the registry filtered, in order, to the alive cats with a listed rank (and working, when asked); when sorting, a permutation of that list by moons descending, cats of equal age in registry order |
| ClanCats.GetLivingClanCatCount | scripts/clan_package/get_clan_cats.py:77-87 | the number of cats alive in the Clan |
| ClanCats.SameAgeCats | scripts/clan_package/get_clan_cats.py:97-116 | a cat is returned if and only if it is in the registry, alive in the Clan, not the cat itself, already related and passes the age test |
| ClanCats.Introduced | scripts/clan_package/get_clan_cats.py:104-108 | both directions are created for every alive other cat without a relationship to the given cat, and every created pair is one of these |
| ClanCats.GetCatsSameAge | scripts/clan_package/get_clan_cats.py:90-116 | the loop returns `SameAgeCats` and adds the missing relationships |
| ClanCats.SameAgeOnlyRelatedLiving | scripts/clan_package/get_clan_cats.py:98-108 | never the cat itself, a cat not alive, or one without an existing relationship |
| ClanCats.SameAgeAsWrittenMissesTwin | scripts/clan_package/get_clan_cats.py:110-113 | as written a related cat of exactly the same age is not returned; corrected it is |
| ClanCats.SameAgeSymmetric | scripts/clan_package/get_clan_cats.py:90-96 | the corrected test is symmetric and means the moons differ by at most the range |
| EventFilters.GetFrequency | scripts/events_module/event_filters.py:14-27 | a roll in 1..10 gives a frequency in 1..4 |
| EventFilters.FrequencyIsShareOfTenRolls | scripts/events_module/event_filters.py:18-27 | frequency f is returned by exactly f of the ten rolls |
| EventFilters.FindNewFrequency | scripts/events_module/event_filters.py:30-46 | the result lies in 1..4; one above the highest used frequency is chosen when it is a free frequency, else one below the lowest when that is free, else 4; any result other than 4 is unused |
| EventFilters.NewFrequencyIsUnused | scripts/events_module/event_filters.py:30-46 | for a contiguous set of used frequencies with a gap left in 1..4, the result is unused |
| EventFilters.FallbackCanReuse | scripts/events_module/event_filters.py:41-46 | with 1 and 4 used, the fallback returns 4 again |
| EventFilters.CheckForExclusionaryValue | scripts/events_module/event_filters.py:759-769 | true exactly when the list is non-empty and its first entry starts with "-" |
| EventFilters.ExclusionaryLooksAtFirstOnly | scripts/events_module/event_filters.py:763-767 | entries after the first never matter |
| EventFilters.StripDashes | scripts/events_module/event_filters.py:98 | every "-" is removed from every entry |
| EventFilters.EventForSeason | scripts/events_module/event_filters.py:85-103 | true for an empty list or "any"; otherwise the lowercased season's membership in the (stripped) list differs from the exclusionary flag |
| EventFilters.SeasonIntendedMeaning | scripts/events_module/event_filters.py:85-103 | corrected, an inclusive list admits exactly the listed seasons and an exclusive one exactly the unlisted ones |
| EventFilters.SeasonAgreesWithoutInnerDash | scripts/events_module/event_filters.py:96-103 | when no season name holds a "-", the source and the corrected filter agree |
| EventFilters.DashedSeasonExclusionIgnored | scripts/events_module/event_filters.py:96-103 | excluding a season whose name holds "-" excludes nothing as written |
| EventFilters.LeafBareExclusionIgnored | scripts/events_module/event_filters.py:98 | "-leaf-bare" admits Leaf-bare as written; corrected it excludes it |
| EventFilters.ParseLocation | scripts/events_module/event_filters.py:64-71 | a bare biome allows any camp; otherwise the biome is the text before the first colon and the camps the "_"-split of the text up to the next colon |
| EventFilters.LocationTestsInclusive | tests/test_event_filters.py:27-55 | the inclusive location tests hold for any names of the tests' shape |
| EventFilters.LocationTestsExclusive | tests/test_event_filters.py:56-71 | the exclusionary location tests hold for any names of the tests' shape |
| EventFilters.TestNamesFit | tests/test_event_filters.py:16-21 | the Forest Clan at camp1 and the names of the tests have that shape |
| EventFilters.LocationScan | scripts/events_module/event_filters.py:60-82 | the scan returns `not exclusionary` exactly when some entry matches the Clan's place |
| EventFilters.EventForLocation | scripts/events_module/event_filters.py:49-82 | true for "any", false without a Clan; otherwise whether some entry matches differs from the exclusionary flag |
| EventFilters.ModeScan | scripts/events_module/event_filters.py:120-124 | true exactly when no mode tag other than the game's is present |
| EventFilters.LivesScan | scripts/events_module/event_filters.py:127-141 | true exactly when every present life tag's inclusive range contains the leader's lives |
| EventFilters.EventForTagsModeAndLives | scripts/events_module/event_filters.py:116-141 | passes exactly when the mode tags agree and, for a leader, every life tag admits the lives |
| EventFilters.LeaderLifeAccepted | scripts/events_module/event_filters.py:127-141 | nine, five and one lives pass their fitting tag sets |
| EventFilters.LeaderLifeRejected | scripts/events_module/event_filters.py:120-141 | conflicting life tags, or a mode tag of another mode, reject |
| EventFilters.EventForReputation | scripts/events_module/event_filters.py:209-225 | "any", hostile 0-30, neutral 31-70, welcoming 71 and up |
| EventFilters.ReputationBandsPartition | scripts/events_module/event_filters.py:209-225 | each non-negative reputation lies in exactly one band |
| EventFilters.EventForClanRelations | scripts/events_module/event_filters.py:228-244 | "any", hostile 0-6, neutral 7-17, ally 18 and up |
| EventFilters.RelationBandsMatchLabels | scripts/events_module/event_filters.py:228-244 | away from 7 and 17 the relation label of the other Clans passes its own band |
| EventFilters.RelationBandsDisagreeAtEdges | scripts/events_module/event_filters.py:228-244 | at 7 and 17 the label ("hostile", "ally") fails its band |
| EventFilters.FacetTotal | scripts/events_module/event_filters.py:1115-1120 | the running total lies between minus and plus the number of facets |
| EventFilters.CompatibilityOf | scripts/events_module/event_filters.py:1090-1127 | equal traits give positive when set and neutral when both are absent; otherwise positive iff the total is at least 2 and negative iff at most -2 |
| EventFilters.GetPersonalityCompatibility | scripts/events_module/event_filters.py:1090-1127 | the running-total loop returns `CompatibilityOf` |
| EventFilters.CompatibilitySymmetric | scripts/events_module/event_filters.py:1104-1127 | compatibility does not depend on the order of the two cats |
| TextAdjust.SelectiveReplace | scripts/events_module/text_adjust.py:782-796 | the loop returns `SelectiveReplaced` of the text from index 0 |
| TextAdjust.AbsentPatternUnchanged | scripts/events_module/text_adjust.py:782-796 | a text in which the pattern does not occur comes back unchanged, with either brace test |
| TextAdjust.Advance | scripts/events_module/text_adjust.py:790-794 | each step strictly shrinks the text left to scan |
| TextAdjust.InsideBraceGroupMeaning | scripts/events_module/text_adjust.py:788-790 | corrected, skipped means inside one brace group: a "{" and a "}" around it with no brace between |
| TextAdjust.InsideGroupImpliesAsWritten | scripts/events_module/text_adjust.py:788-790 | whatever the corrected test skips, the written test skips too |
| TextAdjust.NoOpenBraceNotInside | scripts/events_module/text_adjust.py:788-790 | without a "{" no occurrence is skipped |
| TextAdjust.SelectiveIsReplaceWithoutBraces | scripts/events_module/text_adjust.py:782-796 | without braces the result is Python's `str.replace` |
| TextAdjust.BetweenTagsIsSkipped | scripts/events_module/text_adjust.py:788-790 | "a" between two tags "{}a{}" is not replaced as written; corrected it is |
| TextAdjust.ClanNameRound | scripts/events_module/text_adjust.py:551-565 | one round either fails where `ClanNameRounds` is None, or leaves the text and position from which the remaining rounds give the same result |
| TextAdjust.ReplaceClanName | scripts/events_module/text_adjust.py:546-567 | the loop returns `ClanNameRounds`, none where `modify[pos - 1]` is out of range (IndexError) |
| TextAdjust.AbsentAbbreviationUnchanged | scripts/events_module/text_adjust.py:546-567 | a text without the abbreviation comes back unchanged, whatever the Clan name |
| TextAdjust.PyInsert | scripts/events_module/text_adjust.py:563 | `list.insert` puts the element at the clamped position, negative positions counting from the end, with the other elements in their old order |
| Common.RemoveAtIndex | scripts/events_module/text_adjust.py:561-563 | `list.remove(x)` drops the element at `list.index(x)`, the first occurrence, and keeps the others in order |
| TextAdjust.ConsonantNameIsPlainReplace | scripts/events_module/text_adjust.py:546-567 | a name not starting with an uppercase vowel gives exactly `text.replace(abbreviation, name)` |
| TextAdjust.ArticleRoundAtAbbr | scripts/events_module/text_adjust.py:554-563 | an "a" before the abbreviation leads to the first "a" removed and "an" inserted before the name |
| TextAdjust.ArticleRoundRemovesFirstA | scripts/events_module/text_adjust.py:561-563 | "a x a c_n" becomes "x a an c_n": the wrong "a" goes |
| TextAdjust.RemoveFirstAExample | scripts/events_module/text_adjust.py:561-563 | the list operations of that example, step by step |
| TextAdjust.FixArticles | scripts/events_module/text_adjust.py:552-565 | corrected, only an "a" right before the abbreviation becomes "an", word by word |
| TextAdjust.FixArticlesIdempotent | scripts/events_module/text_adjust.py:552-565 | fixing articles twice is fixing them once |
| TextAdjust.FirstListWord | scripts/events_module/text_adjust.py:243-250 | a word containing "_list" with no such word before it, or none exactly when no word contains "_list" |
| TextAdjust.FirstListType | scripts/events_module/text_adjust.py:264-276 | a list type the text contains such that the text contains none listed before it (the elif precedence), or none when it contains none |
| TextAdjust.SensesIn | scripts/events_module/text_adjust.py:278-289 | a sense is listed exactly when its "_sense" marker occurs; at most one entry per sense tested |
| TextAdjust.SensesInOrder | scripts/events_module/text_adjust.py:278-289 | over distinct senses, the senses found keep the order in which they are tested, so none comes twice |
| TextAdjust.SensesInFixedOrder | scripts/events_module/text_adjust.py:278-289 | the senses found follow sight, sound, smell, emotional, touch, taste |
| TextAdjust.FindSpecialListTypes | scripts/events_module/text_adjust.py:236-293 | unchanged text and no tag without a list word or type; otherwise the first list type, the senses as `SensesIn` gives them over the fixed order, a cat tag exactly when "/" occurs and then the second "/"-part, and the cleaned word replaced by the bare type |
| TextAdjust.PronounReplGuard | scripts/events_module/text_adjust.py:45-56 | "{insert}" is kept; a tag without "/" raises; a tag naming neither PLURAL nor a known cat is kept; otherwise it is pronounified |
| TextAdjust.LowerCasePluralIsKept | scripts/events_module/text_adjust.py:55-56 | a lower-case "plural" is not the PLURAL marker: the tag is kept |
| Cotc.Clamp | scripts/clan_package/cotc.py:50-55 | the result lies in the bounds and is the value itself when inside |
| Cotc.GetOtherClanRelation | scripts/clan_package/cotc.py:26-37 | "ally" iff at least 17, "neutral" iff 8..16, "hostile" iff at most 7 |
| Cotc.RelationLabelMonotone | scripts/clan_package/cotc.py:26-37 | better relations never give a worse label |
| Cotc.Clan.GetWarringClan | scripts/clan_package/cotc.py:4-14 | none unless at war; at war the last other Clan named as the enemy |
| Cotc.Clan.GetOtherClan | scripts/clan_package/cotc.py:17-23 | an other Clan of that name with no Clan of that name before it, none exactly when none has it |
| Cotc.Clan.ChangeClanRelations | scripts/clan_package/cotc.py:40-57 | that Clan's relations become `clamp(old + difference, 0, 30)`; nothing else changes |
| Cotc.ChangeRelationsOnlyTouchesOne | scripts/clan_package/cotc.py:40-57 | the other Clans are untouched and every relation stays in 0..30 |
| Cotc.Clan.ChangeClanReputation | scripts/clan_package/cotc.py:60-68 | reputation becomes `clamp(old + difference, 0, 100)`; nothing else changes |
| ClanSettings.Cycle | scripts/clan_package/settings/clan_settings.py:101-105 | a setting's list is `[default, not default]`: two distinct values |
| ClanSettings.StoredOnCycle | scripts/clan_package/settings/clan_settings.py:101-105 | a flag's stored value lies on its list; a described setting's stored value (its description) does not |
| ClanSettings.DefaultsLookup | scripts/clan_package/settings/clan_settings.py:76-78 | every declared name is present, with the value of the last category declaring it |
| ClanSettings.InitialLists | scripts/clan_package/settings/clan_settings.py:101-105 | one two-valued list of distinct values per declared setting |
| ClanSettings.Firsts | scripts/clan_package/settings/clan_settings.py:80-81 | each "other" setting gets the first element of its list |
| ClanSettings.ResetValues | scripts/clan_package/settings/clan_settings.py:71-82 | declared and "other" names, the latter at their first value, the former at their declared value |
| ClanSettings.Next | scripts/clan_package/settings/clan_settings.py:64-68 | the next value stays on the list |
| ClanSettings.Switches | scripts/clan_package/settings/clan_settings.py:61-68 | repeated switching stays on the list |
| ClanSettings.SwitchesAdvance | scripts/clan_package/settings/clan_settings.py:61-68 | n switches advance the index by n cyclically |
| ClanSettings.SwitchFullCircle | scripts/clan_package/settings/clan_settings.py:61-68 | as many switches as the list is long restore the value |
| ClanSettings.SwitchFlag | scripts/clan_package/settings/clan_settings.py:61-68 | on a boolean list one switch negates and two restore |
| ClanSettings.ConvertedKeeps | scripts/clan_package/settings/clan_settings.py:26-32 | keys not involved in a conversion keep their value |
| ClanSettings.ConvertedRenames | scripts/clan_package/settings/clan_settings.py:26-32 | an outdated key's value arrives under its new name |
| ClanSettings.CopyKnown | scripts/clan_package/settings/clan_settings.py:34-37 | only known settings are copied; unknown loaded keys are dropped |
| ClanSettings.Settings.constructor | scripts/clan_package/settings/clan_settings.py:85-106 | the table starts reset with the initial lists |
| ClanSettings.Settings.Get | scripts/clan_package/settings/clan_settings.py:51-52 | the stored value, or the default for an unknown name |
| ClanSettings.Settings.Set | scripts/clan_package/settings/clan_settings.py:55-58 | refused (the ValueError) exactly for "other" names; otherwise exactly that key changes |
| ClanSettings.Settings.Switch | scripts/clan_package/settings/clan_settings.py:61-68 | succeeds exactly when the value is on its list (`.index` raises otherwise) and moves it to `Next` |
| ClanSettings.Settings.Reset | scripts/clan_package/settings/clan_settings.py:71-82 | values become `ResetValues` and the "other" lists are installed |
| ClanSettings.Settings.Load | scripts/clan_package/settings/clan_settings.py:12-37 | a reset, then without a file nothing more; with one, the converted file copied over the known settings |
| PatrolEvent.PatrolEvent.constructor | scripts/events_module/patrol/patrol_event.py:10-92 | absent lists default to `["any"]` or empty, and the weight is `PatrolWeight` of the stored fields |
| PatrolEvent.PatrolEvent.AccumulateWeight | scripts/events_module/patrol/patrol_event.py:35-79 | the successive additions compute `PatrolWeight` |
| PatrolEvent.DefaultWeight | scripts/events_module/patrol/patrol_event.py:10-92 | a patrol with every default weighs 2 |
| PatrolEvent.ConstraintsRaiseWeight | scripts/events_module/patrol/patrol_event.py:44-79 | each rank bound adds 2, each relationship constraint 3, each skill or trait 1, a narrower cat range 1 per step, a biome or camp constraint 4 |
| PatrolEvent.FewerSeasonsWeighMore | scripts/events_module/patrol/patrol_event.py:50-54 | one season fewer weighs one more |
| PatrolEvent.PatrolEvent.NewCat | scripts/events_module/patrol/patrol_event.py:93-108 | true exactly when some outcome has a new-cat sublist containing "join" |
| PatrolEvent.PatrolEvent.OtherClan | scripts/events_module/patrol/patrol_event.py:110-122 | true exactly when some outcome changes another Clan's reputation |
| PatrolEvent.PatrolEvent.HerbsGiven | scripts/events_module/patrol/patrol_event.py:124-138 | the loop returns `HerbList` over the four outcome lists |
| PatrolEvent.NewHerbs | scripts/events_module/patrol/patrol_event.py:136 | added herbs come from the outcome and were not yet gathered |
| PatrolEvent.NewHerbsComplete | scripts/events_module/patrol/patrol_event.py:136 | every herb of the outcome is gathered afterwards |
| PatrolEvent.NewHerbsDistinct | scripts/events_module/patrol/patrol_event.py:136 | corrected, one outcome adds no herb twice |
| PatrolEvent.HerbListMembers | scripts/events_module/patrol/patrol_event.py:124-138 | a herb is listed exactly when some outcome gives it |
| PatrolEvent.HerbListDistinct | scripts/events_module/patrol/patrol_event.py:124-138 | corrected, the list has no duplicates |
| PatrolEvent.HerbListFirstSeen | scripts/events_module/patrol/patrol_event.py:124-138 | corrected, the list is the outcomes' herbs with each kept at its first occurrence only |
| PatrolEvent.HerbsDuplicatedAsWritten | scripts/events_module/patrol/patrol_event.py:136 | as written, an outcome giving moss twice lists moss twice |

## Left out

- `round(..., 2)` on the total is not modelled. Amounts are exact reals, so the total is the exact running sum.
- `nutrition_text` and the localized prey messages of `time_skip` are text only. The model keeps `max_score` and `current_score` and derives the percentage.
- The `take_random` shuffle of `remove_freshkill` is the `order` parameter. Any permutation of the four keys may be passed.
- `randint` in `get_frequency` is the `roll` parameter.
- `Cat` is a record of what the rules read. Its methods `is_ill`, `is_injured`, `not_working`, `get_parents` and `is_baby` are fields or predicates. Cats are compared by value, which for these records means by ID and attributes.
- `Cat.all_cats` and `Cat.fetch_cat` are not part of this model: they are the `all` parameter and `ClanCats.Fetch`. `game.clan` fields (game mode, season, biome, reputation, leader lives) are parameters too.
- The prey configuration is the `Config` parameter, with its requirement table, feeding order and condition increase. The Clan settings come from the same parameter. The constants module that loads them is not part of this model.
- FreshkillSpec.FeedPre: the KeyErrors and ZeroDivisionErrors of the source are preconditions. These are ranks missing from the requirement table inside feeding, cats without a record, and a non-positive requirement (the score setter divides by it). The source crashes there; the model does not follow it.
- Freshkill.FreshkillPile.constructor: a loaded pile must hold the four keys with non-negative amounts. The save format guarantees this, and a malformed save is not modelled.
- The need that `_feed_group` reads through `amount_food_needed` is computed once per feeding pass. It does not change during a pass, because it depends only on the Clan's cats and not on the pile.
- Freshkill.FreshkillPile.UpdateNeededFood: `Cat.fetch_cat(queen_id)` on a queen outside the Clan is skipped, as in the source. A queen ID that cannot be fetched at all cannot occur, because queens come from the registry.
- `event_for_tags` is modelled only for its mode and leader-life parts. The other tags read cat relationships and backstories, which are outside this model.
- Strings.Lower: only A-Z are lower-cased. Python's `str.lower` also maps non-ASCII capitals, and its Unicode case mapping is not modelled. The season names it is applied to are ASCII.
- TextAdjust.SelectiveReplace: an empty pattern is excluded by a precondition. There `find("", i)` returns `i` and the loop's `len(text) - i` never shrinks, so on a non-empty text the source loops forever.
- `pronoun_repl` is modelled only up to its guards. The pronoun lookup and the verb and adjective forms depend on language files.
- `get_possible_mates`, `save_clan_settings` and the file reading of `load_clan_settings` are not modelled. Loading receives the parsed file, or none when the file is absent. `get_possible_mates` depends on `is_potential_mate` of the unseen Cat class.
- PatrolEvent.PatrolEvent.constructor: `constants.SEASONS` is the `seasonCount` parameter. The patrol's text and art fields are stored and not interpreted.
- The relationship and cat-list filters of `event_filters.py` are not modelled, nor the prey-supply trigger there. The same goes for the UI, screens, pygame, threads, schema models, `consequences.py` and `generate_thoughts.py`: none of them carries the rules modelled here.

## Findings

| source | as written | input that shows it | evidently intended | confidence | as-written member | corrected member |
|---|---|---|---|---|---|---|
| scripts/clan_resources/freshkill.py:368-370 | the hungry cats are sorted by their `Nutrition` object, which defines no ordering, so Python raises TypeError | two warriors at 50% and 25% with the hungriest-first tactic | hungry cats fed lowest percentage first, as the docstring at line 346 says | high, not executed | FreshkillSpec.TwoHungryWarriorsRaise | FreshkillSpec.HungriestServedFirst |
| scripts/clan_package/get_clan_cats.py:110-113 | both bounds use `<=`, so only cats at least `age_range` moons younger are kept | a related, living cat of exactly the same age is not returned | cats whose age differs by at most `age_range` | high, not executed | ClanCats.SameAgeAsWrittenMissesTwin | ClanCats.SameAgeSymmetric |
| scripts/events_module/event_filters.py:98 | every "-" is stripped, including the one inside "leaf-bare" | `["-leaf-bare"]` in Leaf-bare admits the event | only the leading exclusion dash removed | high, not executed | EventFilters.LeafBareExclusionIgnored | EventFilters.SeasonIntendedMeaning |
| scripts/events_module/text_adjust.py:788-790 | an occurrence is skipped when any "{" precedes it and any "}" follows it, even across two tags | "a" in "{}a{}" is not replaced | skip only occurrences inside one brace group | medium, not executed | TextAdjust.BetweenTagsIsSkipped | TextAdjust.InsideBraceGroupMeaning |
| scripts/events_module/text_adjust.py:561-563 | `modify.remove("a")` removes the first "a" of the text, not the one before the abbreviation | "a x a c_n" becomes "x a an c_n" | "a x an c_n" | high, not executed | TextAdjust.ArticleRoundRemovesFirstA | TextAdjust.FixArticlesIdempotent |
| scripts/events_module/patrol/patrol_event.py:136 | each herb is checked against the list before the outcome's herbs are added, so one outcome's duplicates are kept | one outcome whose herbs are "moss", "moss" | every herb once, in first-seen order (also PatrolEvent.HerbListFirstSeen) | medium, not executed | PatrolEvent.HerbsDuplicatedAsWritten | PatrolEvent.HerbListDistinct |
