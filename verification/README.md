# Verification of the exercise generators, graders and protocols

This project models, in Dafny, the code the exercises rest on: the generators that
plant the answers, the engines and graders that compute and compare them, and the
small concurrent protocols of the test harnesses.  Run `dafny verify dfyconfig.toml`.

## What is modelled

**The PriceWatch stream and its as-of engine** (module 03).  The generator is
`catalog.dfy` (listings and their lifecycles), `shop_changes.dfy` (when renames and tier changes
happen) and `event_stream.dfy` (admin events, observations, and the two-cursor merge that
writes the file).  `entities.dfy`, `dedup.dfy`, `as_of.dfy` and `ground_truth.dfy`
are the answer engine: one parsing pass into dictionaries, finalisation into sorted
breakpoints, deduplication by stable sort and neighbour comparison, and attribute
look-up by binary search over slices of the sorted arrays.  `event_log.dfy` says what the
answers mean: the state of an entity at time t is the fold of its events with
event_time <= t in stable event_time order.  `lifecycle.dfy` holds the two lifecycle
questions, `pipeline.dfy` joins generator and engine end to end, from the draws to the answers.

**Scraped-price dumps** (modules 06 and 15).  `collision.dfy` is the resolver that nudges
scrape times to free seconds, `price_text.dfy` the two price printers and the parser,
`day_plan.dfy` the counts of a day, the lists built to them, and the books kept.

**Concurrent protocols** (modules 11, 12, 10).  `mock_peer.dfy`, `load_driver.dfy` and
`fan_out.dfy` model each protocol as the atomic steps between two awaits (or two writes)
and prove facts about every run of every set of handlers, workers or threads.  The class
methods are the code of a step; each is proved equal to the step function the run
theorems are about.

**Fast forms of simple specifications** (modules 05, 09, 02).  `top_prices.dfy`,
`duplicate_lines.dfy`, `duplicate_batch.dfy`, `order_split.dfy`.

**Graders** (modules 03 and 15).  `row_compare.dfy`, `row_orders.dfy`, `row_meaning.dfy`,
`pair_f1.dfy`, `label_f1.dfy`.

`basics.dfy`, `sequences.dfy` and `stable_sort.dfy` are the shared vocabulary.  The library primitives the
code uses (stable sort, lexsort, searchsorted and bisect, maximum.accumulate, reduceat,
list.insert, str.replace) are implemented and characterised, not assumed.

Random draws are arbitrary values in the range they are drawn from: either a choice with
nothing known but the range, or a parameter.  Money is integer cents, times are integers
(microseconds in the event generator, seconds elsewhere) or reals.

## Where the code and its documentation differ

- 03-data-modeling/README.md:99 promises that a shop's registration arrives before any
  other event of the shop, and line 102 that admin events of one entity arrive in event_time
  order.  Both hold for everything that concerns a listing, and for two changes of one kind.
  The first holds for a rename or tier change exactly unless the shop is one of the first two
  renamed (three tiered) ones and registered less than 300 seconds before day 250
  (`ShopChanges.RenameFollowsIff`, `ShopChanges.TierFollowsIff`).  A rename and a tier change of one
  shop keep their order exactly if the shop registered late enough for its two positions, by a
  limit computed from these (`ShopChanges.ChangesKeepOrderIff`); from the third renamed and the
  fourth tiered shop on, no registration time is late enough.
- 03-data-modeling/harness/events.py:192 says churn cases are forced so that the churn question never is
  empty.  Whatever is drawn for the lifecycles there is such a case exactly if six of the chosen
  listings have their earliest delist before day 580, or one has it from day 580 on and before
  day 700 (`Catalog.WorldChurnsIff`).  Five early listings alone are all relisted, and then no
  file that can be written has a row for that question (`Pipeline.FiveEarlyHasNoAnswer`).
- The engine's grouped look-up of a tier equals the fold exactly from the shop's registration on, and
  that of a category or brand from the product's first discovery on, if no change of that attribute
  precedes it in stable event_time order; a log where one does is `AsOf.EarlyPatchBreaksLookup`.
  Before the first breakpoint Python's index -1 silently selects the newest value.  The generator
  keeps every observation out of these cases.
- 11-python-concurrency/harness/peer.py:56 says the peak never exceeds the cap.  That holds
  exactly for caps that are not negative.  Line 54 says a request rejected with 429 never counts as in
  flight; one rejected by the rate check does.  The promise holds on every run exactly for a peer
  without a rate or without room for any request (`MockPeer.NeverCountsRejectedIff`), and such a
  request can set the peak (`MockPeer.RejectionRaisesPeak`).  Line 29 speaks of *more than*
  `rate_per_sec` earlier requests; the code turns a request away when it together with the earlier
  ones exceeds the rate, and the two rules differ exactly where the request itself is the one too
  many (`MockPeer.DocumentedRateIff`).
- 06-pipelines-and-orchestration/generate.py:159 is silent on full days: with 86400 earlier records
  in one group the search for a free second would not end (`Collision.SearchSucceedsIff`).  A record
  that was alone on its second can move, because an earlier record was nudged onto it
  (`Collision.NudgeCascades`): what never moves is the record that finds its second free.
- `norm_price` undoes every printer that writes cents.  Dot-grouped whole amounts, which its
  documentation does not list, read back exactly below one thousand (`PriceText.DotGroupsReadBackIff`).
- `compare_rows` is sound always, but its greedy match can reject two lists that do match
  (`RowCompare.GreedyCanMiss`).  Lists that can be paired are accepted in every order of their rows
  exactly if no two rows of each side match crosswise but for one combination
  (`RowOrders.EveryOrderSucceedsIff`).
- The duplicate batch's distinct versions per natural key need the drawn key tuples to be distinct
  (`DuplicateBatch.DistinctVersionsIff`, `DuplicateBatch.KeysCanClash`); `reduceat` totals need an item in every order
  (`OrderSplit.TotalsAreOwnIff`); macro F1 sees only the labels it is given (`LabelF1.UnlistedEscapes`).

## What no documentation mentions

- 03-data-modeling/harness/events.py:282-284 cuts the products to change to their limit before it drops
  repetitions.  With as many listed products as the limit, the full number is changed exactly if none
  of the four early ones is among the first of the drawn order that still fit
  (`EventStream.FullTargetsIff`); otherwise fewer are, although enough are listed.

## Model

| member | source | states |
|---|---|---|
| StableSort.SortStable | 03-data-modeling/harness/ground_truth.py:252 | the sort keeps elements of equal key in their original order, key by key |
| StableSort.StableSortUnique | 03-data-modeling/harness/ground_truth.py:252 | sortedness and stability determine the sort: any sorted list that agrees with the input key by key is its stable sort |
| StableSort.BisectRightSplits | 03-data-modeling/harness/ground_truth.py:317 | on an ascending array the binary search returns the boundary between values at most t and values above |
| AsOf.LookupIsLastStamp | 03-data-modeling/harness/ground_truth.py:118-120 | for any stamps: the looked-up value is that of the last stamp not after t in stable order, and without such a stamp `asof` gives None while the grouped index -1 gives the newest value |
| AsOf.TierLookupIsFold | 03-data-modeling/harness/ground_truth.py:315-318 | for any log that files a tier for the shop: the fold has a state at t and the looked-up tier is its tier, if and only if the shop is registered by t |
| AsOf.NameLookupIsFold | 03-data-modeling/harness/ground_truth.py:118-120 | for any log that files a name for the shop: the fold has a state at t and `asof` gives its name, if and only if the shop is registered by t |
| AsOf.NameNoneIff | 03-data-modeling/harness/ground_truth.py:118-120 | `asof` gives None if and only if t is before every registration and rename of the shop |
| AsOf.FieldLookupIsFold | 03-data-modeling/harness/ground_truth.py:160-170 | when no change of the attribute precedes the product's first discovery in stable event_time order: the looked-up brand or category is the folded one exactly from the first discovery on |
| AsOf.EarlyPatchBreaksLookup | 03-data-modeling/harness/ground_truth.py:160-170 | a concrete log with a change stamped before the discovery, on which the breakpoints are unsorted and the look-up differs from the fold |
| EventLog.ShopKnownIff | 03-data-modeling/harness/ground_truth.py:10-12 | the fold of a shop's events has a state if and only if there is a registration among them |
| EventLog.ShopIsLatest | 03-data-modeling/harness/ground_truth.py:10-12 | the folded name is the one last registered or taken, the tier the one last registered or moved to, the country the one last registered |
| EventLog.FieldIsLatest | 03-data-modeling/harness/ground_truth.py:10-12 | a folded attribute has the value of the last change after the first discovery that names it, or else the one first discovered |
| Entities.Entities.Absorb | 03-data-modeling/harness/ground_truth.py:191-217 | one admin event changes exactly the dictionaries it concerns, by one appended stamp; an unknown type changes none and is reported |
| Entities.Entities.AbsorbNext | 03-data-modeling/harness/ground_truth.py:179-217 | dictionaries faithful to a log are, after one event, faithful to the longer log; an unknown type is reported |
| Entities.Entities.FilePatches | 03-data-modeling/harness/ground_truth.py:209-212 | every changed field gets one patch, whatever the order of the dictionary's items |
| Entities.Entities.Finalize | 03-data-modeling/harness/ground_truth.py:149-172 | sorting in place turns the files into the breakpoint tables of the log: one per shop and per discovered product, transitions in stable time order |
| Entities.ParseEvents | 03-data-modeling/harness/ground_truth.py:175-229 | the pass fails exactly on an unknown event type; otherwise it yields the finalised tables of the log and, in arrival order, one observation per price line with that line's shop, product, time, arrival, price and currency |
| Dedup.DedupKeepsFirstArrival | 03-data-modeling/harness/ground_truth.py:252-263 | stable sort plus comparison with the predecessor keeps, strictly sorted, exactly the first element of every key, for any list and key |
| Dedup.KeptCount | 03-data-modeling/harness/ground_truth.py:281 | the kept rows are as many as there are distinct keys |
| Dedup.EncodeFaithful | 03-data-modeling/harness/ground_truth.py:236-245 | encoding through the sorted code tables is undone by them and keeps the order of (shop, product, event_time) |
| Dedup.FlagNew | 03-data-modeling/harness/ground_truth.py:260-262 | the mask filled in place flags exactly the rows that are first or differ in key from the row before |
| Dedup.BuildArrays | 03-data-modeling/harness/ground_truth.py:232-285 | encode, lexsort, mask and index yield the arrays that BuildDeduplicates is about; only the empty input fails |
| Dedup.BuildDeduplicates | 03-data-modeling/harness/ground_truth.py:232-285 | for every non-empty input the arrays, decoded, are strictly ascending by key and hold the first-arriving copy of each distinct (shop, product, event_time), no more and no less |
| GroundTruth.SlicesPartition | 03-data-modeling/harness/ground_truth.py:304-308 | the slices are adjacent, non-empty, cover all rows, hold one listing each, and no listing occurs in two of them |
| GroundTruth.WriteSlice | 03-data-modeling/harness/ground_truth.py:315-318 | one slice of the output is overwritten with the looked-up values, the rest of it unchanged |
| GroundTruth.SliceDrops | 03-data-modeling/harness/ground_truth.py:331-338 | exactly the times of at least 20 % drops between consecutive prices of the listing are appended to the product's list, in order |
| GroundTruth.DropTimesAre | 03-data-modeling/harness/ground_truth.py:331-338 | the filed times of a product are exactly those at which a row costs, in dollars, at most 80 % of the row before it of the same listing |
| GroundTruth.DollarValue | 03-data-modeling/harness/common.py:65-69 | a dollar, a euro and a pound are worth 1.00, 1.08 and 1.27 dollars |
| GroundTruth.EnrichAndGroupByListing | 03-data-modeling/harness/ground_truth.py:288-340 | every row carries what the tables of its own shop and product give at its time, drops are filed per product, and a missing table or empty input is an error |
| GroundTruth.LookupIsFold | 03-data-modeling/harness/ground_truth.py:315-329 | on logs that meet the stream's guarantees, tier, category, brand and country of every observation are the folded ones |
| GroundTruth.CountryIsFold | 03-data-modeling/harness/ground_truth.py:319 | the one country filed for a shop that registers once is the folded country from its registration on |
| GroundTruth.ArraysHoldFirstLines | 03-data-modeling/harness/ground_truth.py:180-188 | deduplicated arrays of a transcribed log hold its first price lines, each as it stands in the log, and miss none |
| GroundTruth.ComputeAsOf | 03-data-modeling/harness/ground_truth.py:344-346 | parse, deduplicate, enrich: on every stream that meets the guarantees and observes something the engine succeeds; row by row, in (shop, product, time) order, the arrays hold the price, arrival and currency of the first line of the stream with that shop, product and time, every price line has its row, and each row carries the folded attributes |
| Lifecycle.Replay | 03-data-modeling/harness/ground_truth.py:353-356 | the loop over transitions ends active exactly if the last one is a relist or there is none; when inactive it holds the last transition's time, and it holds some delist time exactly if there was a delist |
| Lifecycle.TransitionsMirrorLifecycle | 03-data-modeling/harness/ground_truth.py:171-172 | the last filed and sorted transition is the last event of the listing's lifecycle in stable event_time order, and decides whether the fold is active |
| Lifecycle.CountActive | 03-data-modeling/harness/ground_truth.py:350-360 | q01: each shop's count is the number of discovered listings whose fold over the log is active, with no zero rows |
| Lifecycle.ChurnRows | 03-data-modeling/harness/ground_truth.py:514-529 | q12 by itself: the rows are exactly the listings whose last transition is a delist within 2025 (1735689600 to 1767225599 in epoch seconds), sorted, one each; its own check fails exactly if there are none |
| Catalog.BuildListings | 03-data-modeling/harness/events.py:168-187 | the listings built are those of the draws, product by product, in order |
| Catalog.ListingsAreDrawn | 03-data-modeling/harness/events.py:171-186 | a listing exists if and only if it is the one some draw stands for, that is, its discovery is not within the last 30 days |
| Catalog.DiscoveredWhen | 03-data-modeling/harness/events.py:176-179 | a listing is discovered the drawn waiting time after the later of its product's birth and the day after its shop's registration, unless that is in the last 30 days |
| Catalog.ListingsDistinct | 03-data-modeling/harness/events.py:173-174 | no two listings are of the same shop and product |
| Catalog.ListingsFresh | 03-data-modeling/harness/events.py:176-178 | every listing is discovered at least a day after its shop's registration, not before its product's birth, and at the latest 30 days before the end |
| Catalog.DrawLifecycle | 03-data-modeling/harness/events.py:198-224 | the branches for one chosen listing compute the step function NextLife of the listing, the two counters and the draws |
| Catalog.LifeOfOne | 03-data-modeling/harness/events.py:198-224 | for every draw: delisted if and only if there is room, at least 30 days after discovery, relisted at least 10 days later; recovered if early while fewer than five are; otherwise churned if its earliest delist is before day 700 while fewer than four are, and then gone for good in 2025 |
| Catalog.WhoIsForced | 03-data-modeling/harness/events.py:201-218 | a chosen listing stays exactly if it was discovered in the last 50 days; while fewer than five are, exactly those discovered before day 550 are recovered; while fewer than four are, exactly the others discovered before day 670 are churned |
| Catalog.RecoveredAre | 03-data-modeling/harness/events.py:203-211 | the lives that can be drawn for a recovered listing: a delist from day 400 (and 30 days after discovery) to day 580, a relist ten to fifty days later, and no others |
| Catalog.ChurnedAre | 03-data-modeling/harness/events.py:212-218 | those of a churned listing: a delist from day 400 to day 700 and no relist |
| Catalog.FreelyDrawnAre | 03-data-modeling/harness/events.py:219-224 | those of any other: a delist up to 20 days before the end, a relist ten to 75 days later if that is not in the last five days, or none |
| Catalog.AssignLifecycle | 03-data-modeling/harness/events.py:190-224 | in place: the listings become those of the step function applied along the chosen ones |
| Catalog.LivesKept | 03-data-modeling/harness/events.py:190-224 | for every draw exactly the chosen listings with room get a delist, and nothing else of any listing changes |
| Catalog.ForcedAre | 03-data-modeling/harness/events.py:203-218 | for every draw the counters are the numbers of candidates, cut off at five and four |
| Catalog.ChurnForcedIff | 03-data-modeling/harness/events.py:191-192 | some listing is delisted for good in 2025 whatever the lifecycle draws if and only if six early listings or one with its earliest delist from day 580 to day 700 are among the chosen |
| Catalog.BuildWorld | 03-data-modeling/harness/events.py:495-498 | listings drawn and lives drawn on top of them: the world is a function of the draws and meets everything the later stages need |
| Catalog.DelistCountIs | 03-data-modeling/harness/events.py:194-196 | ten listings are chosen, or all if there are fewer, or 15 % if that is more |
| Catalog.WorldChurnsIff | 03-data-modeling/harness/events.py:191-192 | the same equivalence for the built world and the listings it chooses |
| Catalog.FiveEarlyNeverChurns | 03-data-modeling/harness/events.py:191-192 | a smallest world with five early listings, all of which are relisted for every draw |
| EventStream.RenameShop | 03-data-modeling/harness/events.py:242-252 | a renamed shop gets exactly the one rename its draw stands for, with its suffix, or none if that is out of the span |
| EventStream.ChangeTier | 03-data-modeling/harness/events.py:255-271 | a tiered shop moves at the drawn time to a tier other than its own, and maybe 60 days later or more to one other than that |
| EventStream.EmitRenames | 03-data-modeling/harness/events.py:241-252 | the shops drawn are renamed in their order, the i-th at a time its position allows and with its position's suffix unless that time is out of the span, and no other shop is |
| EventStream.EmitTierChanges | 03-data-modeling/harness/events.py:254-271 | the shops drawn change tier in their order, each at a time its position allows, a second change coming 60 days later or more and to yet another tier, and no other shop does |
| EventStream.ChangeProduct | 03-data-modeling/harness/events.py:288-312 | the change comes at the drawn time, in the window of the first three or up to 20 days before the end, and gives one field another value (the brand for the first three), unless it is in the last five days; a second one revises the title 40 to 340 days later |
| EventStream.EmitAttrChanges | 03-data-modeling/harness/events.py:286-312 | every target changes at a time drawn for its position, from 30 days after its first discovery on, and no other product does |
| EventStream.EmitListingEvents | 03-data-modeling/harness/events.py:314-331 | but for their arrivals the emitted events are exactly the discovery, delist and relist of each listing in order |
| EventStream.BuildAdminEvents | 03-data-modeling/harness/events.py:227-332 | every shop is registered under its own code, name, country and tier; the shops drawn are renamed and moved, and the tenth of the products selected is changed, as stated for these; every listing is discovered with its product's attributes, delisted and relisted at its times; there are no other events of these kinds; every arrival is in its stated delay; changes of one kind to one entity are at least 40 days apart |
| EventStream.BuildObservations | 03-data-modeling/harness/events.py:335-408 | listing k is observed at second t if and only if one of its drawn times rounds to t at which it is not delisted yet or relisted at least six hours ago; copies of one observation agree on price and currency; the result is sorted by arrival; it fails exactly if nothing is observed |
| EventStream.MaskedIffOffSale | 03-data-modeling/harness/events.py:353-356 | the mask removes a time of the observable span exactly if the listing is delisted by then and not relisted six hours before |
| EventStream.TimesReach | 03-data-modeling/harness/events.py:349-352 | the times that can be drawn for a listing are those from six hours after its discovery to an hour before the end |
| EventStream.WriteEvents | 03-data-modeling/harness/events.py:416-448 | the two-cursor merge equals the stable sort by arrival of the sorted admin side followed by the observations, with both times rounded half-even |
| EventStream.StampedIsNearest | 03-data-modeling/harness/events.py:411-420 | a written record has each of its two times at the nearest whole second, the even one of two, and is otherwise unchanged |
| Catalog.RoundSecondIsNearest | 03-data-modeling/harness/events.py:357 | rounding gives the one nearest second, the even one of two equally near |
| EventStream.MergeInterleaves | 03-data-modeling/harness/events.py:426-443 | the merge is in arrival order and selecting either side from it gives that side back whole and in order |
| EventStream.MergeTies | 03-data-modeling/harness/events.py:427 | among events that arrive together the admin side comes first, each side in its own order |
| EventStream.PromisedArrivalOrder | 03-data-modeling/harness/events.py:12-15 | for every draw: a shop's registration arrives strictly before all events of its listings, and before its renames and tier changes unless it is less than 300 seconds before day 250; a discovery before the listing's observations, delist and relist; a delist before its relist |
| EventStream.PromisedFileOrder | 03-data-modeling/harness/events.py:12-15 | so in the written file no event stands at or after one it must precede |
| EventStream.ChangesArriveInOrder | 03-data-modeling/harness/events.py:15-16 | two changes of one kind to one shop or product arrive in event_time order |
| ShopChanges.ArrivesLaterIff | 03-data-modeling/harness/events.py:230-232 | an event is certain to arrive after an earlier one if and only if it happens at least 300 seconds later |
| ShopChanges.RenamesAre | 03-data-modeling/harness/events.py:241-250 | the renames that can be drawn for a registration time and position are exactly the times of an interval |
| ShopChanges.FirstTiersAre | 03-data-modeling/harness/events.py:254-263 | the same for first tier changes |
| ShopChanges.RenameFollowsIff | 03-data-modeling/harness/events.py:13 | every rename that can be drawn is certain to arrive after the registration if and only if the shop is not among the first two renamed or did not register less than 300 seconds before day 250 |
| ShopChanges.TierFollowsIff | 03-data-modeling/harness/events.py:13 | the same for first and second tier changes and the first three tiered shops |
| ShopChanges.ChangesKeepOrderIff | 03-data-modeling/harness/events.py:15-16 | a shop's rename and tier changes are certain to arrive in event_time order if and only if it registered no earlier than the limit of its two positions |
| EventStream.ShopChangesInOrder | 03-data-modeling/harness/events.py:15-16 | an emitted rename and tier change of one shop stem from two positions, and arrive in event_time order if the shop registered late enough for these |
| EventStream.AttrTargets | 03-data-modeling/harness/events.py:280-284 | the products to change are the first occurrences among four early ones and the listed ones in drawn order, cut to the limit before repetitions are dropped |
| EventStream.TargetsAre | 03-data-modeling/harness/events.py:280-284 | for any drawn order: the targets are the early four and, of the listed products that still fit, those not among these |
| EventStream.EarlyAre | 03-data-modeling/harness/events.py:281-282 | the early ones are the first four products, in the dictionary's order, discovered in the first 120 days |
| EventStream.FullTargetsIff | 03-data-modeling/harness/events.py:280-284 | with as many listed products as the limit, that many are changed if and only if no early one is among the first of the order that still fit |
| EventStream.FewerTargetsThanListed | 03-data-modeling/harness/events.py:280-284 | nine listings of the generator with the smallest limit, eight, for which only four products are changed |
| ShopChanges.RenameCanPrecedeRegistration | 03-data-modeling/harness/events.py:13 | a possible registration time for which every draw of the first rename can arrive before the registration |
| ShopChanges.RenameAndTierChangeCanSwap | 03-data-modeling/harness/events.py:15-16 | possible draws for one shop whose rename and tier change can arrive against event_time order |
| Pipeline.FileWellformed | 03-data-modeling/harness/events.py:12-17 | every generated file registers no shop twice, observes only registered shops and discovered products, and changes no product before its discovery |
| Pipeline.FileRegistersEach | 03-data-modeling/harness/events.py:234-239 | every shop is registered in the file exactly once |
| Pipeline.FileConflictFree | 03-data-modeling/harness/events.py:17 | no two lines of a generated file give different prices for one (shop, product, event_time) |
| Pipeline.GenerateAndEnrich | 03-data-modeling/harness/ground_truth.py:343-346 | from the draws: build the world, emit, write, parse, deduplicate, enrich; the arrays hold the first line of each shop, product and time with its price and currency, each is enriched with the fold of the file, and the only failure is a stream with nothing to observe |
| Pipeline.ChurnedIff | 03-data-modeling/harness/ground_truth.py:514-529 | in every file that can be written for a world, a listing is churned at a time if and only if the generator delisted it for good in 2025, at that time in whole seconds |
| Pipeline.GenerateAndAskChurn | 03-data-modeling/harness/ground_truth.py:514-528 | from the draws, q12 by itself: its rows are exactly the listings the generator churned; there are none if and only if it churned none, and never if the chosen listings force one |
| Pipeline.FiveEarlyHasNoAnswer | 03-data-modeling/harness/events.py:191-192 | no file that can be written for the five early listings churns a listing |
| Pipeline.AskFiveEarly | 03-data-modeling/harness/ground_truth.py:514-528 | on a file generated for that world, for every lifecycle draw, q12 by itself collects no row |
| Collision.NearestFreeSecond | 06-pipelines-and-orchestration/generate.py:172-179 | the outward search ends and returns a nearest free second of the day, the later one on a tie |
| Collision.ResolveValidKeyCollisions | 06-pipelines-and-orchestration/generate.py:158-187 | in place: each record keeps its second if free at that point, else takes the nearest free one; the count is that of the records moved |
| Collision.SearchSucceedsIff | 06-pipelines-and-orchestration/generate.py:174-179 | over a resolved prefix a free second exists for the next record if and only if fewer than 86400 records of its group came before |
| Collision.ResolutionDistinct | 06-pipelines-and-orchestration/generate.py:159-161 | afterwards no two records of a group share a second |
| Collision.ResolutionKeepsRecords | 06-pipelines-and-orchestration/generate.py:161-164 | only seconds change, none leaves the day, and a record changes if and only if its second is already held at that point |
| Collision.MovedIff | 06-pipelines-and-orchestration/generate.py:158-187 | a record moves if and only if an earlier one of the same source and URL ends on its second, and ends on a second no earlier one of these holds |
| Collision.ResolutionUnique | 06-pipelines-and-orchestration/generate.py:158-187 | the rules determine the result: two resolutions of one list are equal |
| Collision.ResolvedIsFixed | 06-pipelines-and-orchestration/generate.py:168-171 | a list without collisions is its own resolution, with nothing moved |
| Collision.NudgeCascades | 06-pipelines-and-orchestration/generate.py:168-186 | a concrete list on which the only record stamped with its second moves |
| PriceText.ParsePrice | 15-llm-in-pipelines/harness/common.py:228-283 | the branch-by-branch rewriting of the text computes NormPrice, the function the round trips are about |
| PriceText.NormPriceOfNumeric | 15-llm-in-pipelines/harness/common.py:246-255 | stripping blanks and codes is absorbed by the final filter: the result depends on digits, separators and minus signs alone |
| PriceText.NoDigitNoPrice | 15-llm-in-pipelines/harness/common.py:236-237 | a text without a digit has no price |
| PriceText.OtherInputs | 15-llm-in-pipelines/harness/common.py:241-244 | nothing has no price and a number is its own |
| PriceText.DigitsRead | 15-llm-in-pipelines/harness/common.py:277-280 | digits alone are the whole number they spell |
| PriceText.PointReads | 15-llm-in-pipelines/harness/common.py:277-280 | for any digits before and behind a point: the decimal they spell |
| PriceText.CommaReads | 15-llm-in-pipelines/harness/common.py:268-276 | for any digits before and behind the only comma: a decimal comma if there are exactly two behind it, otherwise the digits without it |
| PriceText.LastSeparatorDecides | 15-llm-in-pipelines/harness/common.py:262-267 | with a comma and a point between digits, in either order, the last one is the decimal point and the other is dropped |
| PriceText.TwoPointsFail | 15-llm-in-pipelines/harness/common.py:277-282 | digits with two points are no price |
| PriceText.MinusNegates | 15-llm-in-pipelines/harness/common.py:257-258 | any positive number of minus signs in front negates the price once |
| PriceText.InnerMinusFails | 15-llm-in-pipelines/harness/common.py:258-282 | a minus sign behind anything else is no price |
| PriceText.SurroundingsIgnored | 15-llm-in-pipelines/harness/common.py:232-236 | a numeric text means the same inside any surroundings without digits, separators or minus signs |
| PriceText.ChainIsSwap | 06-pipelines-and-orchestration/generate.py:195 | the three chained replacements exchange comma and dot simultaneously if and only if the text has no NUL |
| PriceText.FormatRoundTrip | 06-pipelines-and-orchestration/generate.py:190-196 | for every amount of cents, currency and style the parser returns the amount printed |
| PriceText.PriceStrRoundTrip | 15-llm-in-pipelines/generate.py:222-228 | for every amount of cents and currency the parser returns the amount printed |
| PriceText.CommaEveryThird | 06-pipelines-and-orchestration/generate.py:193 | in a grouped number the k-th character from the right is a comma if and only if k mod 4 is 3 |
| PriceText.FormatInjective | 06-pipelines-and-orchestration/generate.py:190-196 | two prints are the same text only for the same amount, currency and style |
| PriceText.PriceStrInjective | 15-llm-in-pipelines/generate.py:222-228 | two prints are the same text only for the same amount and currency |
| PriceText.FormatLooks | 06-pipelines-and-orchestration/generate.py:190-196 | the one style starts with the sign of the currency and has a point before the cents, the other ends in a blank and the code and has a comma there |
| PriceText.PriceStrLooks | 15-llm-in-pipelines/generate.py:222-228 | dollars and pounds start with their sign and have a point, euros end in a blank and the sign and have a comma |
| PriceText.WholeGroupsReadBack | 15-llm-in-pipelines/harness/common.py:268-276 | every comma-grouped whole amount reads back |
| PriceText.DotGroupsReadBackIff | 15-llm-in-pipelines/harness/common.py:277 | a dot-grouped whole amount reads back if and only if it is below one thousand |
| DayPlan.RoundsToNearestEven | 06-pipelines-and-orchestration/generate.py:425-430 | the rounding is the one nearest integer, even when two are equally near |
| DayPlan.PlanFeasible | 06-pipelines-and-orchestration/generate.py:422-431 | for every total and day the counts are non-negative and add up to the total, late ones are at most the valid ones; fresh records exist as soon as the day has a line, late ones exactly from 17 valid records on |
| DayPlan.PlanRates | 06-pipelines-and-orchestration/generate.py:425-430 | 0.4 % of the lines are malformed, 2 % duplicates, 1 % of the remaining records invalid and, but for the first day, 3 % of the valid ones late, each to within half a record |
| DayPlan.ReasonRates | 06-pipelines-and-orchestration/generate.py:300-309 | 30 % of the invalid records lack a URL, 30 % have a bad price, 20 % an unknown currency, each to within half a record, and the rest a bad time |
| DayPlan.BucketsShareOut | 06-pipelines-and-orchestration/generate.py:300-309 | for every count the four reason buckets are non-negative, sum to it, and stray from their shares by at most half a record (the last by one and a half) |
| DayPlan.GenerateInvalid | 06-pipelines-and-orchestration/generate.py:295-371 | as many lines as asked for, all invalid, with exactly the bucket's count of each reason |
| DayPlan.BooksConserve | 06-pipelines-and-orchestration/generate.py:475-482 | the three currencies' counts and sums add up to the number of records and to all the money |
| DayPlan.MartAgrees | 06-pipelines-and-orchestration/generate.py:455-471 | the books read back from the lines agree with the planted ones on every count, and on the sums where prices are numbers |
| DayPlan.InsertAnywhere | 06-pipelines-and-orchestration/generate.py:494-500 | inserting lines one by one at drawn positions loses and invents none |
| DayPlan.GenerateDay | 06-pipelines-and-orchestration/generate.py:433-520 | the file consists of the base, the copied and the malformed lines planned, and report, pairs and both sets of books are those of the records drawn |
| DayPlan.ReportTruthfulIff | 06-pipelines-and-orchestration/generate.py:507-518 | every figure of the report is what a count over the lines gives, if and only if the day needs no late records or has a day before it to repeat |
| DayPlan.RunDay | 06-pipelines-and-orchestration/generate.py:416-526 | after a day with records the report is true and meets the rates; the file's valid lines show the pair, currency and price drawn for each, the late ones pairs of the day before, with text prices from the twelfth day on; both sets of currency books cover them, the one read back adding up exactly what these lines show |
| DayPlan.Generate | 06-pipelines-and-orchestration/generate.py:416-526 | all fourteen reports are true of their files, which have the lines wanted; late records repeat pairs of the day before; each category's count is that of its valid records over the run, and the counts add up to all of them |
| MockPeer.Peer.Arrive | 11-python-concurrency/harness/peer.py:113-135 | from arrival to the first await or the 429: the new counters and deque are AfterArrive of the old ones |
| MockPeer.Peer.Resume | 11-python-concurrency/harness/peer.py:139-150 | from wake-up to the reply, with the decrement on every way out |
| MockPeer.CountersAre | 11-python-concurrency/harness/peer.py:139-150 | on every run the injected errors are exactly the wake-ups with a roll below the error rate, the others are served or raise by whether the body can be encoded, and requests and cancellations are all counted |
| MockPeer.ErrorsGrowWithRate | 11-python-concurrency/harness/peer.py:139-141 | rate zero injects nothing, rate one turns every wake-up into an error, and on the same steps a larger rate never injects fewer |
| MockPeer.ReplyIs | 11-python-concurrency/harness/peer.py:139-150 | a wake-up is answered with the error exactly for a roll below the rate, and otherwise served exactly if the body can be encoded |
| MockPeer.EveryRunCounted | 11-python-concurrency/harness/peer.py:110-150 | on every interleaving of arrivals, wake-ups and cancellations: in_flight is the number of suspended handlers, at most the peak, which is at most a non-negative cap, and total_requests = throttled + errors + served + raised + cancelled + in_flight |
| MockPeer.EveryPeakAttained | 11-python-concurrency/harness/peer.py:122-125 | on every run the recorded peak is the largest number in flight right after the gate: no passing arrival met more, and one met exactly that |
| MockPeer.NeverCountsRejectedIff | 11-python-concurrency/harness/peer.py:54-55 | no request answered with 429 is ever counted as in flight, on any run, if and only if there is no rate or the cap leaves no room for a request |
| MockPeer.RejectionRaisesPeak | 11-python-concurrency/harness/peer.py:54-55 | a run with one suspended handler on which a request rejected by the rate check raises the peak to two |
| MockPeer.PeakWithinCapIff | 11-python-concurrency/harness/peer.py:54-57 | the peak respects the cap on a run if and only if the cap is not negative |
| MockPeer.EveryRunWindowed | 11-python-concurrency/harness/peer.py:127-132 | on every run with a non-decreasing clock the deque holds exactly the checks, accepted or rejected, of the second ending at the latest check |
| MockPeer.RateSafety | 11-python-concurrency/harness/peer.py:127-135 | on every such run no closed interval of one second admits more than rate_per_sec requests |
| MockPeer.RejectedIff | 11-python-concurrency/harness/peer.py:133-135 | a check is turned away if and only if it and the checks of the second before it exceed the rate |
| MockPeer.ThrottledIff | 11-python-concurrency/harness/peer.py:113-135 | on every run a request gets 429 if and only if as many handlers as the cap are suspended, or it and the checks of the second before it exceed the rate |
| MockPeer.DocumentedRateIff | 11-python-concurrency/harness/peer.py:29-32 | the code and the documented rule agree on a request if and only if it is not itself the one too many |
| MockPeer.SecondRequestRejected | 11-python-concurrency/harness/peer.py:29-32 | a run on which they disagree |
| LoadDriver.PercentileSeparates | 12-api-engineering/harness/load.py:33-42 | samples at or before the percentile's position are no larger, those at or after it no smaller, so it lies between minimum and maximum |
| LoadDriver.PercentileMonotone | 12-api-engineering/harness/load.py:33-42 | a larger percentage never gives a smaller percentile |
| LoadDriver.PercentileIs | 12-api-engineering/harness/load.py:33-42 | with a hundred steps from each value to the next, the p-th percentile of n values lies p * (n - 1) steps from the first, on the line through its neighbours; of no values it is zero |
| LoadDriver.Driver.Claim | 12-api-engineering/harness/load.py:105-107 | a request is claimed if and only if some remain, and then exactly one fewer does |
| LoadDriver.Driver.Finish | 12-api-engineering/harness/load.py:96-100 | one latency is recorded and one of the two counters grows |
| LoadDriver.Driver.Report | 12-api-engineering/harness/load.py:121-134 | the sample is sorted in place; the report has its size, the requests a second over the elapsed time (zero for no time), and its 50th, 95th and 99th percentiles |
| LoadDriver.EveryRunAccounted | 12-api-engineering/harness/load.py:102-108 | on every interleaving: remaining + awaited + measured requests = requests, ok + errors = measured, and the steps taken and left add up to a fixed number |
| LoadDriver.CompleteAfterExactly | 12-api-engineering/harness/load.py:102-115 | no run is longer than two steps a request and one a worker, and the run is complete exactly at that length |
| LoadDriver.NeverStuck | 12-api-engineering/harness/load.py:102-108 | a run that is not complete can go on |
| LoadDriver.CompleteRunIssuesAll | 12-api-engineering/harness/load.py:84-115 | with a worker, every complete run ends with total = ok + errors = max(requests, 0); without one nothing is issued |
| LoadDriver.SampleIsReplies | 12-api-engineering/harness/load.py:96-100 | the sample is the replies' latencies in order of return and ok counts exactly the successful ones |
| LoadDriver.ReportMeaning | 12-api-engineering/harness/load.py:121-134 | in the report of a complete run every request is counted once, rate and percentiles are those of the latencies of its replies, p50 <= p95 <= p99, and all of them lie within the sample |
| LoadDriver.ReportIgnoresInterleaving | 12-api-engineering/harness/load.py:121-134 | runs whose replies are the same up to order report the same |
| FanOut.SlotOrder | 10-nosql-patterns/harness/common.py:204 | slots follow (worker, call) order, so two calls share a slot only if they are the same call |
| FanOut.Board.Finish | 10-nosql-patterns/harness/common.py:205-212 | a call writes its value or its exception into its own slot and nothing else |
| FanOut.Board.Gather | 10-nosql-patterns/harness/common.py:217-220 | the first error in slot order is raised, otherwise the results are returned |
| FanOut.EveryCallInItsSlot | 10-nosql-patterns/harness/common.py:202-212 | on every thread schedule each slot holds the outcome of its own call once that call is made, and nothing before |
| FanOut.WrittenOnce | 10-nosql-patterns/harness/common.py:204-212 | no write of any schedule meets a slot already written |
| FanOut.ScheduleLength | 10-nosql-patterns/harness/common.py:214-215 | a complete schedule has made exactly workers * per_worker calls |
| FanOut.AllValuesInOrder | 10-nosql-patterns/harness/common.py:194-195 | without a failure the caller gets every value at the place of its (worker, call) |
| FanOut.FirstFailureRaised | 10-nosql-patterns/harness/common.py:197-199 | with failures the caller gets the error of the least failing (worker, call), however late it happened |
| FanOut.TimingIrrelevant | 10-nosql-patterns/harness/common.py:186-222 | two complete schedules in which every worker got the same outcomes call by call give the same answer |
| TopPrices.GroundTruth.UpdateDedup | 05-distributed-processing-spark/generate.py:236-244 | after any chunk every buffer has at most 200 entries and the same top as the whole stream so far |
| TopPrices.GroundTruth.FinalizeTop | 05-distributed-processing-spark/generate.py:246-251 | the result is the top of a full sort of the stream, however it was cut into chunks: at most three entries in descending (price, product) order, each of a successful row of the source, and no such row left out that ranks before one of them or that there was room for |
| TopPrices.InsertTake | 05-distributed-processing-spark/generate.py:241-244 | cutting a sorted list and inserting later gives the same first entries as inserting into the whole |
| TopPrices.TopIsLargest | 05-distributed-processing-spark/generate.py:249 | the top is part of the stream, has N entries if there are as many, and nothing left out ranks before any of it |
| TopPrices.EntriesAreRows | 05-distributed-processing-spark/generate.py:236-240 | a source's entries are the prices and products of its successful rows, as often as these occur |
| TopPrices.TopIgnoresOrder | 05-distributed-processing-spark/generate.py:236-251 | the top does not depend on the order of the stream |
| DuplicateLines.InsertDuplicates | 05-distributed-processing-spark/generate.py:399-401 | back-to-front insertion yields the woven text: every duplicate drawn for p stands between original lines p-1 and p |
| DuplicateLines.InsertionKeepsAndAdds | 05-distributed-processing-spark/generate.py:393-402 | the original lines are an in-order subsequence and the contents are the originals plus the duplicates, however ties are ordered |
| DuplicateLines.BlockContents | 05-distributed-processing-spark/generate.py:398-401 | the block before a line holds exactly the duplicates drawn for its position |
| DuplicateBatch.RunningMaximumIs | 09-olap-clickhouse-duckdb/generate.py:431 | the accumulated maximum at a position is one of the elements so far and no smaller than any |
| DuplicateBatch.RunningMaximumIsGroupStart | 09-olap-clickhouse-duckdb/generate.py:430-431 | over the start indexes it is the start of the group at hand |
| DuplicateBatch.RunningMaximumIsRank | 09-olap-clickhouse-duckdb/generate.py:427-432 | position minus the running maximum of the start indexes is the number of earlier rows of the group |
| DuplicateBatch.Versions | 09-olap-clickhouse-duckdb/generate.py:427-432 | the version written for each row is one more than the number of rows of its key before it by (seq, index) |
| DuplicateBatch.BuildDuplicateBatch | 09-olap-clickhouse-duckdb/generate.py:411-454 | the batch is the stable sort by ingest time of the rows with their versions; each draw's key, price and stock flag is in exactly one row, ingested its version's number of seconds after 2025-07-01 |
| DuplicateBatch.VersionsIncrease | 09-olap-clickhouse-duckdb/generate.py:426 | versions strictly increase along seq within a key |
| DuplicateBatch.VersionsContiguous | 09-olap-clickhouse-duckdb/generate.py:426 | the versions of a key are 1..k without a gap |
| DuplicateBatch.DistinctVersionsIff | 09-olap-clickhouse-duckdb/generate.py:385-388 | versions are distinct per natural key if and only if no two key indices in use stand for the same natural key |
| DuplicateBatch.KeysCanClash | 09-olap-clickhouse-duckdb/generate.py:385-388 | a batch with one natural key drawn twice, both of whose rows have version one |
| DuplicateBatch.LastWriteIsHighestVersion | 09-olap-clickhouse-duckdb/generate.py:390-395 | the last returned row of a natural key has its highest version |
| DuplicateBatch.HighestVersionUnique | 09-olap-clickhouse-duckdb/generate.py:390-395 | with distinct natural keys it is the only row of that version |
| OrderSplit.OldOrdersIff | 02-sql-optimization/seed/generate.py:342 | an order is on the old side if and only if it was created before the cutoff, and the orders have exactly the sampled creation times |
| OrderSplit.ItemsFollowOrders | 02-sql-optimization/seed/generate.py:343 | every item is on the side of its order |
| OrderSplit.PaymentsFollowOrders | 02-sql-optimization/seed/generate.py:369-379 | every payment is on the side of its order, and exactly the paid orders have one, each only one |
| OrderSplit.SegmentOf | 02-sql-optimization/seed/generate.py:333-339 | the items of an order are exactly the segment between its offset and the next |
| OrderSplit.TotalsAreOwnIff | 02-sql-optimization/seed/generate.py:331-340 | with positive amounts the segmented sums are the orders' own totals if and only if every order has an item |
| OrderSplit.GrandTotalConserved | 02-sql-optimization/seed/generate.py:339-340 | the order totals add up to all the items |
| RowCompare.CompareRows | 03-data-modeling/harness/validate.py:148-176 | the two nested loops compute the greedy match of the sorted lists that the theorems are about, with its leftovers |
| RowCompare.CompareAccounts | 03-data-modeling/harness/validate.py:148-176 | every row is paired with an equal one or reported, and success is a bijection between equal rows |
| RowMeaning.SuccessMeans | 03-data-modeling/harness/validate.py:136-173 | a success pairs the rows so that paired rows have equally many cells, texts and nulls identical and numbers at most a thousandth apart |
| RowMeaning.FailureMeans | 03-data-modeling/harness/validate.py:148-176 | a failure on equally many rows leaves rows on both sides, and no row left on one side agrees with one left on the other |
| RowMeaning.PlainComparesMultisets | 03-data-modeling/harness/validate.py:136-173 | rows of texts and nulls pass, under every sort key, if and only if both sides hold the same rows as often |
| RowMeaning.ExactAnswerPasses | 03-data-modeling/harness/validate.py:148-173 | the exact answer passes in any order under every sort key that tells its rows apart, whatever numbers it holds |
| RowCompare.CompleteWhereTransitive | 03-data-modeling/harness/validate.py:157-173 | where equality of the rows at hand is transitive, success is equivalent to the existence of a pairing and to equal counts of every kind of row |
| RowOrders.CompleteWithoutCrosswise | 03-data-modeling/harness/validate.py:157-173 | without a crosswise pattern between the two sides, success under any sort key is equivalent to the existence of a pairing |
| RowOrders.EveryOrderSucceedsIff | 03-data-modeling/harness/validate.py:157-173 | lists that can be paired are accepted in every order of each side if and only if there is no crosswise pattern |
| RowOrders.TransitiveNoCrosswise | 03-data-modeling/harness/validate.py:136-141 | transitive row equality leaves no crosswise pattern |
| RowCompare.SpacedIsTransitive | 03-data-modeling/harness/validate.py:136-141 | without distinct numbers close to each other row equality is transitive |
| RowCompare.CrosswiseIsMissed | 03-data-modeling/harness/validate.py:157-173 | for any rows and sort key: two rows that can only be paired crosswise are rejected when the first of each side match |
| RowCompare.GreedyCanMiss | 03-data-modeling/harness/validate.py:157-173 | concrete numbers, in the order of their JSON text, that can be paired within tolerance and on which the comparison fails |
| PairF1.SetScores | 15-llm-in-pipelines/harness/common.py:160-168 | set F1 is 2*tp over both sizes, and one exactly for equal sets |
| PairF1.PrecisionAndRecall | 15-llm-in-pipelines/harness/common.py:160-168 | precision times the size of the prediction and recall times that of the gold set are the size of their intersection; precision is one exactly if the prediction is not empty and within the gold set, recall the other way round |
| PairF1.PairF1IsDice | 15-llm-in-pipelines/harness/common.py:216-225 | pairwise F1 is 2*tp / (pred_pos + gold_pos) as soon as some pair is positive |
| PairF1.PairScoresAreSetScores | 15-llm-in-pipelines/harness/common.py:194-225 | the pairwise scores are the set scores of the sets of same-cluster pairs; a length mismatch is an error |
| PairF1.PairPrecisionAndRecall | 15-llm-in-pipelines/harness/common.py:216-225 | as soon as some pair is positive, precision is one exactly if the prediction puts some items together and only such as belong together, recall the other way round |
| PairF1.PositivesAreClusterPairs | 15-llm-in-pipelines/harness/common.py:210-218 | the positive pairs are the sum of size*(size-1)/2 over the clusters |
| PairF1.SwapArguments | 15-llm-in-pipelines/harness/common.py:222-225 | exchanging the arguments exchanges precision and recall and keeps F1 |
| PairF1.RelabelInvariant | 15-llm-in-pipelines/harness/common.py:194-199 | renaming clusters injectively on either side changes nothing |
| PairF1.PerfectIffSamePartition | 15-llm-in-pipelines/harness/common.py:194-225 | F1 is one if and only if both labellings induce the same partition |
| LabelF1.MacroF1 | 15-llm-in-pipelines/harness/common.py:179-191 | the loop computes the mean of the per-label scores, a length mismatch is an error |
| LabelF1.MacroIsMean | 15-llm-in-pipelines/harness/common.py:184-191 | macro F1 times the number of labels is the sum of the labels' scores, each twice the items with the label in both lists over those in either |
| LabelF1.AccuracyIsShare | 15-llm-in-pipelines/harness/common.py:171-176 | accuracy times the number of items is the number of positions that agree; none for no items, an error for a length mismatch |
| LabelF1.MacroPerfectIff | 15-llm-in-pipelines/harness/common.py:180-191 | macro F1 is in [0, 1], and one if and only if every listed label is on the same items in both lists |
| LabelF1.PerfectTogether | 15-llm-in-pipelines/harness/common.py:171-191 | when every occurring label is listed, macro F1 one, accuracy one and equal lists are the same thing |
| LabelF1.UnlistedEscapes | 15-llm-in-pipelines/harness/common.py:186-191 | two different lists with macro F1 one over an incomplete label list |

## Left out

- Floating point: prices are integer cents or reals, shares and rates are exact fractions, so the rounding of a float product or sum is not modelled.
- String order and calendars: shop and product codes are integers in the order of their strings, ISO timestamps are integers, and the year, month and quarter columns of the arrays are not modelled.
- numpy arrays: parallel arrays are sequences of records, except where the code fills one in place (masks, output columns, versions).
- Entities: the clients list and the canonical_title as-of look-up, which no answer uses, are not modelled.
- Catalog: shops and products are given with distinct codes, registration and birth times; how build_shops and build_products draw them is not modelled.
- EventStream: prices and currencies of observations are arbitrary, and so is the other value a change gives its field; which listings are chosen and which times are drawn are parameters; the local title variants are not modelled.
- Lifecycle: questions q02 to q11 and q13 to q15 group and format rows that are already proved right; their own checks, those asked before q12 included, and the fixed product codes they name are not modelled.
- PriceText: the regular expressions are modelled for ASCII plus the three currency symbols; Unicode digits, other case foldings and float texts such as `1_0` or `nan` cannot reach `float` through the filter except as digits.
- Collision: grouping keys are two strings, times seconds of one day; `strptime` is not modelled.
- DayPlan: the seconds of the records are in Collision, where nudging is proved to change nothing else; that a truncated JSON object does not parse is taken as given; the set of distinct source and product pairs is not modelled.
- MockPeer: one step is the code between two awaits, as the event loop runs it; latency, jitter and the corpus body are not modelled.
- LoadDriver: the duration mode, cancellation, and the HTTP client are not modelled; `_percentile` is stated for percentages from 0 to 100.
- FanOut: a write to a list slot is one atomic step; `BaseException` and the pool's internal queue are not modelled.
- TopPrices: the row counts and sums per source and month that the same method keeps are plain additions.
- DuplicateLines: malformed lines are inserted the same way and add nothing.
- RowCompare: the JSON text used as sort key is a parameter, so the results hold for any sort key; `normalize_value` is not modelled.
- RowOrders.EveryOrderSucceedsIff: ranges over all orders of the two sides; a single sort key orders rows that occur on both sides alike.
- Databases, Kafka, Redis, S3, Spark, HTTP servers and the file system: code over systems that are not part of this model.
- Task scaffolds that raise NotImplementedError: there is no behaviour to model.
