# Verified model of the algorithmic cores

This project models the parts of the bot server that decide something: what has to be gathered and
crafted, which block to mine next, how frames, logs and queues behave, what goes into a prompt. Each
Dafny module models one part; the original's loops and mutable objects are methods and classes here,
proved against specification functions, and the theorems are about those functions. Everything is
covered by `dafny verify dfyconfig.toml`.

**Crafting budget** (`Budget`, `BudgetPlan`, `BudgetAccount`, `BudgetCoverage`, `BudgetEngine`,
`BudgetParts`, `BudgetLimits`, `BudgetCycles`). `Budget.Analyze` is the recursion of `domain_catalog.py` as a function of
the stock it finds; the class `Stock` and the methods of `BudgetEngine` are the recursion as written, with
one shared inventory that is reserved from in place. A dictionary of counts is a `multiset`. Names are
already normalised: the two virtual names (`any_log`, `planks`) and the names of items. The recipe that is
picked for a name, the tool its mining rule asks for, and the two families are a `Catalog`, so the theorems
hold for every catalog. `Analysis` also records what the original leaves implicit: the items set aside for
the caller and the batches of crafts to run. Crafts are accounted for by the catalog: a job is a name and a
number of crafts, and what it takes and yields is what the recipe picked for that name says.
The theorems need `Sound`: a recipe makes one concrete item of the family it was asked for, no virtual name
is made from itself or in a circle from the other one, and there are levels that never rise from a name to
its materials and fall from a mined item to its tool. `SoundIff` says the same by cycles: no way leads from
an item through its tool back to the item. All other cycles are allowed (a metal and its block, planks from
slabs from planks). `BudgetEngine` asks this only of what a request can come to (`SoundFor`), and
`BudgetParts` shows that nothing else in the catalog matters. `SoundRequestsReturn`, `CircleNeverReturns`,
`AliasNeverReturnsIff` and `ToolCycleNeverReturnsIff` show when a request returns and when it never does.
An item that can be had at once may still list something as missing, the parts of a tool:
`StockedItemStillMissesItsTool` and `CraftableItemStillMissesATool`. `MissesNothingIff` and `CanCraftNowIff`
give the exact conditions, as comparisons with the stock.

**Resource clusters and candidates** (`Clusters`, `TryOrder`, `Candidates`, `CollectRuns`). Clustering is
correct for every choice of the set's `pop`. Distances are compared squared. The chooser keeps a memory of
failed blocks and clusters per target. `PickIs` says what one call answers and remembers, for any memory and
any clusters, by an order of all tries, and `PickIsDetermined` that this leaves one outcome; `Picked` is what
follows for its callers, and `CollectRuns` draws the conclusions for whole runs of collect actions, each with
one or two picks, between which the clusters are queried anew and the world may change. The object's own
history is such a run.
That a pick finds nothing does not mean that everything has failed. Clusters are remembered by id, and ids
are numbered anew at every refresh (backend/bot/mineflayer/assets/resource_cache.js:186), so a mark can hide
blocks that were never tried: `RenumberedClusterIsSkipped`, and `MarkedQueriesFindNothing` for any number of
actions. `EmptyPickIff` and `NothingMoreToTryIff` say exactly when nothing is left untried.

**Frames** (`Frames`). Writer and reader of the debug WebSocket (sections 5.2 and 5.3 of RFC 6455) over a
socket that hands out bytes in chunks of its own choosing.

**Recent context** (`RecentContext`, `RecentStore`, `RecentView`, `Sorting`). The store compares
timestamps and keys to evict; the theorems show that it is a least-recently-used list for rising timestamps,
and for which runs it is one otherwise (`StoreIsLruIff`, `TieKeepsGreaterKey`). An event carries
the lines it prints. The limit may be any integer; `LimitHoldsIff` says when the view's cut keeps to it:
`slice(-0)` keeps everything, so a limit of zero does not empty the view.

**Queues** (`Lanes`, `TaskQueues`, `Sessions`). Scheduling is a sequence of steps in any order: a caller
enqueues, a consumer takes an item, its handling ends. Two sequences are compared: what was put in, and
what was handled, is being handled and still waits.

**Logs and loops** (`Replay`, `InventoryDiff`, `Segments`, `SearchHits`, `Lifecycle`, `Classification`).

`Options` holds the optional value used where the original returns None or undefined, `Integers` the larger and
the smaller of two numbers.

## Model

| member | source | states |
|---|---|---|
| BudgetEngine.AnalyzeWithInventory | backend/domain_catalog.py:271-394 | when what the request can come to is sound, whatever the rest of the catalog holds, the recursion returns, and its budget and the stock it leaves in the shared inventory are those of the specification |
| BudgetEngine.AnalyzeMined | backend/domain_catalog.py:283-320 | a name without a recipe: what stock does not cover is missing, and the tool is budgeted on a copy, so the shared stock only loses what was reserved |
| BudgetEngine.AnalyzeCrafted | backend/domain_catalog.py:322-394 | a name with a recipe: the crafts cover the rest and the surplus of the last craft goes back to the shared stock |
| BudgetEngine.AnalyzeMaterials | backend/domain_catalog.py:333-373 | the loop over materials reserves one after the other from one stock and collects lines and missing materials in order |
| BudgetEngine.AnalyzeDependencyBudget | backend/domain_catalog.py:397-414 | no budget for an empty name; otherwise one drawn up on a copy of the inventory |
| BudgetEngine.Stock.Consume | backend/domain_catalog.py:229-268 | removes exactly the draw from the stock and answers its size; a negative amount takes nothing |
| BudgetEngine.SoundForAll | backend/domain_catalog.py:271-394 | of a sound catalog every closed part is sound |
| BudgetParts.PartIsEnough | backend/domain_catalog.py:271-394 | the part of a sound catalog that a request can come to gives the same budget and stock as all of it |
| Budget.Descent | backend/domain_catalog.py:340-362 | going down to a material the guard lets through lowers the level, or at the same level (recipes not seen, whether this one has been, rank of a virtual name), although `seen` need not grow |
| Budget.ToolDescent | backend/domain_catalog.py:287-301 | the restart with an empty `seen` for a tool lowers the level |
| BudgetPlan.DrawFits | backend/domain_catalog.py:229-268 | a draw never takes more of an item than there is |
| BudgetPlan.DrawSize | backend/domain_catalog.py:229-268 | the returned number is the number of items taken |
| BudgetPlan.TakenIsMin | backend/domain_catalog.py:229-268 | a draw gets all it asks for or all there is |
| BudgetPlan.AvailableIsOwned | backend/domain_catalog.py:106-114 | for a family of distinct items, what is there is the count the original answers |
| BudgetPlan.DrawStaysInFamily | backend/domain_catalog.py:229-268 | only items of the requested family are taken |
| BudgetPlan.DrawExhausts | backend/domain_catalog.py:229-268 | a draw falls short only when every item of the family is used up |
| BudgetPlan.DrawInOrder | backend/domain_catalog.py:238-264 | kinds are used up in the order of the family: later kinds give only what the earlier ones could not |
| BudgetPlan.CraftsAreEnough | backend/domain_catalog.py:326-327 | the rounded-up crafts cover what is missing with a surplus below one craft's output, and there are none exactly when nothing is missing |
| BudgetPlan.PlanRuns | backend/domain_catalog.py:271-394 | the budget is an executable plan: from stock + direct missing materials + anything else, the crafts in order never want for an item and end with the returned stock + what the caller asked for + the rest untouched |
| BudgetPlan.PlanPerforms | backend/domain_catalog.py:271-394 | the steps of that plan are exactly the crafts the subgoal tree calls for, in post-order, and each takes, material by material, what the recipe picked in the catalog demands and yields what its output count says; the caller gets exactly the desired number of fitting items |
| BudgetAccount.StockComesFirst | backend/domain_catalog.py:279-285 | owned is what the stock holds of the target, and as much of it as is asked for is used before anything is crafted or missing |
| BudgetAccount.AnalyzeIsAccounted | backend/domain_catalog.py:271-394 | every node of every tree follows the catalog: target, output and, in order, (material, amount) pairs are those of the picked recipe for the fewest crafts that do; desired = fulfilled + missing; every node and every line counts as owned what the stock holds just then, the first on the given stock, each later one on what those before it leave, the tool on what its target leaves, and uses the lesser of that and what is asked for; base_missing = direct missing + missing for tools; the tool is that of the mining rule; the cycle guard stops exactly at materials under way further up; the returned stock is what the tree leaves |
| BudgetAccount.DemandsAreExact | backend/domain_catalog.py:333-336 | each material calls for its amount times the crafts, or for nothing if that is not positive, in the order of the recipe |
| BudgetAccount.MissingHasReason | backend/domain_catalog.py:219-226 | every listed missing material has no recipe or was stopped by the cycle guard while it was being crafted |
| BudgetAccount.CanCraftNowMeans | backend/domain_catalog.py:390 | a crafted node can be crafted now iff nothing must be gathered or crafted for its materials |
| BudgetAccount.NothingToDo | backend/domain_catalog.py:325-327 | nothing is missing of the target iff its tree gathers nothing and crafts nothing |
| BudgetAccount.StepBalances | backend/domain_catalog.py:375-379 | one batch of crafts moves a class of items by what its recipe yields less what it demands |
| BudgetAccount.RunBalances | backend/domain_catalog.py:375-379 | running the crafts conserves every class of items: stock before + yields of the recipes = stock after + their demands |
| BudgetAccount.Balance | backend/domain_catalog.py:271-394 | for the log family, the planks family and every single item: stock + direct missing + what the recipes yield over all crafts = stock after + desired + what they demand |
| BudgetLimits.FamiliesAreClasses | backend/domain_catalog.py:106-114 | with disjoint families of distinct items, the logs, the planks and every other item are classes of that balance |
| BudgetCoverage.MinedMissesNothingIff | backend/domain_catalog.py:283-313 | nothing is listed as missing for a mined item iff stock holds all of it and nothing is missing of its tool on what is left |
| BudgetCoverage.MissesNothingIff | backend/domain_catalog.py:271-394 | for any name, stock and seen set: base_missing is empty iff the stock covers the request, by comparisons of amounts down to the mined items and their tools |
| BudgetCoverage.CanCraftNowIff | backend/domain_catalog.py:390 | a crafted target can be crafted now iff the stock holds each material of the crafts, after what the ones before take |
| BudgetLimits.SoundRequestsReturn | backend/domain_catalog.py:271-394 | in a sound catalog no request leads on without end, on any stock |
| BudgetLimits.LeadsOnIff | backend/domain_catalog.py:322-362 | on a stock without crafted items a request leads on exactly as far as the walk to first materials and tools goes, with the guard's `seen` along the way |
| BudgetLimits.CircleNeverReturns | backend/domain_catalog.py:287-362 | a walk of any length over any recipes and tools that comes back to a name with the same items seen is a request that is never answered |
| BudgetLimits.AliasNeedsItselfIff | backend/domain_catalog.py:322-362 | when the recipe picked for a virtual name asks for that name first, a request leads to another one iff stock does not cover it |
| BudgetLimits.AliasNeverReturnsIff | backend/domain_catalog.py:340-362 | and then there are n further calls for every n; the guard tests another name than it stores, so a request returns iff stock covers it |
| BudgetLimits.ToolCycleNeverReturnsIff | backend/domain_catalog.py:287-301 | when a tool is made from what is mined with it, a request for the material has n further calls for every n iff the tool is not in stock, however much of the material is |
| BudgetLimits.StockedItemStillMissesItsTool | backend/domain_catalog.py:291-301 | for any ore and tool: an item fully in stock still lists its missing tool in base_missing |
| BudgetLimits.CraftableItemStillMissesATool | backend/domain_catalog.py:291-301 | for any item, ore, tool and amount: an item that can be crafted now still lists the missing tool of its stocked ore |
| BudgetCycles.LevelsLeaveNoCycle | backend/domain_catalog.py:287-362 | levels rule out every way back to an item through its tool |
| BudgetCycles.NoCycleGivesLevels | backend/domain_catalog.py:287-362 | without such ways there are levels: the most tools on a way from a name |
| BudgetCycles.SoundIff | backend/domain_catalog.py:287-362 | a catalog is sound iff its recipes are canonical, virtual names are not made from each other in a circle, and no way leads from an item through its tool back to it |
| BudgetCycles.GuardedCyclesAreSound | backend/domain_catalog.py:340-362 | so any cycles are sound, such as planks from slabs from planks, as long as no tool comes to what it mines |
| Clusters.NeighborsOf | backend/grounding/cluster_selector.py:25-32 | in any order, exactly the remaining points with dx*dx + dy*dy + dz*dz <= max_step*max_step, each once |
| Clusters.NearIs | backend/grounding/cluster_selector.py:26-31 | a step of the chains is that comparison, whatever the sign of `max_step` |
| Clusters.UnitStepsAreFaces | backend/grounding/cluster_selector.py:9-31 | with the default step of one, the point itself and the six that share a face with it |
| Clusters.BuildConnectedClusters | backend/grounding/cluster_selector.py:9-39 | whatever `pop` picks: a duplicate-free partition in which two points share a cluster iff a chain of steps inside the set joins them |
| Clusters.ComponentIsLinkClass | backend/grounding/cluster_selector.py:18-37 | a component is exactly the set of points linked to any one of its members |
| Clusters.SearchGoesOn | backend/grounding/cluster_selector.py:23-36 | one step of the search keeps its invariant: only queued members can have neighbours left |
| Clusters.SearchEnds | backend/grounding/cluster_selector.py:23-37 | a search that ends has split off one whole component |
| Clusters.DistanceIsAttained | backend/grounding/cluster_selector.py:58-63 | a cluster's distance is the least over its points and attained by one; none for an empty cluster |
| Clusters.FirstClosestIsClosest | backend/grounding/cluster_selector.py:65 | the chosen cluster is one of them and none is closer |
| Clusters.ChoiceIsNearest | backend/grounding/cluster_selector.py:42-65 | nothing is chosen only if no non-empty cluster is large enough; else a large enough cluster with a point as close as any point of any such cluster |
| Clusters.ChoiceIsFirst | backend/grounding/cluster_selector.py:65 | of several as near the first is chosen: it is nearer than every large enough cluster before it |
| Candidates.ListClusters | backend/bot/mineflayer/environment.py:215-232 | first pass: exactly the unmarked clusters with untried matches, nearest match first; a cluster left out was marked before, has no matches, or is marked now because all have failed |
| Candidates.TryCandidates | backend/bot/mineflayer/environment.py:240-253 | the first live candidate is the answer and exactly stale ones are remembered |
| Candidates.PickClusterCandidate | backend/bot/mineflayer/environment.py:181-256 | for any memory and clusters: the answer is the first block that is there in the order of the tries (clusters by the distance of their nearest untried block, then size, then place in the list; blocks by distance, then place), exactly the blocks tried before it are remembered, and exactly the spent clusters and the named ones left behind are marked; hence an answer is an untried live match of an unmarked cluster with nothing nearer untried, and without one every cluster was marked before or has nothing live left |
| TryOrder.PickIsDetermined | backend/bot/mineflayer/environment.py:181-256 | that leaves nothing open: memory, clusters, filter and world admit one answer and one memory afterwards |
| TryOrder.TriesAreInOrder | backend/bot/mineflayer/environment.py:221-231 | the candidates of a cluster are exactly its untried matches, each once, nearest first and at one distance as listed |
| TryOrder.SortedInTurn | backend/bot/mineflayer/environment.py:237 | sorting the entries puts the clusters in the order of the tries, at full ties as listed |
| Candidates.StaysConsistent | backend/bot/mineflayer/environment.py:227-230 | within one list of distinct ids failed clusters contain only failed matches, and stay so |
| Candidates.PickKeepsConsistent | backend/bot/mineflayer/environment.py:181-256 | so a pick keeps a truthful memory truthful |
| Candidates.NothingAhead | backend/bot/mineflayer/environment.py:237-256 | whatever lies ahead of the chosen cluster's preferred block, by distance and then size, has failed or is in a cluster that is passed over |
| Candidates.PicksNothingIff | backend/bot/mineflayer/environment.py:215-256 | with distinct ids a pick finds nothing iff no unmarked cluster has a live match that has not failed; marked ones are never looked at |
| Candidates.EmptyPickIff | backend/bot/mineflayer/environment.py:218-256 | after a pick that finds nothing, everything listed has failed iff what marked clusters list had failed before or is listed by an unmarked one |
| Candidates.EmptyPickIffConsistent | backend/bot/mineflayer/environment.py:218-256 | when clusters share no coordinates: iff marked clusters had no untried match |
| CollectRuns.FailuresNeverRepeat | backend/bot/mineflayer/action.py:1236-1247 | until a success, over collect actions that query, refresh and query again on clusters and worlds that change at will: no coordinate fails twice, and the failures are at most the coordinates offered that had not failed before |
| CollectRuns.PickedAgainOnlyUnequipped | backend/bot/mineflayer/action.py:1283-1288 | a coordinate is picked again before a success only if no tool could be equipped for it the time before |
| CollectRuns.FailuresHaveReason | backend/bot/mineflayer/environment.py:240-253 | in every run a coordinate counts as failed only if it did at the start and nothing was collected since, or since the last success a query listed it and no such block was there, or digging it failed |
| CollectRuns.ActionRecords | backend/bot/mineflayer/action.py:1283-1288 | what one action adds: nothing without a block or a fitting tool, the failed block after a failure; a success leaves nothing |
| CollectRuns.NothingForgotten | backend/bot/mineflayer/environment.py:156-165 | until a success no failed coordinate and no mark is forgotten |
| CollectRuns.MarksHaveReason | backend/bot/mineflayer/environment.py:227-230 | in every run, however ids are given out: an id is marked only if a query listed it with matches that have all failed |
| CollectRuns.RunStaysConsistent | backend/bot/mineflayer/action.py:1485-1488 | so while ids keep denoting the same blocks, a cluster marked in a run has no untried match |
| CollectRuns.NothingMoreToTryIff | backend/bot/mineflayer/action.py:1236-1262 | when an action finds nothing, each of its two queries is exhausted iff what it listed under marked ids was spent when it was looked at |
| CollectRuns.RenumberedClusterIsSkipped | backend/bot/mineflayer/action.py:1236-1247 | for any two blocks: when the refreshed list gives the id of the exhausted cluster to another block, the action finds nothing and that block stays untried, live or not |
| CollectRuns.MarkedQueriesFindNothing | backend/bot/mineflayer/environment.py:218-219 | as long as queries list only marked ids, any number of actions find nothing and change nothing |
| CollectRuns.ResourceAttempts.Pick | backend/bot/mineflayer/environment.py:190-196 | a pick changes the memory of its own target only; without clusters not even that |
| CollectRuns.ResourceAttempts.Reset | backend/bot/mineflayer/environment.py:167-170 | success forgets this target and no other |
| CollectRuns.ResourceAttempts.Act | backend/bot/mineflayer/action.py:1236-1247 | one collect action: pick, refresh and pick again when empty-handed, then remember the failed block, forget everything on success, or leave the memory alone when no tool could be equipped |
| CollectRuns.ResourceAttempts.Collect | backend/bot/mineflayer/action.py:1236-1247 | the action is a step of the run of its target, and of no other, so the theorems about runs are about the object |
| Frames.NumberRoundTrip | plugin/scripts/ws-debug-server.py:99-102 | big-endian numbers of k bytes read back |
| Frames.LengthRoundTrip | plugin/scripts/ws-debug-server.py:79-83 | each of the three length encodings tells the length back |
| Frames.HeaderRoundTrip | plugin/scripts/ws-debug-server.py:76-84 | opcode, mask and length of any header are read back, and exactly its bytes |
| Frames.MaskTwice | plugin/scripts/ws-debug-server.py:86-88 | unmasking what was masked gives the payload |
| Frames.FrameRoundTrip | plugin/scripts/ws-debug-server.py:75-89 | any frame, masked or not, with anything behind it, is read back exactly |
| Frames.TextFrameRoundTrip | plugin/scripts/ws-debug-server.py:92-103 | what the server writes is read as opcode 1 with the same body, consuming exactly those bytes |
| Frames.TextFrameIsShortest | plugin/scripts/ws-debug-server.py:95-102 | no frame that carries a body is shorter than the one written for it |
| Frames.TextFrameBytes | plugin/scripts/ws-debug-server.py:92-103 | a text frame byte for byte: 0x81, the length below 126 in one byte, else 126 and two bytes or 127 and eight, then the body |
| Frames.TwoBytes | plugin/scripts/ws-debug-server.py:80-81 | two length bytes are 256 times the first plus the second |
| Frames.EightBytes | plugin/scripts/ws-debug-server.py:82-83 | eight length bytes are that number, the most significant first |
| Frames.HeaderBits | plugin/scripts/ws-debug-server.py:76-84 | the opcode is the low half of the first byte; the second gives the mask bit and the length or its form; a mask is the four bytes behind the length |
| Frames.BodyIsUnmasked | plugin/scripts/ws-debug-server.py:75-89 | byte i of the body is byte i behind the header, met with byte i modulo 4 of the mask if there is one |
| Frames.ClosedIff | plugin/scripts/ws-debug-server.py:65-89 | reading fails exactly on a frame that is cut off |
| Frames.FrameIsSelfContained | plugin/scripts/ws-debug-server.py:75-89 | reading looks at the frame's bytes only and needs all of them |
| Frames.StreamRoundTrip | plugin/scripts/ws-debug-server.py:75-103 | frames sent one after another, masked or not, with any first byte, are read back one after another |
| Frames.Socket.RecvExact | plugin/scripts/ws-debug-server.py:65-72 | however the bytes are chunked, exactly the next n bytes, or a closed connection |
| Frames.Socket.ReadFrame | plugin/scripts/ws-debug-server.py:75-89 | however the bytes are chunked, the frame at the front and not a byte more |
| Frames.Socket.ReadLength | plugin/scripts/ws-debug-server.py:79-83 | the length field in its three forms |
| Frames.Socket.WriteTextFrame | plugin/scripts/ws-debug-server.py:92-103 | appends exactly one text frame; a body of 2^64 bytes or more is refused |
| Frames.Unmask | plugin/scripts/ws-debug-server.py:86-88 | the in-place loop leaves every byte met with byte i modulo 4 of the mask |
| Sorting.SortSorts | ts-core/src/conversation/recent-context.ts:327-334 | the library sort: an ascending rearrangement under any total order |
| Sorting.SortIsStable | backend/bot/mineflayer/environment.py:231-237 | and a stable one: equal elements keep their order |
| Sorting.OneArrangement | backend/bot/mineflayer/environment.py:231-237 | there is only one such arrangement |
| RecentContext.KeyLeqIsLexicographic | ts-core/src/conversation/recent-context.ts:327-334 | keys are compared as texts: a prefix first, otherwise by the first character that differs |
| RecentContext.PutInPlace | ts-core/src/conversation/recent-context.ts:139-150 | setting a key that is there keeps its place, a new key goes to the end |
| RecentContext.EvictDropsFront | ts-core/src/conversation/recent-context.ts:326-338 | evicting by timestamp and key drops the front of the least-recently-used list |
| RecentContext.StepRefines | ts-core/src/conversation/recent-context.ts:132-153 | with a timestamp above all others, one append is one step of the least-recently-used list |
| RecentContext.StoreIsLru | ts-core/src/conversation/recent-context.ts:132-153 | over every run with rising positive timestamps the store holds exactly the rounds of that list |
| RecentContext.RecencyIsDistinct | ts-core/src/conversation/recent-context.ts:139-150 | the recency order lists every written message once |
| RecentContext.LruHoldsLiveKeys | ts-core/src/conversation/recent-context.ts:132-153 | the list holds exactly the most recently written distinct messages, as many as the limit |
| RecentStore.RoundsHoldKeptEvents | ts-core/src/conversation/recent-context.ts:139-150 | each round holds precisely the events written since its message last entered |
| RecentStore.KeptIsUnbrokenStay | ts-core/src/conversation/recent-context.ts:132-150 | that stay is unbroken, its events are writes of that message with rising unique sequence numbers |
| RecentStore.KeptIsComplete | ts-core/src/conversation/recent-context.ts:132-150 | no write of the stay is missing |
| RecentStore.AppendEvictsAtMostOne | ts-core/src/conversation/recent-context.ts:326-338 | whatever the timestamps, an append to a store within its limit evicts one round at most, the oldest |
| RecentStore.EvictedIsOldest | ts-core/src/conversation/recent-context.ts:326-338 | the evicted round was used before all that stay, or at the same time with a smaller key |
| RecentStore.StoreRecounts | ts-core/src/conversation/recent-context.ts:132-153 | whatever the limit and the timestamps: every stored round is of one message, under "message:" and its id, holds all writes of it from some write on in their order, and was last used at the latest of their times or at zero |
| RecentStore.BlankIsWhite | ts-core/src/conversation/recent-context.ts:222-229 | a text is blank iff each of its characters is one of the code points that `trim` removes |
| RecentStore.StepIsLruIff | ts-core/src/conversation/recent-context.ts:132-153 | whatever the timestamps: one append is one step of that list iff nothing has to go or the front of the list is the oldest round by timestamp and key |
| RecentStore.StoreIsLruIff | ts-core/src/conversation/recent-context.ts:132-153 | over whole runs with any timestamps the store is that list throughout iff so at every write |
| RecentStore.TieKeepsGreaterKey | ts-core/src/conversation/recent-context.ts:326-338 | of two messages written at one time to a store of one, the greater key stays, even if the other was written last |
| RecentStore.StoreIsUnique | ts-core/src/conversation/recent-context.ts:139-150 | no key has two rounds, whatever the timestamps and the limit |
| RecentStore.NothingKept | ts-core/src/conversation/recent-context.ts:326-338 | a limit of zero or less keeps nothing |
| RecentStore.RecentContextStore.AppendEvent | ts-core/src/conversation/recent-context.ts:132-153 | the object keeps to the run of accepted writes; a blank id or text is refused and changes nothing |
| RecentStore.RecentContextStore.GetRounds | ts-core/src/conversation/recent-context.ts:207-217 | with rising timestamps, the rounds come out as the least-recently-used list, oldest first |
| RecentView.MergeAllRounds | ts-core/src/conversation/recent-context.ts:241-299 | a merged round exists iff it was there or a system event opens it, with its own events followed by the bot's, last used at the latest time of any of these |
| RecentView.LastUsedIsLatest | ts-core/src/conversation/recent-context.ts:286-296 | that time is the greatest of the round's own and those of the bot's events for it, and one of them |
| RecentView.MergeIsFaithful | ts-core/src/conversation/recent-context.ts:241-299 | each round of the view holds those events and that time; none is of the current message and none of a message unknown to the store |
| RecentView.MergedIff | ts-core/src/conversation/recent-context.ts:241-299 | a key has one round in the merge iff the store has one that is not of the current message or an event without a message opens one; it holds the stored events followed by the bot's, with the latest of their times and their message id |
| RecentView.EventsForInOrder | ts-core/src/conversation/recent-context.ts:261-290 | the bot's events of a round are exactly those of its key, in their order, with their lines and times, behind all stored events of the same time |
| RecentView.KeyIs | ts-core/src/conversation/recent-context.ts:262-265 | an event belongs to "message:" and its message id, or to "system:", its time and its line; events of one key are of one message or of none |
| RecentView.LimitedIsExact | ts-core/src/conversation/recent-context.ts:301-303 | the cut keeps the newest rounds, exactly as many as `slice` does for a positive, zero or negative limit, each once and in strict order of last use and key |
| RecentView.LimitHoldsIff | ts-core/src/conversation/recent-context.ts:301-303 | the cut keeps to the limit iff the limit is positive (or is zero with nothing to cut) |
| RecentView.ViewIsOrdered | ts-core/src/conversation/recent-context.ts:301-324 | at most a positive limit of rounds, ascending by last use and key; what is cut is no newer than what is shown |
| RecentView.PrintedRound | ts-core/src/conversation/recent-context.ts:340-353 | a printed round has each of its events once, by timestamp, then sequence, then as it has them; the lines of each event stand behind those of the events before it, there are no others, and there are some |
| RecentView.LinesInOrder | ts-core/src/conversation/recent-context.ts:350-352 | for any events: the lines of event i begin where the lengths of those before it add up to, and all lengths together are the number of lines |
| RecentView.PrintedInOrder | ts-core/src/conversation/recent-context.ts:310-324 | the rounds within the cut that have something to print are printed in their order, and no others |
| RecentView.NothingUnprinted | ts-core/src/conversation/recent-context.ts:310-324 | every round within the cut that has lines is printed |
| RecentView.RenderRounds | ts-core/src/conversation/recent-context.ts:241-324 | the loops build that view in a map of their own |
| RecentView.Render | ts-core/src/conversation/recent-context.ts:184-194 | rendering uses the given limit or the store's and leaves the store as it is |
| Segments.SplitIsSound | backend/text_utils.py:5-30 | for every text and maximum: nothing lost or added, pieces fit and are non-empty, neighbours exceed the maximum together, floor(n/2)*(max+1) <= length, no part that fits is cut |
| Segments.GreedyKeepsText | backend/text_utils.py:13-30 | the segments concatenate to the text |
| Segments.GreedyIsFull | backend/text_utils.py:17-30 | every segment fits and two neighbours would not fit together |
| Segments.GreedyGroups | backend/text_utils.py:17-30 | each segment is a run of whole parts, or of chunks of a part that is too long |
| Segments.PartsAlternate | backend/text_utils.py:13 | the parts are texts without a sentence end and single sentence ends in turn |
| Segments.FullPairs | backend/text_utils.py:17-30 | hence the bound on the number of segments |
| Segments.DecorationIsReversible | backend/text_utils.py:32-40 | every segment but the first begins with three dots, every one but the last ends with them; they add six characters at most and can be removed by position |
| Segments.SplitToSegments | backend/text_utils.py:5-40 | the result is the decorated split |
| Segments.Gather | backend/text_utils.py:14-30 | the loop over the parts computes the greedy segments |
| Segments.CutLongPart | backend/text_utils.py:22-25 | the inner loop emits full chunks and leaves the remainder |
| Segments.Decorate | backend/text_utils.py:32-40 | the loop decorates every segment by its position |
| TaskQueues.SerialFifo | backend/execution/task_queue.py:38-65 | in every interleaving, per bot: enqueued = processed, then at most one in flight, then queued |
| TaskQueues.BotsAreIndependent | backend/execution/task_queue.py:46-57 | a bot's queue and worker are what they would be without the other bots |
| TaskQueues.RaisingJobsDoNotStopTheWorker | backend/execution/task_worker.py:13-29 | whichever jobs raise, the worker gets through all that is queued, in order |
| TaskQueues.EnqueuedJobFindsWorker | backend/execution/task_queue.py:46-65 | after any history an enqueued job finds a worker: a busy one goes on with its job, any other is there and free |
| TaskQueues.EnqueuedJobIsProcessed | backend/execution/task_queue.py:46-65 | and is processed behind everything enqueued before it, once the worker has got through that many jobs |
| TaskQueues.CancelledWorkerWaits | backend/execution/task_worker.py:13-29 | a cancelled job ends its worker: until the next job is enqueued none is processed and none is lost |
| TaskQueues.TaskQueueManager.EnsureWorker | backend/execution/task_queue.py:46-57 | a missing or ended worker is started on the same queue, a running one left alone |
| TaskQueues.TaskQueueManager.EnqueueJob | backend/execution/task_queue.py:59-65 | appends the job to a queue with a worker and answers the queue's new length |
| TaskQueues.TaskQueueManager.WorkerStep | backend/execution/task_worker.py:13-29 | one round of the worker's loop |
| TaskQueues.TaskQueueManager.ShutdownAll | backend/execution/task_queue.py:67-74 | all workers and queues are gone |
| Sessions.SessionIsFifoAndBounded | backend/websocket/session_runtime.py:28-87 | in every interleaving with starts and stops: accepted = handled, in flight, queued in order; the queue never exceeds its maximum, or one when that is less |
| Sessions.StepMovesPending | backend/websocket/session_runtime.py:58-87 | one step only moves messages along, and a rejected one nowhere |
| Sessions.RaisingHandlersDoNotStopTheDispatcher | backend/websocket/session_runtime.py:76-87 | whichever handlers raise, the dispatcher gets through all that is queued, in order |
| Sessions.CancelledSessionOnlyFills | backend/websocket/session_runtime.py:58-87 | after a cancelled handler, until the client is started or stopped: messages are accepted up to the capacity and none is handled |
| Sessions.CancelledHandlerEndsDispatcher | backend/websocket/session_runtime.py:76-87 | a cancelled handler brings that about: its message is the last one handled |
| Sessions.StartedSessionHasDispatcher | backend/websocket/session_runtime.py:28-40 | from its start until a handler is cancelled, a session has a dispatcher that is free or busy |
| Sessions.StartedSessionIsServed | backend/websocket/session_runtime.py:28-87 | and all that it has accepted is handled, in order, once the dispatcher has got through the queue |
| Sessions.SessionRuntime.StartClient | backend/websocket/session_runtime.py:28-40 | starting again ends the old session and opens an empty one |
| Sessions.SessionRuntime.StopClient | backend/websocket/session_runtime.py:42-51 | the session is gone with what it had not handled |
| Sessions.SessionRuntime.SubmitMessage | backend/websocket/session_runtime.py:58-67 | accepted iff the client has a session whose queue is below its maximum or empty; a rejection changes nothing |
| Sessions.SessionRuntime.DispatchStep | backend/websocket/session_runtime.py:69-87 | one round of the dispatch loop |
| Replay.ReadIsNextPage | ts-core/src/app/entrypoint.ts:1819-1826 | a page is the next stretch of the log after the cursor |
| Replay.ReadIsStretch | ts-core/src/app/entrypoint.ts:1819-1826 | for any cursor, limit and bot: a cursor before the log reads from its start, one behind it nothing, a negative limit leaves out as many at the end, another bot reads nothing |
| Replay.StepIsGapFree | ts-core/src/app/entrypoint.ts:1802-1826 | an append or a read keeps: received = log up to the cursor |
| Replay.ReplayIsGapFree | ts-core/src/app/entrypoint.ts:1787-1831 | for any interleaving of appends and pages of any size, nothing is lost, repeated or reordered |
| Replay.CatchesUp | ts-core/src/app/entrypoint.ts:1819-1826 | once appends stop, pages that add up to what is left complete the log |
| Replay.ReplayStore.AppendEvent | ts-core/src/app/entrypoint.ts:1802-1817 | numbers the event next in line; another bot's event is refused and changes nothing |
| Replay.ReplayStore.ReadEvents | ts-core/src/app/entrypoint.ts:1819-1826 | the object's pages are those stretches |
| Lifecycle.AssertPhaseOrder | ts-core/src/app/contracts.ts:133-165 | accepts iff all phases match and every dependency stands before its step; otherwise names the first step in a wrong phase, or else the first dependency that is missing or not ordered before its step |
| Lifecycle.AssertPlan | ts-core/src/app/contracts.ts:172-175 | accepts iff both halves are accepted; otherwise names the first problem of the startup, or of the shutdown when the startup has none |
| Lifecycle.OrderedIsTopological | ts-core/src/app/contracts.ts:145-164 | for distinct names the checked order is the topological order |
| Lifecycle.AcceptedPlansAreAcyclic | ts-core/src/app/contracts.ts:145-164 | an accepted plan has no dependency cycle of any length, even with repeated names |
| Lifecycle.PrefixesAreClosed | ts-core/src/app/contracts.ts:145-164 | every prefix of an accepted plan contains all it depends on, through any chain |
| Classification.RulesTagByFirstMatch | scripts/build_knowledge_base.py:633-651 | an id carries a tag iff that tag's rule is the first to match it, and is unclassified iff none does |
| Classification.FirstTagIsFirst | scripts/build_knowledge_base.py:640-647 | the tag of an id is that of the rule that matches it and has no matching rule before it |
| Classification.RulesKeepOrder | scripts/build_knowledge_base.py:633-651 | under every tag and among the unclassified the ids stand as they came, repetitions included |
| Classification.TagsKeepPlaces | scripts/build_knowledge_base.py:2034-2038 | a tag that is extended or replaced keeps its place, a new one goes to the end |
| Classification.SortedSetAscends | scripts/build_knowledge_base.py:674-675 | the sorted set of any ids is ascending and has each once |
| Classification.RulesConserve | scripts/build_knowledge_base.py:633-651 | tagged and unclassified ids are together the given ones |
| Classification.FoodsAreTagged | scripts/build_knowledge_base.py:668-679 | the food tag holds exactly the foods among the ids, there is no other tag, and the rest is everything else |
| Classification.GeneratePlaces | scripts/build_knowledge_base.py:2027-2044 | one generator puts every id under exactly its tag, or leaves it unclassified |
| Classification.BuildPlaces | scripts/build_knowledge_base.py:2027-2044 | through any chain on top of any tags: an id ends up under exactly the tag that the first generator with a place for it gives, or unclassified when none has one |
| Classification.PlaceIsFirst | scripts/build_knowledge_base.py:2027-2044 | the place of an id is that of the first generator that has one for it |
| Classification.EachIdInItsPlace | scripts/build_knowledge_base.py:2015-2044 | so for the whole build, whatever the ids |
| Classification.EachIdHasOnePlace | scripts/build_knowledge_base.py:2015-2044 | every id ends up exactly once, counting repetitions, and there |
| Classification.BuildNamesDiffer | scripts/build_knowledge_base.py:2027-2041 | no tag name occurs twice in a build |
| Classification.GenerateByRules | scripts/build_knowledge_base.py:633-651 | the loops compute that classification |
| Classification.BuildTags | scripts/build_knowledge_base.py:2027-2044 | the loop over generators feeds each what the one before left over |
| Classification.BuildReverseIndex | scripts/build_knowledge_base.py:2066-2076 | an id is indexed iff some tag has it, and under exactly the tags that have it |
| Classification.BuildKnowledgeBase | scripts/build_knowledge_base.py:2015-2064 | tags and index together: an id is indexed iff it has a place, and under that tag alone |
| Classification.AggregatedItems | scripts/build_knowledge_base.py:2122-2132 | an aggregate with members replaces its tag; every other tag is as it was |
| Classification.AggregateIsUnion | scripts/build_knowledge_base.py:2124-2132 | an aggregate holds exactly what its sources hold together |
| Classification.AggregatesAreAdded | scripts/build_knowledge_base.py:2122-2134 | a tag is there iff it was or is an aggregate with members; one that is no such aggregate is as it was; members of an aggregate are ascending, each once |
| Classification.AggregationIsIdempotent | scripts/build_knowledge_base.py:2083-2134 | when no aggregate feeds an aggregate, aggregating again gives the same tags in the same order |
| Classification.AggregateTags | scripts/build_knowledge_base.py:2122-2134 | the loop computes those aggregates |
| SearchHits.TruncateByCodePoint | ts-core/src/conversation/brain-context.ts:93-97 | never over the limit, untouched iff within it, else a prefix one short of it and a mark |
| SearchHits.CreateBrainSearchToolResult | ts-core/src/conversation/brain-context.ts:28-67 | the loop keeps the greedy choice and reports how many hits it left out, if any |
| SearchHits.PickKeepsOrder | ts-core/src/conversation/brain-context.ts:40-60 | kept hits keep their order, task id, time and score, and their snippet or its first 299 characters and an ellipsis; nothing else is shown |
| SearchHits.GreedyDecides | ts-core/src/conversation/brain-context.ts:40-50 | a hit is kept iff what is shown of it and of the kept ones before it is at most 2000 characters |
| SearchHits.ResultIsBounded | ts-core/src/conversation/brain-context.ts:40-60 | every snippet is at most 300 and all together at most 2000 characters |
| SearchHits.NothingCouldBeAdded | ts-core/src/conversation/brain-context.ts:45-48 | an omitted hit does not fit into the finished result either |
| SearchHits.GreedyPrefersEarlierHits | ts-core/src/conversation/brain-context.ts:40-60 | any other choice within the budget drops a better ranked hit where it first differs |
| SearchHits.NothingOmittedIff | ts-core/src/conversation/brain-context.ts:45-48 | nothing is omitted iff everything fits together |
| SearchHits.FirstSixAreKept | ts-core/src/conversation/brain-context.ts:40-60 | the first six hits are always kept |
| InventoryDiff.CreateInventoryCountMap | ts-core/src/conversation/inventory-diff-cache.ts:76-84 | the loop builds the snapshot |
| InventoryDiff.CountsAreSums | ts-core/src/conversation/inventory-diff-cache.ts:76-84 | a snapshot holds the sum over an item's stacks |
| InventoryDiff.CountsInOrder | ts-core/src/conversation/inventory-diff-cache.ts:76-84 | with one entry for each item, in first-seen order |
| InventoryDiff.DiffIsExact | ts-core/src/conversation/inventory-diff-cache.ts:86-99 | an entry is reported iff its item changed, with exactly the change |
| InventoryDiff.DiffInOrder | ts-core/src/conversation/inventory-diff-cache.ts:86-99 | an item is listed once, in the order of the baseline, then of what is new |
| InventoryDiff.DiffCompletes | ts-core/src/conversation/inventory-diff-cache.ts:86-99 | baseline + diff = current |
| InventoryDiff.NoLineIff | ts-core/src/conversation/inventory-diff-cache.ts:101-103 | the line is left out iff no amount changed |
| InventoryDiff.Cache.PreparePromptContext | ts-core/src/conversation/inventory-diff-cache.ts:46-60 | compares with the bot's baseline and moves nothing; a step of the cache's run |
| InventoryDiff.PromptContext.AdvanceBaseline | ts-core/src/conversation/inventory-diff-cache.ts:61-71 | the first call moves its bot's baseline only; repeated calls do nothing; a step of the cache's run either way |
| InventoryDiff.ReportsTelescope | ts-core/src/conversation/inventory-diff-cache.ts:46-73 | while one bot's contexts are advanced in turn, whatever other bots do, its reported deltas add up to last minus first |
| InventoryDiff.ReportsFallShortBy | ts-core/src/conversation/inventory-diff-cache.ts:46-73 | in any run, in whatever order contexts are prepared and advanced: reported deltas = last minus first, less what lies between each baseline and the context before |
| InventoryDiff.TelescopedIff | ts-core/src/conversation/inventory-diff-cache.ts:46-73 | so the deltas add up iff nothing was missed on balance |
| InventoryDiff.OverlappingContextsMiss | ts-core/src/conversation/inventory-diff-cache.ts:46-73 | of two contexts prepared before there is a baseline, whatever arrived between them is missed |

## Left out

- Name normalisation, `get_recipe`, `get_mining_rule`, `_select_best_recipe` and the minecraft-data bridge: they become the catalog parameter; the fields they only pass through (`requires_table`, `acquisition_hint`) are dropped.
- Negative inventory counts: the snapshot builder makes counts natural (backend/grounding/snapshot_builder.py:40-56).
- Python's dictionaries remember insertion order; the order of `base_missing` is not modelled.
- BudgetEngine.AnalyzeWithInventory: needs a closed part of the catalog that is sound. Non-termination is proved for circles of first materials and tools; on which stocks the recursion returns where a circle leads through later materials is not characterised (surplus that earlier ones put back may cut it short).
- Square roots and floating-point ties in distances, and `sort_cluster_for_mining`, a one-line sort.
- Candidates: coordinates are their key strings, distances naturals given by the world; querying the cache, movement and the digging itself are outside.
- Candidates.EmptyPickIff: stated for lists with distinct ids, as the cache numbers them; two clusters of one list with one id would share their mark.
- The JSON text of a frame, the handshake, close frames, `read_until` and `redact_sensitive`.
- RecentView: the failure-capsule readers and the capsule-only rendering; how an event prints its lines (code excerpts) is a parameter, joining the lines into one text is left out, and `localeCompare` is taken as code-point order.
- RecentContext.StoreIsLru: stated for rising positive timestamps; what holds for any others is StepIsLruIff and StoreIsLruIff.
- Segments.SplitToSegments: a maximum below one, for which the inner loop of the original does not end.
- TaskQueues: shutdown is one step; a job enqueued while shutdown waits for its workers is not modelled. Each job's processing is one take and one end.
- Sessions: start and stop of one client are serialised, as the callers do; a handler that swallows its cancellation is not modelled.
- Replay: the envelope's other fields are the payload.
- Classification: a regular expression is the set of ids it matches, the sorted lists of the reverse index are sets, and the LLM generator is outside. The statistics of a build are left out.
- Classification.AggregationIsIdempotent: needs that no aggregate is the source of an aggregate and that their names differ, which holds of the table in the source.
- SearchHits: the snippet's composition and the JSON encoding; `query` is passed through.
- InventoryDiff: the capture time of a baseline, which nothing reads, and the text of a diff line.
- LLM clients, agents, the workflow graph, storage, web wiring and the bot bridge.
