# Verified models of the core of OpenIO SDS

This project models, in Dafny 4.11, the stateful core of OpenIO SDS and proves what it is for.

* **Red-black tree** (`LruNodes`, `RbShape`, `RbLinks`, `RbTree`): the pointer tree of `core/tree.h`, with parent
  links. A value (`RbShape`) says what each rotation and recolouring does to the shape, a context with a hole is the
  position that the loops have reached, `RbLinks` ties both to the links of the nodes, and the methods of `RbHead`
  follow the code branch by branch.
* **LRU tree and event buffer** (`LruSpec`, `LruTree`, `EventBuffer`): the tree and the doubly linked list over the
  same nodes refine a sequence of entries, which refines a dictionary; the event buffer is described by its history.
* **Load balancer**: locations and their distances (`Location`, `Proximity`), the walk and the draw (`Walk`, `Draw`), the
  index of a slot and what feeds and purges make of it (`Counters`, `Slots`, `Feeding`, `Purging`, `Sharing`), the world as a
  state machine with its runs (`WorldSpec`, `WorldIndex`, `WorldOrder`, `WorldStored`, `WorldReload`, `WorldShared`), polling
  with known locations and an arbitrary source of random numbers (`Matching`, `Poll`, `Patching`, `Placement`, `PollEdges`,
  `Caps`), and the class that makes these steps and serves these polls (`World`).
* **Upload and download** (`HttpPut`, `Upload`, `Delivery`, `Download`, `RoundTrip`): the fan-out of a streamed PUT under an
  arbitrary scheduler, the cutting of a stream into metachunks, the end that a scheduler without failures leads to, the layout
  of chunks and the reading of ranges.
* **Directory** (`MetaZero`, `Prefixes`): the two forms of the mapping of prefixes, and the bitmap of managed prefixes.
* **Shared definitions** (`Basics`).
* **URLs** (`Percent`, `Url`): percent-encoding, the packed forms, their parsing, and the cached forms.

Updated objects are classes; their methods are proved against functions on values, and the main theorems are about
these functions, over every input or every run. Random numbers, clocks, the proxy, the transfers and the order in which
GLib traverses a tree are parameters or arbitrary choices.

## What the proofs say about the code

* The step of the shuffled lookup is coprime with the number of items, for every number below 2^31-1, except
  exactly 1048538 = 2 x 524269 (`Walk.JumpIsCoprime`); with that number, a walk sees two items only (`Walk.UnluckyWalk`).
* GLib keyed lists refuse the key 0, and the key of a host can be 0 (`Location.HostKeyVanishes`). A location is too
  popular exactly when its key is not 0 and as many locations as its cap are counted under it (`Placement.PopularIff`).
  Under a key of 0, any poll of a small world picks two items of a host that allows one (`PollEdges.ZeroKeyExceeds`). Every other prefix is
  held to its maximum, and two prefixes that share a key are only counted together.
* A location 0 ends the list of the locations already chosen. The distance test sees all of them exactly when none is 0
  (`Placement.TestSeesAll`); each pick is far from all that come before the first 0, and after a pick at 0 any poll of a
  small world picks one item twice (`PollEdges.ZeroHidesPicks`).
* The distance reported for a pick is computed with a placeholder, 2^64-1, in its place: it is the true one exactly
  when the pick is not that close to the placeholder (`Placement.ReportedIsTrue`); otherwise it may be below the
  minimum (`PollEdges.PlaceholderTooNear`).
* A pick is written over the first known location that no target took yet, which is still counted but no longer
  compared with. Which known locations no target takes before the first pick is determined by the request, before any
  random number (`Placement.PreludeIs`). The first pick is compared with everything; a later one is exactly when the
  request leaves none unclaimed (`Placement.PickSeesAll`), and then all picks are far from all known locations
  (`Placement.PlacementIsSafe`). Otherwise a pick may be too close to a known location (`PollEdges.KnownForgotten`).
* A feed updates an item for all slots and raises the flags of one. The other slots keep a right index exactly when
  the new weight and location are harmless to each: same weight, same rank and same keys, as far as their flags promise
  (`Sharing.ForeignStays`, `WorldIndex.FeedIndexes`), and a run keeps all indexes at every step exactly when all its feeds are
  harmless (`WorldIndex.RunIndexes`). Runs that feed each item to one slot, or always alike, are (`WorldOrder.OrderlyIsCautious`).
  Otherwise a slot can end with clear flags over stale weights, even if it is fed the new weight too
  (`WorldShared.SharedItemBreaks`), or unsorted: the search then misses an item, and the next feed gives it a second entry
  (`WorldShared.SharedItemLost`).
* A feed stores its weight; it stores its location exactly when the item is new, or was in that slot, or was already
  there (`Feeding.FeedStores`). An item that a reload left out comes back where it was (`WorldShared.StaleLocation`).
* The draw favours the first item by one and the last one by minus one (`Draw.HitsAreWeights`), and so does the first look
  of a poll at a slot (`Placement.FirstLookFollowsWeights`); as long as the items drawn are acceptable, they are the picks
  (`Patching.Patch`).
* A distance is lowered, where this is allowed, exactly when there are more targets for a slot than different keys of its
  items at the level below (`Caps.CrowdedIs`). Each pick is then still made at the greatest distance asked at which there is
  one, and a poll still fails only if some target cannot be served even at the minimum distance (`Patching.Patch`).
* A replica that gives fewer bytes than asked, without error, is followed by the next one, which is asked for the same
  bytes from their start. What is read is right, whatever the bytes, exactly when all replicas but the last one gave
  nothing (`Download.ReadIsRight`). A read can succeed with more bytes than asked, as what is left to read wraps to a
  number that stands for an unknown size (`Download.WrappedRead`).
* A new slot is of generation 0: when the counter of generations wraps to 0, a reload also keeps the slots that it only
  creates (`WorldReload.Reload`).
* `oio_url_unset` keeps the whole form in the cache: it is stale exactly when the field was shown in it
  (`Url.ShownMatters`). The cached full path is never stale.
* The whole form of a URL is recovered by its parsing exactly when it names a container and has a path that is not empty,
  or neither a path nor a version (`Url.WholeRoundTrip`): a version without path only appears in the options, which
  the parsing ignores.

## Model

| member | source | states |
|---|---|---|
| `RbTree.RbHead.RotateLeft` | core/tree.h:340-358 | a left rotation turns the links of the tree into those of the rotated shape and leaves every other node alone |
| `RbTree.RbHead.RotateRight` | core/tree.h:360-378 | the same for a right rotation |
| `RbTree.RbHead.InsertColor` | core/tree.h:405-447 | from a red node that may have a red parent, at any depth, the loop ends with a red-black tree in the same order over the same nodes |
| `RbTree.RbHead.RemoveColor` | core/tree.h:449-525 | from a subtree one black node short, at any depth, the loop ends with a red-black tree in the same order over the same nodes |
| `RbTree.RbHead.Place` | core/tree.h:595-610 | the descent finds the node of the key, or the empty place that the comparisons on the path lead to |
| `RbTree.PathBounds` | core/tree.h:595-610 | in a sorted tree, the few comparisons made on a path place the key with respect to every node |
| `RbTree.RbHead.Insert` | core/tree.h:595-623 | keeps a red-black tree with mutual links, sorted; an existing key leaves the order as it was and is returned, otherwise the order gains exactly the new node |
| `RbTree.RbHead.Find` | core/tree.h:626-642 | finds the node of a key, and fails exactly when no node has it; makes no more comparisons than the tree is high |
| `RbTree.RbHead.RemoveOuter` | core/tree.h:527-592 | removal of a node with one son at most: a red-black tree without that node, in the order that was left |
| `RbTree.RbHead.RemoveInner` | core/tree.h:535-578 | removal of a node with two sons: its successor takes its place and its colour, and the tree is red-black again |
| `RbTree.RbHead.Remove` | core/tree.h:527-592 | the order loses exactly the node, wherever it is; no key is required or looked at |
| `RbShape.RecolourRises` | core/tree.h:414-419 | a red uncle: recolouring moves the red pair up two levels and keeps black heights |
| `RbShape.TurnRises` | core/tree.h:420-427 | a black uncle: the rotation repairs the red pair |
| `RbShape.BlackSonsLack` | core/tree.h:462-468 | a black sibling with black sons: reddening it moves the lack up one level |
| `RbShape.RefilledFits` | core/tree.h:480-486 | a black sibling with a red outer son: the rotation gives the missing black node back |
| `RbShape.HeightBound` | core/tree.h:51-59 | two to the height is at most the square of the number of nodes plus one |
| `RbTree.RbHead.HeightIsLow` | core/tree.h:51-59 | on a tree of the heap, two to the height is at most the square of the number of its nodes plus one |
| `LruTree.Lru.Extract` | core/lrutree.c:107-123 | the node leaves the list, whose links stay mutual |
| `LruTree.Lru.PushFront` | core/lrutree.c:125-138 | the node becomes the first of the list |
| `LruTree.Lru.Insert` | core/lrutree.c:183-208 | tree, list and count keep describing the same nodes, whose entries are those of the sequence specification, under both flags |
| `LruTree.Lru.Get` | core/lrutree.c:210-229 | the value and the new order of the entries are those of the specification |
| `LruTree.Lru.Remove` | core/lrutree.c:231-249 | exactly the entry of the key is removed |
| `LruTree.Lru.Steal` | core/lrutree.c:251-291 | the entry is handed over and removed, its key being cleared before the structural removal |
| `LruTree.Lru.RemoveOlder` | core/lrutree.c:325-335 | pops the tail while it is too old |
| `LruTree.Lru.RemoveExceeding` | core/lrutree.c:337-347 | leaves the most recent entries, up to a count |
| `LruTree.Lru.RemoveMatching` | core/lrutree.c:349-366 | leaves exactly the entries that the filter does not match, in the same order |
| `LruTree.Lru.ForeachOlderSteal` | core/lrutree.c:368-379 | hands over the expired entries from the oldest, at most `max` of them |
| `LruSpec.StepKeeps` | core/lrutree.c:183-379 | each of the seven kinds of operation keeps unique keys and the order by access time, and does to the contents what the dictionary does |
| `LruSpec.RunRefines` | core/lrutree.c:183-379 | any run of the seven, under any flags and a clock that does not go back, keeps them too, and its contents go through the steps of the dictionary |
| `LruSpec.GetIsLastPut` | core/lrutree.c:183-379 | after any run, a lookup answers exactly when the key is still there, and then with the last value put under it |
| `LruSpec.ValueIsLastPut` | core/lrutree.c:183-379 | whatever the dictionary went through, a key that is present has the last value put under it |
| `LruSpec.ExceedKeeps` | core/lrutree.c:337-347 | cutting the queue leaves as many entries as allowed, a part of the dictionary; none that left was touched after one that stays |
| `LruSpec.StealKeeps` | core/lrutree.c:368-379 | stealing takes expired entries only, oldest first, at most as many as allowed, and all of them if fewer |
| `LruSpec.FilterKeeps` | core/lrutree.c:349-366 | filtering restricts the dictionary to the entries that do not match |
| `LruSpec.FreshTable` | core/lrutree.c:325-335 | popping from the tail removes exactly the entries whose access time is before the limit |
| `LruSpec.FreshAtMostIs` | core/lrutree.c:368-379 | with a quota, a suffix of expired entries leaves, and all of them if the quota is not reached |
| `LruSpec.UnmatchedKeeps` | core/lrutree.c:349-366 | filtering keeps the order and removes exactly the matching entries |
| `EventBuffer.Buffer.Put` | events/oio_events_queue_buffer.c:74-81 | the history gains a put, and the buffer keeps tracking it; the clock and the nodes are as the next call needs |
| `EventBuffer.Buffer.FlushKey` | events/oio_events_queue_buffer.c:50-61 | emits the last payload put since the previous emission of the tag, or nothing |
| `EventBuffer.Buffer.MaybeFlush` | events/oio_events_queue_buffer.c:63-72 | emits, for at most `max` tags whose first pending put is older than the delay, the last payload of each, in the order of the first puts; if fewer, nothing expired is left |
| `EventBuffer.Buffer.IsEmpty` | events/oio_events_queue_buffer.c:83-90 | empty exactly when no put is pending |
| `EventBuffer.TracksPut` | events/oio_events_queue_buffer.c:74-81 | an overwrite changes the payload but neither the age nor the rank of a tag |
| `Location.ItemIsTooClose` | core/lb.c:603-616 | whether some location before the first zero shares the prefix for the distance |
| `Location.FindMinDist` | core/lb.c:633-642 | the greatest distance up to a limit at which a location is not too close |
| `Location.CloseMonotone` | core/lb.c:597-616 | close at a distance, close at any greater one |
| `Location.PrefixVanishes` | core/lb.c:2032-2044 | the maximum distance computed from the leading zeroes is between 1 and 4, and the prefix at it is empty |
| `Location.PrefixRemains` | core/lb.c:2032-2044 | the prefix one level below the maximum distance is not empty, so that it is the least level with an empty prefix |
| `Location.BeyondCap` | core/lb.c:2032-2044 | beyond the maximum distances of two locations, they are too close |
| `Location.UpperKeys` | core/lb.c:569-577 | at the two upper levels, keys are not zero and identify prefixes |
| `Location.HostKeysCollide` | core/lb.c:569-577 | at the lowest level, two prefixes can share a key |
| `Location.HostKeyVanishes` | core/lb.c:569-577 | at the lowest level, a key can be zero |
| `Proximity.CommonIs` | core/loc.c:45-74 | two locations share their first bits exactly when the leading zeroes of their exclusive or are at least as many |
| `Proximity.MaskIsSegment` | core/loc.c:91-99 | two different locations are masked alike exactly when their proximity is at least that level |
| `Proximity.MaskTwice` | core/loc.c:91-99 | a mask keeps the first bits of a location and gives one no greater |
| `Proximity.CloseIsDistance` | core/loc.c:60-74 | the distance between locations and the test of the load balancer agree: too close for a distance means at a lower one |
| `Walk.ChooseJump` | core/lb.c:870-889 | the loop over the candidate primes picks the first remainder in the open middle third, other than 1 and the number of items less one, or 2^31-1 if there is none |
| `Walk.JumpIsCoprime` | core/lb.c:36-41 | that step is coprime with the number of items exactly when there are not 1048538 of them, given that the constants are prime |
| `Walk.WalkIsComplete` | core/lb.c:1060-1068 | from any start, with a coprime step, the walk sees every index exactly once |
| `Walk.UnluckyWalk` | core/lb.c:1060-1068 | with 1048538 items, the walk only ever sees two of them |
| `Slots.RehashClears` | core/lb.c:816-890 | from any slot, a rehash clears the flags and keeps the numbers of entries and the sum of the weights |
| `Draw.DrawIsLeast` | core/lb.c:906-926 | the search returns the least index whose accumulated weight reaches the number drawn |
| `Draw.HitsAreWeights` | core/lb.c:1047-1049 | over all numbers below the sum, an item is hit as often as its weight, plus one for the first and minus one for the last |
| `Draw.HitsTotal` | core/lb.c:1047-1049 | the hits total the sum of the weights |
| `Counters.TallyIsExact` | core/lb.c:802-814 | counters say how many locations have a key, for every key but 0 |
| `Slots.SortIs` | core/lb.c:822 | sorting by location orders the entries and keeps each of them |
| `Slots.SearchIsFirst` | core/lb.c:1823-1861 | in a sorted list, the search and the slide find the first position of a location, or none exactly when there is none |
| `Slots.FindAgrees` | core/lb.c:1864-1888 | the binary search finds an item exactly where a linear scan would |
| `Slots.RehashIndexes` | core/lb.c:816-890 | a rehash clears the flags and leaves a sorted list, exact accumulated weights, exact counters and the right step |
| `Slots.RehashHits` | core/lb.c:816-890 | a rehash keeps the entries of both lists |
| `Slots.AlikeKeeps` | core/lb.c:816-868 | what a slot promises only depends on the items it holds |
| `Feeding.FeedKeeps` | core/lb.c:1946-2030 | feeding keeps the index, gives the item exactly one entry, in the list for its weight, stores its weight and its location as specified, and leaves other items and entries alone |
| `Feeding.FeedStores` | core/lb.c:1969-2020 | the weight of a feed is stored; its location is exactly when the item is new, or had an entry in the slot, or was already there |
| `Feeding.FoundKeeps` | core/lb.c:1984-2020 | a known item is found if it has an entry, which stays, or moves between the lists as its weight reaches or leaves 0; only then is it relocated |
| `Purging.PurgeIs` | core/lb.c:2154-2167 | the loop that swaps the last entry in keeps only recent entries, and all of the list if nothing is old |
| `Purging.PurgeHits` | core/lb.c:2154-2167 | recent entries are kept as they are |
| `Purging.PurgeBalance` | core/lb.c:2154-2167 | a purge gives back one reference for each entry it removes |
| `Purging.PurgeSlotKeeps` | core/lb.c:2172-2195 | a purge keeps the index of a slot and leaves it rehashed |
| `Purging.PurgeSlotHolds` | core/lb.c:2172-2195 | after a purge with age 0, each list holds exactly its entries of the current generation |
| `Purging.FlushSlotKeeps` | core/lb.c:735-763 | a flush empties the slot and gives back all its references |
| `Sharing.ReweighedStays` | core/lb.c:1969-1977 | a new weight keeps the accumulated weights of a slot right exactly when it is the old one or the slot does not have the item |
| `Sharing.SortedStays` | core/lb.c:1984-2010 | a new location keeps a list sorted exactly when it stays between its neighbours |
| `Sharing.TallyStays` | core/lb.c:802-814 | a new location keeps the counters right exactly when it has the same keys |
| `Sharing.ForeignStays` | core/lb.c:1946-2030 | what a feed changes leaves a slot that is not being fed right exactly when it is harmless to it |
| `WorldSpec.StepCounts` | core/lb.c:1670-2246 | every operation keeps the reference counts equal to the numbers of entries |
| `WorldSpec.RunCounts` | core/lb.c:1670-2246 | in every reachable world, even with shared items, each reference count is the number of entries, in 16 bits, and every entry points at an item of the world |
| `WorldIndex.FeedIndexes` | core/lb.c:1946-2045 | a feed keeps the index of all slots exactly when it is harmless to the slots that it is not for |
| `WorldIndex.FeedAllIndexes` | core/lb.c:2059-2074 | so does each feed of a list, where those before it have led |
| `WorldIndex.StepIndexes` | core/lb.c:1670-2246 | every operation keeps all indexes exactly when its feeds are harmless; the other operations always do |
| `WorldIndex.RunIndexes` | core/lb.c:816-2246 | from the empty world, the indexes of all slots are right after each operation and each feed of a list exactly when each feed is harmless to the slots that it is not for |
| `WorldIndex.IndexHolds` | core/lb.c:816-868 | what this means: each item once, in the list for its weight; when the flags are clear, sorted lists, exact counters, strictly increasing weights and the step for the number of items |
| `WorldIndex.SearchHolds` | core/lb.c:1864-1888 | in all these states, dirty or not, a search agrees with a linear scan |
| `WorldIndex.Weights` | core/lb.c:853-863 | while the sum fits in 32 bits, accumulated weights are exact, strictly increasing, and end with the sum |
| `WorldIndex.DrawFollowsWeights` | core/lb.c:1047-1049 | in the same worlds, in a slot with clear flags, the random numbers below the sum hit each item as often as its own weight, plus one for the first and minus one for the last |
| `WorldIndex.RehashAllClears` | core/lb.c:2141-2152 | after a rehash of all slots, from any world, none needs one, and each list has the entries it had, for every test that does not look at the accumulated weights |
| `WorldOrder.OrderlyIsCautious` | core/lb.c:1946-2074 | runs that feed each item to one slot only, or always with the same location and weight, keep all indexes right |
| `WorldStored.RunStores` | core/lb.c:1946-2074 | after any harmless feeds, among which slots are created, each item has the weight of its last feed, and the location of the last feed that was for a new item or for a slot that had it; slots have what they had and what they were fed |
| `WorldShared.StaleLocation` | core/lb.c:1984-2025 | an item fed, left out of a reload, and fed again elsewhere stays where it was |
| `WorldShared.SharedItemBreaks` | core/lb.c:1969-1977 | an item fed to two slots, then to each of them with another weight, leaves the first with clear flags and a stale weight |
| `WorldShared.SharedItemLost` | core/lb.c:1984-2025 | an item fed to two slots, then to one of them with another location, leaves the other unsorted with clear flags; the search misses the item, and the next feed gives it a second entry |
| `WorldReload.RunCaps` | core/lb.c:2032-2044 | in every reachable world, no item is beyond the absolute maximum distance |
| `WorldReload.RunReaches` | core/lb.c:2032-2044 | in every reachable world, the absolute maximum distance is the greatest one of the locations fed to existing slots: it covers them all, and one of them reaches it |
| `WorldReload.CapSkipsNothing` | core/lb.c:2032-2044 | beyond that distance, any two items are too close |
| `WorldReload.Reload` | core/lb.c:2128-2238 | a new generation, any harmless feeds, among which slots are created, then a purge: the slots that remain are exactly those fed, and those only created if the generation is 0; each holds exactly the items it was fed, once each, and each item has the weight of its last feed and the location of the last one stored |
| `World.Find` | core/lb.c:1864-1888 | the method computes the specified position |
| `World.Rehash` | core/lb.c:816-890 | the loops make of a slot what the specification of a rehash says |
| `World.PurgeSlotItems` | core/lb.c:2154-2167 | the loop makes of a list and of the items what the specification says |
| `World.World.FeedSlotUnlocked` | core/lb.c:1946-2045 | makes the step, for a slot at hand |
| `World.World.FeedSlot` | core/lb.c:2047-2057 | makes the step, or none if there is no such slot, and keeps the object at the end of a run from the empty world |
| `World.World.FeedSlotWithList` | core/lb.c:2059-2074 | makes the steps of a list of feeds, then a rehash |
| `World.World.CreateSlot` | core/lb.c:1727-1752 | there is a slot of that name, an empty one if it is new, and the other slots are as they were |
| `World.World.RehashAllSlots` | core/lb.c:2141-2152 | no slot needs a rehash any more, each has the entries it had, and the world is ready exactly when the sizes of its slots allow it |
| `World.World.PurgeOldGenerations` | core/lb.c:2169-2238 | makes the step: old entries, then old slots, leave |
| `World.World.FlushAll` | core/lb.c:1670-1690 | no item is known, and all slots are empty, under their names |
| `World.World.Guarantees` | core/lb.c:1670-2246 | in every object, references are counted, no item is beyond the cap on distances and, if the feeds were harmless, all indexes are right |
| `World.World.Patch` | core/lb.c:1419-1447 | a poll of the object answers a safe placement, with the fair maxima exactly where they are to be tried and serve all targets, or are forced; an attempt that fails, that one too, comes with its run; if the feeds were harmless and the slots are ready, each run is greedy, searches and draws are exact, and an attempt fails only when a target cannot be served |
| `Matching.FindsIs` | core/lb.c:1838-1861 | in a sorted list, a search finds exactly the locations of the list |
| `Matching.MatchIs` | core/lb.c:1120-1188 | when the slots are sorted, a target takes a pending location exactly if one of its slots has one, among the items without weight too in the strict pass, which only looks at the first slot that exists; it is the first one that the first such slot has |
| `Matching.NoMatchInFewer` | core/lb.c:1120-1188 | a target that no pending location stands for is in the same case when fewer are pending |
| `Poll.CountAll` | core/lb.c:1314-1319 | the known locations are counted |
| `Poll.Polling.IsSatisfied` | core/lb.c:1120-1188 | the scan finds the specified pending location, the first one for a joker, swaps it with the first one, and takes it out of those pending |
| `Poll.ItemIsTooPopular` | core/lb.c:677-733 | whether the prefix of a location reached its cap at one of the three levels |
| `Poll.CapIsLeast` | core/lb.c:709-718 | the proportional cap is the least number of targets that, times the number of items for one under the key, reaches the number of targets |
| `Poll.CountSimilar` | core/lb.c:892-904 | counts the targets with the same main slot |
| `Poll.Relaxed` | core/lb.c:1024-1041 | the distance falls by one exactly when a bypass is allowed, it is above the minimum, and there are more similar targets than locations at the level below |
| `Poll.Drawn` | core/lb.c:1043-1049 | where the accumulated weights increase up to their sum, the item drawn is the first one whose accumulated weight reaches the random number modulo the sum |
| `Poll.VisitJumps` | core/lb.c:1060-1063 | after the draws, each item looked at is a jump away from the one before it, or from the first item if nothing is drawn |
| `Poll.Polling.AcceptItem` | core/lb.c:928-995 | accepts exactly the acceptable locations, which are written over the next pending one, and counted |
| `Poll.Polling.PollSlot` | core/lb.c:1002-1072 | looks at the items drawn by the random numbers, each the first one that its number reaches, then at those of the walk from the last one, in this order, and picks the first acceptable one, so the first one drawn if it is acceptable; refuses only after all of them |
| `Poll.RefusedAll` | core/lb.c:1060-1068 | when the walk is complete, a slot that refused all it looked at has no acceptable item |
| `Poll.Polling.PollTarget` | core/lb.c:1074-1107 | when the walks are complete, picks from the first slot of a target that has an item acceptable at the distance of the slot, lowered or not, and fails exactly when none has; picks the first item drawn from the main slot if it is acceptable |
| `Poll.Polling.PollDistances` | core/lb.c:1330-1333 | the descent on distances stops at the greatest one at which the target can be served; with a bypass or not, it fails only if the target cannot be served even at the minimum distance |
| `Patching.MatchKnown` | core/lb.c:1190-1207 | the first pass gives each target the pending location that its main slot has, or leaves it |
| `Patching.StrictIsExhaustive` | core/lb.c:1190-1207 | after the first pass, no location still pending is in the main slot of a target that is left, and no joker is left |
| `Patching.ServeTarget` | core/lb.c:1327-1333 | a target left takes a pending location if it can, and otherwise the pick of the descent on distances |
| `Patching.Patch` | core/lb.c:1257-1417 | a bad request exactly with as many known locations as targets; each choice may follow those before it, in the order of the passes; as long as each random number draws an acceptable item of the main slot, the picks are the items drawn, in turn; when the walks are complete, each pick is made at the greatest possible distance, in the first slot that could serve, and a refusal means that a target cannot be served, with a bypass or not |
| `Patching.EachOnce` | core/lb.c:1321-1363 | a complete run serves each target once |
| `Patching.SetDists` | core/lb.c:1365-1393 | the recomputed distance of each pick is the greatest at which it is far from the list with itself masked |
| `Placement.PlacementIsSafe` | core/lb.c:928-995 | each target once, by a known location that its slots have or by one of their items; a pick is far, at the minimum distance, from every other choice and from the known locations pending, as far as the list is read, and from all known locations when the request leaves none unclaimed; none to avoid, no item twice, no prefix of a pick with more picks and known locations than its maximum; each distance is the greatest one, and at least the minimum except at 0 or next to the placeholder |
| `Placement.LocatedIsSpread` | core/lb.c:928-995 | when no item is at 0 or starts with 0xFFFF, picks are far from all other choices, and their distances are the true ones, at least the minimum |
| `Placement.TestSeesAll` | core/lb.c:603-616 | the distance test sees all the locations listed, for every candidate, exactly when none is 0 |
| `Placement.ReportedIsTrue` | core/lb.c:1365-1393 | the distance reported for a pick is the true one exactly when, at that one, it is far from the placeholder |
| `Placement.ChainConserves` | core/lb.c:1278-1319 | the locations counted are those chosen, those pending and the known ones overwritten by picks |
| `Placement.PreludeIs` | core/lb.c:1321-1328 | what a poll does before its first pick is a function of its request |
| `Placement.LostIffUnclaimed` | core/lb.c:990 | once a pick is made, a known location is overwritten exactly when the request leaves one unclaimed |
| `Placement.PickSeesAll` | core/lb.c:990 | the first pick is compared with everything that is counted; a later one is exactly when the request leaves no known location unclaimed |
| `Placement.PatchPool` | core/lb.c:1419-1447 | the fair maxima are tried first exactly when this is asked, they are not forced and they are set; an answer that does not come from them comes with the run of that attempt, stuck when the walks are complete; otherwise the maxima are the fair ones if forced and else the strict ones; an answer is safe for the maxima it was polled with |
| `Placement.StuckIsLeast` | core/lb.c:1330-1362 | a target is refused exactly when no known location is left for it and no item is acceptable even at the minimum distance |
| `Placement.BeyondCapNothingServes` | core/lb.c:1290-1293 | starting at the cap of the world only skips distances at which, once there is a location to compare with, nothing is acceptable |
| `Placement.RehashedIsWalkable` | core/lb.c:870-889 | in worlds reached by harmless feeds, a rehashed slot can be walked completely exactly when it does not have 1048538 items, and has a positive sum of weights |
| `Placement.RehashedIsReady` | core/lb.c:2141-2152 | from any world, a rehash of all slots makes it ready exactly when each slot has a number of items and a sum of weights that suit |
| `Placement.RehashedRunIsReady` | core/lb.c:2141-2152 | harmless feeds, then a rehash of all slots, lead to a world that is ready as soon as the slots have fewer than 1048538 items |
| `Placement.ReadyIsWalkable` | core/lb.c:870-889 | in such worlds, when all slots are ready, all can be walked, searched and drawn from |
| `Placement.FirstLookFollowsWeights` | core/lb.c:1043-1057 | in worlds reached by harmless feeds, in a slot with clear flags, over the random numbers below the sum, an item is the first one looked at as often as its own weight, plus one for the first and minus one for the last |
| `Placement.FirstPickIsDrawn` | core/lb.c:1043-1057 | the first pick of a poll is the item of the main slot that the first random number draws, if it is acceptable |
| `Placement.PopularIff` | core/lb.c:687-731 | a location is too popular at a level exactly when its key is not 0 and the locations counted under it reach the cap, which is the maximum if one is set |
| `Placement.AcceptableIff` | core/lb.c:928-995 | an item is acceptable exactly when its location is not to avoid, is far from all that is in place or pending, as far as the list is read, and has no key that is counted and reached its cap |
| `PollEdges.ZeroKeyExceeds` | core/lb.c:687-731 | a reachable world whose every poll, whatever the random numbers, picks two items of a host whose maximum is one, under a key of 0 |
| `PollEdges.ZeroHidesPicks` | core/lb.c:603-616 | a reachable world whose every poll picks one item twice, after a pick at 0 |
| `PollEdges.KnownForgotten` | core/lb.c:990 | a reachable world and a known location, left unclaimed, that the second pick of every poll is too close to |
| `PollEdges.PlaceholderTooNear` | core/lb.c:1365-1393 | a reachable world whose every poll reports a distance below the minimum |
| `Caps.CapBounds` | core/lb.c:709-718 | a proportional cap is at least the share it rounds up, at most the number of targets, and one less would not reach it |
| `Caps.CapsSuffice` | core/lb.c:709-718 | over the keys of a slot, the caps sum up to at least the number of targets |
| `Caps.OneLevelNeverRulesOut` | core/lb.c:687-731 | with fewer locations counted than targets, the proportional caps of one level never rule out all items of a slot |
| `Caps.PopularExactly` | core/lb.c:687-731 | with no maximum, an item is too popular exactly when its key is counted and the locations under it, times the number of items for one under the key, reach the number of targets |
| `Caps.CrowdedIs` | core/lb.c:1024-1041 | a slot is crowded at a distance exactly when there are more targets for it than different keys of its items at the level below |
| `HttpPut.Put.Feed` | core/http_put.c:274-290 | the buffer is queued after those fed and the remaining length follows |
| `HttpPut.Create` | core/http_put.c:147-170 | a known length is the expected one too, and a PUT is refused exactly when they differ |
| `HttpPut.Put.Distribute` | core/http_put.c:565-591 | the head of the queue goes to all destinations that are up exactly when none of them has data; otherwise nothing moves |
| `HttpPut.Put.ManageEvents` | core/http_put.c:485-527 | the transfers that can end do, with their code |
| `HttpPut.Put.Perform` | core/http_put.c:363-414 | each read sends a part of the buffer, pauses without one, or ends the body on the marker or at its length |
| `HttpPut.Read` | core/http_put.c:363-414 | a read ends the body exactly on the end marker or at its length, pauses exactly without data, and else sends all it is asked or all there is |
| `HttpPut.Put.Step` | core/http_put.c:541-656 | a step makes the specified moves and keeps the invariant, whatever the scheduler does; the buffers handed out gain the head of the queue exactly when, after the transfers that end, no destination up has data |
| `HttpPut.Put.Failures` | core/http_put.c:299-310 | counts the destinations that ended without a 2xx code |
| `HttpPut.AllFailed` | core/http_put.c:299-310 | failures are all there is exactly when everything ended and nothing succeeded |
| `HttpPut.Replicated` | core/http_put.c:541-656 | in every reachable state, what a live destination sent, holds and will get from the queue is the body |
| `HttpPut.NeverFarApart` | core/http_put.c:565-591 | live destinations send prefixes of the same bytes and differ by at most the last buffer handed out |
| `HttpPut.Complete` | core/http_put.c:363-414 | a destination that got all of the body, or that succeeded, sent exactly the body, which is ended or has its length |
| `Upload.Upload.Feed` | core/sds.c:1420-1438 | a buffer is queued; an empty one ends the stream |
| `Upload.Upload.Renew` | core/sds.c:1547-1613 | a new metachunk starts where the last one ends, with a fresh PUT |
| `Upload.Upload.Push` | core/sds.c:1687-1722 | the metachunk takes as many bytes of the next buffer as it still expects, and the rest stays first |
| `Upload.Upload.Advance` | core/sds.c:1684-1728 | a running metachunk takes what it can of the next buffer and its PUT makes exactly one step |
| `Upload.Upload.Drain` | core/sds.c:1628-1642 | feeds end markers and makes steps, as specified, until the PUT is done, without changing the body |
| `Upload.Upload.Finish` | core/sds.c:1440-1504 | succeeds exactly when some destination did; then the metachunk is done, with its size and its chunks |
| `Upload.Upload.Step` | core/sds.c:1615-1731 | each step keeps the invariant of the upload, makes the progress its state calls for, and says what it did of the queue, of the PUT and of the metachunks |
| `Upload.Upload.CommittedSize` | core/sds.c:1767-1769 | the announced size is the offset plus the sizes of the metachunks |
| `Upload.Conservation` | core/sds.c:1615-1731 | an upload that finishes without error has max(1, ceil(total / chunk size)) metachunks, all full but the last, contiguous, each with a chunk stored and only complete ones, whose bytes concatenate to the input |
| `Upload.Offsets` | core/sds.c:1570-1582 | the offset and the position of each metachunk, in closed form |
| `Delivery.ReadSendsAll` | core/http_put.c:363-414 | a read of at least the size of a buffer sends all of it |
| `Delivery.RoundHands` | core/http_put.c:541-656 | in a step where each destination is read and answers, from destinations without data, all that are up get the head of the queue and send it |
| `Delivery.DrainDelivers` | core/sds.c:1628-1642 | from any state of a PUT that wants no more bytes, if each destination is read and answers 2xx once it got the body, it is done within three steps more than its queue is long, and all destinations that are up succeed |
| `Delivery.Proceed` | core/sds.c:1615-1731 | when transfers go well, a step of an upload with something to do has no error and gets closer to its end |
| `Delivery.Sequential` | core/sds.c:1854-1921 | when the source gives data until its end, the proxy answers and transfers go well, the loop ends with an upload that is finished without error, whose metachunks have all their chunks stored and hold the stream |
| `Download.MetaBound` | core/sds.c:319-330 | one more than the highest position |
| `Download.OrganizeChunks` | core/sds.c:332-398 | fails exactly without chunk, with too many positions or with a gap; otherwise each metachunk has exactly the chunks of its position, the size of one of them, and starts where the one before it ends |
| `Download.ReadReplicated` | core/sds.c:760-798 | the loop over the replicas ends and gives the bytes that the specification says, each replica being asked for the whole slice |
| `Download.ReadIsRight` | core/sds.c:760-798 | a read that ends without error is right, whatever the bytes, exactly when all replicas but the last one gave nothing |
| `Download.WrappedRead` | core/sds.c:784-793 | a read of two bytes that succeeds with five, as what is left wraps to the greatest number |
| `Download.DownloadRange` | core/sds.c:819-847 | the requests stay within their metachunks; it succeeds exactly when all are served and, if cleanly, reads exactly that slice of the content |
| `Download.SlicesCarry` | core/sds.c:849-904 | the bytes of each range are found after those of the ranges before it, and there are no others |
| `Download.Download` | core/sds.c:849-904 | refuses exactly the ranges that start or end out of the content, fails exactly when a request does and, if all are served cleanly, reads the bytes of the ranges in order, or without range the content up to the limit |
| `Download.ShowContent` | core/sds.c:2390-2406 | the loop reports each new position once |
| `Download.ShownAsOrganized` | core/sds.c:2390-2406 | when replicas agree on sizes, the layout reported is that of the organized metachunks |
| `RoundTrip.UploadedIsDownloaded` | core/sds.c:332-398 | the chunks of a finished upload, organized again, hold the bytes that were fed, at the same offsets |
| `MetaZero.ArrayToTree` | meta0v2/meta0_utils.c:50-64 | each prefix is under each of its services as often as the service is listed |
| `MetaZero.TreeToList` | meta0v2/meta0_utils.c:110-129 | each service once, with its prefixes, in some order |
| `MetaZero.ListToArray` | meta0v2/meta0_utils.c:66-108 | each prefix gets the services that list it, as often as they do |
| `MetaZero.Invert` | meta0v2/meta0_utils.c:171-177 | an array turned into a list and back keeps the multiset of services of each prefix, if addresses convert back |
| `Prefixes.Manage` | meta1v2/meta1_prefixes.c:74-79 | sets the bit of a prefix and no other |
| `Prefixes.CacheFull` | meta1v2/meta1_prefixes.c:52-61 | full, word by word, exactly when all prefixes are managed |
| `Prefixes.CacheEmpty` | meta1v2/meta1_prefixes.c:63-72 | empty exactly when none is |
| `Prefixes.CacheOf` | meta1v2/meta1_prefixes.c:103-136 | manages exactly the prefixes listed, for all services or for one |
| `Prefixes.CheckCoalescence` | meta1v2/meta1_prefixes.c:371-392 | the loop over the wrapping 16-bit counter accepts exactly the bitmaps made of whole groups |
| `Prefixes.SlotSwaps` | meta0v2/meta0_utils.c:189-193 | the bytes of a prefix are swapped into the number that indexes the bitmap, one to one |
| `Prefixes.Basename` | meta1v2/meta1_backend.c:34-45 | the first digits of a prefix, then zeroes: read in base 16, the first prefix of its group |
| `Prefixes.NameIsGroup` | meta1v2/meta1_backend.c:34-45 | the base name of a prefix, read in base 16, is the prefix masked to its first digits |
| `Prefixes.SameNameSameGroup` | meta0v2/meta0_utils.c:181-196 | two prefixes have the same base name exactly when they are masked alike |
| `Prefixes.CoalescedIsByName` | meta1v2/meta1_prefixes.c:371-392 | whole groups means that prefixes with the same base name are both managed or both not |
| `Prefixes.PrefixSet.ManageAll` | meta1v2/meta1_prefixes.c:88-98 | manages every prefix, and keeps whole groups |
| `Prefixes.PrefixSet.Load` | meta1v2/meta1_prefixes.c:138-224 | decides as the code does; a refusal changes nothing, an empty mapping never replaces a bitmap that is not, success manages exactly the prefixes of the service in whole groups, and the updated prefixes are exactly those that changed |
| `Percent.EscapeRoundTrip` | core/url.c:129-145 | what is escaped is unescaped into the same bytes, whichever UTF-8 sequences are kept |
| `Percent.EscapeIsPlain` | core/url.c:129-145 | escaped text has no byte that structures a URL |
| `Percent.EscapeKeeps` | core/url.c:129-145 | a text is left as it is exactly when all its bytes are unreserved or kept |
| `Percent.UnescapeIff` | core/url.c:38-58 | a text can be unescaped exactly when each percent sign starts a triplet of hexadecimal digits other than zero |
| `Url.SplitJoin` | core/url.c:72 | pieces joined with slashes are split as they were |
| `Url.WholeRoundTrip` | core/url.c:60-97 | parsing the whole form recovers the five fields exactly under the condition given above |
| `Url.SlashesAreSkipped` | core/url.c:65 | leading slashes do not change what is parsed |
| `Url.RawRoundTrip` | core/url.c:60-97 | without unescaping, plain fields joined with slashes are parsed as they were, and the path keeps its slashes |
| `Url.OptionsAreTokens` | core/url2.c:163-203 | the query tokens of a whole form are the content and the version of the URL, unescaped, under their names |
| `Url.FullpathRoundTrip` | core/url.c:128-172 | unpacking a full path recovers its five fields, whatever URL it is set on |
| `Url.FullpathIs` | core/url.c:128-145 | there is a full path exactly when account, user and version are not empty and path and content are set; split at slashes, it gives the five fields, escaped |
| `Url.Url.SetField` | core/url.c:248-318 | sets one field, truncated as its buffer is, which is then what the URL tells, leaves the others alone, and keeps the cached full path coherent |
| `Url.Url.SetFullpath` | core/url.c:147-172 | sets the five fields of a full path, or none |
| `Url.Url.Unset` | core/url.c:320-378 | clears one field and no other; the cached whole form stays right exactly when it did not show it |
| `Url.Url.GetFullpath` | core/url.c:499-502 | there is a full path exactly when account, user and version are not empty and path and content are set; it splits at slashes into the five fields, escaped |
| `Url.Url.GetWhole` | core/url.c:473-476 | answers the cached whole form, which is a fresh packing unless an unset made it stale |
| `Url.Url.Pack` | core/url.c:415-452 | appends piece by piece the specified whole form |
| `Url.ShownMatters` | core/url.c:320-378 | clearing a field changes the whole form exactly when the whole form shows it |

## Left out

- Adjacent mode and `_item_is_too_far`: at distance 4 the shift is by 64 bits, which C leaves undefined.
- `_local__poll_around`, `_match_item_with_targets` and `_unique_services`: a distance is passed where a proximity level is expected.
- The `flawed` reports, the warning distance and the counts per level attached to a selected item: they do not influence the selection.
- Addresses, TLS names and read weights of services, and the cache of service ids.
- Locations from dotted strings, which are hashes; the proximity of a location with itself, and masks at level NONE, which C leaves undefined.
- Walk.JumpIsCoprime: takes the primality of the eight constants as a hypothesis.
- WorldIndex.IndexHolds: strictly increasing weights are stated for sums below 2^32.
- Patching.Patch: takes no lock, and its random numbers are reduced modulo the sum of the weights, which the code draws on 31 bits.
- HttpPut.Put.Step: a destination succeeds only after it got the whole body.
- Delivery.Sequential: the data hook neither fails nor waits, and no size is announced.
- Upload.Upload.Drain: stops when the scheduler does, where the code waits; the upload then goes on with the next step.
- Checksums, headers, erasure coding and the requests to the proxy, whose answer to a preparation is a parameter.
- Download.OrganizeChunks: positions do not reach the last 32-bit number, and none is before the start.
- Download.ReadReplicated: a replica gives the first bytes of the slice, never others.
- The choice of a directory service to load prefixes from, and its retries.
- Prefixes.PrefixSet.Load: the prefixes of a service come as whole 16-bit numbers.
- The splay tree, the iterators and the minimum of `core/tree.h`, and `lru_tree_foreach`.
- Container ids; a piece that cannot be unescaped leaves its buffer alone.
- SQL services of the directory, configuration, logging, locks and message transports.
