# Verified models of a game server

The server keeps a world of items in nested containers, pays and trades with them, lets them decay, runs a market,
saves the conditions of its players, and moves creatures and spells over a tile map. This project models the parts of
it where a mistake would create or lose something, and proves what they promise. `dafny verify dfyconfig.toml` checks
everything.

**Items.** `Forest`, `Descendants` and `ItemTree` are the theory of the item tree: containment as a map from an item
to its parent, the parent that `getParent` tells, which depot chests and inboxes take from the container that holds
them, and the few elementary edits that change links and totals. `ItemWeights` says whose cached total each edit keeps
right. `ItemStock` counts what lies in a set of containers. `ItemWalk` is the breadth-first walk. `Containers` has the
mutable class `Item` with the methods of `Container`, each specified by the edit it makes to a snapshot of all items.
`ItemMove`, `ItemAdd` and `GameItems` build `internalMoveItem`, `internalAddItem` and `internalRemoveItem` on it,
`ItemCopy` the recursive clone, `DepotLimit` the limit of depot chests. `ItemTotals` follows the totals through whole
operations, `ItemSteps` says what every single operation keeps, and `ItemRun` what whole runs of them do.
`ItemExamples` and `MoveLoss` are small worlds in which something goes wrong. A world is any forest of items: lockers
with their inbox and chests, on a tile or nowhere, bags and loose stacks.

**What is built on items.** `Money` pays with coins and gives change; `Market` holds money and goods in escrow;
`Trade` pairs players and keeps the list of what they offer; `ItemReferences` is the theory of reference counters, and
`Decay` keeps the two indexes of decaying items, the release list and the cleanup with its cascade through containers;
`DecayEffects` says what a decay does to them, effect by effect and over a whole round.

**Files and players.** `OtbFormat` and `OtbLoader` are the tree file parser; `Conditions` and `ConditionStreams` save
and load a player's conditions; `ConditionList` is a creature's condition list with its speed ledger; `DamageList`
spreads a damage over rounds; `CombatDamage` and `Experience` account for a hit and for the experience of a kill.

**Map and threads.** `WalkCache` is the picture of walkable tiles around a creature; `SpellArea` the turning of spell
shapes; `DatabaseTasks` the queue of database jobs between producers, a worker and a closing thread.

## Findings

Where the code does not keep what one would expect of it, the model keeps the code and a lemma says exactly when.

- A move into a paginated container can lose pieces: `Container::addThing` drops what it is given when the index is at
  or beyond the capacity (src/container.cpp:482-484). `GameItems.MoveLosesExactly` says which moves lose how much,
  from the world and the arguments alone; `MoveLoss.PaginatedMoveLoses` is such a move.
- The totals of lockers and outer chests go wrong. A depot chest and an inbox answer `getParent` with the parent of the
  container that holds them (src/depotchest.cpp:60-66, src/inbox.cpp:50-56), and `updateItemWeight` climbs by it
  (src/container.cpp:68-75, 138-144), so the container that holds them (src/player.cpp:973-1006) never hears of what
  changes inside. `ItemWeights.ChangeStaysRight`, `ArrivalStaysRight` and `DepartureStaysRight`: the total of an
  enclosing container stays right if and only if no chest or inbox hangs directly in it on the way;
  `ItemExamples.LockerMissesMail` is a locker that misses 100 coins. `ItemRun.RunKeepsTotals`: whatever holds no chest
  or inbox directly has a right total in every world of a run.
- For the same reason the walk of `queryAdd` does not see that a locker or outer chest is put into itself by way of
  its own inbox or box. `ItemAdd.OverlooksIff`: an enclosing item is overlooked if and only if a chest or inbox hangs
  directly in it on the way; `ItemExamples.BoxTakesItsChest` is a box whose queries let its own chest in, after which
  the parent pointers are no forest.
- And a depot box that stands nowhere, like those in the locker of a player who is not at a depot, does not learn of
  what is put into a bag in it. `DepotLimit.ChestAskedIff`: a chest is asked about what goes into a container inside
  it if and only if its walk ends at a tile and no other chest or inbox hangs directly in it on the way;
  `ItemExamples.ClosedBoxOverfills` is a full box that takes one more.
- A stack of which a part is taken is released although pieces of it remain, when its outermost container lies on no
  tile: `Item::isRemoved` asks the parents all the way up (src/item.h:1219-1221, src/game.cpp:1253-1255, 1441-1447).
  `GameItems.Game.InternalMoveItem` and `GameItems.Game.InternalRemoveItem`: a stack is released if and only if nothing
  of it is left or its outermost container lies on no tile; `ItemExamples.HalfTakenReleased` is such a removal.
- An added stack that merges with another one in part stays behind as a loose object that nothing holds and nobody
  releases; a clone of the rest is handed on in its place (src/game.cpp:1363-1373). `ItemAdd.LeftBehind`: exactly
  then; `ItemExamples.CoinsLeftBehind` is such an addition.
- A released container stops the decay of what lies in it (src/container.cpp:51-54, src/item.cpp:274-279), which asks
  for another release while the release list is being walked; the list is then cleared (src/game.cpp:5444-5447) and
  the request is lost. `ItemReferences.NothingLost`: none is lost if and only if no item about to be freed directly
  holds a decaying one. `ItemReferences.BagLosesTorch` is a bag that loses its torch, and `ItemReferences.LostForever`
  says that such an item is never freed.
- The column shift of the walk cache asks for a distance where its branches expect a signed offset
  (src/creature.cpp:590-596, 613-619). `WalkCache.StepAccuracy`: a step keeps the cache right exactly when it is not
  to the south-east or south-west; with the signed offset every step does.
- A flipped or mirrored spell area moves its centre along the wrong axis (src/combat.cpp:1420, 1429).
  `SpellArea.FlipCentre` and `SpellArea.MirrorCentre`: the offsets are turned exactly when the centre is the middle of
  the grid.
- The worker of the database queue reads the state outside the lock. `DatabaseTasks.MissedWakeup` and
  `DatabaseTasks.WorkerLeaves`: after a shutdown's one notification it stays in its loop for good if it had passed
  that check already, and is gone after five moves of its own if not.
- The worth of a stack is cut to 32 bits (src/item.cpp:1202-1205). `Money.PaymentExact`: a payment that goes through
  costs exactly its amount if and only if every stack it touches fits, and more otherwise; `Money.HiddenCost` is a
  purse that pays 1431656766 for 1000.
- Change of 32-bit amounts is handed out in full exactly when there is a coin worth 1 (`Money.ChangeComplete`); of
  larger ones, with the usual coins, exactly when the number of the largest fits 32 bits (`Money.ChangeOfAny`).
- Goods that cannot be picked up are lost when a market offer is cancelled or accepted (`Market.Game.CancelOffer`,
  `Market.Game.AcceptOffer`); all others are conserved. `Market.OfferedAndGone` is an offer made and cancelled after
  which the goods are gone.
- A converted hit loses its primary damage exactly when both its damages are of one kind (src/game.cpp:4451-4452), and
  every boost the attacker's items gave (src/game.cpp:4464-4472, 4511-4519): `CombatDamage.Convert`.
- A tree file holding a lone node without properties is refused, as it is not longer than the smallest size
  (`OtbLoader.LoadRoundTrip`).

## Model

| member | source | states |
|---|---|---|
| Forest.LinkForest | src/container.cpp:278-302 | Hanging a root below a node keeps the parent links a forest if and only if the node does not lie in the root's own tree: what the ancestor walk of queryAdd tests. |
| Forest.CutForest | src/container.cpp:569-607 | Cutting any link of a forest leaves a forest. |
| Forest.DepthStep | src/container.cpp:68-75 | Every step to a parent lowers the depth, so every walk up ends. |
| Forest.TrailMeets | src/depotchest.cpp:60-66 | A walk by getParent from inside meets the container that holds an item on the way exactly when that item's class does not pass over it. |
| ItemTree.HangConsistent | src/container.cpp:480-512 | Adding a root item to a container that is not inside it keeps links and stack sizes right, and the parent links change at that item alone. |
| ItemTree.UnhangConsistent | src/container.cpp:593-606 | Taking a child out keeps links and stack sizes right, and the parent links change at that item alone. |
| ItemTree.ReshapeConsistent | src/container.cpp:514-538 | Changing a stack to a size of at most 100 keeps links and stack sizes right. |
| ItemTree.EnterConsistent | src/item.cpp:29-78 | A created item, loose and empty, keeps the world consistent. |
| ItemTree.LeaveConsistent | src/container.cpp:42-56 | Deleting a loose item that has let go of its contents keeps the world consistent. |
| ItemWeights.ReachIff | src/container.cpp:138-144 | An enclosing container hears of a change, wherever inside, if and only if no chest or inbox hangs directly in it on the way. |
| ItemWeights.ReshapeOff | src/container.cpp:514-538 | A stack that changes puts each total off by its difference in weight exactly where it is not heard of, and leaves the error of every other total as it was. |
| ItemWeights.HangOff | src/container.cpp:480-512 | An item put in brings its own error to the totals that hear of it, and its whole weight to the error of those that do not. |
| ItemWeights.UnhangOff | src/container.cpp:593-606 | Taking an item out does the opposite. |
| ItemWeights.ChangeStaysRight | src/container.cpp:138-144 | A right total stays right under a change of weight inside if and only if no chest or inbox hangs directly in its container on the way. |
| ItemWeights.ArrivalStaysRight | src/container.cpp:480-500 | The same for an item that is put in. |
| ItemWeights.DepartureStaysRight | src/container.cpp:593-606 | The same for one that is taken out. |
| ItemWeights.CachedIsDeep | src/container.cpp:138-149 | A total is right, as the sum over everything inside, if and only if the cached weight is that of a full recursive descent. |
| ItemExamples.LockerMissesMail | src/player.cpp:973-1006 | 100 coins are accepted into the inbox of a locker whose totals are right, and the locker's total stays at 10 while 110 lie inside. |
| ItemStock.HangStock | src/container.cpp:480-500 | Hanging an item adds its pieces to exactly the sets of containers that hold its new parent. |
| ItemStock.UnhangStock | src/container.cpp:593-606 | Taking an item out subtracts its pieces from exactly those sets. |
| ItemStock.ReshapeStock | src/container.cpp:514-538 | Changing a stack changes the stock of its container by the difference, per kind. |
| ItemStock.LeaveStock | src/container.cpp:42-56 | Deleting such an item takes nothing from the stock of the containers that remain. |
| Descendants.LinkCount | src/container.cpp:159-166 | Hanging an item adds it and everything inside it to what each container holds that the new parent lies in, and to no other. |
| Descendants.CutCount | src/container.cpp:159-166 | Taking an item out subtracts as much from everything it lay in, and nothing from any other. |
| ItemWalk.WalkTurn | src/container.cpp:765-783 | Each turn of the iterator keeps the invariant of the walk, and the item it stands on is below the root and has not been seen. |
| ItemWalk.WalkDone | src/container.cpp:750-783 | When the queue is empty, everything below the root has been visited. |
| ItemWalk.LevelTurn | src/container.cpp:765-783 | A turn keeps the visits in order of depth. |
| ItemWalk.VisitedBound | src/container.cpp:159-166 | Visits never outnumber the descendants, and reach their number at the end. |
| Containers.Item.GetParent | src/depotchest.cpp:60-66 | The container that holds the item; of a depot chest or inbox, what that container's getParent answers; and whether it is a tile. |
| Containers.Item.IsRemoved | src/item.h:1219-1221 | True exactly when the outermost container, or the item itself, lies on no tile. |
| Containers.Item.UpdateItemWeight | src/container.cpp:138-144 | The snapshot changes by the given difference at this item and the containers that a walk by getParent meets, and nowhere else. |
| Containers.Item.GetThingIndex | src/container.cpp:609-619 | -1 exactly for an item that is not a child; otherwise the first place it is at. |
| Containers.Item.AddThing | src/container.cpp:480-500 | At an index beyond the capacity nothing happens; otherwise the item becomes the first child and the totals that a walk by getParent meets grow by its weight. |
| Containers.Item.AddItemBack | src/container.cpp:502-512 | The item becomes the last child, with the same propagation. |
| Containers.Item.UpdateThing | src/container.cpp:514-538 | A child changes kind and count and a walk by getParent tells the difference; a stranger changes nothing. |
| Containers.Item.ReplaceThing | src/container.cpp:540-567 | A child gives way to a root item; a missing index changes nothing. |
| Containers.SwapConsistent | src/container.cpp:540-567 | Replacing a child keeps the world consistent. |
| Containers.Item.RemoveThing | src/container.cpp:569-607 | Part of a stack shrinks it; a whole item leaves the container; each with its propagation, and a stranger changes nothing. |
| Containers.Item.GetItems | src/container.cpp:664-677 | The walk yields every proper descendant exactly once, level by level. |
| Containers.Item.GetItemHoldingCount | src/container.cpp:159-166 | The count is the number of proper descendants. |
| Containers.Item.IsHoldingItem | src/container.cpp:168-176 | True exactly for a proper descendant. |
| Containers.ContainerIterator.Advance | src/container.cpp:765-783 | The cursor and the queue move as the walk's transition function says. |
| Containers.Item.GetTopParent | src/item.cpp:281-298 | The last item that a walk by getParent meets before a tile; where the walk ends in an item, the last but one, or that item itself if the walk is no longer. |
| Containers.Item.QueryAdd | src/depotchest.cpp:12-42 | Accepts exactly when the class's own rule (locker, depot limit, inbox) and the container rule accept; a locker never does, an inbox only without limits, and nothing is accepted that is not to be picked up, is the container itself, or finds it locked or, for any place, full, but by the flags. |
| Containers.Item.ContainerQueryAdd | src/container.cpp:226-317 | Accepts exactly when unlocked, movable in, neither the item itself nor reached from it by getParent, with a free slot where one is needed, and the top parent agrees. |
| Containers.Item.WalkUp | src/container.cpp:278-302 | Passes exactly when the item is none of the containers that a walk by getParent meets and, unless limits are off, none of them is an inbox. |
| Containers.RootTakes | src/container.cpp:226-317 | A plain container that lies in nothing accepts exactly what can be picked up and is not itself, while it is unlocked and, asked for any place, not full; each flag lifts its condition. |
| Containers.Item.QueryMaxCount | src/container.cpp:319-368 | Without a limit all that is asked for. Otherwise 100 of a stackable kind for each free slot and, asked for a slot, exactly what a like stack there lacks to 100, or, asked for any place, the room in the mergeable stacks; of other things the number of free slots. NOERROR exactly when that suffices. |
| Containers.Item.QueryRemove | src/container.cpp:370-400 | Not possible exactly for a stranger, an amount of 0 or more than the stack; not moveable exactly for what is fixed and not forced; and otherwise let go. |
| Containers.Item.QueryDestination | src/container.cpp:402-473 | If unlocked or without limits: a container that is the child at the index gets the item; index 254 leads to what getParent answers; otherwise, and always if locked, it goes to the container asked. There the stack is the child at the index if the item merges with it, or else the first child in order that it merges with, or else the child at the index. |
| Containers.DestinationAims | src/container.cpp:402-473 | The same of the specification Destination: by index, lock and child where the item goes, and which stack it is put on. |
| Containers.Item.FindStack | src/container.cpp:455-470 | The first child in order that the item merges with, or the end if there is none. |
| ItemMove.MovedConsistent | src/game.cpp:1228-1262 | Taking, topping up, cloning and adding together keep the world consistent. |
| ItemMove.MovedStock | src/game.cpp:1228-1262 | For every set of containers the stock changes by what leaves and what arrives, per kind. |
| ItemMove.MovedSizes | src/game.cpp:1228-1262 | Only the source can lose a child and only the destination can gain one, when an object arrives. |
| GameItems.Game.ResolveDestination | src/game.cpp:1127-1135 | The redirect loop gives the resolved place and stops after at most one redirect. |
| GameItems.PlanLeads | src/game.cpp:1127-1135 | Of a whole move: the destination is the container at the index, the parent for index 254, or the one asked, and the stack is the one asked for or else the first that merges. |
| GameItems.Game.PlanMove | src/game.cpp:1125-1226 | A move proceeds if and only if it may, and then with the one plan that the world and the arguments determine; if not, the answer is NOERROR exactly for an item that would merge with itself. |
| GameItems.RootMove | src/game.cpp:1104-1226 | A move to a plain container that lies in nothing proceeds exactly when the item can be picked up and moved, the container is unlocked and neither the item nor the traded one, a slot or the picked stack has room, and the pieces lie in the source; each flag lifts its condition. |
| GameItems.Game.AskAdd | src/game.cpp:1142-1205 | Accepts if and only if queryAdd does and there is room for a piece; the amount is then the least of what was asked for and what the destination reports, and a shortfall has an error to return. |
| GameItems.PlanMeasures | src/game.cpp:1142-1205 | With a free slot a stack of at most 100 moves whole, and a thing that does not stack moves; with none, exactly what the stack picked lacks to 100, and nothing else. An amount above 0 is refused for room if and only if no slot is free and that stack is missing, unlike or full. |
| GameItems.PartlyMovedFull | src/game.cpp:1142-1262 | A move of at most 100 that leaves pieces behind ends with no free slot and the merged stack at 100. |
| GameItems.Game.LiesIn | src/game.cpp:1213-1226 | Finds out whether a walk by getParent from the destination meets the traded item. |
| GameItems.Game.InternalMoveItem | src/game.cpp:1104-1316 | The move happens if and only if the destination takes the item, has room for some of it, the source lets go of it and the destination's walk does not meet the traded item. It goes to the container at the index, to the parent for index 254, or to the one asked; of a stack as much as a free slot or the picked stack allows; afterwards the destination's stock has grown by that, less what is lost, or the thing lies there. A stack is released if and only if nothing of it is left or its outermost container lies on no tile, and NOERROR on a stack means every piece asked for was moved. Otherwise nothing changes. |
| GameItems.Game.Transfer | src/game.cpp:1228-1262 | The snapshot becomes that of the planned move: the pieces taken, the stack topped up, the rest hung in or, beyond the capacity, dropped. |
| GameItems.MoveBrings | src/game.cpp:1228-1262 | What a settled move brings: the destination's stock of the kind grows by the pieces moved, less those lost, and a thing that does not stack lies in the destination. |
| GameItems.MoveConserves | src/game.cpp:1104-1316 | Every move leaves a consistent world and, for every set of containers and kind, changes the stock only by what crosses its border, less the pieces lost; none is lost into a container within its capacity. |
| GameItems.MoveLosesExactly | src/container.cpp:480-484 | From the world and the arguments alone: pieces are lost exactly when the first stack the item merges with lies at or beyond the capacity and cannot take all, and then exactly those it cannot take. |
| GameItems.MoveFits | src/container.cpp:319-368 | Without NOLIMIT and pagination a container within its capacity stays within it. |
| GameItems.ObjectNeedsSlot | src/container.cpp:319-368 | When a new object appears in a limited container there was a free slot. |
| ItemAdd.TakesFar | src/container.cpp:278-302 | An accepted item never encloses its destination, unless the walk overlooks it. |
| ItemAdd.OverlooksIff | src/container.cpp:278-302 | The walk overlooks an enclosing item if and only if a chest or inbox hangs directly in it on the way to the destination. |
| ItemExamples.BoxTakesItsChest | src/depotchest.cpp:12-66 | Both queries of a depot box let the loose outer chest that holds it be put into it, and the parent links would be no forest. |
| MoveLoss.PaginatedMoveLoses | src/container.cpp:480-484 | A settled move of 100 coins into a paginated container of capacity 1 after which 50 coins are gone. |
| GameItems.Game.InternalAddItem | src/game.cpp:1325-1404 | Succeeds if and only if both queries accept. The item goes to the container at the index, to the parent for index 254, or to the one asked, and there lies what does not stack; the destination gained exactly the item's count, less a remainder that is given exactly; the item is hung in, or released, or neither, as its merging says; what else is released is new and loose, each once, and nobody else moves. Otherwise or as a test nothing changes. With enough room and no given index it always succeeds. |
| ItemAdd.AddMeasures | src/game.cpp:1342-1355 | An addition finds enough room if and only if there is no limit, a slot is free, or the stacks of its kind in the container asked take all of it. |
| ItemAdd.RootAdd | src/game.cpp:1325-1355 | An addition to a plain container that lies in nothing is accepted exactly when the item can be picked up, the container is unlocked and not the item, and there is a free slot or a stack was picked and the stacks take all of it; each flag lifts its condition. |
| ItemAdd.RoomAt | src/container.cpp:333-344 | Each stack that the item merges with adds what it lacks to 100 to the room. |
| GameItems.Game.AddByMerging | src/game.cpp:1357-1389 | Topping up and handing the rest on adds exactly the item's pieces, less the remainder, which is given exactly. |
| GameItems.Game.HandOn | src/game.cpp:1365-1371 | The recursive call on the smaller rest adds it completely, unless stacking is off and no slot is free, and then nothing of it. |
| ItemAdd.RoomSurvives | src/game.cpp:1342-1371 | After one stack was filled, what queryMaxCount reports still covers the rest. |
| ItemAdd.RestMayAdd | src/game.cpp:1332-1355 | With room for all of it the rest is accepted if and only if stacking is on or a slot is free. |
| ItemAdd.LeftBehind | src/game.cpp:1363-1386 | The object of an added stack is left behind, in no container and not released, exactly when the stack it merges with takes a part of it. |
| ItemExamples.CoinsLeftBehind | src/game.cpp:1363-1373 | 100 coins are added whole where 50 lie, and the stack that was to be added is in no container and not released. |
| ItemAdd.HungLimits | src/depotchest.cpp:12-42 | Hanging an accepted item brings no watched depot chest beyond its limit: one whose walk ends at a tile and in which no other chest or inbox hangs. |
| GameItems.Game.PlanAdd | src/game.cpp:1332-1355 | Accepts if and only if both queries do, with the stack of the specified destination, and always with enough room. |
| GameItems.Game.InternalRemoveItem | src/game.cpp:1406-1453 | Succeeds if and only if the item lies in a container, is none of the server's own chests, can be removed and has the amount, all of it for -1; then a stack is smaller by the amount in its place or the item is in no container, and it is released if and only if nothing of it is left or its outermost container lies on no tile. Otherwise or as a test nothing changes. |
| ItemExamples.HalfTakenReleased | src/game.cpp:1441-1447 | 40 of 100 coins may be taken from a bag that lies nowhere, and the stack counts as removed with 60 coins of it still in the bag. |
| DepotLimit.ChestAskedIff | src/container.cpp:304-315 | A query inside a chest asks the chest if and only if its walk ends at a tile and no other chest or inbox hangs directly in it on the way. |
| ItemExamples.ClosedBoxOverfills | src/depotchest.cpp:12-42 | A full depot box that lies on no tile holds more than its limit after an accepted addition to a bag in it. |
| DepotLimit.MoveRespectsDepotLimit | src/depotchest.cpp:12-42 | A watched chest receiving an accepted move at any depth holds no more than its limit afterwards, counted recursively. |
| DepotLimit.SizeAfter | src/container.cpp:159-166 | What any container holds after a move, from what left it and what came in. |
| DepotLimit.ArrivalCount | src/depotchest.cpp:20-38 | What arrives in the chest's tree is at most what queryAdd had added to the count. |
| DepotLimit.MoveKeepsLimits | src/depotchest.cpp:12-42 | A move without NOLIMIT brings no watched depot chest anywhere beyond its limit. |
| DepotLimit.AddRespectsDepotLimit | src/depotchest.cpp:12-42 | An accepted internalAddItem, with all its recursive remainders, leaves a watched chest it adds to within its limit. |
| ItemSteps.MoveContents | src/game.cpp:1104-1316 | A move with any flags into any container changes the contents of all containers together by exactly the pieces lost. |
| ItemSteps.MoveKeepsFits | src/container.cpp:319-368 | A move without NOLIMIT overfills no limited container, paginated ones elsewhere in the world or not. |
| ItemTotals.MovedTotals | src/game.cpp:1228-1262 | A move of something whose total is right keeps every right total right, but where a chest or inbox hangs directly inside. |
| ItemTotals.SwapTotals | src/container.cpp:540-567 | So does a replacement when the totals of both items are right. |
| ItemSteps.MoveKept | src/game.cpp:1104-1316 | A move leaves a well-formed world, the exact account of the pieces, depot limits, capacities and totals. |
| ItemSteps.AddKept | src/game.cpp:1325-1404 | An addition leaves a well-formed world, limits, capacities and totals, and its account is the item's count less the exact remainder. |
| ItemSteps.RemoveKept | src/game.cpp:1406-1453 | A removal leaves a well-formed world, limits, capacities and totals, and its account is the pieces taken. |
| ItemSteps.UpdateKept | src/container.cpp:514-538 | An update leaves a well-formed world, limits, capacities and totals, and its account is the difference of the two stacks. |
| ItemSteps.ReplaceKept | src/container.cpp:540-567 | A replacement leaves a well-formed world, limits for an empty newcomer, capacities and totals, and its account is the difference of the two items. |
| ItemSteps.CreateKept | src/item.cpp:29-78 | A creation leaves a well-formed world, limits, capacities and totals, and puts nothing into a container. |
| ItemSteps.FreeKept | src/container.cpp:42-56 | Deleting a loose empty item leaves a well-formed world, limits, capacities and totals, and takes nothing out of one. |
| ItemCopy.Clone | src/container.cpp:58-66 | The copy is fresh and mirrors the original recursively, in kinds, counts, totals and order; nothing else changes, and the contents of all containers grow by exactly what lies in the original, per kind. |
| ItemCopy.MirrorsExact | src/container.cpp:64 | The total a copy takes over is right if and only if that of the original is. |
| ItemSteps.CloneKept | src/container.cpp:58-66 | A clone of any container leaves a well-formed world with that account, and right totals in all of the copy if all of the original has them. |
| ItemSteps.PlaceKept | src/tile.cpp:843-866 | A loose item put on a tile or taken off it weighs and holds what it did. |
| ItemRun.Run | src/game.cpp:1104-1316 | Any run of moves, additions, removals, updates, replacements, creations, clones, placements and deletions, with any flags and containers, lockers with inbox and chests among them, keeps a forest with right stacks and with children in containers alone, and each command is done exactly when its caller may give it and then does what its account, limits, capacities and totals say. |
| ItemRun.RunAccounts | src/game.cpp:1104-1453 | Over a whole run the contents of all containers change by exactly the sum of the accounts, kind by kind. |
| ItemRun.MovesConserve | src/game.cpp:1104-1316 | A run of moves that cannot spill leaves all contents as they were; only destinations beyond their capacity can spill, and only paginated or with NOLIMIT. |
| ItemRun.RunKeepsLimits | src/depotchest.cpp:12-42 | Without NOLIMIT no run brings a depot chest beyond its limit while it is watched. |
| ItemRun.RunKeepsFits | src/container.cpp:319-368 | A run without NOLIMIT, and without IGNOREAUTOSTACK on additions, overfills no limited container. |
| ItemRun.RunKeepsTotals | src/container.cpp:138-144 | If everything in which no chest or inbox hangs has a right total, that is so in every world of a run that leaves chests, inboxes and what holds them where they are. |
| OtbFormat.UnescapeEscape | src/fileloader.cpp:91-106 | The filter of getProps undoes the escaping of any bytes. |
| OtbFormat.ReadEncoded | src/fileloader.cpp:37-89 | The grammar reads the encoding of any tree back, wherever it stands in a file. |
| OtbLoader.Loader.Open | src/fileloader.cpp:14-27 | A file opens if and only if it is longer than the smallest size and has the accepted or the wildcard identifier; otherwise there is no loader. |
| OtbLoader.Loader.ParseTree | src/fileloader.cpp:37-89 | The loop with its explicit stack computes the parse function, on accepted and refused files alike. |
| OtbLoader.Loader.GetProps | src/fileloader.cpp:91-106 | The unescaped bytes of the node's range, and false exactly for an empty range. |
| OtbLoader.ParseIsDescent | src/fileloader.cpp:37-89 | The stack loop accepts exactly the files that the recursive descent reads with only unmarked bytes behind, and builds the same tree. |
| OtbLoader.LoadRoundTrip | src/fileloader.cpp:14-106 | Loading the encoding of any tree gives the same tree, types and properties included; it opens unless the tree is a lone node without properties. |
| OtbLoader.AcceptedRanges | src/fileloader.cpp:50-72 | In any accepted file the property ranges lie inside it, in order, apart from each other, each ended by its node's first unescaped marker. |
| Money.WorthExact | src/item.cpp:1202-1205 | The worth a search sees is the true worth exactly when it fits 32 bits. |
| Money.ChangeComplete | src/game.cpp:1609-1633 | Change of every 32-bit amount is handed out in full exactly when there is a coin worth 1. |
| Money.ChangeOfAny | src/game.cpp:1609-1633 | With coins each a multiple of the next, down to 1, change of any amount is complete if and only if the number of the largest coins fits 32 bits. |
| Money.Purse.AddMoney | src/game.cpp:1609-1633 | The holdings grow by the amount less what no coin can pay, in new stacks of 1 to 100 coins worth no more than the amount, the dearest coins first and of each as many as fit; in order of making they lie in the purse where there is room and on the ground where there is none, and only there. |
| Money.CoinsFit | src/game.cpp:1609-1633 | Whoever pays greedily by a coin hands out as many of it as fit, and leaves less than one. |
| Money.GreedyMore | src/game.cpp:1609-1633 | Greedy payment by a list of coins is payment of each coin of what the dearer ones left. |
| Money.EmplaceSorted | src/game.cpp:1536-1582 | Entering a stack keeps the multimap ascending. |
| Money.EmplaceKeeps | src/game.cpp:1536-1582 | Each stack of some worth is in the map once, with its worth. |
| Money.Purse.Gather | src/game.cpp:1536-1582 | The map made on the way is ascending and names every stack of visible worth once, and the sum is the money seen. |
| Money.BreakEnough | src/game.cpp:1594-1600 | The coins broken never exceed the stack, and pay more than the rest by less than one coin. |
| Money.Purse.PayLast | src/game.cpp:1590-1604 | The covering stack is taken whole or broken, its change lies in the purse where there is room and on the ground where there is none, and the holdings fall by exactly the cost, 32-bit arithmetic included. |
| Money.PaidInOrder | src/game.cpp:1589-1605 | Stacks are consumed in ascending order of worth and at most one is broken. |
| Money.Purse.RemoveMoney | src/game.cpp:1526-1607 | Succeeds if and only if the money seen suffices; the holdings then fall by exactly the cost, and coins are taken in ascending order of worth. The change, if any, lies in the purse where there is room and on the ground where there is none. When every stack fits 32 bits the cost is the amount, given a coin worth 1. Otherwise nothing changes. |
| Money.PaymentExact | src/game.cpp:1526-1607 | A payment never costs less than its amount, and costs exactly it if and only if every stack it touches fits 32 bits. |
| Money.TruePays | src/game.cpp:1526-1607 | When all stacks fit 32 bits a sufficient payment always goes through. |
| Money.HiddenCost | src/item.cpp:1202-1205 | A purse whose one stack does not fit, from which a payment of 1000 takes 1431656766. |
| Money.LastRefused | src/game.cpp:1594-1600 | If the coins to break exceed the stack, nothing is taken and change is handed out all the same. |
| Market.ProductExact | src/game.cpp:5926-5932 | Price times amount of any allowed offer fits 64 bits. |
| Market.GetMarketItemList | src/game.cpp:6656-6705 | The shortest prefix of stacks that holds enough, or none; the 16-bit counter does not wrap. |
| Market.RemoveStacks | src/game.cpp:5993-6008 | The stacks left hold exactly the amount less. |
| Market.AddStacks | src/game.cpp:6073-6108 | The inbox gains exactly the amount in stacks of at most 100, or nothing if the item cannot be picked up. |
| Market.Game.TakeGoods | src/game.cpp:5985-6008 | Succeeds if and only if this player has enough, and then takes exactly that from this player and nothing from anyone else. |
| Market.Game.GiveGoods | src/game.cpp:6071-6108 | This player's stock of this ware grows by the amount, or not at all if it cannot be picked up; nobody else's changes. |
| Market.Game.Debit | src/game.cpp:6021-6024 | This player pays exactly the total, and touches the bank only once the cash is gone; nobody else is touched. |
| Market.Game.SetAside | src/game.cpp:5980-6036 | Takes the fee and the price, or the fee and the goods, from this player exactly when he has them. |
| Market.Game.CreateOffer | src/game.cpp:5924-6044 | Succeeds if and only if the listed conditions hold; this player alone parts with the fee and the price or goods, from the bank only once no cash is left. Wealth falls by the fee alone: what one percent of the price is, or the lowest or highest fee if that lies beyond it. Every stock is unchanged, the offer counted in, and nobody gets more open offers than allowed. |
| Market.Game.CancelOffer | src/game.cpp:6046-6122 | Succeeds if and only if the player owns the offer; he alone gets the money, on the bank, or the goods back, wealth is unchanged and so is every stock, except goods that cannot be picked up. |
| Market.Game.Exchange | src/game.cpp:6159-6346 | Succeeds if and only if the acceptor has what it takes; the buyer gets the goods and the seller the money, each exactly, and nobody else is touched. |
| Market.Game.ReduceOffer | src/game.cpp:6362-6368 | The offer shrinks by the amount or disappears, and its escrow with it. |
| Market.Game.AcceptOffer | src/game.cpp:6124-6373 | Succeeds if and only if the listed conditions hold, so never on an offer of the same account or beyond its amount; buyer and seller are served exactly, only who pays for goods parts with cash, the offer keeps all but the amount or disappears, wealth is unchanged, and stock changes only by goods that cannot be picked up. |
| Market.Game.Run | src/game.cpp:5924-6373 | Over any run of create, cancel and accept, cash plus bank plus escrow falls by the fees only, between the lowest and the highest for each offer made; stock plus goods on offer is constant per ware that can be picked up; and nobody within the limit of open offers exceeds it. |
| Market.OfferedAndGone | src/game.cpp:6082-6085 | A player offers 5 pieces of a ware that nobody can pick up and cancels, both with success, and has none left. |
| Trade.StartSound | src/game.cpp:3119-3148 | A started trade keeps the pairing and the list sound, and a counter-offer always finds the first offer. |
| Trade.CloseSound | src/game.cpp:3347-3393 | Closing one side withdraws both and keeps the rest sound. |
| Trade.TransferSound | src/game.cpp:3187-3200 | Taking both offers off the list before the hand-over keeps the rest sound. |
| Trade.FinishSound | src/game.cpp:3257-3265 | Parting after the hand-over keeps the rest sound, even if one of the items was offered again meanwhile. |
| Trade.ServingKept | src/game.cpp:3349-3352 | Closing other trades during a hand-over leaves the two at it alone. |
| Trade.Game.AlreadyTraded | src/game.cpp:3069-3103 | True exactly when the item equals an offer, holds one, or lies in one. |
| Trade.Game.StartTrade | src/game.cpp:3119-3148 | Succeeds exactly for two players free for each other; then both are paired and the offer is listed. |
| Trade.Game.RequestTrade | src/game.cpp:2991-3117 | Succeeds exactly for two different players free for each other, an item apart from all offers and, if it is a container, with at most 99 items in it; then the item is offered, the other has been told or had offered before, and nobody else is touched. Otherwise nothing changes. |
| Trade.Game.CloseTrade | src/game.cpp:3347-3393 | Both sides are away, nobody else is touched, and both offers are off the list, unless they are handing over; each reference is released once. |
| Trade.Game.AcceptTrade | src/game.cpp:3150-3267 | A first acceptance is always noted and changes nothing else; a second hands over exactly when sight and hooks allow, and otherwise closes; either way both part. After a hand-over neither offer is listed, and players and offers are those of the two parted from what the hooks, one after the other, have closed. |
| Trade.BystanderTradesOn | src/game.cpp:3187-3265 | Whoever takes no part in a hand-over and is named by no hook keeps partner, state and listed offer. |
| Trade.Game.Run | src/game.cpp:2991-3393 | Over any run: partners are symmetric pairs of distinct players, the list is exactly the offers on the table, no offer is or contains another, and references match the list. |
| Decay.InverseStart | src/game.cpp:5201-5202 | Starting a decay keeps the two maps inverse. |
| Decay.InverseStop | src/game.cpp:5212-5223 | Stopping one does too, with the time read before the erase. |
| ItemReferences.HaltSound | src/game.cpp:5224 | Stopping a decay hands its reference to the release list and leaves every counter equal to holders, container, decay entry and pending releases. |
| ItemReferences.LessSound | src/item.h:1205-1209 | A decrement keeps that too, and reaches zero only for an item that nothing holds, contains, decays or will release. |
| ItemReferences.CutSound | src/container.cpp:51-54 | Letting go of a child turns the container's reference into one to be released. |
| ItemReferences.WithoutSound | src/item.h:1205-1209 | Deleting an emptied item with no reference keeps all counters right. |
| ItemReferences.DoomedGone | src/container.cpp:42-56 | No item outlives the cascade if neither it nor any container around it is held, decays or is owed a dropped release. |
| ItemReferences.NothingLost | src/game.cpp:5444-5447 | No release is dropped by a cleanup if and only if, before it, no item that will be freed directly holds a decaying one. |
| ItemReferences.BagLosesTorch | src/game.cpp:5444-5447 | The bag with a burning torch: after the cleanup the torch is in no container and no index, nothing holds it, and its counter is 1. |
| ItemReferences.LostForever | src/game.cpp:5436-5448 | An item whose release was dropped is never freed by any later cleanup. |
| Decay.Game.StartDecay | src/game.cpp:5185-5204 | An item that can decay and does not yet is entered in both maps with one reference; otherwise nothing changes. |
| Decay.Game.StopDecay | src/game.cpp:5206-5225 | The entry leaves both maps and its reference goes to the release list, once. |
| Decay.Game.DecrementReferenceCounter | src/item.h:1205-1209 | One release, with the whole cascade it may cause through containers, keeps counters, indexes and the account of the cleanup. |
| Decay.Game.Destroy | src/container.cpp:42-56 | The destructor lets go of every child, stops each one's decay and releases it, to any depth, and ends. |
| Decay.Game.Orphan | src/container.cpp:51-54 | One turn of the destructor's loop: a child loses its parent, stops decaying and is released. |
| Decay.Game.Cleanup | src/game.cpp:5436-5448 | Freed are exactly the items for which neither they nor any container around them is held, decays or is owed a dropped release; children of the freed become loose; stopped, with the release dropped, are exactly the decays of items directly in a freed container, so none is dropped if and only if there was no such item. |
| Decay.Game.Collect | src/game.cpp:5345-5358 | The work list is exactly the due items, earliest first, each once, and only its items are missing from decayMap. |
| Decay.Game.Apply | src/game.cpp:5319-5337 | Each effect of a decay makes the state it stands for, and asks for the releases it stands for; the maps, the counters and the log stay sound, and nothing is freed. |
| Decay.Game.DecayAll | src/game.cpp:5360-5365 | Each item of the work list is alive when its turn comes and is stopped by then, even when decays start or stop others; the state afterwards is that of all stops and effects carried out in turn. |
| Decay.Game.CheckDecay | src/game.cpp:5339-5368 | Every due item is stopped and its decay carried out: if it is restarted, and no other's decay has to do with it, it is in the index at the new time, if not it is in none, and each release lowers its holders by one. An item is in the index afterwards only if started again; items not stopped keep their time; the maps are inverse again; the closing cleanup frees and drops exactly what the state before it says. |
| DecayEffects.LastStartCounts | src/game.cpp:5185-5204 | After any effects, an item stopped, then started at a time and no more ended is in the index at that time. |
| DecayEffects.StoppedAt | src/game.cpp:5206-5225 | An item stopped and not started since is in no index. |
| DecayEffects.HoldersAfter | src/item.h:1205-1209 | The holders of an item change by those that take hold of it less those that let go. |
| DecayEffects.InsertedLies | src/container.cpp:480-512 | A loose item inserted into a container lies there until it is taken out. |
| DecayEffects.CreatedLies | src/game.cpp:5319-5323 | So does one that was made on the way, as a transformed item is. |
| DecayEffects.ScriptSound | src/game.cpp:5319-5337 | Whatever effects a round has, they keep every counter right with the releases they ask for. |
| DecayEffects.RoundRestarts | src/game.cpp:5319-5363 | In any round, a due item that its own decay restarts last is in the index at that time, unless another's decay has to do with it. |
| DecayEffects.RoundEnds | src/game.cpp:5360-5365 | A due item that no effect restarts is in no index after the round. |
| DecayEffects.RoundReleases | src/game.cpp:5325-5336 | The holders of a due item fall by one with each release its decay has. |
| Conditions.PropLocal | src/condition.cpp:75-132 | Reading an attribute uses its own bytes only, whatever follows. |
| Conditions.ClassOfBit | src/condition.cpp:172-230 | Each of the 28 lowest single bits is a type that can be created: bits 0 to 3, 15 and 20 to 22 damage, 4 and 5 speed, 6 an outfit, 8 light, 13 regeneration, 14 soul, 19 attributes, and every other one without members of its own. |
| Conditions.OnlyBits | src/condition.cpp:172-230 | Nothing else can be created. |
| Conditions.FoldReads | src/condition.cpp:64-73 | The unserialize loop reads a written list of attributes up to END, and stops right behind it. |
| Conditions.HeadReadBack | src/condition.cpp:232-290 | createCondition rebuilds the header of any condition and the right class, with no ticks for damage. |
| Conditions.RegenerationBody | src/condition.cpp:917-946 | All four written members come back. |
| Conditions.SoulBody | src/condition.cpp:1081-1100 | Both written members come back. |
| Conditions.SpeedBody | src/condition.cpp:1646-1680 | The speed change and the four formula members come back, bit by bit. |
| Conditions.LightBody | src/condition.cpp:1920-1962 | Colour, level, ticks and interval come back. |
| Conditions.OutfitBody | src/condition.cpp:1785-1798 | The outfit comes back byte by byte. |
| Conditions.AttributesBody | src/condition.cpp:404-440 | All skills, stats, special skills and the defence flag come back, each in its place. |
| Conditions.DamageBody | src/condition.cpp:1232-1275 | The interval list comes back, and the ticks are counted anew from it. |
| Conditions.BodyReadBack | src/condition.cpp:134-153 | The members of every class of condition come back. |
| Conditions.RoundTrip | src/iologindata.cpp:299-309 | Loading what a save wrote gives exactly the persistent conditions, field by field, last first: one that is no damage comes back if and only if it does not last forever and its id is the default or that of combat, or it is a mute; a damage condition comes back with the ticks of its intervals. |
| Conditions.DamageTicks | src/condition.cpp:1246-1256 | With non-negative intervals that fit 31 bits the ticks of a restored damage condition are their sum. |
| ConditionStreams.PropWriteStream.Serialize | src/condition.cpp:134-153 | The stream gains the header and the class's attributes, in order, and nothing else. |
| ConditionStreams.PropWriteStream.SavePlayer | src/iologindata.cpp:734-740 | The stream holds the saved attributes of the persistent conditions, each closed by END. |
| ConditionStreams.PropStream.ReadByte | src/fileloader.h:64-73 | The next byte, or false at the end. |
| ConditionStreams.PropStream.Unserialize | src/condition.cpp:64-73 | The loop over the stream computes the reading function and leaves the cursor where it says. |
| ConditionStreams.PropStream.LoadPlayer | src/iologindata.cpp:299-309 | The loading loop computes the list the round trip speaks of. |
| ConditionList.Creature.ChangeSpeed | src/game.cpp:4328-4333 | The speed bonus changes by the difference. |
| ConditionList.Creature.AddCondition | src/creature.cpp:1256-1290 | Refreshes the listed condition with this kind, id and sub-id, or starts and lists a new one last; nothing else changes. A speed change takes over ticks and amount unless a lasting one meets a passing one, any other condition the ticks if it accepts; an amount of 0 is rolled. The speed bonus stays the external part plus all listed speed changes. |
| ConditionList.Creature.Refresh | src/condition.cpp:1712-1741 | The speed bonus changes by the difference of new and old speed change. |
| ConditionList.Creature.EndAt | src/condition.cpp:1707-1710 | An ended condition leaves the list, takes its speed change back, and is counted as ended once. |
| ConditionList.Creature.RemoveByKind | src/creature.cpp:1305-1357 | Listed afterwards are exactly those of another kind, or id, in their order; only if the removal is not forced and a paralysis of a creature still walking is listed does nothing change. |
| ConditionList.Creature.RemoveCondition | src/creature.cpp:1373-1393 | Exactly this condition leaves the list, unless it is a paralysis held back, and all others keep their places; a forced removal always does. |
| ConditionList.Creature.ExecuteConditions | src/creature.cpp:1415-1434 | The list becomes the one the turns say, in order: survivors that no other's execution removes stay listed, and each other has ended exactly once. |
| ConditionList.ExecutedListed | src/creature.cpp:1415-1434 | A condition is listed after the turns only if it survived its own, and always if it did and no turn removed it. |
| ConditionList.Creature.Run | src/creature.cpp:1256-1434 | Over any run of additions, removals, executions and outside changes the speed bonus is the outside part plus the listed speed changes, and each condition ends at most once. |
| DamageList.Turns | src/condition.cpp:1571-1588 | Each step is worth 20 points, give or take less than one hit: at least 20 if the value or, for last digits 6 to 9, the next one is even, and at most 20 if it is odd. |
| DamageList.SomeTurn | src/condition.cpp:1571-1588 | At most two steps in a row have no turn. |
| DamageList.BlocksSorted | src/condition.cpp:1599-1605 | The list before its reversal is non-decreasing with entries from 1 to the last step. |
| DamageList.GenerateDamageList | src/condition.cpp:1590-1608 | Ends for every amount; whole blocks of equal hits, non-increasing, at least 1 each, that reach the amount. |
| DamageList.WithoutFirstBlock | src/condition.cpp:1599-1605 | Without the first block the hits would not reach the amount. |
| CombatDamage.ToMagic | src/game.cpp:4488-4493 | Moves the rounded share from physical to the new kind; every other kind and the sum stay. |
| CombatDamage.ToPhysical | src/game.cpp:4494-4503 | Each magic amount gives its rounded share; the sum stays. |
| CombatDamage.NearestPercent | src/game.cpp:4488-4503 | A share is the nearest whole number, and of two equally near ones the one farther from zero. |
| CombatDamage.HandOut | src/game.cpp:4511-4530 | Primary, secondary and further hits together deal of each kind what the map has of it, and have the sum of the map. |
| CombatDamage.ApplyImbuements | src/game.cpp:4482-4506 | The map is that of the imbuements applied in turn, which keep the sum; a hit counts as converted if and only if one makes magic damage or there is any and some damage was magic. |
| CombatDamage.Convert | src/game.cpp:4447-4531 | Converted if and only if the kinds and the imbuements say so; a converted hit deals of each kind what the imbuements make of both damages as they were before any boost, and keeps their sum, less the primary one if both are of one kind; an unconverted one is boosted by every item. |
| CombatDamage.BoostsCompound | src/game.cpp:4464-4472 | Items without a boost change nothing, and each that adds a hundred percent doubles what the damage has grown to. |
| CombatDamage.SameKindLoses | src/game.cpp:4451-4452 | A hit of 10 and 5 of one kind of which 5 are left. |
| CombatDamage.TakeHit | src/game.cpp:4796-4912 | A hit D on a mana shield takes min(mana, D) mana and min(D less that, health) health. |
| Experience.GetDamageRatio | src/creature.cpp:1045-1063 | The attacker's damage and the damage of all. |
| Experience.NothingInvented | src/creature.cpp:1065-1068 | All shares together never exceed the lost experience and fall short by at most a point for each attacker. |
| Experience.OnDeath | src/creature.cpp:712-740 | Each receiver earns the shares of those it leads: whoever leads none gets nothing, and whoever leads an attacker at least its part to within a point. The whole never exceeds the lost experience, and with all attackers in the game falls short by at most a point for each. |
| WalkCache.StepAccuracy | src/creature.cpp:561-634 | For every one-tile step, an accurate cache is accurate after it, in every world, if and only if the step is not to the south-east or south-west or the shift is given the signed offset. |
| WalkCache.SafeCell | src/creature.cpp:561-634 | After a safe step each cell on the map but the creature's own equals what a lookup would give. |
| WalkCache.StaleStep | src/creature.cpp:586-596 | For every step to the south-east or south-west there is a world in which the cache goes wrong. |
| WalkCache.Creature.UpdateMapCache | src/creature.cpp:341-355 | The full look-around makes every cell on the map right. |
| WalkCache.Creature.UpdateTileCache | src/creature.cpp:357-372 | Exactly the cell of the tile, if it is in the picture, is looked up. |
| WalkCache.Creature.GetWalkCache | src/creature.cpp:374-402 | 2 exactly out of the picture; with an accurate cache 1 exactly for the own or a walkable tile. |
| WalkCache.Creature.ShiftRows | src/creature.cpp:562-584 | Rows move against the step and the row in view is looked up. |
| WalkCache.Creature.ShiftWest | src/creature.cpp:598-602 | The chosen rows move one column to the west, the others not. |
| WalkCache.Creature.ShiftEast | src/creature.cpp:621-625 | The chosen rows move one column to the east, the others not. |
| WalkCache.Creature.ShiftColumns | src/creature.cpp:586-632 | Columns move in the rows the gap leaves, and the column in view is looked up. |
| WalkCache.Creature.OnMove | src/creature.cpp:555-636 | The in-place shifts compute the step's grid; a teleport or floor change recomputes; a safe step keeps the cache accurate. |
| WalkCache.Creature.OnOtherMove | src/creature.cpp:637-649 | Someone else's move keeps the cache accurate. |
| SpellArea.CreateArea | src/combat.cpp:21-52 | Whatever the length, cell (r, c) is set exactly when 1 or 3 was written there, and the centre is the last 2 or 3; an incomplete last row is cut off. |
| SpellArea.Rotate90 | src/combat.cpp:1436-1443 | Cell (r, c) goes to row c, counted from the right in column r; the centre with it. |
| SpellArea.Rotate180 | src/combat.cpp:1445-1449 | Every cell goes to the opposite one; the centre with it. |
| SpellArea.Rotate270 | src/combat.cpp:1451-1458 | Cell (r, c) goes to column r, counted from the bottom in row c; the centre with it. |
| SpellArea.Flip | src/combat.cpp:1414-1421 | Rows are reversed, while the centre moves along the columns. |
| SpellArea.Mirror | src/combat.cpp:1423-1430 | Columns are reversed, read with the grid's sides exchanged unless it is square, while the centre moves along the rows. |
| SpellArea.Transpose | src/combat.cpp:1432-1434 | Cell (r, c) comes from (c, r) for any sides; on a square grid rows and columns change places. |
| SpellArea.TurnOffsets | src/combat.cpp:1436-1458 | The three rotations take a hit tile at (dx, dy) to (-dy, dx), applied one, two and three times. |
| SpellArea.FourQuarters | src/combat.cpp:1436-1443 | Four quarter turns are the identity, two the half and three the three-quarter turn, on any rectangle, centre included. |
| SpellArea.FlipTwice | src/combat.cpp:1414-1421 | Flipping twice is the identity, centre included. |
| SpellArea.MirrorTwice | src/combat.cpp:1423-1430 | Mirroring twice is the identity, centre included. |
| SpellArea.TransposeTwice | src/combat.cpp:1432-1434 | Transposing twice is the identity, centre included. |
| SpellArea.FlipMirrorIsHalf | src/combat.cpp:1414-1449 | A mirror after a flip is the half turn, centre included. |
| SpellArea.FlipCentre | src/combat.cpp:1414-1421 | A flip turns the offsets upside down exactly when the centre is the middle of the grid. |
| SpellArea.MirrorCentre | src/combat.cpp:1423-1430 | A mirror turns the offsets around exactly when the centre is the middle of the grid. |
| SpellArea.AreaCombat.SetupArea | src/combat.cpp:1495-1506 | The shapes for east, south and west hit the northern shape's tiles, turned once, twice and three times. |
| SpellArea.AreaCombat.DirectionTo | src/combat.cpp:1460-1474 | North, turned to the direction picked, points ahead to the target; west and east exactly for a target on that side. |
| SpellArea.GetList | src/combat.cpp:54-78 | Exactly the hit tiles in sight are listed, each once, row by row. |
| DatabaseTasks.StepExclusive | src/databasetasks.cpp:17-88 | The lock belongs to the one thread inside it. |
| DatabaseTasks.TaskAccepted | src/databasetasks.cpp:37-50 | A task handed in while the queue is running is the next to be accepted, once its producer has moved on, unless a stop comes between. |
| DatabaseTasks.NothingAccepted | src/databasetasks.cpp:37-50 | Once the state is another, no task is accepted. |
| DatabaseTasks.StepInOrder | src/databasetasks.cpp:17-50 | What was accepted is what was taken followed by the queue, and both histories only grow. |
| DatabaseTasks.StepAccounted | src/databasetasks.cpp:26-35 | Every task taken was run once or is in the hand of the one that took it. |
| DatabaseTasks.StepNoLostWakeup | src/databasetasks.cpp:22-50 | A worker asleep over a non-empty queue always has a notification coming. |
| DatabaseTasks.StepStaysEmpty | src/databasetasks.cpp:69-88 | Once the flush of a shutdown has returned the queue is empty and stays so. |
| DatabaseTasks.RunSafe | src/databasetasks.cpp:17-88 | All of this over every interleaving, from any safe state. |
| DatabaseTasks.EveryTaskOnce | src/databasetasks.cpp:17-88 | From the start: the k-th task taken is the k-th accepted, no wake-up is lost, and after a shutdown's flush every accepted task was run once or is being run. |
| DatabaseTasks.MissedWakeup | src/databasetasks.cpp:17-35 | After a shutdown's notification, without further wake-ups, a worker that had passed its state check never leaves its loop, and one that had not never passes it. |
| DatabaseTasks.WorkerLeaves | src/databasetasks.cpp:17-35 | Unless a later stop resets the state, a worker that had not passed it is gone after at most five moves of its own, and can move whenever the lock is free. |
| DatabaseTasks.WorkerLeftAsleep | src/databasetasks.cpp:81-88 | A run from the start that ends with the worker asleep after a complete shutdown. |

## Left out

- Lua callbacks and events, XML and configuration loading, console output, client notifications, spectators and
  effects: foreign or without effect on the modelled state. Event hooks allow everything; where they can act in the
  middle of an operation (a trade's hand-over, a decay, the execution of a condition) their effects are inputs.
- The database, sockets and real threads. Clocks, dice, distances, sight and script checks are inputs.
- Player inventories and tiles as cylinders of their own, and with them the exchange branch of `internalMoveItem`,
  browse fields, ammunition counts, the flag CHILDISOWNER, the removal of an item that lies directly on a tile, and a
  player as top parent. An item knows whether it lies on a tile.
- GameItems.Game.InternalMoveItem: asks that the queries notice an item that encloses its destination, which they
  always do unless a chest or inbox hangs directly in it on the way (`ItemAdd.OverlooksIff`). Where they do not, the
  parent pointers of the code become a cycle and its walks do not end. The same goes for
  `GameItems.Game.InternalAddItem` and the commands of `ItemRun.Run`.
- GameItems.Game.InternalAddItem: as `GameItems.Game.InternalMoveItem`.
- GameItems.Game.InternalRemoveItem: an item that lies directly on a tile.
- Containers.Item.ContainerQueryAdd: the refusals for store items, quivers and house invitations depend on item
  attributes and houses, which are not modelled.
- Containers.Item.QueryRemove: the checks of the acting creature are left out; no operation modelled here names one.
- Two items are equal when their kinds are; the attribute lists behind `Item::equals` are part of the kind.
- 32-bit wrap-around of weights.
- ItemCopy.Clone: equipped forms that `CreateItem` replaces and deprecated types, for which it returns nothing; the
  classes of doors, beds and reward chests; the decay a clone with a duration starts. The copy has the capacity of the
  original; in the code that of an inbox may differ from its type's.
- ItemRun.Run: a replacing or added item is loose and on no tile, as every caller has it; transforming items is the
  update and the replacement it ends in. Loading containers from files.
- Money.Purse.Gather: the stacks are given as a list in search order; the walk over nested containers is
  `Containers.Item.GetItems`.
- Money.Purse.AddMoney: change lies in new stacks. In the code `internalAddItem` may top up stacks of the same coin;
  that this adds the same pieces is `GameItems.Game.InternalAddItem`.
- Money.Purse.RemoveMoney: a stack whose cut worth is less than its number of coins gives a coin worth 0 and a
  division by it in floating point, which is undefined when converted; the model stops there. Rounding of that
  division for amounts beyond 2^53.
- Market.GetMarketItemList: the traversal of depot chests and inbox and its filters are replaced by the list of stacks
  they give.
- The market's history, statistics, expiry of offers and store coins, which move an account counter in place of
  stacks; sums of cash and bank beyond 64 bits; the fee of one percent is an input, clamped as in the code.
- Trade.Game.AcceptTrade: says when the hand-over takes place; what it moves is `internalMoveItem`.
- Trade.Game.Run: containment is fixed during a run.
- Players of the market and of trades are records in a sequence or map, not objects with identity.
- Decay.Game.Cleanup: walks the release list as if pushing onto it did not move it. When the vector is reallocated
  under the loop the code is undefined; `ItemReferences.NothingLost` says exactly when there is no push. Creatures
  have a list of their own, which is left out.
- Decay.Game.StopDecay: reads the time before it erases the entry; the code reads it through the erased iterator
  (src/game.cpp:5221-5223).
- `ConditionDrunk`'s drunkenness and the percentage members of attributes are not written by the code. A stream with
  more skills than there are is undefined in the code and refused in the model. A condition being read is a value, not
  an object.
- Conditions other than speed, and conditions added while another is being executed, in `ConditionList`.
- Rounding noise of the sine term and of floating-point division; percentages and shares are exact and then rounded.
- Resistances and critical hits; 32-bit overflow of damage.
- SpellArea.CreateArea: a vector without a complete row, or whose centre lies in an incomplete one, makes the code
  write outside the array, and so does SetupArea.
- SpellArea.AreaCombat.SetupArea: as `SpellArea.CreateArea`.
- SpellArea.Mirror: with more columns than rows the code reads outside the array.
- Extended areas for diagonal casts are `Flip`, `Mirror` and `Transpose`; `getArea`'s choice among them, and the
  built-in rings and cones, are left out. Tile positions in `GetList` do not wrap.
- The state the database worker checks is read in one step.
- Chat, bans, houses, beds, familiars, path search and the tables that map one enumeration to another.
