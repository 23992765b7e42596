# Item economy, caches and codecs of the game server

A model, in Dafny, of the in-memory core of the game server under `src/`, with proofs about it.
`dafny verify dfyconfig.toml` checks everything.

**Items and containers** (`ItemTypes`, `Forest`, `CylinderQueries`, `Containers`, `ItemMoves`, `BreadthFirst`,
`ContainerIteration`, `Money`). `Forest` is a theory of item forests as values: parent links, item lists, cached
weights, stacks, and sums over them. The class `Containers.Item` has the fields and the mutators of the original, each
proved to turn the forest of all items into exactly the forest the theory names. On top of it `ItemMoves.Game` moves
and adds items, `ContainerIteration` walks containers, and `Money` pays and gives coins. Whoever owns the world of
items, its set and a depth function are ghost state; `Valid()` says that the forest is well formed. A conserved
quantity is any function from (type, attributes) to an amount per piece, so a count per kind and the total worth are
two instances of one statement, and so is the weight. Where an item goes, whether it goes and what refuses it is
stated over the fields of the items. Paying and giving coins are located: the worth changes inside the cylinder alone
when that has slots for the coins, and else inside it and on the drop.

**Walk cache** (`WalkCache`). The window around a creature is a two-dimensional array that is shifted in place. The
offset in `src/creature.cpp:546-552` comes from `Position::getDistanceY`, which is absolute (`src/position.h:50`), so
the branch for `dy < 0` is never taken. The model follows the code: agreement with the tiles is kept by a step if and
only if the step is no southern diagonal, a counterexample is given, and what is stale afterwards is stated. Read with
a signed offset, the same bounds keep agreement in all eight directions.

**Codecs.** `PlayerItems` (inventory rows), `HouseItems` on `ItemAttributeStream` on `PropStreams` (nested items in one
stream), `OtbFormat` (the node format with escapes and its stack machine), `ConditionStream` (tagged fields) and
`Base32` (section 6 of RFC 4648). Where something does not come back as it was, the exact condition is a theorem.

**Protocols over runs.** `Trade` (request, accept, close, over all runs of any number of players), `DecayWheel` (the
four-bucket timing wheel and the exact tick at which an item, and each stage it turns into, decays), `ConditionLedger`
(bonuses as sums over the active conditions). Each has a specification on values, a theorem that every step keeps an
invariant, run-level theorems, and a class whose methods are proved to compute the specified state.

**Smaller parts.** `DamageSchedule` (the damage list and when it is exact), `Attributes` (bit field and vector as a
map, and `Item::equals`), `Arithmetic` (division lemmas).

Some facts about the code that the theorems state:
- `generateDamageList` totals the amount exactly if and only if start*(start+1) is at most twice the amount. With the
  default start that holds for amounts up to 760, and for 780, and for no other.
- The file loader refuses files of up to seven bytes, so a root node without properties and children is not accepted.
- In `internalRemoveItem` the call `decayItems->remove` is never reached, since a removed item cannot decay.
- A condition's end time comes back only for constant conditions; others get one from their ticks, or the one the
  constructor gives.
- `playerAcceptTrade` does not look at the outcome of its second move; `ExchangeItems` says so in its contract. Its
  backpack test dereferences an item that is missing (`src/game.cpp:2866`, `src/game.cpp:2872`) when one side offers its
  equipped backpack and the other nothing. `NothingOfferedInReturn` gives a run that comes to it and
  `WhenLookupsAreDefined` the exact condition; there the model takes an arbitrary answer in place of the slot.
- A counter-offer does not take back the other side's acceptance, so it can be exchanged unseen: `UnseenCounterOffer`.
- The end of an attribute condition sets each experience rate that the condition has set to its negative, a refresh does
  not set the new rates, and a condition that says nothing about rates sets them to 0 (`AddThenRemove`,
  `RefreshLosesRates`, `UnsetRatesVanish`).
- With limits switched off a stack can be merged into one beyond the capacity of an overfull container, and what does
  not fit on it is then in no container (`WhenPiecesStray`, `PiecesCanStray`).
- The inner loop of `addMoney` does not end for 65536 coins or more of one denomination (`CoinLoopEnds`).
- `removeMoney` uses stacks in the order of what the whole stack is worth, not the single coin (`SmallestFirst`).
- A saved item whose type no longer exists is passed over by its id alone, and the attributes behind it are read as if
  they were items (`LostTypeLeavesBytes`).
- The node format is read leniently: bytes between and after children, and after the root, are skipped as long as they
  open and close nothing (`TreesAre`).
- `Container::addThing` drops an item silently when the index is at or beyond the capacity; `AddThing` says so.

## Model

| member | source | states |
|---|---|---|
| Forest.ReweighRestores | src/container.cpp:101-107 | one difference added along the parent chain makes every cached totalWeight the sum of its contents again |
| Forest.AttachKeepsForest | src/container.cpp:410-440 | putting a parentless item into a container keeps links, acyclicity, caches and stack bounds |
| Forest.DetachKeepsForest | src/container.cpp:489-522 | taking a whole item out keeps the forest well formed |
| Forest.RecountKeepsForest | src/container.cpp:442-463 | changing type or count of a listed item keeps the forest well formed |
| Forest.ReplaceKeepsForest | src/container.cpp:465-487 | replacing a listed item keeps the forest well formed |
| Forest.CacheIsTrueWeight | src/container.cpp:109 | in a well-formed forest the cached weight of every item is the recursive sum over everything inside it |
| Forest.WeighsByPiece | src/item.cpp:907-914 | splitting a stack splits its weight; the count of what does not stack makes no difference |
| Forest.PieceWeighs | src/item.cpp:907-914 | a piece weighs its weight attribute, as an unsigned 32-bit number, or else what its type says |
| Forest.PiecesWeigh | src/item.cpp:907-914 | in a forest without empty stacks all items weigh what their pieces weigh, so the weight is one of the conserved quantities |
| Forest.LinkingIsAcyclic | src/container.cpp:215-237 | an item that is not an ancestor of its new container can be linked there without a cycle |
| Forest.AttachMoves | src/container.cpp:410-429 | adding an item changes the counts and worth of one container's direct contents, and the totals of nothing |
| Forest.DetachMoves | src/container.cpp:489-522 | removing an item does the same the other way |
| Forest.RecountMoves | src/container.cpp:442-463 | a changed count changes every conserved quantity by exactly the difference |
| Forest.ReweighReadsParentsOnly | src/container.cpp:101-107 | the weights added along the chain depend on parents and totals alone, so the order of the lines in the mutators does not matter |
| CylinderQueries.FirstTakerIs | src/container.cpp:386-404 | the scan for a stack to merge into finds the first one that has room |
| CylinderQueries.IndexLeads | src/container.cpp:339-384 | index 254 leads to the parent if there is one, the position of a container into it, and 255, negative ones and those beyond the capacity to the container itself |
| CylinderQueries.DestinationIs | src/container.cpp:359-406 | there a stackable item from elsewhere goes to the named stack if it fits on it, else to the first stack that takes it, else to the named position; other items to the named position |
| CylinderQueries.RoomIsWhatIsLeft | src/container.cpp:273-283 | the room on matching stacks is what they could hold less what they hold |
| CylinderQueries.MaxCountIs | src/container.cpp:254-304 | how many fit: everything without limits; else stack size times (free slots plus matching stacks) less the pieces on them; at a position the free slots and that stack; for single items the free slots |
| CylinderQueries.QueryAddIs | src/container.cpp:192-252 | NoError exactly when the item is pickupable, is not around the container, and there is a slot when there must be one; which objection each of the others stands for |
| CylinderQueries.QueryRemoveIs | src/container.cpp:306-337 | NoError exactly when the item is listed, has the pieces, and is moveable or that is ignored |
| Containers.Item.GetThingIndex | src/container.cpp:524-534 | position of the item in the list, or none |
| Containers.Item.GetTopParent | src/item.cpp:256-273 | the ancestor right below the root; for an item in the root itself, the item if it is a container and else the root |
| Containers.Item.QueryAdd | src/container.cpp:192-252 | NoError exactly when the item may be carried, is not the container or around it, and there is room |
| Containers.Item.QueryMaxCount | src/container.cpp:254-304 | how many pieces fit: free slots times stack size plus the room on matching stacks |
| Containers.Item.RoomAt | src/container.cpp:284-290 | room on the stack at the index |
| Containers.Item.RoomOnStacks | src/container.cpp:273-283 | room on all matching stacks |
| Containers.Item.QueryRemove | src/container.cpp:306-337 | NoError exactly when the item is listed, has the pieces asked for, and is moveable |
| Containers.Item.QueryDestination | src/container.cpp:339-406 | container, index and stack that a requested index leads to; IndexLeads and DestinationIs say which, in fields |
| Containers.Item.FindStack | src/container.cpp:386-404 | first matching stack with room |
| Containers.Item.UpdateItemWeight | src/container.cpp:101-107 | adds the difference to every container up to the root; terminates because the chain has no cycle |
| Containers.Item.AddThing | src/container.cpp:410-429 | whole new forest: the item in front, its weight added up the chain |
| Containers.Item.InternalAddThing | src/container.cpp:608-618 | whole new forest, as used by loading |
| Containers.Item.AddItemBack | src/container.cpp:431-440 | whole new forest: the item at the back |
| Containers.Item.UpdateThing | src/container.cpp:442-463 | whole new forest: type and count changed, weight difference added up the chain |
| Containers.Item.RemoveThing | src/container.cpp:489-522 | whole new forest: part of a stack, or the whole item, taken out |
| Containers.Item.TakePart | src/container.cpp:501-510 | part of a stack taken out |
| Containers.Item.TakeWhole | src/container.cpp:511-521 | whole item taken out, with the weight taken off before the item is unlinked |
| Containers.Item.ReplaceThing | src/container.cpp:465-487 | whole new forest: one listed item replaced by another |
| Containers.DetachInCodeOrder | src/container.cpp:511-521 | updating weights first and unlinking afterwards gives the same forest as the other order |
| Containers.ReplaceInCodeOrder | src/container.cpp:465-487 | the same for replaceThing |
| ItemMoves.Game.InternalMoveItem | src/game.cpp:1096-1308 | where it goes: index 254 leads to what the destination lies in, the position of a container into that, any other index to the destination itself; there to the named stack if the item fits on it, else to the first stack it fits on, else to the named position. Something moves if and only if the item may be carried and moved, is listed, is not around its destination, what is traded is not either, there is room, and pieces are there; then as many as fit. The whole new forest is given up to cached weights: a carried item is first in the destination with its contents; pieces fill the stack and the rest is one clone; all else keeps parent, list and count. Every quantity per type and attributes is conserved, no container goes above capacity, and the return value is the first objection, or says how much fitted |
| ItemMoves.Game.ResolveDestination | src/game.cpp:1115-1133 | the container, position and stack a move really goes to, in fields: up for 254, into a listed container for its position, otherwise the container itself; then the named stack, the first that takes the item, or the named position |
| ItemMoves.Game.AskMove | src/game.cpp:1130-1223 | all questions of a move answered before anything changes, in order; no objection exactly when the item is movable as its fields say |
| ItemMoves.VerdictIs | src/game.cpp:1130-1223 | no objection exactly when the fields say that the item is movable, and how many pieces go then |
| ItemMoves.FirstObjection | src/game.cpp:1130-1223 | of several objections the first is answered: not pickupable, around its destination, full, not listed or not so many pieces, not moveable, inside what is traded |
| ItemMoves.Game.MoveTo | src/game.cpp:1135-1308 | the move once the destination is known: moved exactly when movable, with the whole new forest |
| ItemMoves.Game.MoveOfStack | src/game.cpp:1225-1258 | the branch for stacks: what is taken, merged and cloned adds up, and nothing else changes |
| ItemMoves.Game.MergeOnto | src/game.cpp:1231-1238 | as many pieces as fit go onto a stack of the same type and attributes |
| ItemMoves.Game.PutPieces | src/game.cpp:1240-1258 | the rest becomes a clone at the front, or stays nowhere when addThing refuses the index |
| ItemMoves.Game.MoveOfItem | src/game.cpp:1225-1258 | the branch for single items: first in the destination with its contents, and nothing else changes |
| ItemMoves.Game.LiesIn | src/game.cpp:1210-1223 | a traded item is found among the ancestors of the destination |
| ItemMoves.Game.InternalAddItem | src/game.cpp:1317-1399 | where it goes, in fields, as for a move; NoError exactly when the item may be carried, is not around its destination, and all of it fits into the free slots and onto the stacks; otherwise the answer is the objection; a dry run or refusal changes nothing; otherwise the named stack is filled, or the item is first in the container whole, nothing new comes up while a stack there has room, all pieces arrive, with remainder 0 unless stacking is switched off at a named index, and no container goes above capacity unless limits are off or stacking is off at a named index; nothing but the container and matching stacks in it is touched |
| ItemMoves.AddableIs | src/game.cpp:1326-1344 | the dry run says yes exactly when the item may enter where it is led, and all of it fits into the container that was named |
| ItemMoves.RoomForStackIs | src/game.cpp:1326-1344 | at no particular index a new stack can be added exactly when there is a free slot, or enough room on equal stacks, or limits are off |
| ItemMoves.Game.LeadTo | src/container.cpp:339-406 | the destination of a new item, in fields |
| ItemMoves.Game.AskToAdd | src/game.cpp:1329-1344 | the dry run: yes exactly when it can be added, and otherwise the objection |
| ItemMoves.Game.AddTo | src/game.cpp:1349-1390 | adding once everything has been asked: a named stack is filled first, an item that does not merge is first in the list |
| ItemMoves.Game.AddBeside | src/game.cpp:1365-1372 | beside a full stack the new item is added as it is |
| ItemMoves.AddingHasRoom | src/game.cpp:1334-1390 | a new item that is not merged finds a free slot, because the room on stacks was nothing it could count on |
| ItemMoves.RestEnds | src/game.cpp:1350-1364 | splitting a new stack and adding its rest adds up to adding the stack |
| ItemMoves.Game.AddOntoStack | src/game.cpp:1349-1382 | the merging branch: kept and remaining pieces add up to the count |
| ItemMoves.Game.SplitStack | src/game.cpp:1350-1364 | merge what fits and add the rest as a new stack |
| ItemMoves.Game.AddRest | src/game.cpp:1358-1364 | the recursive call succeeds with nothing left over whenever the dry run had allowed the whole |
| ItemMoves.Game.AddWhole | src/game.cpp:1383-1390 | the branch that adds the item as it is |
| ItemMoves.StackMoveConserves | src/game.cpp:1225-1258 | taking, merging and cloning conserves every quantity |
| ItemMoves.StackMoveShifts | src/game.cpp:1225-1258 | what every item holds, where it is and how many pieces it has after a stack has moved |
| ItemMoves.CarryShifts | src/game.cpp:1225-1258 | the same for a whole item |
| ItemMoves.MovedPieces | src/game.cpp:1096-1308 | the count per type and attributes: as many pieces come into the destination as leave the source, and no other count changes |
| ItemMoves.MovedWeighsTheSame | src/game.cpp:1096-1308 | a move changes the weight of nothing: all items together weigh the same |
| ItemMoves.WhenPiecesStray | src/game.cpp:1225-1258 | pieces end up in no container if and only if the stack they merge into is full first and stands at or beyond the capacity, which takes switched-off limits and a container above its capacity |
| ItemMoves.PiecesCanStray | src/game.cpp:1225-1258 | a forest in which 4 of 5 coins end up nowhere |
| ItemMoves.CarryConserves | src/game.cpp:1225-1258 | carrying a whole subtree conserves every quantity |
| ItemMoves.StackMoveFits | src/game.cpp:1183-1258 | no container is above capacity after a stack has moved, though addThing does not check |
| ItemMoves.CarryFits | src/game.cpp:1183-1258 | the same for a whole item |
| ItemMoves.RestCanBeAdded | src/game.cpp:1338-1364 | what is left after merging can still be added: room was counted over all stacks |
| BreadthFirst.CompleteIsExact | src/container.cpp:639-669 | a finished search has visited exactly the descendants, each once |
| BreadthFirst.CompleteIsLevels | src/container.cpp:639-669 | and level by level |
| BreadthFirst.VisitedInOneOrder | src/container.cpp:639-669 | the order of a search is determined |
| BreadthFirst.SeenIsOnce | src/container.cpp:651-669 | nothing is queued twice, which bounds the iteration |
| ContainerIteration.AdvanceIsSteady | src/container.cpp:651-669 | one step of the iterator delivers the next item of the breadth-first order |
| ContainerIteration.ContainerIterator.Current | src/container.cpp:649 | the item the iterator stands at |
| ContainerIteration.ContainerIterator.Advance | src/container.cpp:651-669 | one more item delivered; the iterator stays valid |
| ContainerIteration.AllDelivered | src/container.cpp:639-669 | when the iterator is at its end it has delivered every descendant exactly once, in breadth-first order |
| ContainerIteration.GetItemHoldingCount | src/container.cpp:119-126 | is the number of descendants |
| ContainerIteration.IsHoldingItem | src/container.cpp:128-136 | is exactly "is a descendant" |
| ContainerIteration.GetItems | src/container.cpp:559-572 | all descendants, each once, level by level |
| ContainerIteration.FindItemOfType | src/game.cpp:1462-1508 | null exactly when nothing matches; otherwise the first match in breadth-first order |
| ContainerIteration.MatchesIs | src/game.cpp:1476-1484 | what matches: the id, and unless it is -1 the subtype, which is the fluid, the count or the charges |
| ContainerIteration.ScanContainer | src/game.cpp:1493-1507 | the scan of the next container of the queue |
| ContainerIteration.FindInContainers | src/game.cpp:1493-1507 | the deep part of the search |
| ContainerIteration.ScanList | src/game.cpp:1470-1491 | the scan of one list |
| ContainerIteration.FirstMatchIsUnique | src/game.cpp:1462-1508 | there is only one first match |
| Money.InternalRemoveItem | src/game.cpp:1401-1439 | NoError exactly when the item is somewhere and has the pieces; then exactly those pieces are gone, or a container has left its place with its contents |
| Money.RemoveMoney | src/game.cpp:1510-1587 | true exactly when the cylinder holds enough; then the money inside the cylinder together with that on the drop falls by exactly money, and no item or list outside is touched; when the cylinder has slots for any change, the drop is not touched either and the money inside alone falls by exactly money; no coin stack is used while one of less worth is left; otherwise nothing changes |
| Money.TakingsShift | src/game.cpp:1510-1617 | when only money in reach of the cylinder and on the drop is touched, it is there that the worth changes |
| Money.PurseIsInReach | src/game.cpp:1520-1563 | what removeMoney counts is the money that lies in the cylinder and the containers inside it |
| Money.WorthShifts | src/game.cpp:1510-1617 | the worth of all items changes by what the touched money changes |
| Money.RemovedIsMoney | src/game.cpp:1571-1584 | removing coins touches money in reach only |
| Money.GatherMoney | src/game.cpp:1520-1563 | the money map holds every coin stack inside and nothing else, by rising worth, and their sum is the purse |
| Money.EmplacedBehind | src/game.cpp:1543 | a new entry of the money map comes behind those worth no more and before those worth more, and no other moves |
| Money.PayWith | src/game.cpp:1569-1585 | the loop over the map pays exactly money, out of the containers its coins lie in, in the order of the map: all stacks before one are gone, all behind it are whole |
| Money.SpentSmallestFirst | src/game.cpp:1569-1585 | a stack that is worth more is not touched while one that is worth less is left |
| Money.PaidWhere | src/game.cpp:1569-1585 | what is paid out of the cylinder alone is missing there alone |
| Money.PayEntry | src/game.cpp:1569-1585 | one entry paid, or the payment finished; every other stack stays whole |
| Money.PayStack | src/game.cpp:1571-1584 | a whole stack pays its worth |
| Money.PayCut | src/game.cpp:1574-1580 | a cut stack and its change pay exactly what is left; the change goes to the cylinder when that has slots for it, and else to the cylinder or the drop |
| Money.CutForChange | src/game.cpp:1575-1580 | change given and stack cut: no other stack loses pieces |
| Money.Cut | src/game.cpp:1575-1578 | the coins cut off cover the rest, with less than one coin in change |
| Money.CeilIs | src/game.cpp:1576 | rounding up gives the least number of coins that covers the rest |
| Money.GiveChange | src/game.cpp:1578 | change is worth less than one coin of the stack that will be cut, so it never merges into that stack; it goes to the cylinder when that has a slot for each of its stacks, and nothing loses pieces by it |
| Money.AddMoney | src/game.cpp:1589-1617 | the money inside the cylinder together with that on the drop rises by exactly money; when the cylinder has a slot for every stack to give, its money alone rises by that, and list and counts of the drop stay; stacks that are there may grow, what is new is coins in one of the two, and nothing else is touched |
| Money.PurseShift | src/game.cpp:1510-1617 | when only money in reach of the cylinder is touched, the purse changes by what all money changes |
| Money.GivenWhere | src/game.cpp:1589-1617 | coins given to the cylinder alone raise its purse by that much |
| Money.DropUntouched | src/game.cpp:1609-1612 | then list and counts of the drop are as they were |
| Money.GiveCoins | src/game.cpp:1595-1616 | the loop over the denominations gives all of it, all to the cylinder when that has the slots |
| Money.AddRound | src/game.cpp:1595-1616 | one denomination: worth given plus rest stays the same; slots for this round and the rest are enough for the rest |
| Money.AddCoinsOf | src/game.cpp:1604-1615 | the inner loop gives exactly the coins of one denomination, in one stack per hundred, to the cylinder when that has the slots, else to the cylinder or the drop |
| Money.AddCoins | src/game.cpp:1605-1614 | one stack of coins comes into the cylinder when there is a slot, and else into the cylinder or onto the drop |
| Money.AddOrDrop | src/game.cpp:1609-1612 | the stack goes to the cylinder if and only if that has a free slot or enough room on equal stacks, or limits are off; otherwise to the drop; all pieces arrive there, and nothing else is touched |
| Money.AddStack | src/game.cpp:1609 | a new stack is added whole, or nothing changes |
| Money.StackTaken | src/game.cpp:1604-1615 | the next stack has at most 100 coins, and one stack fewer is left to give |
| Money.NextCoins | src/game.cpp:1598-1603 | a greedy step fits 16 bits and leaves less than one coin |
| Money.CoinLoopEnds | src/game.cpp:1604-1615 | the inner loop ends if and only if there are fewer than 65536 coins of the denomination to give |
| WalkCache.StepAgrees | src/creature.cpp:509-592 | a step keeps the window equal to asking every tile, in every world, if and only if it is not a southern diagonal |
| WalkCache.StepAgreesAt | src/creature.cpp:509-592 | cell by cell, also for the rows, and the new column, that a southern diagonal leaves right |
| WalkCache.StepStale | src/creature.cpp:546-552 | what the first and last row hold after a southern diagonal |
| WalkCache.SouthernDiagonalBreaks | src/creature.cpp:546-552 | a world with one walkable tile in which the window is wrong |
| WalkCache.SignedStepAgrees | src/creature.cpp:546-552 | with a signed offset the same bounds would keep agreement in all eight directions |
| WalkCache.ReloadAgrees | src/creature.cpp:312-326 | loading the window makes it right |
| WalkCache.RefreshAgrees | src/creature.cpp:328-344 | refreshing a cell makes it follow its tile |
| WalkCache.EventAgrees | src/creature.cpp:374-406 | each event keeps or restores agreement |
| WalkCache.RunAgrees | src/creature.cpp:467-592 | in every run without an unhealed southern diagonal the loaded window agrees with the tiles |
| WalkCache.RunLoads | src/creature.cpp:113-118 | the window is loaded from the first think of a creature that uses it on |
| WalkCache.Creature.UpdateMapCache | src/creature.cpp:312-326 | the two loops reload the window |
| WalkCache.Creature.UpdateTileCacheAt | src/creature.cpp:328-334 | one cell, and no other, is set |
| WalkCache.Creature.ShiftRows | src/creature.cpp:517-541 | the in-place shift of the rows |
| WalkCache.Creature.ShiftColumns | src/creature.cpp:543-589 | the in-place shift of the columns |
| WalkCache.Creature.OnCreatureMove | src/creature.cpp:509-592 | the window after the creature's own step |
| WalkCache.Creature.OnOtherCreatureMove | src/creature.cpp:593-605 | the window after another creature's step |
| WalkCache.Creature.OnThink | src/creature.cpp:113-118 | the window is loaded once |
| WalkCache.Creature.OnTileChange | src/creature.cpp:374-406 | the window after items on a tile have changed |
| WalkCache.Creature.GetWalkCache | src/creature.cpp:346-372 | 0, 1 or 2; an agreeing window answers as the tile would |
| PlayerItems.SaveItems | src/iologindata.cpp:605-659 | the rows say slot or parent, order and data of every item reachable from the slots |
| PlayerItems.SaveSlots | src/iologindata.cpp:615-632 | the loop over the slots |
| PlayerItems.SaveContainer | src/iologindata.cpp:634-657 | the rows of one container's list, with the growing worklist |
| PlayerItems.LoadItems | src/iologindata.cpp:989-1011 | one new item per row, under its id |
| PlayerItems.PlaceItem | src/iologindata.cpp:482-498 | one item goes into its slot or parent; the forest stays well formed |
| PlayerItems.PlaceItems | src/iologindata.cpp:481-499 | descending ids attach children before their parent is attached |
| PlayerItems.LoadInventory | src/iologindata.cpp:476-500 | the rebuilt forest is well formed and is what the rows say |
| PlayerItems.RowsDetermineItems | src/iologindata.cpp:605-659 | rows determine the items up to identity, totals included |
| PlayerItems.Relog | src/iologindata.cpp:605-659 | saving and loading gives the same slots, parents, child order and total weights, and the same type, attributes, count and size of every item |
| OtbFormat.RoundTrip | src/fileloader.cpp:14-107 | an encoded tree of any shape is accepted exactly when the identifier matches and it is not bare, and is then rebuilt |
| OtbFormat.ParseBody | src/fileloader.cpp:37-89 | from a type byte to its END, with the open path unchanged below |
| OtbFormat.ParseEscaped | src/fileloader.cpp:73-78 | escaped property bytes never move the machine |
| OtbFormat.ParseIsSound | src/fileloader.cpp:37-89 | for every file that is accepted, property ranges lie inside the file |
| OtbFormat.TreesAre | src/fileloader.cpp:37-89 | any file is read as a tree exactly when, behind its identifier, it is cut into whole tokens of which the first opens a node, one closes all that were opened, none before it does, and none after it opens or closes any |
| OtbFormat.ParseCounts | src/fileloader.cpp:44-85 | from any position and open path: what is still accepted |
| OtbFormat.PlacedRepresents | src/fileloader.cpp:91-107 | each node's property range holds exactly its properties, escaped |
| OtbFormat.UnescapeEscape | src/fileloader.cpp:91-107 | the stateful filter undoes the escaping |
| OtbFormat.HeldPointersStayGood | src/fileloader.cpp:47-72 | the stack is the rightmost open path, so no held pointer is moved by a sibling |
| OtbFormat.Loader.ParseTree | src/fileloader.cpp:37-89 | the in-place parser computes the tree of the file, or its error |
| OtbFormat.Loader.PushNode | src/fileloader.cpp:50-64 | START |
| OtbFormat.Loader.PopNode | src/fileloader.cpp:65-72 | END |
| OtbFormat.Loader.GetProps | src/fileloader.cpp:91-107 | the unescaped properties; nothing for an empty range |
| Base32.RoundTrip | src/iologindata.cpp:31-58 | decoding the unpadded encoding of section 6 of RFC 4648 gives the bytes back |
| Base32.AlphabetIs | src/iologindata.cpp:40-50 | the characters that are accepted are those of table 3 of RFC 4648, each for its position there |
| Base32.DecodeSecret | src/iologindata.cpp:31-58 | the 32-bit buffer computes the bytes of the unbounded bit string; an unknown character gives an empty key |
| Base32.ReadBits | src/iologindata.cpp:39-54 | one character: five bits in, a byte out when there are eight |
| Base32.KeyLength | src/iologindata.cpp:31-58 | n characters give 5n/8 bytes, rounded down |
| DamageSchedule.GenerateDamageList | src/condition.cpp:1629-1647 | non-increasing, every value from start to 1, never less than the amount, and exact if and only if start*(start+1) <= 2*amount |
| DamageSchedule.NearerIsCloser | src/condition.cpp:1643-1645 | the integer test of the model is the comparison of the two relative distances |
| DamageSchedule.RepeatHit | src/condition.cpp:1636-1645 | the inner loop stops as soon as another hit would not bring the sum nearer |
| DamageSchedule.DefaultStartIsExact | src/condition.cpp:1404-1416 | the default start is exact for amounts up to 760 and for 780, and for no other |
| PropStreams.NumberComesBack | src/fileloader.h:66-75 | a written number is read back narrowed to its width |
| PropStreams.StringComesBack | src/fileloader.h:77-91 | a written string is read back, or empty when it was too long |
| PropStreams.SignedNarrow | src/fileloader.h:66-75 | narrowing keeps exactly the numbers in range |
| PropStreams.LittleAt | src/fileloader.h:121-126 | byte k of a written number counts 256 to the power of k |
| PropStreams.StringLayout | src/fileloader.h:128-138 | a written string is its length in two bytes, the lower first, and itself; a string of 65536 bytes or more is two zero bytes |
| PropStreams.StringTaken | src/fileloader.h:77-91 | reading a string takes the bytes that the first two announce, and fails exactly when there are too few |
| PropStreams.PropStream.Read | src/fileloader.h:66-75 | takes exactly n bytes or fails without moving |
| PropStreams.PropStream.ReadString | src/fileloader.h:77-91 | takes a string or fails |
| PropStreams.PropStream.Skip | src/fileloader.h:93-101 | skips n bytes or fails without moving |
| PropStreams.PropWriteStream.Write | src/fileloader.h:121-126 | appends the bytes of a number |
| PropStreams.PropWriteStream.WriteString | src/fileloader.h:128-138 | appends a string, or an empty one when it is too long |
| ItemAttributeStream.AttrsComeBack | src/item.cpp:343-872 | reading what was written fails exactly for a blank custom value and otherwise gives the restored attributes and the exact rest |
| ItemAttributeStream.KeptIsRestored | src/item.cpp:343-872 | the restored attributes are the written ones if and only if each is in its valid range |
| ItemAttributeStream.CustomComesBack | src/item.cpp:860-871 | a custom map comes back exactly when its keys are in order |
| ItemAttributeStream.FieldsComeBack | src/item.cpp:724-736 | any list of fields is read back one after the other |
| ItemAttributeStream.EndOfStream | src/item.cpp:724-736 | the end of the stream ends the attributes as the zero byte does |
| ItemAttributeStream.BlankBreaks | src/item.cpp:860-871 | a blank custom value is written but cannot be read |
| ItemAttributeStream.SerializeAttr | src/item.cpp:743-872 | the bytes of the fields, in order |
| ItemAttributeStream.ReadAttr | src/item.cpp:343-722 | one field read and applied, or an error |
| ItemAttributeStream.UnserializeAttr | src/item.cpp:724-736 | fields until the end mark or the contents of a container |
| HouseItems.RoundTrip | src/iomapserialize.cpp:94-215 | loadItem on a saved item followed by any bytes gives the item, nested to any depth with order kept, and exactly those bytes; it fails exactly for blank custom values |
| HouseItems.KeptComesBack | src/iomapserialize.cpp:94-215 | the item is the same if and only if its attributes are in range at every depth |
| HouseItems.ComesBackUnchanged | src/iomapserialize.cpp:94-215 | loading what was saved gives the very item and exactly the bytes that follow if and only if its attributes are in range at every depth and no custom value is blank |
| HouseItems.ItemEnds | src/iomapserialize.cpp:94-145 | whatever the bytes are, an item takes a beginning of them; a container ends with a zero byte, anything else with one or with the stream |
| HouseItems.UnknownTypeIsPassed | src/iomapserialize.cpp:122-144 | an item of a type that does not exist is passed over, and loading goes on |
| HouseItems.LostTypeLeavesBytes | src/iomapserialize.cpp:122-144 | but only its id: when a type has been lost, the attributes of its items are read as if they were items |
| HouseItems.SaveItem | src/iomapserialize.cpp:197-215 | the bytes of an item |
| HouseItems.SaveContents | src/iomapserialize.cpp:209-211 | the items of a container, the last one first |
| HouseItems.LoadItem | src/iomapserialize.cpp:114-145 | what the bytes say, and how many were read |
| HouseItems.LoadContainer | src/iomapserialize.cpp:94-112 | as many items as were counted, each put in front |
| ConditionStream.RoundTrip | src/iologindata.cpp:319-329 | loading stored conditions gives those that are stored, renewed, in reverse order |
| ConditionStream.RenewedIsSame | src/condition.cpp:59-141 | exactly which conditions come back unchanged; damage ticks become the sum of the intervals |
| ConditionStream.StoredAlone | src/condition.cpp:348-359 | which conditions come back, by their fields, and with which clocks |
| ConditionStream.LoadingEnds | src/iologindata.cpp:323-329 | a header that is cut off or of an unknown type ends the loading |
| ConditionStream.ConditionComesBack | src/condition.cpp:249-338 | one condition is read back, and exactly its bytes |
| ConditionStream.IntervalsApply | src/condition.cpp:1301-1328 | intervals are restored and their lengths added to the ticks |
| ConditionStream.Serialize | src/condition.cpp:143-170 | the bytes of one condition |
| ConditionStream.SaveConditions | src/iologindata.cpp:680-687 | persistent and constant conditions with end marks |
| ConditionStream.CreateCondition | src/condition.cpp:249-338 | header of a condition, or none |
| ConditionStream.Unserialize | src/condition.cpp:59-68 | fields until the end mark, or an error |
| ConditionStream.LoadConditions | src/iologindata.cpp:319-329 | the loop over the stored conditions |
| Attributes.Equals | src/item.cpp:174-209 | true if and only if type and attribute map are equal; hence an equivalence, whatever the order of the entries |
| Attributes.ContentsAreMap | src/item.cpp:1101-1191 | a vector with distinct kinds is a map, in any order |
| Attributes.SameBitsSameKeys | src/item.cpp:174-190 | equal bit words mean equal key sets |
| Attributes.UpdateKeeps | src/item.cpp:1178-1191 | assigning to an entry updates the map and keeps bits and vector together |
| Attributes.AppendKeeps | src/item.cpp:1178-1191 | a new entry and its bit |
| Attributes.SwapKeeps | src/item.cpp:1116-1136 | replacing an entry by the last one removes exactly its kind |
| Attributes.AgreeIsEqual | src/item.cpp:191-208 | no two entries of one kind differ if and only if the maps are equal |
| Attributes.ItemAttributes.HasAttributeIs | src/item.cpp:1166-1176 | a bit is set if and only if the map has the type |
| Attributes.ItemAttributes.GetExistingAttr | src/item.cpp:1166-1176 | the entry of a type, or none |
| Attributes.ItemAttributes.GetIntAttr | src/item.cpp:1138-1149 | the integer, 0 when there is none |
| Attributes.ItemAttributes.GetStrAttr | src/item.cpp:1088-1099 | the string, empty when there is none |
| Attributes.ItemAttributes.SetIntAttr | src/item.cpp:1151-1162 | the map with one integer set; attack speed is at least 100 |
| Attributes.ItemAttributes.SetStrAttr | src/item.cpp:1101-1114 | the map with one string set; an empty string changes nothing |
| Attributes.ItemAttributes.Put | src/item.cpp:1178-1191 | the map with one entry set |
| Attributes.ItemAttributes.IncreaseIntAttr | src/item.cpp:1164 | the old value plus the increase, at least 100 for attack speed; nothing for a type that is no integer |
| Attributes.ItemAttributes.RemoveAttribute | src/item.cpp:1116-1136 | the map without the type |
| Attributes.ItemAttributes.SameValues | src/item.cpp:191-208 | the nested loops of equals |
| Trade.StepKeeps | src/game.cpp:2728-3062 | every step keeps: partners name each other; no state without partner and the reverse; the index is exactly the offered items under their owners; none is inside another; not both have accepted; nobody rests in transfer; one reference per offered item |
| Trade.RunKeeps | src/game.cpp:2728-3062 | so it holds in every run |
| Trade.RequestKeeps | src/game.cpp:2728-2775 | a request keeps it |
| Trade.RequestTakenUp | src/game.cpp:2656-2808 | a request is taken up exactly when it is allowed, both are there and different, the item holds fewer than 100, none on offer is the item, inside or around it, and both are free or asked by each other; then it sets both seats and the index, and nothing else |
| Trade.AcceptKeeps | src/game.cpp:2810-2932 | an acceptance keeps it, whatever the settlement answers |
| Trade.AcceptIs | src/game.cpp:2810-2932 | the first acceptance waits, the second empties both seats and moves nothing unless the settlement succeeds |
| Trade.CloseIs | src/game.cpp:3015-3062 | closing empties exactly the two seats and takes exactly their items off the index |
| Trade.CloseKeeps | src/game.cpp:3015-3062 | a close keeps it |
| Trade.TransferIsShielded | src/game.cpp:2838-2931 | while a trade is in transfer, any sequence of closes, acceptances, requests and leaves by or to the two players leaves seats, index and references as they are |
| Trade.WhenLookupsAreDefined | src/game.cpp:2864-2877 | the slot lookup of the backpack test has an item exactly unless one side offers its equipped backpack and the other nothing; a success never depends on a missing one |
| Trade.LookupsDoNotDecide | src/game.cpp:2864-2899 | where an item is missing the answers make no difference to the new state |
| Trade.NothingOfferedInReturn | src/game.cpp:2810-2826 | a run after which the second acceptance is due from a player who offers nothing, and answers with which the settlement looks up the slot of a missing item |
| Trade.LeaveKeeps | src/player.cpp:1098-1100 | leaving the game keeps it |
| Trade.CleanupKeeps | src/game.cpp:4750-4753 | after cleanup exactly one reference is left per offered item |
| Trade.MovesAreExchanges | src/game.cpp:2836-2899 | items change places only when both partners had offered one and both accepted, and then only those two |
| Trade.TransferNeedsEveryAnswer | src/game.cpp:2828-2899 | if any item changes place, the line of sight, the event, both dry runs, both removals and the first move were answered with yes, not both backpacks were offered, and an offered one met a free slot |
| Trade.EveryAnswerTransfers | src/game.cpp:2828-2899 | conversely, under these answers the two items change hands, and no other item moves |
| Trade.ConsentIsGiven | src/game.cpp:2810-2826 | who has accepted did so by an event of his own, with seat, partner and item unchanged since |
| Trade.NoTransferWithoutConsent | src/game.cpp:2810-2932 | in every run, whenever items change places the partner had accepted earlier and offered the same item to the same player ever since; what he gets in return is what he saw then if and only if it had been requested by then |
| Trade.UnseenCounterOffer | src/game.cpp:2777-2808 | a run in which a counter-offer is made after the acceptance and exchanged without having been seen |
| Trade.OfferStands | src/game.cpp:2777-2932 | while an acceptance stands, an offer that the other side has made stands too |
| Trade.BystandersAreUntouched | src/game.cpp:2656-3062 | an event leaves the seats and offers of everyone else alone |
| Trade.Game.PlayerRequestTrade | src/game.cpp:2656-2775 | the new state is that of the specification |
| Trade.Game.IsEntangled | src/game.cpp:2728-2764 | the loops over the index find exactly an offered item that is the same, inside or around |
| Trade.Game.InternalStartTrade | src/game.cpp:2777-2808 | both players' fields and the index |
| Trade.Game.PlayerAcceptTrade | src/game.cpp:2810-2932 | the new state, and the invariant; TransferNeedsEveryAnswer and EveryAnswerTransfers say when items change hands |
| Trade.Game.AnswerPartner | src/game.cpp:2828-2931 | what follows when the partner has accepted already |
| Trade.Game.TakeOffers | src/game.cpp:2838-2851 | both seats in transfer, both items off the index |
| Trade.Game.SettleTrade | src/game.cpp:2838-2931 | the transfer states, the index and the seats |
| Trade.Game.ExchangeItems | src/game.cpp:2856-2899 | success exactly when both items are there, both dry runs and both removals and the first move are answered with yes, not both offer their backpack, and an offered backpack meets a free slot; the second move is not looked at |
| Trade.Game.InternalCloseTrade | src/game.cpp:3015-3062 | both seats emptied unless in transfer |
| Trade.Game.PlayerCloseTrade | src/game.cpp:3005-3013 | the new state, and the invariant |
| Trade.Game.EraseTradeItem | src/game.cpp:2841-2851 | index and release list |
| Trade.Game.OnRemoveCreature | src/player.cpp:1083-1100 | the trade is closed before the player is gone |
| Trade.Game.Cleanup | src/game.cpp:4750-4753 | waiting references are given up |
| DecayWheel.StepKeeps | src/game.cpp:4642-4763 | each tracked item is in exactly one place with exactly one reference, in every step |
| DecayWheel.RunKeeps | src/game.cpp:4642-4763 | and in every run |
| DecayWheel.VisitKeeps | src/game.cpp:4683-4715 | for each branch of the loop over a bucket |
| DecayWheel.CleanedUpKeeps | src/game.cpp:4742-4764 | cleanup keeps it, and leaves one reference per tracked item |
| DecayWheel.FiresOnTime | src/game.cpp:4676-4719 | in every run, from any point on, an item that is due in n ticks and is decayable at each of them decays at the n-th and at none before, whatever becomes of it then |
| DecayWheel.DecaysWhenDue | src/game.cpp:4642-4763 | in every run, from startDecay or from the decay of the stage before on: the item waits for the first cleanup, be it one of its own or that of a tick, and decays at exactly the tick its duration says, counted from there |
| DecayWheel.WaitsForCleanup | src/game.cpp:4642-4660 | until cleanup runs it waits, with its duration, whatever else happens, whether it has entered by startDecay or as the next stage of another item |
| DecayWheel.CleaningPlaces | src/game.cpp:4676-4763 | the first cleanup places it; if that is the one of a tick, the tick does not touch it |
| DecayWheel.NextStageEnters | src/game.cpp:4662-4668 | after a decay into a next stage with time to go that is not on the wheel, the stage is pending with its duration, flagged as decaying, and holds one more reference |
| DecayWheel.NoNextStage | src/game.cpp:4662-4674 | any other decay puts nothing on the wheel |
| DecayWheel.StartedIs | src/game.cpp:4642-4660 | startDecay: nothing for what cannot decay or decays already; pending with a reference if time is left; otherwise it decays at once |
| DecayWheel.VisitOfUndecayable | src/game.cpp:4686-4691 | an item that cannot decay any more leaves the wheel, its flag and its reference |
| DecayWheel.TickTurns | src/game.cpp:4676-4719 | the tick at which an item is due puts its next stage where its new duration says, counted from this tick |
| DecayWheel.StagesFire | src/game.cpp:4642-4763 | a chain of stages fires stage by stage, each at its due tick counted from the end of the one before, in every run |
| DecayWheel.StagesFireWhenDue | src/game.cpp:4642-4763 | from startDecay of the first stage on |
| DecayWheel.WalkSparesPending | src/game.cpp:4683-4715 | a walk does not touch what waits |
| DecayWheel.DueBound | src/game.h:57-58 | 250*t <= D < 250*t + 875 for D >= 250, and the first tick for less |
| DecayWheel.TurnCountsDown | src/game.cpp:4676-4719 | one tick brings an item one tick nearer, or decays it when it is due |
| DecayWheel.OtherStepsKeepDue | src/game.cpp:4642-4660 | nothing else brings it nearer |
| DecayWheel.CleanupSetsDue | src/game.cpp:4755-4763 | cleanup puts a pending item where it is due as its duration says |
| DecayWheel.CleanupKeepsDue | src/game.cpp:4755-4763 | and leaves the others where they are |
| DecayWheel.WalkOf | src/game.cpp:4683-4715 | what a walk does with an item of the bucket: decay, next bucket, or another round |
| DecayWheel.WalkPasses | src/game.cpp:4683-4715 | a walk does not touch items in other buckets, nor those it has passed |
| DecayWheel.NewBucket | src/game.cpp:4704-4705 | the rounded bucket is the same one below 875 ms and the next one otherwise |
| DecayWheel.Slot | src/game.cpp:4755-4761 | last bucket for a whole round, next bucket for less |
| DecayWheel.Game.StartDecay | src/game.cpp:4642-4660 | the new state, and the invariant |
| DecayWheel.Game.InternalDecayItem | src/game.cpp:4662-4674 | the new state for each outcome; what an item turns into is pending with its duration (NextStageEnters) |
| DecayWheel.Game.CheckDecay | src/game.cpp:4676-4719 | the new state, and the invariant; TickTurns says where a transformed item is then |
| DecayWheel.Game.WalkBucket | src/game.cpp:4683-4715 | the loop that erases while it walks |
| DecayWheel.Game.VisitItem | src/game.cpp:4684-4714 | one turn of the loop |
| DecayWheel.Game.Cleanup | src/game.cpp:4742-4764 | the new state, and the invariant |
| ConditionLedger.StepKeeps | src/creature.cpp:1195-1372 | from any start, no operation of a condition changes what a bonus has beyond the sum over the active conditions, and no two conditions come to share type, id and subId |
| ConditionLedger.RunKeeps | src/creature.cpp:1195-1372 | after every run each bonus is that sum, plus what others have written, plus what it had to begin with, whatever base values, draws and clocks are |
| ConditionLedger.NothingIsLeftOver | src/condition.cpp:600-636 | from a blank start, when the last condition has gone a bonus is what others have written |
| ConditionLedger.AddThenRemove | src/creature.cpp:1195-1294 | removing an added condition takes back every bonus; rates that it set are left as their negatives, and defense is on |
| ConditionLedger.VisitLeavesNoTrace | src/condition.cpp:585-648 | a condition that has come and gone has changed nothing if and only if it set no rate, or the negative of what was there, and defense was on |
| ConditionLedger.UnsetRatesVanish | src/condition.cpp:585-648 | a condition that says nothing about experience rates sets them to 0, and they stay 0 when it has gone |
| ConditionLedger.RefreshLosesRates | src/condition.cpp:419-444 | after a refresh the rates are the negatives of the old ones, and the new ones are not set |
| ConditionLedger.AddedKeeps | src/creature.cpp:1195-1225 | adding, refreshing, and haste against paralysis |
| ConditionLedger.RefreshedKeeps | src/condition.cpp:419-444 | a refresh takes the old bonus back before it gives the new one |
| ConditionLedger.StartedKeeps | src/condition.cpp:491-583 | a started condition gives what it will take back |
| ConditionLedger.PercentIs | src/condition.cpp:510-560 | a percentage of an amount is the amount times percent - 100, divided by 100 and cut towards zero: 100 gives nothing |
| ConditionLedger.FreshConditionGives | src/condition.cpp:491-583 | what each bonus gains from a new condition: the flat amount when its percent is 0, otherwise the cut quotient of base skill, present maximum health or mana, or magic level; a set speed its delta, a drawn one the draw; which rates it sets, and whether defense is on |
| ConditionLedger.RefreshedGives | src/condition.cpp:419-444 | when a refresh takes over, and what each bonus has then more than without the old condition |
| ConditionLedger.SameKeyIsRefreshed | src/creature.cpp:1207-1212 | a condition of the same type, id and subId is refreshed |
| ConditionLedger.EndMarks | src/condition.cpp:600-648 | an ended condition leaves each rate that it has set at its negative, and defense on if it had switched it off |
| ConditionLedger.RivalIsLifted | src/creature.cpp:1063-1070 | a running haste is lifted by a new paralysis and the reverse |
| ConditionLedger.InactiveRivalStays | src/creature.cpp:1063-1070 | one that has run out, or of another subId, is not |
| ConditionLedger.DroppedKeeps | src/condition.cpp:600-636 | an ended condition takes its bonus with it |
| ConditionLedger.PurgedKeeps | src/creature.cpp:1240-1294 | removal of a type keeps the rest of every bonus |
| ConditionLedger.PurgedIs | src/creature.cpp:1240-1294 | removal takes away all chosen conditions and no other |
| ConditionLedger.RemovalLeaves | src/creature.cpp:1240-1294 | what is left, by fields: all of other types, or ids when one is given, in their order |
| ConditionLedger.ExecutedKeeps | src/creature.cpp:1353-1372 | so does expiry |
| ConditionLedger.ExecutedIs | src/creature.cpp:1353-1372 | exactly the conditions that outlive the interval are left, with less time |
| ConditionLedger.ExecutionLeaves | src/creature.cpp:1353-1372 | what is left, by fields: endless conditions and those whose end has not come, in their order, each with the interval less, but not below 0 |
| ConditionLedger.SameConditionsSameBonuses | src/creature.cpp:1195-1372 | the bonuses depend on the conditions and on what is not theirs alone |
| ConditionLedger.Creature.AddCondition | src/creature.cpp:1195-1225 | the new state; the rest of every bonus is kept; FreshConditionGives and RefreshedGives say what each bonus gains |
| ConditionLedger.Creature.OnAddCondition | src/creature.cpp:1063-1070 | haste and paralysis drive each other out |
| ConditionLedger.Creature.StartCondition | src/condition.cpp:491-508 | amounts settled, applied and remembered; rates and defense set |
| ConditionLedger.Creature.SetRates | src/condition.cpp:585-643 | each rate but 1 is assigned |
| ConditionLedger.Creature.RefreshCondition | src/condition.cpp:419-444 | old bonus off, new bonus on, in place; the rates are not set again |
| ConditionLedger.Creature.RemoveConditions | src/creature.cpp:1240-1294 | the new state, which conditions are left, and that the rest of every bonus is kept |
| ConditionLedger.Creature.ExecuteConditions | src/creature.cpp:1353-1372 | the new state, which conditions are left, and that the rest of every bonus is kept |
| ConditionLedger.Creature.GetCondition | src/creature.cpp:1343-1351 | the first condition of the key |
| ConditionLedger.Creature.HasCondition | src/creature.cpp:1374-1396 | an unexpired, unsuppressed condition of the type |
| ConditionLedger.Creature.ChangeSpeed | src/game.cpp:3824-3829 | the variable speed changes by the difference |
| ConditionLedger.Creature.Apply | src/condition.cpp:533-583 | each amount is added to its own bonus |
| ConditionLedger.Creature.End | src/condition.cpp:600-636 | each amount is taken off its own bonus |

## Left out

- Tile and Player as cylinders: every cylinder is a container, and money that does not fit goes to an unlimited drop
  container. `RETURNVALUE_NEEDEXCHANGE`, which containers never return, is left out with them.
- ItemMoves.Game.InternalMoveItem: the capacity claim is for moves without `FLAG_NOLIMIT`, as the code makes it. A clone
  that `addThing` refuses stays in the world of items, in no container.
- ItemMoves.Game.InternalAddItem: the decay push at `src/game.cpp:1392-1396` for new items with a duration.
- Events, script callbacks, the acting player, house rights, messages, spectators and every notification.
- Weights are unbounded integers; the 32-bit field holds their residue. Counts, ids and money are unbounded where no
  width is written out.
- Duration, decay and unique-id side effects of moving, adding and changing items (`setID`, clones of items that have
  a duration).
- Containers.Item.UpdateThing: the effects of `setID` and `setSubType` on fluid types, charges and durations are not
  modelled; type and count change alone.
- Money.InternalRemoveItem: a removed container stays, with its contents, as the root of a tree of its own until it is
  released, and its release is not modelled.
- When a stack is split by `internalAddItem`, the code leaves the original object behind without a parent; the model
  takes it out of the world of items.
- Money.AddMoney: amounts of 65536 or more of the largest coin are excluded, because the inner loop does not end for them
  (`CoinLoopEnds`); the narrowing of the number of coins to 32 bits, which takes still larger amounts, is not modelled.
- Money.GiveCoins: as AddMoney.
- Money.RemoveMoney: assumes a currency table with falling worths down to 1, steps of at most 65535 and stack sizes of
  at least 100, and that all money is in the table; `std::ceil` on a quotient of doubles is taken as exact.
- WalkCache: what tiles answer is a function of the position; monsters' push rules and the zone change are not modelled.
- PlayerItems: the attribute column is data, a row is written and read as it is, and loading is modelled for rows as
  `saveItems` writes them; rows in which parents form a cycle are left out. Depot, inbox and store rows work alike.
- OtbFormat: the memory map of the file is a sequence of bytes; a node pointer is a path from the root.
- DamageSchedule.RepeatHit: the two quotients are compared exactly, as rational numbers; rounding is not modelled.
- ItemAttributeStream.ReadAttr: reflect and boost lists, unique ids, and the overrides of doors, beds, teleports and
  depots. Doubles are eight opaque bytes, and a custom map is listed in the order of its iteration.
- HouseItems.LoadItem: the branch of `loadItem` for stationary items that are already on the tile.
- ConditionStream: light, attribute, drunk and invisible conditions. Light is written four bytes wide and read one byte
  wide, and rates are written under the tag of special skills, so these do not round trip. The ticks of a damage
  condition are summed as unbounded integers; the field is 32 bits wide.
- Attributes.Equals: without custom attributes, whose comparison in `Item::equals` compares pointers.
- Trade.Game.PlayerRequestTrade: its reach, position, house and item checks are one answer, yes or no.
- Trade: each dry run of the settlement is one answer, yes or no. The house transfer item of scripts is left out. Other
  changes of the forest are arbitrary as long as they keep which offered item is inside which; the hooks in
  `src/player.cpp` that close a trade when its item moves are the `Closed` event.
- Trade.Game.ExchangeItems: where an item is missing, the slot lookup of the backpack test gives an arbitrary answer,
  which makes no difference to the outcome.
- DecayWheel.Game.InternalDecayItem: transformation and removal of the item are an outcome that the environment gives.
- DecayWheel: durations of items on the wheel change by the wheel only. Item fields are maps of the game object. What
  a decayed item turns into is an answer of the environment; one that turns into an item without a duration stays off
  the wheel.
- ConditionLedger: experience rates that equipment adds, and the clamping of health and mana. Conditions are values in
  the creature's list, so sharing of a condition object is not modelled, nor is a script that changes an active
  condition. Percentages are exact quotients, cut towards zero.
- Damage, regeneration, outfit and light effects while a condition runs; field damage and its removal.
- Sockets, the database, the connection queue, chat, houses and beds are not part of this model.
