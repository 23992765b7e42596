/** Game::internalMoveItem and Game::internalAddItem of src/game.cpp, over plain containers. */
module ItemMoves {
  import opened ItemTypes
  import opened Forest
  import opened CylinderQueries
  import opened Containers

  class Game {
    ghost var items: set<Item>           // every item that exists
    ghost var depth: map<Item, nat>

    ghost predicate Valid()
      reads this, items
    {
      WellFormed(Snap(items), depth)
    }

    // ----- the steps that moves are made of -----

    /** removeThing for m pieces of a stack; a stack that is taken whole is released. */
    method TakePieces(from: Item, item: Item, m: nat)
      requires Valid() && from in items && item in from.itemlist
      requires item.kind.stackable && 1 <= m <= item.count
      modifies this, items
      ensures Valid()
      ensures items == if m == old(item.count) then old(items) - {item} else old(items)
      ensures item.kind == old(item.kind) && item.attrs == old(item.attrs)
      ensures from in items && Took<Item>(old(Snap(items)), Snap(items), from, item, m)
    {
      ghost var f := Snap(items);
      assert DownOk(f, from) && StackedAt(f, item);
      assert item in f[from].list;
      from.RemoveThing(item, m, items, depth);
      ghost var g := Snap(items);
      assert g[item] == item.State();
      if m == old(item.count) {
        items := items - {item};
      }
      ghost var r := Snap(items);
      assert r == if m == f[item].count then g - {item} else g;
      TakeEffect(f, depth, from, item, m, g, r);
    }

    /** updateThing for n more pieces on the stack toItem of c. */
    method MergePieces(to: Item, toItem: Item, n: nat)
      requires Valid() && to in items && toItem in to.itemlist && toItem.count + n <= StackSize(toItem.kind)
      modifies items
      ensures Valid() && Merged<Item>(old(Snap(items)), Snap(items), to, toItem, n)
    {
      ghost var f: World<Item> := Snap(items);
      assert DownOk(f, to) && toItem in f[to].list;
      to.UpdateThing(toItem, toItem.kind, toItem.count + n, items, depth);
      MergeEffect<Item>(f, depth, to, toItem, n, Snap(items));
    }

    /** clone and setItemCount: a new stack that is nowhere yet. */
    method NewStack(kind: ItemType, attrs: AttrMap, n: nat) returns (clone: Item)
      requires Valid() && 1 <= n <= StackSize(kind) <= 255
      modifies this
      ensures fresh(clone) && items == old(items) + {clone} && Valid()
      ensures Snap(items) == old(Snap(items))[clone := Node(kind, attrs, n, None, false, 0, [], 0)]
      ensures clone.State() == Node(kind, attrs, n, None, false, 0, [], 0)
      ensures depth == old(depth)[clone := 0] && (old(Fits(Snap(items))) ==> Fits(Snap(items)))
    {
      ghost var f := Snap(items);
      clone := new Item(kind, attrs, n, false, 0);
      items := items + {clone};
      depth := depth[clone := 0];
      assert Snap(items) == f[clone := clone.State()];
      BornKeepsForest(f, old(depth), clone, clone.State());
    }

    /** A clone with n pieces at the front of c; it stays nowhere when addThing refuses the index. */
    method PutPieces(to: Item, index: int, kind: ItemType, attrs: AttrMap, n: nat) returns (clone: Item)
      requires Valid() && to in items && to.isContainer && 1 <= n <= StackSize(kind) <= 255
      modifies this, items
      ensures fresh(clone) && items == old(items) + {clone} && Valid()
      ensures if index < to.maxSize then Put<Item>(old(Snap(items)), Snap(items), to, clone, Key(kind, attrs), n)
              else Strayed<Item>(old(Snap(items)), Snap(items), clone, Key(kind, attrs), n)
    {
      ghost var f := Snap(items);
      ghost var d := depth;
      clone := NewStack(kind, attrs, n);
      AddClone(to, index, clone, f, d, Key(kind, attrs), n);
    }

    /** addThing for a new stack. */
    method AddClone(
        to: Item, index: int, clone: Item, ghost f: World<Item>, ghost d: map<Item, nat>, ghost key: Key, ghost n: nat)
      requires Valid() && to in items && to.isContainer && clone in items && 1 <= n <= StackSize(key.kind) <= 255
      requires WellFormed(f, d) && to in f && depth == d[clone := 0] && Strayed<Item>(f, Snap(items), clone, key, n)
      modifies this, items
      ensures items == old(items) && Valid()
      ensures if index < to.maxSize then Put<Item>(f, Snap(items), to, clone, key, n)
              else Strayed<Item>(f, Snap(items), clone, key, n)
    {
      ghost var g := Snap(items);
      UnderLeaf(g, depth, to, clone);
      assert to != clone;
      depth := to.AddThing(index, clone, items, depth);
      if index < to.maxSize {
        PutEffect(f, d, to, clone, key, n, g, Snap(items));
      }
    }

    /** removeThing for an item that does not stack. */
    method TakeItem(from: Item, item: Item, m: nat)
      requires Valid() && from in items && item in from.itemlist && !item.kind.stackable
      modifies items
      ensures Valid() && TookWhole<Item>(old(Snap(items)), Snap(items), from, item)
      ensures forall y | y in items ::
                Under(Snap(items), depth, y, item) == Under(old(Snap(items)), depth, y, item)
    {
      ghost var f := Snap(items);
      assert DownOk(f, from);
      assert item in f[from].list;
      from.RemoveThing(item, m, items, depth);
      ghost var g := Snap(items);
      TakeWholeEffect(f, depth, from, item, g);
      forall y | y in items
        ensures Under(g, depth, y, item) == Under(f, depth, y, item)
      {
        UnderAfterCut(f, g, depth, y, item);
      }
    }

    /** addThing for an item that is nowhere. */
    method PutItem(to: Item, index: int, item: Item)
      requires Valid() && to in items && item in items && index < to.maxSize
      requires CanAttach(Snap(items), depth, to, item)
      modifies this, items
      ensures items == old(items) && Valid() && PutWhole<Item>(old(Snap(items)), Snap(items), to, item)
    {
      ghost var g := Snap(items);
      depth := to.AddThing(index, item, items, depth);
      PutWholeEffect(g, old(depth), to, item, Snap(items));
    }

    // ----- internalMoveItem -----

    /** The loop over queryDestination. */
    method ResolveDestination(to: Item, index: int, item: Item, flags: Flags)
      returns (cylinder: Item, newIndex: int, toItem: Item?, newFlags: Flags)
      requires Valid() && to in items && to.isContainer && item in items
      ensures cylinder in items && cylinder.isContainer
      ensures Landed<Item>(Snap(items), cylinder, newIndex, item, newFlags, Ref(toItem))
      ensures newFlags == if cylinder == to then flags else NO_FLAGS
      ensures Led(to, index, cylinder)
      ensures StandsAt<Item>(Snap(items), cylinder, if cylinder == to then index else INDEX_WHEREEVER, item, newFlags,
              newIndex, Ref(toItem))
    {
      ghost var f := Snap(items);
      SlotLeads(to, index);
      cylinder, newFlags := to, flags;
      ghost var asked := index;
      var subCylinder;
      subCylinder, newIndex, toItem := cylinder.QueryDestination(index, item, flags, items);
      SlotIsContainer(f, cylinder, index);
      var floorN := 0;
      while subCylinder != cylinder
        invariant cylinder in items && cylinder.isContainer && subCylinder in items && subCylinder.isContainer
        invariant CylinderQueries.QueryDestination<Item>(f, cylinder, asked, item, newFlags)
               == Destination(subCylinder, newIndex, Ref(toItem))
        invariant 0 <= floorN <= 1
        invariant floorN == 0 ==> cylinder == to && newFlags == flags && asked == index
        invariant floorN == 1 ==>
                  cylinder != to && newFlags == NO_FLAGS && asked == INDEX_WHEREEVER && subCylinder == cylinder
        invariant floorN == 1 ==> cylinder == Slot(f, to, index).cylinder
        decreases 1 - floorN
      {
        SlotIsContainer(f, subCylinder, newIndex);
        cylinder := subCylinder;
        newFlags := NO_FLAGS;
        asked := newIndex;
        floorN := floorN + 1;
        if floorN >= 16 {
          break;
        }
        subCylinder, newIndex, toItem := cylinder.QueryDestination(newIndex, item, newFlags, items);
      }
      DestinationIs(f, depth, cylinder, asked, item, newFlags);
    }

    lemma SlotLeads(to: Item, index: int)
      requires Valid() && to in items && to.isContainer
      ensures Slot(Snap(items), to, index).cylinder in items && Led(to, index, Slot(Snap(items), to, index).cylinder)
    {
      var f := Snap(items);
      SlotIsContainer(f, to, index);
      IndexLeads(f, to, index);
      assert DownOk(f, to);
    }

    /** 254 leads up, the position of a container into it, and every other index to the container itself. */
    ghost predicate Led(to: Item, index: int, dest: Item)
      reads to, to.itemlist
    {
      && (index == 254 ==> dest == if to.parent != null then to.parent else to)
      && (index < 0 || index == 255 || (index >= to.maxSize && index != 254) ==> dest == to)
      && (0 <= index < to.maxSize && index != 254 && index != 255 ==>
            dest == if index < |to.itemlist| && to.itemlist[index].isContainer then to.itemlist[index] else to)
    }

    /** As many of m pieces as fit go onto the stack toItem, if it is of their kind. */
    method MergeOnto(to: Item, kind: ItemType, attrs: AttrMap, m: nat, toItem: Item?) returns (n: nat)
      requires Valid() && to in items && 1 <= m <= StackSize(kind) <= 255
      requires toItem != null ==> toItem in items && toItem in to.itemlist
      modifies items
      ensures Valid() && n == MergeCount<Item>(old(Snap(items)), Key(kind, attrs), Ref(toItem), m)
      ensures if toItem != null && old(Key(toItem.kind, toItem.attrs)) == Key(kind, attrs) then
                Merged<Item>(old(Snap(items)), Snap(items), to, toItem, n)
              else Snap(items) == old(Snap(items))
    {
      n := 0;
      assert toItem != null ==> StackedAt(Snap(items), toItem);
      if toItem != null && kind == toItem.kind && attrs == toItem.attrs {
        n := if StackSize(kind) - toItem.count < m then StackSize(kind) - toItem.count else m;
        MergePieces(to, toItem, n);
      }
    }

    /** The second half of a stack move: m pieces onto the stack toItem, the rest as a clone. */
    method PourPieces(to: Item, index: int, kind: ItemType, attrs: AttrMap, m: nat, toItem: Item?)
      returns (ghost merged: World<Item>, clone: Item?, n: nat, rest: nat)
      requires Valid() && to in items && to.isContainer
      requires 1 <= m <= StackSize(kind) <= 255
      requires toItem != null ==> toItem in items && toItem in to.itemlist
      modifies this, items
      ensures Valid() && (clone != null ==> fresh(clone))
      ensures Poured<Item>(old(Snap(items)), merged, Snap(items), to, index, Key(kind, attrs), Ref(toItem), m, n, rest,
              Ref(clone))
    {
      n := MergeOnto(to, kind, attrs, m, toItem);
      merged := Snap(items);
      clone := null;
      rest := m - n;
      if rest > 0 {
        clone := PutPieces(to, index, kind, attrs, rest);
      }
    }

    /** internalMoveItem for a stack, once everything has been asked. */
    method MoveStack(from: Item, to: Item, index: int, item: Item, m: nat, toItem: Item?)
      returns (ghost taken: World<Item>, ghost merged: World<Item>, clone: Item?, ghost n: nat, ghost rest: nat)
      requires Valid() && from in items && item in items && item in from.itemlist && to in items && to.isContainer
      requires item.kind.stackable && 1 <= m <= item.count && item != toItem
      requires toItem != null ==> toItem in items && toItem in to.itemlist
      modifies this, items
      ensures Valid() && (clone != null ==> fresh(clone))
      ensures StackMoved<Item>(old(Snap(items)), taken, merged, Snap(items), from, to, index, item, Ref(toItem), m, n,
              rest, Ref(clone))
      ensures n == old(MergeCount<Item>(Snap(items), Key(item.kind, item.attrs), Ref(toItem), m))
    {
      ghost var f := Snap(items);
      assert DownOk(f, from) && StackedAt(f, item);
      TakePieces(from, item, m);
      taken := Snap(items);
      TookKeeps<Item>(f, taken, from, to, item, Ref(toItem), m);
      merged, clone, n, rest := PourPieces(to, index, item.kind, item.attrs, m, toItem);
    }

    /** The stack branch of internalMoveItem. */
    method MoveOfStack(
        from: Item, to: Item, index: int, item: Item, count: nat, ghost flags: Flags, m: nat, toItem: Item?)
      returns (clone: Item?)
      requires Valid() && from in items && item in items && to in items && to.isContainer
      requires item.kind.stackable && item != toItem
      requires MayMove<Item>(Snap(items), depth, from, to, index, item, count, flags, Ref(toItem), m)
      modifies this, items
      ensures Valid() && (clone != null ==> fresh(clone))
      ensures StackShifted<Item>(old(Snap(items)), Snap(items), from, to, index, item, Ref(toItem), m, Ref(clone))
      ensures Filled<Item>(old(Snap(items)), Snap(items), item, Ref(toItem), m, Ref(clone))
      ensures Moved<Item>(old(Snap(items)), Snap(items), from, to, old(Key(item.kind, item.attrs)), m,
              Stray<Item>(old(Snap(items)), to, index, item, Ref(toItem), m))
      ensures !flags.noLimit && old(Fits(Snap(items))) ==> Fits(Snap(items))
    {
      ghost var f: World<Item> := Snap(items);
      assert DownOk(f, from) && DownOk(f, to) && item in f[from].list;
      LandedFacts<Item>(f, to, index, item, flags, Ref(toItem));
      ghost var onto := MergeCount<Item>(f, Key(item.kind, item.attrs), Ref(toItem), m);
      ghost var taken, merged, n, rest;
      taken, merged, clone, n, rest := MoveStack(from, to, index, item, m, toItem);
      ghost var r: World<Item> := Snap(items);
      StackMoveConserves<Item>(f, taken, merged, r, from, to, index, item, Ref(toItem), m, n, rest, Ref(clone));
      StackMoveShifts<Item>(f, taken, merged, r, from, to, index, item, Ref(toItem), m, n, rest, Ref(clone));
      assert StackedAt(f, item) && (toItem != null ==> StackedAt(f, toItem));
      ShiftFills<Item>(f, r, from, to, index, item, Ref(toItem), m, Ref(clone));
      if !flags.noLimit && Fits(f) {
        if onto < m {
          RoomForRest<Item>(f, old(depth), to, index, item, count, flags, Ref(toItem), m);
        }
        StackMoveFits<Item>(f, taken, merged, r, from, to, index, item, Ref(toItem), m, n, rest, Ref(clone));
      }
    }

    /** The branch of internalMoveItem for an item that does not stack. */
    method MoveOfItem(
        from: Item, to: Item, index: int, item: Item, ghost count: nat, ghost flags: Flags, m: nat, ghost toItem: Item?)
      requires Valid() && from in items && item in items && to in items && to.isContainer
      requires !item.kind.stackable
      requires MayMove<Item>(Snap(items), depth, from, to, index, item, count, flags, Ref(toItem), m)
      modifies this, items
      ensures Valid() && CarriedOver<Item>(old(Snap(items)), Snap(items), from, to, item)
      ensures Moved<Item>(old(Snap(items)), Snap(items), from, to, old(Key(item.kind, item.attrs)), 1, 0)
      ensures !flags.noLimit && old(Fits(Snap(items))) ==> Fits(Snap(items))
    {
      ghost var f: World<Item> := Snap(items);
      assert DownOk(f, from) && item in f[from].list;
      assert StackedAt(f, item) && f[item].count == 1;
      LandedFacts<Item>(f, to, index, item, flags, Ref(toItem));
      TakeItem(from, item, m);
      ghost var g: World<Item> := Snap(items);
      PutItem(to, index, item);
      ghost var r: World<Item> := Snap(items);
      CarryConserves(f, g, r, from, to, item);
      CarryShifts(f, g, r, from, to, item);
      if !flags.noLimit && Fits(f) {
        CarryFits(f, g, r, from, to, item);
      }
    }

    /** The walk that keeps a traded item out of the other traded item. */
    method LiesIn(cylinder: Item, tradeItem: Item?) returns (inside: bool)
      requires Valid() && cylinder in items
      ensures inside <==> tradeItem != null && tradeItem in items && Under(Snap(items), depth, cylinder, tradeItem)
    {
      if tradeItem == null {
        return false;
      }
      ghost var f := Snap(items);
      var tmpCylinder: Item? := cylinder;
      while tmpCylinder != null
        invariant tmpCylinder != null ==> tmpCylinder in items
        invariant tradeItem in items && Under(f, depth, cylinder, tradeItem) <==>
                  tradeItem in items && tmpCylinder != null && Under(f, depth, tmpCylinder, tradeItem)
        decreases if tmpCylinder == null then 0 else depth[tmpCylinder] + 1
      {
        assert Below(f, depth, tmpCylinder);
        if tmpCylinder == tradeItem {
          return true;
        }
        tmpCylinder := tmpCylinder.parent;
      }
      inside := false;
    }

    /** The questions of internalMoveItem, in their order. */
    method AskInOrder(
        from: Item, cylinder: Item, index: int, item: Item, count: nat, flags: Flags, toItem: Item?, tradeItem: Item?)
      returns (ret: ReturnValue, retMaxCount: ReturnValue, maxQueryCount: nat, m: nat)
      requires Valid() && from in items && item in items && cylinder in items && cylinder.isContainer
      requires Landed<Item>(Snap(items), cylinder, index, item, flags, Ref(toItem)) && !flags.childIsOwner
      ensures ret
              == MoveVerdict<Item>(Snap(items), depth, from, cylinder, index, item, count, flags,
                  Traded(items, tradeItem))
      ensures ret == NoError ==>
                && MayMove<Item>(Snap(items), depth, from, cylinder, index, item, count, flags, Ref(toItem), m)
                && maxQueryCount == MaxCount<Item>(Snap(items), depth, cylinder, index, item, count, flags)
                && m == (if item.kind.stackable && count < maxQueryCount then count else maxQueryCount)
                && (item.kind.stackable && maxQueryCount < count ==> retMaxCount == ContainerNotEnoughRoom)
    {
      retMaxCount, maxQueryCount, m := NoError, 0, 0;
      ret := cylinder.QueryAdd(index, item, flags, items, depth);
      if ret != NoError {
        return;
      }
      retMaxCount, maxQueryCount := cylinder.QueryMaxCount(index, item, count, flags, items, depth);
      if retMaxCount != NoError && maxQueryCount == 0 {
        return retMaxCount, retMaxCount, maxQueryCount, 0;
      }
      m := if item.kind.stackable && count < maxQueryCount then count else maxQueryCount;
      ret := from.QueryRemove(item, m, flags, items);
      if ret != NoError {
        return;
      }
      var inside := LiesIn(cylinder, tradeItem);
      if inside {
        ret := NotEnoughRoom;
      }
    }

    /** Everything internalMoveItem asks before it changes anything. */
    method AskMove(
        from: Item, cylinder: Item, index: int, item: Item, count: nat, flags: Flags, toItem: Item?, tradeItem: Item?)
      returns (ret: ReturnValue, retMaxCount: ReturnValue, maxQueryCount: nat, m: nat)
      requires Valid() && from in items && item in items && cylinder in items && cylinder.isContainer
      requires Landed<Item>(Snap(items), cylinder, index, item, flags, Ref(toItem)) && !flags.childIsOwner
      ensures ret
              == MoveVerdict<Item>(Snap(items), depth, from, cylinder, index, item, count, flags,
                  Traded(items, tradeItem))
      ensures ret == NoError ==>
                && MayMove<Item>(Snap(items), depth, from, cylinder, index, item, count, flags, Ref(toItem), m)
                && maxQueryCount == MaxCount<Item>(Snap(items), depth, cylinder, index, item, count, flags)
                && (item.kind.stackable && maxQueryCount < count ==> retMaxCount == ContainerNotEnoughRoom)
      ensures ret == NoError <==>
              Movable<Item>(Snap(items), depth, from, cylinder, index, item, count, flags, Traded(items, tradeItem))
      ensures forall y | y in cylinder.itemlist :: y in items
      ensures ret == NoError && item.kind.stackable ==>
                m == Takeable<Item>(Snap(items), cylinder, index, item, count, flags)
                && m == (if count < maxQueryCount then count else maxQueryCount)
    {
      VerdictIs<Item>(Snap(items), depth, from, cylinder, index, item, count, flags, Traded(items, tradeItem));
      ret, retMaxCount, maxQueryCount, m := AskInOrder(from, cylinder, index, item, count, flags, toItem, tradeItem);
    }

    /** internalMoveItem once the destination, and what stands there, is known. */
    method MoveTo(
        from: Item, cylinder: Item, index: int, item: Item, count: nat, flags: Flags, toItem: Item?, tradeItem: Item?)
      returns (ret: ReturnValue, ghost moved: nat, clone: Item?)
      requires Valid() && from in items && item in items && cylinder in items && cylinder.isContainer
      requires Landed<Item>(Snap(items), cylinder, index, item, flags, Ref(toItem)) && !flags.childIsOwner
      requires item != toItem
      modifies this, items
      ensures Valid() && (clone != null ==> fresh(clone) && moved > 0)
      ensures (moved > 0) == Movable<Item>(old(Snap(items)), old(depth), from, cylinder, index, item, count, flags,
                  Traded(old(items), tradeItem))
      ensures moved == 0 ==>
                && items == old(items) && Snap(items) == old(Snap(items)) && ret != NoError
                && ret == MoveVerdict<Item>(old(Snap(items)), old(depth), from, cylinder, index, item, count, flags,
                     Traded(old(items), tradeItem))
      ensures forall y | y in old(cylinder.itemlist) :: y in old(items)
      ensures moved > 0 && old(item.kind.stackable) ==>
                && moved == Takeable<Item>(old(Snap(items)), cylinder, index, item, count, flags)
                && ret == (if moved < count then ContainerNotEnoughRoom else NoError)
                && StackShifted<Item>(old(Snap(items)), Snap(items), from, cylinder, index, item, Ref(toItem), moved,
                     Ref(clone))
                && Filled<Item>(old(Snap(items)), Snap(items), item, Ref(toItem), moved, Ref(clone))
      ensures moved > 0 && !old(item.kind.stackable) ==>
                && moved == 1 && ret == NoError && clone == null
                && CarriedOver<Item>(old(Snap(items)), Snap(items), from, cylinder, item)
      ensures moved > 0 ==>
                Moved<Item>(old(Snap(items)), Snap(items), from, cylinder, old(Key(item.kind, item.attrs)), moved,
                    Stray<Item>(old(Snap(items)), cylinder, index, item, Ref(toItem), moved))
      ensures !flags.noLimit && old(Fits(Snap(items))) ==> Fits(Snap(items))
    {
      moved, clone := 0, null;
      ghost var f: World<Item> := Snap(items);
      var retMaxCount, maxQueryCount, m;
      ret, retMaxCount, maxQueryCount, m := AskMove(from, cylinder, index, item, count, flags, toItem, tradeItem);
      if ret != NoError {
        return;
      }
      if item.kind.stackable {
        clone := MoveOfStack(from, cylinder, index, item, count, flags, m, toItem);
        moved := m;
        if maxQueryCount < count {
          ret := retMaxCount;
        }
      } else {
        UnstackedNeverStrays<Item>(f, cylinder, index, item, flags, Ref(toItem));
        MoveOfItem(from, cylinder, index, item, count, flags, m, toItem);
        moved := 1;
      }
    }

    /**
     Moves up to count pieces of item from one container to another (or to the container that index leads to from
     there). moved tells how many pieces went, dest, at and slot where they went, and clone what has been added there
     for pieces that were not merged. Pieces stay on a clone that is nowhere when its index is beyond the capacity.
     */
    method InternalMoveItem(
        fromCylinder: Item, toCylinder: Item, index: int, item: Item, count: nat, flags: Flags, tradeItem: Item?)
      returns (ret: ReturnValue, ghost moved: nat, ghost dest: Item, ghost at: int, ghost slot: Item?,
          ghost destFlags: Flags, clone: Item?)
      requires Valid() && fromCylinder in items && toCylinder in items && toCylinder.isContainer && item in items
      requires !flags.childIsOwner
      modifies this, items
      ensures Valid()
      // where it goes
      ensures index == 254 ==> dest == if old(toCylinder.parent) != null then old(toCylinder.parent) else toCylinder
      ensures index < 0 || index == 255 || (index >= toCylinder.maxSize && index != 254) ==> dest == toCylinder
      ensures 0 <= index < toCylinder.maxSize && index != 254 && index != 255 ==>
                dest == if index < |old(toCylinder.itemlist)| && old(toCylinder.itemlist)[index].isContainer then
                  old(toCylinder.itemlist)[index] else toCylinder
      ensures dest in old(items) && destFlags == (if dest == toCylinder then flags else NO_FLAGS)
      ensures StandsAt<Item>(old(Snap(items)), dest, if dest == toCylinder then index else INDEX_WHEREEVER, item,
              destFlags, at, Ref(slot))
      // whether and how much
      ensures (moved > 0) == (item != slot &&
                Movable<Item>(old(Snap(items)), old(depth), fromCylinder, dest, at, item, count, destFlags,
                    Traded(old(items), tradeItem)))
      ensures moved > 0 ==>
                moved == if old(item.kind.stackable) then
                  Takeable<Item>(old(Snap(items)), dest, at, item, count, destFlags) else 1
      // what is then where
      ensures moved == 0 ==> items == old(items) && Snap(items) == old(Snap(items))
      ensures clone != null ==> fresh(clone) && moved > 0 && old(item.kind.stackable)
      ensures moved > 0 && old(item.kind.stackable) ==>
                && StackShifted<Item>(old(Snap(items)), Snap(items), fromCylinder, dest, at, item, Ref(slot), moved,
                     Ref(clone))
                && Filled<Item>(old(Snap(items)), Snap(items), item, Ref(slot), moved, Ref(clone))
      ensures moved > 0 && !old(item.kind.stackable) ==>
                CarriedOver<Item>(old(Snap(items)), Snap(items), fromCylinder, dest, item)
      ensures moved > 0 ==>
                Moved<Item>(old(Snap(items)), Snap(items), fromCylinder, dest, old(Key(item.kind, item.attrs)), moved,
                    Stray<Item>(old(Snap(items)), dest, at, item, Ref(slot), moved))
      ensures !flags.noLimit && old(Fits(Snap(items))) ==> Fits(Snap(items))
      // what is answered
      ensures moved == 0 && item == slot ==> ret == NoError
      ensures moved == 0 && item != slot ==>
                && ret != NoError
                && ret == MoveVerdict<Item>(old(Snap(items)), old(depth), fromCylinder, dest, at, item, count,
                     destFlags, Traded(old(items), tradeItem))
      ensures moved > 0 ==>
                ret == if old(item.kind.stackable) && moved < count then ContainerNotEnoughRoom else NoError
    {
      moved, clone := 0, null;
      var cylinder, newIndex, toItem, newFlags := ResolveDestination(toCylinder, index, item, flags);
      dest, at, slot, destFlags := cylinder, newIndex, toItem, newFlags;
      if item == toItem {
        return NoError, 0, dest, at, slot, destFlags, null;
      }
      ret, moved, clone := MoveTo(fromCylinder, cylinder, newIndex, item, count, newFlags, toItem, tradeItem);
    }

    // ----- internalAddItem -----

    /** toItem takes n pieces of the new stack item, which is done with. */
    method Absorb(to: Item, item: Item, toItem: Item, n: nat)
      returns (ghost g: World<Item>, lost: nat)
      requires Valid() && to in items && item in items && item.parent == null && item.itemlist == []
      requires toItem in items && toItem in to.itemlist && item.Equals(toItem)
      requires n <= item.count && toItem.count + n <= StackSize(toItem.kind)
      modifies this, items
      ensures Valid() && items == old(items) - {item} && depth == old(depth)
      ensures item.kind == old(item.kind) && item.attrs == old(item.attrs) && item.count == old(item.count)
      ensures Merged<Item>(old(Snap(items)), g, to, toItem, n) && Snap(items) == g - {item}
      ensures Added<Item>(old(Snap(items)), Snap(items), to, Key(item.kind, item.attrs), n, lost)
      ensures Spares<Item>(old(Snap(items)), Snap(items), to, item, Key(item.kind, item.attrs))
      ensures lost == item.count - n && (old(Fits(Snap(items))) ==> Fits(Snap(items)))
      ensures to in items && toItem in items && to.itemlist == old(to.itemlist) && toItem.count == old(toItem.count) + n
    {
      ghost var f: World<Item> := Snap(items);
      assert DownOk(f, item) && to != item;
      assert item != toItem && f[toItem].parent == Some(to) by { assert DownOk(f, to); assert toItem in f[to].list; }
      MergePieces(to, toItem, n);
      g := Snap(items);
      assert g[item] == f[item].(total := g[item].total);
      DropItem(item);
      lost := item.count - n;
      MergeAdds<Item>(f, g, Snap(items), to, item, toItem, Key(item.kind, item.attrs), n, lost);
      MergeSpares<Item>(f, g, Snap(items), to, item, toItem, Key(item.kind, item.attrs), n);
    }

    /** toItem takes n pieces of item, and the others become an item of their own. */
    method SplitOffRest(to: Item, item: Item, toItem: Item, n: nat, ghost index: int, ghost flags: Flags)
      returns (ghost k: World<Item>, remainderItem: Item, count: nat)
      requires Valid() && to in items && to.isContainer && item in items && item.parent == null && item.kind.stackable
      requires toItem in items && toItem in to.itemlist && item.Equals(toItem)
      requires 0 < n < item.count && toItem.count + n <= StackSize(toItem.kind) && !flags.childIsOwner
      requires CylinderQueries.QueryDestination<Item>(Snap(items), to, index, item, flags).cylinder == to
      requires CanAdd<Item>(Snap(items), depth, to, index, item, flags)
      modifies this, items
      ensures Valid() && to in items && remainderItem in items && fresh(remainderItem)
      ensures items == old(items) - {item} + {remainderItem}
      ensures RestOf<Item>(old(Snap(items)), k, Snap(items), to, item, remainderItem, n, count)
      ensures remainderItem.count == count && remainderItem.parent == null && remainderItem.itemlist == []
      ensures Key(remainderItem.kind, remainderItem.attrs) == old(Key(item.kind, item.attrs))
      ensures toItem in k && k[toItem].count == old(toItem.count) + n && old(item.kind.pickupable)
      ensures old(Fits(Snap(items))) ==> Fits(Snap(items))
      ensures !flags.ignoreAutoStack ==>
                CanAdd<Item>(Snap(items), depth, to, INDEX_WHEREEVER, remainderItem, flags)
    {
      ghost var f: World<Item> := Snap(items);
      ghost var d := depth;
      assert StackedAt(f, item) && DownOk(f, item) && DownOk(f, to) && to != item && toItem in f[to].list;
      assert item != toItem;
      ghost var g;
      g, count := Absorb(to, item, toItem, n);
      k := Snap(items);
      assert k[toItem] == toItem.State();
      remainderItem := NewStack(item.kind, item.attrs, count);
      ghost var h: World<Item> := Snap(items);
      assert SplitOff<Item>(f, g, h, to, item, toItem, n, count, remainderItem);
      if !flags.ignoreAutoStack {
        RestCanBeAdded<Item>(f, d, g, h, depth, to, index, item, toItem, n, count, remainderItem, flags);
      }
      assert remainderItem.State().parent == Ref(remainderItem.parent);
    }

    /** The branch of internalAddItem in which toItem takes n pieces and some are left. */
    method SplitStack(to: Item, item: Item, toItem: Item, n: nat, ghost index: int, flags: Flags)
      returns (remainderCount: nat, ghost kept: nat)
      requires Valid() && to in items && to.isContainer && item in items && item.parent == null && item.kind.stackable
      requires toItem in items && toItem in to.itemlist && item.Equals(toItem)
      requires 0 < n < item.count && toItem.count + n <= StackSize(toItem.kind) && !flags.childIsOwner
      requires CylinderQueries.QueryDestination<Item>(Snap(items), to, index, item, flags).cylinder == to
      requires CanAdd<Item>(Snap(items), depth, to, index, item, flags)
      modifies this, items
      ensures Valid() && (forall y | y in items :: y in old(items) || fresh(y))
              && kept + remainderCount == old(item.count)
      ensures !flags.ignoreAutoStack ==> remainderCount == 0
      ensures old(Fits(Snap(items))) && !flags.noLimit ==> Fits(Snap(items))
      ensures Added<Item>(old(Snap(items)), Snap(items), to, old(Key(item.kind, item.attrs)), kept, remainderCount)
      ensures Spares<Item>(old(Snap(items)), Snap(items), to, item, old(Key(item.kind, item.attrs)))
      ensures !flags.ignoreAutoStack ==>
                StackedFirst<Item>(old(Snap(items)), Snap(items), to, old(Key(item.kind, item.attrs)))
      ensures remainderCount > 0 ==> !flags.noLimit && |old(to.itemlist)| >= to.maxSize
      ensures toItem in items && toItem.count >= old(toItem.count) + n
      decreases item.count, 0
    {
      ghost var f: World<Item> := Snap(items);
      assert DownOk(f, to) && item !in f[to].list;
      ghost var k;
      var remainderItem, count;
      k, remainderItem, count := SplitOffRest(to, item, toItem, n, index, flags);
      ghost var mid := items;
      assert forall y | y in mid :: y in old(items) || y == remainderItem;
      remainderCount, kept := AddTheRest(to, item, remainderItem, flags, f, k, n, count);
      forall y | y in items
        ensures y in old(items) || fresh(y)
      {
        assert y in mid || fresh(y);
      }
      assert Snap(items)[toItem] == toItem.State();
    }

    /** What is left of item is added, and with it the whole has been. */
    method AddTheRest(
        to: Item, ghost item: Item, remainderItem: Item, flags: Flags, ghost f: World<Item>, ghost k: World<Item>,
        ghost n: nat, count: nat)
      returns (remainderCount: nat, ghost kept: nat)
      requires Valid() && to in items && to.isContainer && !flags.childIsOwner
      requires remainderItem in items && remainderItem.parent == null && remainderItem.itemlist == []
      requires remainderItem.count == count && item in f && f[item].kind.stackable && f[item].kind.pickupable
               && to in f && item !in f[to].list
               && Key(remainderItem.kind, remainderItem.attrs) == KeyOf(f[item])
      requires RestOf<Item>(f, k, Snap(items), to, item, remainderItem, n, count)
      requires !flags.ignoreAutoStack ==>
                 CanAdd<Item>(Snap(items), depth, to, INDEX_WHEREEVER, remainderItem, flags)
      modifies this, items
      ensures Valid() && (forall y | y in items :: y in old(items) || fresh(y)) && kept + remainderCount == n + count
      ensures !flags.ignoreAutoStack ==> remainderCount == 0
      ensures old(Fits(Snap(items))) && !flags.noLimit ==> Fits(Snap(items))
      ensures Added<Item>(f, Snap(items), to, KeyOf(f[item]), kept, remainderCount)
      ensures Spares<Item>(f, Snap(items), to, item, KeyOf(f[item]))
      ensures !flags.ignoreAutoStack ==> StackedFirst<Item>(f, Snap(items), to, KeyOf(f[item]))
      ensures remainderCount > 0 ==> !flags.noLimit && |f[to].list| >= to.maxSize
      ensures forall y {:trigger k[y]} | y in k :: y in Snap(items) && Snap(items)[y].count >= k[y].count
      decreases remainderItem.count, 4
    {
      ghost var h: World<Item> := Snap(items);
      remainderCount := AddRest(to, remainderItem, flags, !flags.ignoreAutoStack);
      kept := n + count - remainderCount;
      RestEnds<Item>(f, k, h, Snap(items), to, item, remainderItem, n, count, kept, remainderCount);
      if !flags.ignoreAutoStack {
        RestStacksFirst<Item>(f, k, h, Snap(items), to, item, remainderItem, n, count);
      }
    }

    /** The recursive call of internalAddItem, and the release of a remainder that it refuses. */
    method AddRest(to: Item, remainderItem: Item, flags: Flags, ghost sure: bool)
      returns (remainderCount: nat)
      requires Valid() && to in items && to.isContainer && !flags.childIsOwner
      requires remainderItem in items && remainderItem.parent == null && remainderItem.itemlist == []
      requires sure ==> CanAdd<Item>(Snap(items), depth, to, INDEX_WHEREEVER, remainderItem, flags)
      requires remainderItem.kind.stackable && remainderItem.kind.pickupable && to != remainderItem
      modifies this, items
      ensures Valid() && (forall y | y in items :: y in old(items) || fresh(y)) && (sure ==> remainderCount == 0)
      ensures old(Fits(Snap(items))) && !flags.noLimit ==> Fits(Snap(items))
      ensures remainderCount == 0 || remainderCount == old(remainderItem.count)
      ensures remainderCount == 0 ==>
                && Added<Item>(old(Snap(items)), Snap(items), to, old(Key(remainderItem.kind, remainderItem.attrs)),
                   old(remainderItem.count), 0)
                && Spares<Item>(old(Snap(items)), Snap(items), to, remainderItem,
                   old(Key(remainderItem.kind, remainderItem.attrs)))
      ensures remainderCount != 0 ==> Snap(items) == old(Snap(items)) - {remainderItem}
      ensures remainderCount == 0 && !flags.ignoreAutoStack ==>
                StackedFirst<Item>(old(Snap(items)), Snap(items), to, old(Key(remainderItem.kind, remainderItem.attrs)))
      ensures remainderCount != 0 ==> !flags.noLimit && |old(to.itemlist)| >= to.maxSize
      decreases remainderItem.count, 3
    {
      ghost var f: World<Item> := Snap(items);
      ghost var key, all := Key(remainderItem.kind, remainderItem.attrs), remainderItem.count;
      assert StackedAt(f, remainderItem);
      RoomForStackIs<Item>(f, depth, to, remainderItem, flags);
      remainderCount := 0;
      ghost var kept, dest, at, slot;
      var ret, lost;
      ret, lost, kept, dest, at, slot := InternalAddItem(to, remainderItem, INDEX_WHEREEVER, flags, false);
      assert ret == NoError ==> lost == 0 && kept == all && Added<Item>(f, Snap(items), to, key, all, 0);
      if ret != NoError {
        DropItem(remainderItem);
        remainderCount := remainderItem.count;
      }
    }

    /** ReleaseItem for an item that is nowhere and holds nothing. */
    ghost method DropItem(item: Item)
      requires Valid() && item in items && item.parent == null && item.itemlist == []
      modifies this
      ensures Valid() && items == old(items) - {item} && depth == old(depth)
      ensures Snap(items) == old(Snap(items)) - {item}
    {
      ghost var f: World<Item> := Snap(items);
      DropKeepsForest(f, depth, item);
      items := items - {item};
      assert Snap(items) == f - {item};
    }

    /** The branch of internalAddItem that merges the new stack into toItem. */
    method AddOntoStack(to: Item, item: Item, toItem: Item, index: int, ghost asked: int, flags: Flags)
      returns (remainderCount: nat, ghost kept: nat)
      requires Valid() && to in items && to.isContainer && item in items && item.parent == null && item.kind.stackable
      requires toItem in items && toItem in to.itemlist && item.Equals(toItem) && !flags.childIsOwner
      requires CylinderQueries.QueryDestination<Item>(Snap(items), to, asked, item, flags)
            == Destination(to, index, Some(toItem))
      requires CanAdd<Item>(Snap(items), depth, to, asked, item, flags)
      modifies this, items
      ensures Valid() && (forall y | y in items :: y in old(items) || fresh(y))
              && kept + remainderCount == old(item.count)
      ensures !flags.ignoreAutoStack ==> remainderCount == 0
      ensures old(Fits(Snap(items)) && KeepsLimit<Item>(Snap(items), to, asked, item, flags)) ==> Fits(Snap(items))
      ensures Added<Item>(old(Snap(items)), Snap(items), to, old(Key(item.kind, item.attrs)), kept, remainderCount)
      ensures Spares<Item>(old(Snap(items)), Snap(items), to, item, old(Key(item.kind, item.attrs)))
      ensures !flags.ignoreAutoStack && asked != 254 ==>
                StackedFirst<Item>(old(Snap(items)), Snap(items), to, old(Key(item.kind, item.attrs)))
      ensures remainderCount > 0 ==> !flags.noLimit && |old(to.itemlist)| >= to.maxSize
      ensures toItem in items
              && toItem.count == FilledTo(old(toItem.count), old(item.count), old(item.kind.stackSize))
      decreases item.count, 1
    {
      ghost var f: World<Item> := Snap(items);
      assert DownOk(f, item) && DownOk(f, to) && StackedAt(f, item) && StackedAt(f, toItem);
      assert toItem in f[to].list && toItem != item;
      ghost var size := item.kind.stackSize;
      var m := item.count;
      var n := if StackSize(toItem.kind) - toItem.count < m then StackSize(toItem.kind) - toItem.count else m;
      remainderCount, kept := 0, m;
      if n == m {
        ghost var g;
        var count;
        g, count := Absorb(to, item, toItem, n);
        AddedIs<Item>(f, Snap(items), to, KeyOf(f[item]), n, count, kept, remainderCount);
      } else if n == 0 {
        AddBeside(to, item, toItem, index, asked, flags);
      } else {
        remainderCount, kept := SplitStack(to, item, toItem, n, asked, flags);
        assert Spared<Item>(f, Snap(items), to, toItem, KeyOf(f[item]));
        assert StackedAt(Snap(items), toItem) && Snap(items)[toItem] == toItem.State() && toItem.count <= size;
      }
    }

    /** The same, when toItem is full already. */
    method AddBeside(to: Item, item: Item, toItem: Item, index: int, ghost asked: int, ghost flags: Flags)
      requires Valid() && to in items && to.isContainer && item in items && item.parent == null && item.kind.stackable
      requires toItem in items && toItem in to.itemlist && item.Equals(toItem) && !flags.childIsOwner
      requires CylinderQueries.QueryDestination<Item>(Snap(items), to, asked, item, flags)
            == Destination(to, index, Some(toItem))
      requires CanAdd<Item>(Snap(items), depth, to, asked, item, flags) && toItem.count == StackSize(toItem.kind)
      modifies this, items
      ensures Valid() && items == old(items) && toItem.count == old(toItem.count)
      ensures old(Fits(Snap(items)) && KeepsLimit<Item>(Snap(items), to, asked, item, flags)) ==> Fits(Snap(items))
      ensures Added<Item>(old(Snap(items)), Snap(items), to, old(Key(item.kind, item.attrs)), old(item.count), 0)
      ensures Spares<Item>(old(Snap(items)), Snap(items), to, item, old(Key(item.kind, item.attrs)))
      ensures !flags.ignoreAutoStack && asked != 254 ==>
                StackedFirst<Item>(old(Snap(items)), Snap(items), to, old(Key(item.kind, item.attrs)))
    {
      ghost var f: World<Item> := Snap(items);
      assert DownOk(f, item) && DownOk(f, to) && StackedAt(f, item) && toItem in f[to].list && toItem != item;
      SlotIndex<Item>(f, to, asked, item, flags, toItem);
      AddingHasRoom<Item>(f, depth, to, asked, item, flags);
      DestinationIs(f, depth, to, asked, item, flags);
      ghost var d := depth;
      AddWhole(to, index, item, asked, flags);
      assert f[toItem].count == toItem.count by {
        assert f[toItem] == old(toItem.State()) && Snap(items)[toItem] == toItem.State();
      }
      if !flags.ignoreAutoStack && asked != 254 {
        PutWholeStacksFirst<Item>(f, d, Snap(items), to, asked, item, flags, index, Some(toItem));
      }
    }

    /** The branch of internalAddItem that adds the new item as it is. */
    method AddWhole(to: Item, index: int, item: Item, ghost asked: int, ghost flags: Flags)
      requires Valid() && to in items && to.isContainer && item in items && item.parent == null
      requires index < to.maxSize && !flags.childIsOwner
      requires CylinderQueries.QueryAdd<Item>(Snap(items), depth, to, index, item, flags) == NoError
      modifies this, items
      ensures Valid() && items == old(items) && PutWhole<Item>(old(Snap(items)), Snap(items), to, item)
      ensures old(Fits(Snap(items)) && |to.itemlist| < to.maxSize) ==> Fits(Snap(items))
      ensures Added<Item>(old(Snap(items)), Snap(items), to, old(Key(item.kind, item.attrs)), old(item.count), 0)
      ensures Spares<Item>(old(Snap(items)), Snap(items), to, item, old(Key(item.kind, item.attrs)))
    {
      ghost var f: World<Item> := Snap(items);
      PutItem(to, index, item);
      if Fits(f) && |f[to].list| < f[to].maxSize {
        PutWholeFits<Item>(f, Snap(items), to, item);
      }
      PutWholeAdds<Item>(f, Snap(items), to, item, KeyOf(f[item]), f[item].count);
      PutWholeSpares<Item>(f, Snap(items), to, item, KeyOf(f[item]));
    }

    /**
     Adds a new item to a container, or to the one that index leads to from there; with test set it only answers whether
     it would. A stack that is split loses its identity: the pieces live on in slot, other stacks and a new one.
     */
    method InternalAddItem(toCylinder: Item?, item: Item?, index: int, flags: Flags, test: bool)
      returns (ret: ReturnValue, remainderCount: nat, ghost kept: nat, ghost dest: Item?, ghost at: int,
          ghost slot: Item?)
      requires Valid() && !flags.childIsOwner
      requires toCylinder != null ==> toCylinder in items && toCylinder.isContainer
      requires item != null ==> item in items && item.parent == null
      modifies this, items
      ensures Valid() && (forall y | y in items :: y in old(items) || fresh(y))
      // where it goes
      ensures toCylinder == null || item == null ==> ret == NotPossible
      ensures toCylinder != null && item != null ==> dest != null && dest in old(items)
      ensures toCylinder != null && item != null && index == 254 ==>
                dest == if old(toCylinder.parent) != null then old(toCylinder.parent) else toCylinder
      ensures toCylinder != null && item != null && index != 254
              && (index < 0 || index == 255 || index >= toCylinder.maxSize) ==>
                dest == toCylinder
      ensures toCylinder != null && item != null && 0 <= index < toCylinder.maxSize && index != 254 && index != 255 ==>
                dest == if index < |old(toCylinder.itemlist)| && old(toCylinder.itemlist)[index].isContainer then
                  old(toCylinder.itemlist)[index] else toCylinder
      ensures toCylinder != null && item != null && dest != toCylinder ==> at == INDEX_WHEREEVER && slot == null
      ensures toCylinder != null && item != null && dest == toCylinder ==>
                StandsAt<Item>(old(Snap(items)), dest, index, item, flags, at, Ref(slot))
      // whether
      ensures toCylinder != null && item != null ==>
                (ret == NoError) == Addable<Item>(old(Snap(items)), old(depth), toCylinder, dest, at, item, flags)
      ensures (ret == NoError) == (toCylinder != null && item != null &&
                                   CanAdd<Item>(old(Snap(items)), old(depth), toCylinder, index, item, flags))
      ensures toCylinder != null && item != null && ret != NoError ==>
                ret == Objection<Item>(old(Snap(items)), old(depth), dest, item)
      ensures test || ret != NoError ==> items == old(items) && Snap(items) == old(Snap(items)) && depth == old(depth)
      // what is then where
      ensures ret == NoError && !test
              && !(slot != null && old(item.kind.stackable && item.kind == slot.kind && item.attrs == slot.attrs)) ==>
                PutWhole<Item>(old(Snap(items)), Snap(items), dest, item)
      ensures ret == NoError && !test && slot != null
              && old(item.kind.stackable && item.kind == slot.kind && item.attrs == slot.attrs) ==>
                slot in items && slot.count == FilledTo(old(slot.count), old(item.count), old(item.kind.stackSize))
      ensures ret == NoError && !test && old(item.kind.stackable) && !flags.ignoreAutoStack && dest == toCylinder
              && index != 254 ==>
                StackedFirst<Item>(old(Snap(items)), Snap(items), dest, old(Key(item.kind, item.attrs)))
      ensures ret == NoError && !test ==>
                && kept + remainderCount == old(item.count)
                && Added<Item>(old(Snap(items)), Snap(items), dest, old(Key(item.kind, item.attrs)), kept,
                     remainderCount)
                && Spares<Item>(old(Snap(items)), Snap(items), dest, item, old(Key(item.kind, item.attrs)))
      ensures test || ret != NoError || !flags.ignoreAutoStack || index == INDEX_WHEREEVER ==> remainderCount == 0
      ensures remainderCount > 0 ==> !flags.noLimit && |old(dest.itemlist)| >= dest.maxSize
      ensures ret == NoError && !test ==>
                (old(Fits(Snap(items)) && KeepsLimit<Item>(Snap(items), toCylinder, index, item, flags)) ==>
                    Fits(Snap(items)))
      decreases if item == null then 0 else item.count, 2
    {
      remainderCount, kept, dest, at, slot := 0, 0, null, 0, null;
      if toCylinder == null || item == null {
        return NotPossible, 0, 0, dest, at, slot;
      }
      ghost var f: World<Item> := Snap(items);
      var cylinder, newIndex, toItem := LeadTo(toCylinder, item, index, flags);
      dest, at, slot := cylinder, newIndex, toItem;
      ret := AskToAdd(toCylinder, cylinder, newIndex, item, toItem, index, flags);
      if ret != NoError || test {
        return;
      }
      remainderCount, kept := AddTo(toCylinder, cylinder, newIndex, item, toItem, index, flags);
    }

    /** May it enter there, and does all of it fit into the container that was named? */
    method AskToAdd(
        toCylinder: Item, cylinder: Item, newIndex: int, item: Item, ghost toItem: Item?, ghost index: int,
        flags: Flags)
      returns (ret: ReturnValue)
      requires Valid() && !flags.childIsOwner && toCylinder in items && toCylinder.isContainer
      requires item in items && cylinder in items && cylinder.isContainer
      requires CylinderQueries.QueryDestination<Item>(Snap(items), toCylinder, index, item, flags)
            == Destination(cylinder, newIndex, Ref(toItem))
      ensures ret == NoError <==> CanAdd<Item>(Snap(items), depth, toCylinder, index, item, flags)
      ensures ret != NoError ==> ret == Objection<Item>(Snap(items), depth, cylinder, item)
    {
      ret := cylinder.QueryAdd(newIndex, item, flags, items, depth);
      if ret != NoError {
        return;
      }
      var maxQueryCount;
      ret, maxQueryCount := toCylinder.QueryMaxCount(INDEX_WHEREEVER, item, item.count, flags, items, depth);
    }

    /** The destination of a new item. */
    method LeadTo(toCylinder: Item, item: Item, index: int, flags: Flags)
      returns (cylinder: Item, newIndex: int, toItem: Item?)
      requires Valid() && !flags.childIsOwner && toCylinder in items && toCylinder.isContainer
      requires item in items && item.parent == null
      ensures CylinderQueries.QueryDestination<Item>(Snap(items), toCylinder, index, item, flags)
           == Destination(cylinder, newIndex, Ref(toItem))
      ensures cylinder in items && cylinder.isContainer && Led(toCylinder, index, cylinder)
      ensures cylinder != toCylinder ==> newIndex == INDEX_WHEREEVER && toItem == null
      ensures cylinder == toCylinder ==>
                StandsAt<Item>(Snap(items), cylinder, index, item, flags, newIndex, Ref(toItem))
      ensures CanAdd<Item>(Snap(items), depth, toCylinder, index, item, flags) <==>
              Addable<Item>(Snap(items), depth, toCylinder, cylinder, newIndex, item, flags)
    {
      ghost var f: World<Item> := Snap(items);
      cylinder, newIndex, toItem := toCylinder.QueryDestination(index, item, flags, items);
      DestinationFacts<Item>(f, toCylinder, index, item, flags, cylinder, newIndex, Ref(toItem));
      IndexLeads(f, toCylinder, index);
      assert DownOk(f, toCylinder);
      if cylinder == toCylinder {
        DestinationIs(f, depth, toCylinder, index, item, flags);
      }
      AddableIs(f, depth, toCylinder, index, item, flags);
    }

    /** Adding the new item once everything has been asked. */
    method AddTo(
        ghost toCylinder: Item, cylinder: Item, newIndex: int, item: Item, toItem: Item?, ghost index: int,
        flags: Flags)
      returns (remainderCount: nat, ghost kept: nat)
      requires Valid() && !flags.childIsOwner && toCylinder in items && toCylinder.isContainer
      requires item in items && item.parent == null && cylinder in items && cylinder.isContainer
      requires CylinderQueries.QueryDestination<Item>(Snap(items), toCylinder, index, item, flags)
            == Destination(cylinder, newIndex, Ref(toItem))
      requires CanAdd<Item>(Snap(items), depth, toCylinder, index, item, flags)
      modifies this, items
      ensures Valid() && (forall y | y in items :: y in old(items) || fresh(y))
      ensures !(toItem != null
                && old(item.kind.stackable && item.kind == toItem.kind && item.attrs == toItem.attrs)) ==>
                PutWhole<Item>(old(Snap(items)), Snap(items), cylinder, item)
      ensures toItem != null && old(item.kind.stackable && item.kind == toItem.kind && item.attrs == toItem.attrs) ==>
                toItem in items
                && toItem.count == FilledTo(old(toItem.count), old(item.count), old(item.kind.stackSize))
      ensures old(item.kind.stackable) && !flags.ignoreAutoStack && cylinder == toCylinder && index != 254 ==>
                StackedFirst<Item>(old(Snap(items)), Snap(items), cylinder, old(Key(item.kind, item.attrs)))
      ensures kept + remainderCount == old(item.count)
      ensures Added<Item>(old(Snap(items)), Snap(items), cylinder, old(Key(item.kind, item.attrs)), kept,
              remainderCount)
      ensures Spares<Item>(old(Snap(items)), Snap(items), cylinder, item, old(Key(item.kind, item.attrs)))
      ensures !flags.ignoreAutoStack || index == INDEX_WHEREEVER ==> remainderCount == 0
      ensures remainderCount > 0 ==> !flags.noLimit && |old(cylinder.itemlist)| >= cylinder.maxSize
      ensures old(Fits(Snap(items)) && KeepsLimit<Item>(Snap(items), toCylinder, index, item, flags)) ==>
                Fits(Snap(items))
      decreases item.count, 2, 0
    {
      ghost var f: World<Item> := Snap(items);
      remainderCount, kept := 0, item.count;
      DestinationFacts<Item>(f, toCylinder, index, item, flags, cylinder, newIndex, Ref(toItem));
      if item.kind.stackable && item.Equals(toItem) {
        remainderCount, kept := AddOntoStack(cylinder, item, toItem, newIndex, index, flags);
      } else {
        AddingHasRoom<Item>(f, depth, toCylinder, index, item, flags);
        ghost var d := depth;
        if cylinder == toCylinder {
          DestinationIs(f, d, toCylinder, index, item, flags);
        }
        AddWhole(cylinder, newIndex, item, index, flags);
        if item.kind.stackable && !flags.ignoreAutoStack && cylinder == toCylinder && index != 254 {
          PutWholeStacksFirst<Item>(f, d, Snap(items), cylinder, index, item, flags, newIndex, Ref(toItem));
        }
      }
    }
  }

  /** list with x removed when gone, and list itself otherwise. */
  ghost predicate Without<T>(list: seq<T>, after: seq<T>, x: T, gone: bool) {
    if gone then exists i :: 0 <= i < |list| && list[i] == x && after == Erase(list, i)
    else after == list
  }

  /** From f to r, m pieces of the stack x have left c, and x has ceased to be when it had no more. */
  ghost predicate Took<R>(f: World<R>, r: World<R>, c: R, x: R, m: nat) {
    && c in f && x in f && c in r
    && r.Keys == (if m == f[x].count then f.Keys - {x} else f.Keys)
    && OnlyAt(f, r, {c, x})
    && r[c] == f[c].(list := r[c].list, total := r[c].total)
    && Without(f[c].list, r[c].list, x, m == f[x].count)
    && (x in r ==> m < f[x].count && r[x] == f[x].(count := f[x].count - m, total := r[x].total))
    && Flows(f, r, c, KeyOf(f[x]), 0 - m)
  }

  lemma TakeEffect<R>(f: World<R>, depth: map<R, nat>, c: R, x: R, m: nat, g: World<R>, r: World<R>)
    requires WellFormed(f, depth) && c in f && x in f && f[x].parent == Some(c)
    requires f[x].kind.stackable && 1 <= m <= f[x].count
    requires if m == f[x].count then exists i :: ListedAt(f, c, x, i) && g == Detach(f, depth, c, x, i)
             else g == Recount(f, depth, c, x, f[x].kind, f[x].count - m)
    requires r == if m == f[x].count then g - {x} else g
    ensures WellFormed(r, depth) && Took(f, r, c, x, m)
    ensures x in g && KeyOf(g[x]) == KeyOf(f[x])
  {
    assert c != x by { assert Below(f, depth, x); }
    assert StackedAt(f, x);
    if m == f[x].count {
      var i :| ListedAt(f, c, x, i) && g == Detach(f, depth, c, x, i);
      TakeAllEffect(f, depth, c, x, i, g, r);
    } else {
      RecountEffect(f, depth, c, x, f[x].count - m, g);
    }
  }

  lemma TakeAllEffect<R>(f: World<R>, depth: map<R, nat>, c: R, x: R, i: nat, g: World<R>, r: World<R>)
    requires WellFormed(f, depth) && ListedAt(f, c, x, i) && f[x].kind.stackable && c != x && StackedAt(f, x)
    requires g == Detach(f, depth, c, x, i) && r == g - {x}
    ensures WellFormed(r, depth) && Took(f, r, c, x, f[x].count)
    ensures x in g && KeyOf(g[x]) == KeyOf(f[x])
  {
    assert DownOk(f, x);
    DetachEffect(f, depth, c, x, i, g);
    ReleaseEffect(f, depth, c, x, i, g, r);
  }

  /** n more pieces on the stack y of c. */
  ghost predicate Merged<R>(f: World<R>, r: World<R>, c: R, y: R, n: nat) {
    && c in f && y in f && y in f[c].list && r.Keys == f.Keys && OnlyAt(f, r, {y})
    && r[y] == f[y].(count := f[y].count + n, total := r[y].total)
    && Flows(f, r, c, KeyOf(f[y]), n)
  }

  lemma MergeEffect<R>(f: World<R>, depth: map<R, nat>, c: R, t: R, n: nat, r: World<R>)
    requires WellFormed(f, depth) && c in f && t in f && t in f[c].list && f[t].parent == Some(c)
    requires f[t].count + n <= StackSize(f[t].kind)
    requires r == Recount(f, depth, c, t, f[t].kind, (f[t].count + n) % 256)
    ensures WellFormed(r, depth) && Merged(f, r, c, t, n)
  {
    assert StackedAt(f, t);
    var m := f[t].count + n;
    assert m % 256 == m;
    RecountEffect(f, depth, c, t, m, r);
  }

  /** A new stack x of n pieces, first in c. */
  ghost predicate Put<R>(f: World<R>, r: World<R>, c: R, x: R, key: Key, n: nat) {
    && x !in f && c in f && r.Keys == f.Keys + {x} && OnlyAt(f, r, {c, x})
    && r[c] == f[c].(list := [x] + f[c].list, total := r[c].total)
    && r[x] == Node(key.kind, key.attrs, n, Some(c), false, 0, [], r[x].total)
    && Flows(f, r, c, key, n)
  }

  lemma PutEffect<R>(
      f: World<R>, depth: map<R, nat>, c: R, x: R, key: Key, n: nat, g: World<R>, r: World<R>)
    requires WellFormed(f, depth) && x !in f && c in f && f[c].isContainer
    requires 1 <= n <= StackSize(key.kind) <= 255
    requires g == f[x := Node(key.kind, key.attrs, n, None, false, 0, [], 0)]
    requires CanAttach(g, depth[x := 0], c, x) && r == Attach(g, depth[x := 0], c, x, [x] + f[c].list)
    ensures WellFormed(r, Deepened(g, depth[x := 0], c, x)) && Put(f, r, c, x, key, n)
  {
    BirthEffect(f, depth, c, x, g[x], [x] + f[c].list, g, r);
  }

  /** A new stack x of n pieces that is nowhere. */
  ghost predicate Strayed<R>(f: World<R>, r: World<R>, x: R, key: Key, n: nat) {
    x !in f && r == f[x := Node(key.kind, key.attrs, n, None, false, 0, [], 0)]
  }

  /** The item x, with its contents, has left c. */
  ghost predicate TookWhole<R>(f: World<R>, g: World<R>, c: R, x: R) {
    && c in f && x in f && c != x && g.Keys == f.Keys && OnlyAt(f, g, {c, x})
    && g[c] == f[c].(list := g[c].list, total := g[c].total) && Without(f[c].list, g[c].list, x, true)
    && g[x] == f[x].(parent := None, total := g[x].total)
    && forall q: Quantity {:trigger Carried(f, g, c, x, -1, q)} :: Carried(f, g, c, x, -1, q)
  }

  /** The item x, with its contents, is now first in c. */
  ghost predicate PutWhole<R>(g: World<R>, r: World<R>, c: R, x: R) {
    && c in g && x in g && c != x && r.Keys == g.Keys && OnlyAt(g, r, {c, x})
    && r[c] == g[c].(list := [x] + g[c].list, total := r[c].total)
    && r[x] == g[x].(parent := Some(c), total := r[x].total)
    && forall q: Quantity {:trigger Carried(g, r, c, x, 1, q)} :: Carried(g, r, c, x, 1, q)
  }

  /** The contents of c change by x, the forest as a whole not at all. */
  ghost predicate Carried<R>(f: World<R>, g: World<R>, c: R, x: R, sign: int, q: Quantity)
    requires x in f
  {
    && SumAll(g, Of(q)) == SumAll(f, Of(q))
    && DirectsShift(f, g, c, if sign > 0 then Amount(q, f[x]) else -Amount(q, f[x]), q)
  }

  lemma TakeWholeEffect<R>(f: World<R>, depth: map<R, nat>, c: R, x: R, g: World<R>)
    requires WellFormed(f, depth) && c in f && x in f && f[x].parent == Some(c)
    requires exists i :: ListedAt(f, c, x, i) && g == Detach(f, depth, c, x, i)
    ensures WellFormed(g, depth) && TookWhole(f, g, c, x)
  {
    var i :| ListedAt(f, c, x, i) && g == Detach(f, depth, c, x, i);
    DetachEffect(f, depth, c, x, i, g);
    forall q: Quantity {:trigger Carried(f, g, c, x, -1, q)}
      ensures Carried(f, g, c, x, -1, q)
    {
      DetachMoves(f, depth, c, x, i, q);
    }
  }

  lemma PutWholeEffect<R>(g: World<R>, depth: map<R, nat>, c: R, x: R, r: World<R>)
    requires WellFormed(g, depth) && CanAttach(g, depth, c, x)
    requires r == Attach(g, depth, c, x, [x] + g[c].list)
    ensures WellFormed(r, Deepened(g, depth, c, x)) && PutWhole(g, r, c, x)
  {
    AttachEffect(g, depth, c, x, [x] + g[c].list, r);
    forall q: Quantity {:trigger Carried(g, r, c, x, 1, q)}
      ensures Carried(g, r, c, x, 1, q)
    {
      AttachMoves(g, depth, c, x, [x] + g[c].list, q);
    }
  }

  /** Where in c an item goes that c was asked to take at the index asked, and what stands there. */
  ghost predicate StandsAt<R>(f: World<R>, c: R, asked: int, x: R, flags: Flags, at: int, t: Option<R>)
    requires c in f && x in f
  {
    && (forall y | y in f[c].list :: y in f)
    && t == (if 0 <= at < |f[c].list| then Some(f[c].list[at]) else None)
    && if !flags.ignoreAutoStack && f[x].kind.stackable && f[x].parent != Some(c) && asked != 254 then
         StackSought(f, f[c].list, Named(asked, f[c].maxSize), x, at)
       else at == Named(asked, f[c].maxSize)
  }

  /** queryDestination has answered with the container it was asked of. */
  ghost predicate Landed<R>(f: World<R>, c: R, index: int, x: R, flags: Flags, t: Option<R>)
    requires Linked(f) && c in f && x in f
  {
    exists asked: int :: CylinderQueries.QueryDestination(f, c, asked, x, flags) == Destination(c, index, t)
  }

  lemma SlotIsContainer<R>(f: World<R>, c: R, index: int)
    requires Linked(f) && c in f && f[c].isContainer
    ensures Slot(f, c, index).cylinder in f && f[Slot(f, c, index).cylinder].isContainer
    ensures Slot(f, c, index).cylinder != c ==> Slot(f, c, index).index == INDEX_WHEREEVER
    ensures Slot(f, c, INDEX_WHEREEVER).cylinder == c
  {
    assert DownOk(f, c) && UpOk(f, c);
    if f[c].parent.Some? {
      assert DownOk(f, f[c].parent.value);
    }
  }

  /** How many of m pieces of key go onto the stack t. */
  ghost function MergeCount<R>(f: World<R>, key: Key, t: Option<R>, m: nat): nat {
    if t.Some? && t.value in f && KeyOf(f[t.value]) == key && f[t.value].count <= StackSize(key.kind) then
      if StackSize(key.kind) - f[t.value].count < m then StackSize(key.kind) - f[t.value].count else m
    else 0
  }

  /** m pieces of key have been given to c: n onto the stack t, as many as fit, and the rest as a clone. */
  ghost predicate Poured<R>(
      g: World<R>, h: World<R>, r: World<R>, c: R, index: int, key: Key, t: Option<R>, m: nat, n: nat, rest: nat,
      clone: Option<R>)
  {
    var merges := t.Some? && t.value in g && KeyOf(g[t.value]) == key;
    && c in g && n == MergeCount(g, key, t, m) && rest == m - n
    && (merges ==> Merged(g, h, c, t.value, n))
    && (!merges ==> h == g)
    && (rest > 0 && index < g[c].maxSize ==> clone.Some? && Put(h, r, c, clone.value, key, rest))
    && (rest > 0 && index >= g[c].maxSize ==> clone.Some? && Strayed(h, r, clone.value, key, rest) && Linked(h))
    && (rest == 0 ==> clone.None? && r == h)
  }

  /** m pieces of the stack x have gone from one container to another. */
  ghost predicate StackMoved<R>(
      f: World<R>, g: World<R>, h: World<R>, r: World<R>, from: R, to: R, index: int, x: R, t: Option<R>,
      m: nat, n: nat, rest: nat, clone: Option<R>)
  {
    && x in f && to in f && to in g && g[to].maxSize == f[to].maxSize
    && Took(f, g, from, x, m) && Poured(g, h, r, to, index, KeyOf(f[x]), t, m, n, rest, clone)
    && n == MergeCount(f, KeyOf(f[x]), t, m)
  }

  /** Taking pieces leaves the destination and the stack there as they were. */
  lemma TookKeeps<R>(f: World<R>, g: World<R>, from: R, to: R, x: R, t: Option<R>, m: nat)
    requires Took(f, g, from, x, m) && to in f && to != x && NoDup(f[from].list)
    requires t.Some? ==> t.value in f && t.value in f[to].list && t.value != x
    ensures to in g && g[to].isContainer == f[to].isContainer && g[to].maxSize == f[to].maxSize
    ensures t.Some? ==> && t.value in g && t.value in g[to].list
                        && g[t.value].count == f[t.value].count && KeyOf(g[t.value]) == KeyOf(f[t.value])
    ensures MergeCount(g, KeyOf(f[x]), t, m) == MergeCount(f, KeyOf(f[x]), t, m)
  {
    if m == f[x].count {
      var i :| 0 <= i < |f[from].list| && f[from].list[i] == x && g[from].list == Erase(f[from].list, i);
      EraseMembers(f[from].list, i);
    }
  }

  lemma LandedFacts<R>(f: World<R>, c: R, index: int, x: R, flags: Flags, t: Option<R>)
    requires Linked(f) && c in f && x in f && f[c].isContainer && Landed(f, c, index, x, flags, t)
    ensures t == ItemAt(f[c].list, index) && (t.Some? ==> t.value in f && t.value in f[c].list)
    ensures index == INDEX_WHEREEVER || index < f[c].maxSize || index < |f[c].list|
    ensures index < f[c].maxSize || (f[x].kind.stackable && t.Some? && Takes(f, t.value, x))
  {
    assert DownOk(f, c);
    FirstTakerIs(f, f[c].list, x, 0);
  }

  /** When something is left after merging, there is a free slot for it. */
  lemma RoomForRest<R>(
      f: World<R>, depth: map<R, nat>, c: R, index: int, x: R, count: nat, flags: Flags, t: Option<R>, m: nat)
    requires WellFormed(f, depth) && c in f && x in f && f[c].isContainer && f[x].kind.stackable
    requires Landed(f, c, index, x, flags, t) && !flags.childIsOwner
    requires CylinderQueries.QueryAdd(f, depth, c, index, x, flags) == NoError
    requires m <= MaxCount(f, depth, c, index, x, count, flags) && !flags.noLimit
    requires MergeCount(f, KeyOf(f[x]), t, m) < m
    ensures |f[c].list| < f[c].maxSize && index < f[c].maxSize
  {
    LandedFacts(f, c, index, x, flags, t);
    assert Times(StackSize(f[x].kind), 0) == 0;
  }

  /** What of m pieces of x neither fits on the stack t nor is added to c, because of its index. */
  ghost function Stray<R>(f: World<R>, c: R, index: int, x: R, t: Option<R>, m: nat): (n: nat)
    requires c in f && x in f
    ensures n <= m
  {
    if index < f[c].maxSize then 0 else m - MergeCount(f, KeyOf(f[x]), t, m)
  }

  lemma UnstackedNeverStrays<R>(f: World<R>, c: R, index: int, x: R, flags: Flags, t: Option<R>)
    requires Linked(f) && c in f && x in f && f[c].isContainer && Landed(f, c, index, x, flags, t)
    requires !f[x].kind.stackable
    ensures index < f[c].maxSize
  {
    LandedFacts(f, c, index, x, flags, t);
  }

  /**
   When pieces go astray: only if limits are switched off, and the stack they are merged into is full before all are
   on it and stands beyond the capacity of its container, which then holds more than it should.
   */
  lemma WhenPiecesStray<R>(
      f: World<R>, depth: map<R, nat>, from: R, c: R, index: int, x: R, count: nat, flags: Flags, t: Option<R>, m: nat)
    requires WellFormed(f, depth) && from in f && c in f && x in f && f[c].isContainer
    requires MayMove(f, depth, from, c, index, x, count, flags, t, m)
    ensures index >= f[c].maxSize ==> t.Some? && t.value in f && f[x].kind.stackable
    ensures var stray := Stray(f, c, index, x, t, m);
            && (stray > 0 <==> index >= f[c].maxSize && StackSize(f[x].kind) - f[t.value].count < m)
            && (stray > 0 ==> flags.noLimit && |f[c].list| > f[c].maxSize)
  {
    LandedFacts(f, c, index, x, flags, t);
    assert StackedAt(f, x) && (t.Some? ==> StackedAt(f, t.value));
    if !flags.noLimit && MergeCount(f, KeyOf(f[x]), t, m) < m && f[x].kind.stackable {
      RoomForRest(f, depth, c, index, x, count, flags, t, m);
    }
  }

  const BOX: ItemType := ItemType(1, false, 1, 0, true, true, 0, false, false)
  const COIN: ItemType := ItemType(2, true, 100, 0, true, true, 0, false, false)

  /** Box 0 has room for one item and holds two, the second a stack of 99; a stack of 5 is in box 1. */
  const OVERFULL: World<nat> := map[
    0 := Node(BOX, map[], 1, None, true, 1, [2, 3], 0), 1 := Node(BOX, map[], 1, None, true, 5, [4], 0),
    2 := Node(BOX, map[], 1, Some(0), false, 0, [], 0), 3 := Node(COIN, map[], 99, Some(0), false, 0, [], 0),
    4 := Node(COIN, map[], 5, Some(1), false, 0, [], 0)]

  const OVERFULL_DEPTH: map<nat, nat> := map[0 := 0, 1 := 0, 2 := 1, 3 := 1, 4 := 1]

  lemma WeighsNothing<R>(f: World<R>, x: R)
    requires x in f && f[x].kind.weight == 0 && f[x].attrs == map[] && f[x].total == 0
    ensures At(f, x, WeightMeasure()) == 0
  {
    TimesIsProduct(0, if f[x].count < 1 then 1 else f[x].count);
  }

  lemma {:induction false} NoneWeighs<R>(f: World<R>, s: seq<R>)
    requires forall x | x in s :: x in f && f[x].kind.weight == 0 && f[x].attrs == map[] && f[x].total == 0
    ensures SumSeq(f, s, WeightMeasure()) == 0
  {
    if s != [] {
      WeighsNothing(f, s[0]);
      NoneWeighs(f, s[1..]);
    }
  }

  lemma OverfullIsLinked()
    ensures Linked(OVERFULL)
  {
    var f := OVERFULL;
    forall x | x in f
      ensures DownOk(f, x)
    {
      assert f[0].list == [2, 3] && NoDup([2, 3]) && f[1].list == [4] && NoDup([4]);
      assert x == 0 || x == 1 || f[x].list == [];
    }
    forall x | x in f
      ensures UpOk(f, x)
    {
      assert f[0].list[0] == 2 && f[0].list[1] == 3 && f[1].list[0] == 4;
    }
  }

  lemma OverfullIsWeighed()
    ensures Weighed(OVERFULL)
  {
    var f := OVERFULL;
    forall x | x in f
      ensures WeighedAt(f, x)
    {
      NoneWeighs(f, f[x].list);
    }
  }

  lemma OverfullIsForest()
    ensures WellFormed(OVERFULL, OVERFULL_DEPTH)
  {
    OverfullIsLinked();
    OverfullIsWeighed();
    assert Stacked(OVERFULL);
    assert Acyclic(OVERFULL, OVERFULL_DEPTH);
  }

  /** Pieces do go astray: of 5 coins that may be moved onto the stack of 99, 4 end up nowhere. */
  lemma PiecesCanStray()
    ensures WellFormed(OVERFULL, OVERFULL_DEPTH)
    ensures MayMove(OVERFULL, OVERFULL_DEPTH, 1, 0, 1, 4, 5, Flags(true, false, false, false), Some(3), 5)
    ensures Stray(OVERFULL, 0, 1, 4, Some(3), 5) == 4
  {
    OverfullIsForest();
    var f, flags := OVERFULL, Flags(true, false, false, false);
    assert DownOk(f, 0);
    assert !Takes(f, 2, 4) && Takes(f, 3, 4);
    assert FirstTaker(f, [2, 3], 4, 1) == 1;
    assert FirstTaker(f, [2, 3], 4, 0) == 1;
    assert CylinderQueries.QueryDestination(f, 0, INDEX_WHEREEVER, 4, flags) == Destination(0, 1, Some(3));
    assert Below(f, OVERFULL_DEPTH, 0) && !Under(f, OVERFULL_DEPTH, 0, 4);
  }

  /** Of m pieces of key in from, all but stray are in to instead; no conserved quantity changes otherwise. */
  ghost predicate Moved<R>(f: World<R>, r: World<R>, from: R, to: R, key: Key, m: nat, stray: nat) {
    forall q: Quantity {:trigger MovedOf(f, r, from, to, key, m, stray, q)} :: MovedOf(f, r, from, to, key, m, stray, q)
  }

  ghost predicate MovedOf<R>(
      f: World<R>, r: World<R>, from: R, to: R, key: Key, m: nat, stray: nat, q: Quantity)
  {
    SumAll(r, Of(q)) == SumAll(f, Of(q)) && Brought(f, r, from, to, key, m, m - stray, q)
  }

  /** Out of from have gone m pieces, and n of them into to. */
  ghost predicate Brought<R>(f: World<R>, r: World<R>, from: R, to: R, key: Key, m: int, n: int, q: Quantity) {
    forall y {:trigger Direct(r, y, q)} | y in r && y in f ::
      Direct(r, y, q) == Direct(f, y, q)
        + (if y == to then Times(q(key), n) else 0) - (if y == from then Times(q(key), m) else 0)
  }

  /** Moving changes the weight of nothing: all items together weigh the same. */
  lemma MovedWeighsTheSame<R>(f: World<R>, r: World<R>, from: R, to: R, key: Key, m: nat, stray: nat)
    requires Moved(f, r, from, to, key, m, stray) && Stacked(f) && Stacked(r)
    ensures SumAll(r, OwnWeightMeasure()) == SumAll(f, OwnWeightMeasure())
  {
    assert MovedOf(f, r, from, to, key, m, stray, PieceWeight());
    PiecesWeigh(f);
    PiecesWeigh(r);
  }

  /** The pieces of one type with one set of attributes: as many come as go, and no others. */
  lemma MovedPieces<R>(f: World<R>, r: World<R>, from: R, to: R, key: Key, m: nat, stray: nat, other: Key)
    requires Moved(f, r, from, to, key, m, stray)
    ensures SumAll(r, Of(CountOf(other))) == SumAll(f, Of(CountOf(other)))
    ensures forall y {:trigger Direct(r, y, CountOf(other))} | y in r && y in f ::
              Direct(r, y, CountOf(other)) == Direct(f, y, CountOf(other))
                + (if y == to && other == key then m - stray else 0) - (if y == from && other == key then m else 0)
  {
    var q: Quantity, u := CountOf(other), if other == key then 1 else 0;
    assert MovedOf(f, r, from, to, key, m, stray, q) && q(key) == u;
    TimesIsProduct(u, m);
    TimesIsProduct(u, m - stray);
  }

  /** Taking, merging and putting the rest conserves every quantity. */
  lemma StackMoveConserves<R>(
      f: World<R>, g: World<R>, h: World<R>, r: World<R>, from: R, to: R, index: int, x: R, t: Option<R>,
      m: nat, n: nat, rest: nat, clone: Option<R>)
    requires StackMoved(f, g, h, r, from, to, index, x, t, m, n, rest, clone)
    requires clone.Some? ==> clone.value !in f
    ensures Moved(f, r, from, to, KeyOf(f[x]), m, Stray(f, to, index, x, t, m))
  {
    var key, stray := KeyOf(f[x]), Stray(f, to, index, x, t, m);
    forall q: Quantity {:trigger MovedOf(f, r, from, to, key, m, stray, q)}
      ensures MovedOf(f, r, from, to, key, m, stray, q)
    {
      StackMoveConservesOne(f, g, h, r, from, to, index, x, t, m, n, rest, clone, key, q);
    }
  }

  lemma StackMoveConservesOne<R>(
      f: World<R>, g: World<R>, h: World<R>, r: World<R>, from: R, to: R, index: int, x: R, t: Option<R>,
      m: nat, n: nat, rest: nat, clone: Option<R>, key: Key, q: Quantity)
    requires StackMoved(f, g, h, r, from, to, index, x, t, m, n, rest, clone) && key == KeyOf(f[x])
    requires clone.Some? ==> clone.value !in f
    ensures MovedOf(f, r, from, to, key, m, Stray(f, to, index, x, t, m), q)
  {
    var stray := Stray(f, to, index, x, t, m);
    assert Flow(f, g, from, key, 0 - m, q);
    if t.Some? && t.value in g && KeyOf(g[t.value]) == key {
      assert Flow(g, h, to, key, n, q);
    } else {
      NoFlow(g, to, key, q);
    }
    RestFlows(f, g, h, r, from, to, index, t, m, n, rest, clone, key, stray, q);
  }

  lemma RestFlows<R>(
      f: World<R>, g: World<R>, h: World<R>, r: World<R>, from: R, to: R, index: int, t: Option<R>,
      m: nat, n: nat, rest: nat, clone: Option<R>, key: Key, stray: nat, q: Quantity)
    requires Poured(g, h, r, to, index, key, t, m, n, rest, clone) && (clone.Some? ==> clone.value !in f)
    requires stray == if index < g[to].maxSize then 0 else rest
    requires Flow(f, g, from, key, 0 - m, q) && Flow(g, h, to, key, n, q)
    requires forall y | y in r && y in f :: y in h && y in g
    ensures MovedOf(f, r, from, to, key, m, stray, q)
  {
    if rest > 0 && index >= g[to].maxSize {
      StrayMoves(h, r, clone.value, key, rest, q);
      TwoFlows(f, g, h, r, from, to, key, m, n, rest, q);
    } else {
      if rest > 0 {
        assert Flow(h, r, to, key, rest, q);
      } else {
        NoFlow(h, to, key, q);
      }
      ThreeFlows(f, g, h, r, from, to, key, m, n, rest, q);
    }
  }

  lemma StrayMoves<R>(h: World<R>, r: World<R>, x: R, key: Key, n: nat, q: Quantity)
    requires Linked(h) && Strayed(h, r, x, key, n)
    ensures SumAll(r, Of(q)) == SumAll(h, Of(q)) + Times(q(key), n) && DirectsKept(h, r, q)
  {
    BornMoves(h, x, r[x], q);
  }

  lemma NoFlow<R>(f: World<R>, c: R, key: Key, q: Quantity)
    ensures Flow(f, f, c, key, 0, q)
  {
  }

  lemma ThreeFlows<R>(
      f: World<R>, g: World<R>, h: World<R>, r: World<R>, from: R, to: R, key: Key, m: nat, n: nat, rest: nat,
      q: Quantity)
    requires Flow(f, g, from, key, 0 - m, q) && Flow(g, h, to, key, n, q) && Flow(h, r, to, key, rest, q)
    requires m == n + rest && forall y | y in r && y in f :: y in h && y in g
    ensures MovedOf(f, r, from, to, key, m, 0, q)
  {
    var out, onto, new_, all := Times(q(key), 0 - m), Times(q(key), n), Times(q(key), rest), Times(q(key), m);
    TimesSplit(q(key), m, n, rest);
    forall y {:trigger Direct(r, y, q)} | y in r && y in f
      ensures Direct(r, y, q) == Direct(f, y, q) + (if y == to then all else 0) - (if y == from then all else 0)
    {
      assert Direct(r, y, q) == Direct(h, y, q) + if y == to then new_ else 0;
      assert Direct(h, y, q) == Direct(g, y, q) + if y == to then onto else 0;
      assert Direct(g, y, q) == Direct(f, y, q) + if y == from then out else 0;
    }
  }

  lemma SameTimes(u: int, a: int, b: int)
    requires a == b
    ensures Times(u, a) == Times(u, b)
  {
  }

  /** As ThreeFlows, when the rest has become an item that is nowhere. */
  lemma TwoFlows<R>(
      f: World<R>, g: World<R>, h: World<R>, r: World<R>, from: R, to: R, key: Key, m: nat, n: nat, rest: nat,
      q: Quantity)
    requires Flow(f, g, from, key, 0 - m, q) && Flow(g, h, to, key, n, q)
    requires SumAll(r, Of(q)) == SumAll(h, Of(q)) + Times(q(key), rest) && DirectsKept(h, r, q)
    requires m == n + rest && forall y | y in r && y in f :: y in h && y in g
    ensures MovedOf(f, r, from, to, key, m, rest, q)
  {
    TotalKept(f, g, h, r, from, to, key, m, n, rest, q);
    BroughtByFlows(f, g, h, r, from, to, key, m, n, q);
    BroughtIs(f, r, from, to, key, m, n, m - rest, q);
  }

  lemma TotalKept<R>(
      f: World<R>, g: World<R>, h: World<R>, r: World<R>, from: R, to: R, key: Key, m: nat, n: nat, rest: nat,
      q: Quantity)
    requires Flow(f, g, from, key, 0 - m, q) && Flow(g, h, to, key, n, q) && m == n + rest
    requires SumAll(r, Of(q)) == SumAll(h, Of(q)) + Times(q(key), rest)
    ensures SumAll(r, Of(q)) == SumAll(f, Of(q)) && Times(q(key), 0 - m) == -Times(q(key), m)
  {
    TimesSplit(q(key), m, n, rest);
  }

  lemma BroughtIs<R>(f: World<R>, r: World<R>, from: R, to: R, key: Key, m: int, n: int, k: int, q: Quantity)
    requires Brought(f, r, from, to, key, m, n, q) && n == k
    ensures Brought(f, r, from, to, key, m, k, q)
  {
  }

  lemma BroughtByFlows<R>(
      f: World<R>, g: World<R>, h: World<R>, r: World<R>, from: R, to: R, key: Key, m: nat, n: nat, q: Quantity)
    requires Flow(f, g, from, key, 0 - m, q) && Flow(g, h, to, key, n, q) && DirectsKept(h, r, q)
    requires Times(q(key), 0 - m) == -Times(q(key), m) && forall y | y in r && y in f :: y in h && y in g
    ensures Brought(f, r, from, to, key, m, n, q)
  {
    var out, onto := Times(q(key), 0 - m), Times(q(key), n);
    forall y {:trigger Direct(r, y, q)} | y in r && y in f
      ensures Direct(r, y, q) == Direct(f, y, q) + (if y == to then onto else 0) + (if y == from then out else 0)
    {
      DirectFlows(f, g, h, r, from, to, key, 0 - m, n, q, y, out, onto);
    }
  }

  lemma DirectFlows<R>(
      f: World<R>, g: World<R>, h: World<R>, r: World<R>, from: R, to: R, key: Key, m: int, n: int, q: Quantity, y: R,
      out: int, onto: int)
    requires Flow(f, g, from, key, m, q) && Flow(g, h, to, key, n, q) && DirectsKept(h, r, q)
    requires y in r && y in h && y in g && out == Times(q(key), m) && onto == Times(q(key), n)
    ensures Direct(r, y, q) == Direct(f, y, q) + (if y == to then onto else 0) + (if y == from then out else 0)
  {
    assert Direct(r, y, q) == Direct(h, y, q);
  }

  /** Carrying an item over conserves every quantity. */
  lemma CarryConserves<R>(f: World<R>, g: World<R>, r: World<R>, from: R, to: R, x: R)
    requires TookWhole(f, g, from, x) && PutWhole(g, r, to, x)
    ensures Moved(f, r, from, to, KeyOf(f[x]), f[x].count, 0)
  {
    var key, m := KeyOf(f[x]), f[x].count;
    forall q: Quantity {:trigger MovedOf(f, r, from, to, key, m, 0, q)}
      ensures MovedOf(f, r, from, to, key, m, 0, q)
    {
      assert Carried(f, g, from, x, -1, q) && Carried(g, r, to, x, 1, q);
      forall y {:trigger Direct(r, y, q)} | y in r && y in f
        ensures Direct(r, y, q) == Direct(f, y, q)
             + (if y == to then Times(q(key), m) else 0) - (if y == from then Times(q(key), m) else 0)
      {
        assert Direct(r, y, q) == Direct(g, y, q) + if y == to then Times(q(key), m) else 0;
        assert Direct(g, y, q) == Direct(f, y, q) + if y == from then -Times(q(key), m) else 0;
      }
    }
  }

  // ----- where everything is after a move -----

  /** list without its first x. */
  function Minus<R(==)>(list: seq<R>, x: R): seq<R> {
    if list == [] then [] else if list[0] == x then list[1..] else [list[0]] + Minus(list[1..], x)
  }

  lemma {:induction false} ErasedIsMinus<R>(list: seq<R>, i: nat)
    requires i < |list| && NoDup(list)
    ensures Erase(list, i) == Minus(list, list[i])
  {
    if i > 0 {
      assert list[1..][i - 1] == list[i] && NoDup(list[1..]);
      ErasedIsMinus(list[1..], i - 1);
      assert Erase(list, i) == [list[0]] + Erase(list[1..], i - 1);
    }
  }

  /** What y lists after x has left from, if it has, and front has come to the front of to. */
  ghost function ListAfter<R>(f: World<R>, from: R, to: R, x: R, leaves: bool, front: seq<R>, y: R): seq<R>
    requires y in f
  {
    (if y == to then front else []) + (if y == from && leaves then Minus(f[y].list, x) else f[y].list)
  }

  /** x, with all that is in it, is the first item of to; nothing else has changed but cached weights. */
  ghost predicate CarriedOver<R>(f: World<R>, r: World<R>, from: R, to: R, x: R) {
    && r.Keys == f.Keys
    && forall y {:trigger r[y]} | y in r ::
         r[y] == f[y].(list := ListAfter(f, from, to, x, true, [x], y),
                       parent := if y == x then Some(to) else f[y].parent, total := r[y].total)
  }

  lemma CarryShifts<R>(f: World<R>, g: World<R>, r: World<R>, from: R, to: R, x: R)
    requires TookWhole(f, g, from, x) && PutWhole(g, r, to, x) && NoDup(f[from].list)
    ensures CarriedOver(f, r, from, to, x)
  {
    var i :| 0 <= i < |f[from].list| && f[from].list[i] == x && g[from].list == Erase(f[from].list, i);
    ErasedIsMinus(f[from].list, i);
    assert g[from].list == Minus(f[from].list, x);
    forall y {:trigger r[y]} | y in r
      ensures r[y] == f[y].(list := ListAfter(f, from, to, x, true, [x], y),
                            parent := if y == x then Some(to) else f[y].parent, total := r[y].total)
    {
      CarryShiftsAt(f, g, r, from, to, x, y);
    }
  }

  lemma CarryShiftsAt<R>(f: World<R>, g: World<R>, r: World<R>, from: R, to: R, x: R, y: R)
    requires TookWhole(f, g, from, x) && PutWhole(g, r, to, x) && g[from].list == Minus(f[from].list, x) && y in r
    ensures r[y] == f[y].(list := ListAfter(f, from, to, x, true, [x], y),
                          parent := if y == x then Some(to) else f[y].parent, total := r[y].total)
  {
    assert g[y] == f[y].(list := if y == from then Minus(f[y].list, x) else f[y].list,
                         parent := if y == x then None else f[y].parent, total := g[y].total);
    assert r[y] == g[y].(list := if y == to then [x] + g[y].list else g[y].list,
                         parent := if y == x then Some(to) else g[y].parent, total := r[y].total);
  }

  /** How many pieces y has after m have left x and n have come onto t. */
  ghost function CountAfter<R>(f: World<R>, x: R, m: nat, t: Option<R>, n: nat, y: R): int
    requires y in f
  {
    f[y].count - (if y == x then m else 0) + (if t == Some(y) then n else 0)
  }

  /**
   m pieces of the stack x are gone from it, and it is gone when it had no more; those that fit are on the stack t, and
   the others on a clone, first in to, or nowhere. Nothing else has changed but cached weights.
   */
  ghost predicate StackShifted<R>(
      f: World<R>, r: World<R>, from: R, to: R, index: int, x: R, t: Option<R>, m: nat, clone: Option<R>)
    requires x in f && to in f
  {
    var n := MergeCount(f, KeyOf(f[x]), t, m);
    var placed := clone.Some? && index < f[to].maxSize;
    && (clone.Some? <==> n < m) && (clone.Some? ==> clone.value !in f)
    && r.Keys == f.Keys - (if m == f[x].count then {x} else {}) + (if clone.Some? then {clone.value} else {})
    && (clone.Some? ==>
          r[clone.value] == Node(f[x].kind, f[x].attrs, m - n, if placed then Some(to) else None, false, 0, [],
              r[clone.value].total))
    && forall y {:trigger r[y]} | y in r && y in f ::
         && CountAfter(f, x, m, t, n, y) >= 0
         && r[y] == f[y].(list := ListAfter(f, from, to, x, m == f[x].count, if placed then [clone.value] else [], y),
                          count := CountAfter(f, x, m, t, n, y), total := r[y].total)
  }

  /**
   The pieces in full: x has m fewer, and is gone when it had no more; the stack t, if it is of the same kind, is filled
   up before any piece is left for a clone, and the clone has the others.
   */
  ghost predicate Filled<R>(f: World<R>, r: World<R>, x: R, t: Option<R>, m: nat, clone: Option<R>)
    requires x in f
  {
    var size := f[x].kind.stackSize;
    var like := t.Some? && t.value in f && f[t.value].kind == f[x].kind && f[t.value].attrs == f[x].attrs;
    && (x in r <==> m < f[x].count) && (x in r ==> r[x].count == f[x].count - m)
    && (like ==> t.value in r)
    && (like ==> r[t.value].count == if f[t.value].count + m <= size then f[t.value].count + m else size)
    && (clone.Some? <==> !like || f[t.value].count + m > size)
    && (clone.Some? ==> clone.value in r && KeyOf(r[clone.value]) == KeyOf(f[x]))
    && (clone.Some? ==> r[clone.value].count == if like then f[t.value].count + m - size else m)
  }

  lemma ShiftFills<R>(
      f: World<R>, r: World<R>, from: R, to: R, index: int, x: R, t: Option<R>, m: nat, clone: Option<R>)
    requires x in f && to in f && StackShifted(f, r, from, to, index, x, t, m, clone) && f[x].kind.stackable
    requires t != Some(x) && 1 <= m <= f[x].count && (t.Some? && t.value in f ==> StackedAt(f, t.value))
    ensures Filled(f, r, x, t, m, clone)
  {
  }

  lemma StackMoveShifts<R>(
      f: World<R>, g: World<R>, h: World<R>, r: World<R>, from: R, to: R, index: int, x: R, t: Option<R>,
      m: nat, n: nat, rest: nat, clone: Option<R>)
    requires StackMoved(f, g, h, r, from, to, index, x, t, m, n, rest, clone) && NoDup(f[from].list)
    requires clone.Some? ==> clone.value !in f
    requires t != Some(x) && to != x && from != x && m <= f[x].count
    ensures StackShifted(f, r, from, to, index, x, t, m, clone)
  {
    CloneIs(f, g, h, r, from, to, index, x, t, m, n, rest, clone);
    forall y {:trigger r[y]} | y in r && y in f
      ensures CountAfter(f, x, m, t, n, y) >= 0
      ensures r[y] == f[y].(
                list := ListAfter(f, from, to, x, m == f[x].count,
                    if clone.Some? && index < f[to].maxSize then [clone.value] else [], y),
                count := CountAfter(f, x, m, t, n, y), total := r[y].total)
    {
      StackMoveShiftsAt(f, g, h, r, from, to, index, x, t, m, n, rest, clone, y);
    }
  }

  lemma CloneIs<R>(
      f: World<R>, g: World<R>, h: World<R>, r: World<R>, from: R, to: R, index: int, x: R, t: Option<R>,
      m: nat, n: nat, rest: nat, clone: Option<R>)
    requires StackMoved(f, g, h, r, from, to, index, x, t, m, n, rest, clone) && to != x
    ensures clone.Some? <==> n < m
    ensures r.Keys == f.Keys - (if m == f[x].count then {x} else {}) + (if clone.Some? then {clone.value} else {})
    ensures clone.Some? ==>
              r[clone.value] == Node(f[x].kind, f[x].attrs, m - n, if index < f[to].maxSize then Some(to) else None,
                  false, 0, [], r[clone.value].total)
  {
  }

  lemma StackMoveShiftsAt<R>(
      f: World<R>, g: World<R>, h: World<R>, r: World<R>, from: R, to: R, index: int, x: R, t: Option<R>,
      m: nat, n: nat, rest: nat, clone: Option<R>, y: R)
    requires StackMoved(f, g, h, r, from, to, index, x, t, m, n, rest, clone) && NoDup(f[from].list)
    requires clone.Some? ==> clone.value !in f
    requires from != x && m <= f[x].count && y in r && y in f
    ensures CountAfter(f, x, m, t, n, y) >= 0
    ensures r[y] == f[y].(
              list := ListAfter(f, from, to, x, m == f[x].count,
                  if clone.Some? && index < f[to].maxSize then [clone.value] else [], y),
              count := CountAfter(f, x, m, t, n, y), total := r[y].total)
  {
    CloneShifts(g, h, r, to, index, KeyOf(f[x]), t, m, n, rest, clone, y);
    PouredShifts(g, h, r, to, index, KeyOf(f[x]), t, m, n, rest, clone, y);
    TookShifts(f, g, from, to, x, m, y);
    assert h[y].count == CountAfter(f, x, m, t, n, y);
    ThreeChanges(f[y], g[y], h[y], r[y], ListAfter(f, from, to, x, m == f[x].count, [], y),
      if clone.Some? && index < f[to].maxSize && y == to then [clone.value] else []);
  }

  lemma ThreeChanges<R>(a: Node<R>, b: Node<R>, c: Node<R>, d: Node<R>, list: seq<R>, front: seq<R>)
    requires b == a.(list := list, count := b.count, total := b.total) && c == b.(count := c.count, total := c.total)
    requires d == c.(list := front + c.list, total := d.total)
    ensures d == a.(list := front + list, count := c.count, total := d.total)
  {
  }

  lemma TookShifts<R>(f: World<R>, g: World<R>, from: R, to: R, x: R, m: nat, y: R)
    requires Took(f, g, from, x, m) && NoDup(f[from].list) && from != x && m <= f[x].count && y in g
    ensures y in f && g[y] == f[y].(list := ListAfter(f, from, to, x, m == f[x].count, [], y),
                                    count := f[y].count - if y == x then m else 0, total := g[y].total)
  {
    if m == f[x].count {
      var i :| 0 <= i < |f[from].list| && f[from].list[i] == x && g[from].list == Erase(f[from].list, i);
      ErasedIsMinus(f[from].list, i);
    }
  }

  lemma PouredShifts<R>(
      g: World<R>, h: World<R>, r: World<R>, c: R, index: int, key: Key, t: Option<R>, m: nat, n: nat, rest: nat,
      clone: Option<R>, y: R)
    requires Poured(g, h, r, c, index, key, t, m, n, rest, clone) && y in h
    ensures y in g && h[y] == g[y].(count := g[y].count + (if t == Some(y) then n else 0), total := h[y].total)
  {
  }

  lemma CloneShifts<R>(
      g: World<R>, h: World<R>, r: World<R>, c: R, index: int, key: Key, t: Option<R>, m: nat, n: nat, rest: nat,
      clone: Option<R>, y: R)
    requires Poured(g, h, r, c, index, key, t, m, n, rest, clone) && y in r && clone != Some(y)
    ensures y in h
            && r[y] == h[y].(list := (if clone.Some? && index < g[c].maxSize && y == c then [clone.value] else [])
                                     + h[y].list, total := r[y].total)
  {
  }

  lemma CarryFits<R>(f: World<R>, g: World<R>, r: World<R>, from: R, to: R, x: R)
    requires TookWhole(f, g, from, x) && PutWhole(g, r, to, x) && Fits(f)
    requires to in f && |f[to].list| < f[to].maxSize
    ensures Fits(r)
  {
    forall y | y in r
      ensures |r[y].list| <= r[y].maxSize
    {
      assert |g[y].list| <= |f[y].list| && g[y].maxSize == f[y].maxSize;
    }
  }

  lemma StackMoveFits<R>(
      f: World<R>, g: World<R>, h: World<R>, r: World<R>, from: R, to: R, index: int, x: R, t: Option<R>,
      m: nat, n: nat, rest: nat, clone: Option<R>)
    requires StackMoved(f, g, h, r, from, to, index, x, t, m, n, rest, clone) && Fits(f)
    requires rest > 0 ==> |f[to].list| < f[to].maxSize
    ensures Fits(r)
  {
    TookFits(f, g, from, x, m);
    assert forall y | y in h :: y in g && h[y].list == g[y].list && h[y].maxSize == g[y].maxSize;
    if rest > 0 && index < f[to].maxSize {
      PutFits(h, r, to, clone.value, KeyOf(f[x]), rest);
    }
  }

  lemma TookFits<R>(f: World<R>, g: World<R>, c: R, x: R, m: nat)
    requires Took(f, g, c, x, m) && Fits(f)
    ensures Fits(g)
    ensures forall y | y in g :: |g[y].list| <= |f[y].list| && g[y].maxSize == f[y].maxSize
  {
  }

  lemma PutFits<R>(h: World<R>, r: World<R>, c: R, x: R, key: Key, n: nat)
    requires Put(h, r, c, x, key, n) && Fits(h) && |h[c].list| < h[c].maxSize
    ensures Fits(r)
  {
  }

  /** The dry run of internalAddItem says yes. */
  ghost predicate CanAdd<R>(f: World<R>, depth: map<R, nat>, c: R, index: int, x: R, flags: Flags)
    requires Linked(f) && Acyclic(f, depth) && c in f && x in f
  {
    var d := CylinderQueries.QueryDestination(f, c, index, x, flags);
    && d.cylinder in f
    && CylinderQueries.QueryAdd(f, depth, d.cylinder, d.index, x, flags) == NoError
    && CylinderQueries.QueryMaxCount(f, depth, c, INDEX_WHEREEVER, x, f[x].count, flags) == NoError
  }

  /**
   internalAddItem respects the capacity: limits are not switched off, and a stack that is named a position of the
   container may still be merged into others, whose room was counted.
   */
  ghost predicate KeepsLimit<R>(f: World<R>, c: R, index: int, x: R, flags: Flags)
    requires Linked(f) && c in f && x in f
  {
    !flags.noLimit && (flags.ignoreAutoStack && f[x].kind.stackable ==> Slot(f, c, index).index == INDEX_WHEREEVER)
  }

  /** A new item that is not merged finds a free slot. */
  lemma AddingHasRoom<R>(f: World<R>, depth: map<R, nat>, c: R, index: int, x: R, flags: Flags)
    requires WellFormed(f, depth) && c in f && x in f && f[x].parent.None? && !flags.childIsOwner
    requires CanAdd(f, depth, c, index, x, flags)
    requires var t := CylinderQueries.QueryDestination(f, c, index, x, flags).item;
             f[x].kind.stackable && t.Some? ==> t.value in f && !Takes(f, t.value, x)
    ensures var to := CylinderQueries.QueryDestination(f, c, index, x, flags).cylinder;
            to in f && (KeepsLimit(f, c, index, x, flags) ==> |f[to].list| < f[to].maxSize)
  {
    var d := CylinderQueries.QueryDestination(f, c, index, x, flags);
    assert DownOk(f, c) && StackedAt(f, x);
    FirstTakerIs(f, f[c].list, x, 0);
    if KeepsLimit(f, c, index, x, flags) && d.index != INDEX_WHEREEVER {
      assert d.cylinder == c;
      if f[x].kind.stackable {
        assert FirstTaker(f, f[c].list, x, 0) == |f[c].list|;
        NoTakerNoRoom(f, f[c].list, x);
        assert Times(StackSize(f[x].kind), 0) == 0;
      }
    }
  }

  lemma PutWholeFits<R>(f: World<R>, r: World<R>, c: R, x: R)
    requires PutWhole(f, r, c, x) && Fits(f) && |f[c].list| < f[c].maxSize
    ensures Fits(r)
  {
  }

  /** m pieces of key are now in c and nowhere else than before; lost pieces of the new item have ceased to be. */
  ghost predicate Added<R>(f: World<R>, r: World<R>, c: R, key: Key, m: int, lost: nat) {
    forall q: Quantity {:trigger AddedOf(f, r, c, key, m, lost, q)} :: AddedOf(f, r, c, key, m, lost, q)
  }

  lemma AddedIs<R>(f: World<R>, r: World<R>, c: R, key: Key, m: int, lost: nat, kept: int, rest: nat)
    requires Added(f, r, c, key, m, lost) && kept == m && rest == lost
    ensures Added(f, r, c, key, kept, rest)
  {
  }

  ghost predicate AddedOf<R>(f: World<R>, r: World<R>, c: R, key: Key, m: int, lost: nat, q: Quantity) {
    && SumAll(r, Of(q)) == SumAll(f, Of(q)) - Times(q(key), lost)
    && forall y {:trigger Direct(r, y, q)} | y in r && y in f ::
         Direct(r, y, q) == Direct(f, y, q) + if y == c then Times(q(key), m) else 0
  }

  /** Merging n pieces of x into t leaves n less room for the rest. */
  lemma {:induction false} RoomOnAfterMerge<R>(
      f: World<R>, h: World<R>, s: seq<R>, x: R, rest: R, t: R, n: nat)
    requires x in f && rest in h && x !in s && rest !in s && NoDup(s) && KeyOf(h[rest]) == KeyOf(f[x])
    requires forall y | y in s :: y in f && y in h && KeyOf(h[y]) == KeyOf(f[y])
    requires forall y | y in s && y != t :: h[y].count == f[y].count
    requires t in s ==>
             h[t].count == f[t].count + n && KeyOf(f[t]) == KeyOf(f[x]) && f[t].count + n <= StackSize(f[t].kind)
    ensures RoomOn(h, s, rest) == RoomOn(f, s, x) - if t in s then n else 0
  {
    if s != [] {
      var last := s[|s| - 1];
      assert s == s[..|s| - 1] + [last];
      RoomOnAfterMerge(f, h, s[..|s| - 1], x, rest, t, n);
    }
  }

  lemma {:induction false} NoTakerNoRoom<R>(f: World<R>, s: seq<R>, x: R)
    requires x in f && (forall y | y in s :: y in f) && forall k | 0 <= k < |s| :: s[k] == x || !Takes(f, s[k], x)
    ensures RoomOn(f, s, x) == 0
  {
    if s != [] {
      NoTakerNoRoom(f, s[..|s| - 1], x);
    }
  }

  /**
   What internalAddItem needs for the new item x, when the index has led from c to to and the position at there: x may
   enter, and all of it fits into c.
   */
  ghost predicate Addable<R>(f: World<R>, depth: map<R, nat>, c: R, to: R, at: int, x: R, flags: Flags)
    requires Linked(f) && Acyclic(f, depth) && c in f && to in f && x in f
  {
    assert DownOk(f, c);
    && MayEnter(f, depth, to, at, x, flags)
    && (flags.noLimit || (if f[x].kind.stackable then f[x].count else 1) <= Capacity(f, c, INDEX_WHEREEVER, x))
  }

  /** Why a new item is refused: it may not be carried, is or holds the container, or there is no room. */
  ghost function Objection<R>(f: World<R>, depth: map<R, nat>, to: R, x: R): ReturnValue
    requires Acyclic(f, depth) && to in f && x in f
  {
    if !f[x].kind.pickupable then CannotPickup
    else if Under(f, depth, to, x) then ThisIsImpossible
    else ContainerNotEnoughRoom
  }

  lemma AddableIs<R>(f: World<R>, depth: map<R, nat>, c: R, index: int, x: R, flags: Flags)
    requires WellFormed(f, depth) && c in f && x in f && f[c].isContainer && f[x].parent.None? && !flags.childIsOwner
    ensures var d := CylinderQueries.QueryDestination(f, c, index, x, flags);
            d.cylinder in f && (CanAdd(f, depth, c, index, x, flags) <==>
                                Addable(f, depth, c, d.cylinder, d.index, x, flags))
  {
    var d := CylinderQueries.QueryDestination(f, c, index, x, flags);
    SlotIsContainer(f, c, index);
    assert DownOk(f, c) && Below(f, depth, c) && Below(f, depth, d.cylinder) && StackedAt(f, x);
    QueryAddIs(f, depth, d.cylinder, d.index, x, flags);
    if f[x].kind.pickupable && !Under(f, depth, d.cylinder, x) {
      IndexLeads(f, c, index);
      MaxCountIs(f, depth, c, INDEX_WHEREEVER, x, f[x].count, flags);
    }
  }

  /** A new stack can be added to c exactly when there is a free slot, or enough room on the stacks of its kind. */
  ghost predicate RoomForStack<R>(f: World<R>, c: R, x: R, flags: Flags)
    requires c in f && x in f && forall y | y in f[c].list :: y in f
  {
    || flags.noLimit || |f[c].list| < f[c].maxSize
    || (!flags.ignoreAutoStack
        && f[x].count <= f[x].kind.stackSize * StacksLike(f, f[c].list, x) - PiecesLike(f, f[c].list, x))
  }

  lemma RoomForStackIs<R>(f: World<R>, depth: map<R, nat>, c: R, x: R, flags: Flags)
    requires WellFormed(f, depth) && c in f && x in f && f[c].isContainer && f[x].parent.None? && !flags.childIsOwner
    requires f[x].list == [] && c != x && f[x].kind.stackable && f[x].kind.pickupable
    ensures forall y | y in f[c].list :: y in f
    ensures CanAdd(f, depth, c, INDEX_WHEREEVER, x, flags) <==> RoomForStack(f, c, x, flags)
  {
    assert DownOk(f, c) && StackedAt(f, x);
    AddableIs(f, depth, c, INDEX_WHEREEVER, x, flags);
    SlotIsContainer(f, c, INDEX_WHEREEVER);
    UnderLeaf(f, depth, c, x);
    DestinationIs(f, depth, c, INDEX_WHEREEVER, x, flags);
    if !flags.noLimit && |f[c].list| < f[c].maxSize {
      FreeSlotHasRoom(f, c, x);
    } else if !flags.noLimit {
      RoomNeedsStack(f, c, x);
    }
  }

  lemma FreeSlotHasRoom<R>(f: World<R>, c: R, x: R)
    requires Stacked(f) && c in f && x in f && (forall y | y in f[c].list :: y in f) && f[x].kind.stackable
    requires |f[c].list| < f[c].maxSize
    ensures f[x].count <= Capacity(f, c, INDEX_WHEREEVER, x)
  {
    var list, size, free := f[c].list, f[x].kind.stackSize, f[c].maxSize - |f[c].list|;
    assert StackedAt(f, x);
    RoomIsWhatIsLeft(f, list, x);
    SlotsHold(size, free, StacksLike(f, list, x), PiecesLike(f, list, x), RoomOn(f, list, x), f[x].count);
  }

  lemma SlotsHold(size: nat, free: nat, stacks: nat, pieces: nat, room: nat, count: nat)
    requires free >= 1 && count <= size && room + pieces == size * stacks
    ensures count <= size * (free + stacks) - pieces
  {
    Distribute(size, free, stacks);
    Distribute(size, free - 1, 1);
  }

  lemma RoomNeedsStack<R>(f: World<R>, c: R, x: R)
    requires Stacked(f) && c in f && x in f && (forall y | y in f[c].list :: y in f) && f[x].kind.stackable
    requires |f[c].list| >= f[c].maxSize
    ensures Capacity(f, c, INDEX_WHEREEVER, x)
         == f[x].kind.stackSize * StacksLike(f, f[c].list, x) - PiecesLike(f, f[c].list, x)
    ensures f[x].count <= Capacity(f, c, INDEX_WHEREEVER, x) ==>
              exists k :: 0 <= k < |f[c].list| && f[c].list[k] != x && Mergeable(f, f[c].list[k], x)
  {
    var list := f[c].list;
    assert StackedAt(f, x);
    RoomIsWhatIsLeft(f, list, x);
    FirstTakerIs(f, list, x, 0);
    if FirstTaker(f, list, x, 0) == |list| {
      NoTakerNoRoom(f, list, x);
    } else {
      assert Mergeable(f, list[FirstTaker(f, list, x, 0)], x);
    }
  }

  /** The world after t took n pieces of the new stack x and the rest became a stack of its own. */
  ghost predicate SplitOff<R>(f: World<R>, g: World<R>, h: World<R>, c: R, x: R, t: R, n: nat, count: nat, rest: R) {
    && x in f && t in f && x != t && Merged(f, g, c, t, n) && f[x].count == n + count && count > 0 && rest !in f
    && h == (g - {x})[rest := Node(f[x].kind, f[x].attrs, count, None, false, 0, [], 0)]
  }

  /** In k, n pieces of x have come into c and x is gone; h has the other count pieces as the item rest. */
  ghost predicate RestOf<R>(f: World<R>, k: World<R>, h: World<R>, c: R, x: R, rest: R, n: nat, count: nat) {
    && x in f && f[x].count == n + count && Linked(k) && k.Keys == f.Keys - {x} && rest !in f
    && Added(f, k, c, KeyOf(f[x]), n, count) && Spares(f, k, c, x, KeyOf(f[x])) && k[c].list == f[c].list
    && h == k[rest := Node(f[x].kind, f[x].attrs, count, None, false, 0, [], 0)]
  }

  /** The rest may be carried and put into c, which is as it was. */
  lemma RestMayEnter<R>(
      f: World<R>, depth: map<R, nat>, g: World<R>, h: World<R>, d: map<R, nat>, c: R, x: R, t: R, n: nat, count: nat,
      rest: R, flags: Flags)
    requires WellFormed(f, depth) && WellFormed(h, d) && SplitOff(f, g, h, c, x, t, n, count, rest)
    requires c in f && f[c].isContainer && f[x].parent.None? && !flags.childIsOwner
    requires f[x].kind.pickupable && f[x].kind.stackable && t in f[c].list
    ensures c in h && h[c] == f[c].(total := h[c].total) && x !in f[c].list && rest !in f[c].list
    ensures CylinderQueries.QueryAdd(h, d, c, 0, rest, flags) == NoError
  {
    assert DownOk(f, c) && StackedAt(f, x);
    assert c != t by { assert f[t].parent == Some(c); assert Below(f, depth, t); }
    assert h[c] == f[c].(total := h[c].total);
    UnderLeaf(h, d, c, rest);
    assert Below(h, d, c);
  }

  /** If the whole stack could be added, so can what is left of it after merging into t. */
  lemma RestCanBeAdded<R>(
      f: World<R>, depth: map<R, nat>, g: World<R>, h: World<R>, d: map<R, nat>, c: R, index: int, x: R, t: R, n: nat,
      count: nat, rest: R, flags: Flags)
    requires WellFormed(f, depth) && WellFormed(h, d) && SplitOff(f, g, h, c, x, t, n, count, rest)
    requires c in f && f[c].isContainer && f[x].parent.None? && f[x].kind.stackable
    requires CanAdd(f, depth, c, index, x, flags) && !flags.childIsOwner && !flags.ignoreAutoStack
    requires CylinderQueries.QueryDestination(f, c, index, x, flags).cylinder == c
    requires KeyOf(f[t]) == KeyOf(f[x]) && f[t].count + n <= StackSize(f[t].kind) && t in f[c].list
    ensures c in h && CanAdd(h, d, c, INDEX_WHEREEVER, rest, flags)
  {
    var list := f[c].list;
    RestMayEnter(f, depth, g, h, d, c, x, t, n, count, rest, flags);
    assert DownOk(f, c) && DownOk(h, c);
    RoomOnAfterMerge(f, h, list, x, rest, t, n);
    FirstTakerIs(h, list, rest, 0);
    if FirstTaker(h, list, rest, 0) == |list| {
      NoTakerNoRoom(h, list, rest);
      assert Times(StackSize(f[x].kind), 0) == 0;
    }
  }

  /** y is still there, where it was; only a stack of key in c may have another count, and only c another list. */
  ghost predicate Spared<R>(f: World<R>, r: World<R>, c: R, y: R, key: Key)
    requires y in f
  {
    && y in r && KeyOf(r[y]) == KeyOf(f[y]) && r[y].parent == f[y].parent
    && r[y].isContainer == f[y].isContainer && r[y].maxSize == f[y].maxSize
    && (y != c ==> r[y].list == f[y].list)
    && (KeyOf(f[y]) != key || f[y].parent != Some(c) ==> r[y].count == f[y].count) && r[y].count >= f[y].count
  }

  /** What a stack has after more pieces have been added, as many as it can hold. */
  function FilledTo(count: nat, more: nat, size: nat): nat {
    if count + more <= size then count + more else size
  }

  /** The list of c is as it was, or has one item more, in front. */
  ghost predicate ListGrows<R>(f: World<R>, r: World<R>, c: R) {
    c in f && c in r && (r[c].list == f[c].list || (r[c].list != [] && r[c].list[1..] == f[c].list))
  }

  /** A new item has been put into c only when the stacks of its kind there are full. */
  ghost predicate StackedFirst<R>(f: World<R>, r: World<R>, c: R, key: Key) {
    && c in f && c in r
    && (r[c].list != f[c].list ==>
          forall y {:trigger y in f[c].list} | y in f[c].list ::
            y in f && y in r && (f[y].kind == key.kind && f[y].attrs == key.attrs ==> r[y].count >= key.kind.stackSize))
  }

  /** y has come into c. */
  ghost predicate Newcomer<R>(f: World<R>, r: World<R>, c: R, y: R, key: Key)
    requires y in r
  {
    KeyOf(r[y]) == key && r[y].parent == Some(c) && (r[y].isContainer ==> y in f && f[y].isContainer)
  }

  /** Everything but x is spared, and what is new lies in c. */
  ghost predicate Spares<R>(f: World<R>, r: World<R>, c: R, x: R, key: Key) {
    && (forall y {:trigger Spared(f, r, c, y, key)} | y in f && y != x :: Spared(f, r, c, y, key))
    && (forall y {:trigger Newcomer(f, r, c, y, key)} | y in r && (y !in f || y == x) :: Newcomer(f, r, c, y, key))
    && ListGrows(f, r, c)
  }

  lemma MergeSpares<R>(f: World<R>, g: World<R>, r: World<R>, c: R, x: R, t: R, key: Key, n: nat)
    requires x in f && x != t && Merged(f, g, c, t, n) && f[t].parent == Some(c) && KeyOf(f[t]) == key && r == g - {x}
    requires c != x
    ensures Spares(f, r, c, x, key) && c in r && r[c].list == f[c].list
  {
    forall y {:trigger Spared(f, r, c, y, key)} | y in f && y != x
      ensures Spared(f, r, c, y, key)
    {
      assert y in g;
    }
  }

  lemma PutWholeSpares<R>(f: World<R>, r: World<R>, c: R, x: R, key: Key)
    requires PutWhole(f, r, c, x) && KeyOf(f[x]) == key
    ensures Spares(f, r, c, x, key)
  {
    forall y {:trigger Spared(f, r, c, y, key)} | y in f && y != x
      ensures Spared(f, r, c, y, key)
    {
      assert y in r;
    }
  }

  /** Two additions in a row, the second of the rest of the first. */
  lemma SparesBoth<R>(
      f: World<R>, k: World<R>, h: World<R>, r: World<R>, c: R, x: R, rest: R, key: Key, n: Node<R>, lost: nat)
    requires Spares(f, k, c, x, key) && x !in k && rest !in f && rest !in k && h == k[rest := n] && !n.isContainer
    requires x !in h && k[c].list == f[c].list
    requires if lost == 0 then Spares(h, r, c, rest, key) else r == h - {rest}
    ensures Spares(f, r, c, x, key)
  {
    forall y {:trigger Spared(f, r, c, y, key)} | y in f && y != x
      ensures Spared(f, r, c, y, key)
    {
      assert Spared(f, k, c, y, key) && h[y] == k[y];
      if lost == 0 {
        assert Spared(h, r, c, y, key);
      }
    }
    forall y {:trigger Newcomer(f, r, c, y, key)} | y in r && (y !in f || y == x)
      ensures Newcomer(f, r, c, y, key)
    {
      NewcomerOfBoth(f, k, h, r, c, x, rest, key, n, lost, y);
    }
  }

  lemma NewcomerOfBoth<R>(
      f: World<R>, k: World<R>, h: World<R>, r: World<R>, c: R, x: R, rest: R, key: Key, n: Node<R>, lost: nat, y: R)
    requires Spares(f, k, c, x, key) && rest !in f && rest !in k && h == k[rest := n] && !n.isContainer && x !in h
    requires if lost == 0 then Spares(h, r, c, rest, key) else r == h - {rest}
    requires y in r && (y !in f || y == x)
    ensures Newcomer(f, r, c, y, key)
  {
    if lost == 0 && (y !in h || y == rest) {
      assert Newcomer(h, r, c, y, key);
    } else {
      assert h[y] == k[y] && Newcomer(f, k, c, y, key);
      if lost == 0 {
        assert Spared(h, r, c, y, key);
      }
    }
  }

  lemma PutWholeAdds<R>(f: World<R>, r: World<R>, c: R, x: R, key: Key, m: nat)
    requires PutWhole(f, r, c, x) && key == KeyOf(f[x]) && m == f[x].count
    ensures Added(f, r, c, key, m, 0)
  {
    forall q: Quantity {:trigger AddedOf(f, r, c, key, m, 0, q)}
      ensures AddedOf(f, r, c, key, m, 0, q)
    {
      assert Carried(f, r, c, x, 1, q);
    }
  }

  lemma MergeAdds<R>(f: World<R>, g: World<R>, r: World<R>, c: R, x: R, t: R, key: Key, n: nat, lost: nat)
    requires Linked(g) && x in f && x != t && Merged(f, g, c, t, n) && KeyOf(f[t]) == KeyOf(f[x]) == key
    requires f[x].count == n + lost && x in g && g[x].parent.None? && g[x].list == [] && r == g - {x}
    ensures Added(f, r, c, key, n, lost)
  {
    forall q: Quantity {:trigger AddedOf(f, r, c, key, n, lost, q)}
      ensures AddedOf(f, r, c, key, n, lost, q)
    {
      assert Flow(f, g, c, key, n, q);
      DropMoves(g, x, q);
      TimesSplit(q(key), f[x].count, n, lost);
    }
  }

  lemma SplitAdds<R>(
      f: World<R>, k: World<R>, h: World<R>, r: World<R>, c: R, rest: R, key: Key, n: nat, count: nat, all: nat)
    requires Linked(k) && Added(f, k, c, key, n, count) && Added(h, r, c, key, count, 0) && all == n + count
    requires rest !in k && h == k[rest := Node(key.kind, key.attrs, count, None, false, 0, [], 0)]
    requires forall y | y in r && y in f :: y in h && y in k
    ensures Added(f, r, c, key, all, 0)
  {
    forall q: Quantity {:trigger AddedOf(f, r, c, key, all, 0, q)}
      ensures AddedOf(f, r, c, key, all, 0, q)
    {
      assert AddedOf(f, k, c, key, n, count, q) && AddedOf(h, r, c, key, count, 0, q);
      BornMoves(k, rest, h[rest], q);
      TimesSplit(q(key), all, n, count);
      forall y {:trigger Direct(r, y, q)} | y in r && y in f
        ensures Direct(r, y, q) == Direct(f, y, q) + if y == c then Times(q(key), all) else 0
      {
        assert Direct(r, y, q) == Direct(h, y, q) + if y == c then Times(q(key), count) else 0;
        assert Direct(h, y, q) == Direct(k, y, q);
        assert Direct(k, y, q) == Direct(f, y, q) + if y == c then Times(q(key), n) else 0;
      }
    }
  }

  lemma SplitEnds<R>(
      f: World<R>, k: World<R>, h: World<R>, r: World<R>, c: R, rest: R, key: Key,
      n: nat, count: nat, all: nat, kept: nat, lost: nat)
    requires Linked(k) && Added(f, k, c, key, n, count) && all == n + count && kept + lost == all
    requires rest !in k && h == k[rest := Node(key.kind, key.attrs, count, None, false, 0, [], 0)]
    requires lost == 0 || lost == count
    requires lost == 0 ==> Added(h, r, c, key, count, 0) && forall y | y in r && y in f :: y in h && y in k
    requires lost != 0 ==> r == h - {rest}
    ensures Added(f, r, c, key, kept, lost)
  {
    if lost == 0 {
      SplitAdds(f, k, h, r, c, rest, key, n, count, kept);
    } else {
      assert r == k;
    }
  }

  /** Splitting a new stack and adding the rest is adding the stack. */
  lemma RestEnds<R>(
      f: World<R>, k: World<R>, h: World<R>, r: World<R>, c: R, x: R, rest: R, n: nat, count: nat, kept: nat, lost: nat)
    requires RestOf(f, k, h, c, x, rest, n, count) && kept + lost == n + count && (lost == 0 || lost == count)
    requires lost == 0 ==>
               && Added(h, r, c, KeyOf(f[x]), count, 0) && Spares(h, r, c, rest, KeyOf(f[x]))
               && forall y | y in r && y in f :: y in h
    requires lost != 0 ==> r == h - {rest}
    ensures Added(f, r, c, KeyOf(f[x]), kept, lost) && Spares(f, r, c, x, KeyOf(f[x]))
    ensures forall y {:trigger k[y]} | y in k :: y in r && r[y].count >= k[y].count
  {
    SplitEnds(f, k, h, r, c, rest, KeyOf(f[x]), n, count, n + count, kept, lost);
    SparesBoth(f, k, h, r, c, x, rest, KeyOf(f[x]), h[rest], lost);
    CountsStay(k, h, r, c, rest, KeyOf(f[x]), lost);
  }

  lemma CountsStay<R>(k: World<R>, h: World<R>, r: World<R>, c: R, rest: R, key: Key, lost: nat)
    requires rest !in k && rest in h && h == k[rest := h[rest]]
    requires if lost == 0 then Spares(h, r, c, rest, key) else r == h - {rest}
    ensures forall y {:trigger k[y]} | y in k :: y in r && r[y].count >= k[y].count
  {
    forall y {:trigger k[y]} | y in k
      ensures y in r && r[y].count >= k[y].count
    {
      if lost == 0 {
        assert Spared(h, r, c, y, key);
      }
    }
  }

  /** What stays full after the rest of a split stack has been added. */
  lemma RestStacksFirst<R>(
      f: World<R>, k: World<R>, h: World<R>, r: World<R>, c: R, x: R, rest: R, n: nat, count: nat)
    requires RestOf(f, k, h, c, x, rest, n, count) && StackedFirst(h, r, c, KeyOf(f[x])) && x !in f[c].list
    ensures StackedFirst(f, r, c, KeyOf(f[x]))
  {
    if r[c].list != f[c].list {
      forall y {:trigger y in f[c].list} | y in f[c].list
        ensures y in f && y in r
        ensures f[y].kind == f[x].kind && f[y].attrs == f[x].attrs ==> r[y].count >= f[x].kind.stackSize
      {
        assert DownOk(k, c) && y in h[c].list;
        assert Spared(f, k, c, y, KeyOf(f[x]));
        assert h[y] == k[y];
      }
    }
  }

  /** When no stack takes it, the new item goes in as it is. */
  lemma PutWholeStacksFirst<R>(
      f: World<R>, depth: map<R, nat>, r: World<R>, c: R, asked: int, x: R, flags: Flags, at: int, t: Option<R>)
    requires WellFormed(f, depth) && PutWhole(f, r, c, x) && StandsAt(f, c, asked, x, flags, at, t)
    requires t.Some? && t.value in f ==> !Mergeable(f, t.value, x)
    requires f[x].kind.stackable && !flags.ignoreAutoStack && f[x].parent != Some(c) && asked != 254
    ensures StackedFirst(f, r, c, KeyOf(f[x]))
  {
    assert DownOk(f, c);
    forall y {:trigger y in f[c].list} | y in f[c].list
      ensures y in f && y in r
      ensures f[y].kind == f[x].kind && f[y].attrs == f[x].attrs ==> r[y].count >= f[x].kind.stackSize
    {
      var k :| 0 <= k < |f[c].list| && f[c].list[k] == y;
      assert !Mergeable(f, f[c].list[k], x);
    }
  }

  /** What internalAddItem may rely on about the answer of queryDestination. */
  lemma DestinationFacts<R>(f: World<R>, c: R, index: int, x: R, flags: Flags, cylinder: R, at: int, t: Option<R>)
    requires Linked(f) && c in f && x in f && f[c].isContainer
    requires CylinderQueries.QueryDestination(f, c, index, x, flags) == Destination(cylinder, at, t)
    ensures cylinder in f && f[cylinder].isContainer && cylinder == Slot(f, c, index).cylinder
    ensures t.Some? ==> cylinder == c && t.value in f && t.value in f[c].list
    ensures at < f[cylinder].maxSize || (t.Some? && f[x].kind.stackable && Takes(f, t.value, x))
  {
    SlotIsContainer(f, c, index);
    assert DownOk(f, c);
    FirstTakerIs(f, f[c].list, x, 0);
  }

  /** When the stack that was found takes nothing, it is the one that index named. */
  lemma SlotIndex<R>(f: World<R>, c: R, index: int, x: R, flags: Flags, t: R)
    requires Linked(f) && c in f && x in f && f[c].isContainer && t in f && !Takes(f, t, x)
    requires CylinderQueries.QueryDestination(f, c, index, x, flags).item == Some(t)
    ensures CylinderQueries.QueryDestination(f, c, index, x, flags).index < f[c].maxSize
  {
    assert DownOk(f, c);
    FirstTakerIs(f, f[c].list, x, 0);
  }

  function Traded(items: set<Item>, tradeItem: Item?): Option<Item> {
    if tradeItem != null && tradeItem in items then Some(tradeItem) else None
  }

  /** The first objection to moving x, in the order in which internalMoveItem raises them. */
  ghost function MoveVerdict<R>(
      f: World<R>, depth: map<R, nat>, from: R, c: R, index: int, x: R, count: nat, flags: Flags,
      trade: Option<R>): ReturnValue
    requires Linked(f) && Acyclic(f, depth) && from in f && c in f && x in f
  {
    var max := MaxCount(f, depth, c, index, x, count, flags);
    var m := if f[x].kind.stackable && count < max then count else max;
    var add := CylinderQueries.QueryAdd(f, depth, c, index, x, flags);
    if add != NoError then add
    else if !flags.noLimit && max == 0 && (f[x].kind.stackable ==> count > 0) then ContainerNotEnoughRoom
    else if CylinderQueries.QueryRemove(f, from, x, m, flags) != NoError then
      CylinderQueries.QueryRemove(f, from, x, m, flags)
    else if trade.Some? && Under(f, depth, c, trade.value) then NotEnoughRoom
    else NoError
  }

  /** How many of count pieces of x fit into c at a position; without limits all of them. */
  ghost function Takeable<R>(f: World<R>, c: R, at: int, x: R, count: nat, flags: Flags): int
    requires c in f && x in f && forall y | y in f[c].list :: y in f
  {
    if flags.noLimit || count < Capacity(f, c, at, x) then count else Capacity(f, c, at, x)
  }

  /**
   What a move needs: x may be carried and moved and is listed in from, c is neither x nor inside it nor inside what is
   traded, there is a slot for it when it has no position, and at least one piece fits and is there.
   */
  ghost predicate Movable<R>(
      f: World<R>, depth: map<R, nat>, from: R, c: R, at: int, x: R, count: nat, flags: Flags, trade: Option<R>)
    requires Linked(f) && Acyclic(f, depth) && from in f && c in f && x in f
  {
    assert DownOk(f, c);
    && f[x].kind.pickupable && !Under(f, depth, c, x) && (flags.noLimit || at != -1 || |f[c].list| < f[c].maxSize)
    && x in f[from].list && (f[x].kind.moveable || flags.ignoreNotMoveable)
    && (if f[x].kind.stackable then 1 <= Takeable(f, c, at, x, count, flags) <= f[x].count
        else flags.noLimit || Capacity(f, c, at, x) >= 1)
    && (trade.Some? ==> trade.value in f ==> !Under(f, depth, c, trade.value))
  }

  lemma VerdictIs<R>(
      f: World<R>, depth: map<R, nat>, from: R, c: R, at: int, x: R, count: nat, flags: Flags, trade: Option<R>)
    requires WellFormed(f, depth) && from in f && c in f && x in f && !flags.childIsOwner
    requires trade.Some? ==> trade.value in f
    ensures forall y | y in f[c].list :: y in f
    ensures MoveVerdict(f, depth, from, c, at, x, count, flags, trade) == NoError <==>
            Movable(f, depth, from, c, at, x, count, flags, trade)
    ensures f[x].kind.pickupable && !Under(f, depth, c, x) && f[x].kind.stackable && count >= 1 ==>
              Takeable(f, c, at, x, count, flags)
              == var max := MaxCount(f, depth, c, at, x, count, flags); if count < max then count else max
  {
    assert DownOk(f, c);
    QueryAddIs(f, depth, c, at, x, flags);
    if f[x].kind.pickupable && !Under(f, depth, c, x) {
      MaxCountIs(f, depth, c, at, x, count, flags);
      var max := MaxCount(f, depth, c, at, x, count, flags);
      QueryRemoveIs(f, from, x, if f[x].kind.stackable && count < max then count else max, flags);
    }
  }

  /** There is no slot for an item without a position, or not one more piece fits. */
  ghost predicate Full<R>(f: World<R>, c: R, at: int, x: R, count: nat)
    requires c in f && x in f && forall y | y in f[c].list :: y in f
  {
    || (at == -1 && |f[c].list| >= f[c].maxSize)
    || (Capacity(f, c, at, x) == 0 && (f[x].kind.stackable ==> count > 0))
  }

  /** Of several objections to a move the first in this order is answered. */
  lemma FirstObjection<R>(
      f: World<R>, depth: map<R, nat>, from: R, c: R, at: int, x: R, count: nat, flags: Flags, trade: Option<R>)
    requires WellFormed(f, depth) && from in f && c in f && x in f && !flags.childIsOwner
    requires trade.Some? ==> trade.value in f
    ensures forall y | y in f[c].list :: y in f
    ensures MoveVerdict(f, depth, from, c, at, x, count, flags, trade)
         == if !f[x].kind.pickupable then CannotPickup
            else if Under(f, depth, c, x) then ThisIsImpossible
            else if !flags.noLimit && Full(f, c, at, x, count) then ContainerNotEnoughRoom
            else if x !in f[from].list then NotPossible
            else if f[x].kind.stackable && !(1 <= Takeable(f, c, at, x, count, flags) <= f[x].count) then NotPossible
            else if !f[x].kind.moveable && !flags.ignoreNotMoveable then NotMoveable
            else if trade.Some? && Under(f, depth, c, trade.value) then NotEnoughRoom
            else NoError
  {
    assert DownOk(f, c);
    QueryAddIs(f, depth, c, at, x, flags);
    if f[x].kind.pickupable && !Under(f, depth, c, x) {
      MaxCountIs(f, depth, c, at, x, count, flags);
    }
  }

  /** All questions are answered: m pieces of x may go from from to c. */
  ghost predicate MayMove<R>(
      f: World<R>, depth: map<R, nat>, from: R, c: R, index: int, x: R, count: nat, flags: Flags, t: Option<R>, m: nat)
    requires Linked(f) && Acyclic(f, depth) && from in f && c in f && x in f
  {
    && Landed(f, c, index, x, flags, t) && !flags.childIsOwner
    && CylinderQueries.QueryAdd(f, depth, c, index, x, flags) == NoError
    && m <= MaxCount(f, depth, c, index, x, count, flags) && m >= 1
    && (if f[x].kind.stackable then m <= f[x].count else m == MaxCount(f, depth, c, index, x, count, flags))
    && x in f[from].list
  }
}
