/** Containers and items as objects: the mutators of src/container.cpp. */
module Containers {
  import opened ItemTypes
  import opened Forest
  import opened CylinderQueries

  /**
   An Item with its Container part; an item that is no container keeps an empty list.
   S is the set of all items, depth the distance from the root that proves there is no cycle.
   */
  class Item {
    var kind: ItemType
    var attrs: AttrMap
    var count: nat
    var parent: Item?
    const isContainer: bool
    const maxSize: nat
    var itemlist: seq<Item>
    var totalWeight: int

    constructor (kind: ItemType, attrs: AttrMap, count: nat, isContainer: bool, maxSize: nat)
      ensures State() == Node(kind, attrs, count, None, isContainer, maxSize, [], 0)
    {
      this.kind, this.attrs, this.count := kind, attrs, count;
      this.isContainer, this.maxSize := isContainer, maxSize;
      parent, itemlist, totalWeight := null, [], 0;
    }

    ghost function State(): Node<Item>
      reads this
    {
      Node(kind, attrs, count, Ref(parent), isContainer, maxSize, itemlist, totalWeight)
    }

    /** Container::getWeight and Item::getWeight */
    function GetWeight(): (w: int)
      reads this
      ensures w == Weight(State())
    {
      (if kind.stackable then Times(BaseWeight(kind, attrs), if count < 1 then 1 else count)
       else BaseWeight(kind, attrs)) + totalWeight
    }

    /** Item::equals, on the attribute map that Attributes.Equals is proved to compare. */
    predicate Equals(other: Item?)
      reads this, other
    {
      other != null && kind == other.kind && attrs == other.attrs
    }

    method GetThingIndex(thing: Item) returns (index: int)
      ensures index == -1 <==> thing !in itemlist
      ensures index != -1 ==> 0 <= index < |itemlist| && itemlist[index] == thing
    {
      index := 0;
      while index < |itemlist|
        invariant 0 <= index <= |itemlist|
        invariant thing !in itemlist[..index]
      {
        if itemlist[index] == thing {
          return;
        }
        index := index + 1;
      }
      index := -1;
    }

    // ----- queries -----

    /**
     Item::getTopParent, for items that lie in containers only: the ancestor right below the root. Of an item that
     lies in the root itself that is the item if it is a container, and else the root.
     */
    method GetTopParent(ghost S: set<Item>, ghost depth: map<Item, nat>) returns (top: Item?)
      requires this in S && Linked(Snap(S)) && Acyclic(Snap(S), depth)
      ensures top != null && top != this ==> top in S && top.isContainer
      ensures parent == null ==> top == if isContainer then this else null
      ensures parent != null && parent.parent == null ==> top == if isContainer then this else parent
      ensures parent != null && parent.parent != null ==>
                && top != null && top in S && Under(Snap(S), depth, this, top) && top != this
                && top.parent != null && top.parent.parent == null
    {
      ghost var f := Snap(S);
      var aux := parent;
      top := if isContainer then this else null;
      if aux == null {
        return;
      }
      assert Below(f, depth, this);
      assert Under(f, depth, aux, aux) && Under(f, depth, this, aux);
      assert UpOk(f, this) && DownOk(f, aux);
      while aux.parent != null
        invariant aux in S && Under(f, depth, this, aux) && depth[aux] < depth[this]
        invariant parent in S && depth[aux] <= depth[parent] && aux.isContainer
        invariant top != null && top != this ==> top.isContainer
        invariant aux != parent ==>
                    top != null && top in S && top.parent == aux && Under(f, depth, this, top) && top != this
        invariant aux == parent ==> top == if isContainer then this else null
        decreases depth[aux]
      {
        assert Below(f, depth, aux) && UpOk(f, aux) && DownOk(f, aux.parent);
        UnderParent(f, depth, this, aux);
        top := aux;
        aux := aux.parent;
      }
      if top == null {
        top := aux;
      }
    }

    method QueryAdd(index: int, thing: Item, flags: Flags, ghost S: set<Item>, ghost depth: map<Item, nat>)
      returns (ret: ReturnValue)
      requires this in S && isContainer && thing in S && Linked(Snap(S)) && Acyclic(Snap(S), depth)
      ensures ret == CylinderQueries.QueryAdd(Snap(S), depth, this, index, thing, flags)
      decreases !flags.childIsOwner
    {
      ghost var f := Snap(S);
      if flags.childIsOwner {
        return NoError;
      }
      if !thing.kind.pickupable {
        return CannotPickup;
      }
      if thing == this {
        return ThisIsImpossible;
      }
      assert Below(f, depth, this);
      var cylinder := parent;
      while cylinder != null
        invariant cylinder != null ==>
                    cylinder in S && Under(f, depth, this, thing) == Under(f, depth, cylinder, thing)
        invariant cylinder == null ==> !Under(f, depth, this, thing)
        decreases if cylinder == null then 0 else depth[cylinder] + 1
      {
        assert Below(f, depth, cylinder);
        if cylinder == thing {
          return ThisIsImpossible;
        }
        cylinder := cylinder.parent;
      }
      if !flags.noLimit && index == INDEX_WHEREEVER && |itemlist| >= maxSize {
        return ContainerNotEnoughRoom;
      }
      var topParent := GetTopParent(S, depth);
      if topParent != this {
        ret := topParent.QueryAdd(INDEX_WHEREEVER, thing, flags.(childIsOwner := true), S, depth);
      } else {
        ret := NoError;
      }
    }

    method QueryMaxCount(
        index: int, thing: Item, count: nat, flags: Flags, ghost S: set<Item>, ghost depth: map<Item, nat>)
      returns (ret: ReturnValue, maxQueryCount: nat)
      requires this in S && isContainer && thing in S && WellFormed(Snap(S), depth)
      ensures ret == CylinderQueries.QueryMaxCount(Snap(S), depth, this, index, thing, count, flags)
      ensures maxQueryCount == MaxCount(Snap(S), depth, this, index, thing, count, flags)
    {
      ghost var f := Snap(S);
      assert DownOk(f, this);
      if flags.noLimit {
        return NoError, if count < 1 then 1 else count;
      }
      var freeSlots := if maxSize < |itemlist| then 0 else maxSize - |itemlist|;
      if thing.kind.stackable {
        var n := RoomAt(index, thing, flags, S, depth);
        var inFreeSlots := Product(freeSlots, StackSize(thing.kind));
        maxQueryCount := inFreeSlots + n;
        ret := if maxQueryCount < count then ContainerNotEnoughRoom else NoError;
      } else {
        maxQueryCount := freeSlots;
        ret := if maxQueryCount == 0 then ContainerNotEnoughRoom else NoError;
      }
    }

    /** The part of queryMaxCount that looks at stacks. */
    method RoomAt(index: int, thing: Item, flags: Flags, ghost S: set<Item>, ghost depth: map<Item, nat>)
      returns (n: nat)
      requires this in S && isContainer && thing in S && WellFormed(Snap(S), depth)
      ensures n == StackRoom(Snap(S), depth, this, index, thing, flags)
    {
      assert DownOk(Snap(S), this);
      n := 0;
      if index == INDEX_WHEREEVER {
        n := RoomOnStacks(thing, flags, S, depth);
      } else if 0 <= index < |itemlist| {
        var destItem := itemlist[index];
        assert destItem in Snap(S)[this].list;
        if thing.Equals(destItem) && destItem.count < StackSize(destItem.kind) {
          var q := QueryAdd(index, thing, flags, S, depth);
          if q == NoError {
            n := StackSize(destItem.kind) - destItem.count;
          }
        }
      }
    }

    /** The loop of queryMaxCount over all stacks. */
    method RoomOnStacks(thing: Item, flags: Flags, ghost S: set<Item>, ghost depth: map<Item, nat>)
      returns (n: nat)
      requires this in S && isContainer && thing in S && WellFormed(Snap(S), depth)
      ensures n == StackRoom(Snap(S), depth, this, INDEX_WHEREEVER, thing, flags)
    {
      ghost var f := Snap(S);
      assert DownOk(f, this);
      n := 0;
      var slotIndex := 0;
      for i := 0 to |itemlist|
        invariant slotIndex >= 0
        invariant n == if CylinderQueries.QueryAdd(f, depth, this, 0, thing, flags) == NoError
                       then RoomOn(f, itemlist[..i], thing) else 0
      {
        var containerItem := itemlist[i];
        assert containerItem in f[this].list;
        assert itemlist[..i + 1][..i] == itemlist[..i];
        if containerItem != thing && containerItem.Equals(thing)
           && containerItem.count < StackSize(containerItem.kind) {
          var q := QueryAdd(slotIndex, thing, flags, S, depth);
          slotIndex := slotIndex + 1;
          if q == NoError {
            n := n + (StackSize(containerItem.kind) - containerItem.count);
          }
        }
      }
      assert itemlist[..|itemlist|] == itemlist;
    }

    method QueryRemove(thing: Item, count: nat, flags: Flags, ghost S: set<Item>) returns (ret: ReturnValue)
      requires this in S && thing in S
      ensures ret == CylinderQueries.QueryRemove(Snap(S), this, thing, count, flags)
    {
      var index := GetThingIndex(thing);
      if index == -1 {
        return NotPossible;
      }
      if count == 0 || (thing.kind.stackable && count > thing.count) {
        return NotPossible;
      }
      if !thing.kind.moveable && !flags.ignoreNotMoveable {
        return NotMoveable;
      }
      ret := NoError;
    }

    method QueryDestination(index: int, thing: Item, flags: Flags, ghost S: set<Item>)
      returns (cylinder: Item, newIndex: int, destItem: Item?)
      requires this in S && thing in S && Linked(Snap(S))
      ensures CylinderQueries.QueryDestination<Item>(Snap(S), this, index, thing, flags)
           == Destination(cylinder, newIndex, Ref(destItem))
    {
      ghost var f := Snap(S);
      assert DownOk(f, this) && UpOk(f, this);
      newIndex, destItem := index, null;
      if index == 254 {
        return if parent != null then parent else this, INDEX_WHEREEVER, null;
      }
      if index == 255 || index >= maxSize {
        newIndex := INDEX_WHEREEVER;
      }
      if newIndex != INDEX_WHEREEVER {
        if 0 <= newIndex < |itemlist| {
          destItem := itemlist[newIndex];
          assert destItem in f[this].list;
        }
        if destItem != null && destItem.isContainer {
          return destItem, INDEX_WHEREEVER, null;
        }
      }
      cylinder := this;
      if !flags.ignoreAutoStack && thing.kind.stackable && thing.parent != this {
        if destItem != null && destItem.Equals(thing) && destItem.count < StackSize(destItem.kind) {
          return;
        }
        var n := FindStack(thing, S);
        if n < |itemlist| {
          destItem := itemlist[n];
          newIndex := n;
        }
      }
    }

    /** The loop of queryDestination that looks for a stack; |itemlist| when there is none. */
    method FindStack(thing: Item, ghost S: set<Item>) returns (n: nat)
      requires this in S && thing in S && DownOk(Snap(S), this)
      ensures n <= |itemlist| && (forall y | y in itemlist :: y in S)
              && n == FirstTaker<Item>(Snap(S), itemlist, thing, 0)
    {
      n := 0;
      assert forall y | y in itemlist :: y in Snap(S)[this].list;
      while n < |itemlist|
        invariant 0 <= n <= |itemlist|
        invariant FirstTaker<Item>(Snap(S), itemlist, thing, 0) == FirstTaker<Item>(Snap(S), itemlist, thing, n)
      {
        var listItem := itemlist[n];
        assert listItem in Snap(S)[this].list;
        if listItem != thing && listItem.Equals(thing) && listItem.count < StackSize(listItem.kind) {
          return;
        }
        n := n + 1;
      }
    }

    // ----- mutators -----

    method UpdateItemWeight(diff: int, ghost S: set<Item>, ghost depth: map<Item, nat>)
      requires this in S && Acyclic(Snap(S), depth)
      modifies S`totalWeight
      ensures Snap(S) == Reweigh(old(Snap(S)), depth, this, diff)
      decreases depth[this]
    {
      ghost var f := Snap(S);
      totalWeight := totalWeight + diff;
      assert Snap(S) == Shifted(f, this, diff);
      SameParents(f, Snap(S), depth);
      assert Below(f, depth, this);
      if parent != null {
        parent.UpdateItemWeight(diff, S, depth);
      }
    }

    method AddThing(index: int, thing: Item, ghost S: set<Item>, ghost depth: map<Item, nat>)
      returns (ghost deeper: map<Item, nat>)
      requires this in S && CanAttach(Snap(S), depth, this, thing)
      modifies S
      ensures index >= maxSize ==> Snap(S) == old(Snap(S)) && deeper == depth
      ensures index < maxSize ==>
                && Snap(S) == Attach(old(Snap(S)), depth, this, thing, [thing] + old(itemlist))
                && deeper == Deepened(old(Snap(S)), depth, this, thing)
    {
      if index >= maxSize {
        return depth;
      }
      deeper := InternalAddThing(thing, S, depth);
    }

    method InternalAddThing(thing: Item, ghost S: set<Item>, ghost depth: map<Item, nat>)
      returns (ghost deeper: map<Item, nat>)
      requires this in S && CanAttach(Snap(S), depth, this, thing)
      modifies S
      ensures Snap(S) == Attach(old(Snap(S)), depth, this, thing, [thing] + old(itemlist))
      ensures deeper == Deepened(old(Snap(S)), depth, this, thing)
    {
      ghost var f := Snap(S);
      ghost var list := [thing] + itemlist;
      deeper := Deepened(f, depth, this, thing);
      LinkingIsAcyclic(f, depth, this, thing, list);
      thing.parent := this;
      itemlist := [thing] + itemlist;
      ghost var h := Snap(S);
      ChangedAt(f, h, thing, this);
      assert h == Linking(f, this, thing, list);
      assert thing.GetWeight() == Weight(f[thing]);
      UpdateItemWeight(thing.GetWeight(), S, deeper);
      assert Snap(S) == Reweigh(h, deeper, this, Weight(f[thing]));
      assert Snap(S) == Attach(f, depth, this, thing, list);
    }

    method AddItemBack(thing: Item, ghost S: set<Item>, ghost depth: map<Item, nat>)
      returns (ghost deeper: map<Item, nat>)
      requires this in S && CanAttach(Snap(S), depth, this, thing)
      modifies S
      ensures Snap(S) == Attach(old(Snap(S)), depth, this, thing, old(itemlist) + [thing])
      ensures deeper == Deepened(old(Snap(S)), depth, this, thing)
    {
      ghost var f := Snap(S);
      ghost var list := itemlist + [thing];
      deeper := Deepened(f, depth, this, thing);
      LinkingIsAcyclic(f, depth, this, thing, list);
      itemlist := itemlist + [thing];
      thing.parent := this;
      ghost var h := Snap(S);
      ChangedAt(f, h, thing, this);
      assert h == Linking(f, this, thing, list);
      assert thing.GetWeight() == Weight(f[thing]);
      UpdateItemWeight(thing.GetWeight(), S, deeper);
      assert Snap(S) == Reweigh(h, deeper, this, Weight(f[thing]));
      assert Snap(S) == Attach(f, depth, this, thing, list);
    }

    method UpdateThing(thing: Item, newKind: ItemType, newCount: nat, ghost S: set<Item>, ghost depth: map<Item, nat>)
      requires this in S && Linked(Snap(S)) && Acyclic(Snap(S), depth)
      modifies S
      ensures thing !in old(itemlist) ==> Snap(S) == old(Snap(S))
      ensures thing in old(itemlist) ==>
                && thing in S
                && Snap(S) == Recount(old(Snap(S)), depth, this, thing, newKind, newCount % 256)
    {
      ghost var f := Snap(S);
      var index := GetThingIndex(thing);
      if index == -1 {
        return;
      }
      assert DownOk(f, this);
      var oldWeight := thing.GetWeight();
      thing.kind := newKind;
      thing.count := newCount % 256;
      ghost var h := Snap(S);
      OneChanged(f, h, thing);
      assert h == Restacked(f, thing, newKind, newCount % 256);
      SameParents(f, h, depth);
      var diff := -oldWeight + thing.GetWeight();
      assert diff == OwnWeight(f[thing].(kind := newKind, count := newCount % 256)) - OwnWeight(f[thing]);
      assert Recount(f, depth, this, thing, newKind, newCount % 256) == Reweigh(h, depth, this, diff);
      UpdateItemWeight(diff, S, depth);
      assert Snap(S) == Reweigh(h, depth, this, diff);
    }

    /** The branch of removeThing that takes part of a stack. */
    method TakePart(thing: Item, newCount: nat, ghost S: set<Item>, ghost depth: map<Item, nat>)
      requires this in S && thing in S && thing.parent == this && Linked(Snap(S)) && Acyclic(Snap(S), depth)
      modifies S
      ensures Snap(S) == Recount(old(Snap(S)), depth, this, thing, old(thing.kind), newCount)
    {
      ghost var f := Snap(S);
      var oldWeight := thing.GetWeight();
      thing.count := newCount;
      ghost var h := Snap(S);
      OneChanged(f, h, thing);
      assert h == Restacked(f, thing, thing.kind, newCount);
      SameParents(f, h, depth);
      var diff := -oldWeight + thing.GetWeight();
      assert diff == OwnWeight(f[thing].(kind := thing.kind, count := newCount)) - OwnWeight(f[thing]);
      assert Recount(f, depth, this, thing, thing.kind, newCount) == Reweigh(h, depth, this, diff);
      UpdateItemWeight(diff, S, depth);
      assert Snap(S) == Reweigh(h, depth, this, diff);
    }

    /** The branch of removeThing that takes a whole item. */
    method TakeWhole(thing: Item, index: nat, ghost S: set<Item>, ghost depth: map<Item, nat>)
      requires this in S && Linked(Snap(S)) && Acyclic(Snap(S), depth) && ListedAt(Snap(S), this, thing, index)
      modifies S
      ensures Snap(S) == Detach(old(Snap(S)), depth, this, thing, index)
    {
      ghost var f: World<Item> := Snap(S);
      assert this != thing by { assert Below(f, depth, thing); }
      var weight := thing.GetWeight();
      ReduceWeight(weight, S, depth);
      ghost var g: World<Item> := Snap(S);
      Unlink(thing, index, S);
      DetachInCodeOrder(f, g, Snap(S), depth, this, thing, index);
    }

    method ReduceWeight(weight: int, ghost S: set<Item>, ghost depth: map<Item, nat>)
      requires this in S && Acyclic(Snap(S), depth)
      modifies S`totalWeight
      ensures Snap(S) == Reweigh(old(Snap(S)), depth, this, -weight) && SameButTotals(old(Snap(S)), Snap(S))
    {
      ReweighShape<Item>(Snap(S), depth, this, -weight);
      UpdateItemWeight(-weight, S, depth);
    }

    /** The last two lines of removeThing. */
    method Unlink(thing: Item, index: nat, ghost S: set<Item>)
      requires this in S && thing in S && this != thing && index < |itemlist|
      modifies S
      ensures Snap(S) == Unlinked(old(Snap(S)), this, thing, Erase(old(itemlist), index))
    {
      ghost var g: World<Item> := Snap(S);
      thing.parent := null;
      itemlist := Erase(itemlist, index);
      ChangedAt(g, Snap(S), thing, this);
    }

    method RemoveThing(thing: Item, amount: nat, ghost S: set<Item>, ghost depth: map<Item, nat>)
      requires this in S && Linked(Snap(S)) && Acyclic(Snap(S), depth)
      modifies S
      ensures thing !in old(itemlist) ==> Snap(S) == old(Snap(S))
      ensures thing in old(itemlist) && old(thing.kind.stackable && amount != thing.count) ==>
                && thing in S
                && Snap(S) == Recount(old(Snap(S)), depth, this, thing, old(thing.kind),
                                      (if old(thing.count) < amount then 0 else old(thing.count) - amount) % 256)
      ensures thing in old(itemlist) && !old(thing.kind.stackable && amount != thing.count) ==>
                exists i :: ListedAt(old(Snap(S)), this, thing, i)
                         && Snap(S) == Detach(old(Snap(S)), depth, this, thing, i)
    {
      var index := GetThingIndex(thing);
      if index == -1 {
        return;
      }
      assert DownOk(Snap(S), this);
      assert thing in Snap(S)[this].list;
      if thing.kind.stackable && amount != thing.count {
        TakePart(thing, (if thing.count < amount then 0 else thing.count - amount) % 256, S, depth);
      } else {
        assert ListedAt(Snap(S), this, thing, index);
        TakeWhole(thing, index, S, depth);
      }
    }

    method ReplaceThing(index: nat, thing: Item, ghost S: set<Item>, ghost depth: map<Item, nat>)
      returns (ghost deeper: map<Item, nat>)
      requires this in S && CanAttach(Snap(S), depth, this, thing)
      modifies S
      ensures index >= |old(itemlist)| ==> Snap(S) == old(Snap(S)) && deeper == depth
      ensures index < |old(itemlist)| ==>
                && Snap(S) == Replace(old(Snap(S)), depth, this, index, thing)
                && deeper == Deepened(old(Snap(S)), depth, this, thing)
    {
      ghost var f := Snap(S);
      if index >= |itemlist| {
        return depth;
      }
      SwappingIsLinked(f, depth, this, index, thing);
      deeper := Deepened(f, depth, this, thing);
      var replacedItem := itemlist[index];
      itemlist := itemlist[index := thing];
      thing.parent := this;
      ghost var h := Snap(S);
      ChangedAt(f, h, thing, this);
      assert h == Linking(f, this, thing, itemlist);
      LinkingIsAcyclic(f, depth, this, thing, itemlist);
      var diff := -replacedItem.GetWeight() + thing.GetWeight();
      assert diff == Weight(f[thing]) - Weight(f[replacedItem]);
      UpdateItemWeight(diff, S, deeper);
      ghost var g := Snap(S);
      assert g == Reweigh(h, deeper, this, diff);
      ReweighShape(h, deeper, this, diff);
      replacedItem.parent := null;
      ghost var r := Snap(S);
      OneChanged(g, r, replacedItem);
      assert r[replacedItem] == g[replacedItem].(parent := None);
      ReplaceInCodeOrder(f, h, g, r, depth, this, index, thing, replacedItem, deeper, diff);
    }
  }

  /** What lies in x lies in everything x lies in. */
  lemma {:induction false} UnderParent(f: World<Item>, depth: map<Item, nat>, y: Item, x: Item)
    requires Acyclic(f, depth) && y in f && x in f && f[x].parent.Some? && Under(f, depth, y, x)
    ensures Under(f, depth, y, f[x].parent.value)
    decreases depth[y]
  {
    assert Below(f, depth, y) && Below(f, depth, x);
    if y != x {
      UnderParent(f, depth, f[y].parent.value, x);
    } else {
      assert Under(f, depth, f[x].parent.value, f[x].parent.value);
    }
  }

  method Product(n: nat, u: nat) returns (p: nat)
    ensures p == Times(u, n)
  {
    TimesIsProduct(u, n);
    p := n * u;
  }

  function Ref(p: Item?): Option<Item> {
    if p == null then None else Some(p)
  }

  /** The forest formed by the items in S. */
  ghost function Snap(S: set<Item>): World<Item>
    reads S
  {
    map x | x in S :: x.State()
  }

  /** When only a and b have changed, the forest has changed at a and b. */
  lemma ChangedAt(f: World<Item>, g: World<Item>, a: Item, b: Item)
    requires a in f && b in f && f.Keys == g.Keys
    requires forall x | x in f && x != a && x != b :: f[x] == g[x]
    ensures g == f[a := g[a]][b := g[b]]
  {
  }

  lemma OneChanged(f: World<Item>, g: World<Item>, a: Item)
    requires a in f && f.Keys == g.Keys && forall x | x in f && x != a :: f[x] == g[x]
    ensures g == f[a := g[a]]
  {
  }

  /** Two forests that agree with one shape and in all totals are one. */
  lemma SameShapeAndTotals(h: World<Item>, r: World<Item>, t: World<Item>)
    requires SameButTotals(h, r) && SameButTotals(h, t) && SameTotals(r, t)
    ensures r == t
  {
    forall y | y in h
      ensures r[y] == t[y]
    {
      assert r[y] == h[y].(total := r[y].total) && t[y] == h[y].(total := t[y].total);
    }
  }

  ghost function Unlinked(g: World<Item>, c: Item, x: Item, list: seq<Item>): World<Item>
    requires c in g && x in g
  {
    g[x := g[x].(parent := None)][c := g[c].(list := list)]
  }

  /** Unlinking and changing totals do not disturb each other. */
  lemma UnlinkedShape(f: World<Item>, g: World<Item>, c: Item, x: Item, i: nat)
    requires ListedAt(f, c, x, i) && c != x && SameButTotals(f, g)
    ensures SameButTotals(Unlinking(f, c, x, i), Unlinked(g, c, x, Erase(f[c].list, i)))
    ensures SameTotals(g, Unlinked(g, c, x, Erase(f[c].list, i)))
    ensures SameTotals(f, Unlinking(f, c, x, i))
  {
  }

  /** removeThing subtracts the weight before it unlinks the item; the order makes no difference. */
  lemma DetachInCodeOrder(
      f: World<Item>, g: World<Item>, r: World<Item>, depth: map<Item, nat>, c: Item, x: Item, i: nat)
    requires Linked(f) && Acyclic(f, depth) && ListedAt(f, c, x, i) && c != x
    requires g == Reweigh(f, depth, c, -Weight(f[x])) && SameButTotals(f, g)
    requires r == Unlinked(g, c, x, Erase(f[c].list, i))
    ensures r == Detach(f, depth, c, x, i)
  {
    UnlinkingIsLinked(f, depth, c, x, i);
    var h, w := Unlinking(f, c, x, i), -Weight(f[x]);
    var t := Reweigh(h, depth, c, w);
    assert Detach(f, depth, c, x, i) == t;
    assert Below(f, depth, x);
    UnlinkedShape(f, g, c, x, i);
    UnlinkedTotals(f, h, g, t, depth, c, w);
    SameShapeAndTotals(h, r, t);
  }

  lemma UnlinkedTotals(
      f: World<Item>, h: World<Item>, g: World<Item>, t: World<Item>, depth: map<Item, nat>, c: Item, w: int)
    requires Acyclic(f, depth) && Acyclic(h, depth) && c in f && SameTotals(f, h)
    requires forall y | y in f && depth[y] <= depth[c] :: f[y].parent == h[y].parent
    requires g == Reweigh(f, depth, c, w) && t == Reweigh(h, depth, c, w)
    ensures SameTotals(g, t) && SameButTotals(h, t)
  {
    ReweighReadsParentsOnly(f, h, depth, c, w);
    ReweighShape(h, depth, c, w);
  }

  ghost function Orphaned(g: World<Item>, y: Item): World<Item>
    requires y in g
  {
    g[y := g[y].(parent := None)]
  }

  lemma OrphanedShape(f: World<Item>, h: World<Item>, g: World<Item>, c: Item, i: nat, x: Item)
    requires c in f && x in f && c != x && i < |f[c].list| && f[c].list[i] in f
    requires f[c].list[i] != x && f[c].list[i] != c
    requires h == Linking(f, c, x, f[c].list[i := x]) && SameButTotals(h, g)
    ensures SameButTotals(Swapping(f, c, i, x), Orphaned(g, f[c].list[i]))
    ensures SameTotals(g, Orphaned(g, f[c].list[i]))
    ensures SameTotals(h, Swapping(f, c, i, x))
  {
  }

  /** replaceThing makes the replaced item a root after the weights are added; the order makes no difference. */
  lemma ReplaceInCodeOrder(
      f: World<Item>, h: World<Item>, g: World<Item>, r: World<Item>, depth: map<Item, nat>,
      c: Item, i: nat, x: Item, y: Item, d: map<Item, nat>, w: int)
    requires CanReplace(f, depth, c, i, x) && f[c].list[i] == y && y in f && y != x && y != c
    requires d == Deepened(f, depth, c, x) && w == Weight(f[x]) - Weight(f[y])
    requires h == Linking(f, c, x, f[c].list[i := x]) && Acyclic(h, d)
    requires g == Reweigh(h, d, c, w) && SameButTotals(h, g)
    requires r == Orphaned(g, y)
    ensures r == Replace(f, depth, c, i, x)
  {
    SwappingIsLinked(f, depth, c, i, x);
    var k := Swapping(f, c, i, x);
    var t := Reweigh(k, d, c, w);
    assert Replace(f, depth, c, i, x) == t;
    assert Below(h, d, y) && DownOk(f, c);
    OrphanedShape(f, h, g, c, i, x);
    UnlinkedTotals(h, k, g, t, d, c, w);
    SameShapeAndTotals(k, r, t);
  }
}
