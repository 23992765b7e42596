/** What the query functions of src/container.cpp answer, as functions of the forest. */
module CylinderQueries {
  import opened ItemTypes
  import opened Forest

  const INDEX_WHEREEVER: int := -1

  datatype ReturnValue =
    | NoError
    | NotPossible
    | NotMoveable
    | CannotPickup
    | ThisIsImpossible
    | NotEnoughRoom
    | ContainerNotEnoughRoom

  /** The cylinder flags that containers look at (src/cylinder.h). */
  datatype Flags = Flags(noLimit: bool, childIsOwner: bool, ignoreNotMoveable: bool, ignoreAutoStack: bool)

  const NO_FLAGS: Flags := Flags(false, false, false, false)

  function ItemAt<R>(list: seq<R>, index: int): Option<R> {
    if 0 <= index < |list| then Some(list[index]) else None
  }

  /** y takes more pieces of what x is. */
  ghost predicate Takes<R>(f: World<R>, y: R, x: R)
    requires x in f && y in f
  {
    KeyOf(f[y]) == KeyOf(f[x]) && f[y].count < StackSize(f[y].kind)
  }

  ghost function Room<R>(f: World<R>, y: R, x: R): nat
    requires x in f && y in f
  {
    if Takes(f, y, x) then StackSize(f[y].kind) - f[y].count else 0
  }

  /** The room on all stacks of s, other than x itself, that x can be merged into. */
  ghost function RoomOn<R>(f: World<R>, s: seq<R>, x: R): nat
    requires x in f && forall y | y in s :: y in f
  {
    if s == [] then 0
    else RoomOn(f, s[..|s| - 1], x) + if s[|s| - 1] != x then Room(f, s[|s| - 1], x) else 0
  }

  /** The position, from i on, of the first stack of s that x can be merged into; |s| when there is none. */
  ghost function FirstTaker<R>(f: World<R>, s: seq<R>, x: R, i: nat): nat
    requires x in f && i <= |s| && forall y | y in s :: y in f
    decreases |s| - i
  {
    if i == |s| || (s[i] != x && Takes(f, s[i], x)) then i else FirstTaker(f, s, x, i + 1)
  }

  ghost function QueryAdd<R>(
      f: World<R>, depth: map<R, nat>, c: R, index: int, x: R, flags: Flags): ReturnValue
    requires Acyclic(f, depth) && c in f && x in f
  {
    if flags.childIsOwner then NoError
    else if !f[x].kind.pickupable then CannotPickup
    else if Under(f, depth, c, x) then ThisIsImpossible
    else if !flags.noLimit && index == INDEX_WHEREEVER && |f[c].list| >= f[c].maxSize then
      ContainerNotEnoughRoom
    else NoError
  }

  ghost function FreeSlots<R>(n: Node<R>): nat {
    if n.maxSize < |n.list| then 0 else n.maxSize - |n.list|
  }

  /** The room on stacks that queryMaxCount sees. */
  ghost function StackRoom<R>(
      f: World<R>, depth: map<R, nat>, c: R, index: int, x: R, flags: Flags): nat
    requires Linked(f) && Acyclic(f, depth) && c in f && x in f
  {
    assert DownOk(f, c);
    var at := ItemAt(f[c].list, index);
    if QueryAdd(f, depth, c, if index == INDEX_WHEREEVER then 0 else index, x, flags) != NoError then 0
    else if index == INDEX_WHEREEVER then RoomOn(f, f[c].list, x)
    else if at.Some? then Room(f, at.value, x) else 0
  }

  ghost function MaxCount<R>(
      f: World<R>, depth: map<R, nat>, c: R, index: int, x: R, count: nat, flags: Flags): nat
    requires Linked(f) && Acyclic(f, depth) && c in f && x in f
  {
    TimesIsNatural(StackSize(f[x].kind), FreeSlots(f[c]));
    if flags.noLimit then (if count < 1 then 1 else count)
    else if f[x].kind.stackable then
      Times(StackSize(f[x].kind), FreeSlots(f[c])) + StackRoom(f, depth, c, index, x, flags)
    else FreeSlots(f[c])
  }

  ghost function QueryMaxCount<R>(
      f: World<R>, depth: map<R, nat>, c: R, index: int, x: R, count: nat, flags: Flags): ReturnValue
    requires Linked(f) && Acyclic(f, depth) && c in f && x in f
  {
    var max := MaxCount(f, depth, c, index, x, count, flags);
    if flags.noLimit then NoError
    else if max < (if f[x].kind.stackable then count else 1) then ContainerNotEnoughRoom
    else NoError
  }

  ghost function QueryRemove<R>(f: World<R>, c: R, x: R, count: nat, flags: Flags): ReturnValue
    requires c in f && x in f
  {
    if x !in f[c].list then NotPossible
    else if count == 0 || (f[x].kind.stackable && count > f[x].count) then NotPossible
    else if !f[x].kind.moveable && !flags.ignoreNotMoveable then NotMoveable
    else NoError
  }

  /** What queryDestination finds: the container, the index and the item there. */
  datatype Destination<R> = Destination(cylinder: R, index: int, item: Option<R>)

  /** The index names a container inside c. */
  ghost predicate EntersChild<R>(f: World<R>, c: R, index: int)
    requires Linked(f) && c in f
  {
    assert DownOk(f, c);
    var at := ItemAt(f[c].list, index);
    index != 254 && index != 255 && index < f[c].maxSize && at.Some? && f[at.value].isContainer
  }

  /** How far queryDestination gets before it looks for a stack. */
  ghost function Slot<R>(f: World<R>, c: R, index: int): Destination<R>
    requires Linked(f) && c in f
  {
    assert DownOk(f, c) && UpOk(f, c);
    if index == 254 then
      Destination(if f[c].parent.Some? then f[c].parent.value else c, INDEX_WHEREEVER, None)
    else if index == 255 || index >= f[c].maxSize || index == INDEX_WHEREEVER then
      Destination(c, INDEX_WHEREEVER, None)
    else if EntersChild(f, c, index) then Destination(f[c].list[index], INDEX_WHEREEVER, None)
    else Destination(c, index, ItemAt(f[c].list, index))
  }

  /** queryDestination looks for a stack to merge x into. */
  ghost predicate SeeksStack<R>(f: World<R>, c: R, index: int, x: R, flags: Flags)
    requires Linked(f) && c in f && x in f
  {
    var slot := Slot(f, c, index);
    && index != 254 && !EntersChild(f, c, index)
    && !flags.ignoreAutoStack && f[x].kind.stackable && f[x].parent != Some(c)
    && !(slot.item.Some? && (assert DownOk(f, c); Takes(f, slot.item.value, x)))
  }

  ghost function QueryDestination<R>(f: World<R>, c: R, index: int, x: R, flags: Flags): Destination<R>
    requires Linked(f) && c in f && x in f
  {
    assert DownOk(f, c);
    if SeeksStack(f, c, index, x, flags) && FirstTaker(f, f[c].list, x, 0) < |f[c].list| then
      var i := FirstTaker(f, f[c].list, x, 0);
      Destination(c, i, Some(f[c].list[i]))
    else Slot(f, c, index)
  }

  lemma {:induction false} FirstTakerIs<R>(f: World<R>, s: seq<R>, x: R, i: nat)
    requires x in f && i <= |s| && forall y | y in s :: y in f
    ensures i <= FirstTaker(f, s, x, i) <= |s|
    ensures FirstTaker(f, s, x, i) < |s| ==> s[FirstTaker(f, s, x, i)] != x && Takes(f, s[FirstTaker(f, s, x, i)], x)
    ensures forall k | i <= k < FirstTaker(f, s, x, i) :: s[k] == x || !Takes(f, s[k], x)
    decreases |s| - i
  {
    if i < |s| && !(s[i] != x && Takes(f, s[i], x)) {
      FirstTakerIs(f, s, x, i + 1);
    }
  }

  // ----- what the queries answer, in terms of the fields -----

  /** x could be merged into y: the same type and attributes, and fewer pieces than a stack may have. */
  ghost predicate Mergeable<R>(f: World<R>, y: R, x: R)
    requires x in f && y in f
  {
    && f[y].kind == f[x].kind && f[y].attrs == f[x].attrs
    && f[y].count < (if f[x].kind.stackable then f[x].kind.stackSize else 1)
  }

  /** The position that an index names in a container of that size; -1 for none. */
  function Named(index: int, maxSize: nat): int {
    if index == 254 || index == 255 || index >= maxSize then -1 else index
  }

  /** The named stack if x fits on it, else the first stack that x fits on, else the named position. */
  ghost predicate StackSought<R>(f: World<R>, list: seq<R>, named: int, x: R, at: int)
    requires x in f && forall y | y in list :: y in f
  {
    if 0 <= named < |list| && Mergeable(f, list[named], x) then at == named
    else if exists k :: 0 <= k < |list| && list[k] != x && Mergeable(f, list[k], x) then
      && 0 <= at < |list| && list[at] != x && Mergeable(f, list[at], x)
      && forall k | 0 <= k < at :: list[k] == x || !Mergeable(f, list[k], x)
    else at == named
  }

  /** 254 leads to what c lies in, the position of a container into it, and every other index to c itself. */
  lemma IndexLeads<R>(f: World<R>, c: R, index: int)
    requires Linked(f) && c in f
    ensures var to := Slot(f, c, index).cylinder;
            && (index == 254 ==> to == if f[c].parent.Some? then f[c].parent.value else c)
            && (index == 255 || (index != 254 && index >= f[c].maxSize) || index < 0 ==> to == c)
            && (0 <= index < f[c].maxSize && index != 254 && index != 255 ==>
                  (index >= |f[c].list| ==> to == c)
                  && (index < |f[c].list| && f[c].list[index] in f ==>
                        to == if f[f[c].list[index]].isContainer then f[c].list[index] else c))
  {
    assert DownOk(f, c);
  }

  /**
   Where in c an item goes for which c itself is the destination. Stacks are sought for stackable items from elsewhere,
   unless that is switched off or the index was 254.
   */
  lemma DestinationIs<R>(f: World<R>, depth: map<R, nat>, c: R, index: int, x: R, flags: Flags)
    requires Linked(f) && Acyclic(f, depth) && c in f && x in f
    requires QueryDestination(f, c, index, x, flags).cylinder == c
    ensures var d := QueryDestination(f, c, index, x, flags);
            && (forall y | y in f[c].list :: y in f)
            && d.item == (if 0 <= d.index < |f[c].list| then Some(f[c].list[d.index]) else None)
            && if !flags.ignoreAutoStack && f[x].kind.stackable && f[x].parent != Some(c) && index != 254 then
                 StackSought(f, f[c].list, Named(index, f[c].maxSize), x, d.index)
               else d.index == Named(index, f[c].maxSize)
  {
    assert DownOk(f, c);
    var list, i := f[c].list, FirstTaker(f, f[c].list, x, 0);
    FirstTakerIs(f, list, x, 0);
    assert forall y | y in list :: Mergeable(f, y, x) <==> Takes(f, y, x);
    assert Below(f, depth, c);
    assert EntersChild(f, c, index) ==> f[list[index]].parent == Some(c);
  }

  /** How many stacks of what x is are in s, x itself not counted. */
  ghost function StacksLike<R>(f: World<R>, s: seq<R>, x: R): nat
    requires x in f && forall y | y in s :: y in f
  {
    if s == [] then 0
    else StacksLike(f, s[1..], x)
         + if s[0] != x && f[s[0]].kind == f[x].kind && f[s[0]].attrs == f[x].attrs then 1 else 0
  }

  /** How many pieces they have. */
  ghost function PiecesLike<R>(f: World<R>, s: seq<R>, x: R): nat
    requires x in f && forall y | y in s :: y in f
  {
    if s == [] then 0
    else PiecesLike(f, s[1..], x)
         + if s[0] != x && f[s[0]].kind == f[x].kind && f[s[0]].attrs == f[x].attrs then f[s[0]].count else 0
  }

  lemma {:induction false} LikeAppended<R>(f: World<R>, s: seq<R>, y: R, x: R)
    requires x in f && y in f && forall z | z in s :: z in f
    ensures forall z | z in s + [y] :: z in f
    ensures var like := y != x && f[y].kind == f[x].kind && f[y].attrs == f[x].attrs;
            && StacksLike(f, s + [y], x) == StacksLike(f, s, x) + (if like then 1 else 0)
            && PiecesLike(f, s + [y], x) == PiecesLike(f, s, x) + if like then f[y].count else 0
  {
    if s == [] {
      assert [] + [y] == [y];
    } else {
      assert (s + [y])[1..] == s[1..] + [y] && (s + [y])[0] == s[0];
      LikeAppended(f, s[1..], y, x);
    }
  }

  /** The room on stacks is what they could hold less what they hold. */
  lemma {:induction false} RoomIsWhatIsLeft<R>(f: World<R>, s: seq<R>, x: R)
    requires x in f && (forall y | y in s :: y in f) && Stacked(f)
    ensures RoomOn(f, s, x) + PiecesLike(f, s, x) == StackSize(f[x].kind) * StacksLike(f, s, x)
  {
    if s != [] {
      var front, last := s[..|s| - 1], s[|s| - 1];
      assert s == front + [last] && StackedAt(f, last);
      RoomIsWhatIsLeft(f, front, x);
      LikeAppended(f, front, last, x);
      Distribute(StackSize(f[x].kind), StacksLike(f, front, x), 1);
    }
  }

  /** How many pieces, or items, can be put into c when limits are on. */
  ghost function Capacity<R>(f: World<R>, c: R, at: int, x: R): int
    requires x in f && c in f && forall y | y in f[c].list :: y in f
  {
    var list := f[c].list;
    var free := if |list| < f[c].maxSize then f[c].maxSize - |list| else 0;
    if !f[x].kind.stackable then free
    else if at == INDEX_WHEREEVER then
      f[x].kind.stackSize * (free + StacksLike(f, list, x)) - PiecesLike(f, list, x)
    else
      f[x].kind.stackSize * free
      + if 0 <= at < |list| && Mergeable(f, list[at], x) then f[x].kind.stackSize - f[list[at]].count else 0
  }

  lemma Distribute(size: int, a: int, b: int)
    ensures size * (a + b) == size * a + size * b
  {
  }

  lemma StackRoomIs<R>(f: World<R>, depth: map<R, nat>, c: R, at: int, x: R, flags: Flags)
    requires Linked(f) && Acyclic(f, depth) && Stacked(f) && c in f && x in f && f[x].kind.stackable
    requires f[x].kind.pickupable && !Under(f, depth, c, x) && (forall y | y in f[c].list :: y in f)
    ensures StackRoom(f, depth, c, at, x, flags)
         == if at == INDEX_WHEREEVER then RoomOn(f, f[c].list, x)
            else if 0 <= at < |f[c].list| && Mergeable(f, f[c].list[at], x) then
              f[x].kind.stackSize - f[f[c].list[at]].count
            else 0
  {
  }

  /** queryMaxCount of an item that may be put into c: without limits all of it, at least 1, and else what fits. */
  lemma MaxCountIs<R>(f: World<R>, depth: map<R, nat>, c: R, at: int, x: R, count: nat, flags: Flags)
    requires Linked(f) && Acyclic(f, depth) && Stacked(f) && c in f && x in f
    requires f[x].kind.pickupable && !Under(f, depth, c, x)
    ensures forall y | y in f[c].list :: y in f
    ensures flags.noLimit ==> MaxCount(f, depth, c, at, x, count, flags) == if count < 1 then 1 else count
    ensures !flags.noLimit ==> MaxCount(f, depth, c, at, x, count, flags) == Capacity(f, c, at, x)
  {
    assert DownOk(f, c);
    if !flags.noLimit && f[x].kind.stackable {
      var list, size, free := f[c].list, f[x].kind.stackSize, FreeSlots(f[c]);
      TimesIsProduct(size, free);
      StackRoomIs(f, depth, c, at, x, flags);
      if at == INDEX_WHEREEVER {
        RoomIsWhatIsLeft(f, list, x);
        Distribute(size, free, StacksLike(f, list, x));
      }
    }
  }

  /** queryAdd: x may be carried, c is neither x nor inside it, and there is a free slot unless none is needed. */
  ghost predicate MayEnter<R>(f: World<R>, depth: map<R, nat>, c: R, index: int, x: R, flags: Flags)
    requires Acyclic(f, depth) && c in f && x in f
  {
    && f[x].kind.pickupable && !Under(f, depth, c, x)
    && (flags.noLimit || index != -1 || |f[c].list| < f[c].maxSize)
  }

  /** The first refusal that applies. */
  lemma QueryAddIs<R>(f: World<R>, depth: map<R, nat>, c: R, index: int, x: R, flags: Flags)
    requires Acyclic(f, depth) && c in f && x in f && !flags.childIsOwner
    ensures QueryAdd(f, depth, c, index, x, flags) == NoError <==> MayEnter(f, depth, c, index, x, flags)
    ensures QueryAdd(f, depth, c, index, x, flags) == CannotPickup <==> !f[x].kind.pickupable
    ensures QueryAdd(f, depth, c, index, x, flags) == ThisIsImpossible <==>
            f[x].kind.pickupable && Under(f, depth, c, x)
    ensures QueryAdd(f, depth, c, index, x, flags) in {NoError, CannotPickup, ThisIsImpossible, ContainerNotEnoughRoom}
  {
  }

  /** queryRemove: x is listed and has the pieces, of which there is one at least. */
  ghost predicate HasPieces<R>(f: World<R>, c: R, x: R, count: nat)
    requires c in f && x in f
  {
    x in f[c].list && count >= 1 && (f[x].kind.stackable ==> count <= f[x].count)
  }

  /** And it must be moveable, unless that is ignored. */
  lemma QueryRemoveIs<R>(f: World<R>, c: R, x: R, count: nat, flags: Flags)
    requires c in f && x in f
    ensures QueryRemove(f, c, x, count, flags) == NoError <==>
            HasPieces(f, c, x, count) && (f[x].kind.moveable || flags.ignoreNotMoveable)
    ensures QueryRemove(f, c, x, count, flags) == NotMoveable <==>
            HasPieces(f, c, x, count) && !f[x].kind.moveable && !flags.ignoreNotMoveable
    ensures QueryRemove(f, c, x, count, flags) in {NoError, NotMoveable, NotPossible}
  {
  }
}
