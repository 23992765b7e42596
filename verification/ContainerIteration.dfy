/** ContainerIterator of src/container.cpp, the queries built on it, and Game::findItemOfType. */
module ContainerIteration {
  import opened ItemTypes
  import opened Forest
  import opened Containers
  import opened BreadthFirst

  /** The items of S hold what f says. */
  ghost predicate Shows(f: World<Item>, S: set<Item>)
    reads S
  {
    f.Keys == S && forall x {:trigger x.State()} | x in S :: f[x] == x.State()
  }

  /** What the iterator keeps: it has delivered a beginning of the breadth-first order and holds the rest. */
  ghost predicate Steady(f: World<Item>, depth: map<Item, nat>, root: Item, over: seq<Item>, cur: nat, done: seq<Item>)
  {
    && root in f && Linked(f) && Acyclic(f, depth)
    && (forall c | c in over :: c in f && f[c].list != [])
    && (if over == [] then Complete(f, root, done)
        else cur < |f[over[0]].list| && Frontier(f, root, done, f[over[0]].list[cur..], over[1..]))
  }

  lemma AdvanceIsSteady(
      f: World<Item>, depth: map<Item, nat>, root: Item, over: seq<Item>, cur: nat, done: seq<Item>, x: Item,
      pushed: seq<Item>, over': seq<Item>, cur': nat)
    requires Steady(f, depth, root, over, cur, done) && over != [] && x == f[over[0]].list[cur] && x in f
    requires pushed == (if f[x].list != [] then over + [x] else over)
    requires if cur + 1 == |f[over[0]].list| then over' == pushed[1..] && cur' == 0
             else over' == pushed && cur' == cur + 1
    ensures Steady(f, depth, root, over', cur', done + [x])
    ensures |done| < |Seen(f, root, done)| && Seen(f, root, done)[|done|] == x
  {
    var list := f[over[0]].list;
    assert list[cur..] == [x] + list[cur + 1..];
    FrontierTakes(f, root, done, x, list[cur + 1..], over[1..], pushed[1..]);
    assert forall c | c in pushed :: c in over || c == x;
    assert forall c | c in over' :: c in pushed;
    if cur + 1 == |list| {
      if over' == [] {
        FrontierEnds(f, root, done + [x]);
      } else {
        assert over'[0] in over';
        FrontierTurns(f, root, done + [x], over');
        assert f[over'[0]].list[0..] == f[over'[0]].list;
      }
    }
  }

  class ContainerIterator {
    var over: seq<Item>
    var cur: nat
    ghost var done: seq<Item>   // the items delivered so far

    /** f is the forest that is being walked. */
    ghost predicate Valid(root: Item, f: World<Item>, depth: map<Item, nat>)
      reads this
    {
      Steady(f, depth, root, over, cur, done)
    }

    /** Container::iterator */
    constructor (root: Item, ghost f: World<Item>, ghost S: set<Item>, ghost depth: map<Item, nat>)
      requires f == Snap(S) && root in S && Linked(f) && Acyclic(f, depth)
      ensures Valid(root, f, depth) && done == []
    {
      cur := 0;
      over := if root.itemlist != [] then [root] else [];
      done := [];
      new;
      FrontierStarts(f, root);
      assert f[root].list[0..] == f[root].list && [root][1..] == [];
    }

    predicate HasNext()
      reads this
    {
      over != []
    }

    /** operator* */
    method Current(ghost root: Item, ghost f: World<Item>, ghost S: set<Item>, ghost depth: map<Item, nat>)
      returns (item: Item)
      requires Shows(f, S) && Valid(root, f, depth) && HasNext()
      ensures item in f && item == f[over[0]].list[cur]
      ensures |done| < |Seen(f, root, done)| && item == Seen(f, root, done)[|done|]
    {
      assert over[0] in over && DownOk(f, over[0]) && f[over[0]].list[cur] in f[over[0]].list;
      assert f[over[0]] == over[0].State();
      item := over[0].itemlist[cur];
      NextSeen(f, root, done, item, f[over[0]].list, cur, over[1..]);
    }

    method Advance(ghost root: Item, ghost f: World<Item>, ghost S: set<Item>, ghost depth: map<Item, nat>)
      requires Shows(f, S) && Valid(root, f, depth) && HasNext()
      modifies this
      ensures Valid(root, f, depth)
      ensures old(over[0] in f && cur < |f[over[0]].list|) && done == old(done) + [old(f[over[0]].list[cur])]
    {
      ghost var over0, cur0, done0 := over, cur, done;
      assert over[0] in over && DownOk(f, over[0]) && f[over[0]].list[cur] in f[over[0]].list;
      assert f[over[0]] == over[0].State();
      var i := over[0].itemlist[cur];
      assert DownOk(f, i) && f[i] == i.State();
      if i.isContainer && i.itemlist != [] {
        over := over + [i];
      }
      ghost var pushed := over;
      cur := cur + 1;
      if cur == |over[0].itemlist| {
        over := over[1..];
        cur := 0;
      }
      AdvanceIsSteady(f, depth, root, over0, cur0, done0, i, pushed, over, cur);
      done := done + [i];
    }
  }

  lemma NextSeen(f: World<Item>, root: Item, done: seq<Item>, x: Item, list: seq<Item>, cur: nat, queue: seq<Item>)
    requires cur < |list| && list[cur] == x && Frontier(f, root, done, list[cur..], queue)
    ensures |done| < |Seen(f, root, done)| && Seen(f, root, done)[|done|] == x
  {
  }

  /** Container::getItemHoldingCount */
  method GetItemHoldingCount(container: Item, ghost S: set<Item>, ghost depth: map<Item, nat>) returns (counter: nat)
    requires container in S && Linked(Snap(S)) && Acyclic(Snap(S), depth)
    ensures counter == |Inside(Snap(S), depth, container)|
  {
    ghost var f: World<Item> := Snap(S);
    counter := 0;
    var it := new ContainerIterator(container, f, S, depth);
    while it.HasNext()
      invariant Shows(f, S) && it.Valid(container, f, depth) && counter == |it.done|
      decreases |f.Keys| - counter
    {
      var item := it.Current(container, f, S, depth);
      DoneIsBounded(f, depth, container, it.done, item);
      it.Advance(container, f, S, depth);
      counter := counter + 1;
    }
    AllDelivered(f, depth, container, it.over, it.cur, it.done);
  }

  /** Container::isHoldingItem */
  method IsHoldingItem(container: Item, item: Item, ghost S: set<Item>, ghost depth: map<Item, nat>)
    returns (found: bool)
    requires container in S && Linked(Snap(S)) && Acyclic(Snap(S), depth)
    ensures found <==> item in S && item != container && Under(Snap(S), depth, item, container)
  {
    ghost var f: World<Item> := Snap(S);
    var it := new ContainerIterator(container, f, S, depth);
    while it.HasNext()
      invariant Shows(f, S) && it.Valid(container, f, depth) && item !in it.done
      decreases |f.Keys| - |it.done|
    {
      var next := it.Current(container, f, S, depth);
      if next == item {
        SeenIsInside(f, depth, container, it.done, next);
        return true;
      }
      DoneIsBounded(f, depth, container, it.done, next);
      it.Advance(container, f, S, depth);
    }
    AllDelivered(f, depth, container, it.over, it.cur, it.done);
    found := false;
  }

  /** Container::getItems(true): all items inside, level by level. */
  method GetItems(container: Item, ghost S: set<Item>, ghost depth: map<Item, nat>) returns (containerItems: seq<Item>)
    requires container in S && Linked(Snap(S)) && Acyclic(Snap(S), depth)
    ensures NoDup(containerItems)
    ensures Elements(containerItems) == Inside(Snap(S), depth, container)
    ensures exists n :: containerItems == Levels(Snap(S), container, n)
  {
    ghost var f: World<Item> := Snap(S);
    containerItems := [];
    var it := new ContainerIterator(container, f, S, depth);
    while it.HasNext()
      invariant Shows(f, S) && it.Valid(container, f, depth) && containerItems == it.done
      decreases |f.Keys| - |it.done|
    {
      var item := it.Current(container, f, S, depth);
      DoneIsBounded(f, depth, container, it.done, item);
      it.Advance(container, f, S, depth);
      containerItems := containerItems + [item];
    }
    AllDelivered(f, depth, container, it.over, it.cur, it.done);
  }

  // ----- Game::findItemOfType -----

  /** What findItemOfType looks for; subType -1 stands for any. */
  predicate Matches<R>(n: Node<R>, itemId: nat, subType: int) {
    n.kind.id == itemId && (subType == -1 || subType == SubType(n.kind, n.attrs, n.count))
  }

  /** The subtype of a fluid container is its fluid, that of a stack its count, and that of a rune its charges. */
  lemma MatchesIs<R>(n: Node<R>, itemId: nat, subType: int)
    ensures n.kind.id != itemId ==> !Matches(n, itemId, subType)
    ensures n.kind.id == itemId && subType == -1 ==> Matches(n, itemId, subType)
    ensures n.kind.id == itemId && subType != -1 && !n.kind.holdsFluid && (n.kind.stackable || !n.kind.hasCharges) ==>
              (Matches(n, itemId, subType) <==> n.count == subType)
    ensures n.kind.id == itemId && subType != -1 && (n.kind.holdsFluid || (!n.kind.stackable && n.kind.hasCharges)) ==>
              var bit := if n.kind.holdsFluid then ITEM_ATTRIBUTE_FLUIDTYPE else ITEM_ATTRIBUTE_CHARGES;
              && (bit !in n.attrs ==> (Matches(n, itemId, subType) <==> subType == 0))
              && (bit in n.attrs && n.attrs[bit].IntValue? && 0 <= n.attrs[bit].i < 0x1_0000 ==>
                    (Matches(n, itemId, subType) <==> n.attrs[bit].i == subType))
  {
  }

  ghost predicate NoneMatches<R>(f: World<R>, s: seq<R>, itemId: nat, subType: int) {
    forall y | y in s :: y in f ==> !Matches(f[y], itemId, subType)
  }

  /** x is the first match in breadth-first order. */
  ghost predicate FirstMatch<R>(f: World<R>, root: R, done: seq<R>, x: R, itemId: nat, subType: int)
    requires root in f
  {
    && Visited(f, root, done + [x]) && NoneMatches(f, done, itemId, subType)
    && x in f && Matches(f[x], itemId, subType)
  }

  lemma NextIsFirst<R>(
      f: World<R>, root: R, done: seq<R>, x: R, rest: seq<R>, queue: seq<R>, itemId: nat, subType: int)
    requires Frontier(f, root, done, [x] + rest, queue) && x in f
    requires NoneMatches(f, done, itemId, subType) && Matches(f[x], itemId, subType)
    ensures FirstMatch(f, root, done, x, itemId, subType)
  {
    FrontierTakes(f, root, done, x, rest, queue, queue + [x]);
  }

  /** What the scan of one list has found after i items: containers waiting behind those that waited before. */
  ghost predicate Scanning<R>(
      f: World<R>, root: R, list: seq<R>, i: nat, done0: seq<R>, pending: seq<R>, found: seq<R>, itemId: nat,
      subType: int) {
    && i <= |list| && NoneMatches(f, done0 + list[..i], itemId, subType)
    && Frontier(f, root, done0 + list[..i], list[i..], pending + found)
  }

  lemma ScanTakes<R>(
      f: World<R>, root: R, list: seq<R>, i: nat, done0: seq<R>, pending: seq<R>, found: seq<R>, itemId: nat,
      subType: int,
      found': seq<R>)
    requires Scanning(f, root, list, i, done0, pending, found, itemId, subType) && i < |list| && list[i] in f
    requires !Matches(f[list[i]], itemId, subType)
    requires found' == found + [list[i]] || (found' == found && f[list[i]].list == [])
    ensures Scanning(f, root, list, i + 1, done0, pending, found', itemId, subType)
  {
    var done, done', x := done0 + list[..i], done0 + list[..i + 1], list[i];
    assert list[i..] == [x] + list[i + 1..] && done' == done + [x];
    assert pending + (found + [x]) == (pending + found) + [x];
    FrontierTakes(f, root, done, x, list[i + 1..], pending + found, pending + found');
  }

  lemma ScanFinds<R>(
      f: World<R>, root: R, list: seq<R>, i: nat, done0: seq<R>, pending: seq<R>, found: seq<R>, itemId: nat,
      subType: int)
    requires Scanning(f, root, list, i, done0, pending, found, itemId, subType) && i < |list| && list[i] in f
    requires Matches(f[list[i]], itemId, subType)
    ensures FirstMatch(f, root, done0 + list[..i], list[i], itemId, subType)
  {
    assert list[i..] == [list[i]] + list[i + 1..];
    NextIsFirst(f, root, done0 + list[..i], list[i], list[i + 1..], pending + found, itemId, subType);
  }

  /** There is only one first match, and it lies inside root. */
  lemma FirstMatchIsUnique<R>(
      f: World<R>, depth: map<R, nat>, root: R, done: seq<R>, x: R, done': seq<R>, x': R, itemId: nat, subType: int)
    requires Linked(f) && Acyclic(f, depth) && root in f && |done| <= |done'|
    requires FirstMatch(f, root, done, x, itemId, subType) && FirstMatch(f, root, done', x', itemId, subType)
    ensures x == x' && done == done' && x in Inside(f, depth, root)
  {
    var all := done' + [x'];
    assert all[..|all|] == all;
    VisitedPrefix(f, root, all, |done| + 1);
    VisitedInOneOrder(f, root, done + [x], all[..|done| + 1]);
    assert (done + [x])[|done|] == x;
    assert x == all[|done|];
    SeenIsOnce(f, depth, root, done + [x]);
    VisitedIsSeen(f, root, done + [x]);
    assert x in done + [x];
  }

  lemma {:induction false} VisitedPrefix<R>(f: World<R>, root: R, done: seq<R>, k: nat)
    requires root in f && Visited(f, root, done) && k <= |done|
    ensures Visited(f, root, done[..k])
  {
    if k < |done| {
      VisitedPrefix(f, root, done[..|done| - 1], k);
      assert done[..|done| - 1][..k] == done[..k];
    } else {
      assert done[..k] == done;
    }
  }

  /** The scan of one item list: the first match, or the containers found on the way. */
  method ScanList(
      list: seq<Item>, itemId: nat, subType: int, depthSearch: bool, ghost root: Item,
      ghost done: seq<Item>, ghost pending: seq<Item>, ghost S: set<Item>, ghost depth: map<Item, nat>)
    returns (item: Item?, containers: seq<Item>, ghost found: seq<Item>, ghost before: seq<Item>)
    requires Linked(Snap(S)) && (forall y | y in list :: y in S)
    requires Scanning<Item>(Snap(S), root, list, 0, done, pending, [], itemId, subType)
    ensures item != null ==> item in list && FirstMatch<Item>(Snap(S), root, before, item, itemId, subType)
    ensures |containers| <= |list|
    ensures item == null ==>
              && Scanning<Item>(Snap(S), root, list, |list|, done, pending, found, itemId, subType)
              && (depthSearch ==> containers == found)
  {
    ghost var f: World<Item> := Snap(S);
    item, containers, found, before := null, [], [], done;
    for i := 0 to |list|
      invariant Scanning<Item>(f, root, list, i, done, pending, found, itemId, subType)
      invariant |containers| <= i && (depthSearch ==> containers == found)
    {
      var next := list[i];
      assert next in list && next in f && f[next] == next.State() && DownOk(f, next);
      if next.kind.id == itemId && (subType == -1 || subType == SubType(next.kind, next.attrs, next.count)) {
        ScanFinds<Item>(f, root, list, i, done, pending, found, itemId, subType);
        return next, containers, found, done + list[..i];
      }
      if depthSearch {
        if next.isContainer {
          containers := containers + [next];
        }
      }
      ghost var found' := if next.isContainer then found + [next] else found;
      ScanTakes<Item>(f, root, list, i, done, pending, found, itemId, subType, found');
      found := found';
    }
  }

  /** The queue of a search that has scanned everything it has taken up so far. */
  ghost predicate Searching(f: World<Item>, root: Item, done: seq<Item>, queue: seq<Item>, itemId: nat, subType: int) {
    NoneMatches(f, done, itemId, subType) && Frontier(f, root, done, [], queue)
  }

  lemma SearchTurns(
      f: World<Item>, root: Item, done: seq<Item>, queue: seq<Item>, c: Item, rest: seq<Item>, itemId: nat,
      subType: int)
    requires Searching(f, root, done, queue, itemId, subType) && queue == [c] + rest && c in f
    ensures Scanning<Item>(f, root, f[c].list, 0, done, rest, [], itemId, subType)
  {
    assert queue[1..] == rest && rest + [] == rest;
    FrontierTurns(f, root, done, queue);
    assert done + f[c].list[..0] == done && f[c].list[0..] == f[c].list;
  }

  lemma ScanEnds(
      f: World<Item>, root: Item, list: seq<Item>, done: seq<Item>, rest: seq<Item>, found: seq<Item>, itemId: nat,
      subType: int)
    requires Scanning<Item>(f, root, list, |list|, done, rest, found, itemId, subType)
    ensures Searching(f, root, done + list, rest + found, itemId, subType)
  {
    assert list[..|list|] == list && list[|list|..] == [];
  }

  /** A search with nothing left to scan has found nothing. */
  lemma SearchEnds(
      f: World<Item>, depth: map<Item, nat>, root: Item, done: seq<Item>, itemId: nat, subType: int, y: Item)
    requires Linked(f) && Acyclic(f, depth) && Searching(f, root, done, [], itemId, subType)
    requires root in f && y in Inside(f, depth, root)
    ensures !Matches(f[y], itemId, subType)
  {
    FrontierEnds(f, root, done);
    CompleteIsExact(f, depth, root, done);
  }

  /**
   Game::findItemOfType: null exactly when no item inside the cylinder, or in its own list for a flat search,
   is of the type; otherwise the first one in breadth-first order.
   */
  method FindItemOfType(
      cylinder: Item, itemId: nat, depthSearch: bool, subType: int, ghost S: set<Item>, ghost depth: map<Item, nat>)
    returns (item: Item?, ghost before: seq<Item>)
    requires cylinder in S && Linked(Snap(S)) && Acyclic(Snap(S), depth)
    ensures item != null ==> FirstMatch<Item>(Snap(S), cylinder, before, item, itemId, subType)
    ensures item != null && !depthSearch ==> item in cylinder.itemlist
    ensures item == null ==>
              forall y {:trigger Matches<Item>(Snap(S)[y], itemId, subType)}
                | y in S && (if depthSearch then y in Inside(Snap(S), depth, cylinder) else y in cylinder.itemlist) ::
                !Matches<Item>(Snap(S)[y], itemId, subType)
  {
    ghost var f: World<Item> := Snap(S);
    assert f[cylinder] == cylinder.State() && DownOk(f, cylinder);
    FrontierStarts<Item>(f, cylinder);
    ghost var list := f[cylinder].list;
    assert [] + list[..0] == [] && list[0..] == list;
    var containers: seq<Item>;
    ghost var found: seq<Item>;
    item, containers, found, before :=
      ScanList(cylinder.itemlist, itemId, subType, depthSearch, cylinder, [], [], S, depth);
    if item != null {
      return;
    }
    ScanEnds(f, cylinder, list, [], [], found, itemId, subType);
    if depthSearch {
      item, before := FindInContainers(cylinder, containers, list, itemId, subType, S, depth);
    }
  }

  /** The loop of findItemOfType over the containers it has met. */
  method FindInContainers(
      ghost cylinder: Item, containers0: seq<Item>, ghost done0: seq<Item>, itemId: nat, subType: int,
      ghost S: set<Item>, ghost depth: map<Item, nat>)
    returns (item: Item?, ghost before: seq<Item>)
    requires cylinder in S && Linked(Snap(S)) && Acyclic(Snap(S), depth)
    requires Searching(Snap(S), cylinder, [] + done0, [] + containers0, itemId, subType)
    ensures item != null ==> FirstMatch<Item>(Snap(S), cylinder, before, item, itemId, subType)
    ensures item == null ==>
              forall y {:trigger Matches<Item>(Snap(S)[y], itemId, subType)}
                | y in S && y in Inside(Snap(S), depth, cylinder) :: !Matches<Item>(Snap(S)[y], itemId, subType)
  {
    ghost var f: World<Item> := Snap(S);
    var containers := containers0;
    ghost var done, queue := done0, [] + containers0;
    item, before := null, done;
    var i := 0;
    assert done == [] + done0;
    FrontierIsBounded(f, depth, cylinder, done);
    while i < |containers|
      invariant 0 <= i <= |containers| && |done| <= |f.Keys| && item == null && queue == containers[i..]
      invariant Searching(f, cylinder, done, queue, itemId, subType)
      decreases |f.Keys| - |done|, |containers| - i
    {
      var container := containers[i];
      ghost var rest := queue[1..];
      assert queue == [container] + rest && rest == containers[i + 1..];
      i := i + 1;
      var more: seq<Item>;
      item, more, before := ScanContainer(container, itemId, subType, cylinder, done, rest, S, depth);
      if item != null {
        return;
      }
      DropConcat(containers, i, more);
      containers := containers + more;
      queue := rest + more;
      done := done + f[container].list;
      FrontierIsBounded(f, depth, cylinder, done);
    }
    SearchFoundNothing(f, depth, cylinder, done, itemId, subType);
  }

  /** The scan of the next container of the queue. */
  method ScanContainer(
      container: Item, itemId: nat, subType: int, ghost root: Item, ghost done: seq<Item>, ghost rest: seq<Item>,
      ghost S: set<Item>, ghost depth: map<Item, nat>)
    returns (item: Item?, more: seq<Item>, ghost before: seq<Item>)
    requires root in S && Linked(Snap(S)) && Searching(Snap(S), root, done, [container] + rest, itemId, subType)
    ensures container in S && |more| <= |Snap(S)[container].list|
    ensures item != null ==> FirstMatch<Item>(Snap(S), root, before, item, itemId, subType)
    ensures item == null ==> Searching(Snap(S), root, done + Snap(S)[container].list, rest + more, itemId, subType)
  {
    ghost var f: World<Item> := Snap(S);
    assert container in [container] + rest;
    SearchTurns(f, root, done, [container] + rest, container, rest, itemId, subType);
    assert f[container] == container.State() && DownOk(f, container);
    ghost var found: seq<Item>;
    item, more, found, before := ScanList(container.itemlist, itemId, subType, true, root, done, rest, S, depth);
    if item == null {
      ScanEnds(f, root, f[container].list, done, rest, found, itemId, subType);
    }
  }

  lemma SearchFoundNothing(
      f: World<Item>, depth: map<Item, nat>, root: Item, done: seq<Item>, itemId: nat, subType: int)
    requires Linked(f) && Acyclic(f, depth) && root in f && Searching(f, root, done, [], itemId, subType)
    ensures forall y {:trigger Matches<Item>(f[y], itemId, subType)} | y in f && y in Inside(f, depth, root) ::
              !Matches<Item>(f[y], itemId, subType)
  {
    forall y | y in f && y in Inside(f, depth, root)
      ensures !Matches<Item>(f[y], itemId, subType)
    {
      SearchEnds(f, depth, root, done, itemId, subType, y);
    }
  }

  lemma DropConcat<T>(s: seq<T>, i: nat, t: seq<T>)
    requires i <= |s|
    ensures (s + t)[i..] == s[i..] + t
  {
  }

  lemma FrontierIsBounded(f: World<Item>, depth: map<Item, nat>, root: Item, done: seq<Item>)
    requires Linked(f) && Acyclic(f, depth) && root in f && Visited(f, root, done)
    ensures |done| <= |f.Keys|
  {
    SeenIsOnce(f, depth, root, done);
    VisitedIsSeen(f, root, done);
    NoDupCount(done);
    SubsetCount(Elements(done), f.Keys);
  }

  /** The items that lie inside c, at any depth. */
  ghost function Inside<R>(f: World<R>, depth: map<R, nat>, c: R): set<R>
    requires Acyclic(f, depth) && c in f
  {
    set y | y in f && y != c && Under(f, depth, y, c)
  }

  lemma SeenIsInside(f: World<Item>, depth: map<Item, nat>, root: Item, done: seq<Item>, next: Item)
    requires Linked(f) && Acyclic(f, depth) && root in f && Visited(f, root, done)
    requires |done| < |Seen(f, root, done)| && next == Seen(f, root, done)[|done|]
    ensures next in f && next != root && Under(f, depth, next, root)
  {
    SeenIsOnce(f, depth, root, done);
    assert next in Seen(f, root, done);
  }

  lemma DoneIsBounded(f: World<Item>, depth: map<Item, nat>, root: Item, done: seq<Item>, next: Item)
    requires Linked(f) && Acyclic(f, depth) && root in f && Visited(f, root, done)
    requires |done| < |Seen(f, root, done)| && next == Seen(f, root, done)[|done|]
    ensures |done| < |f.Keys|
  {
    SeenIsOnce(f, depth, root, done);
    VisitedIsSeen(f, root, done);
    var s := Seen(f, root, done)[..|done| + 1];
    NoDupCount(s);
    SubsetCount(Elements(s), f.Keys);
  }

  lemma {:induction false} SubsetCount<R>(a: set<R>, b: set<R>)
    requires a <= b
    ensures |a| <= |b|
  {
    if a != {} {
      var x :| x in a;
      SubsetCount(a - {x}, b - {x});
    }
  }

  lemma AllDelivered(
      f: World<Item>, depth: map<Item, nat>, root: Item, over: seq<Item>, cur: nat, done: seq<Item>)
    requires Steady(f, depth, root, over, cur, done) && over == []
    ensures NoDup(done) && Elements(done) == Inside(f, depth, root) && |Elements(done)| == |done|
    ensures forall y :: y in done <==> y in f && y != root && Under(f, depth, y, root)
    ensures exists n :: done == Levels(f, root, n)
  {
    CompleteIsExact(f, depth, root, done);
    CompleteIsLevels(f, depth, root, done);
    NoDupCount(done);
  }
}
