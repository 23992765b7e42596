/** Game::internalRemoveItem, Game::removeMoney and Game::addMoney of src/game.cpp. */
module Money {
  import opened ItemTypes
  import opened Forest
  import opened CylinderQueries
  import opened Containers
  import opened BreadthFirst
  import opened ContainerIteration
  import opened ItemMoves
  import opened Arithmetic

  /** An entry of Items::currencyItems, which is sorted by falling worth; no two item types share a worth. */
  datatype Currency = Currency(worth: nat, kind: ItemType)

  ghost predicate CurrencyOk(c: Currency) {
    && c.worth > 0 && c.kind.worth == c.worth && c.kind.stackable && c.kind.pickupable
    && 100 <= c.kind.stackSize <= 255
  }

  /** Every coin is worth at most 65535 of the next smaller one, and the smallest is worth 1. */
  ghost predicate TableOk(currency: seq<Currency>) {
    && currency != [] && currency[|currency| - 1].worth == 1
    && forall i {:trigger RowOk(currency, i)} | 0 <= i < |currency| :: RowOk(currency, i)
  }

  ghost predicate RowOk(currency: seq<Currency>, i: nat)
    requires i < |currency|
  {
    && CurrencyOk(currency[i])
    && (i > 0 ==> currency[i].worth < currency[i - 1].worth <= 65535 * currency[i].worth)
  }

  // ----- internalRemoveItem -----

  /** m pieces of x are gone, x itself if that is all of them, and nothing else has changed. */
  ghost predicate Removed<R>(f: World<R>, r: World<R>, x: R, m: nat) {
    Lessened(f, r, x, m) && Flows(f, r, f[x].parent.value, KeyOf(f[x]), 0 - m)
  }

  ghost predicate Lessened<R>(f: World<R>, r: World<R>, x: R, m: nat) {
    && x in f && f[x].parent.Some? && r.Keys <= f.Keys
    && (x in r <==> m < f[x].count)
    && (forall y {:trigger Kept(f, r, f[x].parent.value, y)} | y in f && y != x :: Kept(f, r, f[x].parent.value, y))
    && (x in r ==> r[x] == f[x].(count := f[x].count - m, total := r[x].total))
    && (f[x].parent.value in f && f[x].parent.value in r ==>
          |r[f[x].parent.value].list| <= |f[f[x].parent.value].list|)
  }

  /** y is as it was, but for its cached weight and, if it is c, for its list. */
  ghost predicate Kept<R>(f: World<R>, r: World<R>, c: R, y: R)
    requires y in f
  {
    y in r && r[y] == f[y].(list := if y == c then r[y].list else f[y].list, total := r[y].total)
  }

  lemma TookRemoves<R>(f: World<R>, r: World<R>, c: R, x: R, m: nat)
    requires Took(f, r, c, x, m) && f[x].parent == Some(c) && m <= f[x].count
    ensures Removed(f, r, x, m)
  {
    forall y {:trigger Kept(f, r, c, y)} | y in f && y != x
      ensures Kept(f, r, c, y)
    {
      assert y in r;
    }
  }

  lemma TookWholeFlow<R>(f: World<R>, g: World<R>, r: World<R>, c: R, x: R, key: Key, m: nat, loss: int, q: Quantity)
    requires c in f && x in f && Carried(f, g, c, x, -1, q) && x in g && KeyOf(g[x]) == KeyOf(f[x]) == key
    requires g[x].count == f[x].count == m && loss == 0 - m
    requires Linked(g) && g[x].parent.None? && g[x].list == [] && r == g - {x}
    ensures Flow(f, r, c, key, loss, q)
  {
    DropMoves(g, x, q);
    TimesSplit(q(key), m, m, 0);
    assert Times(q(key), loss) == -Amount(q, f[x]);
    forall y {:trigger Direct(r, y, q)} | y in r
      ensures Direct(r, y, q) == Direct(f, y, q) + if y == c then Times(q(key), loss) else 0
    {
      assert Direct(r, y, q) == Direct(g, y, q);
    }
  }

  lemma TookWholeFlows<R>(f: World<R>, g: World<R>, r: World<R>, c: R, x: R, key: Key, m: nat, loss: int)
    requires TookWhole(f, g, c, x) && key == KeyOf(f[x]) && m == f[x].count && loss == 0 - m
    requires Linked(g) && g[x].list == [] && r == g - {x}
    ensures Flows(f, r, c, key, loss)
  {
    forall q: Quantity {:trigger Flow(f, r, c, key, loss, q)}
      ensures Flow(f, r, c, key, loss, q)
    {
      assert Carried(f, g, c, x, -1, q);
      TookWholeFlow(f, g, r, c, x, key, m, loss, q);
    }
  }

  lemma TookWholeRemoves<R>(f: World<R>, g: World<R>, r: World<R>, c: R, x: R, m: nat)
    requires TookWhole(f, g, c, x) && f[x].parent == Some(c) && m == f[x].count
    requires Linked(g) && g[x].list == [] && r == g - {x}
    ensures Removed(f, r, x, m)
  {
    TookWholeFlows(f, g, r, c, x, KeyOf(f[x]), m, 0 - m);
    TookWholeLessens(f, g, r, c, x, m);
  }

  lemma TookWholeLessens<R>(f: World<R>, g: World<R>, r: World<R>, c: R, x: R, m: nat)
    requires TookWhole(f, g, c, x) && f[x].parent == Some(c) && m == f[x].count && r == g - {x}
    ensures Lessened(f, r, x, m)
  {
    forall y {:trigger Kept(f, r, c, y)} | y in f && y != x
      ensures Kept(f, r, c, y)
    {
      assert y in g && y in r;
    }
  }

  /**
   Removes count pieces of item, all of them when count is -1. What is removed as a whole is released; a container
   is left with its contents as the root of its own tree.
   */
  method InternalRemoveItem(game: Game, item: Item, count: int, test: bool, flags: Flags)
    returns (ret: ReturnValue, ghost m: nat)
    requires game.Valid() && item in game.items && count >= -1
    modifies game, game.items
    ensures game.Valid() && game.items <= old(game.items)
    ensures m == if old(item.kind.stackable) && count >= 0 then count else old(item.count)
    ensures ret == NoError <==> old(item.parent) != null && count != 0 && m <= old(item.count)
    ensures ret != NoError || test ==> game.items == old(game.items) && Snap(game.items) == old(Snap(game.items))
    ensures ret == NoError && !test && !item.isContainer ==>
              Removed<Item>(old(Snap(game.items)), Snap(game.items), item, m)
    ensures ret == NoError && !test && item.isContainer ==>
              && game.items == old(game.items) && old(item.parent) != null
              && TookWhole<Item>(old(Snap(game.items)), Snap(game.items), old(item.parent), item)
  {
    ghost var f: World<Item> := Snap(game.items);
    m := if item.kind.stackable && count >= 0 then count else item.count;
    assert UpOk(f, item) && DownOk(f, item) && StackedAt(f, item);
    var cylinder := item.parent;
    if cylinder == null {
      return NotPossible, m;
    }
    var n := if count == -1 then item.count else count;
    ret := cylinder.QueryRemove(item, n, flags.(ignoreNotMoveable := true), game.items);
    if ret != NoError {
      return;
    }
    if !test {
      assert item in f[cylinder].list;
      TakeOut(game, cylinder, item, n);
    }
  }

  /** removeThing, and the release of what is no container. */
  method TakeOut(game: Game, cylinder: Item, item: Item, n: nat)
    requires game.Valid() && item in game.items && cylinder in game.items && item in cylinder.itemlist
    requires 1 <= n && (item.kind.stackable ==> n <= item.count) && item.parent == cylinder
    modifies game, game.items
    ensures game.Valid() && game.items <= old(game.items)
    ensures !item.isContainer ==>
              Removed<Item>(old(Snap(game.items)), Snap(game.items), item,
                  if old(item.kind.stackable) then n else old(item.count))
    ensures item.isContainer ==>
              && game.items == old(game.items)
              && TookWhole<Item>(old(Snap(game.items)), Snap(game.items), cylinder, item)
  {
    ghost var f: World<Item> := Snap(game.items);
    assert DownOk(f, item) && StackedAt(f, item);
    if item.kind.stackable {
      game.TakePieces(cylinder, item, n);
      TookRemoves<Item>(f, Snap(game.items), cylinder, item, n);
    } else {
      game.TakeItem(cylinder, item, n);
      ghost var g: World<Item> := Snap(game.items);
      assert g[item] == item.State();
      if !item.isContainer {
        game.DropItem(item);
        TookWholeRemoves<Item>(f, g, Snap(game.items), cylinder, item, f[item].count);
      }
    }
  }

  // ----- money, and where it lies -----

  /** y lies in one of the containers of Z. */
  ghost predicate LiesIn<R>(f: World<R>, Z: set<R>, y: R)
    requires y in f
  {
    f[y].parent.Some? && f[y].parent.value in Z
  }

  /** y is money that lies in one of the containers of Z. */
  ghost predicate Coin<R>(f: World<R>, Z: set<R>, y: R) {
    y in f && LiesIn(f, Z, y) && !f[y].isContainer && f[y].kind.worth > 0
  }

  /**
   What is no money in Z is as it was, but for lists in Z and cached weights; and whatever else is there now is
   money in Z.
   */
  ghost predicate OnlyMoney<R>(f: World<R>, r: World<R>, Z: set<R>) {
    && (forall y {:trigger MoneyOnly(f, r, Z, y)} | y in f && !Coin(f, Z, y) :: MoneyOnly(f, r, Z, y))
    && (forall y {:trigger Coin(r, Z, y)} | y in r && !Coin(r, Z, y) :: y in f && !Coin(f, Z, y))
  }

  ghost predicate MoneyOnly<R>(f: World<R>, r: World<R>, Z: set<R>, y: R)
    requires y in f
  {
    && y in r && KeyOf(r[y]) == KeyOf(f[y]) && r[y].count == f[y].count && r[y].parent == f[y].parent
    && r[y].isContainer == f[y].isContainer && r[y].maxSize == f[y].maxSize && (y !in Z ==> r[y].list == f[y].list)
  }

  lemma OnlyMoneySame<R>(f: World<R>, Z: set<R>)
    ensures OnlyMoney(f, f, Z)
  {
  }

  /** Money in some containers of Z is money in Z. */
  lemma OnlyMoneyWidens<R>(f: World<R>, g: World<R>, Y: set<R>, Z: set<R>)
    requires OnlyMoney(f, g, Y) && Y <= Z
    ensures OnlyMoney(f, g, Z)
  {
    forall y {:trigger MoneyOnly(f, g, Z, y)} | y in f && !Coin(f, Z, y)
      ensures MoneyOnly(f, g, Z, y)
    {
      assert !Coin(f, Y, y) && MoneyOnly(f, g, Y, y);
    }
    forall y {:trigger Coin(g, Z, y)} | y in g && !Coin(g, Z, y)
      ensures y in f && !Coin(f, Z, y)
    {
      assert !Coin(g, Y, y);
      assert MoneyOnly(f, g, Y, y);
    }
  }

  lemma OnlyMoneyTrans<R>(f: World<R>, g: World<R>, r: World<R>, Z: set<R>)
    requires OnlyMoney(f, g, Z) && OnlyMoney(g, r, Z)
    ensures OnlyMoney(f, r, Z)
  {
    forall y {:trigger MoneyOnly(f, r, Z, y)} | y in f && !Coin(f, Z, y)
      ensures MoneyOnly(f, r, Z, y)
    {
      assert MoneyOnly(f, g, Z, y) && !Coin(g, Z, y) && MoneyOnly(g, r, Z, y);
    }
    forall y {:trigger Coin(r, Z, y)} | y in r && !Coin(r, Z, y)
      ensures y in f && !Coin(f, Z, y)
    {
      assert !Coin(g, Z, y);
    }
  }

  /** What removeMoney counts: the worth of everything that is no container. */
  function CoinMeasure<R>(): Node<R> -> int {
    (n: Node<R>) => if n.isContainer then 0 else Amount(Worth(), n)
  }

  /** The worth of all coins inside c, at any depth. */
  ghost function Purse<R>(f: World<R>, depth: map<R, nat>, c: R): int
    requires Acyclic(f, depth) && c in f
  {
    SumAll(Restricted(f, Inside(f, depth, c)), CoinMeasure())
  }

  ghost function Restricted<R>(f: World<R>, s: set<R>): World<R> {
    map y | y in s && y in f :: f[y]
  }

  ghost function CoinsIn<R>(f: World<R>, Z: set<R>): set<R> {
    set y | y in f && Coin(f, Z, y)
  }

  /** The worth of the money that lies directly in the containers of Z. */
  ghost function WorthIn<R>(f: World<R>, Z: set<R>): int {
    SumAll(Restricted(f, CoinsIn(f, Z)), Of(Worth()))
  }

  /** c and the containers inside it, at any depth. */
  ghost function Reach<R>(f: World<R>, depth: map<R, nat>, c: R): set<R>
    requires Acyclic(f, depth) && c in f
  {
    {c} + set y | y in Inside(f, depth, c) && y in f && f[y].isContainer
  }

  /** The money inside c, at any depth, and that on the drop tile, unless the drop is inside c itself. */
  ghost function Takings<R>(f: World<R>, depth: map<R, nat>, c: R, drop: R): int
    requires Acyclic(f, depth) && c in f
  {
    Purse(f, depth, c) + if drop in Reach(f, depth, c) then 0 else WorthIn(f, {drop})
  }

  /** a and b are the part of f in S and the rest. */
  ghost predicate Parts<R>(f: World<R>, S: set<R>, a: World<R>, b: World<R>) {
    && a.Keys == f.Keys * S && b.Keys == f.Keys - S
    && (forall y | y in a :: a[y] == f[y]) && (forall y | y in b :: b[y] == f[y])
  }

  /** Adding up over f is adding up over its part in S and over the rest. */
  lemma {:induction false} PartsAddUp<R>(f: World<R>, S: set<R>, a: World<R>, b: World<R>, g: Node<R> -> int)
    requires Parts(f, S, a, b)
    ensures SumAll(f, g) == SumAll(a, g) + SumAll(b, g)
    decreases |f|
  {
    if |f| == 0 {
      assert f == map[] && a == map[] && b == map[];
    } else {
      var x := Pick(f);
      PartsLess(f, S, a, b, x);
      PartsAddUp(f - {x}, S, a - {x}, b - {x}, g);
      SumAllTake(f, x, g);
      if x in S {
        SumAllTake(a, x, g);
      } else {
        SumAllTake(b, x, g);
      }
    }
  }

  lemma PartsLess<R>(f: World<R>, S: set<R>, a: World<R>, b: World<R>, x: R)
    requires Parts(f, S, a, b) && x in f
    ensures Parts(f - {x}, S, a - {x}, b - {x})
    ensures if x in S then x in a && a[x] == f[x] && b - {x} == b else x in b && b[x] == f[x] && a - {x} == a
  {
  }

  lemma SumSplits<R>(f: World<R>, S: set<R>, g: Node<R> -> int)
    ensures SumAll(f, g) == SumAll(Restricted(f, S), g) + SumAll(f - S, g)
  {
    PartsAddUp(f, S, Restricted(f, S), f - S, g);
  }

  lemma {:induction false} SumOfNothing<R>(f: World<R>, S: set<R>, g: Node<R> -> int)
    requires S == f.Keys && forall y | y in f :: g(f[y]) == 0
    ensures SumAll(f, g) == 0
    decreases |S|
  {
    if S != {} {
      var x :| x in S;
      SumAllTake(f, x, g);
      SumOfNothing(f - {x}, S - {x}, g);
    }
  }

  /** What is no money in Z is the same, so it is worth the same. */
  lemma RestStays<R>(f: World<R>, r: World<R>, Z: set<R>)
    requires OnlyMoney(f, r, Z)
    ensures SumAll(r - CoinsIn(r, Z), Of(Worth())) == SumAll(f - CoinsIn(f, Z), Of(Worth()))
  {
    var f', r' := f - CoinsIn(f, Z), r - CoinsIn(r, Z);
    forall y | y in f'
      ensures y in r' && Amount(Worth(), f'[y]) == Amount(Worth(), r'[y])
    {
      assert !Coin(f, Z, y) && MoneyOnly(f, r, Z, y);
    }
    forall y | y in r'
      ensures y in f'
    {
      assert !Coin(r, Z, y);
    }
    SumAllFrame(f', r', Of(Worth()));
  }

  /** What changes the worth of everything changes that of the money in Z, when nothing else is touched. */
  lemma WorthShifts<R>(f: World<R>, r: World<R>, Z: set<R>)
    requires OnlyMoney(f, r, Z)
    ensures WorthIn(r, Z) - WorthIn(f, Z) == SumAll(r, Of(Worth())) - SumAll(f, Of(Worth()))
  {
    SumSplits(f, CoinsIn(f, Z), Of(Worth()));
    SumSplits(r, CoinsIn(r, Z), Of(Worth()));
    RestStays(f, r, Z);
  }

  /** An item is inside c exactly when it lies in a container that is c or inside c. */
  lemma InsideLiesIn<R>(f: World<R>, depth: map<R, nat>, c: R, y: R)
    requires Linked(f) && Acyclic(f, depth) && c in f && y in f
    ensures y in Inside(f, depth, c) <==> LiesIn(f, Reach(f, depth, c), y)
  {
    assert UpOk(f, y) && Below(f, depth, y);
    if f[y].parent.Some? {
      var p := f[y].parent.value;
      assert DownOk(f, p) && f[p].isContainer;
      if y == c {
        if p in Inside(f, depth, c) {
          UnderIsBelow(f, depth, p, c);
        }
      } else {
        assert Under(f, depth, y, c) <==> Under(f, depth, p, c);
        assert Under(f, depth, p, c) <==> p == c || p in Inside(f, depth, c);
      }
    }
  }

  /** What is inside c and no money counts for nothing. */
  lemma NoMoneyIsNothing<R>(f: World<R>, inside: World<R>, Z: set<R>)
    requires forall y | y in inside :: y in f && inside[y] == f[y] && LiesIn(f, Z, y)
    ensures SumAll(inside - CoinsIn(f, Z), CoinMeasure()) == 0
  {
    var rest := inside - CoinsIn(f, Z);
    forall y | y in rest
      ensures CoinMeasure()(rest[y]) == 0
    {
      assert !Coin(f, Z, y);
      TimesIsProduct(f[y].kind.worth, f[y].count);
    }
    SumOfNothing(rest, rest.Keys, CoinMeasure());
  }

  /** The purse is the money in reach. */
  lemma PurseIsInReach<R>(f: World<R>, depth: map<R, nat>, c: R)
    requires Linked(f) && Acyclic(f, depth) && c in f
    ensures Purse(f, depth, c) == WorthIn(f, Reach(f, depth, c))
  {
    var Z, inside := Reach(f, depth, c), Restricted(f, Inside(f, depth, c));
    var coins := CoinsIn(f, Z);
    forall y | y in f
      ensures y in inside <==> LiesIn(f, Z, y)
    {
      InsideLiesIn(f, depth, c, y);
    }
    SumSplits(inside, coins, CoinMeasure());
    NoMoneyIsNothing(f, inside, Z);
    CoinsMeasured(f, inside, Z);
  }

  lemma CoinsMeasured<R>(f: World<R>, inside: World<R>, Z: set<R>)
    requires forall y | y in inside :: y in f && inside[y] == f[y]
    requires forall y | y in CoinsIn(f, Z) :: y in inside
    ensures SumAll(Restricted(inside, CoinsIn(f, Z)), CoinMeasure()) == WorthIn(f, Z)
  {
    var coins := Restricted(f, CoinsIn(f, Z));
    assert Restricted(inside, CoinsIn(f, Z)) == coins;
    forall y | y in coins
      ensures CoinMeasure()(coins[y]) == Of(Worth())(coins[y])
    {
      assert Coin(f, Z, y);
    }
    SameMeasure(coins, CoinMeasure(), Of(Worth()), coins.Keys);
  }

  /** An item lies in one container at most, so money in Z and money in another container add up. */
  lemma CoinsApart<R>(f: World<R>, Z: set<R>, drop: R)
    requires drop !in Z
    ensures WorthIn(f, Z + {drop}) == WorthIn(f, Z) + WorthIn(f, {drop})
  {
    var both, one, other := CoinsIn(f, Z + {drop}), CoinsIn(f, Z), CoinsIn(f, {drop});
    forall y
      ensures y in both <==> y in one || y in other
      ensures !(y in one && y in other)
    {
      assert Coin(f, Z + {drop}, y) <==> Coin(f, Z, y) || Coin(f, {drop}, y);
    }
    PartsAddUp(Restricted(f, both), one, Restricted(f, one), Restricted(f, other), Of(Worth()));
  }

  lemma TakingsAreInZ<R>(f: World<R>, depth: map<R, nat>, c: R, drop: R)
    requires Linked(f) && Acyclic(f, depth) && c in f
    ensures Takings(f, depth, c, drop) == WorthIn(f, Reach(f, depth, c) + {drop})
  {
    var Z := Reach(f, depth, c);
    PurseIsInReach(f, depth, c);
    if drop in Z {
      assert Z + {drop} == Z;
    } else {
      CoinsApart(f, Z, drop);
    }
  }

  /** Containers stay where they are, and so does what is inside what. */
  lemma {:induction false} UnderStays<R>(
      f: World<R>, depth: map<R, nat>, r: World<R>, depth': map<R, nat>, Z: set<R>, c: R, y: R)
    requires Linked(f) && Acyclic(f, depth) && Acyclic(r, depth') && OnlyMoney(f, r, Z)
    requires y in f && f[y].isContainer
    ensures y in r && (Under(r, depth', y, c) <==> Under(f, depth, y, c))
    decreases depth[y]
  {
    assert MoneyOnly(f, r, Z, y) && UpOk(f, y) && Below(f, depth, y);
    if y != c && f[y].parent.Some? {
      assert DownOk(f, f[y].parent.value);
      UnderStays(f, depth, r, depth', Z, c, f[y].parent.value);
    }
  }

  lemma ReachStays<R>(f: World<R>, depth: map<R, nat>, r: World<R>, depth': map<R, nat>, Z: set<R>, c: R)
    requires Linked(f) && Acyclic(f, depth) && Acyclic(r, depth') && OnlyMoney(f, r, Z) && c in f && f[c].isContainer
    ensures c in r && Reach(r, depth', c) == Reach(f, depth, c)
  {
    assert MoneyOnly(f, r, Z, c);
    forall y
      ensures y in Reach(r, depth', c) <==> y in Reach(f, depth, c)
    {
      if y in r && r[y].isContainer {
        assert !Coin(r, Z, y) && MoneyOnly(f, r, Z, y);
      }
      if y in f && f[y].isContainer {
        assert MoneyOnly(f, r, Z, y);
        UnderStays(f, depth, r, depth', Z, c, y);
      }
    }
  }

  /** What is paid or given is paid out of, or into, the cylinder and the drop. */
  lemma TakingsShift<R>(f: World<R>, depth: map<R, nat>, r: World<R>, depth': map<R, nat>, c: R, drop: R)
    requires Linked(f) && Acyclic(f, depth) && Linked(r) && Acyclic(r, depth') && c in f && f[c].isContainer
    requires OnlyMoney(f, r, Reach(f, depth, c) + {drop})
    ensures c in r
    ensures Takings(r, depth', c, drop) - Takings(f, depth, c, drop)
         == SumAll(r, Of(Worth())) - SumAll(f, Of(Worth()))
  {
    var Z := Reach(f, depth, c) + {drop};
    ReachStays(f, depth, r, depth', Z, c);
    TakingsAreInZ(f, depth, c, drop);
    TakingsAreInZ(r, depth', c, drop);
    WorthShifts(f, r, Z);
  }

  // ----- addMoney -----

  /**
   Everything in f is still in r where it was; only stacks of an item type worth 1 to bound that lie in Z may have
   another count, and only containers of Z another list. What is new is money in Z.
   */
  ghost predicate OnlyCoins<R>(f: World<R>, r: World<R>, Z: set<R>, bound: nat) {
    && (forall y {:trigger CoinSpared(f, r, Z, y, bound)} | y in f :: CoinSpared(f, r, Z, y, bound))
    && (forall y {:trigger Coin(r, Z, y)} | y in r && y !in f :: Coin(r, Z, y))
  }

  ghost predicate CoinSpared<R>(f: World<R>, r: World<R>, Z: set<R>, y: R, bound: nat)
    requires y in f
  {
    && y in r && KeyOf(r[y]) == KeyOf(f[y]) && r[y].parent == f[y].parent
    && r[y].isContainer == f[y].isContainer && r[y].maxSize == f[y].maxSize
    && (y !in Z ==> r[y].list == f[y].list)
    && (!(1 <= f[y].kind.worth <= bound && f[y].kind.stackable && LiesIn(f, Z, y)) ==> r[y].count == f[y].count)
    && r[y].count >= f[y].count
  }

  lemma OnlyCoinsWidens<R>(f: World<R>, r: World<R>, Y: set<R>, Z: set<R>, bound: nat)
    requires OnlyCoins(f, r, Y, bound) && Y <= Z
    ensures OnlyCoins(f, r, Z, bound)
  {
    forall y {:trigger CoinSpared(f, r, Z, y, bound)} | y in f
      ensures CoinSpared(f, r, Z, y, bound)
    {
      assert CoinSpared(f, r, Y, y, bound);
    }
    forall y {:trigger Coin(r, Z, y)} | y in r && y !in f
      ensures Coin(r, Z, y)
    {
      assert Coin(r, Y, y);
    }
  }

  /** What is paid or given within c and the containers inside it changes the purse by that much. */
  lemma PurseShift<R>(f: World<R>, depth: map<R, nat>, r: World<R>, depth': map<R, nat>, c: R)
    requires Linked(f) && Acyclic(f, depth) && Linked(r) && Acyclic(r, depth') && c in f && f[c].isContainer
    requires OnlyMoney(f, r, Reach(f, depth, c))
    ensures c in r
    ensures Purse(r, depth', c) - Purse(f, depth, c) == SumAll(r, Of(Worth())) - SumAll(f, Of(Worth()))
  {
    ReachStays(f, depth, r, depth', Reach(f, depth, c), c);
    PurseIsInReach(f, depth, c);
    PurseIsInReach(r, depth', c);
    WorthShifts(f, r, Reach(f, depth, c));
  }

  lemma OnlyCoinsTrans<R>(f: World<R>, g: World<R>, r: World<R>, Z: set<R>, bound: nat)
    requires OnlyCoins(f, g, Z, bound) && OnlyCoins(g, r, Z, bound)
    ensures OnlyCoins(f, r, Z, bound)
  {
    forall y {:trigger CoinSpared(f, r, Z, y, bound)} | y in f
      ensures CoinSpared(f, r, Z, y, bound)
    {
      assert CoinSpared(f, g, Z, y, bound) && CoinSpared(g, r, Z, y, bound);
    }
    forall y {:trigger Coin(r, Z, y)} | y in r && y !in f
      ensures Coin(r, Z, y)
    {
      if y in g {
        assert Coin(g, Z, y) && CoinSpared(g, r, Z, y, bound);
      }
    }
  }

  /** Adding the new stack x of coins to c spares everything that was there before it. */
  lemma NewStackIsCoins<R>(
      f: World<R>, h: World<R>, r: World<R>, c: R, x: R, kind: ItemType, n: Node<R>, Z: set<R>, bound: nat)
    requires x !in f && h == f[x := n] && Spares(h, r, c, x, Key(kind, map[])) && c in Z && !n.isContainer
    requires 1 <= kind.worth <= bound && kind.stackable
    ensures OnlyCoins(f, r, Z, bound)
  {
    forall y {:trigger CoinSpared(f, r, Z, y, bound)} | y in f
      ensures CoinSpared(f, r, Z, y, bound)
    {
      assert Spared(h, r, c, y, Key(kind, map[]));
    }
    forall y {:trigger Coin(r, Z, y)} | y in r && y !in f
      ensures Coin(r, Z, y)
    {
      assert Newcomer(h, r, c, y, Key(kind, map[]));
    }
  }

  lemma CoinsAreMoney<R>(f: World<R>, g: World<R>, Z: set<R>, bound: nat)
    requires OnlyCoins(f, g, Z, bound) && Stacked(f)
    ensures OnlyMoney(f, g, Z)
  {
    forall y {:trigger MoneyOnly(f, g, Z, y)} | y in f && !Coin(f, Z, y)
      ensures MoneyOnly(f, g, Z, y)
    {
      assert CoinSpared(f, g, Z, y, bound) && StackedAt(f, y);
    }
    forall y {:trigger Coin(g, Z, y)} | y in g && !Coin(g, Z, y)
      ensures y in f && !Coin(f, Z, y)
    {
      if y in f {
        assert CoinSpared(f, g, Z, y, bound);
      }
    }
  }

  /** A drop tile, modelled as a container without a limit, takes every new stack that can be picked up. */
  lemma DropTakes<R>(f: World<R>, depth: map<R, nat>, drop: R, x: R, flags: Flags)
    requires WellFormed(f, depth) && drop in f && f[drop].isContainer && x in f && f[x].list == [] && drop != x
    requires f[x].kind.pickupable && flags.noLimit && !flags.childIsOwner
    ensures CanAdd(f, depth, drop, INDEX_WHEREEVER, x, flags)
  {
    SlotIsContainer(f, drop, INDEX_WHEREEVER);
    UnderLeaf(f, depth, drop, x);
  }

  lemma NewStackGains<R>(f: World<R>, h: World<R>, r: World<R>, c: R, x: R, kind: ItemType, n: nat)
    requires Linked(f) && x !in f && h == f[x := Node(kind, map[], n, None, false, 0, [], 0)]
    requires Added(h, r, c, Key(kind, map[]), n, 0)
    ensures SumAll(r, Of(Worth())) == SumAll(f, Of(Worth())) + Times(kind.worth, n)
  {
    BornMoves(f, x, h[x], Worth());
    assert AddedOf(h, r, c, Key(kind, map[]), n, 0, Worth());
  }

  /** A new stack of coins has come into c. */
  lemma NewCoins<R>(f: World<R>, h: World<R>, r: World<R>, c: R, x: R, kind: ItemType, n: nat, Z: set<R>, bound: nat)
    requires Linked(f) && x !in f && h == f[x := Node(kind, map[], n, None, false, 0, [], 0)] && c in Z
    requires Added(h, r, c, Key(kind, map[]), n, 0) && Spares(h, r, c, x, Key(kind, map[]))
    requires 1 <= kind.worth <= bound && kind.stackable
    ensures OnlyCoins(f, r, Z, bound) && SumAll(r, Of(Worth())) == SumAll(f, Of(Worth())) + Times(kind.worth, n)
  {
    NewStackGains(f, h, r, c, x, kind, n);
    NewStackIsCoins(f, h, r, c, x, kind, h[x], Z, bound);
  }

  const DROP_FLAGS: Flags := Flags(true, false, false, false)

  /** The new stack goes to the cylinder when that has room for it, and else to the tile. */
  method AddOrDrop(game: Game, cylinder: Item, drop: Item, stack: Item, flags: Flags) returns (ghost to: Item)
    requires game.Valid() && cylinder in game.items && cylinder.isContainer && drop in game.items && drop.isContainer
    requires stack in game.items && stack.parent == null && stack.itemlist == [] && stack.kind.pickupable
    requires !flags.childIsOwner && stack != drop && stack != cylinder && stack.kind.stackable
    modifies game, game.items
    ensures game.Valid() && (forall y | y in game.items :: y in old(game.items) || fresh(y))
    ensures forall y | y in old(cylinder.itemlist) :: y in old(game.items)
    ensures to == if old(RoomForStack<Item>(Snap(game.items), cylinder, stack, flags)) then cylinder else drop
    ensures Added<Item>(old(Snap(game.items)), Snap(game.items), to, old(Key(stack.kind, stack.attrs)),
            old(stack.count), 0)
    ensures Spares<Item>(old(Snap(game.items)), Snap(game.items), to, stack, old(Key(stack.kind, stack.attrs)))
  {
    ghost var h: World<Item> := Snap(game.items);
    assert DownOk(h, cylinder) && h[stack].list == [];
    RoomForStackIs<Item>(h, game.depth, cylinder, stack, flags);
    to := cylinder;
    var ret := AddStack(game, cylinder, stack, flags);
    if ret != NoError {
      assert stack.State() == h[stack];
      DropTakes<Item>(h, game.depth, drop, stack, DROP_FLAGS);
      to := drop;
      ret := AddStack(game, drop, stack, DROP_FLAGS);
    }
  }

  /** internalAddItem of a new stack, at no particular index. */
  method AddStack(game: Game, to: Item, stack: Item, flags: Flags) returns (ret: ReturnValue)
    requires game.Valid() && to in game.items && to.isContainer && stack in game.items && stack.parent == null
    requires !flags.childIsOwner
    modifies game, game.items
    ensures game.Valid() && (forall y | y in game.items :: y in old(game.items) || fresh(y))
    ensures (ret == NoError) == CanAdd<Item>(old(Snap(game.items)), old(game.depth), to, INDEX_WHEREEVER, stack, flags)
    ensures ret != NoError ==>
              && game.items == old(game.items) && Snap(game.items) == old(Snap(game.items))
              && game.depth == old(game.depth)
    ensures ret == NoError ==>
              && Added<Item>(old(Snap(game.items)), Snap(game.items), to, old(Key(stack.kind, stack.attrs)),
                   old(stack.count), 0)
              && Spares<Item>(old(Snap(game.items)), Snap(game.items), to, stack, old(Key(stack.kind, stack.attrs)))
  {
    ghost var h: World<Item> := Snap(game.items);
    var remainder;
    ghost var kept, dest, at, slot;
    ret, remainder, kept, dest, at, slot := game.InternalAddItem(to, stack, INDEX_WHEREEVER, flags, false);
    if ret == NoError {
      AddedIs<Item>(h, Snap(game.items), to, KeyOf(h[stack]), kept, remainder, h[stack].count, 0);
    }
  }

  /** A stack that has come into c takes up one slot at most. */
  lemma OneSlotMore<R>(f: World<R>, r: World<R>, c: R)
    requires ListGrows(f, r, c)
    ensures |f[c].list| <= |r[c].list| <= |f[c].list| + 1
  {
  }

  /** The new stack of coins x comes into the cylinder or onto the drop; f is the world without it. */
  method AddCoinStack(
      game: Game, cylinder: Item, drop: Item, x: Item, n: nat, flags: Flags, ghost f: World<Item>, ghost bound: nat)
    returns (ghost to: Item)
    requires game.Valid() && cylinder in game.items && cylinder.isContainer && drop in game.items && drop.isContainer
    requires !flags.childIsOwner && x in game.items && x.State() == Node(x.kind, map[], n, None, false, 0, [], 0)
    requires x.kind.stackable && x.kind.pickupable && 1 <= x.kind.worth <= bound
    requires Linked(f) && x !in f && Snap(game.items) == f[x := x.State()]
    modifies game, game.items
    ensures game.Valid() && (forall y | y in game.items :: y in old(game.items) || fresh(y))
    ensures to == cylinder || (to == drop && !flags.noLimit && |old(cylinder.itemlist)| >= cylinder.maxSize)
    ensures OnlyCoins<Item>(f, Snap(game.items), {to}, bound) && ListGrows<Item>(f, Snap(game.items), to)
    ensures SumAll<Item>(Snap(game.items), Of(Worth())) == SumAll<Item>(f, Of(Worth())) + Times(old(x.kind).worth, n)
  {
    ghost var h: World<Item> := Snap(game.items);
    ghost var kind := x.kind;
    assert x != drop && x != cylinder by { assert drop.State().isContainer && cylinder.State().isContainer; }
    to := AddOrDrop(game, cylinder, drop, x, flags);
    assert h[to] == f[to];
    NewCoins<Item>(f, h, Snap(game.items), to, x, kind, n, {to}, bound);
  }

  /** There is a slot in the cylinder for each of n stacks, or none is needed. */
  ghost predicate SlotsFor(cylinder: Item, n: nat, flags: Flags)
    reads cylinder
  {
    flags.noLimit || |cylinder.itemlist| + n <= cylinder.maxSize
  }

  /** The same, seen from the cylinder: with a slot for the stack nothing comes onto the drop. */
  method AddNewStack(
      game: Game, cylinder: Item, drop: Item, x: Item, n: nat, flags: Flags, ghost f: World<Item>,
      ghost Z: set<Item>, ghost bound: nat)
    requires game.Valid() && cylinder in f && cylinder.isContainer && drop in f && drop.isContainer
    requires !flags.childIsOwner && x in game.items && x.State() == Node(x.kind, map[], n, None, false, 0, [], 0)
    requires x.kind.stackable && x.kind.pickupable && 1 <= x.kind.worth <= bound
    requires Linked(f) && x !in f && Snap(game.items) == f[x := x.State()]
    requires cylinder in Z && (drop in Z || SlotsFor(cylinder, 1, flags))
    modifies game, game.items
    ensures game.Valid() && (forall y | y in game.items :: y in old(game.items) || fresh(y))
    ensures OnlyCoins<Item>(f, Snap(game.items), Z, bound)
    ensures cylinder in Snap(game.items) && |Snap(game.items)[cylinder].list| <= |f[cylinder].list| + 1
    ensures SumAll<Item>(Snap(game.items), Of(Worth())) == SumAll<Item>(f, Of(Worth())) + Times(old(x.kind).worth, n)
  {
    assert Snap(game.items)[cylinder] == cylinder.State() && Snap(game.items)[drop] == drop.State();
    ghost var to := AddCoinStack(game, cylinder, drop, x, n, flags, f, bound);
    StackLands(f, Snap(game.items), cylinder, to, Z, bound);
  }

  /** The body of the loop of addMoney: one more stack of coins. */
  method AddCoins(
      game: Game, cylinder: Item, drop: Item, kind: ItemType, n: nat, flags: Flags, ghost Z: set<Item>,
      ghost bound: nat)
    requires game.Valid() && cylinder in game.items && cylinder.isContainer && drop in game.items && drop.isContainer
    requires !flags.childIsOwner && kind.stackable && kind.pickupable && 1 <= n <= StackSize(kind) <= 255
    requires 1 <= kind.worth <= bound && cylinder in Z && (drop in Z || SlotsFor(cylinder, 1, flags))
    modifies game, game.items
    ensures game.Valid() && (forall y | y in game.items :: y in old(game.items) || fresh(y))
    ensures OnlyCoins<Item>(old(Snap(game.items)), Snap(game.items), Z, bound)
    ensures |cylinder.itemlist| <= |old(cylinder.itemlist)| + 1
    ensures SumAll<Item>(Snap(game.items), Of(Worth()))
            == old(SumAll<Item>(Snap(game.items), Of(Worth()))) + Times(kind.worth, n)
  {
    ghost var f: World<Item> := Snap(game.items);
    assert f[cylinder] == cylinder.State() && Linked(f);
    var remaindItem := game.NewStack(kind, map[], n);
    ghost var mid := game.items;
    assert mid == old(game.items) + {remaindItem};
    AddNewStack(game, cylinder, drop, remaindItem, n, flags, f, Z, bound);
    forall y | y in game.items
      ensures y in old(game.items) || fresh(y)
    {
      assert y in mid ==> y in old(game.items) || y == remaindItem;
    }
  }

  lemma StackLands(f: World<Item>, r: World<Item>, cylinder: Item, to: Item, Z: set<Item>, bound: nat)
    requires OnlyCoins(f, r, {to}, bound) && ListGrows(f, r, to) && cylinder in f && to in Z
    ensures OnlyCoins(f, r, Z, bound) && cylinder in r && |r[cylinder].list| <= |f[cylinder].list| + 1
  {
    assert CoinSpared(f, r, {to}, cylinder, bound);
    OnlyCoinsWidens(f, r, {to}, Z, bound);
  }

  /** One round of addMoney: few enough coins, and a rest that is smaller than one of them. */
  method NextCoins(currency: seq<Currency>, i: nat, left: nat, ghost money: nat) returns (coins: nat, rest: nat)
    requires TableOk(currency) && i < |currency| && left <= money < 0x1_0000 * currency[0].worth
    requires if i > 0 then left < currency[i - 1].worth else left == money
    ensures CurrencyOk(currency[i]) && coins <= 65535 && rest < currency[i].worth && rest <= left
    ensures Times(currency[i].worth, coins) + rest == left
    ensures coins > 0 ==> currency[i].worth <= money
    ensures i + 1 == |currency| ==> rest == 0
    ensures coins == left / currency[i].worth && rest == left % currency[i].worth
  {
    assert RowOk(currency, i) && RowOk(currency, 0);
    coins, rest := Divide(left, currency[i].worth);
    assert i > 0 ==> left < 65535 * currency[i].worth;
  }

  method Divide(left: nat, worth: nat) returns (coins: nat, rest: nat)
    requires worth > 0
    ensures Times(worth, coins) + rest == left && rest < worth && rest <= left
    ensures left < worth ==> coins == 0
    ensures left < 0x1_0000 * worth ==> coins <= 65535
    ensures coins == left / worth && rest == left % worth
  {
    coins, rest := left / worth, left % worth;
    TimesIsProduct(worth, coins);
    assert worth * coins + rest == left;
    if left < 0x1_0000 * worth {
      NoMore(worth, coins, 65535);
    }
    if left < worth {
      NoMore(worth, coins, 0);
    }
  }

  /** How many stacks of at most 100 coins there are in some coins of one kind. */
  function StacksOf(coins: nat): nat {
    (coins + 99) / 100
  }

  /** How many stacks an amount is given in, from row i of the table on, the largest coins first. */
  ghost function StacksToGive(currency: seq<Currency>, i: nat, money: nat): nat
    requires i <= |currency| && forall k | 0 <= k < |currency| :: currency[k].worth > 0
    decreases |currency| - i
  {
    if i == |currency| then 0
    else StacksOf(money / currency[i].worth) + StacksToGive(currency, i + 1, money % currency[i].worth)
  }

  lemma WorthsArePositive(currency: seq<Currency>)
    requires TableOk(currency)
    ensures forall k | 0 <= k < |currency| :: currency[k].worth > 0
  {
    forall k | 0 <= k < |currency|
      ensures currency[k].worth > 0
    {
      assert RowOk(currency, k);
    }
  }

  /** The cylinder has a slot for every stack in which the amount is given. */
  ghost predicate SlotsForAll(cylinder: Item, money: nat, flags: Flags, currency: seq<Currency>)
    requires TableOk(currency)
    reads cylinder
  {
    WorthsArePositive(currency);
    SlotsFor(cylinder, StacksToGive(currency, 0, money), flags)
  }

  /**
   Gives money in coins, the largest first; all of it comes into the cylinder or onto the drop, and all of it into the
   cylinder when that has a slot for every stack.
   */
  method AddMoney(game: Game, cylinder: Item, drop: Item, money: nat, flags: Flags, currency: seq<Currency>)
    requires game.Valid() && cylinder in game.items && cylinder.isContainer && drop in game.items && drop.isContainer
    requires !flags.childIsOwner && TableOk(currency) && money < 0x1_0000 * currency[0].worth
    modifies game, game.items
    ensures game.Valid() && (forall y | y in game.items :: y in old(game.items) || fresh(y))
    ensures OnlyCoins<Item>(old(Snap(game.items)), Snap(game.items), {cylinder, drop}, money)
    ensures cylinder in game.items
    ensures Takings<Item>(Snap(game.items), game.depth, cylinder, drop)
         == old(Takings<Item>(Snap(game.items), game.depth, cylinder, drop)) + money
    ensures SumAll<Item>(Snap(game.items), Of(Worth())) == old(SumAll<Item>(Snap(game.items), Of(Worth()))) + money
    ensures old(SlotsForAll(cylinder, money, flags, currency)) ==>
              && OnlyCoins<Item>(old(Snap(game.items)), Snap(game.items), {cylinder}, money)
              && Purse<Item>(Snap(game.items), game.depth, cylinder)
                 == old(Purse<Item>(Snap(game.items), game.depth, cylinder)) + money
    ensures old(SlotsForAll(cylinder, money, flags, currency)) && drop != cylinder ==>
              && drop.itemlist == old(drop.itemlist)
              && forall y | y in drop.itemlist :: y in old(game.items) && y.count == old(y.count)
  {
    if money == 0 {
      assert DownOk(Snap(game.items), drop);
      return;
    }
    ghost var f: World<Item> := Snap(game.items);
    ghost var d, enough := game.depth, SlotsForAll(cylinder, money, flags, currency);
    ghost var Z := if enough then {cylinder} else {cylinder, drop};
    GiveCoins(game, cylinder, drop, money, flags, currency, Z);
    GivenWhere(f, d, Snap(game.items), game.depth, cylinder, drop, money, Z);
    if enough && drop != cylinder {
      DropUntouched(f, Snap(game.items), cylinder, drop, money);
    }
  }

  /** Where given coins count. */
  lemma GivenWhere(
      f: World<Item>, depth: map<Item, nat>, r: World<Item>, depth': map<Item, nat>, c: Item, drop: Item, money: nat,
      Z: set<Item>)
    requires WellFormed(f, depth) && WellFormed(r, depth') && c in f && f[c].isContainer
    requires OnlyCoins(f, r, Z, money) && (Z == {c} || Z == {c, drop})
    requires SumAll(r, Of(Worth())) == SumAll(f, Of(Worth())) + money
    ensures c in r && OnlyCoins(f, r, {c, drop}, money)
    ensures Takings(r, depth', c, drop) == Takings(f, depth, c, drop) + money
    ensures Z == {c} ==> Purse(r, depth', c) == Purse(f, depth, c) + money
  {
    OnlyCoinsWidens(f, r, Z, {c, drop}, money);
    CoinsAreMoney(f, r, {c, drop}, money);
    OnlyMoneyWidens(f, r, {c, drop}, Reach(f, depth, c) + {drop});
    TakingsShift(f, depth, r, depth', c, drop);
    if Z == {c} {
      CoinsAreMoney(f, r, Z, money);
      OnlyMoneyWidens(f, r, Z, Reach(f, depth, c));
      PurseShift(f, depth, r, depth', c);
    }
  }

  lemma DropUntouched(f: World<Item>, r: World<Item>, c: Item, drop: Item, money: nat)
    requires Linked(f) && OnlyCoins(f, r, {c}, money) && drop in f && drop != c
    ensures drop in r && r[drop].list == f[drop].list
    ensures forall y | y in f[drop].list :: y in f && y in r && r[y].count == f[y].count
  {
    assert CoinSpared(f, r, {c}, drop, money) && DownOk(f, drop);
    forall y | y in f[drop].list
      ensures y in f && y in r && r[y].count == f[y].count
    {
      assert f[y].parent == Some(drop) && CoinSpared(f, r, {c}, y, money);
    }
  }

  /** The loop of addMoney over the kinds of coins. */
  method GiveCoins(
      game: Game, cylinder: Item, drop: Item, money: nat, flags: Flags, currency: seq<Currency>, ghost Z: set<Item>)
    requires game.Valid() && cylinder in game.items && cylinder.isContainer && drop in game.items && drop.isContainer
    requires !flags.childIsOwner && TableOk(currency) && 0 < money < 0x1_0000 * currency[0].worth
    requires cylinder in Z && (drop in Z || SlotsForAll(cylinder, money, flags, currency))
    modifies game, game.items
    ensures game.Valid() && (forall y | y in game.items :: y in old(game.items) || fresh(y))
    ensures OnlyCoins<Item>(old(Snap(game.items)), Snap(game.items), Z, money)
    ensures SumAll<Item>(Snap(game.items), Of(Worth())) == old(SumAll<Item>(Snap(game.items), Of(Worth()))) + money
  {
    ghost var f: World<Item> := Snap(game.items);
    ghost var before := SumAll<Item>(f, Of(Worth()));
    WorthsArePositive(currency);
    var left := money;
    for i := 0 to |currency|
      invariant game.Valid() && OnlyCoins<Item>(f, Snap(game.items), Z, money)
      invariant (forall y | y in game.items :: y in old(game.items) || fresh(y))
      invariant LeftFor(currency, i, left, money)
      invariant i == |currency| ==> left == 0
      invariant drop in Z || SlotsFor(cylinder, StacksToGive(currency, i, left), flags)
      invariant SumAll<Item>(Snap(game.items), Of(Worth())) + left == before + money
    {
      left := AddRound(game, cylinder, drop, currency, i, left, flags, f, money, Z);
    }
  }

  /** What is left before round i of addMoney is smaller than the coin of the round before. */
  ghost predicate LeftFor(currency: seq<Currency>, i: nat, left: nat, money: nat)
    requires i <= |currency|
  {
    left <= money && (if i > 0 then left < currency[i - 1].worth else left == money)
  }

  /** One round of addMoney: the coins of one kind. */
  method AddRound(
      game: Game, cylinder: Item, drop: Item, currency: seq<Currency>, i: nat, left: nat, flags: Flags,
      ghost f: World<Item>, ghost money: nat, ghost Z: set<Item>)
    returns (rest: nat)
    requires game.Valid() && cylinder in f && cylinder.isContainer && drop in f && drop.isContainer
    requires OnlyCoins<Item>(f, Snap(game.items), Z, money) && !flags.childIsOwner && cylinder in Z
    requires TableOk(currency) && i < |currency| && money < 0x1_0000 * currency[0].worth
             && LeftFor(currency, i, left, money)
    requires forall k | 0 <= k < |currency| :: currency[k].worth > 0
    requires drop in Z || SlotsFor(cylinder, StacksToGive(currency, i, left), flags)
    modifies game, game.items
    ensures game.Valid() && (forall y | y in game.items :: y in old(game.items) || fresh(y))
    ensures OnlyCoins<Item>(f, Snap(game.items), Z, money)
    ensures LeftFor(currency, i + 1, rest, money) && (i + 1 == |currency| ==> rest == 0)
    ensures drop in Z || SlotsFor(cylinder, StacksToGive(currency, i + 1, rest), flags)
    ensures SumAll<Item>(Snap(game.items), Of(Worth())) + rest
            == old(SumAll<Item>(Snap(game.items), Of(Worth()))) + left
  {
    var currencyCoins;
    currencyCoins, rest := NextCoins(currency, i, left, money);
    AddCoinsOf(game, cylinder, drop, currency[i], currencyCoins, flags, f, money, Z);
  }

  /** The size of the next stack: the number of coins, narrowed to 16 bits, and at most 100. */
  function StackOf(coins: nat): (count: nat)
    ensures 1 <= coins <= 65535 ==> 1 <= count <= coins
    ensures count <= 100 && count <= coins
  {
    var narrowed := coins % 0x1_0000;
    if narrowed < 100 then narrowed else 100
  }

  /** How many coins are still to be given after some turns of the inner loop of addMoney. */
  function CoinsAfter(coins: nat, turns: nat): nat
    decreases turns
  {
    if turns == 0 then coins else CoinsAfter(coins - StackOf(coins), turns - 1)
  }

  lemma {:induction false} ManyNeverEnd(coins: nat, turns: nat)
    requires coins >= 0x1_0000
    ensures CoinsAfter(coins, turns) >= 0x1_0000
    decreases turns
  {
    if turns > 0 {
      ManyNeverEnd(coins - StackOf(coins), turns - 1);
    }
  }

  lemma {:induction false} FewEnd(coins: nat) returns (turns: nat)
    requires coins < 0x1_0000
    ensures CoinsAfter(coins, turns) == 0
    decreases coins
  {
    turns := 0;
    if coins > 0 {
      turns := FewEnd(coins - StackOf(coins));
      turns := turns + 1;
    }
  }

  /** The inner loop ends exactly when there are fewer coins than 16 bits can count. */
  lemma CoinLoopEnds(coins: nat)
    ensures (exists turns: nat :: CoinsAfter(coins, turns) == 0) <==> coins < 0x1_0000
  {
    if coins < 0x1_0000 {
      var turns := FewEnd(coins);
      assert CoinsAfter(coins, turns) == 0;
    } else {
      forall turns: nat
        ensures CoinsAfter(coins, turns) != 0
      {
        ManyNeverEnd(coins, turns);
      }
    }
  }

  /** The inner loop of addMoney: coins of one kind, in stacks of at most 100. */
  method AddCoinsOf(
      game: Game, cylinder: Item, drop: Item, c: Currency, coins: nat, flags: Flags, ghost f: World<Item>,
      ghost bound: nat, ghost Z: set<Item>)
    requires game.Valid() && cylinder in f && cylinder.isContainer && drop in f && drop.isContainer
    requires OnlyCoins<Item>(f, Snap(game.items), Z, bound) && cylinder in Z
    requires !flags.childIsOwner && CurrencyOk(c) && coins <= 65535 && (coins > 0 ==> c.worth <= bound)
    requires drop in Z || SlotsFor(cylinder, StacksOf(coins), flags)
    modifies game, game.items
    ensures game.Valid() && (forall y | y in game.items :: y in old(game.items) || fresh(y))
    ensures OnlyCoins<Item>(f, Snap(game.items), Z, bound)
    ensures |cylinder.itemlist| <= |old(cylinder.itemlist)| + StacksOf(coins)
    ensures SumAll<Item>(Snap(game.items), Of(Worth()))
         == old(SumAll<Item>(Snap(game.items), Of(Worth()))) + Times(c.worth, coins)
  {
    ghost var before := SumAll<Item>(Snap(game.items), Of(Worth()));
    var currencyCoins := coins;
    while currencyCoins > 0
      invariant game.Valid() && (forall y | y in game.items :: y in old(game.items) || fresh(y))
      invariant OnlyCoins<Item>(f, Snap(game.items), Z, bound)
      invariant 0 <= currencyCoins <= coins
      invariant |cylinder.itemlist| + StacksOf(currencyCoins) <= |old(cylinder.itemlist)| + StacksOf(coins)
      invariant SumAll<Item>(Snap(game.items), Of(Worth())) + Times(c.worth, currencyCoins)
                == before + Times(c.worth, coins)
    {
      currencyCoins := AddTurn(game, cylinder, drop, c, currencyCoins, flags, f, bound, Z);
    }
  }

  lemma StackTaken(coins: nat, count: nat)
    requires 1 <= coins <= 65535 && count == StackOf(coins)
    ensures 1 <= count <= 100 && count <= coins && StacksOf(coins) == StacksOf(coins - count) + 1
  {
  }

  /** One turn of the inner loop. */
  method AddTurn(
      game: Game, cylinder: Item, drop: Item, c: Currency, currencyCoins: nat, flags: Flags, ghost f: World<Item>,
      ghost bound: nat, ghost Z: set<Item>)
    returns (rest: nat)
    requires game.Valid() && cylinder in f && cylinder.isContainer && drop in f && drop.isContainer
    requires OnlyCoins<Item>(f, Snap(game.items), Z, bound) && cylinder in Z
    requires !flags.childIsOwner && CurrencyOk(c) && 1 <= currencyCoins <= 65535 && c.worth <= bound
    requires drop in Z || SlotsFor(cylinder, StacksOf(currencyCoins), flags)
    modifies game, game.items
    ensures game.Valid() && (forall y | y in game.items :: y in old(game.items) || fresh(y))
    ensures OnlyCoins<Item>(f, Snap(game.items), Z, bound) && rest < currencyCoins
    ensures |cylinder.itemlist| + StacksOf(rest) <= |old(cylinder.itemlist)| + StacksOf(currencyCoins)
    ensures SumAll<Item>(Snap(game.items), Of(Worth())) + Times(c.worth, rest)
         == old(SumAll<Item>(Snap(game.items), Of(Worth()))) + Times(c.worth, currencyCoins)
  {
    var count := StackOf(currencyCoins);
    StackTaken(currencyCoins, count);
    rest := currencyCoins - count;
    TimesAdd(c.worth, rest, count);
    ghost var paid := Times(c.worth, count);
    assert Times(c.worth, currencyCoins) == Times(c.worth, rest) + paid;
    AddStackOf(game, cylinder, drop, c, count, flags, f, bound, Z);
  }

  /** One more stack of coins. */
  method AddStackOf(
      game: Game, cylinder: Item, drop: Item, c: Currency, count: nat, flags: Flags, ghost f: World<Item>,
      ghost bound: nat, ghost Z: set<Item>)
    requires game.Valid() && cylinder in f && cylinder.isContainer && drop in f && drop.isContainer
    requires OnlyCoins<Item>(f, Snap(game.items), Z, bound) && cylinder in Z
    requires !flags.childIsOwner && CurrencyOk(c) && 1 <= count <= 100 && c.worth <= bound
    requires drop in Z || SlotsFor(cylinder, 1, flags)
    modifies game, game.items
    ensures game.Valid() && (forall y | y in game.items :: y in old(game.items) || fresh(y))
    ensures OnlyCoins<Item>(f, Snap(game.items), Z, bound)
    ensures |cylinder.itemlist| <= |old(cylinder.itemlist)| + 1
    ensures SumAll<Item>(Snap(game.items), Of(Worth()))
         == old(SumAll<Item>(Snap(game.items), Of(Worth()))) + Times(c.worth, count)
  {
    ghost var g: World<Item> := Snap(game.items);
    assert CoinSpared<Item>(f, g, Z, cylinder, bound) && CoinSpared<Item>(f, g, Z, drop, bound);
    AddCoins(game, cylinder, drop, c.kind, count, flags, Z, bound);
    OnlyCoinsTrans<Item>(f, g, Snap(game.items), Z, bound);
  }

  // ----- gathering the coins -----

  datatype MoneyEntry = MoneyEntry(worth: nat, item: Item)

  function SumEntries(s: seq<MoneyEntry>): nat {
    if s == [] then 0 else s[0].worth + SumEntries(s[1..])
  }

  /** multimap::emplace: behind all entries of the same worth. */
  function Emplace(s: seq<MoneyEntry>, e: MoneyEntry): seq<MoneyEntry> {
    if s == [] || e.worth < s[0].worth then [e] + s else [s[0]] + Emplace(s[1..], e)
  }

  ghost predicate Sorted(s: seq<MoneyEntry>) {
    forall i, j | 0 <= i < j < |s| :: s[i].worth <= s[j].worth
  }

  lemma {:induction false} EmplaceIs(s: seq<MoneyEntry>, e: MoneyEntry)
    ensures SumEntries(Emplace(s, e)) == SumEntries(s) + e.worth
    ensures forall d :: d in Emplace(s, e) <==> d == e || d in s
    ensures Sorted(s) ==> Sorted(Emplace(s, e))
  {
    if s == [] || e.worth < s[0].worth {
      assert ([e] + s)[1..] == s;
    } else {
      EmplaceIs(s[1..], e);
      var t := Emplace(s[1..], e);
      assert ([s[0]] + t)[1..] == t && s == [s[0]] + s[1..];
      forall d
        ensures d in [s[0]] + t <==> d == e || d in s
      {
        assert d in t <==> d == e || d in s[1..];
      }
      if Sorted(s) {
        assert forall j | 0 <= j < |t| :: t[j] in t;
      }
    }
  }

  /** A new entry comes behind those that are worth no more and before all that are worth more; no other moves. */
  lemma {:induction false} EmplacedBehind(s: seq<MoneyEntry>, e: MoneyEntry) returns (k: nat)
    requires Sorted(s)
    ensures k <= |s| && Emplace(s, e) == s[..k] + [e] + s[k..]
    ensures forall i | 0 <= i < |s| :: s[i].worth <= e.worth <==> i < k
  {
    if s == [] || e.worth < s[0].worth {
      k := 0;
    } else {
      var j := EmplacedBehind(s[1..], e);
      k := j + 1;
      EmplacedOneOn(s, Emplace(s[1..], e), e, j);
    }
  }

  lemma EmplacedOneOn(s: seq<MoneyEntry>, t: seq<MoneyEntry>, e: MoneyEntry, j: nat)
    requires s != [] && j < |s| && t == s[1..][..j] + [e] + s[1..][j..]
    ensures [s[0]] + t == s[..j + 1] + [e] + s[j + 1..]
  {
    assert s[1..][..j] == s[1..j + 1] && s[1..][j..] == s[j + 1..];
    assert [s[0]] + s[1..j + 1] == s[..j + 1];
  }

  /** e is a coin of f, worth what e says. */
  ghost predicate EntryOk(f: World<Item>, e: MoneyEntry) {
    && e.item in f && !f[e.item].isContainer && f[e.item].parent.Some?
    && e.worth == Times(f[e.item].kind.worth, f[e.item].count) > 0
  }

  ghost predicate EntriesOk(f: World<Item>, s: seq<MoneyEntry>) {
    && (forall i {:trigger s[i]} | 0 <= i < |s| :: EntryOk(f, s[i]))
    && (forall i, j | 0 <= i < j < |s| :: s[i].item != s[j].item)
  }

  lemma {:induction false} EmplaceKeepsEntries(f: World<Item>, s: seq<MoneyEntry>, e: MoneyEntry)
    requires EntriesOk(f, s) && EntryOk(f, e) && forall d | d in s :: d.item != e.item
    ensures EntriesOk(f, Emplace(s, e))
  {
    if s == [] || e.worth < s[0].worth {
      EntriesCons(f, e, s);
    } else {
      EmplaceKeepsEntries(f, s[1..], e);
      EmplaceIs(s[1..], e);
      EntriesCons(f, s[0], Emplace(s[1..], e));
    }
  }

  lemma EntriesCons(f: World<Item>, e: MoneyEntry, t: seq<MoneyEntry>)
    requires EntriesOk(f, t) && EntryOk(f, e) && forall d | d in t :: d.item != e.item
    ensures EntriesOk(f, [e] + t)
  {
    var s := [e] + t;
    forall i, j | 0 <= i < j < |s|
      ensures s[i].item != s[j].item
    {
      assert s[j] == t[j - 1] && t[j - 1] in t && (i > 0 ==> s[i] == t[i - 1]);
    }
  }

  /** The money map after visiting done. */
  ghost function Coins(f: World<Item>, done: seq<Item>): seq<MoneyEntry> {
    if done == [] then []
    else
      var m, x := Coins(f, done[..|done| - 1]), done[|done| - 1];
      if x in f && !f[x].isContainer && Amount(Worth(), f[x]) > 0 then Emplace(m, MoneyEntry(Amount(Worth(), f[x]), x))
          else m
  }

  /** The money map is what it should be: every coin once, with its worth, by rising worth. */
  lemma {:induction false} CoinsAre(f: World<Item>, done: seq<Item>)
    requires NoDup(done) && Stacked(f) && forall y | y in done :: y in f && f[y].parent.Some?
    ensures EntriesOk(f, Coins(f, done)) && Sorted(Coins(f, done))
    ensures SumEntries(Coins(f, done)) == SumSeq(f, done, CoinMeasure())
    ensures forall e | e in Coins(f, done) :: e.item in done
    ensures forall y | y in done && !f[y].isContainer && Amount(Worth(), f[y]) > 0 ::
              MoneyEntry(Amount(Worth(), f[y]), y) in Coins(f, done)
  {
    if done != [] {
      var before, x := done[..|done| - 1], done[|done| - 1];
      CoinsAre(f, before);
      assert done == before + [x] && [x][1..] == [];
      SumSeqConcat(f, before, [x], CoinMeasure());
      assert StackedAt(f, x);
      TimesIsNatural(f[x].kind.worth, f[x].count);
      if !f[x].isContainer && Amount(Worth(), f[x]) > 0 {
        var e := MoneyEntry(Amount(Worth(), f[x]), x);
        EmplaceIs(Coins(f, before), e);
        EmplaceKeepsEntries(f, Coins(f, before), e);
      }
    }
  }

  /** y is no container and worth something. */
  ghost predicate HasWorth<R>(f: World<R>, y: R) {
    y in f && !f[y].isContainer && Amount(Worth(), f[y]) > 0
  }

  /** Everything in inside that is worth something has its entry in m. */
  ghost predicate Complete(f: World<Item>, inside: set<Item>, m: seq<MoneyEntry>) {
    forall y {:trigger HasWorth(f, y)} | y in inside && HasWorth(f, y) :: MoneyEntry(Amount(Worth(), f[y]), y) in m
  }

  /** What has been gathered after visiting done. */
  ghost predicate Gathered(f: World<Item>, done: seq<Item>, m: seq<MoneyEntry>, count: int) {
    m == Coins(f, done) && count == SumSeq(f, done, CoinMeasure())
  }

  /** The scan of one item list has come to item i, with containers found waiting behind pending. */
  ghost predicate Gathering(
      f: World<Item>, root: Item, list: seq<Item>, i: nat, done0: seq<Item>, pending: seq<Item>, found: seq<Item>,
      m: seq<MoneyEntry>, count: int)
  {
    && i <= |list| && Gathered(f, done0 + list[..i], m, count)
    && Frontier(f, root, done0 + list[..i], list[i..], pending + found)
  }

  lemma VisitsOne(
      f: World<Item>, root: Item, list: seq<Item>, i: nat, done0: seq<Item>, pending: seq<Item>, found: seq<Item>,
      found': seq<Item>)
    requires i < |list| && Frontier(f, root, done0 + list[..i], list[i..], pending + found) && list[i] in f
    requires found' == found + [list[i]] || (found' == found && f[list[i]].list == [])
    ensures Frontier(f, root, done0 + list[..i + 1], list[i + 1..], pending + found')
    ensures done0 + list[..i + 1] == done0 + list[..i] + [list[i]]
  {
    var done, done', x := done0 + list[..i], done0 + list[..i + 1], list[i];
    assert list[i..] == [x] + list[i + 1..] && done' == done + [x];
    assert pending + (found + [x]) == (pending + found) + [x];
    FrontierTakes(f, root, done, x, list[i + 1..], pending + found, pending + found');
  }

  /** One more visited item; a coin is put into the money map. */
  lemma GatherOne(f: World<Item>, done: seq<Item>, x: Item, m: seq<MoneyEntry>, count: int, worth: nat)
    requires Gathered(f, done, m, count) && x in f && worth == Amount(Worth(), f[x])
    ensures if f[x].isContainer || worth == 0 then Gathered(f, done + [x], m, count)
            else Gathered(f, done + [x], Emplace(m, MoneyEntry(worth, x)), count + worth)
  {
    SumSeqConcat(f, done, [x], CoinMeasure());
    assert [x][1..] == [] && (done + [x])[..|done|] == done;
    assert SumSeq(f, [x], CoinMeasure()) == At(f, x, CoinMeasure());
  }

  /** Item::getWorth */
  method GetWorth(item: Item) returns (worth: nat)
    ensures worth == Amount(Worth(), item.State())
  {
    worth := Product(item.count, item.kind.worth);
  }

  /** The scan of one item list by removeMoney. */
  method GatherList(
      list: seq<Item>, m0: seq<MoneyEntry>, count0: nat, ghost root: Item, ghost done: seq<Item>,
      ghost pending: seq<Item>,
      ghost S: set<Item>)
    returns (containers: seq<Item>, m: seq<MoneyEntry>, count: nat)
    requires root in S && Linked(Snap(S)) && forall y | y in list :: y in S
    requires Gathering(Snap(S), root, list, 0, done, pending, [], m0, count0)
    ensures Gathering(Snap(S), root, list, |list|, done, pending, containers, m, count) && |containers| <= |list|
  {
    ghost var f: World<Item> := Snap(S);
    containers, m, count := [], m0, count0;
    for i := 0 to |list|
      invariant Gathering(f, root, list, i, done, pending, containers, m, count) && |containers| <= i
    {
      var item := list[i];
      assert item in list && item in f && f[item] == item.State() && DownOk(f, item);
      ghost var found := containers;
      var worth := GetWorth(item);
      VisitsOne(f, root, list, i, done, pending, found, if item.isContainer then found + [item] else found);
      GatherOne(f, done + list[..i], item, m, count, worth);
      if item.isContainer {
        containers := containers + [item];
      } else if worth != 0 {
        count := count + worth;
        m := Emplace(m, MoneyEntry(worth, item));
      }
    }
  }

  /**
   The first half of removeMoney: all coins inside the cylinder, by rising worth, and what they are worth
   together.
   */
  method GatherMoney(cylinder: Item, ghost S: set<Item>, ghost depth: map<Item, nat>)
    returns (m: seq<MoneyEntry>, moneyCount: nat)
    requires cylinder in S && Linked(Snap(S)) && Acyclic(Snap(S), depth) && Stacked(Snap(S))
    ensures EntriesOk(Snap(S), m) && Sorted(m) && moneyCount == SumEntries(m) == Purse(Snap(S), depth, cylinder)
    ensures forall e | e in m :: e.item in Inside(Snap(S), depth, cylinder)
    ensures Complete(Snap(S), Inside(Snap(S), depth, cylinder), m)
  {
    ghost var f: World<Item> := Snap(S);
    ghost var list := f[cylinder].list;
    assert DownOk(f, cylinder) && list == cylinder.itemlist;
    GatherStarts(f, cylinder);
    var containers;
    containers, m, moneyCount := GatherList(cylinder.itemlist, [], 0, cylinder, [], [], S);
    GatherPauses(f, cylinder, list, [], [], containers, m, moneyCount);
    ghost var done;
    m, moneyCount, done := GatherContainers(cylinder, containers, m, moneyCount, [] + list, S, depth);
    GatherEnds(f, depth, cylinder, done, m, moneyCount);
  }

  /** The scan of the next container of the queue. */
  method GatherContainer(
      container: Item, m0: seq<MoneyEntry>, count0: nat, ghost root: Item, ghost done: seq<Item>, ghost rest: seq<Item>,
      ghost S: set<Item>)
    returns (more: seq<Item>, m: seq<MoneyEntry>, count: nat)
    requires root in S && Linked(Snap(S)) && Gathered(Snap(S), done, m0, count0)
    requires Frontier<Item>(Snap(S), root, done, [], [container] + rest)
    ensures container in S && Gathered(Snap(S), done + Snap(S)[container].list, m, count)
    ensures Frontier<Item>(Snap(S), root, done + Snap(S)[container].list, [], rest + more)
    ensures |more| <= |Snap(S)[container].list|
  {
    ghost var f: World<Item> := Snap(S);
    assert container in [container] + rest;
    GatherResumes(f, root, done, [container] + rest, container, rest, m0, count0);
    assert f[container] == container.State() && DownOk(f, container);
    more, m, count := GatherList(container.itemlist, m0, count0, root, done, rest, S);
    GatherPauses(f, root, f[container].list, done, rest, more, m, count);
  }

  /** The loop of removeMoney over the containers it has met. */
  method GatherContainers(
      ghost cylinder: Item, containers0: seq<Item>, m0: seq<MoneyEntry>, count0: nat, ghost done0: seq<Item>,
      ghost S: set<Item>, ghost depth: map<Item, nat>)
    returns (m: seq<MoneyEntry>, moneyCount: nat, ghost done: seq<Item>)
    requires cylinder in S && Linked(Snap(S)) && Acyclic(Snap(S), depth)
    requires Gathered(Snap(S), done0, m0, count0) && Frontier<Item>(Snap(S), cylinder, done0, [], [] + containers0)
    ensures Gathered(Snap(S), done, m, moneyCount) && Frontier<Item>(Snap(S), cylinder, done, [], [])
  {
    ghost var f: World<Item> := Snap(S);
    var containers := containers0;
    m, moneyCount, done := m0, count0, done0;
    var i := 0;
    ghost var queue := [] + containers;
    FrontierIsBounded(f, depth, cylinder, done);
    while i < |containers|
      invariant 0 <= i <= |containers| && |done| <= |f.Keys| && queue == containers[i..]
      invariant Gathered(f, done, m, moneyCount) && Frontier<Item>(f, cylinder, done, [], queue)
      decreases |f.Keys| - |done|, |containers| - i
    {
      var container := containers[i];
      ghost var rest := QueueTurns(containers, i, queue);
      i := i + 1;
      var more;
      more, m, moneyCount := GatherContainer(container, m, moneyCount, cylinder, done, rest, S);
      DropConcat(containers, i, more);
      containers := containers + more;
      queue := rest + more;
      done := done + f[container].list;
      FrontierIsBounded(f, depth, cylinder, done);
    }
  }

  lemma QueueTurns<T>(s: seq<T>, i: nat, queue: seq<T>) returns (rest: seq<T>)
    requires i < |s| && queue == s[i..]
    ensures queue == [s[i]] + rest && rest == s[i + 1..]
  {
    rest := queue[1..];
  }

  lemma GatherStarts(f: World<Item>, root: Item)
    requires root in f
    ensures Gathering(f, root, f[root].list, 0, [], [], [], [], 0)
  {
    FrontierStarts(f, root);
    var list, none: seq<Item> := f[root].list, [];
    assert none + list[..0] == none && list[0..] == list && none + none == none;
  }

  lemma GatherPauses(
      f: World<Item>, root: Item, list: seq<Item>, done: seq<Item>, rest: seq<Item>, found: seq<Item>,
      m: seq<MoneyEntry>, count: int)
    requires Gathering(f, root, list, |list|, done, rest, found, m, count)
    ensures Gathered(f, done + list, m, count) && Frontier(f, root, done + list, [], rest + found)
  {
    assert list[..|list|] == list && list[|list|..] == [];
  }

  lemma GatherResumes(
      f: World<Item>, root: Item, done: seq<Item>, queue: seq<Item>, c: Item, rest: seq<Item>, m: seq<MoneyEntry>,
      count: int)
    requires Gathered(f, done, m, count) && Frontier(f, root, done, [], queue) && queue == [c] + rest && c in f
    ensures Gathering(f, root, f[c].list, 0, done, rest, [], m, count)
  {
    assert queue[1..] == rest && rest + [] == rest;
    FrontierTurns(f, root, done, queue);
    assert done + f[c].list[..0] == done && f[c].list[0..] == f[c].list;
  }

  lemma GatherEnds(f: World<Item>, depth: map<Item, nat>, root: Item, done: seq<Item>, m: seq<MoneyEntry>, count: int)
    requires Linked(f) && Acyclic(f, depth) && Stacked(f) && Gathered(f, done, m, count)
             && Frontier(f, root, done, [], [])
    ensures EntriesOk(f, m) && Sorted(m) && count == SumEntries(m) == Purse(f, depth, root)
    ensures forall e | e in m :: e.item in Inside(f, depth, root)
    ensures Complete(f, Inside(f, depth, root), m)
  {
    FrontierEnds(f, root, done);
    CompleteIsExact(f, depth, root, done);
    forall y | y in done
      ensures f[y].parent.Some?
    {
      assert Under(f, depth, y, root) && y != root;
    }
    CoinsAre(f, done);
    SumSeqIsSumAll(f, done, CoinMeasure());
    assert Elements(done) == Inside(f, depth, root);
  }

  /** Adding up along a list without repetitions is adding up over its elements. */
  lemma {:induction false} SumSeqIsSumAll<R>(f: World<R>, s: seq<R>, g: Node<R> -> int)
    requires NoDup(s) && forall y | y in s :: y in f
    ensures SumSeq(f, s, g) == SumAll(Restricted(f, Elements(s)), g)
  {
    var h := Restricted(f, Elements(s));
    if s == [] {
      assert h == map[];
    } else {
      var x, t := s[0], s[1..];
      ElementsCons(s, x, t);
      SumSeqIsSumAll(f, t, g);
      RestrictedLess(f, Elements(t), x);
      SumAllTake(h, x, g);
    }
  }

  lemma ElementsCons<R>(s: seq<R>, x: R, t: seq<R>)
    requires NoDup(s) && s == [x] + t
    ensures NoDup(t) && x !in Elements(t) && Elements(s) == {x} + Elements(t)
  {
    forall i, j | 0 <= i < j < |t|
      ensures t[i] != t[j]
    {
      assert s[i + 1] != s[j + 1];
    }
    forall k | 0 <= k < |t|
      ensures t[k] != x
    {
      assert s[0] != s[k + 1];
    }
  }

  lemma RestrictedLess<R>(f: World<R>, s: set<R>, x: R)
    requires x in f && x !in s
    ensures Restricted(f, {x} + s) - {x} == Restricted(f, s) && x in Restricted(f, {x} + s)
  {
  }

  // ----- removeMoney -----

  /** Every item type that is worth something is a coin of the table, as src/items.cpp sets both together. */
  ghost predicate Listed<R>(f: World<R>, currency: seq<Currency>) {
    forall y {:trigger f[y]} | y in f :: f[y].kind.worth == 0 || exists i ::
        0 <= i < |currency| && currency[i].worth == f[y].kind.worth
  }

  ghost predicate Capped<R>(f: World<R>, top: nat) {
    forall y {:trigger f[y]} | y in f :: f[y].kind.worth <= top
  }

  lemma {:induction false} TopIsLargest(currency: seq<Currency>, i: nat)
    requires TableOk(currency) && i < |currency|
    ensures currency[i].worth <= currency[0].worth
  {
    assert RowOk(currency, i);
    if i > 0 {
      TopIsLargest(currency, i - 1);
    }
  }

  lemma ListedIsCapped<R>(f: World<R>, currency: seq<Currency>)
    requires TableOk(currency) && Listed(f, currency)
    ensures Capped(f, currency[0].worth)
  {
    forall y {:trigger f[y]} | y in f
      ensures f[y].kind.worth <= currency[0].worth
    {
      if f[y].kind.worth != 0 {
        var i :| 0 <= i < |currency| && currency[i].worth == f[y].kind.worth;
        TopIsLargest(currency, i);
      }
    }
  }

  /** Every entry is money in Z. */
  ghost predicate AllCoins(g: World<Item>, Z: set<Item>, s: seq<MoneyEntry>) {
    forall i {:trigger s[i]} | 0 <= i < |s| :: Coin(g, Z, s[i].item)
  }

  /** While whole stacks are being paid: what is left of f, and what it is still worth. */
  ghost predicate Paying(
      f: World<Item>, g: World<Item>, Z: set<Item>, s: seq<MoneyEntry>, left: int, money: int, top: nat)
  {
    && EntriesOk(g, s) && AllCoins(g, Z, s) && 0 < left <= SumEntries(s) && OnlyMoney(f, g, Z) && Capped(g, top)
    && SumAll(g, Of(Worth())) == SumAll(f, Of(Worth())) - (money - left)
  }

  lemma FlowOfWorth<R>(f: World<R>, r: World<R>, c: R, key: Key, m: int)
    requires Flows(f, r, c, key, m)
    ensures SumAll(r, Of(Worth())) == SumAll(f, Of(Worth())) + Times(key.kind.worth, m)
  {
    assert Flow(f, r, c, key, m, Worth());
  }

  lemma RemovedWorth<R>(f: World<R>, r: World<R>, x: R, m: nat)
    requires Removed(f, r, x, m)
    ensures SumAll(r, Of(Worth())) == SumAll(f, Of(Worth())) - Times(f[x].kind.worth, m)
  {
    FlowOfWorth(f, r, f[x].parent.value, KeyOf(f[x]), 0 - m);
    TimesSplit(f[x].kind.worth, m, m, 0);
  }

  /** Taking pieces of a coin touches money only. */
  lemma RemovedIsMoney<R>(f: World<R>, g: World<R>, r: World<R>, Z: set<R>, x: R, m: nat)
    requires OnlyMoney(f, g, Z) && Removed(g, r, x, m) && Coin(g, Z, x)
    ensures OnlyMoney(f, r, Z)
  {
    var c := g[x].parent.value;
    forall y {:trigger MoneyOnly(f, r, Z, y)} | y in f && !Coin(f, Z, y)
      ensures MoneyOnly(f, r, Z, y)
    {
      assert MoneyOnly(f, g, Z, y) && !Coin(g, Z, y) && Kept(g, r, c, y);
    }
    forall y {:trigger Coin(r, Z, y)} | y in r && !Coin(r, Z, y)
      ensures y in f && !Coin(f, Z, y)
    {
      assert y in g && (y != x ==> Kept(g, r, c, y));
      assert !Coin(g, Z, y);
    }
  }

  lemma RemovedIsCapped<R>(g: World<R>, r: World<R>, x: R, m: nat, top: nat)
    requires Removed(g, r, x, m) && Capped(g, top)
    ensures Capped(r, top)
  {
    forall y {:trigger r[y]} | y in r
      ensures r[y].kind.worth <= top
    {
      assert y in g && (y != x ==> Kept(g, r, g[x].parent.value, y));
    }
  }

  lemma CoinHasWorth(g: World<Item>, e: MoneyEntry)
    requires EntryOk(g, e)
    ensures g[e.item].kind.worth > 0 && g[e.item].count > 0
  {
    TimesIsProduct(g[e.item].kind.worth, g[e.item].count);
  }

  /** Paying with one whole stack. */
  lemma PayWhole(
      f: World<Item>, g: World<Item>, r: World<Item>, Z: set<Item>, s: seq<MoneyEntry>, left: int, money: int, top: nat)
    requires s != [] && Paying(f, g, Z, s, left, money, top) && Removed(g, r, s[0].item, g[s[0].item].count)
    ensures s[0].worth < left ==> Paying(f, r, Z, s[1..], left - s[0].worth, money, top)
    ensures OnlyMoney(f, r, Z) && SumAll(r, Of(Worth())) == SumAll(f, Of(Worth())) - (money - left) - s[0].worth
  {
    var x, m := s[0].item, g[s[0].item].count;
    assert EntryOk(g, s[0]);
    RemovedWorth(g, r, x, m);
    RemovedIsMoney(f, g, r, Z, x, m);
    RemovedIsCapped(g, r, x, m, top);
    RemovedLeavesEntries(g, r, Z, s);
  }

  lemma RemovedLeavesEntries(g: World<Item>, r: World<Item>, Z: set<Item>, s: seq<MoneyEntry>)
    requires s != [] && EntriesOk(g, s) && AllCoins(g, Z, s) && Removed(g, r, s[0].item, g[s[0].item].count)
    ensures EntriesOk(r, s[1..]) && AllCoins(r, Z, s[1..])
  {
    var x, t := s[0].item, s[1..];
    forall i {:trigger t[i]} | 0 <= i < |t|
      ensures EntryOk(r, t[i]) && Coin(r, Z, t[i].item)
    {
      assert t[i] == s[i + 1] && EntryOk(g, s[i + 1]) && x != s[i + 1].item;
      assert Coin(g, Z, s[i + 1].item) && Kept(g, r, g[x].parent.value, t[i].item);
    }
  }

  /** How many coins of a stack pay for left, and the change. */
  method Cut(worth: nat, count: nat, left: nat) returns (removeCount: nat, change: nat)
    requires 0 < left < Times(worth, count)
    ensures 1 <= removeCount <= count && Times(worth, removeCount) == left + change && change < worth
  {
    TimesIsProduct(worth, count);
    removeCount := (left + worth - 1) / worth;
    CeilIs(left, worth, count, removeCount);
    change := worth * removeCount - left;
    TimesIsProduct(worth, removeCount);
  }

  lemma CeilIs(left: nat, worth: nat, count: nat, n: nat)
    requires 0 < left < worth * count && worth > 0 && n == (left + worth - 1) / worth
    ensures 1 <= n <= count && left <= worth * n < left + worth
  {
    if n > count {
      OneMore(worth, n, count);
    }
  }

  /** The worth of one coin of a stack, from the worth of the stack. */
  method PerCoin(total: nat, count: nat, ghost worth: nat) returns (each: nat)
    requires count > 0 && total == Times(worth, count)
    ensures each == worth
  {
    TimesIsProduct(worth, count);
    ExactDivision(worth, count);
    each := total / count;
  }

  /** The cylinder has a slot for every stack in which an amount below top could be given. */
  ghost predicate RoomForChange(cylinder: Item, top: nat, flags: Flags, currency: seq<Currency>)
    requires TableOk(currency)
    reads cylinder
  {
    ChangeFits(|cylinder.itemlist|, cylinder.maxSize, top, flags, currency)
  }

  ghost predicate ChangeFits(size: nat, maxSize: nat, top: nat, flags: Flags, currency: seq<Currency>)
    requires TableOk(currency)
  {
    WorthsArePositive(currency);
    flags.noLimit || forall change: nat | change < top :: size + StacksToGive(currency, 0, change) <= maxSize
  }

  /**
   The change for a stack that is about to be cut goes to the cylinder or the tile, and to the cylinder when that
   has room for it; it does not touch that stack.
   */
  method GiveChange(
      game: Game, cylinder: Item, drop: Item, e: MoneyEntry, change: nat, flags: Flags, currency: seq<Currency>,
      ghost Z: set<Item>)
    requires game.Valid() && cylinder in game.items && cylinder.isContainer && drop in game.items && drop.isContainer
    requires !flags.childIsOwner && TableOk(currency) && Capped(Snap(game.items), currency[0].worth)
    requires EntryOk(Snap(game.items), e) && change < e.item.kind.worth
    requires cylinder in Z && (drop in Z || SlotsForAll(cylinder, change, flags, currency))
    modifies game, game.items
    ensures game.Valid() && (forall y | y in game.items :: y in old(game.items) || fresh(y))
    ensures OnlyMoney<Item>(old(Snap(game.items)), Snap(game.items), Z)
    ensures NoneSpent(old(Snap(game.items)), Snap(game.items))
    ensures SameStack(old(Snap(game.items)), Snap(game.items), e.item)
    ensures SumAll<Item>(Snap(game.items), Of(Worth())) == old(SumAll<Item>(Snap(game.items), Of(Worth()))) + change
  {
    ghost var f: World<Item> := Snap(game.items);
    ghost var Y: set<Item> := if SlotsForAll(cylinder, change, flags, currency) then {cylinder} else {cylinder, drop};
    assert f[e.item] == e.item.State() && Stacked(f) && Y <= Z;
    AddMoney(game, cylinder, drop, change, flags, currency);
    assert OnlyCoins<Item>(f, Snap(game.items), Y, change);
    ChangeIsMoney(f, Snap(game.items), Y, Z, change, e.item);
  }

  /** Nothing is gone or has fewer pieces. */
  ghost predicate NoneSpent(f: World<Item>, r: World<Item>) {
    forall y {:trigger Whole(f, r, y)} | y in f :: Whole(f, r, y)
  }

  ghost predicate Whole<R>(f: World<R>, r: World<R>, y: R)
    requires y in f
  {
    y in r && r[y].count >= f[y].count
  }

  /** x lies where it lay, with as many pieces of the same kind. */
  ghost predicate SameStack<R>(f: World<R>, g: World<R>, x: R) {
    && x in f && x in g && KeyOf(g[x]) == KeyOf(f[x]) && g[x].count == f[x].count && g[x].parent == f[x].parent
    && g[x].isContainer == f[x].isContainer
  }

  lemma ChangeIsMoney(f: World<Item>, g: World<Item>, Y: set<Item>, Z: set<Item>, change: nat, x: Item)
    requires OnlyCoins(f, g, Y, change) && Stacked(f) && Y <= Z && x in f && change < f[x].kind.worth
    ensures OnlyMoney(f, g, Z) && NoneSpent(f, g) && SameStack(f, g, x)
  {
    assert CoinSpared(f, g, Y, x, change);
    CoinsAreMoney(f, g, Y, change);
    OnlyMoneyWidens(f, g, Y, Z);
    forall y {:trigger Whole(f, g, y)} | y in f
      ensures Whole(f, g, y)
    {
      assert CoinSpared(f, g, Y, y, change);
    }
  }

  /** The cut itself. */
  method CutStack(game: Game, item: Item, removeCount: nat, ghost Z: set<Item>)
    requires game.Valid() && item in game.items && Coin<Item>(Snap(game.items), Z, item)
    requires 1 <= removeCount <= item.count
    modifies game, game.items
    ensures game.Valid() && game.items <= old(game.items)
    ensures OnlyMoney<Item>(old(Snap(game.items)), Snap(game.items), Z)
    ensures SumAll<Item>(Snap(game.items), Of(Worth()))
         == old(SumAll<Item>(Snap(game.items), Of(Worth()))) - Times(old(item.kind.worth), removeCount)
    ensures OthersWhole(old(Snap(game.items)), Snap(game.items), item)
  {
    ghost var g: World<Item> := Snap(game.items);
    assert g[item] == item.State();
    var ret;
    ghost var m;
    if !item.kind.stackable {
      SingleCoin<Item>(g, item, removeCount);
    }
    ret, m := InternalRemoveItem(game, item, removeCount, false, NO_FLAGS);
    ghost var r: World<Item> := Snap(game.items);
    RemovedWorth<Item>(g, r, item, removeCount);
    OnlyMoneySame<Item>(g, Z);
    RemovedIsMoney<Item>(g, g, r, Z, item, removeCount);
    RemovedLeavesOthers(g, r, item, removeCount);
  }

  /** Nothing but x is gone or has fewer pieces. */
  ghost predicate OthersWhole(f: World<Item>, r: World<Item>, x: Item) {
    forall y {:trigger Whole(f, r, y)} | y in f && y != x :: Whole(f, r, y)
  }

  lemma RemovedLeavesOthers(g: World<Item>, r: World<Item>, x: Item, m: nat)
    requires Removed(g, r, x, m)
    ensures OthersWhole(g, r, x)
  {
    forall y {:trigger Whole(g, r, y)} | y in g && y != x
      ensures Whole(g, r, y)
    {
      assert Kept(g, r, g[x].parent.value, y);
    }
  }

  lemma SpentAfterChange(f: World<Item>, g: World<Item>, r: World<Item>, x: Item)
    requires NoneSpent(f, g) && OthersWhole(g, r, x)
    ensures OthersWhole(f, r, x)
  {
    forall y {:trigger Whole(f, r, y)} | y in f && y != x
      ensures Whole(f, r, y)
    {
      assert Whole(f, g, y) && Whole(g, r, y);
    }
  }

  /** A stack that is worth more than what is left to pay is cut, after the change has been given. */
  method PayCut(
      game: Game, cylinder: Item, drop: Item, e: MoneyEntry, left: nat, flags: Flags, currency: seq<Currency>,
      ghost f0: World<Item>, ghost Z: set<Item>)
    requires game.Valid() && cylinder in f0 && f0[cylinder].isContainer && drop in f0 && f0[drop].isContainer
    requires OnlyMoney<Item>(f0, Snap(game.items), Z) && cylinder in Z && TableOk(currency)
    requires drop in Z || RoomForChange(cylinder, currency[0].worth, flags, currency)
    requires !flags.childIsOwner && Capped(Snap(game.items), currency[0].worth)
    requires EntryOk(Snap(game.items), e) && Coin<Item>(Snap(game.items), Z, e.item) && 0 < left < e.worth
    modifies game, game.items
    ensures game.Valid() && (forall y | y in game.items :: y in old(game.items) || fresh(y))
    ensures OnlyMoney<Item>(f0, Snap(game.items), Z)
    ensures SumAll<Item>(Snap(game.items), Of(Worth())) == old(SumAll<Item>(Snap(game.items), Of(Worth()))) - left
    ensures OthersWhole(old(Snap(game.items)), Snap(game.items), e.item)
  {
    ghost var f: World<Item> := Snap(game.items);
    assert MoneyOnly<Item>(f0, f, Z, cylinder) && MoneyOnly<Item>(f0, f, Z, drop);
    var item := e.item;
    assert StackedAt(f, item) && f[item] == item.State();
    var worth := PerCoin(e.worth, item.count, item.kind.worth);
    var removeCount, change := Cut(worth, item.count, left);
    if drop !in Z {
      AnyChangeFits(cylinder, change, currency[0].worth, flags, currency);
    }
    CutForChange(game, cylinder, drop, e, removeCount, change, flags, currency, Z);
    OnlyMoneyTrans<Item>(f0, f, Snap(game.items), Z);
  }

  lemma AnyChangeFits(cylinder: Item, change: nat, top: nat, flags: Flags, currency: seq<Currency>)
    requires TableOk(currency) && RoomForChange(cylinder, top, flags, currency) && change < top
    ensures SlotsForAll(cylinder, change, flags, currency)
  {
  }

  /** The change is given, and then the stack is cut. */
  method CutForChange(
      game: Game, cylinder: Item, drop: Item, e: MoneyEntry, removeCount: nat, change: nat, flags: Flags,
      currency: seq<Currency>, ghost Z: set<Item>)
    requires game.Valid() && cylinder in game.items && cylinder.isContainer && drop in game.items && drop.isContainer
    requires cylinder in Z && TableOk(currency) && (drop in Z || SlotsForAll(cylinder, change, flags, currency))
    requires !flags.childIsOwner && Capped(Snap(game.items), currency[0].worth)
    requires EntryOk(Snap(game.items), e) && Coin<Item>(Snap(game.items), Z, e.item)
    requires 1 <= removeCount <= e.item.count && change < e.item.kind.worth
    modifies game, game.items
    ensures game.Valid() && (forall y | y in game.items :: y in old(game.items) || fresh(y))
    ensures OnlyMoney<Item>(old(Snap(game.items)), Snap(game.items), Z)
    ensures SumAll<Item>(Snap(game.items), Of(Worth()))
         == old(SumAll<Item>(Snap(game.items), Of(Worth()))) + change - Times(old(e.item.kind.worth), removeCount)
    ensures OthersWhole(old(Snap(game.items)), Snap(game.items), e.item)
  {
    ghost var f: World<Item> := Snap(game.items);
    assert f[e.item] == e.item.State();
    GiveChange(game, cylinder, drop, e, change, flags, currency, Z);
    ghost var g: World<Item> := Snap(game.items);
    assert SameStack(f, g, e.item) && g[e.item] == e.item.State() && NoneSpent(f, g);
    CutStack(game, e.item, removeCount, Z);
    ghost var r: World<Item> := Snap(game.items);
    assert OthersWhole(g, r, e.item);
    OnlyMoneyTrans<Item>(f, g, r, Z);
    SpentAfterChange(f, g, r, e.item);
  }

  /** A coin that does not stack is removed as a whole, which is the one piece that was asked for. */
  lemma SingleCoin<R>(f: World<R>, x: R, n: nat)
    requires Stacked(f) && x in f && 1 <= n <= f[x].count && !f[x].kind.stackable
    ensures n == f[x].count == 1
  {
    assert StackedAt(f, x);
  }

  /**
   Takes money out of the cylinder, small coins first, and gives change. It fails exactly when there is too
   little. Otherwise the money inside the cylinder together with that on the drop falls by exactly money, and
   nothing else is touched: no item outside, and no list of a container outside. When the cylinder has room for the
   change, the drop is not touched either, and the money inside the cylinder alone falls by exactly money.
   */
  method RemoveMoney(game: Game, cylinder: Item?, drop: Item, money: nat, flags: Flags, currency: seq<Currency>)
    returns (paid: bool)
    requires game.Valid() && drop in game.items && drop.isContainer
    requires cylinder != null ==> cylinder in game.items && cylinder.isContainer
    requires !flags.childIsOwner && TableOk(currency) && Listed(Snap(game.items), currency)
    modifies game, game.items
    ensures game.Valid() && (forall y | y in game.items :: y in old(game.items) || fresh(y))
    ensures paid <==>
            cylinder != null && (money == 0 || money <= old(Purse<Item>(Snap(game.items), game.depth, cylinder)))
    ensures !paid ==> game.items == old(game.items) && Snap(game.items) == old(Snap(game.items))
    ensures paid ==> cylinder in game.items
    ensures paid ==>
              (Takings<Item>(Snap(game.items), game.depth, cylinder, drop)
               == old(Takings<Item>(Snap(game.items), game.depth, cylinder, drop)) - money)
    ensures paid ==> OnlyMoney<Item>(old(Snap(game.items)), Snap(game.items),
                                     old(Reach<Item>(Snap(game.items), game.depth, cylinder)) + {drop})
    ensures paid ==>
            SumAll<Item>(Snap(game.items), Of(Worth())) == old(SumAll<Item>(Snap(game.items), Of(Worth()))) - money
    ensures paid && money > 0 ==>
              SmallestFirst(old(Snap(game.items)), Snap(game.items),
                            old(Inside<Item>(Snap(game.items), game.depth, cylinder)))
    ensures paid && old(RoomForChange(cylinder, currency[0].worth, flags, currency)) ==>
              && OnlyMoney<Item>(old(Snap(game.items)), Snap(game.items),
                                 old(Reach<Item>(Snap(game.items), game.depth, cylinder)))
              && Purse<Item>(Snap(game.items), game.depth, cylinder)
                 == old(Purse<Item>(Snap(game.items), game.depth, cylinder)) - money
  {
    if cylinder == null {
      return false;
    }
    ghost var f: World<Item> := Snap(game.items);
    ghost var depth := game.depth;
    ghost var Y: set<Item> := Reach<Item>(f, depth, cylinder);
    ghost var enough := RoomForChange(cylinder, currency[0].worth, flags, currency);
    ghost var Z := if enough then Y else Y + {drop};
    OnlyMoneySame<Item>(f, Y);
    OnlyMoneySame<Item>(f, Y + {drop});
    if money == 0 {
      return true;
    }
    ListedIsCapped<Item>(f, currency);
    var moneyMap, moneyCount := GatherMoney(cylinder, game.items, game.depth);
    if moneyCount < money {
      return false;
    }
    GatheredLie(f, depth, cylinder, Z, moneyMap);
    ghost var k := PayWith(game, cylinder, drop, moneyMap, money, flags, currency, Z);
    PaidWhere(f, depth, Snap(game.items), game.depth, cylinder, drop, money, Z);
    SpentSmallestFirst(f, Snap(game.items), Inside<Item>(f, depth, cylinder), moneyMap, k);
    paid := true;
  }

  /** What has been gathered is money in reach. */
  lemma GatheredLie(f: World<Item>, depth: map<Item, nat>, c: Item, Z: set<Item>, m: seq<MoneyEntry>)
    requires c in f && Acyclic(f, depth) && Reach(f, depth, c) <= Z
    requires Linked(f) && Acyclic(f, depth) && c in f && EntriesOk(f, m)
    requires forall e | e in m :: e.item in Inside(f, depth, c)
    ensures AllCoins(f, Z, m)
  {
    forall i {:trigger m[i]} | 0 <= i < |m|
      ensures Coin(f, Z, m[i].item)
    {
      assert m[i] in m && EntryOk(f, m[i]);
      InsideLiesIn(f, depth, c, m[i].item);
      CoinHasWorth(f, m[i]);
    }
  }

  /** Where what has been paid is missing. */
  lemma PaidWhere(
      f: World<Item>, depth: map<Item, nat>, r: World<Item>, depth': map<Item, nat>, c: Item, drop: Item, money: nat,
      Z: set<Item>)
    requires WellFormed(f, depth) && WellFormed(r, depth') && c in f && f[c].isContainer
    requires OnlyMoney(f, r, Z) && (Z == Reach(f, depth, c) || Z == Reach(f, depth, c) + {drop})
    requires SumAll(r, Of(Worth())) == SumAll(f, Of(Worth())) - money
    ensures c in r && OnlyMoney(f, r, Reach(f, depth, c) + {drop})
    ensures Takings(r, depth', c, drop) == Takings(f, depth, c, drop) - money
    ensures Z == Reach(f, depth, c) ==> Purse(r, depth', c) == Purse(f, depth, c) - money
  {
    OnlyMoneyWidens(f, r, Z, Reach(f, depth, c) + {drop});
    TakingsShift(f, depth, r, depth', c, drop);
    if Z == Reach(f, depth, c) {
      PurseShift(f, depth, r, depth', c);
    }
  }

  /** The loop of removeMoney over the money map. */
  method PayWith(
      game: Game, cylinder: Item, drop: Item, moneyMap: seq<MoneyEntry>, money: nat, flags: Flags,
      currency: seq<Currency>, ghost Z: set<Item>)
    returns (ghost k: nat)
    requires game.Valid() && cylinder in game.items && cylinder.isContainer && drop in game.items && drop.isContainer
    requires !flags.childIsOwner && TableOk(currency) && Capped(Snap(game.items), currency[0].worth)
    requires EntriesOk(Snap(game.items), moneyMap) && 0 < money <= SumEntries(moneyMap)
    requires cylinder in Z && (drop in Z || RoomForChange(cylinder, currency[0].worth, flags, currency))
    requires AllCoins(Snap(game.items), Z, moneyMap)
    modifies game, game.items
    ensures game.Valid() && (forall y | y in game.items :: y in old(game.items) || fresh(y))
    ensures OnlyMoney<Item>(old(Snap(game.items)), Snap(game.items), Z)
    ensures SumAll<Item>(Snap(game.items), Of(Worth())) == old(SumAll<Item>(Snap(game.items), Of(Worth()))) - money
    ensures WorthIn<Item>(Snap(game.items), Z) == old(WorthIn<Item>(Snap(game.items), Z)) - money
    ensures Spent(old(Snap(game.items)), Snap(game.items), moneyMap, k)
  {
    ghost var f: World<Item> := Snap(game.items);
    OnlyMoneySame<Item>(f, Z);
    var left, i, done := money, 0, false;
    k := 0;
    NothingSpent(f, moneyMap);
    while !done
      invariant game.Valid() && (forall y | y in game.items :: y in old(game.items) || fresh(y))
      invariant PayLoop(f, Snap(game.items), Z, moneyMap, i, k, left, money, currency[0].worth, done)
      invariant done || drop in Z || RoomForChange(cylinder, currency[0].worth, flags, currency)
      decreases if done then 0 else 1, |moneyMap| - i
    {
      done, left, k := PayTurn(game, cylinder, drop, moneyMap, i, left, flags, currency, f, Z, money);
      i := i + 1;
    }
    WorthShifts<Item>(f, Snap(game.items), Z);
  }

  /** The state of the loop of removeMoney: i entries have been used, and k of their stacks are gone for sure. */
  ghost predicate PayLoop(
      f: World<Item>, g: World<Item>, Z: set<Item>, m: seq<MoneyEntry>, i: nat, k: nat, left: int, money: int, top: nat,
      done: bool)
  {
    && i <= |m| && Spent(f, g, m, k)
    && if done then Paid(f, g, Z, money)
       else k == i && WholeFrom(f, g, m, i) && Paying(f, g, Z, m[i..], left, money, top)
  }

  /** One turn of that loop. */
  method PayTurn(
      game: Game, cylinder: Item, drop: Item, moneyMap: seq<MoneyEntry>, i: nat, money: nat, flags: Flags,
      currency: seq<Currency>, ghost f: World<Item>, ghost Z: set<Item>, ghost all: nat)
    returns (done: bool, left: nat, ghost k: nat)
    requires game.Valid() && cylinder in f && f[cylinder].isContainer && drop in f && f[drop].isContainer
    requires !flags.childIsOwner && TableOk(currency) && i < |moneyMap| && EntriesOk(f, moneyMap)
    requires cylinder in Z && (drop in Z || RoomForChange(cylinder, currency[0].worth, flags, currency))
    requires PayLoop(f, Snap(game.items), Z, moneyMap, i, i, money, all, currency[0].worth, false)
    modifies game, game.items
    ensures game.Valid() && (forall y | y in game.items :: y in old(game.items) || fresh(y))
    ensures PayLoop(f, Snap(game.items), Z, moneyMap, i + 1, k, left, all, currency[0].worth, done)
    ensures done || drop in Z || RoomForChange(cylinder, currency[0].worth, flags, currency)
  {
    ghost var g, entries := Snap(game.items), moneyMap[i..];
    assert entries[0] == moneyMap[i] && entries[1..] == moneyMap[i + 1..];
    done, left := PayEntry(game, cylinder, drop, moneyMap[i], money, flags, currency, f, Z, entries, all);
    SpentStep(f, g, Snap(game.items), moneyMap, i);
    k := if done then i else i + 1;
  }

  /** Of the money map, all stacks before k are gone, and those behind k are whole. */
  ghost predicate Spent(f: World<Item>, g: World<Item>, m: seq<MoneyEntry>, k: nat) {
    && k <= |m| && (forall a | 0 <= a < k :: m[a].item !in g)
    && WholeFrom(f, g, m, k + 1)
  }

  ghost predicate WholeFrom(f: World<Item>, g: World<Item>, m: seq<MoneyEntry>, k: nat) {
    forall b | k <= b < |m| :: m[b].item in f && Whole(f, g, m[b].item)
  }

  lemma NothingSpent(f: World<Item>, m: seq<MoneyEntry>)
    requires EntriesOk(f, m)
    ensures Spent(f, f, m, 0) && WholeFrom(f, f, m, 0)
  {
    forall b | 0 <= b < |m|
      ensures m[b].item in f && Whole(f, f, m[b].item)
    {
      assert EntryOk(f, m[b]);
    }
  }

  /** One more entry is used; none that is gone comes back. */
  lemma SpentStep(f: World<Item>, g: World<Item>, r: World<Item>, m: seq<MoneyEntry>, i: nat)
    requires i < |m| && EntriesOk(f, m) && Spent(f, g, m, i) && WholeFrom(f, g, m, i)
    requires OthersWhole(g, r, m[i].item) && forall a | 0 <= a < i :: m[a].item !in r
    ensures Spent(f, r, m, i)
    ensures m[i].item !in r ==> Spent(f, r, m, i + 1) && WholeFrom(f, r, m, i + 1)
  {
    forall b | i + 1 <= b < |m|
      ensures m[b].item in f && Whole(f, r, m[b].item)
    {
      assert m[b].item != m[i].item && Whole(f, g, m[b].item) && Whole(g, r, m[b].item);
    }
  }

  /**
   Whatever is worth something and lies inside is used up before anything there that is worth more: if y is gone or
   has fewer pieces, all that was worth less is gone.
   */
  ghost predicate SmallestFirst(f: World<Item>, r: World<Item>, inside: set<Item>) {
    forall x, y {:trigger HasWorth(f, x), HasWorth(f, y)} |
        && x in inside && y in inside && HasWorth(f, x) && HasWorth(f, y)
        && Amount(Worth(), f[x]) < Amount(Worth(), f[y]) && !Whole(f, r, y) ::
      x !in r
  }

  lemma SpentSmallestFirst(f: World<Item>, r: World<Item>, inside: set<Item>, m: seq<MoneyEntry>, k: nat)
    requires Sorted(m) && Complete(f, inside, m) && Spent(f, r, m, k)
    ensures SmallestFirst(f, r, inside)
  {
    forall x, y {:trigger HasWorth(f, x), HasWorth(f, y)} |
        && x in inside && y in inside && HasWorth(f, x) && HasWorth(f, y)
        && Amount(Worth(), f[x]) < Amount(Worth(), f[y]) && !Whole(f, r, y)
      ensures x !in r
    {
      var a :| 0 <= a < |m| && m[a] == MoneyEntry(Amount(Worth(), f[x]), x);
      var b :| 0 <= b < |m| && m[b] == MoneyEntry(Amount(Worth(), f[y]), y);
      assert b <= k && a < b;
    }
  }

  /** Exactly money has been paid, and nothing but money in Z has been touched. */
  ghost predicate Paid(f: World<Item>, r: World<Item>, Z: set<Item>, money: int) {
    OnlyMoney(f, r, Z) && SumAll(r, Of(Worth())) == SumAll(f, Of(Worth())) - money
  }

  /** The body of the loop of removeMoney; done stands for its break. */
  method PayEntry(
      game: Game, cylinder: Item, drop: Item, moneyEntry: MoneyEntry, money: nat, flags: Flags, currency: seq<Currency>,
      ghost f: World<Item>, ghost Z: set<Item>, ghost entries: seq<MoneyEntry>, ghost all: nat)
    returns (done: bool, left: nat)
    requires game.Valid() && cylinder in f && f[cylinder].isContainer && drop in f && f[drop].isContainer
    requires !flags.childIsOwner && TableOk(currency) && entries != [] && entries[0] == moneyEntry
    requires cylinder in Z && (drop in Z || RoomForChange(cylinder, currency[0].worth, flags, currency))
    requires Paying(f, Snap(game.items), Z, entries, money, all, currency[0].worth)
    modifies game, game.items
    ensures game.Valid() && (forall y | y in game.items :: y in old(game.items) || fresh(y))
    ensures if done then Paid(f, Snap(game.items), Z, all)
            else Paying(f, Snap(game.items), Z, entries[1..], left, all, currency[0].worth)
    ensures !done ==> moneyEntry.item !in game.items
    ensures !done ==> drop in Z || RoomForChange(cylinder, currency[0].worth, flags, currency)
    ensures OthersWhole(old(Snap(game.items)), Snap(game.items), moneyEntry.item)
  {
    done, left := false, money;
    ghost var g: World<Item> := Snap(game.items);
    assert EntryOk(g, entries[0]) && Coin<Item>(g, Z, entries[0].item);
    assert MoneyOnly<Item>(f, g, Z, cylinder);
    if moneyEntry.worth < money {
      PayStack(game, cylinder, moneyEntry.item, f, Z, entries, money, all, currency[0].worth);
      assert NoLonger(g, Snap(game.items), cylinder);
      if drop !in Z {
        RoomStays(g, Snap(game.items), cylinder, currency[0].worth, flags, currency);
      }
      left := money - moneyEntry.worth;
    } else if moneyEntry.worth > money {
      PayCut(game, cylinder, drop, moneyEntry, money, flags, currency, f, Z);
      done := true;
    } else {
      PayStack(game, cylinder, moneyEntry.item, f, Z, entries, money, all, currency[0].worth);
      done := true;
    }
  }

  /** A stack that is worth no more than what is left to pay is removed. */
  method PayStack(
      game: Game, ghost cylinder: Item, item: Item, ghost f: World<Item>, ghost Z: set<Item>,
      ghost entries: seq<MoneyEntry>, ghost left: int, ghost money: int, ghost top: nat)
    requires cylinder in game.items && cylinder.isContainer
    requires game.Valid() && Paying(f, Snap(game.items), Z, entries, left, money, top) && entries != []
             && item == entries[0].item
    modifies game, game.items
    ensures game.Valid() && game.items <= old(game.items)
    ensures entries[0].worth < left ==>
            Paying(f, Snap(game.items), Z, entries[1..], left - entries[0].worth, money, top)
    ensures OnlyMoney<Item>(f, Snap(game.items), Z)
    ensures SumAll<Item>(Snap(game.items), Of(Worth()))
            == SumAll<Item>(f, Of(Worth())) - (money - left) - entries[0].worth
    ensures item !in game.items && OthersWhole(old(Snap(game.items)), Snap(game.items), item)
    ensures NoLonger(old(Snap(game.items)), Snap(game.items), cylinder)
  {
    ghost var g: World<Item> := Snap(game.items);
    assert EntryOk(g, entries[0]) && g[item] == item.State() && g[cylinder] == cylinder.State();
    var ret;
    ghost var m;
    ret, m := InternalRemoveItem(game, item, -1, false, NO_FLAGS);
    ghost var r: World<Item> := Snap(game.items);
    PayWhole(f, g, r, Z, entries, left, money, top);
    RemovedLeavesOthers(g, r, item, g[item].count);
    RemovedNoLonger(g, r, item, g[item].count, cylinder);
  }

  /** y holds no more items than before. */
  ghost predicate NoLonger(g: World<Item>, r: World<Item>, y: Item) {
    y in g && y in r && |r[y].list| <= |g[y].list| && r[y].maxSize == g[y].maxSize
  }

  lemma RemovedNoLonger(g: World<Item>, r: World<Item>, x: Item, m: nat, y: Item)
    requires Removed(g, r, x, m) && y in g && y != x
    ensures NoLonger(g, r, y)
  {
    assert Kept(g, r, g[x].parent.value, y);
  }

  lemma RoomStays(f: World<Item>, r: World<Item>, cylinder: Item, top: nat, flags: Flags, currency: seq<Currency>)
    requires TableOk(currency) && NoLonger(f, r, cylinder)
    requires ChangeFits(|f[cylinder].list|, f[cylinder].maxSize, top, flags, currency)
    ensures ChangeFits(|r[cylinder].list|, r[cylinder].maxSize, top, flags, currency)
  {
    WorthsArePositive(currency);
    forall change: nat | change < top && !flags.noLimit
      ensures |r[cylinder].list| + StacksToGive(currency, 0, change) <= r[cylinder].maxSize
    {
    }
  }
}
