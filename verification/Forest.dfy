/**
 The item forest as a value: what every item holds, keyed by item identity, and
 the laws of sums over it. The container classes are proved against this theory.
 */
module Forest {
  import opened ItemTypes

  /** The fields of one Item, with its Container part (src/item.h, src/container.h). */
  datatype Node<R> = Node(
    kind: ItemType, attrs: AttrMap, count: nat, parent: Option<R>,
    isContainer: bool, maxSize: nat, list: seq<R>, total: int)

  type World<R> = map<R, Node<R>>

  /** Item::getWeight for the item itself, without its contents. */
  function OwnWeight<R>(n: Node<R>): int {
    if n.kind.stackable then
      Times(BaseWeight(n.kind, n.attrs), if n.count < 1 then 1 else n.count)
    else
      BaseWeight(n.kind, n.attrs)
  }

  /** Container::getWeight; an item that is no container has total 0. */
  function Weight<R>(n: Node<R>): int {
    OwnWeight(n) + n.total
  }

  /** What equals() compares, and what stacks are counted by. */
  datatype Key = Key(kind: ItemType, attrs: AttrMap)

  function KeyOf<R>(n: Node<R>): Key {
    Key(n.kind, n.attrs)
  }

  // ----- measures: quantities that are added up over items -----

  function WeightMeasure<R>(): Node<R> -> int {
    (n: Node<R>) => Weight(n)
  }

  /** A conserved quantity: what one piece of a type with given attributes contributes. */
  type Quantity = Key -> int

  function Amount<R>(q: Quantity, n: Node<R>): int {
    Times(q(KeyOf(n)), n.count)
  }

  function Of<R>(q: Quantity): Node<R> -> int {
    (n: Node<R>) => Amount(q, n)
  }

  /** How many pieces of one type with one set of attributes there are. */
  function CountOf(key: Key): Quantity {
    (k: Key) => if k == key then 1 else 0
  }

  /** Item::getWorth per piece. */
  function Worth(): Quantity {
    (k: Key) => k.kind.worth
  }

  ghost function At<R>(f: World<R>, x: R, g: Node<R> -> int): int {
    if x in f then g(f[x]) else 0
  }

  ghost function SumSeq<R>(f: World<R>, s: seq<R>, g: Node<R> -> int): int {
    if s == [] then 0 else At(f, s[0], g) + SumSeq(f, s[1..], g)
  }

  /** The sum over all items. */
  ghost function SumAll<R>(f: World<R>, g: Node<R> -> int): int
    decreases |f|
  {
    if |f| == 0 then 0 else g(f[Pick(f)]) + SumAll(f - {Pick(f)}, g)
  }

  ghost function Pick<R>(f: World<R>): (x: R)
    requires |f| > 0
    ensures x in f
  {
    var x :| x in f; x
  }

  lemma {:induction false} SumAllTake<R>(f: World<R>, x: R, g: Node<R> -> int)
    requires x in f
    ensures SumAll(f, g) == g(f[x]) + SumAll(f - {x}, g)
    decreases |f|
  {
    var y := Pick(f);
    if y != x {
      SumAllTake(f - {y}, x, g);
      SumAllTake(f - {x}, y, g);
      assert f - {y} - {x} == f - {x} - {y};
    }
  }

  lemma SumAllPut<R>(f: World<R>, x: R, n: Node<R>, g: Node<R> -> int)
    ensures SumAll(f[x := n], g) == SumAll(f, g) - At(f, x, g) + g(n)
  {
    SumAllTake(f[x := n], x, g);
    assert f[x := n] - {x} == f - {x};
    if x in f {
      SumAllTake(f, x, g);
    } else {
      assert f - {x} == f;
    }
  }

  /** A sum does not see changes of nodes that the measure does not see. */
  lemma {:induction false} SumAllFrame<R>(f: World<R>, h: World<R>, g: Node<R> -> int)
    requires f.Keys == h.Keys
    requires forall x | x in f :: g(f[x]) == g(h[x])
    ensures SumAll(f, g) == SumAll(h, g)
    decreases |f|
  {
    if |f| == 0 {
      assert f == map[] && h == map[];
    } else {
      var x := Pick(f);
      SumAllTake(f, x, g);
      SumAllTake(h, x, g);
      SumAllFrame(f - {x}, h - {x}, g);
    }
  }

  /** Two measures that agree on every item add up to the same. */
  lemma {:induction false} SameMeasure<R>(f: World<R>, g: Node<R> -> int, h: Node<R> -> int, S: set<R>)
    requires f.Keys == S && forall y | y in f :: g(f[y]) == h(f[y])
    ensures SumAll(f, g) == SumAll(f, h)
    decreases |S|
  {
    if S != {} {
      var x :| x in S;
      SumAllTake(f, x, g);
      SumAllTake(f, x, h);
      SameMeasure(f - {x}, g, h, S - {x});
    }
  }

  lemma {:induction false} SumSeqFrame<R>(f: World<R>, h: World<R>, s: seq<R>, g: Node<R> -> int)
    requires forall x | x in s :: At(f, x, g) == At(h, x, g)
    ensures SumSeq(f, s, g) == SumSeq(h, s, g)
  {
    if s != [] {
      SumSeqFrame(f, h, s[1..], g);
    }
  }

  /** Replacing one node moves the sum over a duplicate-free list by the difference, if the item is in it. */
  lemma {:induction false} SumSeqPut<R>(f: World<R>, s: seq<R>, x: R, n: Node<R>, g: Node<R> -> int)
    requires NoDup(s)
    ensures SumSeq(f[x := n], s, g) == SumSeq(f, s, g) + if x in s then g(n) - At(f, x, g) else 0
  {
    if s != [] {
      SumSeqPut(f, s[1..], x, n, g);
      assert s == [s[0]] + s[1..];
    }
  }

  lemma {:induction false} SumSeqConcat<R>(f: World<R>, s: seq<R>, t: seq<R>, g: Node<R> -> int)
    ensures SumSeq(f, s + t, g) == SumSeq(f, s, g) + SumSeq(f, t, g)
  {
    if s == [] {
      assert s + t == t;
    } else {
      assert (s + t)[1..] == s[1..] + t;
      SumSeqConcat(f, s[1..], t, g);
    }
  }

  lemma SumSeqErase<R>(f: World<R>, s: seq<R>, i: nat, g: Node<R> -> int)
    requires i < |s|
    ensures SumSeq(f, s, g) == SumSeq(f, Erase(s, i), g) + At(f, s[i], g)
  {
    assert s == s[..i] + ([s[i]] + s[i + 1..]);
    SumSeqConcat(f, s[..i], [s[i]] + s[i + 1..], g);
    SumSeqConcat(f, s[..i], s[i + 1..], g);
    assert ([s[i]] + s[i + 1..])[1..] == s[i + 1..];
  }

  function Erase<T>(s: seq<T>, i: nat): (r: seq<T>)
    requires i < |s|
    ensures |r| == |s| - 1
  {
    s[..i] + s[i + 1..]
  }

  // ----- well-formed forests -----

  /** The parent of x, if it has one, lists x. */
  ghost predicate UpOk<R>(f: World<R>, x: R)
    requires x in f
  {
    f[x].parent.Some? ==> f[x].parent.value in f && x in f[f[x].parent.value].list
  }

  /** What c lists has c as its parent, and nothing is listed twice. */
  ghost predicate DownOk<R>(f: World<R>, c: R)
    requires c in f
  {
    && NoDup(f[c].list)
    && (!f[c].isContainer ==> f[c].list == [])
    && forall y | y in f[c].list :: y in f && f[y].parent == Some(c)
  }

  /** Parent pointers and item lists agree. */
  ghost predicate Linked<R>(f: World<R>) {
    && (forall x {:trigger UpOk(f, x)} | x in f :: UpOk(f, x))
    && (forall x {:trigger DownOk(f, x)} | x in f :: DownOk(f, x))
  }

  /** The weight of one piece of a type with given attributes, as a quantity. */
  function PieceWeight(): Quantity {
    (k: Key) => BaseWeight(k.kind, k.attrs)
  }

  function OwnWeightMeasure<R>(): Node<R> -> int {
    (n: Node<R>) => OwnWeight(n)
  }

  /** Splitting a stack splits its weight; what does not stack weighs the same whatever its count. */
  lemma WeighsByPiece<R>(n: Node<R>, a: nat, b: nat)
    ensures n.kind.stackable && a >= 1 && b >= 1 ==>
              OwnWeight(n.(count := a + b)) == OwnWeight(n.(count := a)) + OwnWeight(n.(count := b))
    ensures !n.kind.stackable || a == 0 ==> OwnWeight(n.(count := a)) == OwnWeight(n.(count := 1))
  {
    TimesAdd(BaseWeight(n.kind, n.attrs), a, b);
  }

  /** A piece weighs what its weight attribute says, as an unsigned 32-bit number, or else what its type says. */
  lemma PieceWeighs<R>(n: Node<R>)
    requires n.count == 1
    ensures ITEM_ATTRIBUTE_WEIGHT !in n.attrs ==> OwnWeight(n) == n.kind.weight
    ensures ITEM_ATTRIBUTE_WEIGHT in n.attrs && n.attrs[ITEM_ATTRIBUTE_WEIGHT].IntValue? ==>
              var i := n.attrs[ITEM_ATTRIBUTE_WEIGHT].i;
              && (0 <= i < 0x1_0000_0000 ==> OwnWeight(n) == i)
              && (-0x1_0000_0000 <= i < 0 ==> OwnWeight(n) == i + 0x1_0000_0000)
  {
    var w := BaseWeight(n.kind, n.attrs);
    assert Times(w, 1) == Times(w, 0) + w;
  }

  /** In a forest without empty stacks the items weigh what their pieces weigh. */
  lemma PiecesWeigh<R>(f: World<R>)
    requires Stacked(f)
    ensures SumAll(f, OwnWeightMeasure()) == SumAll(f, Of(PieceWeight()))
  {
    forall y | y in f
      ensures OwnWeightMeasure()(f[y]) == Of(PieceWeight())(f[y])
    {
      var w := BaseWeight(f[y].kind, f[y].attrs);
      assert StackedAt(f, y) && Times(w, 1) == Times(w, 0) + w;
    }
    SameMeasure(f, OwnWeightMeasure(), Of(PieceWeight()), f.Keys);
  }

  /** Every parent is strictly nearer to the root: there is no cycle. */
  ghost predicate Acyclic<R>(f: World<R>, depth: map<R, nat>) {
    && f.Keys <= depth.Keys
    && forall x {:trigger Below(f, depth, x)} | x in f :: Below(f, depth, x)
  }

  ghost predicate Below<R>(f: World<R>, depth: map<R, nat>, x: R)
    requires x in f && f.Keys <= depth.Keys
  {
    f[x].parent.Some? ==> f[x].parent.value in f && depth[f[x].parent.value] < depth[x]
  }

  /** Acyclicity depends on the parents alone. */
  lemma SameParents<R>(f: World<R>, h: World<R>, depth: map<R, nat>)
    requires Acyclic(f, depth) && f.Keys == h.Keys
    requires forall x | x in f :: h[x].parent == f[x].parent || h[x].parent.None?
    ensures Acyclic(h, depth)
  {
    forall x {:trigger Below(h, depth, x)} | x in h
      ensures Below(h, depth, x)
    {
      assert Below(f, depth, x);
    }
  }

  /** The cached totalWeight of x is the weight of its direct contents. */
  ghost predicate WeighedAt<R>(f: World<R>, x: R)
    requires x in f
  {
    f[x].total == SumSeq(f, f[x].list, WeightMeasure())
  }

  ghost predicate Weighed<R>(f: World<R>) {
    forall x {:trigger WeighedAt(f, x)} | x in f :: WeighedAt(f, x)
  }

  /** Stacks are neither empty nor above their stack size; containers do not stack. */
  ghost predicate Stacked<R>(f: World<R>) {
    forall x {:trigger StackedAt(f, x)} | x in f :: StackedAt(f, x)
  }

  ghost predicate StackedAt<R>(f: World<R>, x: R)
    requires x in f
  {
    1 <= f[x].count <= StackSize(f[x].kind) <= 255 && (f[x].isContainer ==> !f[x].kind.stackable)
  }

  /** No container is above its capacity. */
  ghost predicate Fits<R>(f: World<R>) {
    forall x | x in f :: |f[x].list| <= f[x].maxSize
  }

  ghost predicate WellFormed<R>(f: World<R>, depth: map<R, nat>) {
    Linked(f) && Acyclic(f, depth) && Weighed(f) && Stacked(f)
  }

  // ----- updateItemWeight: one difference, added along the parent chain -----

  ghost function Reweigh<R>(f: World<R>, depth: map<R, nat>, c: R, diff: int): World<R>
    requires Acyclic(f, depth) && c in f
    decreases depth[c]
  {
    SameParents(f, Shifted(f, c, diff), depth);
    assert Below(f, depth, c);
    if f[c].parent.None? then Shifted(f, c, diff)
    else Reweigh(Shifted(f, c, diff), depth, f[c].parent.value, diff)
  }

  /** h differs from f in the totals at most. */
  ghost predicate SameButTotals<R>(f: World<R>, h: World<R>) {
    f.Keys == h.Keys && forall x {:trigger h[x]} | x in f :: h[x] == f[x].(total := h[x].total)
  }

  lemma {:induction false} ReweighShape<R>(f: World<R>, depth: map<R, nat>, c: R, diff: int)
    requires Acyclic(f, depth) && c in f
    ensures SameButTotals(f, Reweigh(f, depth, c, diff))
    decreases depth[c]
  {
    assert Below(f, depth, c);
    SameParents(f, Shifted(f, c, diff), depth);
    if f[c].parent.Some? {
      ReweighShape(Shifted(f, c, diff), depth, f[c].parent.value, diff);
    }
  }

  /** Only the cache of c is off, by diff. */
  ghost predicate OffBy<R>(f: World<R>, c: R, diff: int) {
    && c in f
    && SumSeq(f, f[c].list, WeightMeasure()) == f[c].total + diff
    && forall x {:trigger WeighedAt(f, x)} | x in f && x != c :: WeighedAt(f, x)
  }

  ghost function Shifted<R>(f: World<R>, c: R, diff: int): World<R>
    requires c in f
  {
    f[c := f[c].(total := f[c].total + diff)]
  }

  lemma ShiftedSum<R>(f: World<R>, c: R, diff: int, x: R)
    requires Linked(f) && c in f && x in f
    ensures SumSeq(Shifted(f, c, diff), f[x].list, WeightMeasure())
         == SumSeq(f, f[x].list, WeightMeasure()) + if f[c].parent == Some(x) then diff else 0
  {
    assert UpOk(f, c) && DownOk(f, x);
    SumSeqPut(f, f[x].list, c, f[c].(total := f[c].total + diff), WeightMeasure());
    assert c in f[x].list <==> f[c].parent == Some(x);
  }

  /** Correcting the cache of c leaves its parent as the only one that is off. */
  lemma ShiftedIsOffAbove<R>(f: World<R>, depth: map<R, nat>, c: R, diff: int)
    requires Linked(f) && Acyclic(f, depth) && OffBy(f, c, diff)
    ensures f[c].parent.None? ==> Weighed(Shifted(f, c, diff))
    ensures f[c].parent.Some? ==> OffBy(Shifted(f, c, diff), f[c].parent.value, diff)
  {
    var g := Shifted(f, c, diff);
    assert UpOk(f, c) && Below(f, depth, c);
    forall x {:trigger WeighedAt(g, x)} | x in f && f[c].parent != Some(x)
      ensures WeighedAt(g, x)
    {
      ShiftedSum(f, c, diff, x);
      assert x != c ==> WeighedAt(f, x);
    }
    if f[c].parent.Some? {
      var p := f[c].parent.value;
      ShiftedSum(f, c, diff, p);
      assert WeighedAt(f, p);
    }
  }

  /** Adding the missing difference along the parent chain makes every cache right again. */
  lemma {:induction false} ReweighRestores<R>(f: World<R>, depth: map<R, nat>, c: R, diff: int)
    requires Linked(f) && Acyclic(f, depth) && OffBy(f, c, diff)
    ensures Weighed(Reweigh(f, depth, c, diff))
    decreases depth[c]
  {
    ShiftedIsOffAbove(f, depth, c, diff);
    SameParents(f, Shifted(f, c, diff), depth);
    assert Below(f, depth, c);
    if f[c].parent.Some? {
      ShiftedLinked(f, c, diff);
      ReweighRestores(Shifted(f, c, diff), depth, f[c].parent.value, diff);
    }
  }

  lemma ShiftedLinked<R>(f: World<R>, c: R, diff: int)
    requires Linked(f) && c in f
    ensures Linked(Shifted(f, c, diff))
  {
    SameShape(f, Shifted(f, c, diff));
  }

  lemma ReweighKeepsForest<R>(f: World<R>, depth: map<R, nat>, c: R, diff: int)
    requires Linked(f) && Acyclic(f, depth) && Stacked(f) && OffBy(f, c, diff)
    ensures WellFormed(Reweigh(f, depth, c, diff), depth)
  {
    ReweighRestores(f, depth, c, diff);
    ReweighShape(f, depth, c, diff);
    SameShape(f, Reweigh(f, depth, c, diff));
    SameStacks(f, Reweigh(f, depth, c, diff));
    SameParents(f, Reweigh(f, depth, c, diff), depth);
  }

  lemma SameStacks<R>(f: World<R>, h: World<R>)
    requires Stacked(f) && f.Keys == h.Keys
    requires forall x | x in f ::
               h[x].kind == f[x].kind && h[x].count == f[x].count && h[x].isContainer == f[x].isContainer
    ensures Stacked(h)
  {
    forall x {:trigger StackedAt(h, x)} | x in h
      ensures StackedAt(h, x)
    {
      assert StackedAt(f, x);
    }
  }

  lemma SameShape<R>(f: World<R>, h: World<R>)
    requires Linked(f) && SameButTotals(f, h)
    ensures Linked(h)
  {
    forall x {:trigger UpOk(h, x)} {:trigger DownOk(h, x)} | x in h
      ensures UpOk(h, x) && DownOk(h, x)
    {
      assert UpOk(f, x) && DownOk(f, x);
    }
  }

  ghost predicate SameTotals<R>(f: World<R>, h: World<R>) {
    f.Keys == h.Keys && forall x {:trigger f[x]} {:trigger h[x]} | x in f :: f[x].total == h[x].total
  }

  /** The weights added along the chain depend on parents and totals alone. */
  lemma {:induction false} ReweighReadsParentsOnly<R>(
      f: World<R>, h: World<R>, depth: map<R, nat>, c: R, diff: int)
    requires Acyclic(f, depth) && Acyclic(h, depth) && c in f && f.Keys == h.Keys
    requires SameTotals(f, h)
    requires forall x | x in f && depth[x] <= depth[c] :: f[x].parent == h[x].parent
    ensures SameTotals(Reweigh(f, depth, c, diff), Reweigh(h, depth, c, diff))
    decreases depth[c]
  {
    SameParents(f, Shifted(f, c, diff), depth);
    SameParents(h, Shifted(h, c, diff), depth);
    assert Below(f, depth, c) && Below(h, depth, c);
    if f[c].parent.Some? {
      ReweighReadsParentsOnly(Shifted(f, c, diff), Shifted(h, c, diff), depth, f[c].parent.value, diff);
    }
  }

  // ----- the tree relation -----

  /** y is x or lies, at any depth, inside x. */
  ghost predicate Under<R>(f: World<R>, depth: map<R, nat>, y: R, x: R)
    requires Acyclic(f, depth) && y in f
    decreases depth[y]
  {
    assert Below(f, depth, y);
    y == x || (f[y].parent.Some? && Under(f, depth, f[y].parent.value, x))
  }

  /** New depths when the tree of x goes into c. */
  ghost function Deepened<R>(f: World<R>, depth: map<R, nat>, c: R, x: R): map<R, nat>
    requires Acyclic(f, depth) && c in f
  {
    map y | y in f :: if Under(f, depth, y, x) then depth[y] + depth[c] + 1 else depth[y]
  }

  // ----- attaching and detaching -----

  ghost function Linking<R>(f: World<R>, c: R, x: R, list: seq<R>): World<R>
    requires c in f && x in f
  {
    f[x := f[x].(parent := Some(c))][c := f[c].(list := list)]
  }

  /** x is a root that may be put into the container c. */
  ghost predicate CanAttach<R>(f: World<R>, depth: map<R, nat>, c: R, x: R) {
    && Linked(f) && Acyclic(f, depth)
    && c in f && f[c].isContainer && x in f && f[x].parent.None? && !Under(f, depth, c, x)
  }

  lemma LinkingIsAcyclic<R>(f: World<R>, depth: map<R, nat>, c: R, x: R, list: seq<R>)
    requires CanAttach(f, depth, c, x)
    ensures Acyclic(Linking(f, c, x, list), Deepened(f, depth, c, x))
  {
    var h := Linking(f, c, x, list);
    forall y {:trigger Below(h, Deepened(f, depth, c, x), y)} | y in h
      ensures Below(h, Deepened(f, depth, c, x), y)
    {
      assert Below(f, depth, y);
    }
  }

  /** list with x added at its front or at its back. */
  predicate Extends<T(==)>(longer: seq<T>, list: seq<T>, x: T) {
    longer == [x] + list || longer == list + [x]
  }

  lemma ExtendsMembers<T>(longer: seq<T>, list: seq<T>, x: T)
    requires Extends(longer, list, x) && NoDup(list) && x !in list
    ensures NoDup(longer)
    ensures forall y :: y in longer <==> y == x || y in list
  {
  }

  lemma LinkingIsLinked<R>(f: World<R>, depth: map<R, nat>, c: R, x: R, list: seq<R>)
    requires CanAttach(f, depth, c, x) && Extends(list, f[c].list, x)
    ensures Linked(Linking(f, c, x, list))
  {
    var h := Linking(f, c, x, list);
    assert DownOk(f, c);
    ExtendsMembers(list, f[c].list, x);
    forall y {:trigger UpOk(h, y)} {:trigger DownOk(h, y)} | y in h
      ensures UpOk(h, y) && DownOk(h, y)
    {
      assert UpOk(f, y) && DownOk(f, y);
    }
  }

  lemma ExtendsSum<R>(f: World<R>, longer: seq<R>, list: seq<R>, x: R, g: Node<R> -> int)
    requires Extends(longer, list, x)
    ensures SumSeq(f, longer, g) == SumSeq(f, list, g) + At(f, x, g)
  {
    assert [x][1..] == [];
    SumSeqConcat(f, [x], list, g);
    SumSeqConcat(f, list, [x], g);
  }

  /** addThing / addItemBack on the forest. */
  ghost function Attach<R>(f: World<R>, depth: map<R, nat>, c: R, x: R, list: seq<R>): World<R>
    requires CanAttach(f, depth, c, x)
  {
    LinkingIsAcyclic(f, depth, c, x, list);
    Reweigh(Linking(f, c, x, list), Deepened(f, depth, c, x), c, Weight(f[x]))
  }

  lemma LinkingIsOff<R>(f: World<R>, depth: map<R, nat>, c: R, x: R, list: seq<R>)
    requires CanAttach(f, depth, c, x) && Weighed(f) && Extends(list, f[c].list, x)
    ensures OffBy(Linking(f, c, x, list), c, Weight(f[x]))
  {
    var h := Linking(f, c, x, list);
    forall s: seq<R>
      ensures SumSeq(h, s, WeightMeasure()) == SumSeq(f, s, WeightMeasure())
    {
      SumSeqFrame(f, h, s, WeightMeasure());
    }
    ExtendsSum(f, list, f[c].list, x, WeightMeasure());
    assert WeighedAt(f, c);
    forall y {:trigger WeighedAt(h, y)} | y in h && y != c
      ensures WeighedAt(h, y)
    {
      assert WeighedAt(f, y);
    }
  }

  lemma AttachKeepsForest<R>(f: World<R>, depth: map<R, nat>, c: R, x: R, list: seq<R>)
    requires CanAttach(f, depth, c, x) && WellFormed(f, depth) && Extends(list, f[c].list, x)
    ensures WellFormed(Attach(f, depth, c, x, list), Deepened(f, depth, c, x))
  {
    LinkingIsAcyclic(f, depth, c, x, list);
    LinkingIsLinked(f, depth, c, x, list);
    LinkingIsOff(f, depth, c, x, list);
    SameStacks(f, Linking(f, c, x, list));
    ReweighKeepsForest(Linking(f, c, x, list), Deepened(f, depth, c, x), c, Weight(f[x]));
  }

  /** x is listed by c at position i. */
  ghost predicate ListedAt<R>(f: World<R>, c: R, x: R, i: nat) {
    c in f && x in f && i < |f[c].list| && f[c].list[i] == x && f[x].parent == Some(c)
  }

  ghost function Unlinking<R>(f: World<R>, c: R, x: R, i: nat): World<R>
    requires ListedAt(f, c, x, i)
  {
    f[x := f[x].(parent := None)][c := f[c].(list := Erase(f[c].list, i))]
  }

  lemma EraseMembers<T>(s: seq<T>, i: nat)
    requires i < |s| && NoDup(s)
    ensures NoDup(Erase(s, i))
    ensures forall y :: y in Erase(s, i) <==> y in s && y != s[i]
  {
    forall y | y in s && y != s[i]
      ensures y in Erase(s, i)
    {
      var k :| 0 <= k < |s| && s[k] == y;
      assert Erase(s, i)[if k < i then k else k - 1] == y;
    }
  }

  lemma UnlinkingIsLinked<R>(f: World<R>, depth: map<R, nat>, c: R, x: R, i: nat)
    requires Linked(f) && Acyclic(f, depth) && ListedAt(f, c, x, i)
    ensures Linked(Unlinking(f, c, x, i)) && Acyclic(Unlinking(f, c, x, i), depth)
  {
    var h := Unlinking(f, c, x, i);
    assert c != x by { assert Below(f, depth, x); }
    assert DownOk(f, c);
    SameParents(f, h, depth);
    EraseMembers(f[c].list, i);
    forall y {:trigger UpOk(h, y)} {:trigger DownOk(h, y)} | y in h
      ensures UpOk(h, y) && DownOk(h, y)
    {
      assert UpOk(f, y) && DownOk(f, y);
    }
  }

  /** removeThing of a whole item. */
  ghost function Detach<R>(f: World<R>, depth: map<R, nat>, c: R, x: R, i: nat): World<R>
    requires Linked(f) && Acyclic(f, depth) && ListedAt(f, c, x, i)
  {
    UnlinkingIsLinked(f, depth, c, x, i);
    Reweigh(Unlinking(f, c, x, i), depth, c, -Weight(f[x]))
  }

  lemma DetachKeepsForest<R>(f: World<R>, depth: map<R, nat>, c: R, x: R, i: nat)
    requires WellFormed(f, depth) && ListedAt(f, c, x, i)
    ensures WellFormed(Detach(f, depth, c, x, i), depth)
  {
    UnlinkingIsLinked(f, depth, c, x, i);
    UnlinkingIsOff(f, depth, c, x, i);
    SameStacks(f, Unlinking(f, c, x, i));
    ReweighKeepsForest(Unlinking(f, c, x, i), depth, c, -Weight(f[x]));
  }

  lemma UnlinkingIsOff<R>(f: World<R>, depth: map<R, nat>, c: R, x: R, i: nat)
    requires Linked(f) && Acyclic(f, depth) && Weighed(f) && ListedAt(f, c, x, i)
    ensures OffBy(Unlinking(f, c, x, i), c, -Weight(f[x]))
  {
    var h := Unlinking(f, c, x, i);
    assert c != x by { assert Below(f, depth, x); }
    forall s: seq<R>
      ensures SumSeq(h, s, WeightMeasure()) == SumSeq(f, s, WeightMeasure())
    {
      SumSeqFrame(f, h, s, WeightMeasure());
    }
    SumSeqErase(f, f[c].list, i, WeightMeasure());
    assert WeighedAt(f, c);
    forall y {:trigger WeighedAt(h, y)} | y in h && y != c
      ensures WeighedAt(h, y)
    {
      assert WeighedAt(f, y);
    }
  }

  // ----- changing a stack in place -----

  ghost function Restacked<R>(f: World<R>, x: R, kind: ItemType, count: nat): World<R>
    requires x in f
  {
    f[x := f[x].(kind := kind, count := count)]
  }

  /** updateThing, and removeThing of part of a stack. */
  ghost function Recount<R>(f: World<R>, depth: map<R, nat>, c: R, x: R, kind: ItemType, count: nat): World<R>
    requires Acyclic(f, depth) && c in f && x in f
  {
    SameParents(f, Restacked(f, x, kind, count), depth);
    Reweigh(Restacked(f, x, kind, count), depth, c,
            OwnWeight(f[x].(kind := kind, count := count)) - OwnWeight(f[x]))
  }

  lemma RestackedIsOff<R>(f: World<R>, depth: map<R, nat>, c: R, x: R, kind: ItemType, count: nat)
    requires Linked(f) && Acyclic(f, depth) && Weighed(f) && x in f && f[x].parent == Some(c)
    ensures c in f && OffBy(Restacked(f, x, kind, count), c,
                            OwnWeight(f[x].(kind := kind, count := count)) - OwnWeight(f[x]))
  {
    var n := f[x].(kind := kind, count := count);
    var h := Restacked(f, x, kind, count);
    assert UpOk(f, x);
    assert Below(f, depth, x);
    forall y | y in f
      ensures SumSeq(h, f[y].list, WeightMeasure())
           == SumSeq(f, f[y].list, WeightMeasure()) + if y == c then Weight(n) - Weight(f[x]) else 0
    {
      assert DownOk(f, y);
      SumSeqPut(f, f[y].list, x, n, WeightMeasure());
    }
    forall y {:trigger WeighedAt(h, y)} | y in h && y != c
      ensures WeighedAt(h, y)
    {
      assert WeighedAt(f, y);
    }
    assert WeighedAt(f, c);
  }

  lemma RestackedIsLinked<R>(f: World<R>, depth: map<R, nat>, x: R, kind: ItemType, count: nat)
    requires Linked(f) && Acyclic(f, depth) && x in f
    ensures Linked(Restacked(f, x, kind, count)) && Acyclic(Restacked(f, x, kind, count), depth)
  {
    var h := Restacked(f, x, kind, count);
    SameParents(f, h, depth);
    forall y {:trigger UpOk(h, y)} {:trigger DownOk(h, y)} | y in h
      ensures UpOk(h, y) && DownOk(h, y)
    {
      assert UpOk(f, y) && DownOk(f, y);
    }
  }

  lemma RestackedIsStacked<R>(f: World<R>, x: R, kind: ItemType, count: nat)
    requires Stacked(f) && x in f && 1 <= count <= StackSize(kind) <= 255
    requires f[x].isContainer ==> !kind.stackable
    ensures Stacked(Restacked(f, x, kind, count))
  {
    var h := Restacked(f, x, kind, count);
    forall y {:trigger StackedAt(h, y)} | y in h
      ensures StackedAt(h, y)
    {
      assert StackedAt(f, y);
    }
  }

  lemma RecountKeepsForest<R>(f: World<R>, depth: map<R, nat>, c: R, x: R, kind: ItemType, count: nat)
    requires WellFormed(f, depth) && x in f && f[x].parent == Some(c)
    requires 1 <= count <= StackSize(kind) <= 255 && (f[x].isContainer ==> !kind.stackable)
    ensures c in f && WellFormed(Recount(f, depth, c, x, kind, count), depth)
  {
    RestackedIsOff(f, depth, c, x, kind, count);
    RestackedIsLinked(f, depth, x, kind, count);
    RestackedIsStacked(f, x, kind, count);
    ReweighKeepsForest(Restacked(f, x, kind, count), depth, c,
                       OwnWeight(f[x].(kind := kind, count := count)) - OwnWeight(f[x]));
  }

  // ----- replacing a listed item by another -----

  ghost function Swapping<R>(f: World<R>, c: R, i: nat, x: R): World<R>
    requires c in f && x in f && i < |f[c].list| && f[c].list[i] in f
  {
    f[x := f[x].(parent := Some(c))][f[c].list[i] := f[f[c].list[i]].(parent := None)]
     [c := f[c].(list := f[c].list[i := x])]
  }

  /** replaceThing: x takes the place of the item at i, which becomes a root. */
  ghost predicate CanReplace<R>(f: World<R>, depth: map<R, nat>, c: R, i: nat, x: R) {
    CanAttach(f, depth, c, x) && i < |f[c].list|
  }

  lemma SwappingIsLinked<R>(f: World<R>, depth: map<R, nat>, c: R, i: nat, x: R)
    requires CanReplace(f, depth, c, i, x)
    ensures f[c].list[i] in f && f[c].list[i] != c && f[c].list[i] != x
    ensures Linked(Swapping(f, c, i, x)) && Acyclic(Swapping(f, c, i, x), Deepened(f, depth, c, x))
  {
    assert DownOk(f, c);
    var old_ := f[c].list[i];
    assert Below(f, depth, old_);
    var h := Swapping(f, c, i, x);
    forall y {:trigger Below(h, Deepened(f, depth, c, x), y)} | y in h
      ensures Below(h, Deepened(f, depth, c, x), y)
    {
      assert Below(f, depth, y);
    }
    var list := f[c].list[i := x];
    assert x !in f[c].list;
    forall y
      ensures y in list <==> y == x || (y in f[c].list && y != old_)
    {
      if y in f[c].list && y != old_ {
        var k :| 0 <= k < |f[c].list| && f[c].list[k] == y;
        assert list[k] == y;
      }
      assert list[i] == x;
    }
    forall y {:trigger UpOk(h, y)} {:trigger DownOk(h, y)} | y in h
      ensures UpOk(h, y) && DownOk(h, y)
    {
      assert UpOk(f, y) && DownOk(f, y);
    }
  }

  ghost function Replace<R>(f: World<R>, depth: map<R, nat>, c: R, i: nat, x: R): World<R>
    requires CanReplace(f, depth, c, i, x)
  {
    SwappingIsLinked(f, depth, c, i, x);
    Reweigh(Swapping(f, c, i, x), Deepened(f, depth, c, x), c, Weight(f[x]) - Weight(f[f[c].list[i]]))
  }

  lemma SwappedSum<R>(f: World<R>, s: seq<R>, i: nat, x: R, g: Node<R> -> int)
    requires i < |s|
    ensures SumSeq(f, s[i := x], g) == SumSeq(f, s, g) + At(f, x, g) - At(f, s[i], g)
  {
    SumSeqErase(f, s, i, g);
    SumSeqErase(f, s[i := x], i, g);
    assert Erase(s, i) == Erase(s[i := x], i);
  }

  lemma SwappingIsOff<R>(f: World<R>, depth: map<R, nat>, c: R, i: nat, x: R)
    requires CanReplace(f, depth, c, i, x) && Weighed(f)
    ensures f[c].list[i] in f
    ensures OffBy(Swapping(f, c, i, x), c, Weight(f[x]) - Weight(f[f[c].list[i]]))
  {
    SwappingIsLinked(f, depth, c, i, x);
    var h := Swapping(f, c, i, x);
    forall s: seq<R>
      ensures SumSeq(h, s, WeightMeasure()) == SumSeq(f, s, WeightMeasure())
    {
      SumSeqFrame(f, h, s, WeightMeasure());
    }
    SwappedSum(f, f[c].list, i, x, WeightMeasure());
    assert WeighedAt(f, c);
    forall y {:trigger WeighedAt(h, y)} | y in h && y != c
      ensures WeighedAt(h, y)
    {
      assert WeighedAt(f, y);
    }
  }

  lemma ReplaceKeepsForest<R>(f: World<R>, depth: map<R, nat>, c: R, i: nat, x: R)
    requires CanReplace(f, depth, c, i, x) && WellFormed(f, depth)
    ensures WellFormed(Replace(f, depth, c, i, x), Deepened(f, depth, c, x))
  {
    SwappingIsLinked(f, depth, c, i, x);
    SwappingIsOff(f, depth, c, i, x);
    SameStacks(f, Swapping(f, c, i, x));
    ReweighKeepsForest(Swapping(f, c, i, x), Deepened(f, depth, c, x), c,
                       Weight(f[x]) - Weight(f[f[c].list[i]]));
  }

  // ----- the cache is the recursive sum -----

  /** The weight of x with everything in it, from the items alone. */
  ghost function TrueWeight<R>(f: World<R>, depth: map<R, nat>, bound: nat, x: R): int
    requires Linked(f) && Acyclic(f, depth) && x in f && depth[x] <= bound
    requires forall y | y in f :: depth[y] <= bound
    decreases bound - depth[x], 1, 0
  {
    OwnWeight(f[x]) + (assert DownOk(f, x); TrueWeights(f, depth, bound, x, f[x].list))
  }

  ghost function TrueWeights<R>(f: World<R>, depth: map<R, nat>, bound: nat, x: R, s: seq<R>): int
    requires Linked(f) && Acyclic(f, depth) && x in f && depth[x] <= bound
    requires forall y | y in f :: depth[y] <= bound
    requires forall y | y in s :: y in f && f[y].parent == Some(x)
    decreases bound - depth[x], 0, |s|
  {
    if s == [] then 0 else
      assert s[0] in f && Below(f, depth, s[0]);
      TrueWeight(f, depth, bound, s[0]) + TrueWeights(f, depth, bound, x, s[1..])
  }

  /** In a well-formed forest the cached weight of every item is its true weight. */
  lemma {:induction false} CacheIsTrueWeight<R>(f: World<R>, depth: map<R, nat>, bound: nat, x: R)
    requires WellFormed(f, depth) && x in f && (forall y | y in f :: depth[y] <= bound)
    ensures Weight(f[x]) == TrueWeight(f, depth, bound, x)
    decreases bound - depth[x], 1, 0
  {
    assert WeighedAt(f, x) && DownOk(f, x);
    CacheIsTrueWeights(f, depth, bound, x, f[x].list);
  }

  lemma {:induction false} CacheIsTrueWeights<R>(f: World<R>, depth: map<R, nat>, bound: nat, x: R, s: seq<R>)
    requires WellFormed(f, depth) && x in f && (forall y | y in f :: depth[y] <= bound)
    requires forall y | y in s :: y in f && f[y].parent == Some(x)
    ensures SumSeq(f, s, WeightMeasure()) == TrueWeights(f, depth, bound, x, s)
    decreases bound - depth[x], 0, |s|
  {
    if s != [] {
      assert s[0] in f && Below(f, depth, s[0]);
      CacheIsTrueWeight(f, depth, bound, s[0]);
      CacheIsTrueWeights(f, depth, bound, x, s[1..]);
    }
  }

  // ----- what the operations do to counts and worth -----

  lemma KeptSums<R>(f: World<R>, h: World<R>, q: Quantity)
    requires f.Keys == h.Keys
    requires forall x | x in f :: h[x].kind == f[x].kind && h[x].attrs == f[x].attrs && h[x].count == f[x].count
    ensures SumAll(h, Of(q)) == SumAll(f, Of(q))
    ensures forall s :: SumSeq(h, s, Of(q)) == SumSeq(f, s, Of(q))
  {
    SumAllFrame(f, h, Of(q));
    forall s ensures SumSeq(h, s, Of(q)) == SumSeq(f, s, Of(q)) {
      SumSeqFrame(f, h, s, Of(q));
    }
  }

  /** The quantity g of the direct contents of c. */
  ghost function Direct<R>(f: World<R>, c: R, q: Quantity): int {
    if c in f then SumSeq(f, f[c].list, Of(q)) else 0
  }

  /** From f to r the direct contents of c gain amount, those of every other item nothing. */
  ghost predicate DirectsShift<R>(f: World<R>, r: World<R>, c: R, amount: int, q: Quantity) {
    f.Keys == r.Keys &&
    forall y {:trigger Direct(r, y, q)} | y in f ::
      Direct(r, y, q) == Direct(f, y, q) + if y == c then amount else 0
  }

  ghost predicate DirectsKept<R>(f: World<R>, r: World<R>, q: Quantity) {
    forall y {:trigger Direct(r, y, q)} | y in r :: Direct(r, y, q) == Direct(f, y, q)
  }

  lemma ShiftsAdd<R>(f: World<R>, g: World<R>, h: World<R>, c: R, a: int, b: int, q: Quantity)
    requires DirectsShift(f, g, c, a, q) && DirectsShift(g, h, c, b, q)
    ensures DirectsShift(f, h, c, a + b, q)
  {
    assert forall y | y in f :: Direct(g, y, q) == Direct(f, y, q) + if y == c then a else 0;
  }

  /** A change of totals moves nothing. */
  lemma ReweighMoves<R>(f: World<R>, depth: map<R, nat>, c: R, diff: int, q: Quantity)
    requires Acyclic(f, depth) && c in f
    ensures SumAll(Reweigh(f, depth, c, diff), Of(q)) == SumAll(f, Of(q))
    ensures DirectsShift(f, Reweigh(f, depth, c, diff), c, 0, q)
  {
    ReweighShape(f, depth, c, diff);
    KeptSums(f, Reweigh(f, depth, c, diff), q);
  }

  lemma LinkingMoves<R>(f: World<R>, c: R, x: R, list: seq<R>, q: Quantity)
    requires c in f && x in f && c != x && Extends(list, f[c].list, x)
    ensures SumAll(Linking(f, c, x, list), Of(q)) == SumAll(f, Of(q))
    ensures DirectsShift(f, Linking(f, c, x, list), c, Amount(q, f[x]), q)
  {
    var h, gain := Linking(f, c, x, list), Amount(q, f[x]);
    KeptSums(f, h, q);
    ExtendsSum(f, list, f[c].list, x, Of(q));
    forall y {:trigger Direct(h, y, q)} | y in f
      ensures Direct(h, y, q) == Direct(f, y, q) + if y == c then gain else 0
    {
      assert h[y].list == if y == c then list else f[y].list;
    }
  }

  lemma AttachMoves<R>(f: World<R>, depth: map<R, nat>, c: R, x: R, list: seq<R>, q: Quantity)
    requires CanAttach(f, depth, c, x) && Extends(list, f[c].list, x)
    ensures SumAll(Attach(f, depth, c, x, list), Of(q)) == SumAll(f, Of(q))
    ensures DirectsShift(f, Attach(f, depth, c, x, list), c, Amount(q, f[x]), q)
  {
    LinkingIsAcyclic(f, depth, c, x, list);
    LinkingMoves(f, c, x, list, q);
    ReweighMoves(Linking(f, c, x, list), Deepened(f, depth, c, x), c, Weight(f[x]), q);
    ShiftsAdd(f, Linking(f, c, x, list), Attach(f, depth, c, x, list), c, Amount(q, f[x]), 0, q);
  }

  lemma UnlinkingMoves<R>(f: World<R>, c: R, x: R, i: nat, q: Quantity)
    requires ListedAt(f, c, x, i) && c != x
    ensures SumAll(Unlinking(f, c, x, i), Of(q)) == SumAll(f, Of(q))
    ensures DirectsShift(f, Unlinking(f, c, x, i), c, -Amount(q, f[x]), q)
  {
    KeptSums(f, Unlinking(f, c, x, i), q);
    SumSeqErase(f, f[c].list, i, Of(q));
  }

  lemma DetachMoves<R>(f: World<R>, depth: map<R, nat>, c: R, x: R, i: nat, q: Quantity)
    requires Linked(f) && Acyclic(f, depth) && ListedAt(f, c, x, i)
    ensures SumAll(Detach(f, depth, c, x, i), Of(q)) == SumAll(f, Of(q))
    ensures DirectsShift(f, Detach(f, depth, c, x, i), c, -Amount(q, f[x]), q)
  {
    UnlinkingIsLinked(f, depth, c, x, i);
    var h, r, w := Unlinking(f, c, x, i), Detach(f, depth, c, x, i), -Weight(f[x]);
    assert r == Reweigh(h, depth, c, w);
    assert c != x by { assert Below(f, depth, x); }
    UnlinkingMoves(f, c, x, i, q);
    ReweighMoves(h, depth, c, w, q);
    ShiftsAdd(f, h, r, c, -Amount(q, f[x]), 0, q);
  }

  lemma RestackedMoves<R>(f: World<R>, c: R, x: R, count: nat, q: Quantity)
    requires Linked(f) && x in f && f[x].parent == Some(c)
    ensures var h := Restacked(f, x, f[x].kind, count);
            && SumAll(h, Of(q)) == SumAll(f, Of(q)) + Amount(q, h[x]) - Amount(q, f[x])
            && DirectsShift(f, h, c, Amount(q, h[x]) - Amount(q, f[x]), q)
  {
    var h := Restacked(f, x, f[x].kind, count);
    SumAllPut(f, x, h[x], Of(q));
    assert UpOk(f, x);
    forall y | y in f
      ensures SumSeq(h, f[y].list, Of(q))
           == SumSeq(f, f[y].list, Of(q)) + if y == c then Amount(q, h[x]) - Amount(q, f[x]) else 0
    {
      assert DownOk(f, y);
      SumSeqPut(f, f[y].list, x, h[x], Of(q));
    }
  }

  lemma RecountMoves<R>(f: World<R>, depth: map<R, nat>, c: R, x: R, count: nat, q: Quantity)
    requires Linked(f) && Acyclic(f, depth) && c in f && x in f && f[x].parent == Some(c)
    ensures var r := Recount(f, depth, c, x, f[x].kind, count);
            var gain := Amount(q, f[x].(count := count)) - Amount(q, f[x]);
            && SumAll(r, Of(q)) == SumAll(f, Of(q)) + gain
            && DirectsShift(f, r, c, gain, q)
  {
    var h, r := Restacked(f, x, f[x].kind, count), Recount(f, depth, c, x, f[x].kind, count);
    var w := OwnWeight(f[x].(kind := f[x].kind, count := count)) - OwnWeight(f[x]);
    SameParents(f, h, depth);
    assert r == Reweigh(h, depth, c, w);
    RestackedMoves(f, c, x, count, q);
    ReweighMoves(h, depth, c, w, q);
    ShiftsAdd(f, h, r, c, Amount(q, h[x]) - Amount(q, f[x]), 0, q);
  }

  // ----- items appearing and disappearing -----

  ghost predicate Leaf<R>(n: Node<R>) {
    n.parent.None? && n.list == [] && n.total == 0
  }

  /** A new item that is nowhere and holds nothing. */
  lemma BornKeepsForest<R>(f: World<R>, depth: map<R, nat>, x: R, n: Node<R>)
    requires WellFormed(f, depth) && x !in f && Leaf(n)
    requires 1 <= n.count <= StackSize(n.kind) <= 255 && (n.isContainer ==> !n.kind.stackable)
    ensures WellFormed(f[x := n], depth[x := 0])
  {
    var h, d := f[x := n], depth[x := 0];
    forall y {:trigger UpOk(h, y)} {:trigger DownOk(h, y)} | y in h
      ensures UpOk(h, y) && DownOk(h, y)
    {
      assert y != x ==> UpOk(f, y) && DownOk(f, y);
    }
    forall y {:trigger Below(h, d, y)} | y in h
      ensures Below(h, d, y)
    {
      assert y != x ==> Below(f, depth, y);
    }
    forall y {:trigger StackedAt(h, y)} | y in h
      ensures StackedAt(h, y)
    {
      assert y != x ==> StackedAt(f, y);
    }
    forall y {:trigger WeighedAt(h, y)} | y in h
      ensures WeighedAt(h, y)
    {
      if y != x {
        assert WeighedAt(f, y) && DownOk(f, y);
        SumSeqFrame(f, h, f[y].list, WeightMeasure());
      }
    }
  }

  /** An item that is nowhere and holds nothing can be released. */
  lemma DropKeepsForest<R>(f: World<R>, depth: map<R, nat>, x: R)
    requires WellFormed(f, depth) && x in f && f[x].parent.None? && f[x].list == []
    ensures WellFormed(f - {x}, depth)
  {
    var h := f - {x};
    forall y {:trigger UpOk(h, y)} {:trigger DownOk(h, y)} | y in h
      ensures UpOk(h, y) && DownOk(h, y)
    {
      assert UpOk(f, y) && DownOk(f, y);
    }
    forall y {:trigger Below(h, depth, y)} | y in h
      ensures Below(h, depth, y)
    {
      assert Below(f, depth, y) && UpOk(f, y);
    }
    forall y {:trigger StackedAt(h, y)} | y in h
      ensures StackedAt(h, y)
    {
      assert StackedAt(f, y);
    }
    forall y {:trigger WeighedAt(h, y)} | y in h
      ensures WeighedAt(h, y)
    {
      assert WeighedAt(f, y) && DownOk(f, y);
      SumSeqFrame(f, h, f[y].list, WeightMeasure());
    }
  }

  lemma BornMoves<R>(f: World<R>, x: R, n: Node<R>, q: Quantity)
    requires Linked(f) && x !in f && Leaf(n)
    ensures SumAll(f[x := n], Of(q)) == SumAll(f, Of(q)) + Amount(q, n)
    ensures DirectsKept(f, f[x := n], q)
  {
    SumAllPut(f, x, n, Of(q));
    forall y | y in f
      ensures SumSeq(f[x := n], f[y].list, Of(q)) == SumSeq(f, f[y].list, Of(q))
    {
      assert DownOk(f, y);
      SumSeqFrame(f, f[x := n], f[y].list, Of(q));
    }
  }

  lemma DropMoves<R>(f: World<R>, x: R, q: Quantity)
    requires Linked(f) && x in f && f[x].parent.None? && f[x].list == []
    ensures SumAll(f - {x}, Of(q)) == SumAll(f, Of(q)) - Amount(q, f[x])
    ensures DirectsKept(f, f - {x}, q)
  {
    SumAllTake(f, x, Of(q));
    forall y | y in f && y != x
      ensures SumSeq(f - {x}, f[y].list, Of(q)) == SumSeq(f, f[y].list, Of(q))
    {
      assert DownOk(f, y);
      SumSeqFrame(f, f - {x}, f[y].list, Of(q));
    }
  }

  // ----- flows: what an operation does to every conserved quantity -----

  /** From f to r the contents of c, and the forest as a whole, gain m pieces of key. */
  ghost predicate Flow<R>(f: World<R>, r: World<R>, c: R, key: Key, m: int, q: Quantity) {
    && SumAll(r, Of(q)) == SumAll(f, Of(q)) + Times(q(key), m)
    && forall y {:trigger Direct(r, y, q)} | y in r ::
         Direct(r, y, q) == Direct(f, y, q) + if y == c then Times(q(key), m) else 0
  }

  /** Nothing but the items in changed, and cached weights, differs. */
  ghost predicate OnlyAt<R>(f: World<R>, r: World<R>, changed: set<R>) {
    forall y {:trigger r[y]} | y in r && y !in changed :: y in f && r[y] == f[y].(total := r[y].total)
  }

  /** Nothing lies under an item that holds nothing. */
  lemma {:induction false} UnderLeaf<R>(f: World<R>, depth: map<R, nat>, y: R, x: R)
    requires Linked(f) && Acyclic(f, depth) && y in f && x in f && f[x].list == []
    ensures Under(f, depth, y, x) <==> y == x
    decreases depth[y]
  {
    assert Below(f, depth, y) && UpOk(f, y);
    if y != x && f[y].parent.Some? {
      UnderLeaf(f, depth, f[y].parent.value, x);
    }
  }

  /** Cutting x off does not put anything under it. */
  lemma {:induction false} UnderAfterCut<R>(f: World<R>, h: World<R>, depth: map<R, nat>, y: R, x: R)
    requires Acyclic(f, depth) && Acyclic(h, depth) && f.Keys == h.Keys && y in f && x in f
    requires forall z | z in f && z != x :: h[z].parent == f[z].parent
    ensures Under(h, depth, y, x) <==> Under(f, depth, y, x)
    decreases depth[y]
  {
    assert Below(f, depth, y) && Below(h, depth, y);
    if y != x && f[y].parent.Some? {
      UnderAfterCut(f, h, depth, f[y].parent.value, x);
    }
  }

  /** The same for every conserved quantity. */
  ghost predicate Flows<R>(f: World<R>, r: World<R>, c: R, key: Key, m: int) {
    forall q: Quantity {:trigger Flow(f, r, c, key, m, q)} :: Flow(f, r, c, key, m, q)
  }

  /** Changing the size of a stack. */
  lemma RecountEffect<R>(f: World<R>, depth: map<R, nat>, c: R, x: R, count: nat, r: World<R>)
    requires WellFormed(f, depth) && x in f && f[x].parent == Some(c) && c in f
    requires 1 <= count <= StackSize(f[x].kind) && r == Recount(f, depth, c, x, f[x].kind, count)
    ensures WellFormed(r, depth) && r.Keys == f.Keys && OnlyAt(f, r, {x})
    ensures r[x] == f[x].(count := count, total := r[x].total)
    ensures Flows(f, r, c, KeyOf(f[x]), count - f[x].count)
  {
    var h := Restacked(f, x, f[x].kind, count);
    SameParents(f, h, depth);
    var w := OwnWeight(f[x].(kind := f[x].kind, count := count)) - OwnWeight(f[x]);
    assert r == Reweigh(h, depth, c, w);
    ReweighShape(h, depth, c, w);
    RecountShape(f, h, x, count, r);
    assert StackedAt(f, x);
    RecountKeepsForest(f, depth, c, x, f[x].kind, count);
    RecountFlows(f, depth, c, x, count, KeyOf(f[x]), count - f[x].count, r);
  }

  lemma RecountShape<R>(f: World<R>, h: World<R>, x: R, count: nat, r: World<R>)
    requires x in f && h == Restacked(f, x, f[x].kind, count) && SameButTotals(h, r)
    ensures r.Keys == f.Keys && OnlyAt(f, r, {x}) && r[x] == f[x].(count := count, total := r[x].total)
  {
    assert h[x] == f[x].(count := count);
  }

  lemma RecountFlows<R>(
      f: World<R>, depth: map<R, nat>, c: R, x: R, count: nat, key: Key, m: int, r: World<R>)
    requires Linked(f) && Acyclic(f, depth) && c in f && x in f && f[x].parent == Some(c)
    requires r == Recount(f, depth, c, x, f[x].kind, count)
    requires key == KeyOf(f[x]) && m == count - f[x].count
    ensures Flows(f, r, c, key, m)
  {
    forall q: Quantity {:trigger Flow(f, r, c, key, m, q)}
      ensures Flow(f, r, c, key, m, q)
    {
      RecountFlow(f, depth, c, x, count, key, m, r, q);
    }
  }

  lemma RecountFlow<R>(
      f: World<R>, depth: map<R, nat>, c: R, x: R, count: nat, key: Key, m: int, r: World<R>, q: Quantity)
    requires Linked(f) && Acyclic(f, depth) && c in f && x in f && f[x].parent == Some(c)
    requires r == Recount(f, depth, c, x, f[x].kind, count)
    requires key == KeyOf(f[x]) && m == count - f[x].count
    ensures Flow(f, r, c, key, m, q)
  {
    RecountMoves(f, depth, c, x, count, q);
    var gain := Amount(q, f[x].(count := count)) - Amount(q, f[x]);
    assert DirectsShift(f, r, c, gain, q);
    RecountGain(f[x], count, key, m, q);
    ShiftIsFlow(f, r, c, key, m, gain, q);
  }

  lemma RecountGain<R>(n: Node<R>, count: nat, key: Key, m: int, q: Quantity)
    requires key == KeyOf(n) && m == count - n.count
    ensures Amount(q, n.(count := count)) - Amount(q, n) == Times(q(key), m)
  {
    TimesAdd(q(key), n.count, m);
    assert n.count + m == count;
  }

  lemma ShiftIsFlow<R>(f: World<R>, r: World<R>, c: R, key: Key, m: int, gain: int, q: Quantity)
    requires DirectsShift(f, r, c, gain, q) && gain == Times(q(key), m)
    requires SumAll(r, Of(q)) == SumAll(f, Of(q)) + gain
    ensures Flow(f, r, c, key, m, q)
  {
  }

  /** Taking a whole stack out of c and releasing it. */
  lemma ReleaseEffect<R>(f: World<R>, depth: map<R, nat>, c: R, x: R, i: nat, g: World<R>, r: World<R>)
    requires WellFormed(f, depth) && ListedAt(f, c, x, i) && f[x].list == []
    requires g == Detach(f, depth, c, x, i) && r == g - {x}
    ensures WellFormed(r, depth) && r.Keys == f.Keys - {x} && OnlyAt(f, r, {c})
    ensures c in r && r[c] == f[c].(list := Erase(f[c].list, i), total := r[c].total)
    ensures Flows(f, r, c, KeyOf(f[x]), 0 - f[x].count)
  {
    DetachEffect(f, depth, c, x, i, g);
    DropKeepsForest(g, depth, x);
    var key, m := KeyOf(f[x]), 0 - f[x].count;
    forall q: Quantity {:trigger Flow(f, r, c, key, m, q)}
      ensures Flow(f, r, c, key, m, q)
    {
      ReleaseFlow(f, depth, c, x, i, g, r, key, m, q);
    }
  }

  lemma ReleaseFlow<R>(
      f: World<R>, depth: map<R, nat>, c: R, x: R, i: nat, g: World<R>, r: World<R>, key: Key, m: int, q: Quantity)
    requires Linked(f) && Acyclic(f, depth) && ListedAt(f, c, x, i) && g == Detach(f, depth, c, x, i)
    requires Linked(g) && x in g && g[x].parent.None? && g[x].list == [] && r == g - {x}
    requires KeyOf(g[x]) == KeyOf(f[x]) == key && g[x].count == f[x].count && m == 0 - f[x].count
    ensures Flow(f, r, c, key, m, q)
  {
    var loss := Amount(q, f[x]);
    DetachMoves(f, depth, c, x, i, q);
    DropMoves(g, x, q);
    TimesSplit(q(key), f[x].count, f[x].count, 0);
    assert DirectsShift(f, g, c, -loss, q);
    forall y {:trigger Direct(r, y, q)} | y in r
      ensures Direct(r, y, q) == Direct(f, y, q) + if y == c then -loss else 0
    {
      assert Direct(r, y, q) == Direct(g, y, q);
    }
  }

  /** Taking a whole item out of c. */
  lemma DetachEffect<R>(f: World<R>, depth: map<R, nat>, c: R, x: R, i: nat, g: World<R>)
    requires WellFormed(f, depth) && ListedAt(f, c, x, i) && g == Detach(f, depth, c, x, i)
    ensures WellFormed(g, depth) && g.Keys == f.Keys && OnlyAt(f, g, {c, x}) && c != x
    ensures g[c] == f[c].(list := Erase(f[c].list, i), total := g[c].total)
    ensures g[x] == f[x].(parent := None, total := g[x].total)
  {
    DetachKeepsForest(f, depth, c, x, i);
    assert c != x by { assert Below(f, depth, x); }
    UnlinkingIsLinked(f, depth, c, x, i);
    ReweighShape(Unlinking(f, c, x, i), depth, c, -Weight(f[x]));
  }

  /** Putting a root into c. */
  lemma AttachEffect<R>(f: World<R>, depth: map<R, nat>, c: R, x: R, list: seq<R>, r: World<R>)
    requires CanAttach(f, depth, c, x) && WellFormed(f, depth) && Extends(list, f[c].list, x)
    requires r == Attach(f, depth, c, x, list)
    ensures WellFormed(r, Deepened(f, depth, c, x)) && r.Keys == f.Keys && OnlyAt(f, r, {c, x}) && c != x
    ensures r[c] == f[c].(list := list, total := r[c].total)
    ensures r[x] == f[x].(parent := Some(c), total := r[x].total)
  {
    AttachKeepsForest(f, depth, c, x, list);
    LinkingIsAcyclic(f, depth, c, x, list);
    ReweighShape(Linking(f, c, x, list), Deepened(f, depth, c, x), c, Weight(f[x]));
  }

  /** Creating an item and putting it into c. */
  lemma BirthEffect<R>(
      f: World<R>, depth: map<R, nat>, c: R, x: R, n: Node<R>, list: seq<R>, g: World<R>, r: World<R>)
    requires WellFormed(f, depth) && x !in f && Leaf(n) && c in f && f[c].isContainer
    requires 1 <= n.count <= StackSize(n.kind) <= 255 && (n.isContainer ==> !n.kind.stackable)
    requires g == f[x := n] && Extends(list, f[c].list, x)
    ensures CanAttach(g, depth[x := 0], c, x)
    ensures r == Attach(g, depth[x := 0], c, x, list) ==>
              && WellFormed(r, Deepened(g, depth[x := 0], c, x)) && r.Keys == f.Keys + {x}
              && OnlyAt(f, r, {c, x})
              && r[c] == f[c].(list := list, total := r[c].total)
              && r[x] == n.(parent := Some(c), total := r[x].total)
              && Flows(f, r, c, KeyOf(n), n.count)
  {
    var d := depth[x := 0];
    BornKeepsForest(f, depth, x, n);
    UnderLeaf(g, d, c, x);
    if r == Attach(g, d, c, x, list) {
      AttachEffect(g, d, c, x, list, r);
      var key, m := KeyOf(n), n.count;
      forall q: Quantity {:trigger Flow(f, r, c, key, m, q)}
        ensures Flow(f, r, c, key, m, q)
      {
        BornMoves(f, x, n, q);
        AttachMoves(g, d, c, x, list, q);
      }
    }
  }
}
