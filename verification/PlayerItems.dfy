/** How src/iologindata.cpp flattens the items of a player into rows and builds them up again. */
module PlayerItems {
  import opened ItemTypes
  import opened Forest
  import opened Containers
  import opened BreadthFirst
  import opened ContainerIteration

  const CONST_SLOT_FIRST: int := 1
  const CONST_SLOT_LAST: int := 10
  const FIRST_ID: int := 101

  /**
   What the columns itemtype, count and attributes of a row hold, and what CreateItem and unserializeAttr make
   of them.
   */
  datatype ItemData = ItemData(kind: ItemType, attrs: AttrMap, count: nat, isContainer: bool, maxSize: nat)

  datatype Row = Row(pid: int, sid: int, data: ItemData)

  function DataOf<R>(n: Node<R>): ItemData {
    ItemData(n.kind, n.attrs, n.count, n.isContainer, n.maxSize)
  }

  function NodeOf<R>(d: ItemData): Node<R> {
    Node(d.kind, d.attrs, d.count, None, d.isContainer, d.maxSize, [], 0)
  }

  /** The positions, from k on, of the rows whose parent is row j. */
  ghost function Kin(rows: seq<Row>, j: nat, k: nat): seq<nat>
    decreases |rows| - k
  {
    if k >= |rows| then []
    else (if rows[k].pid == FIRST_ID + j then [k] else []) + Kin(rows, j, k + 1)
  }

  lemma {:induction false} KinBounds(rows: seq<Row>, j: nat, k: nat)
    ensures forall i | i in Kin(rows, j, k) :: k <= i < |rows| && rows[i].pid == FIRST_ID + j
    decreases |rows| - k
  {
    if k < |rows| {
      KinBounds(rows, j, k + 1);
    }
  }

  lemma {:induction false} KinOfOneMore(rows: seq<Row>, row: Row, j: nat, k: nat)
    requires k <= |rows|
    ensures Kin(rows + [row], j, k) == Kin(rows, j, k) + if row.pid == FIRST_ID + j then [|rows|] else []
    decreases |rows| - k
  {
    if k < |rows| {
      KinOfOneMore(rows, row, j, k + 1);
    } else {
      assert Kin(rows + [row], j, k + 1) == [];
    }
  }

  ghost predicate Within(idx: seq<nat>, n: nat) {
    forall i | 0 <= i < |idx| :: idx[i] < n
  }

  /** The items at the given positions of s. */
  ghost function Named<R>(s: seq<R>, idx: seq<nat>): (r: seq<R>)
    requires Within(idx, |s|)
    ensures |r| == |idx| && forall i | 0 <= i < |idx| :: r[i] == s[idx[i]]
  {
    seq(|idx|, i requires 0 <= i < |idx| => s[idx[i]])
  }

  // ----- what a list of rows says -----

  ghost predicate RowOk(rows: seq<Row>, roots: nat, k: nat)
    requires roots <= |rows| && k < |rows|
  {
    var d := rows[k].data;
    && rows[k].sid == FIRST_ID + k
    && 1 <= d.count <= StackSize(d.kind) <= 255 && (d.isContainer ==> !d.kind.stackable)
    && (if k < roots then CONST_SLOT_FIRST <= rows[k].pid <= CONST_SLOT_LAST
        else FIRST_ID <= rows[k].pid < FIRST_ID + k && rows[rows[k].pid - FIRST_ID].data.isContainer)
  }

  /** Rows as saveItems writes them: running ids, first the slots, then items whose parent is an earlier row. */
  ghost predicate RowsOk(rows: seq<Row>, roots: nat) {
    && roots <= |rows|
    && (forall k {:trigger RowOk(rows, roots, k)} | 0 <= k < |rows| :: RowOk(rows, roots, k))
    && (forall i, j | 0 <= i < j < roots :: rows[i].pid != rows[j].pid)
  }

  /** The items s of the forest f are what the rows say, item k for row k. */
  ghost predicate Says<R>(rows: seq<Row>, roots: nat, f: World<R>, s: seq<R>) {
    && roots <= |rows| == |s| && NoDup(s)
    && forall k {:trigger SaysAt(rows, roots, f, s, k)} | 0 <= k < |s| :: SaysAt(rows, roots, f, s, k)
  }

  ghost predicate SaysAt<R>(rows: seq<Row>, roots: nat, f: World<R>, s: seq<R>, k: nat)
    requires roots <= |rows| == |s| && k < |s|
  {
    && s[k] in f && DataOf(f[s[k]]) == rows[k].data
    && (if k < roots then f[s[k]].parent.None?
        else 0 <= rows[k].pid - FIRST_ID < |s| && f[s[k]].parent == Some(s[rows[k].pid - FIRST_ID]))
    && Within(Kin(rows, k, 0), |s|) && f[s[k]].list == Named(s, Kin(rows, k, 0))
  }

  // ----- two forests that say the same are equal up to the identity of their items -----

  /** Item by item: the same data, slot, parent, child order and cached weight. */
  ghost predicate SameItems<R>(f: World<R>, s: seq<R>, g: World<R>, t: seq<R>) {
    && |s| == |t|
    && forall k {:trigger SameItem(f, s, g, t, k)} | 0 <= k < |s| :: SameItem(f, s, g, t, k)
  }

  ghost predicate SameFields<R>(m: Node<R>, n: Node<R>) {
    && m.kind == n.kind && m.attrs == n.attrs && m.count == n.count && m.total == n.total
    && m.isContainer == n.isContainer && m.maxSize == n.maxSize
  }

  ghost predicate SameItem<R>(f: World<R>, s: seq<R>, g: World<R>, t: seq<R>, k: nat)
    requires |s| == |t| && k < |s|
  {
    && s[k] in f && t[k] in g
    && SameFields(f[s[k]], g[t[k]])
    && (f[s[k]].parent.None? <==> g[t[k]].parent.None?)
    && (f[s[k]].parent.Some? ==>
       exists p :: 0 <= p < |s| && f[s[k]].parent == Some(s[p]) && g[t[k]].parent == Some(t[p]))
    && |f[s[k]].list| == |g[t[k]].list|
    && forall i | 0 <= i < |f[s[k]].list| ::
         exists c :: 0 <= c < |s| && f[s[k]].list[i] == s[c] && g[t[k]].list[i] == t[c]
  }

  /** Equal weights of the items at idx add up equally. */
  lemma {:induction false} SumOfNamed<R>(f: World<R>, s: seq<R>, g: World<R>, t: seq<R>, idx: seq<nat>)
    requires |s| == |t| && Within(idx, |s|)
    requires forall i | i in idx :: s[i] in f && t[i] in g && Weight(f[s[i]]) == Weight(g[t[i]])
    ensures SumSeq(f, Named(s, idx), WeightMeasure()) == SumSeq(g, Named(t, idx), WeightMeasure())
  {
    if idx != [] {
      var rest := idx[1..];
      assert Named(s, idx)[1..] == Named(s, rest) && Named(t, idx)[1..] == Named(t, rest);
      assert idx[0] in idx;
      SumOfNamed(f, s, g, t, rest);
    }
  }

  lemma {:induction false} SameTotalsFrom<R>(
      rows: seq<Row>, roots: nat, f: World<R>, s: seq<R>, g: World<R>, t: seq<R>, k: nat)
    requires RowsOk(rows, roots) && Says(rows, roots, f, s) && Says(rows, roots, g, t) && Weighed(f) && Weighed(g)
    requires k <= |s| == |t|
    ensures TotalsAgree(f, s, g, t, k)
    decreases |s| - k
  {
    if k < |s| {
      SameTotalsFrom(rows, roots, f, s, g, t, k + 1);
      SameTotalAt(rows, roots, f, s, g, t, k);
      OneMoreAgrees(f, s, g, t, k);
    }
  }

  ghost predicate TotalAgrees<R>(f: World<R>, x: R, g: World<R>, y: R) {
    x in f && y in g && f[x].total == g[y].total
  }

  /** From item k on the cached weights are the same. */
  ghost predicate TotalsAgree<R>(f: World<R>, s: seq<R>, g: World<R>, t: seq<R>, k: nat)
    requires |s| == |t|
  {
    forall j {:trigger TotalAgrees(f, s[j], g, t[j])} | k <= j < |s| :: TotalAgrees(f, s[j], g, t[j])
  }

  lemma OneMoreAgrees<R>(f: World<R>, s: seq<R>, g: World<R>, t: seq<R>, k: nat)
    requires k < |s| == |t| && TotalAgrees(f, s[k], g, t[k]) && TotalsAgree(f, s, g, t, k + 1)
    ensures TotalsAgree(f, s, g, t, k)
  {
    forall j {:trigger TotalAgrees(f, s[j], g, t[j])} | k <= j < |s|
      ensures TotalAgrees(f, s[j], g, t[j])
    {
      assert j == k || k + 1 <= j;
    }
  }

  /** When all later items have the same cached weights, so has item k: its contents have later rows. */
  lemma SameTotalAt<R>(rows: seq<Row>, roots: nat, f: World<R>, s: seq<R>, g: World<R>, t: seq<R>, k: nat)
    requires RowsOk(rows, roots) && Says(rows, roots, f, s) && Says(rows, roots, g, t) && Weighed(f) && Weighed(g)
    requires k < |s| == |t| && TotalsAgree(f, s, g, t, k + 1)
    ensures TotalAgrees(f, s[k], g, t[k])
  {
    assert SaysAt(rows, roots, f, s, k) && SaysAt(rows, roots, g, t, k);
    var idx := Kin(rows, k, 0);
    KinBounds(rows, k, 0);
    forall i | i in idx
      ensures s[i] in f && t[i] in g && Weight(f[s[i]]) == Weight(g[t[i]])
    {
      assert RowOk(rows, roots, i);
      assert i > k && TotalAgrees(f, s[i], g, t[i]);
      SameOwnWeight(rows, roots, f, s, g, t, i);
    }
    SumOfNamed(f, s, g, t, idx);
    assert WeighedAt(f, s[k]) && WeighedAt(g, t[k]);
  }

  lemma SameOwnWeight<R>(rows: seq<Row>, roots: nat, f: World<R>, s: seq<R>, g: World<R>, t: seq<R>, i: nat)
    requires Says(rows, roots, f, s) && Says(rows, roots, g, t) && i < |s|
    ensures s[i] in f && t[i] in g && OwnWeight(f[s[i]]) == OwnWeight(g[t[i]])
  {
    assert SaysAt(rows, roots, f, s, i) && SaysAt(rows, roots, g, t, i);
  }

  /** Rows determine a weighed forest up to the identity of its items. */
  lemma RowsDetermineItems<R>(rows: seq<Row>, roots: nat, f: World<R>, s: seq<R>, g: World<R>, t: seq<R>)
    requires RowsOk(rows, roots) && Says(rows, roots, f, s) && Says(rows, roots, g, t) && Weighed(f) && Weighed(g)
    ensures SameItems(f, s, g, t)
  {
    SameTotalsFrom(rows, roots, f, s, g, t, 0);
    forall k {:trigger SameItem(f, s, g, t, k)} | 0 <= k < |s|
      ensures SameItem(f, s, g, t, k)
    {
      assert SaysAt(rows, roots, f, s, k) && SaysAt(rows, roots, g, t, k) && TotalAgrees(f, s[k], g, t[k]);
      var idx := Kin(rows, k, 0);
      if k >= roots {
        var p := rows[k].pid - FIRST_ID;
        assert f[s[k]].parent == Some(s[p]) && g[t[k]].parent == Some(t[p]);
      }
      forall i | 0 <= i < |idx|
        ensures exists c :: 0 <= c < |s| && f[s[k]].list[i] == s[c] && g[t[k]].list[i] == t[c]
      {
        var c := idx[i];
        assert f[s[k]].list[i] == s[c] && g[t[k]].list[i] == t[c];
      }
    }
  }

  // ----- saveItems -----

  /** Rows written so far, for the items s; prog[j] tells how many items of the list of s[j] have their rows. */
  ghost predicate Saving<R>(f: World<R>, rows: seq<Row>, s: seq<R>, roots: nat, prog: seq<nat>) {
    && roots <= |rows| == |s| == |prog| && NoDup(s)
    && (forall k {:trigger SavedAt(f, rows, s, roots, k)} | 0 <= k < |s| :: SavedAt(f, rows, s, roots, k))
    && (forall k {:trigger KinSaved(f, rows, s, prog, k)} | 0 <= k < |s| :: KinSaved(f, rows, s, prog, k))
    && (forall i, j | 0 <= i < j < roots :: rows[i].pid != rows[j].pid)
  }

  ghost predicate SavedAt<R>(f: World<R>, rows: seq<Row>, s: seq<R>, roots: nat, k: nat)
    requires roots <= |rows| == |s| && k < |s|
  {
    && s[k] in f && rows[k].sid == FIRST_ID + k && rows[k].data == DataOf(f[s[k]])
    && (if k < roots then f[s[k]].parent.None? && CONST_SLOT_FIRST <= rows[k].pid <= CONST_SLOT_LAST
        else 0 <= rows[k].pid - FIRST_ID < k && f[s[k]].parent == Some(s[rows[k].pid - FIRST_ID]))
  }

  ghost predicate KinSaved<R>(f: World<R>, rows: seq<Row>, s: seq<R>, prog: seq<nat>, k: nat)
    requires |rows| == |s| == |prog| && k < |s|
  {
    && s[k] in f && Within(Kin(rows, k, 0), |s|) && prog[k] <= |f[s[k]].list|
    && Named(s, Kin(rows, k, 0)) == f[s[k]].list[..prog[k]]
  }

  lemma NamedOfMore<R>(s: seq<R>, x: R, idx: seq<nat>)
    requires Within(idx, |s|)
    ensures Within(idx, |s + [x]|) && Named(s + [x], idx) == Named(s, idx)
    ensures Within(idx + [|s|], |s + [x]|) && Named(s + [x], idx + [|s|]) == Named(s, idx) + [x]
  {
  }

  lemma {:induction false} KinComplete(rows: seq<Row>, j: nat, k: nat, i: nat)
    requires k <= i < |rows| && rows[i].pid == FIRST_ID + j
    ensures i in Kin(rows, j, k)
    decreases |rows| - k
  {
    if k < i {
      KinComplete(rows, j, k + 1, i);
    }
  }

  /** The rows written so far keep what they say when another row is written. */
  lemma KinAfterRow<R>(f: World<R>, rows: seq<Row>, s: seq<R>, roots: nat, prog: seq<nat>, row: Row, x: R, k: nat)
    requires Saving(f, rows, s, roots, prog) && k < |s|
    ensures SavedAt(f, rows, s, roots, k) && KinSaved(f, rows, s, prog, k)
    ensures Kin(rows + [row], k, 0) == Kin(rows, k, 0) + if row.pid == FIRST_ID + k then [|s|] else []
    ensures Within(Kin(rows + [row], k, 0), |s + [x]|)
    ensures Named(s + [x], Kin(rows + [row], k, 0)) == f[s[k]].list[..prog[k]] + if row.pid == FIRST_ID + k then [x]
            else []
  {
    assert SavedAt(f, rows, s, roots, k) && KinSaved(f, rows, s, prog, k);
    KinOfOneMore(rows, row, k, 0);
    NamedOfMore(s, x, Kin(rows, k, 0));
  }

  /** A row that has just been written has no kin yet. */
  lemma NoKinYet<R>(f: World<R>, rows: seq<Row>, s: seq<R>, roots: nat, row: Row)
    requires roots <= |rows| == |s| && row.pid < FIRST_ID + |rows|
    requires forall k {:trigger SavedAt(f, rows, s, roots, k)} | 0 <= k < |s| :: SavedAt(f, rows, s, roots, k)
    ensures Kin(rows + [row], |rows|, 0) == []
  {
    forall i | 0 <= i < |rows + [row]|
      ensures (rows + [row])[i].pid != FIRST_ID + |rows|
    {
      if i < |rows| {
        assert SavedAt(f, rows, s, roots, i);
      }
    }
    NoKin(rows + [row], |rows|, 0);
  }

  lemma {:induction false} NoKin(rows: seq<Row>, j: nat, k: nat)
    requires forall i | 0 <= i < |rows| :: rows[i].pid != FIRST_ID + j
    ensures Kin(rows, j, k) == []
    decreases |rows| - k
  {
    if k < |rows| {
      NoKin(rows, j, k + 1);
    }
  }

  lemma SaveRoot<R>(f: World<R>, rows: seq<Row>, s: seq<R>, prog: seq<nat>, pid: int, x: R, row: Row)
    requires Saving(f, rows, s, |s|, prog) && x in f && x !in s && f[x].parent.None?
    requires CONST_SLOT_FIRST <= pid <= CONST_SLOT_LAST && forall i | 0 <= i < |rows| :: rows[i].pid != pid
    requires row == Row(pid, FIRST_ID + |s|, DataOf(f[x]))
    ensures Saving(f, rows + [row], s + [x], |s| + 1, prog + [0])
  {
    var rows', s', prog' := rows + [row], s + [x], prog + [0];
    NoKinYet(f, rows, s, |s|, row);
    forall k {:trigger SavedAt(f, rows', s', |s'|, k)} {:trigger KinSaved(f, rows', s', prog', k)} | 0 <= k < |s'|
      ensures SavedAt(f, rows', s', |s'|, k) && KinSaved(f, rows', s', prog', k)
    {
      if k < |s| {
        KinAfterRow(f, rows, s, |s|, prog, row, x, k);
      }
    }
  }

  lemma NewKin<R>(f: World<R>, rows: seq<Row>, s: seq<R>, roots: nat, prog: seq<nat>, j: nat, m: nat)
    requires Linked(f) && Saving(f, rows, s, roots, prog) && j < |s| && m < |s|
    requires s[j] in f && prog[j] < |f[s[j]].list|
    ensures s[m] != f[s[j]].list[prog[j]]
  {
    var list := f[s[j]].list;
    var x := list[prog[j]];
    assert SavedAt(f, rows, s, roots, m) && KinSaved(f, rows, s, prog, j);
    assert DownOk(f, s[j]) && x in list;
    if m >= roots && rows[m].pid == FIRST_ID + j {
      KinComplete(rows, j, 0, m);
      var kin := Kin(rows, j, 0);
      var i :| 0 <= i < |kin| && kin[i] == m;
      assert Named(s, kin)[i] == s[m] && list[..prog[j]][i] == list[i];
    }
  }

  lemma SaveChild<R>(f: World<R>, rows: seq<Row>, s: seq<R>, roots: nat, prog: seq<nat>, j: nat, x: R, row: Row)
    requires Linked(f) && Saving(f, rows, s, roots, prog) && j < |s|
    requires s[j] in f && prog[j] < |f[s[j]].list| && x == f[s[j]].list[prog[j]] && x in f
    requires row == Row(FIRST_ID + j, FIRST_ID + |s|, DataOf(f[x]))
    ensures Saving(f, rows + [row], s + [x], roots, prog[j := prog[j] + 1] + [0])
  {
    var rows', s', prog' := rows + [row], s + [x], prog[j := prog[j] + 1] + [0];
    forall m | 0 <= m < |s|
      ensures s[m] != x
    {
      NewKin(f, rows, s, roots, prog, j, m);
    }
    NoKinYet(f, rows, s, roots, row);
    assert DownOk(f, s[j]) && x in f[s[j]].list;
    forall k {:trigger SavedAt(f, rows', s', roots, k)} {:trigger KinSaved(f, rows', s', prog', k)} | 0 <= k < |s'|
      ensures SavedAt(f, rows', s', roots, k) && KinSaved(f, rows', s', prog', k)
    {
      if k < |s| {
        SaveChildKeeps(f, rows, s, roots, prog, j, x, row, prog', k);
      }
    }
  }

  lemma SaveChildKeeps<R>(
      f: World<R>, rows: seq<Row>, s: seq<R>, roots: nat, prog: seq<nat>, j: nat, x: R, row: Row, prog': seq<nat>,
      k: nat)
    requires Saving(f, rows, s, roots, prog) && j < |s| && k < |s| && row.pid == FIRST_ID + j
    requires s[j] in f && prog[j] < |f[s[j]].list| && x == f[s[j]].list[prog[j]]
    requires prog' == prog[j := prog[j] + 1] + [0]
    ensures SavedAt(f, rows + [row], s + [x], roots, k) && KinSaved(f, rows + [row], s + [x], prog', k)
  {
    KinAfterRow(f, rows, s, roots, prog, row, x, k);
    assert k == j ==> f[s[k]].list[..prog[k]] + [x] == f[s[k]].list[..prog'[k]];
  }

  /** The whole list of s[k] has been written. */
  ghost predicate Full<R>(f: World<R>, s: seq<R>, prog: seq<nat>, k: nat)
    requires |prog| == |s| && k < |s|
  {
    s[k] in f && prog[k] == |f[s[k]].list|
  }

  /** When every list has been written, the rows say what the forest is. */
  lemma SavedSays<R>(f: World<R>, depth: map<R, nat>, rows: seq<Row>, s: seq<R>, roots: nat, prog: seq<nat>)
    requires WellFormed(f, depth) && Saving(f, rows, s, roots, prog)
    requires forall k {:trigger Full(f, s, prog, k)} | 0 <= k < |s| :: Full(f, s, prog, k)
    ensures RowsOk(rows, roots) && Says(rows, roots, f, s)
  {
    forall k {:trigger SaysAt(rows, roots, f, s, k)} {:trigger RowOk(rows, roots, k)} | 0 <= k < |s|
      ensures SaysAt(rows, roots, f, s, k) && RowOk(rows, roots, k)
    {
      assert SavedAt(f, rows, s, roots, k) && KinSaved(f, rows, s, prog, k) && StackedAt(f, s[k]);
      assert Full(f, s, prog, k) && f[s[k]].list[..prog[k]] == f[s[k]].list;
      if k >= roots {
        var p := rows[k].pid - FIRST_ID;
        assert SavedAt(f, rows, s, roots, p) && UpOk(f, s[k]) && DownOk(f, s[p]);
      }
    }
  }

  /** The containers among the first items that were saved, with their ids: the worklist of saveItems. */
  ghost function Worklist(f: World<Item>, s: seq<Item>): seq<(Item, int)> {
    if s == [] then []
    else
      var x := s[|s| - 1];
      Worklist(f, s[..|s| - 1]) + if x in f && f[x].isContainer then [(x, FIRST_ID + |s| - 1)] else []
  }

  lemma WorklistOfOneMore(f: World<Item>, s: seq<Item>, x: Item)
    requires x in f
    ensures Worklist(f, s + [x]) == Worklist(f, s) + if f[x].isContainer then [(x, FIRST_ID + |s|)] else []
  {
    var s' := s + [x];
    assert s'[..|s'| - 1] == s && s'[|s'| - 1] == x;
  }

  /** The worklist names containers only, in the order of their ids. */
  lemma {:induction false} WorklistIs(f: World<Item>, s: seq<Item>, c: nat)
    requires c < |Worklist(f, s)|
    ensures var (x, id) := Worklist(f, s)[c];
            0 <= id - FIRST_ID < |s| && s[id - FIRST_ID] == x && x in f && f[x].isContainer
    ensures forall d | 0 <= d < c :: Worklist(f, s)[d].1 < Worklist(f, s)[c].1
  {
    var before := s[..|s| - 1];
    var w := Worklist(f, before);
    if c < |w| {
      WorklistIs(f, before, c);
      assert forall d | 0 <= d <= c :: Worklist(f, s)[d] == w[d];
    } else {
      forall d | 0 <= d < c
        ensures Worklist(f, s)[d].1 < Worklist(f, s)[c].1
      {
        WorklistIs(f, before, d);
        assert Worklist(f, s)[d] == w[d];
      }
    }
  }

  /** Every container that was saved is in the worklist. */
  lemma {:induction false} WorklistHasAll(f: World<Item>, s: seq<Item>, k: nat) returns (c: nat)
    requires k < |s| && s[k] in f && f[s[k]].isContainer
    ensures c < |Worklist(f, s)| && Worklist(f, s)[c] == (s[k], FIRST_ID + k)
  {
    var w := Worklist(f, s[..|s| - 1]);
    if k == |s| - 1 {
      c := |w|;
    } else {
      c := WorklistHasAll(f, s[..|s| - 1], k);
      assert Worklist(f, s)[c] == w[c];
    }
  }

  /**
   Containers before position i of the worklist have been gone through, and the one at i has come to item t of
   its list.
   */
  ghost predicate Through(f: World<Item>, s: seq<Item>, prog: seq<nat>, i: nat, t: nat) {
    && |prog| == |s|
    && forall c {:trigger ThroughAt(f, s, prog, i, t, c)} | 0 <= c < |Worklist(f, s)| :: ThroughAt(f, s, prog, i, t, c)
  }

  ghost predicate ThroughAt(f: World<Item>, s: seq<Item>, prog: seq<nat>, i: nat, t: nat, c: nat)
    requires |prog| == |s| && c < |Worklist(f, s)|
  {
    var (x, id) := Worklist(f, s)[c];
    && x in f && 0 <= id - FIRST_ID < |s|
    && prog[id - FIRST_ID] == if c < i then |f[x].list| else if c == i then t else 0
  }

  lemma ThroughRoot(f: World<Item>, s: seq<Item>, prog: seq<nat>, x: Item)
    requires Through(f, s, prog, 0, 0) && x in f
    ensures Through(f, s + [x], prog + [0], 0, 0)
  {
    WorklistOfOneMore(f, s, x);
    forall c {:trigger ThroughAt(f, s + [x], prog + [0], 0, 0, c)} | 0 <= c < |Worklist(f, s + [x])|
      ensures ThroughAt(f, s + [x], prog + [0], 0, 0, c)
    {
      if c < |Worklist(f, s)| {
        assert ThroughAt(f, s, prog, 0, 0, c);
      }
    }
  }

  lemma ThroughChild(f: World<Item>, s: seq<Item>, prog: seq<nat>, i: nat, t: nat, j: nat, x: Item)
    requires Through(f, s, prog, i, t) && i < |Worklist(f, s)| && Worklist(f, s)[i].1 == FIRST_ID + j && j < |s|
             && x in f
    ensures Through(f, s + [x], prog[j := t + 1] + [0], i, t + 1)
  {
    var s', prog' := s + [x], prog[j := t + 1] + [0];
    WorklistOfOneMore(f, s, x);
    forall c {:trigger ThroughAt(f, s', prog', i, t + 1, c)} | 0 <= c < |Worklist(f, s')|
      ensures ThroughAt(f, s', prog', i, t + 1, c)
    {
      if c < |Worklist(f, s)| {
        assert ThroughAt(f, s, prog, i, t, c);
        WorklistIs(f, s, if c < i then i else c);
        assert Worklist(f, s')[c] == Worklist(f, s)[c];
      }
    }
  }

  /** What one turn of the loop over a container's list keeps. */
  lemma ChildSaved(
      f: World<Item>, rows: seq<Row>, s: seq<Item>, roots: nat, prog: seq<nat>, i: nat, t: nat, j: nat, x: Item,
      row: Row)
    requires Linked(f) && Saving(f, rows, s, roots, prog) && Through(f, s, prog, i, t)
    requires i < |Worklist(f, s)| && Worklist(f, s)[i].1 == FIRST_ID + j && j < |s| && s[j] in f
    requires prog[j] == t < |f[s[j]].list| && x == f[s[j]].list[t] && x in f
    requires row == Row(FIRST_ID + j, FIRST_ID + |s|, DataOf(f[x]))
    ensures Saving(f, rows + [row], s + [x], roots, prog[j := t + 1] + [0])
    ensures Through(f, s + [x], prog[j := t + 1] + [0], i, t + 1)
    ensures Worklist(f, s + [x]) == Worklist(f, s) + if f[x].isContainer then [(x, FIRST_ID + |s|)] else []
  {
    SaveChild(f, rows, s, roots, prog, j, x, row);
    ThroughChild(f, s, prog, i, t, j, x);
    WorklistOfOneMore(f, s, x);
  }

  lemma ThroughNext(f: World<Item>, s: seq<Item>, prog: seq<nat>, i: nat, t: nat)
    requires Through(f, s, prog, i, t) && i < |Worklist(f, s)| && Worklist(f, s)[i].0 in f
    requires t == |f[Worklist(f, s)[i].0].list|
    ensures Through(f, s, prog, i + 1, 0)
  {
    forall c {:trigger ThroughAt(f, s, prog, i + 1, 0, c)} | 0 <= c < |Worklist(f, s)|
      ensures ThroughAt(f, s, prog, i + 1, 0, c)
    {
      assert ThroughAt(f, s, prog, i, t, c);
    }
  }

  /** When the worklist is through, every list has been written. */
  lemma ThroughAll(f: World<Item>, rows: seq<Row>, s: seq<Item>, roots: nat, prog: seq<nat>, i: nat)
    requires Linked(f) && Saving(f, rows, s, roots, prog) && Through(f, s, prog, i, 0) && i >= |Worklist(f, s)|
    ensures forall k {:trigger Full(f, s, prog, k)} | 0 <= k < |s| :: Full(f, s, prog, k)
  {
    forall k {:trigger Full(f, s, prog, k)} | 0 <= k < |s|
      ensures Full(f, s, prog, k)
    {
      assert KinSaved(f, rows, s, prog, k) && DownOk(f, s[k]);
      if f[s[k]].isContainer {
        var c := WorklistHasAll(f, s, k);
        assert ThroughAt(f, s, prog, i, 0, c);
      }
    }
  }

  lemma SavedIsBounded(f: World<Item>, rows: seq<Row>, s: seq<Item>, roots: nat, prog: seq<nat>)
    requires Saving(f, rows, s, roots, prog)
    ensures |s| <= |f.Keys|
  {
    forall y | y in s
      ensures y in f
    {
      var k :| 0 <= k < |s| && s[k] == y;
      assert SavedAt(f, rows, s, roots, k);
    }
    NoDupCount(s);
    SubsetCount(Elements(s), f.Keys);
  }

  /** The first rows, and the first items, are those of the slots. */
  ghost predicate FromSlots(itemList: seq<(int, Item)>, rows: seq<Row>, s: seq<Item>) {
    && |itemList| <= |rows| == |s|
    && forall k {:trigger itemList[k]} | 0 <= k < |itemList| :: rows[k].pid == itemList[k].0 && s[k] == itemList[k].1
  }

  /** The loop of saveItems over the slots. */
  method SaveSlots(itemList: seq<(int, Item)>, ghost S: set<Item>)
    returns (rows: seq<Row>, containers: seq<(Item, int)>, runningId: int, ghost s: seq<Item>, ghost prog: seq<nat>)
    requires forall k | 0 <= k < |itemList| ::
               && itemList[k].1 in S && itemList[k].1.parent == null
                  && CONST_SLOT_FIRST <= itemList[k].0 <= CONST_SLOT_LAST
    requires forall i, j | 0 <= i < j < |itemList| :: itemList[i].0 != itemList[j].0 && itemList[i].1 != itemList[j].1
    ensures |s| == |itemList| && runningId == FIRST_ID - 1 + |s| && containers == Worklist(Snap(S), s)
    ensures Saving(Snap(S), rows, s, |itemList|, prog) && Through(Snap(S), s, prog, 0, 0)
    ensures FromSlots(itemList, rows, s)
  {
    ghost var f: World<Item> := Snap(S);
    rows, s, prog, containers, runningId := [], [], [], [], FIRST_ID - 1;
    for k := 0 to |itemList|
      invariant |s| == k && runningId == FIRST_ID - 1 + k && containers == Worklist(f, s)
      invariant Saving(f, rows, s, k, prog) && Through(f, s, prog, 0, 0)
      invariant forall i | 0 <= i < k :: rows[i].pid == itemList[i].0 && s[i] == itemList[i].1
    {
      var (pid, item) := itemList[k];
      runningId := runningId + 1;
      assert f[item] == item.State();
      var row := MakeRow(pid, runningId, item);
      SaveRoot(f, rows, s, prog, pid, item, row);
      ThroughRoot(f, s, prog, item);
      WorklistOfOneMore(f, s, item);
      rows := rows + [row];
      if item.isContainer {
        containers := containers + [(item, runningId)];
      }
      s, prog := s + [item], prog + [0];
    }
  }

  /** saveItems: the rows say what the items are. */
  method SaveItems(itemList: seq<(int, Item)>, ghost S: set<Item>, ghost depth: map<Item, nat>)
    returns (rows: seq<Row>, ghost s: seq<Item>)
    requires WellFormed(Snap(S), depth)
    requires forall k | 0 <= k < |itemList| ::
               && itemList[k].1 in S && itemList[k].1.parent == null
                  && CONST_SLOT_FIRST <= itemList[k].0 <= CONST_SLOT_LAST
    requires forall i, j | 0 <= i < j < |itemList| :: itemList[i].0 != itemList[j].0 && itemList[i].1 != itemList[j].1
    ensures RowsOk(rows, |itemList|) && Says<Item>(rows, |itemList|, Snap(S), s)
    ensures FromSlots(itemList, rows, s)
  {
    ghost var f: World<Item> := Snap(S);
    var containers, runningId;
    ghost var prog;
    rows, containers, runningId, s, prog := SaveSlots(itemList, S);
    SavedIsBounded(f, rows, s, |itemList|, prog);
    var i := 0;
    while i < |containers|
      invariant 0 <= i <= |containers| && |s| <= |f.Keys| && FromSlots(itemList, rows, s)
      invariant runningId == FIRST_ID - 1 + |s| && containers == Worklist(f, s)
      invariant Saving(f, rows, s, |itemList|, prog) && Through(f, s, prog, i, 0)
      decreases |f.Keys| - |s|, |containers| - i
    {
      var (container, parentId) := containers[i];
      rows, containers, runningId, s, prog :=
        SaveContainer(container, parentId, rows, containers, runningId, s, prog, |itemList|, i, S);
      SavedIsBounded(f, rows, s, |itemList|, prog);
      i := i + 1;
    }
    ThroughAll(f, rows, s, |itemList|, prog, i);
    SavedSays(f, depth, rows, s, |itemList|, prog);
  }

  /** The rows for the list of one container. */
  method SaveContainer(
      container: Item, parentId: int, rows0: seq<Row>, containers0: seq<(Item, int)>, runningId0: int,
      ghost s0: seq<Item>, ghost prog0: seq<nat>, ghost roots: nat, ghost i: nat, ghost S: set<Item>)
    returns (rows: seq<Row>, containers: seq<(Item, int)>, runningId: int, ghost s: seq<Item>, ghost prog: seq<nat>)
    requires Linked(Snap(S)) && Saving(Snap(S), rows0, s0, roots, prog0) && runningId0 == FIRST_ID - 1 + |s0|
    requires containers0 == Worklist(Snap(S), s0) && i < |containers0| && containers0[i] == (container, parentId)
    requires Through(Snap(S), s0, prog0, i, 0)
    ensures container in S && Saving(Snap(S), rows, s, roots, prog) && runningId == FIRST_ID - 1 + |s|
    ensures containers == Worklist(Snap(S), s) && Through(Snap(S), s, prog, i + 1, 0)
    ensures rows0 <= rows && s0 <= s && |containers0| <= |containers|
    ensures |s| == |s0| ==> containers == containers0
  {
    ghost var f: World<Item> := Snap(S);
    rows, containers, runningId, s, prog := rows0, containers0, runningId0, s0, prog0;
    WorklistIs(f, s, i);
    ghost var j := parentId - FIRST_ID;
    assert f[container] == container.State() && DownOk(f, container);
    assert ThroughAt(f, s, prog, i, 0, i);
    for t := 0 to |container.itemlist|
      invariant Saving(f, rows, s, roots, prog) && runningId == FIRST_ID - 1 + |s|
      invariant containers == Worklist(f, s) && Through(f, s, prog, i, t) && containers0 <= containers
      invariant rows0 <= rows && s0 <= s && |s| == |s0| + t && prog[j] == t
    {
      var item := container.itemlist[t];
      assert item in f[container].list && item in f;
      runningId := runningId + 1;
      rows, containers, s, prog := SaveItem(item, parentId, runningId, rows, containers, s, prog, roots, i, t, j, S);
    }
    assert |s| == |s0| ==> s == s0;
    ThroughNext(f, s, prog, i, |f[container].list|);
  }

  /** The row for one item of a container. */
  method SaveItem(
      item: Item, parentId: int, runningId: int, rows0: seq<Row>, containers0: seq<(Item, int)>, ghost s0: seq<Item>,
      ghost prog0: seq<nat>, ghost roots: nat, ghost i: nat, ghost t: nat, ghost j: nat, ghost S: set<Item>)
    returns (rows: seq<Row>, containers: seq<(Item, int)>, ghost s: seq<Item>, ghost prog: seq<nat>)
    requires Linked(Snap(S)) && Saving(Snap(S), rows0, s0, roots, prog0) && runningId == FIRST_ID + |s0|
    requires containers0 == Worklist(Snap(S), s0) && i < |containers0| && containers0[i].1 == parentId == FIRST_ID + j
    requires Through(Snap(S), s0, prog0, i, t) && j < |s0| && s0[j] in S && prog0[j] == t
    requires t < |Snap(S)[s0[j]].list| && item == Snap(S)[s0[j]].list[t] && item in S
    ensures Saving(Snap(S), rows, s, roots, prog) && containers == Worklist(Snap(S), s)
    ensures Through(Snap(S), s, prog, i, t + 1) && rows0 <= rows && containers0 <= containers
    ensures s == s0 + [item] && prog[j] == t + 1
  {
    ghost var f: World<Item> := Snap(S);
    assert f[item] == item.State();
    containers := containers0;
    if item.isContainer {
      containers := containers + [(item, runningId)];
    }
    var row := MakeRow(parentId, runningId, item);
    ChildSaved(f, rows0, s0, roots, prog0, i, t, j, item, row);
    rows, s, prog := rows0 + [row], s0 + [item], prog0[j := t + 1] + [0];
  }

  method MakeRow(pid: int, sid: int, item: Item) returns (row: Row)
    ensures row == Row(pid, sid, DataOf(item.State()))
  {
    row := Row(pid, sid, ItemData(item.kind, item.attrs, item.count, item.isContainer, item.maxSize));
  }

  // ----- loadItems and the loop of loadPlayer -----

  /** The forest while it is being built: rows from k on have been attached. */
  ghost predicate Built<R>(rows: seq<Row>, roots: nat, g: World<R>, t: seq<R>, k: nat) {
    && roots <= |rows| == |t| && NoDup(t)
    && forall j {:trigger BuiltAt(rows, roots, g, t, k, j)} | 0 <= j < |t| :: BuiltAt(rows, roots, g, t, k, j)
  }

  ghost predicate BuiltAt<R>(rows: seq<Row>, roots: nat, g: World<R>, t: seq<R>, k: nat, j: nat)
    requires roots <= |rows| == |t| && j < |t|
  {
    && t[j] in g && DataOf(g[t[j]]) == rows[j].data
    && Within(Kin(rows, j, k), |t|) && g[t[j]].list == Named(t, Kin(rows, j, k))
    && (if k <= j && roots <= j then
          0 <= rows[j].pid - FIRST_ID < |t| && g[t[j]].parent == Some(t[rows[j].pid - FIRST_ID])
        else g[t[j]].parent.None?)
  }

  /** A row for a slot attaches nothing. */
  lemma BuildRoot<R>(rows: seq<Row>, roots: nat, g: World<R>, t: seq<R>, k: nat)
    requires RowsOk(rows, roots) && k < roots && Built(rows, roots, g, t, k + 1)
    ensures Built(rows, roots, g, t, k)
  {
    assert RowOk(rows, roots, k);
    forall j {:trigger BuiltAt(rows, roots, g, t, k, j)} | 0 <= j < |t|
      ensures BuiltAt(rows, roots, g, t, k, j)
    {
      assert BuiltAt(rows, roots, g, t, k + 1, j);
    }
  }

  /** The item of row k can go into the item of its parent row: both are still roots. */
  lemma BuildFits<R>(rows: seq<Row>, roots: nat, g: World<R>, depth: map<R, nat>, t: seq<R>, k: nat, p: nat)
    requires RowsOk(rows, roots) && roots <= k < |rows| && Built(rows, roots, g, t, k + 1) && WellFormed(g, depth)
    requires p == rows[k].pid - FIRST_ID
    ensures p < k && t[p] in g && t[k] in g && g[t[p]].isContainer && CanAttach(g, depth, t[p], t[k])
  {
    assert RowOk(rows, roots, k);
    assert BuiltAt(rows, roots, g, t, k + 1, k) && BuiltAt(rows, roots, g, t, k + 1, p);
    assert Below(g, depth, t[p]) && t[p] != t[k];
  }

  /** Attaching the item of row k at the front of its parent's list. */
  lemma BuildChild<R>(rows: seq<Row>, roots: nat, g: World<R>, r: World<R>, t: seq<R>, k: nat, p: nat)
    requires RowsOk(rows, roots) && roots <= k < |rows| && Built(rows, roots, g, t, k + 1)
    requires p == rows[k].pid - FIRST_ID && p < k && t[p] in g && t[k] in g && r.Keys == g.Keys
    requires OnlyAt(g, r, {t[p], t[k]})
    requires r[t[p]] == g[t[p]].(list := [t[k]] + g[t[p]].list, total := r[t[p]].total)
    requires r[t[k]] == g[t[k]].(parent := Some(t[p]), total := r[t[k]].total)
    ensures Built(rows, roots, r, t, k)
  {
    forall j {:trigger BuiltAt(rows, roots, r, t, k, j)} | 0 <= j < |t|
      ensures BuiltAt(rows, roots, r, t, k, j)
    {
      assert BuiltAt(rows, roots, g, t, k + 1, j);
      BuildChildAt(rows, roots, g, r, t, k, p, j);
    }
  }

  lemma BuildChildAt<R>(rows: seq<Row>, roots: nat, g: World<R>, r: World<R>, t: seq<R>, k: nat, p: nat, j: nat)
    requires roots <= k < |rows| && roots <= |rows| == |t| && j < |t| && BuiltAt(rows, roots, g, t, k + 1, j)
    requires p == rows[k].pid - FIRST_ID && p < k && (j != p ==> t[j] != t[p]) && (j != k ==> t[j] != t[k])
    requires t[p] in g && t[k] in g && r.Keys == g.Keys && t[p] != t[k]
    requires OnlyAt(g, r, {t[p], t[k]})
    requires r[t[p]] == g[t[p]].(list := [t[k]] + g[t[p]].list, total := r[t[p]].total)
    requires r[t[k]] == g[t[k]].(parent := Some(t[p]), total := r[t[k]].total)
    ensures BuiltAt(rows, roots, r, t, k, j)
  {
    var kin := Kin(rows, j, k + 1);
    assert Kin(rows, j, k) == (if j == p then [k] else []) + kin;
    if j == p {
      NamedCons(t, k, kin);
    } else {
      assert Kin(rows, j, k) == kin;
      assert j != k ==> r[t[j]] == g[t[j]].(total := r[t[j]].total);
    }
  }

  lemma NamedCons<R>(s: seq<R>, k: nat, idx: seq<nat>)
    requires k < |s| && Within(idx, |s|)
    ensures Within([k] + idx, |s|) && Named(s, [k] + idx) == [s[k]] + Named(s, idx)
  {
  }

  lemma BuiltSays<R>(rows: seq<Row>, roots: nat, g: World<R>, t: seq<R>)
    requires RowsOk(rows, roots) && Built(rows, roots, g, t, 0)
    ensures Says(rows, roots, g, t)
  {
    forall k {:trigger SaysAt(rows, roots, g, t, k)} | 0 <= k < |t|
      ensures SaysAt(rows, roots, g, t, k)
    {
      assert BuiltAt(rows, roots, g, t, 0, k);
    }
  }

  type ItemMap = map<int, (Item, int)>

  /** The map that loadItems has filled from the rows from k on: an item and its parent id under each id. */
  ghost predicate Holds(itemMap: ItemMap, rows: seq<Row>, t: seq<Item>, k: nat) {
    && k <= |rows| && |t| == |rows| - k && itemMap.Keys == Ids(FIRST_ID + k, FIRST_ID + |rows|)
    && forall j {:trigger t[j]} | 0 <= j < |t| ::
         FIRST_ID + k + j in itemMap && itemMap[FIRST_ID + k + j] == (t[j], rows[k + j].pid)
  }

  ghost function Ids(lo: int, hi: int): (s: set<int>)
    ensures forall i :: i in s <==> lo <= i < hi
    decreases hi - lo
  {
    if hi <= lo then {} else Ids(lo, hi - 1) + {hi - 1}
  }

  lemma HoldsOneMore(itemMap: ItemMap, rows: seq<Row>, t: seq<Item>, k: nat, x: Item)
    requires k < |rows| && Holds(itemMap, rows, t, k + 1)
    ensures Holds(itemMap[FIRST_ID + k := (x, rows[k].pid)], rows, [x] + t, k)
  {
    var m, t' := itemMap[FIRST_ID + k := (x, rows[k].pid)], [x] + t;
    assert m.Keys == Ids(FIRST_ID + k, FIRST_ID + |rows|);
    forall j {:trigger t'[j]} | 0 <= j < |t'|
      ensures FIRST_ID + k + j in m && m[FIRST_ID + k + j] == (t'[j], rows[k + j].pid)
    {
      assert j > 0 ==> t'[j] == t[j - 1];
    }
  }

  /** New items for the rows from k on. */
  ghost predicate Made(rows: seq<Row>, g: World<Item>, t: seq<Item>, k: nat) {
    && k <= |rows| && |t| == |rows| - k && NoDup(t)
    && forall j {:trigger t[j]} | 0 <= j < |t| :: t[j] in g && g[t[j]] == NodeOf<Item>(rows[k + j].data)
  }

  lemma MadeOneMore(rows: seq<Row>, g: World<Item>, h: World<Item>, t: seq<Item>, k: nat, x: Item)
    requires Made(rows, g, t, k + 1) && x !in g && h == g[x := NodeOf<Item>(rows[k].data)]
    ensures Made(rows, h, [x] + t, k)
  {
    forall j {:trigger ([x] + t)[j]} | 0 <= j < |[x] + t|
      ensures ([x] + t)[j] in h && h[([x] + t)[j]] == NodeOf<Item>(rows[k + j].data)
    {
      assert j > 0 ==> ([x] + t)[j] == t[j - 1];
    }
    assert forall j {:trigger t[j]} | 0 <= j < |t| :: t[j] != x;
  }

  /** CreateItem and unserializeAttr. */
  method CreateItem(d: ItemData, ghost S: set<Item>, ghost depth: map<Item, nat>)
    returns (item: Item, ghost S': set<Item>, ghost depth': map<Item, nat>)
    requires WellFormed(Snap(S), depth)
    requires 1 <= d.count <= StackSize(d.kind) <= 255 && (d.isContainer ==> !d.kind.stackable)
    ensures fresh(item) && S' == S + {item} && item !in S
    ensures WellFormed(Snap(S'), depth') && Snap(S') == Snap(S)[item := NodeOf<Item>(d)]
  {
    ghost var g: World<Item> := Snap(S);
    item := new Item(d.kind, d.attrs, d.count, d.isContainer, d.maxSize);
    S', depth' := S + {item}, depth[item := 0];
    assert Snap(S') == g[item := NodeOf<Item>(d)];
    BornKeepsForest<Item>(g, depth, item, NodeOf<Item>(d));
  }

  /** loadItems: a new item for every row, under its id. */
  method LoadItems(rows: seq<Row>, ghost roots: nat)
    returns (itemMap: ItemMap, ghost t: seq<Item>, ghost S: set<Item>, ghost depth: map<Item, nat>)
    requires RowsOk(rows, roots)
    ensures fresh(S) && WellFormed(Snap(S), depth) && Holds(itemMap, rows, t, 0) && Made(rows, Snap(S), t, 0)
  {
    itemMap, t, S, depth := map[], [], {}, map[];
    for k := |rows| downto 0
      invariant fresh(S) && WellFormed(Snap(S), depth)
      invariant Made(rows, Snap(S), t, k) && Holds(itemMap, rows, t, k)
    {
      assert RowOk(rows, roots, k);
      ghost var g: World<Item> := Snap(S);
      var item;
      item, S, depth := CreateItem(rows[k].data, S, depth);
      MadeOneMore(rows, g, Snap(S), t, k, item);
      HoldsOneMore(itemMap, rows, t, k, item);
      itemMap := itemMap[rows[k].sid := (item, rows[k].pid)];
      t := [item] + t;
    }
  }

  lemma MadeIsBuilt(rows: seq<Row>, roots: nat, g: World<Item>, t: seq<Item>)
    requires RowsOk(rows, roots) && Made(rows, g, t, 0)
    ensures Built(rows, roots, g, t, |rows|)
  {
    forall j {:trigger BuiltAt(rows, roots, g, t, |rows|, j)} | 0 <= j < |t|
      ensures BuiltAt(rows, roots, g, t, |rows|, j)
    {
      assert t[j] in g;
    }
  }

  /** The greatest key, where a reverse iteration over a std::map goes on. */
  method Greatest(keys: set<int>, ghost n: nat) returns (k: int)
    requires keys == Ids(FIRST_ID, FIRST_ID + n + 1)
    ensures k == FIRST_ID + n && keys - {k} == Ids(FIRST_ID, FIRST_ID + n)
  {
    assert FIRST_ID + n in keys;
    k :| k in keys && forall i | i in keys :: i <= k;
  }

  /** The items in the slots after the rows from k on. */
  ghost predicate Equipped(inventory: map<int, Item>, rows: seq<Row>, roots: nat, t: seq<Item>, k: nat) {
    && roots <= |rows| == |t|
    && (forall pid | pid in inventory :: exists i :: k <= i < roots && rows[i].pid == pid)
    && forall i | k <= i < roots :: rows[i].pid in inventory && inventory[rows[i].pid] == t[i]
  }

  lemma EquipOne(
      inventory: map<int, Item>, rows: seq<Row>, roots: nat, t: seq<Item>, k: nat, inventory': map<int, Item>)
    requires RowsOk(rows, roots) && k < |rows| && Equipped(inventory, rows, roots, t, k + 1)
    requires inventory' == if k < roots then inventory[rows[k].pid := t[k]] else inventory
    ensures Equipped(inventory', rows, roots, t, k)
  {
    forall pid | pid in inventory'
      ensures exists i :: k <= i < roots && rows[i].pid == pid
    {
      if pid in inventory {
        var i :| k + 1 <= i < roots && rows[i].pid == pid;
      } else {
        assert rows[k].pid == pid;
      }
    }
  }

  /** The item of one entry goes into its slot or into its container. */
  method PlaceItem(
      itemMap: ItemMap, sid: int, inventory0: map<int, Item>, ghost rows: seq<Row>, ghost roots: nat,
      ghost t: seq<Item>,
      ghost k: nat, ghost S: set<Item>, ghost depth: map<Item, nat>)
    returns (inventory: map<int, Item>, ghost deeper: map<Item, nat>)
    requires RowsOk(rows, roots) && k < |rows| && sid == FIRST_ID + k && Holds(itemMap, rows, t, 0)
    requires WellFormed(Snap(S), depth) && Built(rows, roots, Snap(S), t, k + 1)
    requires Equipped(inventory0, rows, roots, t, k + 1)
    modifies S
    ensures WellFormed(Snap(S), deeper) && Built(rows, roots, Snap(S), t, k)
    ensures Equipped(inventory, rows, roots, t, k)
  {
    ghost var g: World<Item> := Snap(S);
    assert t[k] == itemMap[sid].0 && RowOk(rows, roots, k);
    inventory, deeper := inventory0, depth;
    var (item, pid) := itemMap[sid];
    if CONST_SLOT_FIRST <= pid <= CONST_SLOT_LAST {
      inventory := inventory[pid := item];
      BuildRoot(rows, roots, g, t, k);
    } else {
      ghost var p := pid - FIRST_ID;
      BuildFits(rows, roots, g, depth, t, k, p);
      assert itemMap[FIRST_ID + p].0 == t[p];
      if pid in itemMap {
        var container := itemMap[pid].0;
        assert g[container] == container.State();
        if container.isContainer {
          ghost var list := [item] + container.itemlist;
          deeper := container.InternalAddThing(item, S, depth);
          AttachEffect<Item>(g, depth, container, item, list, Snap(S));
          BuildChild(rows, roots, g, Snap(S), t, k, p);
        }
      }
    }
    EquipOne(inventory0, rows, roots, t, k, inventory);
  }

  /** The loop of loadPlayer over the item map, from the greatest id down. */
  method PlaceItems(
      itemMap: ItemMap, ghost rows: seq<Row>, ghost roots: nat, ghost t: seq<Item>, ghost S: set<Item>,
      ghost depth0: map<Item, nat>)
    returns (inventory: map<int, Item>, ghost depth: map<Item, nat>)
    requires RowsOk(rows, roots) && Holds(itemMap, rows, t, 0)
    requires WellFormed(Snap(S), depth0) && Built(rows, roots, Snap(S), t, |rows|)
    modifies S
    ensures WellFormed(Snap(S), depth) && Built(rows, roots, Snap(S), t, 0) && Equipped(inventory, rows, roots, t, 0)
  {
    inventory, depth := map[], depth0;
    var left := itemMap.Keys;
    ghost var k := |rows|;
    while left != {}
      invariant 0 <= k <= |rows| && left == Ids(FIRST_ID, FIRST_ID + k)
      invariant WellFormed(Snap(S), depth) && Built(rows, roots, Snap(S), t, k)
      invariant Equipped(inventory, rows, roots, t, k)
      decreases k
    {
      k := k - 1;
      var sid := Greatest(left, k);
      inventory, depth := PlaceItem(itemMap, sid, inventory, rows, roots, t, k, S, depth);
      left := left - {sid};
    }
    assert FIRST_ID !in left;
  }

  /** The part of loadPlayer that builds the inventory from its rows. */
  method LoadInventory(rows: seq<Row>, ghost roots: nat)
    returns (inventory: map<int, Item>, ghost t: seq<Item>, ghost S: set<Item>, ghost depth: map<Item, nat>)
    requires RowsOk(rows, roots)
    ensures fresh(S) && WellFormed(Snap(S), depth)
    ensures Says<Item>(rows, roots, Snap(S), t) && Equipped(inventory, rows, roots, t, 0)
  {
    var itemMap;
    itemMap, t, S, depth := LoadItems(rows, roots);
    MadeIsBuilt(rows, roots, Snap(S), t);
    inventory, depth := PlaceItems(itemMap, rows, roots, t, S, depth);
    BuiltSays<Item>(rows, roots, Snap(S), t);
  }

  /** Logging out and in again: every item is back in its slot or container, in its place, with the same weight. */
  method Relog(itemList: seq<(int, Item)>, ghost S: set<Item>, ghost depth: map<Item, nat>)
    returns (inventory: map<int, Item>, ghost s: seq<Item>, ghost t: seq<Item>, ghost S': set<Item>,
        ghost depth': map<Item, nat>)
    requires WellFormed(Snap(S), depth)
    requires forall k | 0 <= k < |itemList| ::
               && itemList[k].1 in S && itemList[k].1.parent == null
                  && CONST_SLOT_FIRST <= itemList[k].0 <= CONST_SLOT_LAST
    requires forall i, j | 0 <= i < j < |itemList| :: itemList[i].0 != itemList[j].0 && itemList[i].1 != itemList[j].1
    ensures fresh(S') && WellFormed(Snap(S'), depth') && SameItems<Item>(Snap(S), s, Snap(S'), t)
    ensures |itemList| <= |s| && forall pid | pid in inventory :: exists k ::
            0 <= k < |itemList| && itemList[k].0 == pid
    ensures forall k | 0 <= k < |itemList| ::
            s[k] == itemList[k].1 && itemList[k].0 in inventory && inventory[itemList[k].0] == t[k]
  {
    ghost var f: World<Item> := Snap(S);
    var rows;
    rows, s := SaveItems(itemList, S, depth);
    inventory, t, S', depth' := LoadInventory(rows, |itemList|);
    assert Snap(S) == f;
    RowsDetermineItems<Item>(rows, |itemList|, f, s, Snap(S'), t);
    forall pid | pid in inventory
      ensures exists k :: 0 <= k < |itemList| && itemList[k].0 == pid
    {
      var i :| 0 <= i < |itemList| && rows[i].pid == pid;
      assert itemList[i].0 == pid;
    }
  }
}
