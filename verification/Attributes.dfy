/** ItemAttributes and Item::equals of src/item.cpp: a bit field and an unordered vector that act as a map. */
module Attributes {
  import opened ItemTypes

  /** One entry of the vector. */
  datatype Attribute<K, V> = Attribute(kind: K, value: V)

  const INT_ATTRIBUTE_TYPES: bv32 :=
    0x1 | 0x2 | 0x10 | 0x200 | 0x400 | 0x800 | 0x1000 | 0x2000 | 0x4000 | 0x8000 | 0x1_0000 | 0x2_0000 | 0x4_0000
    | 0x8_0000 | 0x10_0000 | 0x20_0000 | 0x40_0000 | 0x80_0000 | 0x100_0000 | 0x200_0000 | 0x400_0000 | 0x800_0000

  const STRING_ATTRIBUTE_TYPES: bv32 := 0x4 | 0x8 | 0x20 | 0x40 | 0x80 | 0x100

  predicate IsIntAttrType(t: AttrType) {
    t.mask & INT_ATTRIBUTE_TYPES == t.mask
  }

  predicate IsStrAttrType(t: AttrType) {
    t.mask & STRING_ATTRIBUTE_TYPES == t.mask
  }

  /** The attribute types that are in use each have exactly one bit. */
  predicate SingleBit(t: AttrType) {
    IsSingle(t.mask)
  }

  predicate IsSingle(t: bv32) {
    t != 0 && t & (t - 1) == 0
  }

  predicate HasBit(bits: bv32, t: AttrType) {
    HasMask(bits, t.mask)
  }

  // ----- words of bits -----

  lemma BitsApart(t: bv32, u: bv32)
    requires IsSingle(t) && IsSingle(u) && t != u
    ensures t & u == 0
  {
  }

  lemma MaskSet(bits: bv32, t: bv32, u: bv32)
    requires IsSingle(t) && IsSingle(u)
    ensures HasMask(Or(bits, t), u) <==> HasMask(bits, u) || u == t
  {
    if u != t {
      BitsApart(t, u);
      OrApart(bits, t, u);
    }
  }

  lemma MaskCleared(bits: bv32, t: bv32, u: bv32)
    requires IsSingle(t) && IsSingle(u)
    ensures HasMask(AndNot(bits, t), u) <==> HasMask(bits, u) && u != t
  {
    if u != t {
      BitsApart(t, u);
      AndApart(bits, t, u);
    }
  }

  /** The word with the bit of t set. */
  function SetBit(bits: bv32, t: AttrType): bv32 {
    Or(bits, t.mask)
  }

  function ClearBit(bits: bv32, t: AttrType): bv32 {
    AndNot(bits, t.mask)
  }

  function Or(bits: bv32, t: bv32): bv32 {
    bits | t
  }

  function AndNot(bits: bv32, t: bv32): bv32 {
    bits & !t
  }

  predicate HasMask(bits: bv32, u: bv32) {
    u & bits != 0
  }

  lemma BitSet(bits: bv32, t: AttrType, u: AttrType)
    requires SingleBit(t) && SingleBit(u)
    ensures HasBit(SetBit(bits, t), u) <==> HasBit(bits, u) || u == t
  {
    MaskSet(bits, t.mask, u.mask);
    assert u == t <==> u.mask == t.mask;
  }

  lemma BitCleared(bits: bv32, t: AttrType, u: AttrType)
    requires SingleBit(t) && SingleBit(u)
    ensures HasBit(ClearBit(bits, t), u) <==> HasBit(bits, u) && u != t
  {
    MaskCleared(bits, t.mask, u.mask);
    assert u == t <==> u.mask == t.mask;
  }

  lemma OrApart(bits: bv32, t: bv32, u: bv32)
    requires t & u == 0
    ensures u & (bits | t) == u & bits
  {
  }

  lemma AndApart(bits: bv32, t: bv32, u: bv32)
    requires t & u == 0
    ensures u & (bits & !t) == u & bits
  {
  }

  /** A word of bits is determined by its single bits: two different words differ in one. */
  lemma DifferentBit(a: bv32, b: bv32) returns (t: AttrType)
    requires a != b
    ensures SingleBit(t) && HasBit(a, t) != HasBit(b, t)
  {
    var x := a ^ b;
    t := AttrType(x & (0 - x));
  }

  // ----- a vector of distinct kinds as a map -----

  ghost function ContentsOf<K, V>(s: seq<Attribute<K, V>>): map<K, V> {
    if s == [] then map[] else ContentsOf(s[..|s| - 1])[s[|s| - 1].kind := s[|s| - 1].value]
  }

  ghost predicate Distinct<K, V>(s: seq<Attribute<K, V>>) {
    forall i, j | 0 <= i < j < |s| :: s[i].kind != s[j].kind
  }

  ghost predicate Lists<K, V>(s: seq<Attribute<K, V>>, t: K) {
    exists i :: 0 <= i < |s| && s[i].kind == t
  }

  lemma {:induction false} ContentsAre<K, V>(s: seq<Attribute<K, V>>)
    requires Distinct(s)
    ensures forall i | 0 <= i < |s| :: s[i].kind in ContentsOf(s) && ContentsOf(s)[s[i].kind] == s[i].value
    ensures forall t {:trigger t in ContentsOf(s)} | t in ContentsOf(s) :: Lists(s, t)
  {
    if s != [] {
      var front, last := s[..|s| - 1], s[|s| - 1];
      ContentsAre(front);
      forall t {:trigger t in ContentsOf(s)} | t in ContentsOf(s)
        ensures Lists(s, t)
      {
        if t == last.kind {
          assert s[|s| - 1].kind == t;
        } else {
          assert t in ContentsOf(front);
          var i :| 0 <= i < |front| && front[i].kind == t;
          assert s[i].kind == t;
        }
      }
      forall i | 0 <= i < |s|
        ensures s[i].kind in ContentsOf(s) && ContentsOf(s)[s[i].kind] == s[i].value
      {
        if i < |front| {
          assert front[i] == s[i] && s[i].kind != s[|s| - 1].kind;
        }
      }
    }
  }

  lemma ListsIsIn<K, V>(s: seq<Attribute<K, V>>, t: K)
    requires Distinct(s)
    ensures Lists(s, t) <==> t in ContentsOf(s)
  {
    ContentsAre(s);
    if Lists(s, t) {
      var i :| 0 <= i < |s| && s[i].kind == t;
      assert s[i].kind in ContentsOf(s);
    }
  }

  lemma EntryIs<K, V>(s: seq<Attribute<K, V>>, i: nat)
    requires Distinct(s) && i < |s|
    ensures s[i].kind in ContentsOf(s) && ContentsOf(s)[s[i].kind] == s[i].value
  {
    ContentsAre(s);
    assert s[i].kind in ContentsOf(s);
  }

  /** The order of the entries makes no difference: a vector with distinct kinds is a map. */
  lemma ContentsAreMap<K, V>(s: seq<Attribute<K, V>>, m: map<K, V>)
    requires Distinct(s)
    requires forall i | 0 <= i < |s| :: s[i].kind in m && m[s[i].kind] == s[i].value
    requires forall t {:trigger t in m} | t in m :: Lists(s, t)
    ensures ContentsOf(s) == m
  {
    var c := ContentsOf(s);
    ContentsAre(s);
    forall t
      ensures t in c <==> t in m
      ensures t in c && t in m ==> c[t] == m[t]
    {
      ListsIsIn(s, t);
      if Lists(s, t) {
        var i :| 0 <= i < |s| && s[i].kind == t;
        assert s[i].kind in m;
      }
    }
  }

  lemma Appended<K, V>(s: seq<Attribute<K, V>>, a: Attribute<K, V>)
    requires Distinct(s) && !Lists(s, a.kind)
    ensures Distinct(s + [a]) && ContentsOf(s + [a]) == ContentsOf(s)[a.kind := a.value]
    ensures forall t {:trigger Lists(s + [a], t)} :: Lists(s + [a], t) <==> Lists(s, t) || t == a.kind
  {
    var s' := s + [a];
    assert s'[..|s|] == s;
    forall t {:trigger Lists(s', t)}
      ensures Lists(s', t) <==> Lists(s, t) || t == a.kind
    {
      if Lists(s, t) {
        var i :| 0 <= i < |s| && s[i].kind == t;
        assert s'[i].kind == t;
      }
      assert s'[|s|].kind == a.kind;
      if Lists(s', t) && t != a.kind {
        var i :| 0 <= i < |s'| && s'[i].kind == t;
        assert s[i].kind == t;
      }
    }
  }

  lemma Updated<K, V>(s: seq<Attribute<K, V>>, i: nat, a: Attribute<K, V>)
    requires Distinct(s) && i < |s| && s[i].kind == a.kind
    ensures Distinct(s[i := a]) && ContentsOf(s[i := a]) == ContentsOf(s)[a.kind := a.value]
    ensures forall t {:trigger Lists(s[i := a], t)} :: Lists(s[i := a], t) <==> Lists(s, t)
  {
    var s', m := s[i := a], ContentsOf(s)[a.kind := a.value];
    forall t {:trigger Lists(s', t)}
      ensures Lists(s', t) <==> Lists(s, t)
    {
      if Lists(s, t) {
        var k :| 0 <= k < |s| && s[k].kind == t;
        assert s'[k].kind == t;
      }
      if Lists(s', t) {
        var k :| 0 <= k < |s'| && s'[k].kind == t;
        assert s[k].kind == t;
      }
    }
    ContentsAre(s);
    forall k | 0 <= k < |s'|
      ensures s'[k].kind in m && m[s'[k].kind] == s'[k].value
    {
      assert s'[k].kind == s[k].kind && (k != i ==> s[k].kind != s[i].kind);
    }
    forall t {:trigger t in m} | t in m
      ensures Lists(s', t)
    {
      ListsIsIn(s, t);
    }
    ContentsAreMap(s', m);
  }

  /** The vector after the entry at i has been replaced by the last one. */
  function SwappedOut<K, V>(s: seq<Attribute<K, V>>, i: nat): seq<Attribute<K, V>>
    requires i < |s|
  {
    if i == |s| - 1 then s[..|s| - 1] else s[i := s[|s| - 1]][..|s| - 1]
  }

  lemma SwappedLists<K, V>(s: seq<Attribute<K, V>>, i: nat)
    requires Distinct(s) && i < |s|
    ensures Distinct(SwappedOut(s, i))
    ensures forall t {:trigger Lists(SwappedOut(s, i), t)} :: Lists(SwappedOut(s, i), t) <==>
            Lists(s, t) && t != s[i].kind
  {
    var s', t0 := SwappedOut(s, i), s[i].kind;
    forall t {:trigger Lists(s', t)}
      ensures Lists(s', t) <==> Lists(s, t) && t != t0
    {
      if Lists(s, t) && t != t0 {
        var k :| 0 <= k < |s| && s[k].kind == t;
        assert s'[if k == |s| - 1 then i else k].kind == t;
      }
      if Lists(s', t) {
        var k :| 0 <= k < |s'| && s'[k].kind == t;
        assert s[if k == i then |s| - 1 else k].kind == t;
      }
    }
  }

  lemma Swapped<K, V>(s: seq<Attribute<K, V>>, i: nat)
    requires Distinct(s) && i < |s|
    ensures ContentsOf(SwappedOut(s, i)) == ContentsOf(s) - {s[i].kind}
  {
    var s', t0 := SwappedOut(s, i), s[i].kind;
    var m := ContentsOf(s) - {t0};
    SwappedLists(s, i);
    ContentsAre(s);
    forall k | 0 <= k < |s'|
      ensures s'[k].kind in m && m[s'[k].kind] == s'[k].value
    {
      var j := if k == i then |s| - 1 else k;
      assert s'[k] == s[j] && s[j].kind in ContentsOf(s) && s[j].kind != t0;
    }
    forall t {:trigger t in m} | t in m
      ensures Lists(s', t)
    {
      ListsIsIn(s, t);
    }
    ContentsAreMap(s', m);
  }

  // ----- the vector and the bits -----

  predicate Typed(a: Attribute<AttrType, AttrValue>) {
    && SingleBit(a.kind) && (IsIntAttrType(a.kind) || IsStrAttrType(a.kind))
    && (a.value.IntValue? <==> IsIntAttrType(a.kind))
  }

  ghost predicate AllTyped(s: seq<Attribute<AttrType, AttrValue>>) {
    forall i {:trigger s[i]} | 0 <= i < |s| :: Typed(s[i])
  }

  ghost predicate BitsAre(s: seq<Attribute<AttrType, AttrValue>>, bits: bv32) {
    forall t {:trigger Lists(s, t)} | SingleBit(t) :: HasBit(bits, t) <==> Lists(s, t)
  }

  /** Entries of single-bit types, each once, with a value of the right sort, and the bits that go with them. */
  ghost predicate Consistent(s: seq<Attribute<AttrType, AttrValue>>, bits: bv32) {
    Distinct(s) && AllTyped(s) && BitsAre(s, bits)
  }

  lemma IntOrString(t: AttrType)
    requires SingleBit(t)
    ensures !(IsIntAttrType(t) && IsStrAttrType(t))
  {
  }

  lemma ListedIsSingle(s: seq<Attribute<AttrType, AttrValue>>, t: AttrType)
    requires AllTyped(s) && Lists(s, t)
    ensures SingleBit(t)
  {
    var i :| 0 <= i < |s| && s[i].kind == t;
    assert Typed(s[i]);
  }

  lemma AppendBits(
      s: seq<Attribute<AttrType, AttrValue>>, bits: bv32, s': seq<Attribute<AttrType, AttrValue>>, t0: AttrType)
    requires BitsAre(s, bits) && SingleBit(t0)
    requires forall t {:trigger Lists(s', t)} :: Lists(s', t) <==> Lists(s, t) || t == t0
    ensures BitsAre(s', SetBit(bits, t0))
  {
    forall t {:trigger Lists(s', t)} | SingleBit(t)
      ensures HasBit(SetBit(bits, t0), t) <==> Lists(s', t)
    {
      BitSet(bits, t0, t);
      assert HasBit(bits, t) <==> Lists(s, t);
    }
  }

  lemma ClearBits(
      s: seq<Attribute<AttrType, AttrValue>>, bits: bv32, s': seq<Attribute<AttrType, AttrValue>>, t0: AttrType)
    requires BitsAre(s, bits) && SingleBit(t0)
    requires forall t {:trigger Lists(s', t)} :: Lists(s', t) <==> Lists(s, t) && t != t0
    ensures BitsAre(s', ClearBit(bits, t0))
  {
    forall t {:trigger Lists(s', t)} | SingleBit(t)
      ensures HasBit(ClearBit(bits, t0), t) <==> Lists(s', t)
    {
      BitCleared(bits, t0, t);
      assert HasBit(bits, t) <==> Lists(s, t);
    }
  }

  lemma UpdateKeeps(s: seq<Attribute<AttrType, AttrValue>>, bits: bv32, i: nat, a: Attribute<AttrType, AttrValue>)
    requires Consistent(s, bits) && i < |s| && Typed(a) && s[i].kind == a.kind
    ensures Consistent(s[i := a], bits) && ContentsOf(s[i := a]) == ContentsOf(s)[a.kind := a.value]
  {
    Updated(s, i, a);
    forall k {:trigger s[i := a][k]} | 0 <= k < |s|
      ensures Typed(s[i := a][k])
    {
      assert s[i := a][k] == if k == i then a else s[k];
    }
  }

  lemma AppendKeeps(s: seq<Attribute<AttrType, AttrValue>>, bits: bv32, a: Attribute<AttrType, AttrValue>)
    requires Consistent(s, bits) && Typed(a) && a.kind !in ContentsOf(s)
    ensures Consistent(s + [a], SetBit(bits, a.kind)) && ContentsOf(s + [a]) == ContentsOf(s)[a.kind := a.value]
  {
    ListsIsIn(s, a.kind);
    Appended(s, a);
    AppendBits(s, bits, s + [a], a.kind);
    forall k {:trigger (s + [a])[k]} | 0 <= k < |s + [a]|
      ensures Typed((s + [a])[k])
    {
      assert (s + [a])[k] == if k == |s| then a else s[k];
    }
  }

  lemma SwapKeeps(s: seq<Attribute<AttrType, AttrValue>>, bits: bv32, i: nat)
    requires Consistent(s, bits) && i < |s|
    ensures Consistent(SwappedOut(s, i), ClearBit(bits, s[i].kind))
    ensures ContentsOf(SwappedOut(s, i)) == ContentsOf(s) - {s[i].kind}
  {
    Swapped(s, i);
    SwappedLists(s, i);
    ListedIsSingle(s, s[i].kind);
    ClearBits(s, bits, SwappedOut(s, i), s[i].kind);
    forall k {:trigger SwappedOut(s, i)[k]} | 0 <= k < |SwappedOut(s, i)|
      ensures Typed(SwappedOut(s, i)[k])
    {
      assert SwappedOut(s, i)[k] == s[if k == i then |s| - 1 else k];
    }
  }

  /** Equal words of bits mean equal sets of attributes. */
  lemma SameBitsSameKeys(
      s: seq<Attribute<AttrType, AttrValue>>, bits: bv32, s': seq<Attribute<AttrType, AttrValue>>, bits': bv32)
    requires Consistent(s, bits) && Consistent(s', bits')
    ensures bits == bits' <==> ContentsOf(s).Keys == ContentsOf(s').Keys
  {
    if bits == bits' {
      forall t
        ensures t in ContentsOf(s) <==> t in ContentsOf(s')
      {
        ListsIsIn(s, t);
        ListsIsIn(s', t);
        SameLists(s, bits, s', t);
      }
    } else {
      var t := DifferentBit(bits, bits');
      ListsIsIn(s, t);
      ListsIsIn(s', t);
    }
  }

  lemma SameLists(
      s: seq<Attribute<AttrType, AttrValue>>, bits: bv32, s': seq<Attribute<AttrType, AttrValue>>, t: AttrType)
    requires Consistent(s, bits) && Consistent(s', bits)
    ensures Lists(s, t) <==> Lists(s', t)
  {
    if Lists(s, t) {
      ListedIsSingle(s, t);
    }
    if Lists(s', t) {
      ListedIsSingle(s', t);
    }
  }

  /** An attack speed below 100 is raised to it. */
  function AtLeast100(t: AttrType, value: int): int {
    if t == ITEM_ATTRIBUTE_ATTACK_SPEED && value < 100 then 100 else value
  }

  class ItemAttributes {
    var attributes: seq<Attribute<AttrType, AttrValue>>
    var attributeBits: bv32

    ghost predicate Valid()
      reads this
    {
      Consistent(attributes, attributeBits)
    }

    /** The map that the bits and the vector stand for. */
    ghost function Contents(): AttrMap
      reads this
    {
      ContentsOf(attributes)
    }

    constructor ()
      ensures Valid() && Contents() == map[]
    {
      attributes, attributeBits := [], 0;
    }

    predicate HasAttribute(t: AttrType)
      reads this
    {
      HasBit(attributeBits, t)
    }

    /** hasAttribute says what is in the map. */
    lemma HasAttributeIs(t: AttrType)
      requires Valid() && SingleBit(t)
      ensures HasAttribute(t) <==> t in Contents()
    {
      ListsIsIn(attributes, t);
      assert HasBit(attributeBits, t) <==> Lists(attributes, t);
    }

    /** The position of the entry of a type; |attributes| when there is none. */
    method GetExistingAttr(t: AttrType) returns (i: nat)
      requires Valid() && SingleBit(t)
      ensures i <= |attributes| && (i < |attributes| <==> t in Contents())
      ensures i < |attributes| ==> attributes[i].kind == t && attributes[i].value == Contents()[t]
    {
      HasAttributeIs(t);
      i := |attributes|;
      if HasAttribute(t) {
        ListsIsIn(attributes, t);
        i := 0;
        while attributes[i].kind != t
          invariant 0 <= i < |attributes| && exists k :: i <= k < |attributes| && attributes[k].kind == t
          decreases |attributes| - i
        {
          i := i + 1;
        }
        EntryIs(attributes, i);
      }
    }

    method GetIntAttr(t: AttrType) returns (v: int)
      requires Valid() && SingleBit(t)
      ensures v == IntOf(t)
    {
      var i := GetExistingAttr(t);
      if !IsIntAttrType(t) || i == |attributes| {
        if i < |attributes| {
          assert Typed(attributes[i]);
        }
        return 0;
      }
      assert Typed(attributes[i]);
      v := attributes[i].value.i;
    }

    method GetStrAttr(t: AttrType) returns (v: string)
      requires Valid() && SingleBit(t)
      ensures v == if t in Contents() && Contents()[t].StrValue? then Contents()[t].s else ""
    {
      var i := GetExistingAttr(t);
      IntOrString(t);
      if !IsStrAttrType(t) || i == |attributes| {
        if i < |attributes| {
          assert Typed(attributes[i]);
        }
        return "";
      }
      assert Typed(attributes[i]);
      v := attributes[i].value.s;
    }

    /** getAttr and the assignment to what it returns. */
    method Put(t: AttrType, value: AttrValue)
      requires Valid() && Typed(Attribute(t, value))
      modifies this
      ensures Valid() && Contents() == old(Contents())[t := value]
    {
      var i := GetExistingAttr(t);
      var entry := Attribute(t, value);
      if i < |attributes| {
        UpdateKeeps(attributes, attributeBits, i, entry);
        attributes := attributes[i := entry];
      } else {
        AppendKeeps(attributes, attributeBits, entry);
        attributeBits := SetBit(attributeBits, t);
        attributes := attributes + [entry];
      }
    }

    method SetIntAttr(t: AttrType, value: int)
      requires Valid() && SingleBit(t)
      modifies this
      ensures Valid()
      ensures !IsIntAttrType(t) ==> Contents() == old(Contents())
      ensures IsIntAttrType(t) ==>
                Contents() == old(Contents())[t := IntValue(if t.mask == 0x400_0000 && value < 100 then 100 else value)]
    {
      if !IsIntAttrType(t) {
        return;
      }
      Put(t, IntValue(AtLeast100(t, value)));
    }

    /** An empty string is not stored, and does not remove the one that is. */
    method SetStrAttr(t: AttrType, value: string)
      requires Valid() && SingleBit(t)
      modifies this
      ensures Valid()
      ensures Contents() == if !IsStrAttrType(t) || value == "" then old(Contents())
              else old(Contents())[t := StrValue(value)]
    {
      if !IsStrAttrType(t) {
        return;
      }
      if value == "" {
        return;
      }
      IntOrString(t);
      Put(t, StrValue(value));
    }

    ghost function IntOf(t: AttrType): int
      reads this
    {
      if t in Contents() && Contents()[t].IntValue? then Contents()[t].i else 0
    }

    method IncreaseIntAttr(t: AttrType, value: int)
      requires Valid() && SingleBit(t)
      modifies this
      ensures Valid()
      ensures !IsIntAttrType(t) ==> Contents() == old(Contents())
      ensures IsIntAttrType(t) ==>
                var v := old(IntOf(t)) + value;
                Contents() == old(Contents())[t := IntValue(if t.mask == 0x400_0000 && v < 100 then 100 else v)]
    {
      var v := GetIntAttr(t);
      SetIntAttr(t, v + value);
    }

    method RemoveAttribute(t: AttrType)
      requires Valid() && SingleBit(t)
      modifies this
      ensures Valid() && Contents() == old(Contents()) - {t}
    {
      HasAttributeIs(t);
      if !HasAttribute(t) {
        return;
      }
      ListsIsIn(attributes, t);
      var last := |attributes| - 1;
      var it := last;
      if attributes[last].kind != t {
        it := FindFromBack(t, last);
      }
      ghost var s := attributes;
      assert s[it].kind == t;
      SwapKeeps(s, attributeBits, it);
      if it != last {
        attributes := attributes[it := attributes[last]];
      }
      attributes := attributes[..last];
      assert attributes == SwappedOut(s, it);
      attributeBits := ClearBit(attributeBits, t);
    }

    /** The loop of removeAttribute from the last entry but one towards the first. */
    method FindFromBack(t: AttrType, last: nat) returns (it: nat)
      requires last == |attributes| - 1 && attributes[last].kind != t && Lists(attributes, t)
      ensures it < last && attributes[it].kind == t
    {
      var i := last - 1;
      while attributes[i].kind != t
        invariant 0 <= i < last && exists k :: 0 <= k <= i && attributes[k].kind == t
        decreases i
      {
        i := i - 1;
      }
      it := i;
    }

    /** The loops of equals: no entry of this has another value than the entry of the same type there. */
    method SameValues(other: ItemAttributes) returns (same: bool)
      requires Valid() && other.Valid()
      ensures same <==> Agree(attributes, other.attributes)
    {
      for i := 0 to |attributes|
        invariant Agree(attributes[..i], other.attributes)
      {
        for j := 0 to |other.attributes|
          invariant forall k | 0 <= k < j ::
                      attributes[i].kind == other.attributes[k].kind ==>
                          attributes[i].value == other.attributes[k].value
        {
          assert Typed(attributes[i]) && Typed(other.attributes[j]);
          if attributes[i].kind == other.attributes[j].kind && attributes[i].value != other.attributes[j].value {
            return false;
          }
        }
        assert attributes[..i + 1] == attributes[..i] + [attributes[i]];
      }
      assert attributes[..|attributes|] == attributes;
      same := true;
    }
  }

  /** Entries of one kind have one value. */
  ghost predicate Agree<K, V>(s: seq<Attribute<K, V>>, s': seq<Attribute<K, V>>) {
    forall i, j | 0 <= i < |s| && 0 <= j < |s'| :: s[i].kind == s'[j].kind ==> s[i].value == s'[j].value
  }

  lemma AgreeIsEqual<K, V>(s: seq<Attribute<K, V>>, s': seq<Attribute<K, V>>)
    requires Distinct(s) && Distinct(s') && ContentsOf(s).Keys == ContentsOf(s').Keys
    ensures Agree(s, s') <==> ContentsOf(s) == ContentsOf(s')
  {
    var m, m' := ContentsOf(s), ContentsOf(s');
    ContentsAre(s);
    ContentsAre(s');
    if Agree(s, s') {
      forall t | t in m
        ensures t in m' && m[t] == m'[t]
      {
        assert t in m' && Lists(s, t) && Lists(s', t);
        var i :| 0 <= i < |s| && s[i].kind == t;
        var j :| 0 <= j < |s'| && s'[j].kind == t;
      }
      assert m == m';
    }
    if m == m' {
      forall i, j | 0 <= i < |s| && 0 <= j < |s'| && s[i].kind == s'[j].kind
        ensures s[i].value == s'[j].value
      {
        assert s[i].kind in m && s'[j].kind in m';
      }
    }
  }

  /** An item without attributes has a null pointer for them. */
  ghost function ContentsOrNone(a: ItemAttributes?): AttrMap
    reads a
  {
    if a == null then map[] else a.Contents()
  }

  /**
   Item::equals: same item type and same attribute map. Hence it is an equivalence, whatever the order of the
   entries and whether an empty set of attributes is there or not.
   */
  method Equals(id: nat, attributes: ItemAttributes?, otherId: nat, otherAttributes: ItemAttributes?) returns (r: bool)
    requires attributes != null ==> attributes.Valid()
    requires otherAttributes != null ==> otherAttributes.Valid()
    ensures r <==> id == otherId && ContentsOrNone(attributes) == ContentsOrNone(otherAttributes)
  {
    if id != otherId {
      return false;
    }
    if attributes == null {
      if otherAttributes != null {
        NoBitsNothing(otherAttributes.attributes, otherAttributes.attributeBits);
      }
      return otherAttributes == null || otherAttributes.attributeBits == 0;
    } else if otherAttributes == null {
      NoBitsNothing(attributes.attributes, attributes.attributeBits);
      return attributes.attributeBits == 0;
    }
    SameBitsSameKeys(attributes.attributes, attributes.attributeBits, otherAttributes.attributes,
        otherAttributes.attributeBits);
    if attributes.attributeBits != otherAttributes.attributeBits {
      return false;
    }
    AgreeIsEqual(attributes.attributes, otherAttributes.attributes);
    r := attributes.SameValues(otherAttributes);
  }

  lemma NoBitsNothing(s: seq<Attribute<AttrType, AttrValue>>, bits: bv32)
    requires Consistent(s, bits)
    ensures bits == 0 <==> ContentsOf(s) == map[]
  {
    var none: seq<Attribute<AttrType, AttrValue>> := [];
    assert Consistent(none, 0) && ContentsOf(none) == map[];
    SameBitsSameKeys(s, bits, none, 0);
    if ContentsOf(s).Keys == {} {
      assert ContentsOf(s) == map[];
    }
  }
}
