/** Entities shared by the item modules: the static type table entry, the attribute map and Option. */
module ItemTypes {

  datatype Option<+T> = None | Some(value: T)

  /** One attribute value: the union of src/item.h, without the custom map. */
  datatype AttrValue = IntValue(i: int) | StrValue(s: string)

  /** An attribute type: one bit of a 32-bit word (src/enums.h). */
  datatype AttrType = AttrType(mask: bv32)

  type AttrMap = map<AttrType, AttrValue>

  const ITEM_ATTRIBUTE_WEIGHT: AttrType := AttrType(0x200)
  const ITEM_ATTRIBUTE_CHARGES: AttrType := AttrType(0x10_0000)
  const ITEM_ATTRIBUTE_FLUIDTYPE: AttrType := AttrType(0x20_0000)
  const ITEM_ATTRIBUTE_ATTACK_SPEED: AttrType := AttrType(0x400_0000)

  /** The entry of the item type table that the modelled code reads (src/items.h). */
  datatype ItemType = ItemType(
    id: nat, stackable: bool, stackSize: nat, weight: nat, pickupable: bool, moveable: bool, worth: nat,
    holdsFluid: bool, hasCharges: bool)

  /** Item::getStackSize */
  function StackSize(kind: ItemType): nat {
    if kind.stackable then kind.stackSize else 1
  }

  /** Item::getBaseWeight: the weight attribute, read as an unsigned 32-bit number, wins over the table. */
  function BaseWeight(kind: ItemType, attrs: AttrMap): nat {
    if ITEM_ATTRIBUTE_WEIGHT in attrs && attrs[ITEM_ATTRIBUTE_WEIGHT].IntValue? then
      attrs[ITEM_ATTRIBUTE_WEIGHT].i % 0x1_0000_0000
    else
      kind.weight
  }

  /** An integer attribute cast to 16 bits; absent attributes read as 0. */
  function IntAttr16(attrs: AttrMap, bit: AttrType): nat {
    if bit in attrs && attrs[bit].IntValue? then attrs[bit].i % 0x1_0000 else 0
  }

  /** Item::getSubType */
  function SubType(kind: ItemType, attrs: AttrMap, count: nat): nat {
    if kind.holdsFluid then IntAttr16(attrs, ITEM_ATTRIBUTE_FLUIDTYPE)
    else if kind.stackable then count
    else if kind.hasCharges then IntAttr16(attrs, ITEM_ATTRIBUTE_CHARGES)
    else count
  }

  /** n times u, by repeated addition. */
  function Times(u: int, n: int): int
    decreases if n < 0 then -n else n
  {
    if n == 0 then 0 else if n > 0 then Times(u, n - 1) + u else Times(u, n + 1) - u
  }

  lemma {:induction false} TimesIsProduct(u: int, n: int)
    ensures Times(u, n) == u * n
    decreases if n < 0 then -n else n
  {
    if n > 0 {
      TimesIsProduct(u, n - 1);
    } else if n < 0 {
      TimesIsProduct(u, n + 1);
    }
  }

  lemma {:induction false} TimesIsNatural(u: nat, n: nat)
    ensures Times(u, n) >= 0
  {
    if n > 0 {
      TimesIsNatural(u, n - 1);
    }
  }

  /** What m = n + rest pieces are worth, and what taking them away is worth. */
  lemma TimesSplit(u: int, m: int, n: int, rest: int)
    requires m == n + rest
    ensures Times(u, m) == Times(u, n) + Times(u, rest) && Times(u, 0 - m) == -Times(u, m)
  {
    TimesIsProduct(u, m);
    TimesIsProduct(u, 0 - m);
    TimesIsProduct(u, n);
    TimesIsProduct(u, rest);
    assert u * (n + rest) == u * n + u * rest;
  }

  lemma TimesAdd(u: int, m: int, n: int)
    ensures Times(u, m + n) == Times(u, m) + Times(u, n)
  {
    TimesIsProduct(u, m);
    TimesIsProduct(u, n);
    TimesIsProduct(u, m + n);
    assert u * (m + n) == u * m + u * n;
  }

  predicate NoDup<T(==)>(s: seq<T>) {
    forall i, j :: 0 <= i < j < |s| ==> s[i] != s[j]
  }
}
