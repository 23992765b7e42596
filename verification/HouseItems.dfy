/** saveItem, loadItem and loadContainer of src/iomapserialize.cpp: items nested to any depth in one stream. */
module HouseItems {
  import opened ItemTypes
  import opened PropStreams
  import opened ItemAttributeStream

  /** An item with its attributes and, for a container, its contents. */
  datatype Thing = Thing(id: nat, props: Props, items: seq<Thing>)

  /** The item type table; None where CreateItem makes no item. */
  type Types = nat -> Option<TypeInfo>

  // ----- the bytes of an item -----

  /** What saveItem writes; every item has a type. */
  function SaveBytes(types: Types, x: Thing): Bytes
    decreases x, 1
  {
    if types(x.id).None? then []
    else NumberBytes(x.id, 2) + (AllFieldBytes(Fields(types(x.id).value, x.props)) + ContentBytes(types, x))
  }

  /** What follows the attributes: the contents of a container, and the end. */
  function ContentBytes(types: Types, x: Thing): Bytes
    decreases x, 0
  {
    if types(x.id).Some? && types(x.id).value.isContainer then
      [ATTR_CONTAINER_ITEMS] + (NumberBytes(|x.items|, 4) + (SaveAllBytes(types, x.items) + [0]))
    else [0]
  }

  /** The items of a container, the last one first. */
  function SaveAllBytes(types: Types, xs: seq<Thing>): Bytes
    decreases xs
  {
    if xs == [] then []
    else SaveBytes(types, xs[|xs| - 1]) + SaveAllBytes(types, xs[..|xs| - 1])
  }

  // ----- reading -----

  /** loadItem: the item, if its type exists, and what is left; None where loadItem fails. */
  function TakeItem(types: Types, s: Bytes): (r: Option<(Option<Thing>, Bytes)>)
    ensures r.Some? ==> |r.value.1| < |s|
    decreases |s|, 0
  {
    var id := TakeNumber(s, 2);
    if id.None? then None
    else if types(id.value.0).None? then Some((None, id.value.1))
    else
      var info := types(id.value.0).value;
      match TakeAttrs(info, info.created, id.value.1)
      case AttrError => None
      case AttrDone(props, n, rest) =>
        if !info.isContainer then Some((Some(Thing(id.value.0, props, [])), rest))
        else
          var items := TakeItems(types, rest, n, []);
          if items.None? || items.value.1 == [] || items.value.1[0] != 0 then None
          else Some((Some(Thing(id.value.0, props, items.value.0)), items.value.1[1..]))
  }

  /** The loop of loadContainer: n items, each put in front of those before it. */
  function TakeItems(types: Types, s: Bytes, n: nat, list: seq<Thing>): (r: Option<(seq<Thing>, Bytes)>)
    ensures r.Some? ==> |r.value.1| <= |s|
    decreases |s|, 1
  {
    if n == 0 then Some((list, s))
    else
      var x := TakeItem(types, s);
      if x.None? then None
      else TakeItems(types, x.value.1, n - 1, if x.value.0.Some? then [x.value.0.value] + list else list)
  }

  // ----- what comes back -----

  /** Items whose sizes the format can hold; only containers have contents. */
  predicate Storable(types: Types, x: Thing)
    decreases x, 0
  {
    && types(x.id).Some? && x.id < 65536 && Sized(x.props) && |x.items| < 0x1_0000_0000
    && (!types(x.id).value.isContainer ==> x.items == [])
    && AllStorable(types, x.items)
  }

  predicate AllStorable(types: Types, xs: seq<Thing>)
    decreases xs
  {
    xs != [] ==> Storable(types, xs[|xs| - 1]) && AllStorable(types, xs[..|xs| - 1])
  }

  /** A blank custom value somewhere in x. */
  predicate Blanked(x: Thing)
    decreases x, 0
  {
    HasBlank(x.props) || AnyBlanked(x.items)
  }

  predicate AnyBlanked(xs: seq<Thing>)
    decreases xs
  {
    xs != [] && (Blanked(xs[|xs| - 1]) || AnyBlanked(xs[..|xs| - 1]))
  }

  /** The item with the attributes that come back, at every depth. */
  function Renewed(types: Types, x: Thing): Thing
    requires Storable(types, x)
    decreases x, 0
  {
    Thing(x.id, Restored(types(x.id).value, x.props), RenewedAll(types, x.items))
  }

  function RenewedAll(types: Types, xs: seq<Thing>): (r: seq<Thing>)
    requires AllStorable(types, xs)
    ensures |r| == |xs|
    decreases xs
  {
    if xs == [] then []
    else RenewedAll(types, xs[..|xs| - 1]) + [Renewed(types, xs[|xs| - 1])]
  }

  lemma TakeItemOf(types: Types, s: Bytes, id: nat, s1: Bytes, info: TypeInfo)
    requires TakeNumber(s, 2) == Some((id, s1)) && types(id) == Some(info)
    ensures TakeAttrs(info, info.created, s1).AttrError? ==> TakeItem(types, s).None?
    ensures TakeAttrs(info, info.created, s1).AttrDone? && !info.isContainer ==>
              var done := TakeAttrs(info, info.created, s1);
              TakeItem(types, s) == Some((Some(Thing(id, done.props, [])), done.rest))
    ensures TakeAttrs(info, info.created, s1).AttrDone? && info.isContainer ==>
              var done := TakeAttrs(info, info.created, s1);
              var items := TakeItems(types, done.rest, done.serializationCount, []);
              TakeItem(types, s) ==
              if items.None? || items.value.1 == [] || items.value.1[0] != 0 then None
              else Some((Some(Thing(id, done.props, items.value.0)), items.value.1[1..]))
  {
  }

  /** The bytes of the contents, read as what follows the attributes. */
  lemma ContentRead(info: TypeInfo, p: Props, count: nat, contents: Bytes)
    requires info.isContainer && count < 0x1_0000_0000
    ensures TakeAttrs(info, p, [ATTR_CONTAINER_ITEMS] + (NumberBytes(count, 4) + contents))
            == AttrDone(p, count, contents)
  {
    assert Limit(4) == 0x1_0000_0000;
    SmallMod(count, 0x1_0000_0000);
    NumberComesBack(count, 4, contents);
    HeadThen([ATTR_CONTAINER_ITEMS], NumberBytes(count, 4) + contents);
  }

  lemma EndRead(info: TypeInfo, p: Props, rest: Bytes)
    ensures TakeAttrs(info, p, [0] + rest) == AttrDone(p, 0, rest)
  {
    HeadThen([0], rest);
  }

  /**
   Loading what was saved, whatever follows it: the item with the attributes that the format keeps and its
   contents in their order, and exactly the bytes that follow. It fails exactly for blank custom values.
   */
  lemma {:induction false} RoundTrip(types: Types, x: Thing, rest: Bytes)
    requires Storable(types, x)
    ensures TakeItem(types, SaveBytes(types, x) + rest)
         == if Blanked(x) then None else Some((Some(Renewed(types, x)), rest))
    decreases x, 1
  {
    var info := types(x.id).value;
    var attrs, content := AllFieldBytes(Fields(info, x.props)), ContentBytes(types, x);
    assert Limit(2) == 65536;
    SmallMod(x.id, 65536);
    NumberComesBack(x.id, 2, attrs + content + rest);
    Regroup(NumberBytes(x.id, 2), attrs + content, rest, []);
    Regroup(attrs, content, rest, []);
    AttrsComeBack(info, x.props, content + rest);
    TakeItemOf(types, SaveBytes(types, x) + rest, x.id, attrs + content + rest, info);
    if !HasBlank(x.props) {
      if info.isContainer {
        ContainerComesBack(types, x, rest);
      } else {
        EndRead(info, Restored(info, x.props), rest);
      }
    }
  }

  lemma {:induction false} ContainerComesBack(types: Types, x: Thing, rest: Bytes)
    requires Storable(types, x) && types(x.id).value.isContainer && !HasBlank(x.props)
    ensures var info := types(x.id).value;
            var s := SaveAllBytes(types, x.items) + [0] + rest;
            && TakeAttrs(info, Restored(info, x.props), ContentBytes(types, x) + rest)
               == AttrDone(Restored(info, x.props), |x.items|, s)
            && TakeItems(types, s, |x.items|, []) ==
                 if AnyBlanked(x.items) then None else Some((RenewedAll(types, x.items), [0] + rest))
    decreases x, 0
  {
    var info := types(x.id).value;
    var all := SaveAllBytes(types, x.items);
    Regroup([ATTR_CONTAINER_ITEMS], NumberBytes(|x.items|, 4), all + [0], rest);
    Regroup(all, [0], rest, []);
    ContentRead(info, Restored(info, x.props), |x.items|, all + [0] + rest);
    AllComeBack(types, x.items, [], [0] + rest);
    if !AnyBlanked(x.items) {
      assert RenewedAll(types, x.items) + [] == RenewedAll(types, x.items);
    }
  }

  lemma {:induction false} AllComeBack(types: Types, xs: seq<Thing>, list: seq<Thing>, rest: Bytes)
    requires AllStorable(types, xs)
    ensures TakeItems(types, SaveAllBytes(types, xs) + rest, |xs|, list)
         == if AnyBlanked(xs) then None else Some((RenewedAll(types, xs) + list, rest))
    decreases xs
  {
    if xs == [] {
      assert SaveAllBytes(types, xs) + rest == rest && RenewedAll(types, xs) + list == list;
    } else {
      var last, front := xs[|xs| - 1], xs[..|xs| - 1];
      var more := SaveAllBytes(types, front) + rest;
      RoundTrip(types, last, more);
      Regroup(SaveBytes(types, last), SaveAllBytes(types, front), rest, []);
      TakeItemsOf(types, SaveBytes(types, last) + more, |xs|, list);
      if !Blanked(last) {
        var y := Renewed(types, last);
        AllComeBack(types, front, [y] + list, rest);
        OneBetween(RenewedAll(types, front), y, list);
      }
    }
  }

  lemma OneBetween<T>(front: seq<T>, y: T, list: seq<T>)
    ensures front + [y] + list == front + ([y] + list)
  {
  }

  lemma TakeItemsOf(types: Types, s: Bytes, n: nat, list: seq<Thing>)
    requires n > 0
    ensures var x := TakeItem(types, s);
            TakeItems(types, s, n, list) ==
            if x.None? then None
            else TakeItems(types, x.value.1, n - 1, if x.value.0.Some? then [x.value.0.value] + list else list)
  {
  }

  /** Saving and loading gives the item itself exactly when the format keeps its attributes, at every depth. */
  lemma {:induction false} KeptComesBack(types: Types, x: Thing)
    requires Storable(types, x) && Sound(types, x)
    ensures Renewed(types, x) == x <==> AllKept(types, x)
    decreases x, 0
  {
    KeptIsRestored(types(x.id).value, x.props);
    KeptAllComeBack(types, x.items);
  }

  lemma {:induction false} KeptAllComeBack(types: Types, xs: seq<Thing>)
    requires AllStorable(types, xs) && AllSound(types, xs)
    ensures RenewedAll(types, xs) == xs <==> EachKept(types, xs)
    decreases xs
  {
    if xs != [] {
      var front, last := xs[..|xs| - 1], xs[|xs| - 1];
      KeptAllComeBack(types, front);
      LastKept(types, xs, last);
      SameParts(RenewedAll(types, front), Renewed(types, last), xs);
    }
  }

  lemma SameParts<T>(front: seq<T>, last: T, xs: seq<T>)
    requires xs != [] && |front| == |xs| - 1
    ensures front + [last] == xs <==> front == xs[..|xs| - 1] && last == xs[|xs| - 1]
  {
    if front + [last] == xs {
      assert (front + [last])[..|front|] == front && (front + [last])[|front|] == last;
    }
    assert xs == xs[..|xs| - 1] + [xs[|xs| - 1]];
  }

  lemma LastKept(types: Types, xs: seq<Thing>, last: Thing)
    requires AllStorable(types, xs) && AllSound(types, xs) && xs != [] && last == xs[|xs| - 1]
    ensures Storable(types, last) && Sound(types, last)
    ensures Renewed(types, last) == last <==> AllKept(types, last)
    decreases last, 1
  {
    KeptComesBack(types, last);
  }

  /** The whole round trip: loading gives back the very item exactly when it is kept and no blank value is in it. */
  lemma ComesBackUnchanged(types: Types, x: Thing, rest: Bytes)
    requires Storable(types, x) && Sound(types, x)
    ensures TakeItem(types, SaveBytes(types, x) + rest) == Some((Some(x), rest))
         <==> AllKept(types, x) && !Blanked(x)
  {
    RoundTrip(types, x, rest);
    KeptComesBack(types, x);
  }

  /** What holds of any item of the server: counts are bytes, and new items have few attributes. */
  ghost predicate Sound(types: Types, x: Thing)
    requires Storable(types, x)
    decreases x, 0
  {
    CreatedOk(types(x.id).value) && x.props.count < 256 && AllSound(types, x.items)
  }

  ghost predicate AllSound(types: Types, xs: seq<Thing>)
    requires AllStorable(types, xs)
    decreases xs
  {
    xs != [] ==> Sound(types, xs[|xs| - 1]) && AllSound(types, xs[..|xs| - 1])
  }

  ghost predicate AllKept(types: Types, x: Thing)
    requires Storable(types, x)
    decreases x, 0
  {
    var info := types(x.id).value;
    && CountKept(info, x.props) && NumsKept(info, x.props) && TextsKept(x.props) && CustomKept(x.props)
    && EachKept(types, x.items)
  }

  ghost predicate EachKept(types: Types, xs: seq<Thing>)
    requires AllStorable(types, xs)
    decreases xs
  {
    xs != [] ==> AllKept(types, xs[|xs| - 1]) && EachKept(types, xs[..|xs| - 1])
  }

  // ----- any bytes: what is read is a beginning of them -----

  /** rest is the end of s. */
  ghost predicate EndsWith(s: Bytes, rest: Bytes) {
    |rest| <= |s| && s[|s| - |rest|..] == rest
  }

  lemma EndOfEnd(s: Bytes, t: Bytes, rest: Bytes)
    requires EndsWith(s, t) && EndsWith(t, rest)
    ensures EndsWith(s, rest)
  {
    var k := |t| - |rest|;
    assert s[|s| - |t|..][k..] == s[|s| - |t| + k..];
  }

  lemma TailEnds(s: Bytes, n: nat)
    requires n <= |s|
    ensures EndsWith(s, s[n..])
  {
  }

  lemma NumberEnds(s: Bytes, n: nat)
    ensures TakeNumber(s, n).Some? ==> EndsWith(s, TakeNumber(s, n).value.1)
  {
  }

  lemma StringEnds(s: Bytes)
    ensures TakeString(s).Some? ==> EndsWith(s, TakeString(s).value.1)
  {
    StringTaken(s);
  }

  lemma CustomValueEnds(s: Bytes)
    ensures TakeCustomValue(s).Some? ==> EndsWith(s, TakeCustomValue(s).value.1)
  {
    if TakeCustomValue(s).Some? {
      TailEnds(s, 1);
      StringEnds(s[1..]);
      EndOfEnd(s, s[1..], TakeCustomValue(s).value.1);
    }
  }

  /** rest is left when n entries have been read. */
  ghost predicate EntriesLeave(s: Bytes, n: nat, rest: Bytes) {
    TakeEntries(s, n).Some? && TakeEntries(s, n).value.1 == rest
  }

  /** One entry, and then the others. */
  lemma EntryTaken(s: Bytes, n: nat, rest: Bytes) returns (s1: Bytes, s2: Bytes)
    requires n > 0 && EntriesLeave(s, n, rest)
    ensures EndsWith(s, s1) && EndsWith(s1, s2) && EntriesLeave(s2, n - 1, rest)
  {
    s1 := TakeString(s).value.1;
    s2 := TakeCustomValue(s1).value.1;
    StringEnds(s);
    CustomValueEnds(s1);
  }

  lemma {:induction false} EntriesEnd(s: Bytes, n: nat, rest: Bytes)
    requires EntriesLeave(s, n, rest)
    ensures EndsWith(s, rest)
    decreases n
  {
    if n > 0 {
      var s1, s2 := EntryTaken(s, n, rest);
      EntriesEnd(s2, n - 1, rest);
      EndOfEnd(s, s1, s2);
      EndOfEnd(s, s2, rest);
    }
  }

  lemma FieldEnds(tag: byte, s: Bytes)
    ensures TakeField(tag, s).Some? ==> EndsWith(s, TakeField(tag, s).value.1)
  {
    StringEnds(s);
    if FormatOf(tag).CustomFormat? && TakeField(tag, s).Some? {
      var (n, s1) := TakeNumber(s, 8).value;
      var rest := TakeField(tag, s).value.1;
      EntriesEnd(s1, n, rest);
      EndOfEnd(s, s1, rest);
    }
  }

  /** Attributes are read up to a zero byte, the contents of a container, or the end of the stream. */
  lemma {:induction false} AttrsEnd(info: TypeInfo, p: Props, s: Bytes)
    ensures var done := TakeAttrs(info, p, s);
            done.AttrDone? ==>
              && EndsWith(s, done.rest)
              && (|done.rest| < |s| || done.rest == [])
              && (!info.isContainer && done.rest != [] ==> s[|s| - |done.rest| - 1] == 0)
    decreases |s|
  {
    if s != [] && s[0] != 0 && TakeAttrs(info, p, s).AttrDone? {
      var rest := TakeAttrs(info, p, s).rest;
      TailEnds(s, 1);
      if s[0] == ATTR_CONTAINER_ITEMS {
        EndOfEnd(s, s[1..], rest);
      } else {
        var f := TakeField(s[0], s[1..]).value;
        FieldEnds(s[0], s[1..]);
        EndOfEnd(s, s[1..], f.1);
        AttrsEnd(info, Apply(info, p, f.0), f.1);
        EndOfEnd(s, f.1, rest);
        if rest != [] {
          SameByte(s, f.1, |rest| + 1);
        }
      }
    }
  }

  lemma SameByte(s: Bytes, t: Bytes, k: nat)
    requires EndsWith(s, t) && 0 < k <= |t|
    ensures s[|s| - k] == t[|t| - k]
  {
    assert s[|s| - |t|..][|t| - k] == s[|s| - k];
  }

  /** An item, or none of an unknown type, has taken a beginning of s; a zero byte or the end of s ends an item. */
  ghost predicate Taken(types: Types, s: Bytes, x: Option<Thing>, rest: Bytes) {
    && EndsWith(s, rest) && |rest| + 2 <= |s|
    && (x.Some? ==>
          && types(x.value.id).Some?
          && (types(x.value.id).value.isContainer || rest != [] ==> s[|s| - |rest| - 1] == 0))
  }

  /**
   Whatever the bytes are, an item takes a beginning of them. A container ends with a zero byte; anything else ends
   with one or with the stream.
   */
  lemma {:induction false} ItemEnds(types: Types, s: Bytes)
    requires TakeItem(types, s).Some?
    ensures Taken(types, s, TakeItem(types, s).value.0, TakeItem(types, s).value.1)
    decreases |s|, 0
  {
    var (id, s1) := TakeNumber(s, 2).value;
    NumberEnds(s, 2);
    if types(id).Some? {
      KnownItemEnds(types, s, id, s1, types(id).value);
    }
  }

  lemma {:induction false} KnownItemEnds(types: Types, s: Bytes, id: nat, s1: Bytes, info: TypeInfo)
    requires TakeNumber(s, 2) == Some((id, s1)) && types(id) == Some(info) && TakeItem(types, s).Some?
    ensures Taken(types, s, TakeItem(types, s).value.0, TakeItem(types, s).value.1)
    decreases |s1|, 3
  {
    var done := TakeAttrs(info, info.created, s1);
    NumberEnds(s, 2);
    TakeItemOf(types, s, id, s1, info);
    AttrsEnd(info, info.created, s1);
    EndOfEnd(s, s1, done.rest);
    if info.isContainer {
      ContentsEnd(types, s, done.rest, done.serializationCount);
    } else if done.rest != [] {
      SameByte(s, s1, |done.rest| + 1);
    }
  }

  lemma {:induction false} ContentsEnd(types: Types, s: Bytes, s1: Bytes, n: nat)
    requires EndsWith(s, s1) && |s1| < |s| && TakeItems(types, s1, n, []).Some?
    requires TakeItems(types, s1, n, []).value.1 != [] && TakeItems(types, s1, n, []).value.1[0] == 0
    ensures var rest := TakeItems(types, s1, n, []).value.1[1..];
            EndsWith(s, rest) && |rest| + 1 <= |s1| && s[|s| - |rest| - 1] == 0
    decreases |s1|, 2
  {
    var s2 := TakeItems(types, s1, n, []).value.1;
    ItemsEnd(types, s1, n, []);
    TailEnds(s2, 1);
    EndOfEnd(s, s1, s2);
    EndOfEnd(s, s2, s2[1..]);
    SameByte(s, s2, |s2|);
  }

  lemma {:induction false} ItemsEnd(types: Types, s: Bytes, n: nat, list: seq<Thing>)
    ensures TakeItems(types, s, n, list).Some? ==> EndsWith(s, TakeItems(types, s, n, list).value.1)
    decreases |s|, 1
  {
    if n > 0 && TakeItems(types, s, n, list).Some? {
      var x := TakeItem(types, s).value;
      ItemEnds(types, s);
      ItemsEnd(types, x.1, n - 1, if x.0.Some? then [x.0.value] + list else list);
      EndOfEnd(s, x.1, TakeItems(types, s, n, list).value.1);
    }
  }

  /** An item of a type that does not exist is passed over, and loading goes on. */
  lemma UnknownTypeIsPassed(types: Types, id: nat, rest: Bytes)
    requires id < 65536 && types(id).None?
    ensures TakeItem(types, NumberBytes(id, 2) + rest) == Some((None, rest))
  {
    assert Limit(2) == 65536;
    SmallMod(id, 65536);
    NumberComesBack(id, 2, rest);
  }

  /** But only its id is passed over: when a type is lost, the attributes of its items are read as if items. */
  lemma LostTypeLeavesBytes(types: Types, types': Types, x: Thing, rest: Bytes)
    requires Storable(types, x) && types'(x.id).None?
    ensures var left := AllFieldBytes(Fields(types(x.id).value, x.props)) + ContentBytes(types, x) + rest;
            TakeItem(types', SaveBytes(types, x) + rest) == Some((None, left)) && |left| > |rest|
  {
    var attrs, content := AllFieldBytes(Fields(types(x.id).value, x.props)), ContentBytes(types, x);
    UnknownTypeIsPassed(types', x.id, attrs + content + rest);
    Regroup(NumberBytes(x.id, 2), attrs + content, rest, []);
  }

  // ----- the methods over the streams -----

  method SaveItem(stream: PropWriteStream, types: Types, item: Thing)
    requires Storable(types, item)
    modifies stream
    ensures stream.buffer == old(stream.buffer) + SaveBytes(types, item)
    decreases item, 1
  {
    ghost var start := stream.buffer;
    var info := types(item.id).value;
    ghost var attrs, content := AllFieldBytes(Fields(info, item.props)), ContentBytes(types, item);
    stream.Write(item.id, 2);
    SerializeAttr(stream, info, item.props);
    Appended(start, NumberBytes(item.id, 2), attrs);
    if info.isContainer {
      WriteByte(stream, ATTR_CONTAINER_ITEMS);
      stream.Write(|item.items|, 4);
      SaveContents(stream, types, item.items);
    }
    WriteByte(stream, 0);
    ghost var before := start + NumberBytes(item.id, 2) + attrs;
    if info.isContainer {
      Regroup(before + [ATTR_CONTAINER_ITEMS], NumberBytes(|item.items|, 4), SaveAllBytes(types, item.items), [0]);
      Appended(before, [ATTR_CONTAINER_ITEMS], NumberBytes(|item.items|, 4) + (SaveAllBytes(types, item.items) + [0]));
    }
    Regroup(start, NumberBytes(item.id, 2), attrs, content);
  }

  lemma LastFirst(types: Types, items: seq<Thing>, it: nat)
    requires it < |items| && AllStorable(types, items[..it + 1])
    ensures Storable(types, items[it]) && AllStorable(types, items[..it])
    ensures SaveAllBytes(types, items[..it + 1]) == SaveBytes(types, items[it]) + SaveAllBytes(types, items[..it])
  {
    var front := items[..it + 1];
    assert front[|front| - 1] == items[it] && front[..|front| - 1] == items[..it];
  }

  /** The loop of saveItem, from the last item of a container to the first. */
  method SaveContents(stream: PropWriteStream, types: Types, items: seq<Thing>)
    requires AllStorable(types, items)
    modifies stream
    ensures stream.buffer == old(stream.buffer) + SaveAllBytes(types, items)
    decreases items
  {
    ghost var start := stream.buffer;
    ghost var done: Bytes := [];
    var it := |items|;
    assert items[..it] == items && [] + SaveAllBytes(types, items) == SaveAllBytes(types, items);
    while it > 0
      invariant 0 <= it <= |items| && AllStorable(types, items[..it])
      invariant stream.buffer == start + done && done + SaveAllBytes(types, items[..it]) == SaveAllBytes(types, items)
    {
      it := it - 1;
      LastFirst(types, items, it);
      SaveItem(stream, types, items[it]);
      Appended(start, done, SaveBytes(types, items[it]));
      Appended(done, SaveBytes(types, items[it]), SaveAllBytes(types, items[..it]));
      done := done + SaveBytes(types, items[it]);
    }
    assert done + [] == done;
  }

  method LoadItem(stream: PropStream, types: Types) returns (ok: bool, item: Option<Thing>)
    requires stream.Valid()
    modifies stream`p
    ensures stream.Valid() && (ok <==> TakeItem(types, old(stream.Rest())).Some?)
    ensures ok ==> TakeItem(types, old(stream.Rest())) == Some((item, stream.Rest()))
    decreases |stream.Rest()|, 1
  {
    item := None;
    var id;
    ok, id := stream.Read(2);
    if !ok {
      return;
    }
    if types(id).None? {
      return true, None;
    }
    var info := types(id).value;
    var props, serializationCount;
    ok, props, serializationCount := UnserializeAttr(stream, info, info.created);
    if !ok {
      return;
    }
    var items := [];
    if info.isContainer {
      ok, items := LoadContainer(stream, types, serializationCount);
      if !ok {
        return;
      }
    }
    item := Some(Thing(id, props, items));
  }

  method LoadContainer(stream: PropStream, types: Types, serializationCount: nat)
    returns (ok: bool, itemlist: seq<Thing>)
    requires stream.Valid()
    modifies stream`p
    ensures stream.Valid()
    ensures var items := TakeItems(types, old(stream.Rest()), serializationCount, []);
            if items.None? || items.value.1 == [] || items.value.1[0] != 0 then !ok
            else ok && itemlist == items.value.0 && stream.Rest() == items.value.1[1..]
    decreases |stream.Rest()|, 2
  {
    ghost var all := TakeItems(types, stream.Rest(), serializationCount, []);
    itemlist := [];
    var left := serializationCount;
    while left > 0
      invariant 0 <= left <= serializationCount && stream.Valid() && |stream.Rest()| <= |old(stream.Rest())|
      invariant left < serializationCount ==> |stream.Rest()| < |old(stream.Rest())|
      invariant all == TakeItems(types, stream.Rest(), left, itemlist)
    {
      TakeItemsOf(types, stream.Rest(), left, itemlist);
      var item;
      ok, item := LoadItem(stream, types);
      if !ok {
        return;
      }
      if item.Some? {
        itemlist := [item.value] + itemlist;
      }
      left := left - 1;
    }
    var endAttr;
    ok, endAttr := ReadByte(stream);
    ok := ok && endAttr == 0;
  }
}
