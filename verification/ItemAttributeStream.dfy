/** serializeAttr and unserializeAttr of src/item.cpp: tagged fields, ended by a zero byte. */
module ItemAttributeStream {
  import opened ItemTypes
  import opened PropStreams

  // attribute bits of src/enums.h
  const BIT_ACTIONID: nat := 0
  const BIT_DESCRIPTION: nat := 2
  const BIT_TEXT: nat := 3
  const BIT_DATE: nat := 4
  const BIT_WRITER: nat := 5
  const BIT_NAME: nat := 6
  const BIT_ARTICLE: nat := 7
  const BIT_PLURALNAME: nat := 8
  const BIT_WEIGHT: nat := 9
  const BIT_ATTACK: nat := 10
  const BIT_DEFENSE: nat := 11
  const BIT_EXTRADEFENSE: nat := 12
  const BIT_ARMOR: nat := 13
  const BIT_HITCHANCE: nat := 14
  const BIT_SHOOTRANGE: nat := 15
  const BIT_DURATION: nat := 17
  const BIT_DECAYSTATE: nat := 18
  const BIT_CHARGES: nat := 20
  const BIT_FLUIDTYPE: nat := 21
  const BIT_DECAYTO: nat := 23
  const BIT_WRAPID: nat := 24
  const BIT_STOREITEM: nat := 25
  const BIT_ATTACK_SPEED: nat := 26
  const BIT_OPENCONTAINER: nat := 27

  // tags of src/item.h
  const ATTR_ACTION_ID: byte := 4
  const ATTR_UNIQUE_ID: byte := 5
  const ATTR_TEXT: byte := 6
  const ATTR_DESC: byte := 7
  const ATTR_TELE_DEST: byte := 8
  const ATTR_DEPOT_ID: byte := 10
  const ATTR_RUNE_CHARGES: byte := 12
  const ATTR_HOUSEDOORID: byte := 14
  const ATTR_COUNT: byte := 15
  const ATTR_DURATION: byte := 16
  const ATTR_DECAYING_STATE: byte := 17
  const ATTR_WRITTENDATE: byte := 18
  const ATTR_WRITTENBY: byte := 19
  const ATTR_SLEEPERGUID: byte := 20
  const ATTR_SLEEPSTART: byte := 21
  const ATTR_CHARGES: byte := 22
  const ATTR_CONTAINER_ITEMS: byte := 23
  const ATTR_NAME: byte := 24
  const ATTR_ARTICLE: byte := 25
  const ATTR_PLURALNAME: byte := 26
  const ATTR_WEIGHT: byte := 27
  const ATTR_ATTACK: byte := 28
  const ATTR_DEFENSE: byte := 29
  const ATTR_EXTRADEFENSE: byte := 30
  const ATTR_ARMOR: byte := 31
  const ATTR_HITCHANCE: byte := 32
  const ATTR_SHOOTRANGE: byte := 33
  const ATTR_CUSTOM_ATTRIBUTES: byte := 34
  const ATTR_DECAYTO: byte := 35
  const ATTR_WRAPID: byte := 36
  const ATTR_STOREITEM: byte := 37
  const ATTR_ATTACK_SPEED: byte := 38
  const ATTR_OPENCONTAINER: byte := 39
  const ATTR_PODIUMOUTFIT: byte := 40

  const DECAYING_TRUE: int := 1
  const DECAYING_PENDING: int := 2

  /** One value of the custom attribute map: the variant of src/item.h, a double by its eight bytes. */
  datatype CustomValue =
    | Blank
    | CustomText(s: Bytes)
    | CustomInt(i: int)
    | CustomDouble(bits: nat)
    | CustomBool(b: bool)

  type Entry = (Bytes, CustomValue)

  /**
   The count and the attributes of one item, by attribute bit. The custom map is listed in its order of
   iteration, which carries no meaning.
   */
  datatype Props = Props(count: nat, nums: map<nat, int>, texts: map<nat, Bytes>, custom: Option<seq<Entry>>)

  /** What the item type table says, and the attributes that CreateItem gives a new item. */
  datatype TypeInfo = TypeInfo(
    isContainer: bool, isFluid: bool, stackable: bool, hasCharges: bool, moveable: bool, created: Props)

  /** One tagged field of the stream. */
  datatype Field =
    | NumField(tag: byte, v: nat)
    | TextField(tag: byte, s: Bytes)
    | CustomField(entries: seq<Entry>)
    | Skipped

  datatype Format = NumFormat(width: nat) | TextFormat | CustomFormat | SkipFormat(n: nat) | BadFormat

  /** What Item::readAttr reads behind a tag. */
  function FormatOf(tag: byte): Format {
    if tag in {ATTR_COUNT, ATTR_RUNE_CHARGES, ATTR_DECAYING_STATE, ATTR_HITCHANCE, ATTR_SHOOTRANGE, ATTR_STOREITEM,
        ATTR_OPENCONTAINER} then
      NumFormat(1)
    else if tag in {ATTR_ACTION_ID, ATTR_UNIQUE_ID, ATTR_CHARGES, ATTR_WRAPID} then NumFormat(2)
    else if tag in {ATTR_WRITTENDATE, ATTR_DURATION, ATTR_WEIGHT, ATTR_ATTACK, ATTR_ATTACK_SPEED, ATTR_DEFENSE,
        ATTR_EXTRADEFENSE, ATTR_ARMOR, ATTR_DECAYTO} then
      NumFormat(4)
    else if tag in {ATTR_TEXT, ATTR_WRITTENBY, ATTR_DESC, ATTR_NAME, ATTR_ARTICLE, ATTR_PLURALNAME} then TextFormat
    else if tag == ATTR_CUSTOM_ATTRIBUTES then CustomFormat
    else if tag == ATTR_HOUSEDOORID then SkipFormat(1)
    else if tag == ATTR_DEPOT_ID then SkipFormat(2)
    else if tag in {ATTR_SLEEPERGUID, ATTR_SLEEPSTART} then SkipFormat(4)
    else if tag == ATTR_TELE_DEST then SkipFormat(5)
    else if tag == ATTR_PODIUMOUTFIT then SkipFormat(15)
    else BadFormat
  }

  // ----- reading -----

  function TakeCustomValue(s: Bytes): (r: Option<(CustomValue, Bytes)>)
    ensures r.Some? ==> |r.value.1| < |s|
  {
    if s == [] then None
    else if s[0] == 1 then
      var text := TakeString(s[1..]);
      if text.None? then None else Some((CustomText(text.value.0), text.value.1))
    else if s[0] == 2 then
      var n := TakeNumber(s[1..], 8);
      if n.None? then None else Some((CustomInt(Signed(n.value.0, 8)), n.value.1))
    else if s[0] == 3 then
      var n := TakeNumber(s[1..], 8);
      if n.None? then None else Some((CustomDouble(n.value.0), n.value.1))
    else if s[0] == 4 then
      var n := TakeNumber(s[1..], 1);
      if n.None? then None else Some((CustomBool(n.value.0 != 0), n.value.1))
    else None
  }

  function TakeEntries(s: Bytes, n: nat): (r: Option<(seq<Entry>, Bytes)>)
    ensures r.Some? ==> |r.value.1| <= |s|
    decreases n
  {
    if n == 0 then Some(([], s))
    else
      var key := TakeString(s);
      if key.None? then None
      else
        var value := TakeCustomValue(key.value.1);
        if value.None? then None
        else
          var more := TakeEntries(value.value.1, n - 1);
          if more.None? then None
          else Some(([(key.value.0, value.value.0)] + more.value.0, more.value.1))
  }

  function TakeField(tag: byte, s: Bytes): (r: Option<(Field, Bytes)>)
    ensures r.Some? ==> |r.value.1| <= |s|
  {
    match FormatOf(tag)
    case NumFormat(width) =>
      var n := TakeNumber(s, width);
      if n.None? then None else Some((NumField(tag, n.value.0), n.value.1))
    case TextFormat =>
      var text := TakeString(s);
      if text.None? then None else Some((TextField(tag, text.value.0), text.value.1))
    case CustomFormat =>
      var n := TakeNumber(s, 8);
      if n.None? then None
      else
        var entries := TakeEntries(n.value.1, n.value.0);
        if entries.None? then None else Some((CustomField(entries.value.0), entries.value.1))
    case SkipFormat(n) => if |s| < n then None else Some((Skipped, s[n..]))
    case BadFormat => None
  }

  function SetNum(p: Props, bit: nat, v: int): Props {
    p.(nums := p.nums[bit := if bit == BIT_ATTACK_SPEED && v < 100 then 100 else v])
  }

  /** setStrAttr: an empty string is not set. */
  function SetText(p: Props, bit: nat, s: Bytes): Props {
    if s == [] then p else p.(texts := p.texts[bit := s])
  }

  function SetSubType(info: TypeInfo, p: Props, n: nat): Props {
    if info.isFluid then SetNum(p, BIT_FLUIDTYPE, n)
    else if info.stackable then p.(count := n % 256)
    else if info.hasCharges then SetNum(p, BIT_CHARGES, n)
    else p.(count := n % 256)
  }

  function Lower(key: Bytes): Bytes {
    seq(|key|, i requires 0 <= i < |key| => if 65 <= key[i] <= 90 then key[i] + 32 else key[i])
  }

  const UPPERCASE: string := "ABCDEFGHIJKLMNOPQRSTUVWXYZ"
  const LOWERCASE: string := "abcdefghijklmnopqrstuvwxyz"

  /** Capital letters of a key become small ones; every other byte stays. */
  lemma LowerIs(key: Bytes, k: nat, v: nat)
    requires k < |key| && v < 26
    ensures |Lower(key)| == |key|
    ensures key[k] as int == UPPERCASE[v] as int ==> Lower(key)[k] as int == LOWERCASE[v] as int
    ensures !(65 <= key[k] <= 90) ==> Lower(key)[k] == key[k]
  {
    var upper, lower := UPPERCASE, LOWERCASE;
    assert forall i | 0 <= i < 26 :: upper[i] as int == 65 + i && lower[i] as int == 97 + i;
  }

  function Without(entries: seq<Entry>, key: Bytes): seq<Entry> {
    if entries == [] then []
    else (if entries[0].0 == key then [] else [entries[0]]) + Without(entries[1..], key)
  }

  /** setCustomAttribute */
  function SetCustom(p: Props, e: Entry): Props {
    var key := Lower(e.0);
    var others := if p.custom.Some? then Without(p.custom.value, key) else [];
    p.(custom := Some(others + [(key, e.1)]))
  }

  function SetAllCustom(p: Props, entries: seq<Entry>): Props
    decreases entries
  {
    if entries == [] then p else SetAllCustom(SetCustom(p, entries[0]), entries[1..])
  }

  function TextBit(tag: byte): nat {
    if tag == ATTR_TEXT then BIT_TEXT else if tag == ATTR_WRITTENBY then BIT_WRITER
    else if tag == ATTR_DESC then BIT_DESCRIPTION else if tag == ATTR_NAME then BIT_NAME
    else if tag == ATTR_ARTICLE then BIT_ARTICLE else BIT_PLURALNAME
  }

  function NumBit(tag: byte): nat {
    if tag == ATTR_ACTION_ID then BIT_ACTIONID else if tag == ATTR_WRITTENDATE then BIT_DATE
    else if tag == ATTR_DURATION then BIT_DURATION else if tag == ATTR_DECAYING_STATE then BIT_DECAYSTATE
    else if tag == ATTR_WEIGHT then BIT_WEIGHT else if tag == ATTR_ATTACK then BIT_ATTACK
    else if tag == ATTR_ATTACK_SPEED then BIT_ATTACK_SPEED else if tag == ATTR_DEFENSE then BIT_DEFENSE
    else if tag == ATTR_EXTRADEFENSE then BIT_EXTRADEFENSE else if tag == ATTR_ARMOR then BIT_ARMOR
    else if tag == ATTR_HITCHANCE then BIT_HITCHANCE else if tag == ATTR_SHOOTRANGE then BIT_SHOOTRANGE
    else if tag == ATTR_DECAYTO then BIT_DECAYTO else if tag == ATTR_WRAPID then BIT_WRAPID
    else if tag == ATTR_STOREITEM then BIT_STOREITEM else BIT_OPENCONTAINER
  }

  /** The number that readAttr makes of the bytes behind a tag. */
  function Interpreted(tag: byte, v: nat): int {
    if tag in {ATTR_ATTACK, ATTR_DEFENSE, ATTR_EXTRADEFENSE, ATTR_ARMOR, ATTR_DECAYTO, ATTR_WRITTENDATE} then
        Signed(v, 4)
    else if tag == ATTR_HITCHANCE then Signed(v, 1)
    else if tag == ATTR_DURATION then (if Signed(v, 4) < 0 then 0 else Signed(v, 4))
    else if tag == ATTR_ACTION_ID then (if v < 100 then 100 else v)
    else if tag == ATTR_DECAYING_STATE then DECAYING_PENDING
    else v
  }

  /** What readAttr does with a field; the registry of unique ids is not modelled. */
  function Apply(info: TypeInfo, p: Props, f: Field): Props {
    match f
    case NumField(tag, v) =>
      if tag == ATTR_COUNT || tag == ATTR_RUNE_CHARGES || tag == ATTR_CHARGES then SetSubType(info, p, v)
      else if tag == ATTR_UNIQUE_ID || (tag == ATTR_DECAYING_STATE && v == 0) then p
      else SetNum(p, NumBit(tag), Interpreted(tag, v))
    case TextField(tag, s) => SetText(p, TextBit(tag), s)
    case CustomField(entries) => SetAllCustom(p, entries)
    case Skipped => p
  }

  function ApplyAll(info: TypeInfo, p: Props, fs: seq<Field>): Props
    decreases fs
  {
    if fs == [] then p else ApplyAll(info, Apply(info, p, fs[0]), fs[1..])
  }

  /** The outcome of unserializeAttr, with the number of items that a container announces. */
  datatype AttrResult = AttrError | AttrDone(props: Props, serializationCount: nat, rest: Bytes)

  function TakeAttrs(info: TypeInfo, p: Props, s: Bytes): (r: AttrResult)
    ensures r.AttrDone? ==> |r.rest| <= |s|
    decreases |s|
  {
    if s == [] then AttrDone(p, 0, [])
    else if s[0] == 0 then AttrDone(p, 0, s[1..])
    else if s[0] == ATTR_CONTAINER_ITEMS then
      var n := TakeNumber(s[1..], 4);
      if !info.isContainer || n.None? then AttrError else AttrDone(p, n.value.0, n.value.1)
    else
      var f := TakeField(s[0], s[1..]);
      if f.None? then AttrError else TakeAttrs(info, Apply(info, p, f.value.0), f.value.1)
  }

  // ----- writing -----

  function ValueBytes(v: CustomValue): Bytes {
    match v
    case Blank => [0]
    case CustomText(s) => [1] + StringBytes(s)
    case CustomInt(i) => [2] + NumberBytes(i, 8)
    case CustomDouble(bits) => [3] + NumberBytes(bits, 8)
    case CustomBool(b) => [4] + NumberBytes(if b then 1 else 0, 1)
  }

  function EntryBytes(entries: seq<Entry>): Bytes {
    if entries == [] then [] else StringBytes(entries[0].0) + ValueBytes(entries[0].1) + EntryBytes(entries[1..])
  }

  function FieldBytes(f: Field): Bytes {
    match f
    case NumField(tag, v) =>
      [tag] + NumberBytes(v, if FormatOf(tag).NumFormat? then FormatOf(tag).width else 0)
    case TextField(tag, s) => [tag] + StringBytes(s)
    case CustomField(entries) => [ATTR_CUSTOM_ATTRIBUTES] + NumberBytes(|entries|, 8) + EntryBytes(entries)
    case Skipped => []
  }

  function AllFieldBytes(fs: seq<Field>): Bytes {
    if fs == [] then [] else FieldBytes(fs[0]) + AllFieldBytes(fs[1..])
  }

  // ----- a field that was written is read back -----

  predicate ValueFits(v: CustomValue) {
    match v
    case Blank => false
    case CustomText(s) => |s| <= MAX_STRING
    case CustomInt(i) => 0 - Limit(8) <= 2 * i < Limit(8)
    case CustomDouble(bits) => bits < Limit(8)
    case CustomBool(_) => true
  }

  predicate FieldFits(f: Field) {
    match f
    case NumField(tag, v) => FormatOf(tag).NumFormat? && v < Limit(FormatOf(tag).width)
    case TextField(tag, s) => FormatOf(tag).TextFormat? && |s| <= MAX_STRING
    case CustomField(entries) =>
      |entries| < Limit(8) && EntriesFit(entries)
    case Skipped => false
  }

  lemma TagThen(tag: byte, payload: Bytes, rest: Bytes)
    ensures ([tag] + payload + rest)[0] == tag && ([tag] + payload + rest)[1..] == payload + rest
    ensures ([tag] + payload)[1..] == payload && ([tag] + payload)[0] == tag
  {
  }

  lemma IntComesBack(i: int, rest: Bytes)
    requires ValueFits(CustomInt(i))
    ensures TakeCustomValue(ValueBytes(CustomInt(i)) + rest) == Some((CustomInt(i), rest))
  {
    TagThen(2, NumberBytes(i, 8), rest);
    NumberComesBack(i, 8, rest);
    SignedNarrow(i, 8);
  }

  lemma DoubleComesBack(bits: nat, rest: Bytes)
    requires ValueFits(CustomDouble(bits))
    ensures TakeCustomValue(ValueBytes(CustomDouble(bits)) + rest) == Some((CustomDouble(bits), rest))
  {
    TagThen(3, NumberBytes(bits, 8), rest);
    NumberComesBack(bits, 8, rest);
    SmallMod(bits, Limit(8));
  }

  lemma BoolComesBack(b: bool, rest: Bytes)
    ensures TakeCustomValue(ValueBytes(CustomBool(b)) + rest) == Some((CustomBool(b), rest))
  {
    var n := if b then 1 else 0;
    TagThen(4, NumberBytes(n, 1), rest);
    NumberComesBack(n, 1, rest);
    assert Limit(1) == 256;
    SmallMod(n, 256);
  }

  predicate AllFit(fs: seq<Field>) {
    forall i {:trigger fs[i]} | 0 <= i < |fs| :: FieldFits(fs[i])
  }

  lemma ValueComesBack(v: CustomValue, rest: Bytes)
    requires ValueFits(v)
    ensures TakeCustomValue(ValueBytes(v) + rest) == Some((v, rest))
  {
    match v
    case CustomText(s) =>
      TagThen(1, StringBytes(s), rest);
      StringComesBack(s, rest);
    case CustomInt(i) => IntComesBack(i, rest);
    case CustomDouble(bits) => DoubleComesBack(bits, rest);
    case CustomBool(b) => BoolComesBack(b, rest);
  }

  predicate EntriesFit(entries: seq<Entry>) {
    forall i {:trigger entries[i]} | 0 <= i < |entries| :: |entries[i].0| <= MAX_STRING && ValueFits(entries[i].1)
  }

  lemma {:induction false} EntriesComeBack(entries: seq<Entry>, rest: Bytes)
    requires EntriesFit(entries)
    ensures TakeEntries(EntryBytes(entries) + rest, |entries|) == Some((entries, rest))
  {
    if entries == [] {
      assert EntryBytes(entries) + rest == rest;
    } else {
      var key, v, others := entries[0].0, entries[0].1, entries[1..];
      assert [(key, v)] + others == entries;
      EntriesComeBack(others, rest);
      var more := EntryBytes(others) + rest;
      ValueComesBack(v, more);
      StringComesBack(key, ValueBytes(v) + more);
      EntryThen(StringBytes(key) + (ValueBytes(v) + more), key, v, ValueBytes(v) + more, more, others, rest);
      Regroup(StringBytes(key), ValueBytes(v), EntryBytes(others), rest);
    }
  }

  lemma Regroup(a: Bytes, b: Bytes, c: Bytes, d: Bytes)
    ensures a + b + c + d == a + (b + (c + d)) && a + b + c == a + (b + c)
  {
  }

  /** One entry and then the others. */
  lemma EntryThen(s: Bytes, key: Bytes, v: CustomValue, s1: Bytes, s2: Bytes, others: seq<Entry>, rest: Bytes)
    requires TakeString(s) == Some((key, s1)) && TakeCustomValue(s1) == Some((v, s2))
    requires TakeEntries(s2, |others|) == Some((others, rest))
    ensures TakeEntries(s, |others| + 1) == Some(([(key, v)] + others, rest))
  {
  }

  lemma NumFieldComesBack(tag: byte, v: nat, rest: Bytes)
    requires FieldFits(NumField(tag, v))
    ensures TakeField(tag, NumberBytes(v, FormatOf(tag).width) + rest) == Some((NumField(tag, v), rest))
  {
    SmallMod(v, Limit(FormatOf(tag).width));
    NumberComesBack(v, FormatOf(tag).width, rest);
  }

  lemma CustomFieldComesBack(entries: seq<Entry>, rest: Bytes)
    requires FieldFits(CustomField(entries))
    ensures TakeField(ATTR_CUSTOM_ATTRIBUTES, NumberBytes(|entries|, 8) + EntryBytes(entries) + rest)
         == Some((CustomField(entries), rest))
  {
    SmallMod(|entries|, Limit(8));
    var tail := EntryBytes(entries) + rest;
    NumberComesBack(|entries|, 8, tail);
    EntriesComeBack(entries, rest);
    CustomThen(NumberBytes(|entries|, 8) + tail, tail, entries, rest);
    Regroup(NumberBytes(|entries|, 8), EntryBytes(entries), rest, []);
  }

  lemma CustomThen(s: Bytes, s1: Bytes, entries: seq<Entry>, rest: Bytes)
    requires TakeNumber(s, 8) == Some((|entries|, s1)) && TakeEntries(s1, |entries|) == Some((entries, rest))
    ensures TakeField(ATTR_CUSTOM_ATTRIBUTES, s) == Some((CustomField(entries), rest))
  {
  }

  lemma FieldComesBack(f: Field, rest: Bytes)
    requires FieldFits(f)
    ensures FieldBytes(f) != [] && FieldBytes(f)[0] != 0 && FieldBytes(f)[0] != ATTR_CONTAINER_ITEMS
    ensures TakeField(FieldBytes(f)[0], FieldBytes(f)[1..] + rest) == Some((f, rest))
  {
    match f
    case NumField(tag, v) =>
      TagThen(tag, NumberBytes(v, FormatOf(tag).width), rest);
      NumFieldComesBack(tag, v, rest);
    case TextField(tag, s) =>
      TagThen(tag, StringBytes(s), rest);
      TextFieldComesBack(tag, s, rest);
    case CustomField(entries) =>
      var payload := NumberBytes(|entries|, 8) + EntryBytes(entries);
      Regroup([ATTR_CUSTOM_ATTRIBUTES], NumberBytes(|entries|, 8), EntryBytes(entries), []);
      TagThen(ATTR_CUSTOM_ATTRIBUTES, payload, rest);
      CustomFieldComesBack(entries, rest);
  }

  lemma TextFieldComesBack(tag: byte, s: Bytes, rest: Bytes)
    requires FieldFits(TextField(tag, s))
    ensures TakeField(tag, StringBytes(s) + rest) == Some((TextField(tag, s), rest))
  {
    StringComesBack(s, rest);
  }

  /** Reading written fields is applying them one after the other. */
  lemma {:induction false} FieldsComeBack(info: TypeInfo, p: Props, fs: seq<Field>, rest: Bytes)
    requires AllFit(fs)
    ensures TakeAttrs(info, p, AllFieldBytes(fs) + rest) == TakeAttrs(info, ApplyAll(info, p, fs), rest)
    decreases |fs|
  {
    if fs == [] {
      assert AllFieldBytes(fs) + rest == rest;
    } else {
      var f, more := fs[0], AllFieldBytes(fs[1..]) + rest;
      FieldComesBack(f, more);
      var head := FieldBytes(f);
      HeadThen(head, more);
      FieldThen(info, p, head + more, f, head[1..] + more, more);
      Regroup(head, AllFieldBytes(fs[1..]), rest, []);
      FieldsComeBack(info, Apply(info, p, f), fs[1..], rest);
    }
  }

  lemma HeadThen(head: Bytes, more: Bytes)
    requires head != []
    ensures (head + more)[0] == head[0] && (head + more)[1..] == head[1..] + more && head + more != []
  {
  }

  /** One field and then the others. */
  lemma FieldThen(info: TypeInfo, p: Props, s: Bytes, f: Field, s1: Bytes, more: Bytes)
    requires s != [] && s[0] != 0 && s[0] != ATTR_CONTAINER_ITEMS && s[1..] == s1
             && TakeField(s[0], s1) == Some((f, more))
    ensures TakeAttrs(info, p, s) == TakeAttrs(info, Apply(info, p, f), more)
  {
  }

  /** The end of the stream ends the attributes as the zero byte does. */
  lemma EndOfStream(info: TypeInfo, p: Props, fs: seq<Field>)
    requires AllFit(fs)
    ensures TakeAttrs(info, p, AllFieldBytes(fs)) == AttrDone(ApplyAll(info, p, fs), 0, [])
    ensures TakeAttrs(info, p, AllFieldBytes(fs) + [0]) == AttrDone(ApplyAll(info, p, fs), 0, [])
  {
    FieldsComeBack(info, p, fs, []);
    FieldsComeBack(info, p, fs, [0]);
    assert AllFieldBytes(fs) + [] == AllFieldBytes(fs) && [0][1..] == [];
  }

  /** How many bytes stand behind each tag, by its number. */
  lemma FormatsAre(tag: byte)
    ensures FormatOf(tag) == NumFormat(1) <==> tag in {12, 15, 17, 32, 33, 37, 39}
    ensures FormatOf(tag) == NumFormat(2) <==> tag in {4, 5, 22, 36}
    ensures FormatOf(tag) == NumFormat(4) <==> tag in {16, 18, 27, 28, 29, 30, 31, 35, 38}
    ensures FormatOf(tag) == TextFormat <==> tag in {6, 7, 19, 24, 25, 26}
    ensures FormatOf(tag) == CustomFormat <==> tag == 34
    ensures FormatOf(tag).SkipFormat? <==> tag in {8, 10, 14, 20, 21, 40}
    ensures FormatOf(tag).SkipFormat? ==>
              FormatOf(tag).n == match tag case 8 => 5 case 10 => 2 case 14 => 1 case 40 => 15 case _ => 4
  {
  }

  predicate EntriesFitOrBlank(entries: seq<Entry>) {
    forall i {:trigger entries[i]} | 0 <= i < |entries| ::
      |entries[i].0| <= MAX_STRING && (entries[i].1.Blank? || ValueFits(entries[i].1))
  }

  lemma BlankValue(more: Bytes)
    ensures TakeCustomValue(ValueBytes(Blank) + more).None?
  {
    HeadThen([0], more);
  }

  lemma BlankIsFirstOrLater(entries: seq<Entry>)
    requires EntriesFitOrBlank(entries) && !EntriesFit(entries)
    ensures entries != [] && |entries[0].0| <= MAX_STRING && (entries[0].1.Blank? || ValueFits(entries[0].1))
    ensures EntriesFitOrBlank(entries[1..]) && (ValueFits(entries[0].1) ==> !EntriesFit(entries[1..]))
  {
    assert entries != [] ==> [entries[0]] + entries[1..] == entries;
  }

  /** A blank custom value is written, but cannot be read. */
  lemma {:induction false} BlankFails(entries: seq<Entry>, rest: Bytes)
    requires EntriesFitOrBlank(entries) && !EntriesFit(entries)
    ensures TakeEntries(EntryBytes(entries) + rest, |entries|).None?
  {
    BlankIsFirstOrLater(entries);
    var key, v, others := entries[0].0, entries[0].1, entries[1..];
    Regroup(StringBytes(key), ValueBytes(v), EntryBytes(others), rest);
    if ValueFits(v) {
      BlankFails(others, rest);
    }
    HeadBreaks(key, v, EntryBytes(others) + rest, |entries|);
  }

  lemma HeadBreaks(key: Bytes, v: CustomValue, more: Bytes, n: nat)
    requires |key| <= MAX_STRING && n > 0 && (v.Blank? || (ValueFits(v) && TakeEntries(more, n - 1).None?))
    ensures TakeEntries(StringBytes(key) + (ValueBytes(v) + more), n).None?
  {
    StringComesBack(key, ValueBytes(v) + more);
    if v.Blank? {
      BlankValue(more);
    } else {
      ValueComesBack(v, more);
    }
    EntryBreaks(StringBytes(key) + (ValueBytes(v) + more), key, ValueBytes(v) + more, n);
  }

  lemma EntryBreaks(s: Bytes, key: Bytes, s1: Bytes, n: nat)
    requires TakeString(s) == Some((key, s1)) && n > 0
    requires TakeCustomValue(s1).None? || TakeEntries(TakeCustomValue(s1).value.1, n - 1).None?
    ensures TakeEntries(s, n).None?
  {
  }

  // ----- what serializeAttr writes -----

  function Num(p: Props, bit: nat): int {
    if bit in p.nums then p.nums[bit] else 0
  }

  function Width(tag: byte): nat {
    if FormatOf(tag).NumFormat? then FormatOf(tag).width else 0
  }

  /** Item::getSubType for the types that write a count. */
  function WrittenCount(info: TypeInfo, p: Props): nat {
    (if info.isFluid then Num(p, BIT_FLUIDTYPE) % 65536 else p.count) % 256
  }

  function CountField(info: TypeInfo, p: Props): seq<Field> {
    if info.stackable || info.isFluid then [NumField(ATTR_COUNT, WrittenCount(info, p))] else []
  }

  function ChargesField(p: Props): seq<Field> {
    var charges := Num(p, BIT_CHARGES) % 65536;
    if charges != 0 then [NumField(ATTR_CHARGES, charges)] else []
  }

  /** The numbers and strings that follow, in the order in which they are written. */
  const SLOTS: seq<byte> :=
    [ATTR_ACTION_ID, ATTR_TEXT, ATTR_WRITTENDATE, ATTR_WRITTENBY, ATTR_DESC, ATTR_DURATION, ATTR_DECAYING_STATE,
     ATTR_NAME, ATTR_ARTICLE, ATTR_PLURALNAME, ATTR_WEIGHT, ATTR_ATTACK, ATTR_ATTACK_SPEED, ATTR_DEFENSE,
     ATTR_EXTRADEFENSE, ATTR_ARMOR, ATTR_HITCHANCE, ATTR_SHOOTRANGE, ATTR_DECAYTO]

  predicate IsText(tag: byte) {
    FormatOf(tag).TextFormat?
  }

  predicate WritesNum(info: TypeInfo, p: Props, tag: byte) {
    var v := Num(p, NumBit(tag));
    if tag == ATTR_ACTION_ID then info.moveable && v % 65536 != 0
    else if tag == ATTR_WRITTENDATE then v != 0
    else if tag == ATTR_DECAYING_STATE then v % 256 == DECAYING_TRUE || v % 256 == DECAYING_PENDING
    else NumBit(tag) in p.nums
  }

  predicate WritesText(p: Props, tag: byte) {
    TextBit(tag) in p.texts && (tag in {ATTR_NAME, ATTR_ARTICLE, ATTR_PLURALNAME} || p.texts[TextBit(tag)] != [])
  }

  function SlotField(info: TypeInfo, p: Props, tag: byte): seq<Field> {
    if IsText(tag) then
      if WritesText(p, tag) then [TextField(tag, Shortened(p.texts[TextBit(tag)]))] else []
    else if WritesNum(info, p, tag) then [NumField(tag, Narrow(Num(p, NumBit(tag)), Width(tag)))] else []
  }

  function SlotFields(info: TypeInfo, p: Props, tags: seq<byte>): seq<Field> {
    if tags == [] then [] else SlotFields(info, p, tags[..|tags| - 1]) + SlotField(info, p, tags[|tags| - 1])
  }

  function ShortValue(v: CustomValue): CustomValue {
    if v.CustomText? then CustomText(Shortened(v.s)) else v
  }

  function ShortEntries(entries: seq<Entry>): (r: seq<Entry>)
    ensures |r| == |entries|
    ensures forall i | 0 <= i < |r| :: r[i] == (Shortened(entries[i].0), ShortValue(entries[i].1))
  {
    if entries == [] then []
    else [(Shortened(entries[0].0), ShortValue(entries[0].1))] + ShortEntries(entries[1..])
  }

  function CustomFieldOf(p: Props): seq<Field> {
    if p.custom.Some? then [CustomField(ShortEntries(p.custom.value))] else []
  }

  function Fields(info: TypeInfo, p: Props): seq<Field> {
    CountField(info, p) + ChargesField(p) + SlotFields(info, p, SLOTS) + CustomFieldOf(p)
  }

  /** The machine sizes of the fields: a custom map of less than 2^64 entries, 64-bit numbers in it. */
  predicate Sized(p: Props) {
    p.custom.Some? ==>
      && |p.custom.value| < Limit(8)
      && forall i {:trigger p.custom.value[i]} | 0 <= i < |p.custom.value| ::
           match p.custom.value[i].1
           case CustomInt(n) => 0 - Limit(8) <= 2 * n < Limit(8)
           case CustomDouble(bits) => bits < Limit(8)
           case _ => true
  }

  predicate HasBlank(p: Props) {
    p.custom.Some? && exists i :: 0 <= i < |p.custom.value| && p.custom.value[i].1.Blank?
  }

  lemma AllBytesConcat(a: seq<Field>, b: seq<Field>)
    ensures AllFieldBytes(a + b) == AllFieldBytes(a) + AllFieldBytes(b)
  {
    if a == [] {
      assert a + b == b;
    } else {
      assert (a + b)[1..] == a[1..] + b;
      AllBytesConcat(a[1..], b);
    }
  }

  lemma {:induction false} SlotsFit(info: TypeInfo, p: Props, tags: seq<byte>)
    requires forall i | 0 <= i < |tags| :: IsText(tags[i]) || FormatOf(tags[i]).NumFormat?
    ensures AllFit(SlotFields(info, p, tags))
  {
    if tags != [] {
      SlotsFit(info, p, tags[..|tags| - 1]);
      assert FormatOf(tags[|tags| - 1]).NumFormat? || IsText(tags[|tags| - 1]);
    }
  }

  lemma PlainFieldsFit(info: TypeInfo, p: Props)
    requires Sized(p)
    ensures AllFit(CountField(info, p) + ChargesField(p) + SlotFields(info, p, SLOTS))
  {
    assert Limit(1) == 256 && Limit(2) == 65536;
    SlotsFit(info, p, SLOTS);
  }

  /** All fields but the custom map fit; so does that, when it holds no blank value. */
  lemma FieldsFit(info: TypeInfo, p: Props)
    requires Sized(p)
    ensures AllFit(CountField(info, p) + ChargesField(p) + SlotFields(info, p, SLOTS))
    ensures !HasBlank(p) ==> AllFit(Fields(info, p))
  {
    PlainFieldsFit(info, p);
    if p.custom.Some? && !HasBlank(p) {
      var es := ShortEntries(p.custom.value);
      forall i {:trigger es[i]} | 0 <= i < |es|
        ensures |es[i].0| <= MAX_STRING && ValueFits(es[i].1)
      {
        assert !p.custom.value[i].1.Blank?;
      }
    }
  }

  /** What comes back of the attributes of an item: the written fields, on top of what a new item has. */
  function Restored(info: TypeInfo, p: Props): Props {
    ApplyAll(info, info.created, Fields(info, p))
  }

  /** Reading what serializeAttr has written fails for a blank custom value and otherwise gives Restored. */
  lemma AttrsComeBack(info: TypeInfo, p: Props, rest: Bytes)
    requires Sized(p)
    ensures TakeAttrs(info, info.created, AllFieldBytes(Fields(info, p)) + rest)
         == if HasBlank(p) then AttrError else TakeAttrs(info, Restored(info, p), rest)
  {
    FieldsFit(info, p);
    if !HasBlank(p) {
      FieldsComeBack(info, info.created, Fields(info, p), rest);
    } else {
      var fs, es := CountField(info, p) + ChargesField(p) + SlotFields(info, p, SLOTS), ShortEntries(p.custom.value);
      BlankBreaks(info, p, fs, es, rest);
    }
  }

  lemma BlankBreaks(info: TypeInfo, p: Props, fs: seq<Field>, es: seq<Entry>, rest: Bytes)
    requires Sized(p) && HasBlank(p) && es == ShortEntries(p.custom.value) && AllFit(fs)
    ensures TakeAttrs(info, info.created, AllFieldBytes(fs + [CustomField(es)]) + rest) == AttrError
  {
    var last := FieldBytes(CustomField(es));
    AllBytesConcat(fs, [CustomField(es)]);
    assert AllFieldBytes([CustomField(es)]) == last + [] == last;
    Regroup(AllFieldBytes(fs), last, rest, []);
    FieldsComeBack(info, info.created, fs, last + rest);
    BlankFieldBreaks(p, es, rest, info, ApplyAll(info, info.created, fs));
  }

  lemma BlankFieldBreaks(p: Props, es: seq<Entry>, rest: Bytes, info: TypeInfo, st: Props)
    requires Sized(p) && HasBlank(p) && es == ShortEntries(p.custom.value)
    ensures TakeAttrs(info, st, FieldBytes(CustomField(es)) + rest) == AttrError
  {
    var i :| 0 <= i < |es| && p.custom.value[i].1.Blank?;
    assert es[i].1.Blank?;
    BlankFails(es, rest);
    SmallMod(|es|, Limit(8));
    var tail := EntryBytes(es) + rest;
    NumberComesBack(|es|, 8, tail);
    CustomBreaks(info, st, NumberBytes(|es|, 8) + tail, tail, |es|);
    Regroup([ATTR_CUSTOM_ATTRIBUTES], NumberBytes(|es|, 8), EntryBytes(es), rest);
  }

  lemma CustomBreaks(info: TypeInfo, p: Props, s: Bytes, tail: Bytes, n: nat)
    requires TakeNumber(s, 8) == Some((n, tail)) && TakeEntries(tail, n).None?
    ensures TakeAttrs(info, p, [ATTR_CUSTOM_ATTRIBUTES] + s) == AttrError
  {
    HeadThen([ATTR_CUSTOM_ATTRIBUTES], s);
    assert TakeField(ATTR_CUSTOM_ATTRIBUTES, s).None?;
  }

  // ----- exactly which attributes come back unchanged -----

  function Get<V>(m: map<nat, V>, bit: nat): Option<V> {
    if bit in m then Some(m[bit]) else None
  }

  lemma {:induction false} ApplyConcat(info: TypeInfo, p: Props, a: seq<Field>, b: seq<Field>)
    ensures ApplyAll(info, p, a + b) == ApplyAll(info, ApplyAll(info, p, a), b)
    decreases a
  {
    if a == [] {
      assert a + b == b;
    } else {
      assert (a + b)[1..] == a[1..] + b;
      ApplyConcat(info, Apply(info, p, a[0]), a[1..], b);
    }
  }

  /** The tag under which the number with a bit is written. */
  function NumTag(bit: nat): byte {
    if bit == BIT_ACTIONID then ATTR_ACTION_ID else if bit == BIT_DATE then ATTR_WRITTENDATE
    else if bit == BIT_DURATION then ATTR_DURATION else if bit == BIT_DECAYSTATE then ATTR_DECAYING_STATE
    else if bit == BIT_WEIGHT then ATTR_WEIGHT else if bit == BIT_ATTACK then ATTR_ATTACK
    else if bit == BIT_ATTACK_SPEED then ATTR_ATTACK_SPEED else if bit == BIT_DEFENSE then ATTR_DEFENSE
    else if bit == BIT_EXTRADEFENSE then ATTR_EXTRADEFENSE else if bit == BIT_ARMOR then ATTR_ARMOR
    else if bit == BIT_HITCHANCE then ATTR_HITCHANCE else if bit == BIT_SHOOTRANGE then ATTR_SHOOTRANGE
    else ATTR_DECAYTO
  }

  function TextTag(bit: nat): byte {
    if bit == BIT_TEXT then ATTR_TEXT else if bit == BIT_WRITER then ATTR_WRITTENBY
    else if bit == BIT_DESCRIPTION then ATTR_DESC else if bit == BIT_NAME then ATTR_NAME
    else if bit == BIT_ARTICLE then ATTR_ARTICLE else ATTR_PLURALNAME
  }

  predicate Regular(tag: byte) {
    tag in SLOTS && if IsText(tag) then TextTag(TextBit(tag)) == tag
        else FormatOf(tag).NumFormat? && NumTag(NumBit(tag)) == tag
  }

  lemma SlotIsRegular(i: nat)
    requires i < |SLOTS|
    ensures Regular(SLOTS[i])
  {
    assert |SLOTS| == 19;
  }

  lemma RegularTags(tags: seq<byte>)
    requires tags == SLOTS
    ensures forall i | 0 <= i < |tags| :: Regular(tags[i])
  {
    forall i | 0 <= i < |tags|
      ensures Regular(tags[i])
    {
      SlotIsRegular(i);
    }
  }

  /** What setIntAttr stores for the number that is written under a tag. */
  function StoredNum(p: Props, tag: byte): int {
    var v := Interpreted(tag, Narrow(Num(p, NumBit(tag)), Width(tag)));
    if NumBit(tag) == BIT_ATTACK_SPEED && v < 100 then 100 else v
  }

  /** The attributes after the fields of the slots, one by one. */
  ghost predicate SlotEffect(info: TypeInfo, p: Props, st: Props, q: Props, tags: seq<byte>) {
    && q.count == st.count && q.custom == st.custom
    && (forall b: nat {:trigger Get(q.nums, b)} ::
          Get(q.nums, b) == if NumTag(b) in tags && NumBit(NumTag(b)) == b && WritesNum(info, p, NumTag(b))
                            then Some(StoredNum(p, NumTag(b))) else Get(st.nums, b))
    && (forall b: nat {:trigger Get(q.texts, b)} ::
          Get(q.texts, b) == if TextTag(b) in tags && TextBit(TextTag(b)) == b && WritesText(p, TextTag(b))
                                && Shortened(p.texts[b]) != []
                             then Some(Shortened(p.texts[b])) else Get(st.texts, b))
  }

  lemma {:induction false} SlotsTakeEffect(info: TypeInfo, p: Props, st: Props, tags: seq<byte>)
    requires forall i | 0 <= i < |tags| :: Regular(tags[i])
    ensures SlotEffect(info, p, st, ApplyAll(info, st, SlotFields(info, p, tags)), tags)
  {
    if tags != [] {
      var front, tag := tags[..|tags| - 1], tags[|tags| - 1];
      SlotsTakeEffect(info, p, st, front);
      var q := ApplyAll(info, st, SlotFields(info, p, front));
      ApplyConcat(info, st, SlotFields(info, p, front), SlotField(info, p, tag));
      assert tags == front + [tag] && Regular(tags[|tags| - 1]);
      OneSlotTakesEffect(info, p, st, q, front, tag);
    }
  }

  lemma OneSlotTakesEffect(info: TypeInfo, p: Props, st: Props, q: Props, front: seq<byte>, tag: byte)
    requires Regular(tag) && SlotEffect(info, p, st, q, front)
    ensures SlotEffect(info, p, st, ApplyAll(info, q, SlotField(info, p, tag)), front + [tag])
  {
    var r := ApplyAll(info, q, SlotField(info, p, tag));
    ApplySlot(info, p, q, tag);
    forall b: nat
      ensures Get(r.nums, b) == if NumTag(b) in front + [tag] && NumBit(NumTag(b)) == b && WritesNum(info, p, NumTag(b))
                                then Some(StoredNum(p, NumTag(b))) else Get(st.nums, b)
      ensures Get(r.texts, b) == if TextTag(b) in front + [tag] && TextBit(TextTag(b)) == b && WritesText(p, TextTag(b))
                                    && Shortened(p.texts[b]) != []
                                 then Some(Shortened(p.texts[b])) else Get(st.texts, b)
    {
      assert Get(q.nums, b) == Get(q.nums, b) && Get(q.texts, b) == Get(q.texts, b);
      TagsDiffer(b);
    }
  }

  /** Numbers and strings have different tags. */
  lemma TagsDiffer(b: nat)
    ensures !IsText(NumTag(b)) && IsText(TextTag(b))
  {
  }

  lemma ApplySlot(info: TypeInfo, p: Props, q: Props, tag: byte)
    requires Regular(tag)
    ensures var r := ApplyAll(info, q, SlotField(info, p, tag));
            && r.count == q.count && r.custom == q.custom
            && r.nums
               == (if !IsText(tag) && WritesNum(info, p, tag) then q.nums[NumBit(tag) := StoredNum(p, tag)] else q.nums)
            && r.texts == (if IsText(tag) && WritesText(p, tag) && Shortened(p.texts[TextBit(tag)]) != []
                           then q.texts[TextBit(tag) := Shortened(p.texts[TextBit(tag)])] else q.texts)
  {
    var fs := SlotField(info, p, tag);
    if fs != [] {
      assert fs[1..] == [];
      assert ApplyAll(info, q, fs) == Apply(info, q, fs[0]);
      assert !IsText(tag) ==> NumTag(NumBit(tag)) == tag && Limit(1) == 256;
    }
  }

  /** A new item has no strings and no custom map, and of the numbers a fluid type, charges and a duration at most. */
  ghost predicate CreatedOk(info: TypeInfo) {
    && info.created.texts == map[] && info.created.custom.None? && info.created.count < 256
    && info.created.nums.Keys <= {BIT_FLUIDTYPE, BIT_CHARGES, BIT_DURATION}
    && (BIT_CHARGES in info.created.nums ==> 0 <= info.created.nums[BIT_CHARGES] < 65536)
  }

  /** The count and the charges after the first two fields. */
  ghost predicate CountEffect(info: TypeInfo, p: Props, st: Props) {
    var c := Num(p, BIT_CHARGES) % 65536;
    var created := info.created;
    && st.texts == created.texts && st.custom == created.custom
    && (forall b: nat {:trigger Get(st.nums, b)} | b != BIT_CHARGES && b != BIT_FLUIDTYPE ::
       Get(st.nums, b) == Get(created.nums, b))
    && st.count == (if info.isFluid || (!info.stackable && info.hasCharges) then created.count
                    else if c != 0 then c % 256 else if info.stackable then p.count % 256 else created.count)
    && Get(st.nums, BIT_CHARGES) == (if !info.isFluid && !info.stackable && info.hasCharges && c != 0 then Some(c)
                                     else Get(created.nums, BIT_CHARGES))
    && Get(st.nums, BIT_FLUIDTYPE) == (if info.isFluid then Some(if c != 0 then c else WrittenCount(info, p))
                                       else Get(created.nums, BIT_FLUIDTYPE))
  }

  lemma CountTakesEffect(info: TypeInfo, p: Props)
    ensures CountEffect(info, p, ApplyAll(info, info.created, CountField(info, p) + ChargesField(p)))
  {
    var created := info.created;
    var a, b := CountField(info, p), ChargesField(p);
    ApplyConcat(info, created, a, b);
    OneField(info, created, a);
    OneField(info, ApplyAll(info, created, a), b);
  }

  lemma OneField(info: TypeInfo, p: Props, fs: seq<Field>)
    ensures fs == [] ==> ApplyAll(info, p, fs) == p
    ensures |fs| == 1 ==> ApplyAll(info, p, fs) == Apply(info, p, fs[0])
  {
    if |fs| == 1 {
      assert fs[1..] == [];
    }
  }

  /** A number that comes back as it was. */
  predicate NumFits(info: TypeInfo, tag: byte, v: int) {
    if tag == ATTR_ACTION_ID then info.moveable && 100 <= v <= 65535
    else if tag == ATTR_WRITTENDATE then v != 0 && -0x8000_0000 <= v < 0x8000_0000
    else if tag == ATTR_DURATION then 0 <= v < 0x8000_0000
    else if tag == ATTR_DECAYING_STATE then v == DECAYING_PENDING
    else if tag == ATTR_WEIGHT then 0 <= v < 0x1_0000_0000
    else if tag == ATTR_ATTACK_SPEED then 100 <= v < 0x1_0000_0000
    else if tag == ATTR_HITCHANCE then -128 <= v < 128
    else if tag == ATTR_SHOOTRANGE then 0 <= v < 256
    else -0x8000_0000 <= v < 0x8000_0000
  }

  lemma Limits()
    ensures Limit(1) == 256 && Limit(2) == 65536 && Limit(4) == 0x1_0000_0000
  {
  }

  /** In the order of the slots, a number in p is written and stored as it was exactly when it fits. */
  lemma NumComesBack(info: TypeInfo, p: Props, tag: byte)
    requires Regular(tag) && !IsText(tag) && NumBit(tag) in p.nums
    ensures WritesNum(info, p, tag) && StoredNum(p, tag) == p.nums[NumBit(tag)] <==>
            NumFits(info, tag, p.nums[NumBit(tag)])
  {
    Limits();
    var v := p.nums[NumBit(tag)];
    SignedNarrow(v, Width(tag));
    assert Width(tag) == 1 || Width(tag) == 2 || Width(tag) == 4;
  }

  predicate CountKept(info: TypeInfo, p: Props) {
    var c := Num(p, BIT_CHARGES) % 65536;
    var created := info.created;
    var sameCharges, sameFluid := Get(p.nums, BIT_CHARGES) == Get(created.nums, BIT_CHARGES),
      Get(p.nums, BIT_FLUIDTYPE) == Get(created.nums, BIT_FLUIDTYPE);
    if info.isFluid then
      && p.count == created.count && sameCharges && BIT_FLUIDTYPE in p.nums
      && (if c != 0 then p.nums[BIT_FLUIDTYPE] == c else 0 <= p.nums[BIT_FLUIDTYPE] < 256)
    else if info.stackable then
      sameCharges && sameFluid && p.count == if c != 0 then c % 256 else p.count % 256
    else if info.hasCharges then
      && p.count == created.count && sameFluid
      && (if c != 0 then 0 <= p.nums[BIT_CHARGES] < 65536 else sameCharges)
    else
      sameCharges && sameFluid && p.count == if c != 0 then c % 256 else created.count
  }

  ghost predicate NumsKept(info: TypeInfo, p: Props) {
    && (forall b {:trigger b in p.nums} | b in p.nums && b != BIT_CHARGES && b != BIT_FLUIDTYPE ::
          NumTag(b) in SLOTS && NumBit(NumTag(b)) == b && NumFits(info, NumTag(b), p.nums[b]))
    && (BIT_DURATION in info.created.nums ==> BIT_DURATION in p.nums)
  }

  ghost predicate TextsKept(p: Props) {
    forall b {:trigger b in p.texts} | b in p.texts ::
      TextTag(b) in SLOTS && TextBit(TextTag(b)) == b && 1 <= |p.texts[b]| <= MAX_STRING
  }

  ghost predicate CustomKept(p: Props) {
    p.custom.Some? ==>
      && p.custom.value != [] && DistinctKeys(p.custom.value)
      && forall i {:trigger p.custom.value[i]} | 0 <= i < |p.custom.value| :: EntryKept(p.custom.value[i])
  }

  /** A key in lower case, and strings that are not too long. */
  ghost predicate EntryKept(e: Entry) {
    && |e.0| <= MAX_STRING && Lower(e.0) == e.0
    && (e.1.CustomText? ==> |e.1.s| <= MAX_STRING)
  }

  ghost predicate DistinctKeys(entries: seq<Entry>) {
    forall i, j | 0 <= i < j < |entries| :: entries[i].0 != entries[j].0
  }

  // ----- the custom map -----

  function Lowered(entries: seq<Entry>): (r: seq<Entry>)
    ensures |r| == |entries| && forall i | 0 <= i < |r| :: r[i] == (Lower(entries[i].0), entries[i].1)
  {
    if entries == [] then [] else [(Lower(entries[0].0), entries[0].1)] + Lowered(entries[1..])
  }

  lemma {:induction false} WithoutIs(entries: seq<Entry>, key: Bytes)
    ensures |Without(entries, key)| <= |entries|
    ensures (forall i | 0 <= i < |entries| :: entries[i].0 != key) <==> |Without(entries, key)| == |entries|
    ensures |Without(entries, key)| == |entries| ==> Without(entries, key) == entries
  {
    if entries != [] {
      WithoutIs(entries[1..], key);
      assert entries == [entries[0]] + entries[1..];
    }
  }

  /** The custom map after one pair after the other has been entered. */
  function EnterAll(base: seq<Entry>, es: seq<Entry>): seq<Entry>
    decreases es
  {
    if es == [] then base
    else EnterAll(Without(base, Lower(es[0].0)) + [(Lower(es[0].0), es[0].1)], es[1..])
  }

  lemma {:induction false} SetAllIsEnterAll(p: Props, base: seq<Entry>, es: seq<Entry>)
    requires p.custom == Some(base) || (p.custom.None? && base == [])
    ensures SetAllCustom(p, es) == if es == [] then p else p.(custom := Some(EnterAll(base, es)))
    decreases es
  {
    if es != [] {
      var base' := Without(base, Lower(es[0].0)) + [(Lower(es[0].0), es[0].1)];
      SetAllIsEnterAll(SetCustom(p, es[0]), base', es[1..]);
    }
  }

  /** A list that has got all pairs has only got longer, and has them at its end. */
  lemma {:induction false} EnterAllGrows(base: seq<Entry>, es: seq<Entry>)
    ensures |EnterAll(base, es)| <= |base| + |es|
    ensures |EnterAll(base, es)| == |base| + |es| ==> EnterAll(base, es) == base + Lowered(es)
    ensures |EnterAll(base, es)| == |base| + |es| && DistinctKeys(base) ==> DistinctKeys(base + Lowered(es))
    decreases es
  {
    if es == [] {
      assert base + Lowered(es) == base;
    } else {
      var e := (Lower(es[0].0), es[0].1);
      var base' := Without(base, e.0) + [e];
      WithoutIs(base, e.0);
      EnterAllGrows(base', es[1..]);
      FirstIsLast(base, e, Lowered(es[1..]));
    }
  }

  lemma FirstIsLast<T>(base: seq<T>, e: T, more: seq<T>)
    ensures (base + [e]) + more == base + ([e] + more)
  {
  }

  lemma {:induction false} EnterAllDistinct(base: seq<Entry>, es: seq<Entry>)
    requires DistinctKeys(base + Lowered(es))
    ensures EnterAll(base, es) == base + Lowered(es)
    decreases es
  {
    if es == [] {
      assert base + Lowered(es) == base;
    } else {
      var e, all := (Lower(es[0].0), es[0].1), base + Lowered(es);
      forall i | 0 <= i < |base|
        ensures base[i].0 != e.0
      {
        assert all[i].0 != all[|base|].0;
      }
      WithoutIs(base, e.0);
      assert (base + [e]) + Lowered(es[1..]) == all;
      EnterAllDistinct(base + [e], es[1..]);
    }
  }

  lemma LowerIsLower(key: Bytes)
    ensures Lower(Lower(key)) == Lower(key)
  {
  }

  /** A custom map comes back as it was exactly when it is in order: not empty, keys in lower case, nothing too long. */
  lemma CustomComesBack(p: Props, st: Props, es: seq<Entry>)
    requires p.custom == Some(es) && st.custom.None?
    ensures SetAllCustom(st, ShortEntries(es)).custom == p.custom <==> CustomKept(p)
  {
    var short := ShortEntries(es);
    SetAllIsEnterAll(st, [], short);
    EnterAllGrows([], short);
    assert [] + Lowered(short) == Lowered(short);
    if CustomKept(p) {
      forall i | 0 <= i < |es|
        ensures Lowered(short)[i] == es[i]
      {
        assert EntryKept(es[i]);
      }
      assert Lowered(short) == es;
      EnterAllDistinct([], short);
    }
    if es != [] && EnterAll([], short) == es {
      assert Lowered(short) == es;
      forall i {:trigger es[i]} | 0 <= i < |es|
        ensures EntryKept(es[i])
      {
        assert Lowered(short)[i] == (Lower(short[i].0), short[i].1) == es[i];
        LowerIsLower(short[i].0);
      }
    }
  }

  // ----- the whole -----

  lemma RestoredInSteps(info: TypeInfo, p: Props) returns (st: Props, q: Props)
    requires CreatedOk(info)
    ensures CountEffect(info, p, st) && SlotEffect(info, p, st, q, SLOTS)
    ensures Restored(info, p) == if p.custom.Some? then SetAllCustom(q, ShortEntries(p.custom.value)) else q
  {
    var a, slots, last := CountField(info, p) + ChargesField(p), SlotFields(info, p, SLOTS), CustomFieldOf(p);
    CountTakesEffect(info, p);
    st := ApplyAll(info, info.created, a);
    RegularTags(SLOTS);
    SlotsTakeEffect(info, p, st, SLOTS);
    q := ApplyAll(info, st, slots);
    ApplyConcat(info, info.created, a, slots);
    ApplyConcat(info, info.created, a + slots, last);
    OneField(info, q, last);
  }

  /** What becomes of the number with one bit. */
  ghost predicate NumBack(info: TypeInfo, p: Props, st: Props, q: Props, b: nat) {
    if b == BIT_CHARGES || b == BIT_FLUIDTYPE then Get(q.nums, b) == Get(st.nums, b)
    else if b in p.nums then
      (Get(q.nums, b) == Get(p.nums, b) <==>
       NumTag(b) in SLOTS && NumBit(NumTag(b)) == b && NumFits(info, NumTag(b), p.nums[b]))
    else (Get(q.nums, b).None? <==> b !in info.created.nums)
  }

  lemma NumsComeBack(info: TypeInfo, p: Props, st: Props, q: Props)
    requires CreatedOk(info) && CountEffect(info, p, st) && SlotEffect(info, p, st, q, SLOTS)
    requires p.count < 256
    ensures q.count == p.count && q.nums == p.nums <==> CountKept(info, p) && NumsKept(info, p)
  {
    if q.count == p.count && q.nums == p.nums {
      SameNumsAreKept(info, p, st, q);
    }
    if CountKept(info, p) && NumsKept(info, p) {
      KeptNumsAreSame(info, p, st, q);
    }
  }

  lemma SameNumsAreKept(info: TypeInfo, p: Props, st: Props, q: Props)
    requires CreatedOk(info) && CountEffect(info, p, st) && SlotEffect(info, p, st, q, SLOTS)
    requires p.count < 256 && q.count == p.count && q.nums == p.nums
    ensures CountKept(info, p) && NumsKept(info, p)
  {
    OneNumComesBack(info, p, st, q, BIT_CHARGES);
    OneNumComesBack(info, p, st, q, BIT_FLUIDTYPE);
    OneNumComesBack(info, p, st, q, BIT_DURATION);
    forall b {:trigger b in p.nums} | b in p.nums && b != BIT_CHARGES && b != BIT_FLUIDTYPE
      ensures NumTag(b) in SLOTS && NumBit(NumTag(b)) == b && NumFits(info, NumTag(b), p.nums[b])
    {
      OneNumComesBack(info, p, st, q, b);
    }
  }

  lemma KeptNumsAreSame(info: TypeInfo, p: Props, st: Props, q: Props)
    requires CreatedOk(info) && CountEffect(info, p, st) && SlotEffect(info, p, st, q, SLOTS)
    requires p.count < 256 && CountKept(info, p) && NumsKept(info, p)
    ensures q.count == p.count && q.nums == p.nums
  {
    forall b: nat
      ensures Get(q.nums, b) == Get(p.nums, b)
    {
      KeptNumIsSame(info, p, st, q, b);
    }
    SameMaps(q.nums, p.nums);
  }

  lemma KeptNumIsSame(info: TypeInfo, p: Props, st: Props, q: Props, b: nat)
    requires CreatedOk(info) && CountEffect(info, p, st) && SlotEffect(info, p, st, q, SLOTS)
    requires CountKept(info, p) && NumsKept(info, p)
    ensures Get(q.nums, b) == Get(p.nums, b)
  {
    OneNumComesBack(info, p, st, q, b);
    if b == BIT_CHARGES || b == BIT_FLUIDTYPE {
      ChargesAreSame(info, p, st);
    } else if b !in p.nums {
      assert b !in info.created.nums;
    }
  }

  lemma ChargesAreSame(info: TypeInfo, p: Props, st: Props)
    requires CountEffect(info, p, st) && CountKept(info, p)
    ensures Get(st.nums, BIT_CHARGES) == Get(p.nums, BIT_CHARGES)
    ensures Get(st.nums, BIT_FLUIDTYPE) == Get(p.nums, BIT_FLUIDTYPE)
  {
  }

  lemma SameMaps<V>(m: map<nat, V>, n: map<nat, V>)
    requires forall b: nat :: Get(m, b) == Get(n, b)
    ensures m == n
  {
    forall b: nat
      ensures b in m <==> b in n
      ensures b in m && b in n ==> m[b] == n[b]
    {
      assert Get(m, b) == Get(n, b);
    }
  }

  lemma OneNumComesBack(info: TypeInfo, p: Props, st: Props, q: Props, b: nat)
    requires CreatedOk(info) && CountEffect(info, p, st) && SlotEffect(info, p, st, q, SLOTS)
    ensures NumBack(info, p, st, q, b)
  {
    var tag := NumTag(b);
    TagsDiffer(b);
    assert Get(q.nums, b) == Get(q.nums, b) && Get(st.nums, b) == Get(st.nums, b);
    if tag in SLOTS && NumBit(tag) == b && b in p.nums {
      NumComesBack(info, p, tag);
    }
  }

  /**
   What saving and loading gives back is what was there, exactly when the count, the numbers, the strings and
   the custom map are each of a kind that the format keeps.
   */
  lemma KeptIsRestored(info: TypeInfo, p: Props)
    requires CreatedOk(info) && p.count < 256
    ensures Restored(info, p) == p <==> CountKept(info, p) && NumsKept(info, p) && TextsKept(p) && CustomKept(p)
  {
    var st, q := RestoredInSteps(info, p);
    NumsComeBack(info, p, st, q);
    TextsComeBack(info, p, st, q);
    if p.custom.Some? {
      CustomComesBack(p, q, p.custom.value);
      SetAllIsEnterAll(q, [], ShortEntries(p.custom.value));
    }
  }

  lemma TextsComeBack(info: TypeInfo, p: Props, st: Props, q: Props)
    requires CreatedOk(info) && CountEffect(info, p, st) && SlotEffect(info, p, st, q, SLOTS)
    ensures q.texts == p.texts <==> TextsKept(p)
  {
    forall b: nat
      ensures Get(q.texts, b) == Get(p.texts, b) <==>
              (b in p.texts ==> TextTag(b) in SLOTS && TextBit(TextTag(b)) == b && 1 <= |p.texts[b]| <= MAX_STRING)
    {
      assert Get(q.texts, b) == Get(q.texts, b);
    }
    if TextsKept(p) {
      SameMaps(q.texts, p.texts);
    }
    if q.texts == p.texts {
      forall b {:trigger b in p.texts} | b in p.texts
        ensures TextTag(b) in SLOTS && TextBit(TextTag(b)) == b && 1 <= |p.texts[b]| <= MAX_STRING
      {
        assert Get(q.texts, b) == Get(p.texts, b);
      }
    }
  }

  // ----- the methods over the streams -----

  method WriteField(stream: PropWriteStream, f: Field)
    requires !f.CustomField?
    modifies stream
    ensures stream.buffer == old(stream.buffer) + FieldBytes(f)
  {
    ghost var start := stream.buffer;
    match f
    case NumField(tag, v) =>
      WriteTagged(stream, tag, v, Width(tag));
    case TextField(tag, s) =>
      WriteByte(stream, tag);
      stream.WriteString(s);
      Appended(start, [tag], StringBytes(s));
    case Skipped =>
  }

  method WriteByte(stream: PropWriteStream, b: byte)
    modifies stream
    ensures stream.buffer == old(stream.buffer) + [b]
  {
    OneByte(b);
    stream.Write(b, 1);
  }

  lemma OneByte(b: byte)
    ensures NumberBytes(b, 1) == [b]
  {
    assert Limit(1) == 256;
    SmallMod(b, 256);
    assert Little(b, 1) == [b % 256] + Little(b / 256, 0);
  }

  /** CustomAttribute::serialize */
  method WriteValue(stream: PropWriteStream, v: CustomValue)
    modifies stream
    ensures stream.buffer == old(stream.buffer) + ValueBytes(v)
  {
    ghost var start := stream.buffer;
    match v
    case Blank => WriteByte(stream, 0);
    case CustomText(s) =>
      WriteByte(stream, 1);
      stream.WriteString(s);
      Appended(start, [1], StringBytes(s));
    case CustomInt(i) => WriteTagged(stream, 2, i, 8);
    case CustomDouble(bits) => WriteTagged(stream, 3, bits, 8);
    case CustomBool(b) => WriteTagged(stream, 4, if b then 1 else 0, 1);
  }

  method WriteTagged(stream: PropWriteStream, tag: byte, v: int, n: nat)
    modifies stream
    ensures stream.buffer == old(stream.buffer) + ([tag] + NumberBytes(v, n))
  {
    ghost var start := stream.buffer;
    WriteByte(stream, tag);
    stream.Write(v, n);
    Appended(start, [tag], NumberBytes(v, n));
  }

  lemma {:induction false} EntryBytesConcat(a: seq<Entry>, b: seq<Entry>)
    ensures EntryBytes(a + b) == EntryBytes(a) + EntryBytes(b)
  {
    if a == [] {
      assert a + b == b;
    } else {
      assert (a + b)[1..] == a[1..] + b;
      EntryBytesConcat(a[1..], b);
    }
  }

  /** The bytes of strings do not see whether they have been shortened before. */
  lemma {:induction false} ShortEntryBytes(entries: seq<Entry>)
    ensures EntryBytes(ShortEntries(entries)) == EntryBytes(entries)
  {
    if entries != [] {
      var short := ShortEntries(entries);
      assert short[1..] == ShortEntries(entries[1..]);
      ShortEntryBytes(entries[1..]);
      assert StringBytes(Shortened(entries[0].0)) == StringBytes(entries[0].0);
      assert ValueBytes(ShortValue(entries[0].1)) == ValueBytes(entries[0].1);
    }
  }

  lemma Appended(start: Bytes, a: Bytes, b: Bytes)
    ensures start + a + b == start + (a + b)
  {
  }

  lemma EntryBytesOneMore(entries: seq<Entry>, i: nat)
    requires i < |entries|
    ensures EntryBytes(entries[..i + 1])
            == EntryBytes(entries[..i]) + (StringBytes(entries[i].0) + ValueBytes(entries[i].1))
  {
    EntryBytesConcat(entries[..i], [entries[i]]);
    assert entries[..i + 1] == entries[..i] + [entries[i]];
    assert EntryBytes([entries[i]]) == StringBytes(entries[i].0) + ValueBytes(entries[i].1) + [];
  }

  lemma AllBytesOneMore(fs: seq<Field>, i: nat)
    requires i < |fs|
    ensures AllFieldBytes(fs[..i + 1]) == AllFieldBytes(fs[..i]) + FieldBytes(fs[i])
  {
    AllBytesConcat(fs[..i], [fs[i]]);
    assert fs[..i + 1] == fs[..i] + [fs[i]];
    BytesOfOne(fs[i]);
  }

  lemma BytesOfOne(f: Field)
    ensures AllFieldBytes([f]) == FieldBytes(f)
  {
    assert [f][1..] == [] && FieldBytes(f) + [] == FieldBytes(f);
  }

  method WriteEntries(stream: PropWriteStream, entries: seq<Entry>)
    modifies stream
    ensures stream.buffer == old(stream.buffer) + EntryBytes(entries)
  {
    ghost var start := stream.buffer;
    for i := 0 to |entries|
      invariant stream.buffer == start + EntryBytes(entries[..i])
    {
      stream.WriteString(entries[i].0);
      WriteValue(stream, entries[i].1);
      EntryBytesOneMore(entries, i);
      Regroup(start, EntryBytes(entries[..i]), StringBytes(entries[i].0), ValueBytes(entries[i].1));
    }
    assert entries[..|entries|] == entries;
  }

  method WriteCustom(stream: PropWriteStream, entries: seq<Entry>)
    modifies stream
    ensures stream.buffer == old(stream.buffer) + FieldBytes(CustomField(ShortEntries(entries)))
  {
    ghost var start := stream.buffer;
    WriteByte(stream, ATTR_CUSTOM_ATTRIBUTES);
    stream.Write(|entries|, 8);
    WriteEntries(stream, entries);
    ShortEntryBytes(entries);
    Regroup(start, [ATTR_CUSTOM_ATTRIBUTES], NumberBytes(|entries|, 8), EntryBytes(entries));
    Regroup([ATTR_CUSTOM_ATTRIBUTES], NumberBytes(|entries|, 8), EntryBytes(entries), []);
  }

  method WriteFields(stream: PropWriteStream, fs: seq<Field>)
    requires forall i | 0 <= i < |fs| :: !fs[i].CustomField?
    modifies stream
    ensures stream.buffer == old(stream.buffer) + AllFieldBytes(fs)
  {
    ghost var start := stream.buffer;
    for i := 0 to |fs|
      invariant stream.buffer == start + AllFieldBytes(fs[..i])
    {
      WriteField(stream, fs[i]);
      AllBytesOneMore(fs, i);
      Appended(start, AllFieldBytes(fs[..i]), FieldBytes(fs[i]));
    }
    assert fs[..|fs|] == fs;
  }

  method WriteSlots(stream: PropWriteStream, info: TypeInfo, p: Props, tags: seq<byte>)
    modifies stream
    ensures stream.buffer == old(stream.buffer) + AllFieldBytes(SlotFields(info, p, tags))
  {
    ghost var start := stream.buffer;
    for k := 0 to |tags|
      invariant stream.buffer == start + AllFieldBytes(SlotFields(info, p, tags[..k]))
    {
      var field := SlotField(info, p, tags[k]);
      WriteFields(stream, field);
      SlotFieldsOneMore(info, p, tags, k);
      AllBytesConcat(SlotFields(info, p, tags[..k]), field);
      Appended(start, AllFieldBytes(SlotFields(info, p, tags[..k])), AllFieldBytes(field));
    }
    assert tags[..|tags|] == tags;
  }

  /** Item::serializeAttr */
  method SerializeAttr(stream: PropWriteStream, info: TypeInfo, p: Props)
    modifies stream
    ensures stream.buffer == old(stream.buffer) + AllFieldBytes(Fields(info, p))
  {
    ghost var start := stream.buffer;
    ghost var a, b, c, d := CountField(info, p), ChargesField(p), SlotFields(info, p, SLOTS), CustomFieldOf(p);
    WriteFields(stream, CountField(info, p));
    WriteFields(stream, ChargesField(p));
    WriteSlots(stream, info, p, SLOTS);
    if p.custom.Some? {
      WriteCustom(stream, p.custom.value);
      OneFieldBytes(d);
    }
    AllBytesConcat(a, b);
    AllBytesConcat(a + b, c);
    AllBytesConcat(a + b + c, d);
    Regroup(start, AllFieldBytes(a), AllFieldBytes(b), AllFieldBytes(c));
    Regroup(AllFieldBytes(a), AllFieldBytes(b), AllFieldBytes(c), []);
    Appended(start, AllFieldBytes(a + b + c), AllFieldBytes(d));
  }

  lemma OneFieldBytes(fs: seq<Field>)
    requires |fs| == 1
    ensures AllFieldBytes(fs) == FieldBytes(fs[0])
  {
    assert fs[1..] == [] && FieldBytes(fs[0]) + [] == FieldBytes(fs[0]);
  }

  lemma SlotFieldsOneMore(info: TypeInfo, p: Props, tags: seq<byte>, k: nat)
    requires k < |tags|
    ensures SlotFields(info, p, tags[..k + 1]) == SlotFields(info, p, tags[..k]) + SlotField(info, p, tags[k])
  {
    assert tags[..k + 1][..k] == tags[..k];
  }

  /** read<uint8_t> */
  method ReadByte(stream: PropStream) returns (ok: bool, b: byte)
    requires stream.Valid()
    modifies stream`p
    ensures stream.Valid() && (ok <==> old(stream.Rest()) != [])
    ensures ok ==> b == old(stream.Rest())[0] && stream.Rest() == old(stream.Rest())[1..]
    ensures !ok ==> stream.Rest() == old(stream.Rest())
  {
    ghost var s := stream.Rest();
    var v;
    ok, v := stream.Read(1);
    b := 0;
    if ok {
      assert s[..1] == [s[0]] && [s[0]][1..] == [];
      assert Value([s[0]]) == s[0] + 256 * Value([]);
      b := v;
    }
  }

  /** CustomAttribute::unserialize */
  method ReadValue(stream: PropStream) returns (ok: bool, v: CustomValue)
    requires stream.Valid()
    modifies stream`p
    ensures stream.Valid() && (ok <==> TakeCustomValue(old(stream.Rest())).Some?)
    ensures ok ==> TakeCustomValue(old(stream.Rest())) == Some((v, stream.Rest()))
  {
    v := Blank;
    var pos;
    ok, pos := ReadByte(stream);
    if !ok {
      return;
    }
    if pos == 1 {
      var str;
      str, ok := stream.ReadString();
      v := CustomText(str);
    } else if pos == 2 {
      var n;
      ok, n := stream.Read(8);
      v := CustomInt(Signed(n, 8));
    } else if pos == 3 {
      var n;
      ok, n := stream.Read(8);
      v := CustomDouble(n);
    } else if pos == 4 {
      var n;
      ok, n := stream.Read(1);
      v := CustomBool(n != 0);
    } else {
      ok := false;
    }
  }

  /** What reading n more entries into p leads to. */
  function Entered(p: Props, s: Bytes, n: nat): Option<(Props, Bytes)> {
    var r := TakeEntries(s, n);
    if r.None? then None else Some((SetAllCustom(p, r.value.0), r.value.1))
  }

  lemma EnterOne(p: Props, s: Bytes, n: nat, key: Bytes, s1: Bytes, v: CustomValue, s2: Bytes)
    requires n > 0 && TakeString(s) == Some((key, s1)) && TakeCustomValue(s1) == Some((v, s2))
    ensures Entered(p, s, n) == Entered(SetCustom(p, (key, v)), s2, n - 1)
  {
    var r := TakeEntries(s2, n - 1);
    if r.Some? {
      assert ([(key, v)] + r.value.0)[1..] == r.value.0;
    }
  }

  /** The loop of readAttr over the entries of the custom map. */
  method ReadEntries(stream: PropStream, p0: Props, size: nat) returns (ok: bool, p: Props)
    requires stream.Valid()
    modifies stream`p
    ensures stream.Valid() && (ok <==> Entered(p0, old(stream.Rest()), size).Some?)
    ensures ok ==> Entered(p0, old(stream.Rest()), size) == Some((p, stream.Rest()))
  {
    ghost var s := stream.Rest();
    ok, p := true, p0;
    for i := 0 to size
      invariant stream.Valid() && ok && Entered(p0, s, size) == Entered(p, stream.Rest(), size - i)
    {
      ok, p := ReadEntry(stream, p, size - i);
      if !ok {
        return;
      }
    }
  }

  /** One entry of the custom map. */
  method ReadEntry(stream: PropStream, p0: Props, ghost n: nat) returns (ok: bool, p: Props)
    requires stream.Valid() && n > 0
    modifies stream`p
    ensures stream.Valid()
    ensures ok ==> Entered(p0, old(stream.Rest()), n) == Entered(p, stream.Rest(), n - 1)
    ensures !ok ==> Entered(p0, old(stream.Rest()), n).None?
  {
    ghost var before := stream.Rest();
    p := p0;
    var key, v;
    key, ok := stream.ReadString();
    if !ok {
      return;
    }
    ghost var middle := stream.Rest();
    ok, v := ReadValue(stream);
    if !ok {
      return;
    }
    EnterOne(p0, before, n, key, middle, v, stream.Rest());
    p := SetCustom(p, (key, v));
  }

  /** The values of Attr_ReadValue, with what they come with. */
  datatype AttrStep =
    | ReadError
    | ReadEnd(serializationCount: nat, rest: Bytes)
    | ReadContinue(props: Props, rest: Bytes)

  /** readAttr of Item and of Container. */
  function ReadStep(info: TypeInfo, p: Props, tag: byte, s: Bytes): AttrStep {
    if tag == ATTR_CONTAINER_ITEMS then
      var n := TakeNumber(s, 4);
      if !info.isContainer || n.None? then ReadError else ReadEnd(n.value.0, n.value.1)
    else
      var f := TakeField(tag, s);
      if f.None? then ReadError else ReadContinue(Apply(info, p, f.value.0), f.value.1)
  }

  method ReadAttr(stream: PropStream, info: TypeInfo, p: Props, tag: byte) returns (ret: AttrStep)
    requires stream.Valid()
    modifies stream`p
    ensures stream.Valid() && ret == ReadStep(info, p, tag, old(stream.Rest()))
    ensures !ret.ReadError? ==> stream.Rest() == ret.rest
  {
    var format := FormatOf(tag);
    if tag == ATTR_CONTAINER_ITEMS {
      if !info.isContainer {
        return ReadError;
      }
      var ok, n := stream.Read(4);
      ret := if ok then ReadEnd(n, stream.data[stream.p..]) else ReadError;
    } else if format.NumFormat? {
      var ok, v := stream.Read(format.width);
      ret := if ok then ReadContinue(Apply(info, p, NumField(tag, v)), stream.data[stream.p..]) else ReadError;
    } else if format.TextFormat? {
      var str, ok := stream.ReadString();
      ret := if ok then ReadContinue(Apply(info, p, TextField(tag, str)), stream.data[stream.p..]) else ReadError;
    } else if format.SkipFormat? {
      var ok := stream.Skip(format.n);
      ret := if ok then ReadContinue(p, stream.data[stream.p..]) else ReadError;
    } else if format.CustomFormat? {
      ret := ReadCustom(stream, info, p, tag);
    } else {
      ret := ReadError;
    }
  }

  method ReadCustom(stream: PropStream, info: TypeInfo, p: Props, tag: byte) returns (ret: AttrStep)
    requires stream.Valid() && tag == ATTR_CUSTOM_ATTRIBUTES
    modifies stream`p
    ensures stream.Valid() && ret == ReadStep(info, p, tag, old(stream.Rest()))
    ensures !ret.ReadError? ==> stream.Rest() == ret.rest
  {
    var ok, size := stream.Read(8);
    if !ok {
      return ReadError;
    }
    var q;
    ok, q := ReadEntries(stream, p, size);
    ret := if ok then ReadContinue(q, stream.data[stream.p..]) else ReadError;
  }

  /** Item::unserializeAttr */
  method UnserializeAttr(stream: PropStream, info: TypeInfo, p0: Props)
    returns (ok: bool, p: Props, serializationCount: nat)
    requires stream.Valid()
    modifies stream`p
    ensures stream.Valid() && (ok <==> TakeAttrs(info, p0, old(stream.Rest())).AttrDone?)
    ensures ok ==> TakeAttrs(info, p0, old(stream.Rest())) == AttrDone(p, serializationCount, stream.Rest())
  {
    ghost var all := TakeAttrs(info, p0, stream.Rest());
    p, serializationCount := p0, 0;
    while true
      invariant stream.Valid() && all == TakeAttrs(info, p, stream.Rest())
      decreases |stream.Rest()|
    {
      ghost var s := stream.Rest();
      var more, tag := ReadByte(stream);
      if !more || tag == 0 {
        return true, p, 0;
      }
      var ret := ReadAttr(stream, info, p, tag);
      match ret
      case ReadError => return false, p, 0;
      case ReadEnd(n, _) => return true, p, n;
      case ReadContinue(q, _) => p := q;
    }
  }
}
