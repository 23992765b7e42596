/** How src/condition.cpp and src/iologindata.cpp store the conditions of a player in one stream. */
module ConditionStream {
  import opened ItemTypes
  import opened PropStreams

  // tags of src/condition.h
  const CONDITIONATTR_TYPE: byte := 1
  const CONDITIONATTR_ID: byte := 2
  const CONDITIONATTR_TICKS: byte := 3
  const CONDITIONATTR_HEALTHTICKS: byte := 4
  const CONDITIONATTR_HEALTHGAIN: byte := 5
  const CONDITIONATTR_MANATICKS: byte := 6
  const CONDITIONATTR_MANAGAIN: byte := 7
  const CONDITIONATTR_DELAYED: byte := 8
  const CONDITIONATTR_OWNER: byte := 9
  const CONDITIONATTR_INTERVALDATA: byte := 10
  const CONDITIONATTR_SPEEDDELTA: byte := 11
  const CONDITIONATTR_FORMULA_MINA: byte := 12
  const CONDITIONATTR_FORMULA_MINB: byte := 13
  const CONDITIONATTR_FORMULA_MAXA: byte := 14
  const CONDITIONATTR_FORMULA_MAXB: byte := 15
  const CONDITIONATTR_SOULTICKS: byte := 20
  const CONDITIONATTR_SOULGAIN: byte := 21
  const CONDITIONATTR_OUTFIT: byte := 24
  const CONDITIONATTR_PERIODDAMAGE: byte := 25
  const CONDITIONATTR_ISBUFF: byte := 26
  const CONDITIONATTR_SUBID: byte := 27
  const CONDITIONATTR_ISAGGRESSIVE: byte := 28
  const CONDITIONATTR_HEALTHGAINPERCENT: byte := 32
  const CONDITIONATTR_MANAGAINPERCENT: byte := 33
  const CONDITIONATTR_CONSTANT: byte := 34
  const CONDITIONATTR_ENDTIME: byte := 35
  const CONDITIONATTR_END: byte := 254

  // condition types of src/enums.h
  const DAMAGE_TYPES: set<nat> := {0x1, 0x2, 0x4, 0x8, 0x8000, 0x10_0000, 0x20_0000, 0x40_0000}
  const SPEED_TYPES: set<nat> := {0x10, 0x20}
  const CONDITION_OUTFIT: nat := 0x40
  const CONDITION_REGENERATION: nat := 0x2000
  const CONDITION_SOUL: nat := 0x4000
  const CONDITION_MUTED: nat := 0x1_0000
  const GENERIC_TYPES: set<nat> :=
    {0x400, 0x1000, 0x80_0000, 0x100_0000, 0x1_0000, 0x2_0000, 0x4_0000, 0x200_0000, 0x200, 0x400_0000}

  const OUTFIT_SIZE: nat := 12
  const INTERVAL_SIZE: nat := 12
  const MAX_ENDTIME: int := 0x7FFF_FFFF_FFFF_FFFF

  datatype Interval = Interval(timeLeft: int, value: int, interval: int)

  /** The fields that the subclasses of Condition store; floats and outfits by their bytes. */
  datatype Kind =
    | Generic
    | Regeneration(
        healthTicks: nat, healthGain: nat, healthGainPercent: nat, manaTicks: nat, manaGain: nat, manaGainPercent: nat)
    | Soul(soulGain: nat, soulTicks: nat)
    | Damage(delayed: bool, periodDamage: int, damageList: seq<Interval>)
    | Speed(speedDelta: int, mina: nat, minb: nat, maxa: nat, maxb: nat)
    | Outfit(outfit: Bytes)

  datatype Condition = Condition(
    conditionType: nat, id: int, ticks: int, isBuff: bool, subId: nat, aggressive: bool, constant: bool,
    endTime: int, kind: Kind)

  /** What createCondition makes for a type, before fields are read; None for types that are not modelled. */
  function KindOf(conditionType: nat): Option<Kind> {
    if conditionType in DAMAGE_TYPES then Some(Damage(false, 0, []))
    else if conditionType in SPEED_TYPES then Some(Speed(0, 0, 0, 0, 0))
    else if conditionType == CONDITION_OUTFIT then Some(Outfit(seq(OUTFIT_SIZE, _ => 0)))
    else if conditionType == CONDITION_REGENERATION then Some(Regeneration(1000, 0, 0, 1000, 0, 0))
    else if conditionType == CONDITION_SOUL then Some(Soul(0, 0))
    else if conditionType in GENERIC_TYPES then Some(Generic)
    else None
  }

  /** Which types are of which kind, by their numbers. */
  lemma KindsAre(t: nat)
    ensures KindOf(t) == Some(Damage(false, 0, []))
       <==> t in {0x1, 0x2, 0x4, 0x8, 0x8000, 0x10_0000, 0x20_0000, 0x40_0000}
    ensures KindOf(t) == Some(Speed(0, 0, 0, 0, 0)) <==> t in {0x10, 0x20}
    ensures KindOf(t).Some? && KindOf(t).value.Outfit? <==> t == 0x40
    ensures KindOf(t) == Some(Regeneration(1000, 0, 0, 1000, 0, 0)) <==> t == 0x2000
    ensures KindOf(t) == Some(Soul(0, 0)) <==> t == 0x4000
    ensures KindOf(t) == Some(Generic) <==> t in GENERIC_TYPES
  {
  }

  predicate SameKind(a: Kind, b: Kind) {
    match a
    case Generic => b.Generic?
    case Regeneration(_, _, _, _, _, _) => b.Regeneration?
    case Soul(_, _) => b.Soul?
    case Damage(_, _, _) => b.Damage?
    case Speed(_, _, _, _, _) => b.Speed?
    case Outfit(_) => b.Outfit?
  }

  // ----- fields -----

  /** A tag and the bytes behind it. */
  datatype Field = Field(tag: byte, payload: Bytes)

  function N(tag: byte, v: int, n: nat): Field {
    Field(tag, NumberBytes(v, n))
  }

  function B(tag: byte, b: bool): Field {
    N(tag, if b then 1 else 0, 1)
  }

  /** How many bytes unserializeProp reads behind a tag. */
  function Length(kind: Kind, tag: byte): Option<nat> {
    match tag
    case 1 => Some(4)
    case 2 => Some(4)
    case 3 => Some(4)
    case 26 => Some(1)
    case 27 => Some(4)
    case 28 => Some(1)
    case 34 => Some(1)
    case 35 => Some(8)
    case _ =>
      if kind.Regeneration? && tag in {4, 5, 32, 6, 7, 33} then Some(4)
      else if kind.Soul? && tag in {20, 21} then Some(4)
      else if kind.Damage? && tag == CONDITIONATTR_DELAYED then Some(1)
      else if kind.Damage? && tag in {25, 9} then Some(4)
      else if kind.Damage? && tag == CONDITIONATTR_INTERVALDATA then Some(INTERVAL_SIZE)
      else if kind.Speed? && tag in {11, 12, 13, 14, 15} then Some(4)
      else if kind.Outfit? && tag == CONDITIONATTR_OUTFIT then Some(OUTFIT_SIZE)
      else None
  }

  function IntervalBytes(i: Interval): Bytes {
    NumberBytes(i.timeLeft, 4) + (NumberBytes(i.value, 4) + NumberBytes(i.interval, 4))
  }

  function IntervalOf(s: Bytes): Interval
    requires |s| == INTERVAL_SIZE
  {
    Interval(Signed(Value(s[..4]), 4), Signed(Value(s[4..8]), 4), Signed(Value(s[8..]), 4))
  }

  function IntervalFields(list: seq<Interval>): seq<Field> {
    if list == [] then []
        else IntervalFields(list[..|list| - 1]) + [Field(CONDITIONATTR_INTERVALDATA, IntervalBytes(list[|list| - 1]))]
  }

  /** The fields that the subclasses write. */
  function KindFields(kind: Kind): seq<Field> {
    match kind
    case Generic => []
    case Regeneration(ht, hg, hgp, mt, mg, mgp) =>
      [N(CONDITIONATTR_HEALTHTICKS, ht, 4), N(CONDITIONATTR_HEALTHGAIN, hg, 4),
          N(CONDITIONATTR_HEALTHGAINPERCENT, hgp, 4),
       N(CONDITIONATTR_MANATICKS, mt, 4), N(CONDITIONATTR_MANAGAIN, mg, 4), N(CONDITIONATTR_MANAGAINPERCENT, mgp, 4)]
    case Soul(gain, ticks) => [N(CONDITIONATTR_SOULGAIN, gain, 4), N(CONDITIONATTR_SOULTICKS, ticks, 4)]
    case Damage(delayed, periodDamage, list) =>
      [B(CONDITIONATTR_DELAYED, delayed), N(CONDITIONATTR_PERIODDAMAGE, periodDamage, 4)] + IntervalFields(list)
    case Speed(delta, mina, minb, maxa, maxb) =>
      [N(CONDITIONATTR_SPEEDDELTA, delta, 4), N(CONDITIONATTR_FORMULA_MINA, mina, 4),
          N(CONDITIONATTR_FORMULA_MINB, minb, 4),
       N(CONDITIONATTR_FORMULA_MAXA, maxa, 4), N(CONDITIONATTR_FORMULA_MAXB, maxb, 4)]
    case Outfit(outfit) => [Field(CONDITIONATTR_OUTFIT, outfit)]
  }

  /** setTicks, at the time now. */
  function SetTicks(c: Condition, ticks: int, now: int): Condition {
    c.(ticks := ticks, endTime := ticks + now)
  }

  /** unserializeProp of all classes. */
  function Apply(c: Condition, f: Field, now: int): Condition
    requires Length(c.kind, f.tag) == Some(|f.payload|)
  {
    var v := Value(f.payload);
    match f.tag
    case 1 => c.(conditionType := v)
    case 2 => c.(id := Signed(v % 256, 1))
    case 3 => c.(ticks := Signed(v, 4))
    case 26 => c.(isBuff := v != 0)
    case 27 => c.(subId := v)
    case 28 => c.(aggressive := v != 0)
    case 34 => c.(constant := v != 0)
    case 35 => c.(endTime := Signed(v, 8))
    case _ =>
      match c.kind
      case Regeneration(_, _, _, _, _, _) =>
        c.(kind := if f.tag == CONDITIONATTR_HEALTHTICKS then c.kind.(healthTicks := v)
                   else if f.tag == CONDITIONATTR_HEALTHGAIN then c.kind.(healthGain := v)
                   else if f.tag == CONDITIONATTR_HEALTHGAINPERCENT then c.kind.(healthGainPercent := v)
                   else if f.tag == CONDITIONATTR_MANATICKS then c.kind.(manaTicks := v)
                   else if f.tag == CONDITIONATTR_MANAGAIN then c.kind.(manaGain := v)
                   else c.kind.(manaGainPercent := v))
      case Soul(_, _) =>
        c.(kind := if f.tag == CONDITIONATTR_SOULGAIN then c.kind.(soulGain := v) else c.kind.(soulTicks := v))
      case Damage(_, _, list) =>
        if f.tag == CONDITIONATTR_DELAYED then c.(kind := c.kind.(delayed := v != 0))
        else if f.tag == CONDITIONATTR_PERIODDAMAGE then c.(kind := c.kind.(periodDamage := Signed(v, 4)))
        else if f.tag == CONDITIONATTR_OWNER then c
        else
          var i := IntervalOf(f.payload);
          var d := c.(kind := c.kind.(damageList := list + [i]));
          if c.ticks != -1 then SetTicks(d, c.ticks + i.interval, now) else d
      case Speed(_, _, _, _, _) =>
        c.(kind := if f.tag == CONDITIONATTR_SPEEDDELTA then c.kind.(speedDelta := Signed(v, 4))
                   else if f.tag == CONDITIONATTR_FORMULA_MINA then c.kind.(mina := v)
                   else if f.tag == CONDITIONATTR_FORMULA_MINB then c.kind.(minb := v)
                   else if f.tag == CONDITIONATTR_FORMULA_MAXA then c.kind.(maxa := v)
                   else c.kind.(maxb := v))
      case Outfit(_) => c.(kind := Kind.Outfit(f.payload))
  }

  predicate FieldFits(kind: Kind, f: Field) {
    Length(kind, f.tag) == Some(|f.payload|)
  }

  predicate AllFit(kind: Kind, fs: seq<Field>) {
    forall i {:trigger fs[i]} | 0 <= i < |fs| :: FieldFits(kind, fs[i])
  }

  lemma ApplyKeepsKind(c: Condition, f: Field, now: int)
    requires FieldFits(c.kind, f)
    ensures SameKind(c.kind, Apply(c, f, now).kind)
  {
  }

  lemma SameKindFits(a: Kind, b: Kind, fs: seq<Field>)
    requires SameKind(a, b) && AllFit(a, fs)
    ensures AllFit(b, fs)
  {
  }

  function ApplyAll(c: Condition, fs: seq<Field>, now: int): Condition
    requires AllFit(c.kind, fs)
    decreases fs
  {
    if fs == [] then c
    else
      ApplyKeepsKind(c, fs[0], now);
      SameKindFits(c.kind, Apply(c, fs[0], now).kind, fs[1..]);
      ApplyAll(Apply(c, fs[0], now), fs[1..], now)
  }

  // ----- reading -----

  /** The outcome of unserialize; after a failure the stream stands behind the tag that could not be read. */
  datatype PropResult = PropError(rest: Bytes) | PropDone(condition: Condition, rest: Bytes)

  function TakeProps(c: Condition, s: Bytes, now: int): (r: PropResult)
    ensures |r.rest| <= |s|
    decreases |s|
  {
    if s == [] then PropDone(c, [])
    else if s[0] == CONDITIONATTR_END then PropDone(c, s[1..])
    else
      var n := Length(c.kind, s[0]);
      if n.None? || |s[1..]| < n.value then PropError(s[1..])
      else TakeProps(Apply(c, Field(s[0], s[1..][..n.value]), now), s[1..][n.value..], now)
  }

  /** A tag that must be there, and a number of n bytes behind it. */
  function TakeTagged(s: Bytes, tag: byte, n: nat): (r: Option<(nat, Bytes)>)
    ensures r.Some? ==> |r.value.1| == |s| - 1 - n
  {
    if s == [] || s[0] != tag then None else TakeNumber(s[1..], n)
  }

  const HEADER: seq<(byte, nat)> :=
    [(CONDITIONATTR_TYPE, 4), (CONDITIONATTR_ID, 4), (CONDITIONATTR_TICKS, 4), (CONDITIONATTR_ISBUFF, 1),
     (CONDITIONATTR_SUBID, 4), (CONDITIONATTR_ISAGGRESSIVE, 1), (CONDITIONATTR_CONSTANT, 1)]

  function TakeHeader(s: Bytes, header: seq<(byte, nat)>): (r: Option<(seq<nat>, Bytes)>)
    ensures r.Some? ==> |r.value.0| == |header| && |r.value.1| + |header| <= |s|
    decreases header
  {
    if header == [] then Some(([], s))
    else
      var v := TakeTagged(s, header[0].0, header[0].1);
      if v.None? then None
      else
        var more := TakeHeader(v.value.1, header[1..]);
        if more.None? then None else Some(([v.value.0] + more.value.0, more.value.1))
  }

  /** The new condition for the values of the header. A damage condition is made without ticks. */
  function Created(v: seq<nat>): Option<Condition>
    requires |v| == 7
  {
    var kind := KindOf(v[0]);
    if kind.None? then None
    else
      var ticks := if kind.value.Damage? then 0 else Signed(v[2], 4);
      Some(Condition(v[0], Signed(v[1] % 256, 1), ticks, v[3] != 0, v[4], v[5] != 0, v[6] != 0,
                     if ticks == -1 then MAX_ENDTIME else 0, kind.value))
  }

  /** createCondition from a stream */
  function TakeCondition(s: Bytes): (r: Option<(Condition, Bytes)>)
    ensures r.Some? ==> |r.value.1| < |s|
  {
    var h := TakeHeader(s, HEADER);
    if h.None? then None
    else
      var c := Created(h.value.0);
      if c.None? then None
      else if !c.value.constant then Some((c.value, h.value.1))
      else
        var endTime := TakeTagged(h.value.1, CONDITIONATTR_ENDTIME, 8);
        if endTime.None? then None
        else Some((c.value.(endTime := Signed(endTime.value.0, 8)), endTime.value.1))
  }

  /** The loop of loadPlayer: every condition that can be read is put in front of the others. */
  function TakeConditions(s: Bytes, list: seq<Condition>, now: int): seq<Condition>
    decreases |s|
  {
    var c := TakeCondition(s);
    if c.None? then list
    else
      match TakeProps(c.value.0, c.value.1, now)
      case PropError(rest) => TakeConditions(rest, list, now)
      case PropDone(condition, rest) => TakeConditions(rest, [condition] + list, now)
  }

  // ----- writing -----

  function FieldBytes(f: Field): Bytes {
    [f.tag] + f.payload
  }

  function AllFieldBytes(fs: seq<Field>): Bytes {
    if fs == [] then [] else FieldBytes(fs[0]) + AllFieldBytes(fs[1..])
  }

  function Flag(b: bool): nat {
    if b then 1 else 0
  }

  function HeaderValues(c: Condition): seq<int> {
    [c.conditionType, c.id, c.ticks, Flag(c.isBuff), c.subId, Flag(c.aggressive), Flag(c.constant)]
  }

  function HeaderFields(header: seq<(byte, nat)>, v: seq<int>): seq<Field>
    requires |header| == |v|
  {
    if header == [] then [] else [N(header[0].0, v[0], header[0].1)] + HeaderFields(header[1..], v[1..])
  }

  function EndTimeFields(c: Condition): seq<Field> {
    if c.constant then [N(CONDITIONATTR_ENDTIME, c.endTime, 8)] else []
  }

  /** serialize, and the end mark that savePlayer writes. */
  function ConditionBytes(c: Condition): Bytes {
    AllFieldBytes(HeaderFields(HEADER, HeaderValues(c)))
    + (AllFieldBytes(EndTimeFields(c)) + (AllFieldBytes(KindFields(c.kind)) + [CONDITIONATTR_END]))
  }

  /** isPersistent */
  predicate IsPersistent(c: Condition) {
    c.ticks != -1 && (c.id == -1 || c.id == 0 || c.conditionType == CONDITION_MUTED)
  }

  /** What savePlayer writes for a list of conditions. */
  function SavedBytes(cs: seq<Condition>): Bytes {
    if cs == [] then []
    else (if IsPersistent(cs[0]) || cs[0].constant then ConditionBytes(cs[0]) else []) + SavedBytes(cs[1..])
  }

  // ----- reading back what was written -----

  predicate Unsigned(v: int, n: nat) {
    0 <= v < Limit(n)
  }

  predicate Fits(v: int, n: nat) {
    0 - Limit(n) <= 2 * v < Limit(n)
  }

  function Total(list: seq<Interval>): int {
    if list == [] then 0 else Total(list[..|list| - 1]) + list[|list| - 1].interval
  }

  predicate IntervalFits(i: Interval) {
    Fits(i.timeLeft, 4) && Fits(i.value, 4) && Fits(i.interval, 4) && i.interval > 0
  }

  /** Fields in the ranges of their types; the intervals of damage are positive, as addDamage makes them. */
  predicate KindFits(kind: Kind) {
    match kind
    case Generic => true
    case Regeneration(ht, hg, hgp, mt, mg, mgp) =>
      Unsigned(ht, 4) && Unsigned(hg, 4) && Unsigned(hgp, 4) && Unsigned(mt, 4) && Unsigned(mg, 4) && Unsigned(mgp, 4)
    case Soul(gain, ticks) => Unsigned(gain, 4) && Unsigned(ticks, 4)
    case Damage(_, periodDamage, list) =>
      Fits(periodDamage, 4) && forall i {:trigger list[i]} | 0 <= i < |list| :: IntervalFits(list[i])
    case Speed(delta, mina, minb, maxa, maxb) =>
      Fits(delta, 4) && Unsigned(mina, 4) && Unsigned(minb, 4) && Unsigned(maxa, 4) && Unsigned(maxb, 4)
    case Outfit(outfit) => |outfit| == OUTFIT_SIZE
  }

  predicate ConditionFits(c: Condition) {
    && Unsigned(c.conditionType, 4) && KindOf(c.conditionType).Some? && SameKind(KindOf(c.conditionType).value, c.kind)
    && -128 <= c.id < 128 && Fits(c.ticks, 4) && Unsigned(c.subId, 4) && Fits(c.endTime, 8) && KindFits(c.kind)
  }

  /** The condition before the fields of its subclass are read. */
  function Made(c: Condition): Condition
    requires KindOf(c.conditionType).Some?
  {
    var ticks := if c.kind.Damage? then 0 else c.ticks;
    c.(ticks := ticks, kind := KindOf(c.conditionType).value,
       endTime := if c.constant then c.endTime else if ticks == -1 then MAX_ENDTIME else 0)
  }

  /**
   What comes back. The end time is only stored for constant conditions. A damage condition has the sum of its
   intervals as its ticks, and ends that long after the time at which it is read.
   */
  function Renewed(c: Condition, now: int): Condition
    requires KindOf(c.conditionType).Some?
  {
    var made := Made(c).(kind := c.kind);
    if c.kind.Damage? && c.kind.damageList != [] then SetTicks(made, Total(c.kind.damageList), now) else made
  }

  lemma TagThen(tag: byte, payload: Bytes, rest: Bytes)
    ensures [tag] + payload + rest != [] && ([tag] + payload + rest)[0] == tag
    ensures ([tag] + payload + rest)[1..] == payload + rest
  {
  }

  lemma Regroup(a: Bytes, b: Bytes, c: Bytes, d: Bytes)
    ensures a + b + c + d == a + (b + (c + d)) && a + b + c == a + (b + c)
  {
  }

  lemma TaggedComesBack(tag: byte, v: int, n: nat, rest: Bytes)
    ensures TakeTagged(FieldBytes(N(tag, v, n)) + rest, tag, n) == Some((Narrow(v, n), rest))
  {
    TagThen(tag, NumberBytes(v, n), rest);
    NumberComesBack(v, n, rest);
  }

  function NarrowAll(header: seq<(byte, nat)>, v: seq<int>): (r: seq<nat>)
    requires |header| == |v|
    ensures |r| == |v| && forall i | 0 <= i < |v| :: r[i] == Narrow(v[i], header[i].1)
  {
    if v == [] then [] else [Narrow(v[0], header[0].1)] + NarrowAll(header[1..], v[1..])
  }

  lemma {:induction false} HeaderComesBack(header: seq<(byte, nat)>, v: seq<int>, rest: Bytes)
    requires |header| == |v|
    ensures TakeHeader(AllFieldBytes(HeaderFields(header, v)) + rest, header) == Some((NarrowAll(header, v), rest))
  {
    if header == [] {
      assert AllFieldBytes(HeaderFields(header, v)) + rest == rest;
    } else {
      var f, more := N(header[0].0, v[0], header[0].1), HeaderFields(header[1..], v[1..]);
      assert HeaderFields(header, v)[1..] == more;
      var tail := AllFieldBytes(more) + rest;
      TaggedComesBack(header[0].0, v[0], header[0].1, tail);
      HeaderComesBack(header[1..], v[1..], rest);
      Regroup(FieldBytes(f), AllFieldBytes(more), rest, []);
      HeaderThen(FieldBytes(f) + tail, header, Narrow(v[0], header[0].1), tail, NarrowAll(header[1..], v[1..]), rest);
    }
  }

  lemma HeaderThen(s: Bytes, header: seq<(byte, nat)>, w: nat, tail: Bytes, ws: seq<nat>, rest: Bytes)
    requires header != [] && TakeTagged(s, header[0].0, header[0].1) == Some((w, tail))
    requires TakeHeader(tail, header[1..]) == Some((ws, rest))
    ensures TakeHeader(s, header) == Some(([w] + ws, rest))
  {
  }

  lemma Limits()
    ensures Limit(1) == 256 && Limit(2) == 65536 && Limit(4) == 0x1_0000_0000 && Limit(8) == 0x1_0000_0000_0000_0000
  {
  }

  /** The header of a condition makes the condition it was written for. */
  lemma CreatedIs(c: Condition)
    requires ConditionFits(c)
    ensures Created(NarrowAll(HEADER, HeaderValues(c)))
         == Some(Made(c).(endTime := if Made(c).ticks == -1 then MAX_ENDTIME else 0))
  {
    Limits();
    var w := NarrowAll(HEADER, HeaderValues(c));
    SmallMod(c.conditionType, Limit(4));
    SmallMod(c.subId, Limit(4));
    SignedNarrow(c.ticks, 4);
    IdComesBack(c.id);
    assert w[0] == c.conditionType && w[1] == Narrow(c.id, 4) && w[2] == Narrow(c.ticks, 4) && w[4] == c.subId;
    assert w[3] == Flag(c.isBuff) && w[5] == Flag(c.aggressive) && w[6] == Flag(c.constant);
  }

  lemma IdComesBack(id: int)
    requires -128 <= id < 128
    ensures Signed(Narrow(id, 4) % 256, 1) == id
  {
    Limits();
    if id < 0 {
      ModOfNegative(id, Limit(4));
      assert Narrow(id, 4) == 0x1_0000_0000 + id;
      assert (0x1_0000_0000 + id) % 256 == 256 + id;
    } else {
      SmallMod(id, Limit(4));
    }
  }

  lemma OneFieldBytes(f: Field)
    ensures AllFieldBytes([f]) == FieldBytes(f)
  {
    assert [f][1..] == [] && FieldBytes(f) + [] == FieldBytes(f);
  }

  lemma ConditionStarts(c: Condition, rest: Bytes)
    requires ConditionFits(c)
    ensures TakeCondition(ConditionBytes(c) + rest)
         == Some((Made(c), AllFieldBytes(KindFields(c.kind)) + [CONDITIONATTR_END] + rest))
  {
    var head, end, fields := AllFieldBytes(HeaderFields(HEADER, HeaderValues(c))), AllFieldBytes(EndTimeFields(c)),
      AllFieldBytes(KindFields(c.kind));
    var tail := fields + [CONDITIONATTR_END] + rest;
    HeaderComesBack(HEADER, HeaderValues(c), end + tail);
    CreatedIs(c);
    Regroup(end, fields + [CONDITIONATTR_END], rest, []);
    Regroup(head, end + (fields + [CONDITIONATTR_END]), rest, []);
    if c.constant {
      var f := N(CONDITIONATTR_ENDTIME, c.endTime, 8);
      OneFieldBytes(f);
      TaggedComesBack(CONDITIONATTR_ENDTIME, c.endTime, 8, tail);
      SignedNarrow(c.endTime, 8);
    } else {
      assert end + tail == tail;
    }
  }

  lemma {:induction false} FieldsComeBack(c: Condition, fs: seq<Field>, rest: Bytes, now: int)
    requires AllFit(c.kind, fs)
    ensures TakeProps(c, AllFieldBytes(fs) + rest, now) == TakeProps(ApplyAll(c, fs, now), rest, now)
    decreases fs
  {
    if fs == [] {
      assert AllFieldBytes(fs) + rest == rest;
    } else {
      var f, more := fs[0], AllFieldBytes(fs[1..]) + rest;
      assert FieldFits(c.kind, fs[0]);
      TagThen(f.tag, f.payload, more);
      Regroup(FieldBytes(f), AllFieldBytes(fs[1..]), rest, []);
      PropThen(c, FieldBytes(f) + more, f, more, now);
      ApplyKeepsKind(c, f, now);
      SameKindFits(c.kind, Apply(c, f, now).kind, fs[1..]);
      FieldsComeBack(Apply(c, f, now), fs[1..], rest, now);
    }
  }

  lemma PropThen(c: Condition, s: Bytes, f: Field, more: Bytes, now: int)
    requires FieldFits(c.kind, f) && s != [] && s[0] == f.tag && s[1..] == f.payload + more
    ensures TakeProps(c, s, now) == TakeProps(Apply(c, f, now), more, now)
  {
    assert s[1..][..|f.payload|] == f.payload && s[1..][|f.payload|..] == more;
  }

  lemma EndOfProps(c: Condition, rest: Bytes, now: int)
    ensures TakeProps(c, [CONDITIONATTR_END] + rest, now) == PropDone(c, rest)
  {
    assert ([CONDITIONATTR_END] + rest)[1..] == rest;
  }

  // ----- what the fields of a kind make of a new condition -----

  lemma ApplyOne(c: Condition, f: Field, fs: seq<Field>, now: int)
    requires FieldFits(c.kind, f) && AllFit(c.kind, fs)
    ensures AllFit(c.kind, [f] + fs) && AllFit(Apply(c, f, now).kind, fs)
    ensures ApplyAll(c, [f] + fs, now) == ApplyAll(Apply(c, f, now), fs, now)
  {
    ApplyKeepsKind(c, f, now);
    SameKindFits(c.kind, Apply(c, f, now).kind, fs);
    assert ([f] + fs)[1..] == fs;
  }

  lemma {:induction false} ApplyConcat(c: Condition, a: seq<Field>, b: seq<Field>, now: int)
    requires AllFit(c.kind, a) && AllFit(c.kind, b)
    ensures AllFit(c.kind, a + b) && AllFit(ApplyAll(c, a, now).kind, b)
    ensures ApplyAll(c, a + b, now) == ApplyAll(ApplyAll(c, a, now), b, now)
    decreases a
  {
    if a == [] {
      assert a + b == b;
    } else {
      var c' := Apply(c, a[0], now);
      assert FieldFits(c.kind, a[0]);
      ApplyKeepsKind(c, a[0], now);
      SameKindFits(c.kind, c'.kind, a[1..]);
      SameKindFits(c.kind, c'.kind, b);
      ApplyConcat(c', a[1..], b, now);
      assert (a + b)[1..] == a[1..] + b;
    }
  }

  lemma NumberFits(v: int, n: nat)
    ensures |NumberBytes(v, n)| == n
    ensures Unsigned(v, n) ==> Value(NumberBytes(v, n)) == v
    ensures n > 0 && Fits(v, n) ==> Signed(Value(NumberBytes(v, n)), n) == v
  {
    ValueOfLittle(Narrow(v, n), n);
    if Unsigned(v, n) {
      SmallMod(v, Limit(n));
    }
    if n > 0 {
      SignedNarrow(v, n);
    }
  }

  lemma IntervalComesBack(i: Interval)
    requires IntervalFits(i)
    ensures |IntervalBytes(i)| == INTERVAL_SIZE && IntervalOf(IntervalBytes(i)) == i
  {
    var a, b, c := NumberBytes(i.timeLeft, 4), NumberBytes(i.value, 4), NumberBytes(i.interval, 4);
    NumberFits(i.timeLeft, 4);
    NumberFits(i.value, 4);
    NumberFits(i.interval, 4);
    var s := IntervalBytes(i);
    assert s[..4] == a && s[4..8] == b && s[8..] == c;
  }

  /** Reading the intervals adds them to the list and their lengths to the ticks. */
  lemma {:induction false} IntervalsApply(c: Condition, list: seq<Interval>, now: int)
    requires c.kind.Damage? && c.kind.damageList == [] && c.ticks == 0
    requires forall i {:trigger list[i]} | 0 <= i < |list| :: IntervalFits(list[i])
    ensures AllFit(c.kind, IntervalFields(list)) && Total(list) >= 0
    ensures var d := c.(kind := c.kind.(damageList := list));
            ApplyAll(c, IntervalFields(list), now) == if list == [] then d else SetTicks(d, Total(list), now)
  {
    if list != [] {
      var front, last := list[..|list| - 1], list[|list| - 1];
      assert front + [last] == list && IntervalFits(last);
      IntervalsApply(c, front, now);
      var e := ApplyAll(c, IntervalFields(front), now);
      assert e.ticks == Total(front) && e.kind == c.kind.(damageList := front);
      assert e == c.(kind := e.kind, ticks := e.ticks, endTime := e.endTime);
      OneMoreInterval(c, front, last, e, now);
    }
  }

  lemma OneMoreInterval(c: Condition, front: seq<Interval>, last: Interval, e: Condition, now: int)
    requires c.kind.Damage? && IntervalFits(last) && AllFit(c.kind, IntervalFields(front)) && Total(front) >= 0
    requires ApplyAll(c, IntervalFields(front), now) == e && e.kind == c.kind.(damageList := front)
    requires e.ticks == Total(front) && e == c.(kind := e.kind, ticks := e.ticks, endTime := e.endTime)
    ensures AllFit(c.kind, IntervalFields(front + [last])) && Total(front + [last]) == Total(front) + last.interval
    ensures ApplyAll(c, IntervalFields(front + [last]), now)
         == SetTicks(c.(kind := c.kind.(damageList := front + [last])), Total(front + [last]), now)
  {
    var list, f := front + [last], Field(CONDITIONATTR_INTERVALDATA, IntervalBytes(last));
    assert list[..|list| - 1] == front && list[|list| - 1] == last;
    IntervalComesBack(last);
    assert FieldFits(c.kind, f) && IntervalFields(list) == IntervalFields(front) + [f];
    ApplyConcat(c, IntervalFields(front), [f], now);
    ApplyInterval(e, front, last, now);
    assert ApplyAll(c, IntervalFields(list), now) == ApplyAll(e, [f], now);
    SameTicked(c, e, e.kind.(damageList := list), Total(list), now);
  }

  lemma SameTicked(c: Condition, e: Condition, kind: Kind, ticks: int, now: int)
    requires e == c.(kind := e.kind, ticks := e.ticks, endTime := e.endTime)
    ensures SetTicks(e.(kind := kind), ticks, now) == SetTicks(c.(kind := kind), ticks, now)
  {
  }

  lemma ApplyInterval(e: Condition, front: seq<Interval>, last: Interval, now: int)
    requires e.kind.Damage? && e.kind.damageList == front && e.ticks >= 0 && IntervalFits(last)
    ensures var f := Field(CONDITIONATTR_INTERVALDATA, IntervalBytes(last));
            && AllFit(e.kind, [f])
            && ApplyAll(e, [f], now)
               == SetTicks(e.(kind := e.kind.(damageList := front + [last])), e.ticks + last.interval, now)
  {
    var f := Field(CONDITIONATTR_INTERVALDATA, IntervalBytes(last));
    IntervalComesBack(last);
    ApplyOne(e, f, [], now);
    assert [f] + [] == [f];
  }

  /** The fields of a kind, applied to a new condition, make the kind that was written. */
  lemma KindComesBack(c: Condition, now: int)
    requires ConditionFits(c)
    ensures AllFit(Made(c).kind, KindFields(c.kind))
    ensures ApplyAll(Made(c), KindFields(c.kind), now) == Renewed(c, now)
  {
    var made := Made(c);
    match c.kind
    case Generic =>
    case Regeneration(_, _, _, _, _, _) => RegenerationComesBack(made, c.kind, now);
    case Soul(gain, ticks) =>
      var f, g := N(CONDITIONATTR_SOULGAIN, gain, 4), N(CONDITIONATTR_SOULTICKS, ticks, 4);
      NumberFits(gain, 4);
      NumberFits(ticks, 4);
      var d := ApplyTwo(made, f, g, now);
    case Damage(delayed, periodDamage, list) =>
      var f, g := B(CONDITIONATTR_DELAYED, delayed), N(CONDITIONATTR_PERIODDAMAGE, periodDamage, 4);
      Limits();
      NumberFits(Flag(delayed), 1);
      NumberFits(periodDamage, 4);
      var d := ApplyTwo(made, f, g, now);
      IntervalsApply(d, list, now);
      SameKindFits(d.kind, made.kind, IntervalFields(list));
      ApplyConcat(made, [f, g], IntervalFields(list), now);
    case Speed(_, _, _, _, _) => SpeedComesBack(made, c.kind, now);
    case Outfit(outfit) =>
      var f := Field(CONDITIONATTR_OUTFIT, outfit);
      assert [f][1..] == [];
  }

  lemma ApplyTwo(c: Condition, f: Field, g: Field, now: int) returns (d: Condition)
    requires FieldFits(c.kind, f) && FieldFits(c.kind, g)
    ensures AllFit(c.kind, [f, g]) && FieldFits(Apply(c, f, now).kind, g)
    ensures d == Apply(Apply(c, f, now), g, now) == ApplyAll(c, [f, g], now)
  {
    ApplyKeepsKind(c, f, now);
    ApplyOne(Apply(c, f, now), g, [], now);
    ApplyOne(c, f, [g], now);
    assert [g] + [] == [g] && [f] + [g] == [f, g];
    d := ApplyAll(c, [f, g], now);
  }

  lemma RegenerationComesBack(c: Condition, kind: Kind, now: int)
    requires c.kind.Regeneration? && kind.Regeneration? && KindFits(kind)
    ensures AllFit(c.kind, KindFields(kind)) && ApplyAll(c, KindFields(kind), now) == c.(kind := kind)
  {
    NumberFits(kind.healthTicks, 4);
    NumberFits(kind.healthGain, 4);
    NumberFits(kind.healthGainPercent, 4);
    NumberFits(kind.manaTicks, 4);
    NumberFits(kind.manaGain, 4);
    NumberFits(kind.manaGainPercent, 4);
    var f := KindFields(kind);
    var a := ApplyTwo(c, f[0], f[1], now);
    var b := ApplyTwo(a, f[2], f[3], now);
    var d := ApplyTwo(b, f[4], f[5], now);
    ApplyConcat(b, [], [f[4], f[5]], now);
    ApplyConcat(a, [f[2], f[3]], [f[4], f[5]], now);
    ApplyConcat(c, [f[0], f[1]], [f[2], f[3]] + [f[4], f[5]], now);
    assert f == [f[0], f[1]] + ([f[2], f[3]] + [f[4], f[5]]);
  }

  lemma SpeedComesBack(c: Condition, kind: Kind, now: int)
    requires c.kind.Speed? && kind.Speed? && KindFits(kind)
    ensures AllFit(c.kind, KindFields(kind)) && ApplyAll(c, KindFields(kind), now) == c.(kind := kind)
  {
    NumberFits(kind.speedDelta, 4);
    NumberFits(kind.mina, 4);
    NumberFits(kind.minb, 4);
    NumberFits(kind.maxa, 4);
    NumberFits(kind.maxb, 4);
    var f := KindFields(kind);
    var a := ApplyTwo(c, f[0], f[1], now);
    var b := ApplyTwo(a, f[2], f[3], now);
    assert [f[4]][1..] == [];
    ApplyConcat(a, [f[2], f[3]], [f[4]], now);
    ApplyConcat(c, [f[0], f[1]], [f[2], f[3]] + [f[4]], now);
    assert f == [f[0], f[1]] + ([f[2], f[3]] + [f[4]]);
  }

  lemma ConditionComesBack(c: Condition, rest: Bytes, now: int) returns (s: Bytes)
    requires ConditionFits(c)
    ensures TakeCondition(ConditionBytes(c) + rest) == Some((Made(c), s))
    ensures TakeProps(Made(c), s, now) == PropDone(Renewed(c, now), rest)
  {
    ConditionStarts(c, rest);
    KindComesBack(c, now);
    var fields := AllFieldBytes(KindFields(c.kind));
    s := fields + [CONDITIONATTR_END] + rest;
    Regroup(fields, [CONDITIONATTR_END], rest, []);
    FieldsComeBack(Made(c), KindFields(c.kind), [CONDITIONATTR_END] + rest, now);
    EndOfProps(Renewed(c, now), rest, now);
  }

  predicate ConditionsFit(cs: seq<Condition>) {
    forall i {:trigger cs[i]} | 0 <= i < |cs| :: ConditionFits(cs[i])
  }

  /** The conditions that are stored, the last one first, as they come back. */
  function Reloaded(cs: seq<Condition>, now: int): seq<Condition>
    requires ConditionsFit(cs)
  {
    if cs == [] then []
    else
      assert ConditionFits(cs[0]);
      Reloaded(cs[1..], now) + if IsPersistent(cs[0]) || cs[0].constant then [Renewed(cs[0], now)] else []
  }

  /** Loading stored conditions gives those that are stored, renewed and in reverse order. */
  lemma {:induction false} RoundTrip(cs: seq<Condition>, list: seq<Condition>, now: int)
    requires ConditionsFit(cs)
    ensures TakeConditions(SavedBytes(cs), list, now) == Reloaded(cs, now) + list
    decreases cs
  {
    if cs == [] {
      assert TakeHeader([], HEADER).None?;
      assert Reloaded(cs, now) + list == list;
    } else {
      var c, more := cs[0], SavedBytes(cs[1..]);
      assert ConditionFits(cs[0]);
      if IsPersistent(c) || c.constant {
        var s := ConditionComesBack(c, more, now);
        LoadOne(ConditionBytes(c) + more, Made(c), s, Renewed(c, now), more, list, now);
        RoundTrip(cs[1..], [Renewed(c, now)] + list, now);
        Associative(Reloaded(cs[1..], now), [Renewed(c, now)], list);
      } else {
        assert [] + more == more;
        RoundTrip(cs[1..], list, now);
        assert Reloaded(cs[1..], now) + [] == Reloaded(cs[1..], now);
      }
    }
  }

  lemma Associative<T>(a: seq<T>, b: seq<T>, c: seq<T>)
    ensures a + b + c == a + (b + c)
  {
  }

  lemma LoadOne(s: Bytes, c: Condition, s1: Bytes, d: Condition, rest: Bytes, list: seq<Condition>, now: int)
    requires TakeCondition(s) == Some((c, s1)) && TakeProps(c, s1, now) == PropDone(d, rest)
    ensures TakeConditions(s, list, now) == TakeConditions(rest, [d] + list, now)
  {
  }

  /**
   One condition by its fields: constant ones come back, and those with an end that are a player's own, from combat,
   or mute him; all but the clocks is as it was.
   */
  lemma StoredAlone(c: Condition, now: int)
    requires ConditionFits(c)
    ensures var back := TakeConditions(SavedBytes([c]), [], now);
            if c.constant || (c.ticks != -1 && (c.id == 0 || c.id == -1 || c.conditionType == CONDITION_MUTED)) then
              && |back| == 1 && back[0] == c.(ticks := back[0].ticks, endTime := back[0].endTime)
              && (!c.kind.Damage? ==> back[0].ticks == c.ticks)
              && (!c.kind.Damage? || c.kind.damageList == [] ==>
                    back[0].endTime == if c.constant then c.endTime
                      else if c.ticks == -1 && !c.kind.Damage? then MAX_ENDTIME else 0)
              && (c.kind.Damage? ==> back[0].ticks == Total(c.kind.damageList))
              && (c.kind.Damage? && c.kind.damageList != [] ==> back[0].endTime == now + Total(c.kind.damageList))
            else back == []
  {
    RoundTrip([c], [], now);
    assert [c][1..] == [] && Reloaded([], now) == [];
  }

  /** A condition whose type is not known, or whose header is cut off, ends the loading. */
  lemma LoadingEnds(s: Bytes, list: seq<Condition>, now: int)
    requires var h := TakeHeader(s, HEADER); h.Some? ==> KindOf(h.value.0[0]).None?
    ensures TakeConditions(s, list, now) == list
  {
  }

  /** Which conditions come back as they were. */
  lemma RenewedIsSame(c: Condition, now: int)
    requires ConditionFits(c)
    ensures Renewed(c, now) == c <==>
            if c.kind.Damage? then
              && c.ticks == Total(c.kind.damageList)
              && (if c.kind.damageList != [] then c.endTime == c.ticks + now else c.constant || c.endTime == 0)
            else c.constant || c.endTime == if c.ticks == -1 then MAX_ENDTIME else 0
  {
  }

  // ----- the methods over the streams -----

  method WriteField(stream: PropWriteStream, f: Field)
    modifies stream
    ensures stream.buffer == old(stream.buffer) + FieldBytes(f)
  {
    stream.buffer := stream.buffer + [f.tag] + f.payload;
    Regroup(old(stream.buffer), [f.tag], f.payload, []);
  }

  lemma OneMoreField(fs: seq<Field>, i: nat)
    requires i < |fs|
    ensures AllFieldBytes(fs[..i + 1]) == AllFieldBytes(fs[..i]) + FieldBytes(fs[i])
  {
    FieldBytesConcat(fs[..i], [fs[i]]);
    assert fs[..i + 1] == fs[..i] + [fs[i]];
    OneFieldBytes(fs[i]);
  }

  lemma {:induction false} FieldBytesConcat(a: seq<Field>, b: seq<Field>)
    ensures AllFieldBytes(a + b) == AllFieldBytes(a) + AllFieldBytes(b)
  {
    if a == [] {
      assert a + b == b;
    } else {
      assert (a + b)[1..] == a[1..] + b;
      FieldBytesConcat(a[1..], b);
    }
  }

  method WriteFields(stream: PropWriteStream, fs: seq<Field>)
    modifies stream
    ensures stream.buffer == old(stream.buffer) + AllFieldBytes(fs)
  {
    ghost var start := stream.buffer;
    for i := 0 to |fs|
      invariant stream.buffer == start + AllFieldBytes(fs[..i])
    {
      WriteField(stream, fs[i]);
      OneMoreField(fs, i);
      Regroup(start, AllFieldBytes(fs[..i]), FieldBytes(fs[i]), []);
    }
    assert fs[..|fs|] == fs;
  }

  /** serialize of Condition and of its subclasses, and the end mark. */
  method Serialize(stream: PropWriteStream, c: Condition)
    modifies stream
    ensures stream.buffer == old(stream.buffer) + ConditionBytes(c)
  {
    ghost var start := stream.buffer;
    ghost var a, b, d := AllFieldBytes(HeaderFields(HEADER, HeaderValues(c))), AllFieldBytes(EndTimeFields(c)),
      AllFieldBytes(KindFields(c.kind));
    WriteFields(stream, HeaderFields(HEADER, HeaderValues(c)));
    if c.constant {
      WriteFields(stream, EndTimeFields(c));
    }
    WriteFields(stream, KindFields(c.kind));
    stream.buffer := stream.buffer + [CONDITIONATTR_END];
    Regroup(start + a, b, d, [CONDITIONATTR_END]);
    Regroup(start, a, b + (d + [CONDITIONATTR_END]), []);
  }

  /** The loop of savePlayer over the conditions. */
  method SaveConditions(stream: PropWriteStream, conditions: seq<Condition>)
    modifies stream
    ensures stream.buffer == old(stream.buffer) + SavedBytes(conditions)
  {
    ghost var start := stream.buffer;
    var i := 0;
    assert conditions[0..] == conditions;
    while i < |conditions|
      invariant 0 <= i <= |conditions| && stream.buffer + SavedBytes(conditions[i..]) == start + SavedBytes(conditions)
    {
      var c := conditions[i];
      ghost var before, more := stream.buffer, SavedBytes(conditions[i + 1..]);
      assert conditions[i..][1..] == conditions[i + 1..];
      if IsPersistent(c) || c.constant {
        Serialize(stream, c);
        Regroup(before, ConditionBytes(c), more, []);
      } else {
        assert [] + more == more;
      }
      i := i + 1;
    }
    assert stream.buffer + [] == stream.buffer;
  }

  method ReadTag(stream: PropStream) returns (ok: bool, tag: byte)
    requires stream.Valid()
    modifies stream`p
    ensures stream.Valid() && (ok <==> old(stream.Rest()) != [])
    ensures ok ==> tag == old(stream.Rest())[0] && stream.Rest() == old(stream.Rest())[1..]
    ensures !ok ==> stream.Rest() == old(stream.Rest())
  {
    ok, tag := stream.p < |stream.data|, 0;
    if ok {
      tag := stream.data[stream.p];
      stream.p := stream.p + 1;
    }
  }

  method ReadTagged(stream: PropStream, tag: byte, n: nat) returns (ok: bool, v: nat)
    requires stream.Valid()
    modifies stream`p
    ensures stream.Valid() && (ok <==> TakeTagged(old(stream.Rest()), tag, n).Some?)
    ensures ok ==> TakeTagged(old(stream.Rest()), tag, n) == Some((v, stream.Rest()))
  {
    v := 0;
    var attr;
    ok, attr := ReadTag(stream);
    if !ok || attr != tag {
      return false, 0;
    }
    ok, v := stream.Read(n);
  }

  /** The fields that createCondition reads one after the other. */
  method ReadHeader(stream: PropStream, header: seq<(byte, nat)>) returns (ok: bool, values: seq<nat>)
    requires stream.Valid()
    modifies stream`p
    ensures stream.Valid() && (ok <==> TakeHeader(old(stream.Rest()), header).Some?)
    ensures ok ==> TakeHeader(old(stream.Rest()), header) == Some((values, stream.Rest()))
    decreases header
  {
    if header == [] {
      return true, [];
    }
    var v;
    ok, v := ReadTagged(stream, header[0].0, header[0].1);
    if !ok {
      return false, [];
    }
    var more;
    ok, more := ReadHeader(stream, header[1..]);
    values := if ok then [v] + more else [];
  }

  method CreateCondition(stream: PropStream) returns (condition: Option<Condition>)
    requires stream.Valid()
    modifies stream`p
    ensures stream.Valid() && (condition.Some? <==> TakeCondition(old(stream.Rest())).Some?)
    ensures condition.Some? ==> TakeCondition(old(stream.Rest())) == Some((condition.value, stream.Rest()))
  {
    var ok, values := ReadHeader(stream, HEADER);
    if !ok {
      return None;
    }
    condition := Created(values);
    if condition.Some? && condition.value.constant {
      var endTime;
      ok, endTime := ReadTagged(stream, CONDITIONATTR_ENDTIME, 8);
      condition := if ok then Some(condition.value.(endTime := Signed(endTime, 8))) else None;
    }
  }

  /** Condition::unserialize */
  method Unserialize(stream: PropStream, c0: Condition, now: int) returns (ok: bool, c: Condition)
    requires stream.Valid()
    modifies stream`p
    ensures stream.Valid()
    ensures TakeProps(c0, old(stream.Rest()), now)
         == if ok then PropDone(c, stream.Rest()) else PropError(stream.Rest())
  {
    ghost var all := TakeProps(c0, stream.Rest(), now);
    c := c0;
    while true
      invariant stream.Valid() && all == TakeProps(c, stream.Rest(), now)
      decreases |stream.Rest()|
    {
      ghost var s := stream.Rest();
      var more, tag := ReadTag(stream);
      if !more || tag == CONDITIONATTR_END {
        return true, c;
      }
      PropStep(c, s, now);
      ok, c := UnserializeProp(stream, c, tag, now);
      if !ok {
        return;
      }
    }
  }

  lemma PropStep(c: Condition, s: Bytes, now: int)
    requires s != [] && s[0] != CONDITIONATTR_END
    ensures var n, t := Length(c.kind, s[0]), s[1..];
            TakeProps(c, s, now) ==
            if n.None? || |t| < n.value then PropError(t)
            else TakeProps(Apply(c, Field(s[0], t[..n.value]), now), t[n.value..], now)
  {
  }

  /** The bytes behind one tag; nothing is taken when there are too few, or none belong there. */
  method UnserializeProp(stream: PropStream, c0: Condition, tag: byte, now: int) returns (ok: bool, c: Condition)
    requires stream.Valid()
    modifies stream`p
    ensures stream.Valid()
    ensures var n, t := Length(c0.kind, tag), old(stream.Rest());
            && (ok <==> n.Some? && n.value <= |t|)
            && (ok ==> c == Apply(c0, Field(tag, t[..n.value]), now) && stream.Rest() == t[n.value..])
            && (!ok ==> c == c0 && stream.Rest() == t)
  {
    c := c0;
    var n := Length(c.kind, tag);
    if n.None? {
      return false, c;
    }
    ghost var t := stream.Rest();
    var start := stream.p;
    ok := stream.Skip(n.value);
    if ok {
      assert t[..n.value] == stream.data[start..stream.p];
      c := Apply(c, Field(tag, stream.data[start..stream.p]), now);
    }
  }

  /** The loop of loadPlayer over the stored conditions. */
  method LoadConditions(stream: PropStream, now: int) returns (storedConditionList: seq<Condition>)
    requires stream.Valid()
    modifies stream`p
    ensures stream.Valid() && storedConditionList == TakeConditions(old(stream.Rest()), [], now)
  {
    ghost var all := TakeConditions(stream.Rest(), [], now);
    storedConditionList := [];
    while true
      invariant stream.Valid() && all == TakeConditions(stream.Rest(), storedConditionList, now)
      decreases |stream.Rest()|
    {
      var condition := CreateCondition(stream);
      if condition.None? {
        return;
      }
      var ok, c := Unserialize(stream, condition.value, now);
      if ok {
        storedConditionList := [c] + storedConditionList;
      }
    }
  }
}
