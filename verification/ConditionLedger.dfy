/**
 The bonuses a creature has from its conditions: src/creature.cpp (addCondition, removeCondition, executeConditions)
 over ConditionAttributes and ConditionSpeed of src/condition.cpp and changeSpeed of src/game.cpp.
 */
module ConditionLedger {
  import opened ItemTypes

  /** The condition types that matter here; other types have no bonus. */
  datatype ConditionType = CONDITION_ATTRIBUTES | CONDITION_HASTE | CONDITION_PARALYZE | CONDITION_OTHER(code: nat)

  const SKILLS := 7
  const SPECIALSKILLS := 6
  const STATS := 4
  const RATES := 4
  const STAT_MAXHITPOINTS := 0
  const STAT_MAXMANAPOINTS := 1
  const STAT_SOULPOINTS := 2
  const STAT_MAGICPOINTS := 3

  /** The formula of a speed condition is drawn from when its delta is 0. */
  datatype Effect =
    | Attributes(skills: seq<int>, skillsPercent: seq<int>, specialSkills: seq<int>, stats: seq<int>,
        statsPercent: seq<int>, rates: seq<int>, disableDefense: bool)
    | Speed(delta: int)
    | Nothing

  datatype Condition = Condition(kind: ConditionType, id: int, subId: nat, ticks: int, endTime: int, effect: Effect)

  predicate EffectOk(c: Condition) {
    match c.effect
    case Attributes(skills, skillsPercent, specialSkills, stats, statsPercent, rates, _) =>
      && c.kind == CONDITION_ATTRIBUTES && |skills| == |skillsPercent| == SKILLS && |specialSkills| == SPECIALSKILLS
      && |stats| == |statsPercent| == STATS && |rates| == RATES
    case Speed(_) => c.kind == CONDITION_HASTE || c.kind == CONDITION_PARALYZE
    case Nothing => c.kind.CONDITION_OTHER?
  }

  /** What the percentages are taken of, and the draw for a speed condition without a delta. */
  datatype Base = Base(isPlayer: bool, skills: seq<int>, healthMax: int, manaMax: int, magLevel: int)

  /** A creature's conditions, its variable bonuses, and what conditions set: experience rates, and its defense. */
  datatype Book = Book(conditions: seq<Condition>, skills: seq<int>, specialSkills: seq<int>, stats: seq<int>,
      speed: int, rates: seq<int>, useDefense: bool)

  predicate SizesOk(b: Book, base: Base) {
    && |b.skills| == |base.skills| == SKILLS && |b.specialSkills| == SPECIALSKILLS && |b.stats| == STATS
    && |b.rates| == RATES
  }

  // ----- arithmetic of the bonuses -----

  /** a division that drops the fraction, as a cast of a float to an integer does */
  function Truncated(n: int, d: nat): int
    requires d > 0
  {
    if n >= 0 then n / d else -((-n) / d)
  }

  function Percent(amount: int, percent: int): int {
    Truncated(amount * (percent - 100), 100)
  }

  function Plus(a: seq<int>, d: seq<int>): (r: seq<int>)
    requires |a| == |d|
    ensures |r| == |a| && forall i | 0 <= i < |a| :: r[i] == a[i] + d[i]
  {
    if a == [] then [] else [a[0] + d[0]] + Plus(a[1..], d[1..])
  }

  function Negated(d: seq<int>): (r: seq<int>)
    ensures |r| == |d| && forall i | 0 <= i < |d| :: r[i] == -d[i]
  {
    if d == [] then [] else [-d[0]] + Negated(d[1..])
  }

  function Opposite(e: Effect): Effect {
    match e
    case Attributes(skills, skillsPercent, specialSkills, stats, statsPercent, rates, disableDefense) =>
      Attributes(Negated(skills), skillsPercent, Negated(specialSkills), Negated(stats), statsPercent, rates,
        disableDefense)
    case Speed(delta) => Speed(-delta)
    case Nothing => Nothing
  }

  predicate EffectSized(e: Effect) {
    e.Attributes? ==>
      |e.skills| == |e.skillsPercent| == SKILLS && |e.specialSkills| == SPECIALSKILLS
          && |e.stats| == |e.statsPercent| == STATS && |e.rates| == RATES
  }

  function Applied(b: Book, base: Base, e: Effect): (r: Book)
    requires SizesOk(b, base) && EffectSized(e)
    ensures SizesOk(r, base)
  {
    match e
    case Attributes(skills, _, specialSkills, stats, _, _, _) =>
      if base.isPlayer then
        b.(skills := Plus(b.skills, skills), specialSkills := Plus(b.specialSkills, specialSkills),
            stats := Plus(b.stats, stats))
      else b
    case Speed(delta) => b.(speed := b.speed + delta)
    case Nothing => b
  }

  /** Rates of 1 are left out; others are assigned to the player, with the sign given. */
  function Assigned(rates: seq<int>, d: seq<int>, sign: int): (r: seq<int>)
    requires |rates| == |d|
    ensures |r| == |d| && forall i | 0 <= i < |d| :: r[i] == if d[i] != 1 then sign * d[i] else rates[i]
  {
    if d == [] then []
    else [if d[0] != 1 then sign * d[0] else rates[0]] + Assigned(rates[1..], d[1..], sign)
  }

  /** updateExperienceRate, and setUseDefense when a condition starts. */
  function Marked(b: Book, base: Base, e: Effect): (r: Book)
    requires SizesOk(b, base) && EffectSized(e)
    ensures SizesOk(r, base) && r == b.(rates := r.rates, useDefense := r.useDefense)
  {
    if !e.Attributes? then b
    else b.(rates := if base.isPlayer then Assigned(b.rates, e.rates, 1) else b.rates, useDefense := !e.disableDefense)
  }

  /** The same when it ends: the rates are set to their negatives. */
  function Unmarked(b: Book, base: Base, e: Effect): (r: Book)
    requires SizesOk(b, base) && EffectSized(e)
    ensures SizesOk(r, base) && r == b.(rates := r.rates, useDefense := r.useDefense)
  {
    if !e.Attributes? then b
    else b.(rates := if base.isPlayer then Assigned(b.rates, e.rates, -1) else b.rates,
            useDefense := b.useDefense || e.disableDefense)
  }

  function Ended(b: Book, base: Base, e: Effect): (r: Book)
    requires SizesOk(b, base) && EffectSized(e)
    ensures SizesOk(r, base)
  {
    Unmarked(Applied(b, base, Opposite(e)), base, e)
  }

  function Max(a: int, b: int): int {
    if a > b then a else b
  }

  function SkillsFor(skills: seq<int>, percent: seq<int>, base: seq<int>): (r: seq<int>)
    requires |skills| == |percent| == |base|
    ensures |r| == |skills| && forall i | 0 <= i < |r| :: r[i] == if percent[i] == 0 then skills[i]
            else Percent(base[i], percent[i])
  {
    if skills == [] then []
    else
      var first := if percent[0] == 0 then skills[0] else Percent(base[0], percent[0]);
      [first] + SkillsFor(skills[1..], percent[1..], base[1..])
  }

  /** updatePercentStats: of the present maximum health and mana, and of the magic level without bonuses. */
  function StatsFor(stats: seq<int>, percent: seq<int>, b: Book, base: Base): (r: seq<int>)
    requires |stats| == |percent| == STATS && SizesOk(b, base)
    ensures |r| == STATS
  {
    [if percent[STAT_MAXHITPOINTS] == 0 then stats[STAT_MAXHITPOINTS]
     else Percent(Max(1, base.healthMax + b.stats[STAT_MAXHITPOINTS]), percent[STAT_MAXHITPOINTS]),
     if percent[STAT_MAXMANAPOINTS] == 0 then stats[STAT_MAXMANAPOINTS]
     else Percent(Max(0, base.manaMax + b.stats[STAT_MAXMANAPOINTS]), percent[STAT_MAXMANAPOINTS]),
     stats[STAT_SOULPOINTS],
     if percent[STAT_MAGICPOINTS] == 0 then stats[STAT_MAGICPOINTS]
     else Percent(base.magLevel, percent[STAT_MAGICPOINTS])]
  }

  /** The effect that is put to use: percentages turned into amounts, a missing speed drawn. */
  function Settled(e: Effect, b: Book, base: Base, drawn: int): (r: Effect)
    requires SizesOk(b, base) && EffectSized(e)
    ensures EffectSized(r) && (r.Attributes? <==> e.Attributes?) && (r.Speed? <==> e.Speed?)
  {
    match e
    case Attributes(skills, skillsPercent, specialSkills, stats, statsPercent, _, _) =>
      if base.isPlayer then
        e.(skills := SkillsFor(skills, skillsPercent, base.skills), stats := StatsFor(stats, statsPercent, b, base))
      else e
    case Speed(delta) => if delta == 0 then Speed(drawn) else e
    case Nothing => e
  }

  // ----- adding -----

  predicate SameKey(c: Condition, kind: ConditionType, id: int, subId: nat) {
    c.kind == kind && c.id == id && c.subId == subId
  }

  function Position(cs: seq<Condition>, kind: ConditionType, id: int, subId: nat): (k: nat)
    ensures k <= |cs| && (k < |cs| ==> SameKey(cs[k], kind, id, subId))
    ensures forall i | 0 <= i < k :: !SameKey(cs[i], kind, id, subId)
  {
    if cs == [] then 0
    else if SameKey(cs[0], kind, id, subId) then 0
    else Position(cs[1..], kind, id, subId) + 1
  }

  /** Condition::startCondition */
  function Timed(c: Condition, now: int): Condition {
    if c.ticks > 0 && c.endTime == 0 then c.(endTime := c.ticks + now) else c
  }

  /** Condition::updateCondition */
  predicate MayUpdate(c: Condition, other: Condition, now: int) {
    && c.kind == other.kind
    && !(c.ticks == -1 && other.ticks > 0)
    && !(other.ticks >= 0 && c.endTime > now + other.ticks)
  }

  /** addCondition of the condition itself: whether it takes over what the other one brings. */
  predicate TakesOver(c: Condition, other: Condition, now: int) {
    if c.effect.Speed? then c.kind == other.kind && !(c.ticks == -1 && other.ticks > 0) else MayUpdate(c, other, now)
  }

  function Started(b: Book, base: Base, c: Condition, now: int, drawn: int): (r: Book)
    requires SizesOk(b, base) && EffectOk(c)
    ensures SizesOk(r, base)
  {
    var e := Settled(c.effect, b, base, drawn);
    Marked(Applied(b, base, e), base, e).(conditions := b.conditions + [Timed(c, now).(effect := e)])
  }

  /** The old bonus is taken back first, so percentages are of what is there without it. Rates are not set again. */
  function Refreshed(b: Book, base: Base, k: nat, c: Condition, now: int, drawn: int): (r: Book)
    requires SizesOk(b, base) && EffectOk(c) && k < |b.conditions| && EffectOk(b.conditions[k])
             && b.conditions[k].kind == c.kind
    ensures SizesOk(r, base)
  {
    var old_ := b.conditions[k];
    if !TakesOver(old_, c, now) then b
    else
      var v := Ended(b, base, old_.effect);
      var e := Settled(c.effect, v, base, drawn);
      var renewed := old_.(ticks := c.ticks, endTime := c.ticks + now, effect := e);
      Applied(v, base, e).(conditions := b.conditions[k := renewed])
  }

  /** Creature::hasCondition for subId 0 */
  predicate Has(cs: seq<Condition>, kind: ConditionType, suppressed: set<ConditionType>, now: int) {
    && kind !in suppressed
    && exists i ::
       0 <= i < |cs| && cs[i].kind == kind && cs[i].subId == 0 && (cs[i].endTime >= now || cs[i].ticks == -1)
  }

  /** Clock, walk delay and suppressed types at a call, and the draw for a speed condition. */
  datatype Moment = Moment(now: int, walkDelay: int, suppressed: set<ConditionType>, drawn: int)

  /** Conditions of a type, and of an id when one is given. */
  predicate Chosen(c: Condition, kind: ConditionType, id: Option<int>) {
    c.kind == kind && (id.Some? ==> c.id == id.value)
  }

  function Dropped(b: Book, base: Base, i: nat): (r: Book)
    requires SizesOk(b, base) && i < |b.conditions| && EffectOk(b.conditions[i])
    ensures SizesOk(r, base) && r.conditions == b.conditions[..i] + b.conditions[i + 1..]
    ensures AllOk(b.conditions) ==> AllOk(r.conditions)
  {
    Ended(b, base, b.conditions[i].effect).(conditions := b.conditions[..i] + b.conditions[i + 1..])
  }

  ghost predicate AllOk(cs: seq<Condition>) {
    forall i {:trigger cs[i]} | 0 <= i < |cs| :: EffectOk(cs[i])
  }

  /** removeCondition from position i on. */
  ghost function Purged(b: Book, base: Base, i: nat, kind: ConditionType, id: Option<int>): (r: Book)
    requires SizesOk(b, base) && AllOk(b.conditions) && i <= |b.conditions|
    ensures SizesOk(r, base)
    decreases |b.conditions| - i
  {
    if i == |b.conditions| then b
    else if Chosen(b.conditions[i], kind, id) then Purged(Dropped(b, base, i), base, i, kind, id)
    else Purged(b, base, i + 1, kind, id)
  }

  /** A paralysis is not lifted while the creature has to wait for its next step. */
  ghost function Removed(
      b: Book, base: Base, kind: ConditionType, id: Option<int>, force: bool, walkDelay: int): (r: Book)
    requires SizesOk(b, base) && AllOk(b.conditions)
    ensures SizesOk(r, base)
  {
    if !force && kind == CONDITION_PARALYZE && walkDelay > 0 then b else Purged(b, base, 0, kind, id)
  }

  ghost function Added(b: Book, base: Base, c: Condition, force: bool, m: Moment): (r: Book)
    requires SizesOk(b, base) && AllOk(b.conditions) && EffectOk(c)
    ensures SizesOk(r, base)
  {
    if !force && c.kind == CONDITION_HASTE && Has(b.conditions, CONDITION_PARALYZE, m.suppressed, m.now)
        && m.walkDelay > 0 then
      b
    else
      var k := Position(b.conditions, c.kind, c.id, c.subId);
      if k < |b.conditions| then Refreshed(b, base, k, c, m.now, m.drawn)
      else
        var v := Started(b, base, c, m.now, m.drawn);
        if c.kind == CONDITION_PARALYZE && Has(v.conditions, CONDITION_HASTE, m.suppressed, m.now) then
          Removed(v, base, CONDITION_HASTE, None, false, m.walkDelay)
        else if c.kind == CONDITION_HASTE && Has(v.conditions, CONDITION_PARALYZE, m.suppressed, m.now) then
          Removed(v, base, CONDITION_PARALYZE, None, false, m.walkDelay)
        else
          v
  }

  /** Condition::executeCondition */
  function Aged(c: Condition, interval: int): Condition {
    if c.ticks == -1 then c else c.(ticks := Max(0, c.ticks - interval))
  }

  predicate Lives(c: Condition, now: int) {
    c.ticks == -1 || c.endTime >= now
  }

  ghost function Executed(b: Book, base: Base, i: nat, interval: int, now: int): (r: Book)
    requires SizesOk(b, base) && AllOk(b.conditions) && i <= |b.conditions|
    ensures SizesOk(r, base)
    decreases |b.conditions| - i
  {
    if i == |b.conditions| then b
    else
      var v := b.(conditions := b.conditions[i := Aged(b.conditions[i], interval)]);
      if Lives(b.conditions[i], now) then Executed(v, base, i + 1, interval, now)
      else Executed(Dropped(v, base, i), base, i, interval, now)
  }

  // ----- the ledger -----

  datatype Slot = Skill(i: nat) | SpecialSkill(i: nat) | Stat(i: nat) | SpeedSlot

  predicate SlotOk(slot: Slot) {
    match slot
    case Skill(i) => i < SKILLS
    case SpecialSkill(i) => i < SPECIALSKILLS
    case Stat(i) => i < STATS
    case SpeedSlot => true
  }

  function Bonus(e: Effect, slot: Slot): int
    requires EffectSized(e) && SlotOk(slot)
  {
    match slot
    case Skill(i) => if e.Attributes? then e.skills[i] else 0
    case SpecialSkill(i) => if e.Attributes? then e.specialSkills[i] else 0
    case Stat(i) => if e.Attributes? then e.stats[i] else 0
    case SpeedSlot => if e.Speed? then e.delta else 0
  }

  /** The sum of a bonus over the active conditions. */
  ghost function Total(cs: seq<Condition>, slot: Slot): int
    requires AllOk(cs) && SlotOk(slot)
  {
    if cs == [] then 0 else Bonus(cs[0].effect, slot) + Total(cs[1..], slot)
  }

  function Var(b: Book, base: Base, slot: Slot): int
    requires SizesOk(b, base) && SlotOk(slot)
  {
    match slot
    case Skill(i) => b.skills[i]
    case SpecialSkill(i) => b.specialSkills[i]
    case Stat(i) => b.stats[i]
    case SpeedSlot => b.speed
  }

  /** Skills and stats are a player's; every creature has a speed. */
  predicate Kept(base: Base, slot: Slot) {
    SlotOk(slot) && (base.isPlayer || slot.SpeedSlot?)
  }

  ghost predicate Unique(cs: seq<Condition>) {
    forall i, j | 0 <= i < j < |cs| :: !SameKey(cs[i], cs[j].kind, cs[j].id, cs[j].subId)
  }

  /** Whole lists of well-made conditions, none of which share type, id and subId. */
  ghost predicate Sound(b: Book, base: Base) {
    SizesOk(b, base) && AllOk(b.conditions) && Unique(b.conditions)
  }

  /** What a bonus has beyond the active conditions: equipment and scripts write the same fields. */
  ghost function Drift(b: Book, base: Base, slot: Slot): int
    requires SizesOk(b, base) && AllOk(b.conditions) && SlotOk(slot)
  {
    Var(b, base, slot) - Total(b.conditions, slot)
  }

  ghost predicate SameDrift(b: Book, v: Book, base: Base) {
    && SizesOk(b, base) && AllOk(b.conditions) && SizesOk(v, base) && AllOk(v.conditions)
    && forall slot {:trigger Drift(v, base, slot)} | Kept(base, slot) :: Drift(v, base, slot) == Drift(b, base, slot)
  }

  lemma SameDriftTrans(b: Book, v: Book, u: Book, base: Base)
    requires SameDrift(b, v, base) && SameDrift(v, u, base)
    ensures SameDrift(b, u, base)
  {
    forall slot {:trigger Drift(u, base, slot)} | Kept(base, slot)
      ensures Drift(u, base, slot) == Drift(b, base, slot)
    {
      assert Drift(v, base, slot) == Drift(b, base, slot);
    }
  }

  lemma AppliedAdds(b: Book, base: Base, e: Effect, slot: Slot)
    requires SizesOk(b, base) && EffectSized(e) && Kept(base, slot)
    ensures Var(Applied(b, base, e), base, slot) == Var(b, base, slot) + Bonus(e, slot)
    ensures EffectSized(Opposite(e)) && Bonus(Opposite(e), slot) == -Bonus(e, slot)
    ensures Var(Ended(b, base, e), base, slot) == Var(b, base, slot) - Bonus(e, slot)
  {
  }

  lemma {:induction false} TotalAppended(cs: seq<Condition>, c: Condition, slot: Slot)
    requires AllOk(cs) && EffectOk(c) && SlotOk(slot)
    ensures AllOk(cs + [c]) && Total(cs + [c], slot) == Total(cs, slot) + Bonus(c.effect, slot)
  {
    if cs == [] {
      assert [] + [c] == [c];
    } else {
      assert (cs + [c])[1..] == cs[1..] + [c];
      TotalAppended(cs[1..], c, slot);
    }
  }

  lemma {:induction false} TotalReplaced(cs: seq<Condition>, k: nat, c: Condition, slot: Slot)
    requires AllOk(cs) && EffectOk(c) && SlotOk(slot) && k < |cs|
    ensures AllOk(cs[k := c])
    ensures Total(cs[k := c], slot) == Total(cs, slot) - Bonus(cs[k].effect, slot) + Bonus(c.effect, slot)
  {
    if k > 0 {
      assert cs[k := c][1..] == cs[1..][k - 1 := c];
      TotalReplaced(cs[1..], k - 1, c, slot);
    } else {
      assert cs[k := c][1..] == cs[1..];
    }
  }

  lemma {:induction false} TotalWithout(cs: seq<Condition>, k: nat, slot: Slot)
    requires AllOk(cs) && SlotOk(slot) && k < |cs|
    ensures AllOk(cs[..k] + cs[k + 1..])
    ensures Total(cs[..k] + cs[k + 1..], slot) == Total(cs, slot) - Bonus(cs[k].effect, slot)
  {
    if k > 0 {
      assert (cs[..k] + cs[k + 1..])[1..] == cs[1..][..k - 1] + cs[1..][k..];
      TotalWithout(cs[1..], k - 1, slot);
    } else {
      assert cs[..k] + cs[k + 1..] == cs[1..];
    }
  }

  lemma StartedKeeps(b: Book, base: Base, c: Condition, now: int, drawn: int)
    requires SizesOk(b, base) && AllOk(b.conditions) && EffectOk(c)
    ensures SameDrift(b, Started(b, base, c, now, drawn), base)
    ensures Unique(b.conditions) && Position(b.conditions, c.kind, c.id, c.subId) == |b.conditions| ==>
              Unique(Started(b, base, c, now, drawn).conditions)
  {
    var e, r := Settled(c.effect, b, base, drawn), Started(b, base, c, now, drawn);
    var d := Timed(c, now).(effect := e);
    assert AllOk(r.conditions);
    forall slot {:trigger Drift(r, base, slot)} | Kept(base, slot)
      ensures Drift(r, base, slot) == Drift(b, base, slot)
    {
      AppliedAdds(b, base, e, slot);
      TotalAppended(b.conditions, d, slot);
    }
  }

  lemma RefreshedKeeps(b: Book, base: Base, k: nat, c: Condition, now: int, drawn: int)
    requires SizesOk(b, base) && AllOk(b.conditions) && EffectOk(c) && k < |b.conditions|
             && b.conditions[k].kind == c.kind
    ensures SameDrift(b, Refreshed(b, base, k, c, now, drawn), base)
    ensures Unique(b.conditions) ==> Unique(Refreshed(b, base, k, c, now, drawn).conditions)
  {
    var o, r := b.conditions[k], Refreshed(b, base, k, c, now, drawn);
    if TakesOver(o, c, now) {
      var v := Ended(b, base, o.effect);
      var e := Settled(c.effect, v, base, drawn);
      var d := o.(ticks := c.ticks, endTime := c.ticks + now, effect := e);
      assert EffectOk(d) && r.conditions == b.conditions[k := d];
      forall slot {:trigger Drift(r, base, slot)} | Kept(base, slot)
        ensures Drift(r, base, slot) == Drift(b, base, slot)
      {
        AppliedAdds(b, base, o.effect, slot);
        AppliedAdds(v, base, e, slot);
        TotalReplaced(b.conditions, k, d, slot);
      }
    }
  }

  lemma DroppedKeeps(b: Book, base: Base, i: nat)
    requires SizesOk(b, base) && AllOk(b.conditions) && i < |b.conditions|
    ensures SameDrift(b, Dropped(b, base, i), base)
    ensures Unique(b.conditions) ==> Unique(Dropped(b, base, i).conditions)
  {
    var r := Dropped(b, base, i);
    forall slot {:trigger Drift(r, base, slot)} | Kept(base, slot)
      ensures Drift(r, base, slot) == Drift(b, base, slot)
    {
      AppliedAdds(b, base, b.conditions[i].effect, slot);
      TotalWithout(b.conditions, i, slot);
    }
  }

  lemma {:induction false} PurgedKeeps(b: Book, base: Base, i: nat, kind: ConditionType, id: Option<int>)
    requires SizesOk(b, base) && AllOk(b.conditions) && i <= |b.conditions|
    ensures SameDrift(b, Purged(b, base, i, kind, id), base)
    ensures Unique(b.conditions) ==> Unique(Purged(b, base, i, kind, id).conditions)
    decreases |b.conditions| - i
  {
    if i < |b.conditions| {
      if Chosen(b.conditions[i], kind, id) {
        var v := Dropped(b, base, i);
        DroppedKeeps(b, base, i);
        PurgedKeeps(v, base, i, kind, id);
        SameDriftTrans(b, v, Purged(v, base, i, kind, id), base);
      } else {
        PurgedKeeps(b, base, i + 1, kind, id);
      }
    }
  }

  lemma AddedKeeps(b: Book, base: Base, c: Condition, force: bool, m: Moment)
    requires SizesOk(b, base) && AllOk(b.conditions) && EffectOk(c)
    ensures SameDrift(b, Added(b, base, c, force, m), base)
    ensures Unique(b.conditions) ==> Unique(Added(b, base, c, force, m).conditions)
  {
    var k := Position(b.conditions, c.kind, c.id, c.subId);
    if k < |b.conditions| {
      RefreshedKeeps(b, base, k, c, m.now, m.drawn);
    } else {
      StartedKeeps(b, base, c, m.now, m.drawn);
      var v := Started(b, base, c, m.now, m.drawn);
      RivalsKeep(b, v, base, CONDITION_HASTE, m.walkDelay);
      RivalsKeep(b, v, base, CONDITION_PARALYZE, m.walkDelay);
    }
  }

  lemma RivalsKeep(b: Book, v: Book, base: Base, kind: ConditionType, walkDelay: int)
    requires SameDrift(b, v, base)
    ensures SameDrift(b, Removed(v, base, kind, None, false, walkDelay), base)
    ensures Unique(v.conditions) ==> Unique(Removed(v, base, kind, None, false, walkDelay).conditions)
  {
    PurgedKeeps(v, base, 0, kind, None);
    SameDriftTrans(b, v, Purged(v, base, 0, kind, None), base);
  }

  lemma AgedKeeps(b: Book, base: Base, i: nat, interval: int)
    requires SizesOk(b, base) && AllOk(b.conditions) && i < |b.conditions|
    ensures SameDrift(b, b.(conditions := b.conditions[i := Aged(b.conditions[i], interval)]), base)
    ensures Unique(b.conditions) ==> Unique(b.conditions[i := Aged(b.conditions[i], interval)])
  {
    var c := Aged(b.conditions[i], interval);
    var r := b.(conditions := b.conditions[i := c]);
    assert EffectOk(b.conditions[i]) && EffectOk(c);
    forall slot {:trigger Drift(r, base, slot)} | Kept(base, slot)
      ensures Drift(r, base, slot) == Drift(b, base, slot)
    {
      TotalReplaced(b.conditions, i, c, slot);
      assert Var(r, base, slot) == Var(b, base, slot);
    }
  }

  lemma {:induction false} ExecutedKeeps(b: Book, base: Base, i: nat, interval: int, now: int)
    requires SizesOk(b, base) && AllOk(b.conditions) && i <= |b.conditions|
    ensures SameDrift(b, Executed(b, base, i, interval, now), base)
    ensures Unique(b.conditions) ==> Unique(Executed(b, base, i, interval, now).conditions)
    decreases |b.conditions| - i
  {
    if i < |b.conditions| {
      var v := b.(conditions := b.conditions[i := Aged(b.conditions[i], interval)]);
      AgedKeeps(b, base, i, interval);
      if Lives(b.conditions[i], now) {
        ExecutedKeeps(v, base, i + 1, interval, now);
        SameDriftTrans(b, v, Executed(v, base, i + 1, interval, now), base);
      } else {
        var u := Dropped(v, base, i);
        DroppedKeeps(v, base, i);
        SameDriftTrans(b, v, u, base);
        ExecutedKeeps(u, base, i, interval, now);
        SameDriftTrans(b, u, Executed(u, base, i, interval, now), base);
      }
    }
  }

  // ----- what a condition gives -----

  /** g is the exact hundredth of e with its fraction dropped: it lies between 0 and e/100, less than 1 away from it. */
  ghost predicate HundredthOf(g: int, e: int) {
    -100 < 100 * g - e < 100 && (if e >= 0 then 0 <= 100 * g <= e else e <= 100 * g <= 0)
  }

  lemma PercentIs(amount: int, percent: int)
    ensures HundredthOf(Percent(amount, percent), amount * (percent - 100))
  {
    var e := amount * (percent - 100);
    if e >= 0 {
      assert e == 100 * (e / 100) + e % 100;
    } else {
      assert -e == 100 * ((-e) / 100) + (-e) % 100;
    }
  }

  /** A flat amount when no percentage is given, and else that part of the base by which it differs from 100 percent. */
  ghost predicate Gives(g: int, flat: int, percent: int, amount: int) {
    if percent == 0 then g == flat else HundredthOf(g, amount * (percent - 100))
  }

  /**
   What each bonus of v has more than in b for a condition: flat amounts, or percentages of base skills, of the present
   maximum health (at least 1) and mana (at least 0), and of the magic level. A creature that is no player gets none.
   */
  ghost predicate Gains(b: Book, v: Book, base: Base, e: Effect, drawn: int)
    requires SizesOk(b, base) && SizesOk(v, base) && EffectSized(e)
  {
    var health, mana := base.healthMax + b.stats[STAT_MAXHITPOINTS], base.manaMax + b.stats[STAT_MAXMANAPOINTS];
    if e.Attributes? && base.isPlayer then
      && (forall i {:trigger v.skills[i]} | 0 <= i < SKILLS ::
            Gives(v.skills[i] - b.skills[i], e.skills[i], e.skillsPercent[i], base.skills[i]))
      && (forall i {:trigger v.specialSkills[i]} | 0 <= i < SPECIALSKILLS ::
            v.specialSkills[i] - b.specialSkills[i] == e.specialSkills[i])
      && Gives(v.stats[STAT_MAXHITPOINTS] - b.stats[STAT_MAXHITPOINTS], e.stats[STAT_MAXHITPOINTS],
           e.statsPercent[STAT_MAXHITPOINTS], if health > 1 then health else 1)
      && Gives(v.stats[STAT_MAXMANAPOINTS] - b.stats[STAT_MAXMANAPOINTS], e.stats[STAT_MAXMANAPOINTS],
           e.statsPercent[STAT_MAXMANAPOINTS], if mana > 0 then mana else 0)
      && v.stats[STAT_SOULPOINTS] - b.stats[STAT_SOULPOINTS] == e.stats[STAT_SOULPOINTS]
      && Gives(v.stats[STAT_MAGICPOINTS] - b.stats[STAT_MAGICPOINTS], e.stats[STAT_MAGICPOINTS],
           e.statsPercent[STAT_MAGICPOINTS], base.magLevel)
      && v.speed == b.speed
    else
      && v.skills == b.skills && v.specialSkills == b.specialSkills && v.stats == b.stats
      && v.speed - b.speed == if !e.Speed? then 0 else if e.delta != 0 then e.delta else drawn
  }

  lemma SkillsSettled(b: Book, base: Base, e: Effect)
    requires SizesOk(b, base) && EffectSized(e) && e.Attributes?
    ensures var s := SkillsFor(e.skills, e.skillsPercent, base.skills);
            forall i | 0 <= i < SKILLS :: Gives(s[i], e.skills[i], e.skillsPercent[i], base.skills[i])
  {
    var s := SkillsFor(e.skills, e.skillsPercent, base.skills);
    forall i | 0 <= i < SKILLS
      ensures Gives(s[i], e.skills[i], e.skillsPercent[i], base.skills[i])
    {
      PercentIs(base.skills[i], e.skillsPercent[i]);
    }
  }

  lemma AppliedGains(b: Book, base: Base, e: Effect, drawn: int)
    requires SizesOk(b, base) && EffectSized(e)
    ensures Gains(b, Applied(b, base, Settled(e, b, base, drawn)), base, e, drawn)
  {
    if e.Attributes? && base.isPlayer {
      var s, v := Settled(e, b, base, drawn), Applied(b, base, Settled(e, b, base, drawn));
      SkillsSettled(b, base, e);
      forall i {:trigger v.skills[i]} | 0 <= i < SKILLS
        ensures Gives(v.skills[i] - b.skills[i], e.skills[i], e.skillsPercent[i], base.skills[i])
      {
        assert v.skills[i] - b.skills[i] == s.skills[i];
      }
      forall i {:trigger v.stats[i]} | 0 <= i < STATS
        ensures v.stats[i] - b.stats[i] == s.stats[i]
      {
      }
      var health, mana := base.healthMax + b.stats[STAT_MAXHITPOINTS], base.manaMax + b.stats[STAT_MAXMANAPOINTS];
      PercentIs(if health > 1 then health else 1, e.statsPercent[STAT_MAXHITPOINTS]);
      PercentIs(if mana > 0 then mana else 0, e.statsPercent[STAT_MAXMANAPOINTS]);
      PercentIs(base.magLevel, e.statsPercent[STAT_MAGICPOINTS]);
    }
  }

  /** The rivals of haste and of paralysis. */
  ghost predicate NoRival(cs: seq<Condition>, kind: ConditionType) {
    forall i | 0 <= i < |cs| ::
      && (kind == CONDITION_PARALYZE ==> cs[i].kind != CONDITION_HASTE)
      && (kind == CONDITION_HASTE ==> cs[i].kind != CONDITION_PARALYZE)
  }

  /** A rate other than 1 is assigned to a player, and defense is on unless the condition switches it off. */
  ghost predicate Marks(b: Book, v: Book, base: Base, e: Effect) {
    && |b.rates| == |v.rates| == RATES && (e.Attributes? ==> |e.rates| == RATES)
    && v.useDefense == (if e.Attributes? then !e.disableDefense else b.useDefense)
    && forall i | 0 <= i < RATES ::
         v.rates[i] == if base.isPlayer && e.Attributes? && e.rates[i] != 1 then e.rates[i] else b.rates[i]
  }

  /** When it ends a rate other than 1 is set to its negative, and defense is on if it had switched it off. */
  lemma EndMarks(b: Book, base: Base, e: Effect)
    requires SizesOk(b, base) && EffectSized(e)
    ensures var v := Ended(b, base, e);
            && v.useDefense == (b.useDefense || (e.Attributes? && e.disableDefense))
            && forall i | 0 <= i < RATES ::
                 v.rates[i] == if base.isPlayer && e.Attributes? && e.rates[i] != 1 then -e.rates[i] else b.rates[i]
  {
  }

  /** addCondition of a new condition that has no rival: what each bonus gains, and what is remembered of it. */
  lemma FreshConditionGives(b: Book, base: Base, c: Condition, force: bool, m: Moment)
    requires SizesOk(b, base) && AllOk(b.conditions) && EffectOk(c) && NoRival(b.conditions, c.kind)
    requires forall i | 0 <= i < |b.conditions| ::
               b.conditions[i].kind != c.kind || b.conditions[i].id != c.id || b.conditions[i].subId != c.subId
    ensures var v := Added(b, base, c, force, m);
            && SizesOk(v, base) && Gains(b, v, base, c.effect, m.drawn)
            && |v.conditions| == |b.conditions| + 1 && v.conditions[..|b.conditions|] == b.conditions
            && var d := v.conditions[|b.conditions|];
               && d.kind == c.kind && d.id == c.id && d.subId == c.subId && d.ticks == c.ticks
               && d.endTime == if c.ticks > 0 && c.endTime == 0 then m.now + c.ticks else c.endTime
    ensures Marks(b, Added(b, base, c, force, m), base, c.effect)
  {
    FreshIsStarted(b, base, c, force, m);
    StartedGains(b, base, c, m.now, m.drawn);
    StartedMarks(b, base, c, m.now, m.drawn);
  }

  /** What is gained does not depend on what else the book says. */
  lemma SameGains(b: Book, u: Book, v: Book, base: Base, e: Effect, drawn: int)
    requires SizesOk(b, base) && SizesOk(u, base) && SizesOk(v, base) && EffectSized(e) && Gains(b, u, base, e, drawn)
    requires v.skills == u.skills && v.specialSkills == u.specialSkills && v.stats == u.stats && v.speed == u.speed
    ensures Gains(b, v, base, e, drawn)
  {
  }

  lemma StartedGains(b: Book, base: Base, c: Condition, now: int, drawn: int)
    requires SizesOk(b, base) && EffectOk(c)
    ensures Gains(b, Started(b, base, c, now, drawn), base, c.effect, drawn)
  {
    AppliedGains(b, base, c.effect, drawn);
    SameGains(b, Applied(b, base, Settled(c.effect, b, base, drawn)), Started(b, base, c, now, drawn), base, c.effect,
              drawn);
  }

  lemma FreshIsStarted(b: Book, base: Base, c: Condition, force: bool, m: Moment)
    requires SizesOk(b, base) && AllOk(b.conditions) && EffectOk(c) && NoRival(b.conditions, c.kind)
    requires forall i | 0 <= i < |b.conditions| ::
               b.conditions[i].kind != c.kind || b.conditions[i].id != c.id || b.conditions[i].subId != c.subId
    ensures Added(b, base, c, force, m) == Started(b, base, c, m.now, m.drawn)
  {
    var k := Position(b.conditions, c.kind, c.id, c.subId);
    assert k == |b.conditions|;
    var v := Started(b, base, c, m.now, m.drawn);
    assert forall i | 0 <= i < |v.conditions| :: i < |b.conditions| ==> v.conditions[i] == b.conditions[i];
    assert !Has(b.conditions, if c.kind == CONDITION_HASTE then CONDITION_PARALYZE else CONDITION_HASTE, m.suppressed,
                m.now) || (c.kind != CONDITION_HASTE && c.kind != CONDITION_PARALYZE);
  }

  lemma StartedMarks(b: Book, base: Base, c: Condition, now: int, drawn: int)
    requires SizesOk(b, base) && EffectOk(c)
    ensures Marks(b, Started(b, base, c, now, drawn), base, c.effect)
  {
  }

  /** When a refresh takes over, and what each bonus has then more than without the old condition. */
  lemma RefreshedGives(b: Book, base: Base, k: nat, c: Condition, now: int, drawn: int)
    requires SizesOk(b, base) && AllOk(b.conditions) && EffectOk(c)
    requires k < |b.conditions| && b.conditions[k].kind == c.kind
    ensures var o, v := b.conditions[k], Refreshed(b, base, k, c, now, drawn);
            if (o.ticks == -1 && c.ticks > 0) || (!o.effect.Speed? && c.ticks >= 0 && o.endTime > now + c.ticks) then
              v == b
            else
              && Gains(Ended(b, base, o.effect), v, base, c.effect, drawn)
              && v.conditions == b.conditions[k := v.conditions[k]]
              && v.conditions[k] == o.(ticks := c.ticks, endTime := now + c.ticks, effect := v.conditions[k].effect)
              && v.rates == Ended(b, base, o.effect).rates && v.useDefense == Ended(b, base, o.effect).useDefense
  {
    AppliedGains(Ended(b, base, b.conditions[k].effect), base, c.effect, drawn);
  }

  /** addCondition refreshes a condition of the same type, id and subId, unless it is a haste that is kept off. */
  lemma SameKeyIsRefreshed(b: Book, base: Base, c: Condition, force: bool, m: Moment, k: nat)
    requires SizesOk(b, base) && AllOk(b.conditions) && Unique(b.conditions) && EffectOk(c)
    requires NoRival(b.conditions, c.kind) && k < |b.conditions| && b.conditions[k].kind == c.kind
    requires b.conditions[k].id == c.id && b.conditions[k].subId == c.subId
    ensures Added(b, base, c, force, m) == Refreshed(b, base, k, c, m.now, m.drawn)
  {
    assert Position(b.conditions, c.kind, c.id, c.subId) == k;
    assert c.kind == CONDITION_HASTE ==> !Has(b.conditions, CONDITION_PARALYZE, m.suppressed, m.now);
  }

  /** Haste and paralysis drive each other out. */
  predicate Rivals(kind: ConditionType, rival: ConditionType) {
    || (kind == CONDITION_PARALYZE && rival == CONDITION_HASTE)
    || (kind == CONDITION_HASTE && rival == CONDITION_PARALYZE)
  }

  /** A condition of subId 0 that has not come to its end. */
  predicate Runs(c: Condition, now: int) {
    c.subId == 0 && (c.ticks == -1 || now <= c.endTime)
  }

  /** A running haste is lifted by a new paralysis; a running paralysis is too, or keeps the haste off. */
  lemma RivalIsLifted(b: Book, base: Base, c: Condition, force: bool, m: Moment, rival: ConditionType, i: nat)
    requires SizesOk(b, base) && AllOk(b.conditions) && EffectOk(c) && Rivals(c.kind, rival)
    requires forall k | 0 <= k < |b.conditions| :: !SameKey(b.conditions[k], c.kind, c.id, c.subId)
    requires i < |b.conditions| && b.conditions[i].kind == rival && Runs(b.conditions[i], m.now)
             && rival !in m.suppressed
    ensures var v := Added(b, base, c, force, m);
            && (rival == CONDITION_PARALYZE && m.walkDelay > 0 && !force ==> v == b)
            && (rival == CONDITION_HASTE || m.walkDelay <= 0 ==> forall d | d in v.conditions :: d.kind != rival)
  {
    assert Position(b.conditions, c.kind, c.id, c.subId) == |b.conditions|;
    var v := Started(b, base, c, m.now, m.drawn);
    StartedKeeps(b, base, c, m.now, m.drawn);
    assert v.conditions[i] == b.conditions[i];
    assert Has(b.conditions, rival, m.suppressed, m.now) && Has(v.conditions, rival, m.suppressed, m.now);
    RemovalLeaves(v, base, rival, None, false, m.walkDelay);
  }

  /** A rival that has come to its end, or is suppressed, stays as it is. */
  lemma InactiveRivalStays(b: Book, base: Base, c: Condition, force: bool, m: Moment, rival: ConditionType)
    requires SizesOk(b, base) && AllOk(b.conditions) && EffectOk(c) && Rivals(c.kind, rival)
    requires forall k | 0 <= k < |b.conditions| :: !SameKey(b.conditions[k], c.kind, c.id, c.subId)
    requires rival in m.suppressed
             || forall k | 0 <= k < |b.conditions| :: b.conditions[k].kind != rival || !Runs(b.conditions[k], m.now)
    ensures var v := Added(b, base, c, force, m);
            |v.conditions| == |b.conditions| + 1 && v.conditions[..|b.conditions|] == b.conditions
  {
    assert Position(b.conditions, c.kind, c.id, c.subId) == |b.conditions|;
    var v := Started(b, base, c, m.now, m.drawn);
    assert v.conditions[..|b.conditions|] == b.conditions && v.conditions[|b.conditions|].kind == c.kind;
    assert forall k | 0 <= k < |b.conditions| :: v.conditions[k] == b.conditions[k];
    assert !Has(b.conditions, rival, m.suppressed, m.now) && !Has(v.conditions, rival, m.suppressed, m.now);
  }

  lemma {:induction false} OthersAreOthers(cs: seq<Condition>, kind: ConditionType, id: Option<int>)
    ensures |Others(cs, kind, id)| <= |cs|
    ensures forall c :: c in Others(cs, kind, id) <==> c in cs && !(c.kind == kind && (id == None || id == Some(c.id)))
  {
    if cs != [] {
      OthersAreOthers(cs[1..], kind, id);
      assert forall c :: c in cs <==> c == cs[0] || c in cs[1..];
    }
  }

  /** removeCondition: those are left, in their order, that are of another type, or of another id if one is given. */
  lemma RemovalLeaves(b: Book, base: Base, kind: ConditionType, id: Option<int>, force: bool, walkDelay: int)
    requires SizesOk(b, base) && AllOk(b.conditions)
    ensures var v := Removed(b, base, kind, id, force, walkDelay);
            if kind == CONDITION_PARALYZE && walkDelay > 0 && !force then v == b
            else forall c :: c in v.conditions <==>
                   c in b.conditions && !(c.kind == kind && (id == None || id == Some(c.id)))
  {
    PurgedIs(b, base, 0, kind, id);
    assert b.conditions[0..] == b.conditions && b.conditions[..0] == [];
    OthersAreOthers(b.conditions, kind, id);
  }

  /** d is c after an interval that c outlives: it has no end, or its end has not passed; ticks do not fall below 0. */
  predicate Outlives(c: Condition, d: Condition, interval: int, now: int) {
    && (c.ticks == -1 || now <= c.endTime)
    && d == c.(ticks := if c.ticks == -1 then -1 else if c.ticks < interval then 0 else c.ticks - interval)
  }

  lemma {:induction false} SurvivorsAre(cs: seq<Condition>, interval: int, now: int)
    ensures forall c, d {:trigger Outlives(c, d, interval, now)} | c in cs && Outlives(c, d, interval, now) ::
              d in Survivors(cs, interval, now)
    ensures forall d | d in Survivors(cs, interval, now) ::
              exists c {:trigger Outlives(c, d, interval, now)} :: c in cs && Outlives(c, d, interval, now)
  {
    if cs != [] {
      var rest := Survivors(cs[1..], interval, now);
      SurvivorsAre(cs[1..], interval, now);
      forall d | d in Survivors(cs, interval, now)
        ensures exists c {:trigger Outlives(c, d, interval, now)} :: c in cs && Outlives(c, d, interval, now)
      {
        if d in rest {
          var c :| c in cs[1..] && Outlives(c, d, interval, now);
          assert c in cs;
        } else {
          assert Outlives(cs[0], d, interval, now);
        }
      }
    }
  }

  /** executeConditions: exactly the conditions that outlive the interval are left, with less time. */
  lemma ExecutionLeaves(b: Book, base: Base, interval: int, now: int)
    requires SizesOk(b, base) && AllOk(b.conditions)
    ensures var v := Executed(b, base, 0, interval, now);
            && (forall c, d {:trigger Outlives(c, d, interval, now)} |
                  c in b.conditions && Outlives(c, d, interval, now) :: d in v.conditions)
            && (forall d | d in v.conditions ::
                  exists c {:trigger Outlives(c, d, interval, now)} ::
                    c in b.conditions && Outlives(c, d, interval, now))
  {
    ExecutedIs(b, base, 0, interval, now);
    assert b.conditions[0..] == b.conditions && b.conditions[..0] == [];
    SurvivorsAre(b.conditions, interval, now);
  }

  // ----- which conditions are left -----

  /** The conditions that are not chosen, in their order. */
  function Others(cs: seq<Condition>, kind: ConditionType, id: Option<int>): seq<Condition> {
    if cs == [] then []
    else (if Chosen(cs[0], kind, id) then [] else [cs[0]]) + Others(cs[1..], kind, id)
  }

  lemma OthersStep(cs: seq<Condition>, i: nat, kind: ConditionType, id: Option<int>)
    requires i < |cs|
    ensures cs[..i] + Others(cs[i..], kind, id)
            == (if Chosen(cs[i], kind, id) then cs[..i] else cs[..i + 1]) + Others(cs[i + 1..], kind, id)
  {
    assert cs[i..][0] == cs[i] && cs[i..][1..] == cs[i + 1..];
    assert cs[..i + 1] == cs[..i] + [cs[i]];
  }

  lemma DroppedParts(cs: seq<Condition>, i: nat)
    requires i < |cs|
    ensures (cs[..i] + cs[i + 1..])[..i] == cs[..i] && (cs[..i] + cs[i + 1..])[i..] == cs[i + 1..]
  {
  }

  /** Removing takes away the chosen conditions, all of them, and nothing else. */
  lemma {:induction false} PurgedIs(b: Book, base: Base, i: nat, kind: ConditionType, id: Option<int>)
    requires SizesOk(b, base) && AllOk(b.conditions) && i <= |b.conditions|
    ensures Purged(b, base, i, kind, id).conditions == b.conditions[..i] + Others(b.conditions[i..], kind, id)
    decreases |b.conditions| - i
  {
    if i < |b.conditions| {
      OthersStep(b.conditions, i, kind, id);
      DroppedParts(b.conditions, i);
      if Chosen(b.conditions[i], kind, id) {
        PurgedIs(Dropped(b, base, i), base, i, kind, id);
      } else {
        PurgedIs(b, base, i + 1, kind, id);
      }
    }
  }

  /** The conditions that outlive the interval, each with less time left. */
  function Survivors(cs: seq<Condition>, interval: int, now: int): seq<Condition> {
    if cs == [] then []
    else (if Lives(cs[0], now) then [Aged(cs[0], interval)] else []) + Survivors(cs[1..], interval, now)
  }

  /** A condition that lives on is one more of those before it. */
  lemma SurvivorStays(cs: seq<Condition>, cs': seq<Condition>, i: nat, interval: int, now: int)
    requires i < |cs| && Lives(cs[i], now) && cs' == cs[i := Aged(cs[i], interval)]
    ensures cs'[..i + 1] + Survivors(cs'[i + 1..], interval, now) == cs[..i] + Survivors(cs[i..], interval, now)
  {
    var rest := Survivors(cs[i + 1..], interval, now);
    assert cs[i..][0] == cs[i] && cs[i..][1..] == cs[i + 1..] && cs'[i + 1..] == cs[i + 1..];
    assert cs'[..i + 1] == cs[..i] + [Aged(cs[i], interval)];
    assert cs[..i] + [Aged(cs[i], interval)] + rest == cs[..i] + ([Aged(cs[i], interval)] + rest);
  }

  /** One that does not is none of those behind it. */
  lemma DeadIsDropped(cs: seq<Condition>, cs': seq<Condition>, i: nat, interval: int, now: int)
    requires i < |cs| && !Lives(cs[i], now) && cs' == cs[..i] + cs[i + 1..]
    ensures cs'[..i] + Survivors(cs'[i..], interval, now) == cs[..i] + Survivors(cs[i..], interval, now)
  {
    assert cs[i..][0] == cs[i] && cs[i..][1..] == cs[i + 1..];
    assert cs'[..i] == cs[..i] && cs'[i..] == cs[i + 1..];
    assert Survivors(cs[i..], interval, now) == [] + Survivors(cs[i + 1..], interval, now);
  }

  lemma {:induction false} ExecutedIs(b: Book, base: Base, i: nat, interval: int, now: int)
    requires SizesOk(b, base) && AllOk(b.conditions) && i <= |b.conditions|
    ensures Executed(b, base, i, interval, now).conditions
            == b.conditions[..i] + Survivors(b.conditions[i..], interval, now)
    decreases |b.conditions| - i
  {
    if i < |b.conditions| {
      var v := b.(conditions := b.conditions[i := Aged(b.conditions[i], interval)]);
      if Lives(b.conditions[i], now) {
        ExecutedIs(v, base, i + 1, interval, now);
        SurvivorStays(b.conditions, v.conditions, i, interval, now);
      } else {
        var u := Dropped(v, base, i);
        assert u.conditions == b.conditions[..i] + b.conditions[i + 1..];
        ExecutedIs(u, base, i, interval, now);
        DeadIsDropped(b.conditions, u.conditions, i, interval, now);
      }
    }
  }

  lemma {:induction false} OthersOfNone(cs: seq<Condition>, kind: ConditionType, id: Option<int>)
    requires forall i | 0 <= i < |cs| :: !Chosen(cs[i], kind, id)
    ensures Others(cs, kind, id) == cs
  {
    if cs != [] {
      OthersOfNone(cs[1..], kind, id);
      assert cs == [cs[0]] + cs[1..];
    }
  }

  lemma {:induction false} OthersOfOne(cs: seq<Condition>, c: Condition, kind: ConditionType, id: Option<int>)
    requires Chosen(c, kind, id)
    ensures Others(cs + [c], kind, id) == Others(cs, kind, id)
  {
    if cs == [] {
      assert [] + [c] == [c];
    } else {
      assert (cs + [c])[0] == cs[0] && (cs + [c])[1..] == cs[1..] + [c];
      OthersOfOne(cs[1..], c, kind, id);
    }
  }

  /** Two books with the same conditions and the same drift show the same bonuses. */
  lemma SameConditionsSameBonuses(b: Book, v: Book, base: Base)
    requires SameDrift(b, v, base) && b.conditions == v.conditions
    ensures b.speed == v.speed
    ensures base.isPlayer ==> b == v.(rates := b.rates, useDefense := b.useDefense)
  {
    assert Drift(v, base, SpeedSlot) == Drift(b, base, SpeedSlot);
    if base.isPlayer {
      forall i | 0 <= i < SKILLS
        ensures b.skills[i] == v.skills[i]
      {
        assert Drift(v, base, Skill(i)) == Drift(b, base, Skill(i));
      }
      forall i | 0 <= i < SPECIALSKILLS
        ensures b.specialSkills[i] == v.specialSkills[i]
      {
        assert Drift(v, base, SpecialSkill(i)) == Drift(b, base, SpecialSkill(i));
      }
      forall i | 0 <= i < STATS
        ensures b.stats[i] == v.stats[i]
      {
        assert Drift(v, base, Stat(i)) == Drift(b, base, Stat(i));
      }
    }
  }

  /** When the last condition alone is chosen, removing drops that one. */
  lemma {:induction false} PurgedOfOne(b: Book, base: Base, i: nat, kind: ConditionType, id: Option<int>)
    requires SizesOk(b, base) && AllOk(b.conditions) && i < |b.conditions|
    requires forall k | 0 <= k < |b.conditions| :: Chosen(b.conditions[k], kind, id) <==> k == |b.conditions| - 1
    ensures Purged(b, base, i, kind, id) == Dropped(b, base, |b.conditions| - 1)
    decreases |b.conditions| - i
  {
    if i < |b.conditions| - 1 {
      PurgedOfOne(b, base, i + 1, kind, id);
    } else {
      var v := Dropped(b, base, i);
      assert Purged(v, base, i, kind, id) == v;
    }
  }

  /** What is left of a book after a condition has come and gone. */
  function AfterVisit(b: Book, e: Effect): Book
    requires e.Attributes? && |b.rates| == |e.rates|
  {
    b.(rates := Assigned(b.rates, e.rates, -1), useDefense := true)
  }

  lemma ComesAndGoes(b: Book, base: Base, c: Condition, now: int, drawn: int)
    requires SizesOk(b, base) && EffectOk(c) && c.effect.Attributes? && base.isPlayer
    ensures var v := Started(b, base, c, now, drawn);
            && |v.conditions| == |b.conditions| + 1 && EffectOk(v.conditions[|b.conditions|])
            && v.conditions[|b.conditions|].kind == c.kind && v.conditions[|b.conditions|].id == c.id
            && Dropped(v, base, |b.conditions|) == AfterVisit(b, c.effect)
  {
    var e, v := Settled(c.effect, b, base, drawn), Started(b, base, c, now, drawn);
    var r := Dropped(v, base, |b.conditions|);
    assert e.rates == c.effect.rates && e.disableDefense == c.effect.disableDefense;
    assert v.conditions[..|b.conditions|] + v.conditions[|b.conditions| + 1..] == b.conditions;
    PlusMinus(b.skills, e.skills);
    PlusMinus(b.specialSkills, e.specialSkills);
    PlusMinus(b.stats, e.stats);
    AssignedTwice(b.rates, e.rates);
  }

  lemma {:induction false} PlusMinus(a: seq<int>, d: seq<int>)
    requires |a| == |d|
    ensures Plus(Plus(a, d), Negated(d)) == a
  {
    var r := Plus(Plus(a, d), Negated(d));
    forall i | 0 <= i < |a|
      ensures r[i] == a[i]
    {
      assert Plus(a, d)[i] == a[i] + d[i] && Negated(d)[i] == -d[i];
    }
  }

  lemma {:induction false} AssignedTwice(rates: seq<int>, d: seq<int>)
    requires |rates| == |d|
    ensures Assigned(Assigned(rates, d, 1), d, -1) == Assigned(rates, d, -1)
  {
  }

  /**
   Removing a condition that was added takes back every bonus, whatever percentages and draws went into it. Rates and
   defense are no bonuses: a rate that the condition set is left as its negative, and defense is switched on.
   */
  lemma AddThenRemove(b: Book, base: Base, c: Condition, force: bool, m: Moment)
    requires SizesOk(b, base) && AllOk(b.conditions) && EffectOk(c) && base.isPlayer && c.kind == CONDITION_ATTRIBUTES
    requires forall i | 0 <= i < |b.conditions| :: !Chosen(b.conditions[i], c.kind, Some(c.id))
    ensures c.effect.Attributes? && |b.rates| == |c.effect.rates|
    ensures SizesOk(Added(b, base, c, force, m), base) && AllOk(Added(b, base, c, force, m).conditions)
    ensures Removed(Added(b, base, c, force, m), base, c.kind, Some(c.id), force, m.walkDelay)
         == AfterVisit(b, c.effect)
  {
    var k := Position(b.conditions, c.kind, c.id, c.subId);
    if k < |b.conditions| {
      assert Chosen(b.conditions[k], c.kind, Some(c.id));
      assert false;
    }
    AddedKeeps(b, base, c, force, m);
    ComesAndGoes(b, base, c, m.now, m.drawn);
    var v := Added(b, base, c, force, m);
    assert forall i | 0 <= i < |b.conditions| :: v.conditions[i] == b.conditions[i];
    PurgedOfOne(v, base, 0, c.kind, Some(c.id));
  }

  /** Each rate is not set, or was the negative of what is set before. */
  predicate RatesUntouched(rates: seq<int>, d: seq<int>)
    requires |rates| == |d|
  {
    forall i {:trigger d[i]} | 0 <= i < |d| :: d[i] == 1 || rates[i] == -d[i]
  }

  /** A condition that has come and gone leaves no trace exactly when no rate is touched and defense was on. */
  lemma VisitLeavesNoTrace(b: Book, e: Effect)
    requires e.Attributes? && |b.rates| == |e.rates|
    ensures AfterVisit(b, e) == b <==> b.useDefense && RatesUntouched(b.rates, e.rates)
  {
    if b.useDefense && RatesUntouched(b.rates, e.rates) {
      assert AfterVisit(b, e).rates == b.rates;
    }
    if AfterVisit(b, e) == b {
      forall i {:trigger e.rates[i]} | 0 <= i < |e.rates|
        ensures e.rates[i] == 1 || b.rates[i] == -e.rates[i]
      {
        assert Assigned(b.rates, e.rates, -1)[i] == b.rates[i];
      }
    }
  }

  /** A refresh ends the old condition's rates and does not set the new one's: the negatives stay while it lasts. */
  lemma RefreshLosesRates(
      b: Book, base: Base, c: Condition, d: Condition, now: int, later: int, drawn: int, redrawn: int, i: nat)
    requires SizesOk(b, base) && EffectOk(c) && EffectOk(d) && base.isPlayer && c.effect.Attributes? && c.kind == d.kind
    requires TakesOver(Timed(c, now), d, later) && i < RATES && c.effect.rates[i] != 1
    ensures var v := Started(b, base, c, now, drawn);
            && v.rates[i] == c.effect.rates[i]
            && |v.conditions| == |b.conditions| + 1 && EffectOk(v.conditions[|b.conditions|])
            && v.conditions[|b.conditions|].kind == d.kind
            && Refreshed(v, base, |b.conditions|, d, later, redrawn).rates[i] == -c.effect.rates[i]
  {
    var e, v := Settled(c.effect, b, base, drawn), Started(b, base, c, now, drawn);
    assert e.rates == c.effect.rates;
    assert v.conditions[|b.conditions|] == Timed(c, now).(effect := e);
    assert Ended(v, base, e).rates[i] == -e.rates[i];
  }

  /** A condition that says nothing about rates sets them to 0, and they stay 0 when it has gone. */
  lemma UnsetRatesVanish(b: Book, base: Base, c: Condition, force: bool, m: Moment)
    requires SizesOk(b, base) && AllOk(b.conditions) && EffectOk(c) && base.isPlayer && c.kind == CONDITION_ATTRIBUTES
    requires forall i | 0 <= i < |b.conditions| :: !Chosen(b.conditions[i], c.kind, Some(c.id))
    requires c.effect.Attributes? && c.effect.rates == [0, 0, 0, 0]
    ensures AllOk(Added(b, base, c, force, m).conditions)
    ensures Added(b, base, c, force, m).rates == [0, 0, 0, 0]
    ensures Removed(Added(b, base, c, force, m), base, c.kind, Some(c.id), force, m.walkDelay).rates == [0, 0, 0, 0]
  {
    AddThenRemove(b, base, c, force, m);
    var k := Position(b.conditions, c.kind, c.id, c.subId);
    if k < |b.conditions| {
      assert Chosen(b.conditions[k], c.kind, Some(c.id));
    }
  }

  // ----- whole runs -----

  /**
   The base values may change at any time: what a condition gives is fixed when it starts or is refreshed. Others
   than conditions may write to the same bonuses at any time.
   */
  datatype Event =
    | Add(c: Condition, force: bool, m: Moment)
    | Remove(kind: ConditionType, id: Option<int>, force: bool, walkDelay: int)
    | Expire(i: nat)
    | Execute(interval: int, now: int)
    | Rebase(base: Base)
    | Wear(e: Effect)

  ghost predicate Possible(b: Book, base: Base, e: Event) {
    match e
    case Add(c, _, _) => EffectOk(c)
    case Expire(i) => i < |b.conditions|
    case Rebase(base') => base'.isPlayer == base.isPlayer && |base'.skills| == SKILLS
    case Wear(e') => EffectSized(e')
    case _ => true
  }

  ghost function Step(b: Book, base: Base, e: Event): (r: (Book, Base))
    requires SizesOk(b, base) && AllOk(b.conditions) && Possible(b, base, e)
  {
    match e
    case Add(c, force, m) => (Added(b, base, c, force, m), base)
    case Remove(kind, id, force, walkDelay) => (Removed(b, base, kind, id, force, walkDelay), base)
    case Expire(i) => (Dropped(b, base, i), base)
    case Execute(interval, now) => (Executed(b, base, 0, interval, now), base)
    case Rebase(base') => (b, base')
    case Wear(e') => (Applied(b, base, e'), base)
  }

  /** What the event writes to a bonus on other grounds than a condition. */
  ghost function Worn(e: Event, slot: Slot): int
    requires SlotOk(slot)
  {
    if e.Wear? && EffectSized(e.e) then Bonus(e.e, slot) else 0
  }

  /** From any start, an event of a condition leaves what a bonus has beyond the active conditions as it is. */
  lemma StepKeeps(b: Book, base: Base, e: Event)
    requires SizesOk(b, base) && AllOk(b.conditions) && Possible(b, base, e)
    ensures var r := Step(b, base, e);
            && SizesOk(r.0, r.1) && AllOk(r.0.conditions) && r.1.isPlayer == base.isPlayer
            && (Unique(b.conditions) ==> Unique(r.0.conditions))
            && forall slot {:trigger Drift(r.0, r.1, slot)} | Kept(base, slot) ::
                 Drift(r.0, r.1, slot) == Drift(b, base, slot) + Worn(e, slot)
  {
    match e
    case Add(c, force, m) => AddedKeeps(b, base, c, force, m);
    case Remove(kind, id, force, walkDelay) => PurgedKeeps(b, base, 0, kind, id);
    case Expire(i) => DroppedKeeps(b, base, i);
    case Execute(interval, now) => ExecutedKeeps(b, base, 0, interval, now);
    case Rebase(base') =>
      forall slot {:trigger Drift(b, base', slot)} | Kept(base, slot)
        ensures Drift(b, base', slot) == Drift(b, base, slot)
      {
        assert Var(b, base', slot) == Var(b, base, slot);
      }
    case Wear(e') => WornShifts(b, base, e');
  }

  lemma WornShifts(b: Book, base: Base, e: Effect)
    requires SizesOk(b, base) && AllOk(b.conditions) && EffectSized(e)
    ensures AllOk(Applied(b, base, e).conditions)
    ensures forall slot {:trigger Drift(Applied(b, base, e), base, slot)} | Kept(base, slot) ::
              Drift(Applied(b, base, e), base, slot) == Drift(b, base, slot) + Bonus(e, slot)
  {
    var r := Applied(b, base, e);
    forall slot {:trigger Drift(r, base, slot)} | Kept(base, slot)
      ensures Drift(r, base, slot) == Drift(b, base, slot) + Bonus(e, slot)
    {
      AppliedAdds(b, base, e, slot);
    }
  }

  ghost predicate Follows(b: Book, base: Base, e: Event, b': Book, base': Base) {
    SizesOk(b, base) && AllOk(b.conditions) ==> Possible(b, base, e) && Step(b, base, e) == (b', base')
  }

  ghost predicate Run(books: seq<Book>, bases: seq<Base>, events: seq<Event>) {
    && |books| == |bases| == |events| + 1 && Sound(books[0], bases[0])
    && forall i {:trigger Follows(books[i], bases[i], events[i], books[i + 1], bases[i + 1])} | 0 <= i < |events| ::
         Follows(books[i], bases[i], events[i], books[i + 1], bases[i + 1])
  }

  /** What has been written on other grounds by the first i events. */
  ghost function WornSoFar(events: seq<Event>, i: nat, slot: Slot): int
    requires i <= |events| && SlotOk(slot)
  {
    if i == 0 then 0 else WornSoFar(events, i - 1, slot) + Worn(events[i - 1], slot)
  }

  /**
   After every run each bonus is the sum over the conditions that are left, what others have written, and what it
   had beyond its conditions to begin with; and no two conditions share type, id and subId.
   */
  lemma {:induction false} RunKeeps(books: seq<Book>, bases: seq<Base>, events: seq<Event>, i: nat)
    requires Run(books, bases, events) && i <= |events|
    ensures Sound(books[i], bases[i]) && bases[i].isPlayer == bases[0].isPlayer
    ensures forall slot {:trigger Var(books[i], bases[i], slot)} | Kept(bases[0], slot) ::
              Var(books[i], bases[i], slot)
              == Total(books[i].conditions, slot) + WornSoFar(events, i, slot) + Drift(books[0], bases[0], slot)
  {
    if i > 0 {
      var h := i - 1;
      RunKeeps(books, bases, events, h);
      assert Follows(books[h], bases[h], events[h], books[h + 1], bases[h + 1]);
      StepKeeps(books[h], bases[h], events[h]);
      forall slot {:trigger Var(books[i], bases[i], slot)} | Kept(bases[0], slot)
        ensures Var(books[i], bases[i], slot)
             == Total(books[i].conditions, slot) + WornSoFar(events, i, slot) + Drift(books[0], bases[0], slot)
      {
        assert Var(books[h], bases[h], slot)
            == Total(books[h].conditions, slot) + WornSoFar(events, h, slot) + Drift(books[0], bases[0], slot);
        assert Drift(books[i], bases[i], slot) == Drift(books[h], bases[h], slot) + Worn(events[h], slot);
      }
    }
  }

  ghost predicate Blank(b: Book, base: Base) {
    b.conditions == [] && SizesOk(b, base) && forall slot {:trigger Var(b, base, slot)} | SlotOk(slot) ::
        Var(b, base, slot) == 0
  }

  /** From a blank start, when the last condition has gone, a bonus is what others have written. */
  lemma NothingIsLeftOver(books: seq<Book>, bases: seq<Base>, events: seq<Event>, i: nat, slot: Slot)
    requires Run(books, bases, events) && Blank(books[0], bases[0])
    requires i <= |events| && books[i].conditions == [] && Kept(bases[0], slot)
    ensures SizesOk(books[i], bases[i]) && Var(books[i], bases[i], slot) == WornSoFar(events, i, slot)
  {
    RunKeeps(books, bases, events, i);
    assert Var(books[0], bases[0], slot) == 0;
    assert Var(books[i], bases[i], slot)
        == Total(books[i].conditions, slot) + WornSoFar(events, i, slot) + Drift(books[0], bases[0], slot);
  }

  // ----- the object -----

  class Creature {
    const isPlayer: bool
    var conditions: seq<Condition>
    const varSkills: array<int>
    const varSpecialSkills: array<int>
    const varStats: array<int>
    var varSpeed: int
    const experienceRate: array<int>
    var canUseDefense: bool
    // what percentages are taken of
    var skills: seq<int>
    var healthMax: int
    var manaMax: int
    var magLevel: int

    ghost predicate Valid()
      reads this, varSkills, varSpecialSkills, varStats, experienceRate
    {
      && varSkills != varSpecialSkills && varSkills != varStats && varSpecialSkills != varStats
      && experienceRate != varSkills && experienceRate != varSpecialSkills && experienceRate != varStats
      && SizesOk(Snap(), Bases())
    }

    ghost function Snap(): Book
      reads this, varSkills, varSpecialSkills, varStats, experienceRate
    {
      Book(conditions, varSkills[..], varSpecialSkills[..], varStats[..], varSpeed, experienceRate[..], canUseDefense)
    }

    function Bases(): Base
      reads this`skills, this`healthMax, this`manaMax, this`magLevel
    {
      Base(isPlayer, skills, healthMax, manaMax, magLevel)
    }

    constructor (isPlayer: bool, skills: seq<int>, healthMax: int, manaMax: int, magLevel: int)
      requires |skills| == SKILLS
      ensures Valid() && fresh(varSkills) && fresh(varSpecialSkills) && fresh(varStats) && fresh(experienceRate)
      ensures Blank(Snap(), Bases()) && Sound(Snap(), Bases())
      ensures experienceRate[..] == [100, 100, 100, 100] && canUseDefense
    {
      this.isPlayer, this.skills, this.healthMax, this.manaMax, this.magLevel := isPlayer, skills, healthMax, manaMax,
      magLevel;
      conditions, varSpeed := [], 0;
      varSkills := new int[SKILLS](_ => 0);
      varSpecialSkills := new int[SPECIALSKILLS](_ => 0);
      varStats := new int[STATS](_ => 0);
      experienceRate := new int[RATES](_ => 100);
      canUseDefense := true;
    }

    /** The loops of updateSkills, updateStats and endCondition; only amounts that are not 0 are added. */
    method AddTo(a: array<int>, d: seq<int>)
      requires a.Length == |d|
      modifies a
      ensures a[..] == Plus(old(a[..]), d)
    {
      for i := 0 to |d|
        invariant forall k | 0 <= k < i :: a[k] == old(a[k]) + d[k]
        invariant forall k | i <= k < a.Length :: a[k] == old(a[k])
      {
        if d[i] != 0 {
          a[i] := a[i] + d[i];
        }
      }
    }

    /** changeSpeed: of the speed, only the part above the base speed is kept. */
    method ChangeSpeed(baseSpeed: int, varSpeedDelta: int)
      modifies this`varSpeed
      ensures varSpeed == old(varSpeed) + varSpeedDelta
    {
      var speed := baseSpeed + varSpeed;
      varSpeed := (speed - baseSpeed) + varSpeedDelta;
    }

    method Apply(e: Effect)
      requires Valid() && EffectSized(e)
      modifies this`varSpeed, varSkills, varSpecialSkills, varStats
      ensures Valid() && Snap() == Applied(old(Snap()), Bases(), e)
    {
      match e
      case Attributes(skills, _, specialSkills, stats, _, _, _) =>
        if isPlayer {
          AddTo(varSkills, skills);
          AddTo(varSpecialSkills, specialSkills);
          AddTo(varStats, stats);
        }
      case Speed(delta) => ChangeSpeed(0, delta);
      case Nothing =>
    }

    method End(e: Effect)
      requires Valid() && EffectSized(e)
      modifies this`varSpeed, this`canUseDefense, varSkills, varSpecialSkills, varStats, experienceRate
      ensures Valid() && Snap() == Ended(old(Snap()), Bases(), e)
    {
      Apply(Opposite(e));
      if e.Attributes? {
        if isPlayer {
          SetRates(e.rates, -1);
        }
        if e.disableDefense {
          canUseDefense := true;
        }
      }
    }

    /** The loops of updateExperienceRate and endCondition; a rate of 1 is passed over. */
    method SetRates(d: seq<int>, sign: int)
      requires experienceRate.Length == |d|
      modifies experienceRate
      ensures experienceRate[..] == Assigned(old(experienceRate[..]), d, sign)
    {
      for i := 0 to |d|
        invariant forall k | 0 <= k < i ::
                    experienceRate[k] == if d[k] != 1 then sign * d[k] else old(experienceRate[k])
        invariant forall k | i <= k < experienceRate.Length :: experienceRate[k] == old(experienceRate[k])
      {
        if d[i] != 1 {
          experienceRate[i] := sign * d[i];
        }
      }
    }

    /** updatePercentSkills and updatePercentStats, and the draw of a speed. */
    method Settle(e: Effect, drawn: int) returns (r: Effect)
      requires Valid() && EffectSized(e)
      ensures r == Settled(e, Snap(), Bases(), drawn)
    {
      var b := Book(conditions, varSkills[..], varSpecialSkills[..], varStats[..], varSpeed, experienceRate[..],
        canUseDefense);
      r := Settled(e, b, Bases(), drawn);
    }

    method StartCondition(c: Condition, now: int, drawn: int)
      requires Valid() && EffectOk(c)
      modifies this`conditions, this`varSpeed, this`canUseDefense
      modifies varSkills, varSpecialSkills, varStats, experienceRate
      ensures Valid() && Snap() == Started(old(Snap()), Bases(), c, now, drawn)
    {
      var e := Settle(c.effect, drawn);
      if e.Attributes? {
        canUseDefense := !e.disableDefense;
      }
      Apply(e);
      if isPlayer && e.Attributes? {
        SetRates(e.rates, 1);
      }
      conditions := conditions + [Timed(c, now).(effect := e)];
    }

    method RefreshCondition(k: nat, c: Condition, now: int, drawn: int)
      requires Valid() && EffectOk(c) && k < |conditions| && EffectOk(conditions[k]) && conditions[k].kind == c.kind
      modifies this`conditions, this`varSpeed, this`canUseDefense
      modifies varSkills, varSpecialSkills, varStats, experienceRate
      ensures Valid() && Snap() == Refreshed(old(Snap()), Bases(), k, c, now, drawn)
    {
      if !TakesOver(conditions[k], c, now) {
        return;
      }
      End(conditions[k].effect);
      var e := Settle(c.effect, drawn);
      Apply(e);
      conditions := conditions[k := conditions[k].(ticks := c.ticks, endTime := c.ticks + now, effect := e)];
    }

    method HasCondition(kind: ConditionType, suppressed: set<ConditionType>, now: int) returns (yes: bool)
      ensures yes <==> Has(conditions, kind, suppressed, now)
    {
      if kind in suppressed {
        return false;
      }
      for i := 0 to |conditions|
        invariant forall k | 0 <= k < i ::
                    !(conditions[k].kind == kind && conditions[k].subId == 0
                        && (conditions[k].endTime >= now || conditions[k].ticks == -1))
      {
        var c := conditions[i];
        if c.kind == kind && c.subId == 0 && (c.endTime >= now || c.ticks == -1) {
          return true;
        }
      }
      yes := false;
    }

    method GetCondition(kind: ConditionType, id: int, subId: nat) returns (k: nat)
      ensures k == Position(conditions, kind, id, subId)
    {
      k := 0;
      while k < |conditions| && !SameKey(conditions[k], kind, id, subId)
        invariant k <= |conditions|
        invariant Position(conditions, kind, id, subId) == k + Position(conditions[k..], kind, id, subId)
      {
        assert conditions[k..][1..] == conditions[k + 1..];
        k := k + 1;
      }
    }

    /** added is false when a haste is put off because the creature is paralysed and has to wait for its next step. */
    method AddCondition(c: Condition, force: bool, m: Moment) returns (added: bool)
      requires Valid() && Sound(Snap(), Bases()) && EffectOk(c)
      modifies this`conditions, this`varSpeed, this`canUseDefense
      modifies varSkills, varSpecialSkills, varStats, experienceRate
      ensures Valid() && Sound(Snap(), Bases()) && SameDrift(old(Snap()), Snap(), Bases())
      ensures Snap() == Added(old(Snap()), Bases(), c, force, m)
    {
      AddedKeeps(Snap(), Bases(), c, force, m);
      var paralysed := HasCondition(CONDITION_PARALYZE, m.suppressed, m.now);
      if !force && c.kind == CONDITION_HASTE && paralysed && m.walkDelay > 0 {
        return false;
      }
      var k := GetCondition(c.kind, c.id, c.subId);
      added := true;
      if k < |conditions| {
        RefreshCondition(k, c, m.now, m.drawn);
        return;
      }
      StartedKeeps(Snap(), Bases(), c, m.now, m.drawn);
      StartCondition(c, m.now, m.drawn);
      OnAddCondition(c.kind, m);
    }

    method OnAddCondition(kind: ConditionType, m: Moment)
      requires Valid() && Sound(Snap(), Bases())
      modifies this`conditions, this`varSpeed, this`canUseDefense
      modifies varSkills, varSpecialSkills, varStats, experienceRate
      ensures Valid()
      ensures var v := old(Snap());
              Snap() == if kind == CONDITION_PARALYZE && Has(v.conditions, CONDITION_HASTE, m.suppressed, m.now) then
                          Removed(v, Bases(), CONDITION_HASTE, None, false, m.walkDelay)
                        else if kind == CONDITION_HASTE
                            && Has(v.conditions, CONDITION_PARALYZE, m.suppressed, m.now) then
                          Removed(v, Bases(), CONDITION_PARALYZE, None, false, m.walkDelay)
                        else v
    {
      var hasted := HasCondition(CONDITION_HASTE, m.suppressed, m.now);
      var paralysed := HasCondition(CONDITION_PARALYZE, m.suppressed, m.now);
      if kind == CONDITION_PARALYZE && hasted {
        RemoveConditions(CONDITION_HASTE, None, false, m.walkDelay);
      } else if kind == CONDITION_HASTE && paralysed {
        RemoveConditions(CONDITION_PARALYZE, None, false, m.walkDelay);
      }
    }

    method EraseAt(i: nat)
      requires Valid() && i < |conditions| && EffectOk(conditions[i])
      modifies this`conditions, this`varSpeed, this`canUseDefense
      modifies varSkills, varSpecialSkills, varStats, experienceRate
      ensures Valid() && Snap() == Dropped(old(Snap()), Bases(), i)
    {
      var condition := conditions[i];
      conditions := conditions[..i] + conditions[i + 1..];
      End(condition.effect);
      assert Snap().conditions == conditions;
    }

    /** removeCondition of a type, and of an id when one is given. */
    method RemoveConditions(kind: ConditionType, id: Option<int>, force: bool, walkDelay: int)
      requires Valid() && Sound(Snap(), Bases())
      modifies this`conditions, this`varSpeed, this`canUseDefense
      modifies varSkills, varSpecialSkills, varStats, experienceRate
      ensures Valid() && Sound(Snap(), Bases()) && SameDrift(old(Snap()), Snap(), Bases())
      ensures Snap() == Removed(old(Snap()), Bases(), kind, id, force, walkDelay)
      ensures conditions == if !force && kind == CONDITION_PARALYZE && walkDelay > 0 then old(conditions)
              else Others(old(conditions), kind, id)
    {
      PurgedKeeps(Snap(), Bases(), 0, kind, id);
      PurgedIs(Snap(), Bases(), 0, kind, id);
      assert conditions[0..] == conditions && conditions[..0] == [];
      PurgeLoop(kind, id, force, walkDelay);
    }

    method PurgeLoop(kind: ConditionType, id: Option<int>, force: bool, walkDelay: int)
      requires Valid() && AllOk(conditions)
      modifies this`conditions, this`varSpeed, this`canUseDefense
      modifies varSkills, varSpecialSkills, varStats, experienceRate
      ensures Valid() && Snap() == Removed(old(Snap()), Bases(), kind, id, force, walkDelay)
    {
      ghost var start := Snap();
      var i := 0;
      while i < |conditions|
        invariant i <= |conditions| && Valid() && AllOk(conditions)
        invariant Purged(Snap(), Bases(), i, kind, id) == Purged(start, Bases(), 0, kind, id)
        invariant !force && kind == CONDITION_PARALYZE && walkDelay > 0 ==> Snap() == start
        decreases |conditions| - i
      {
        if !Chosen(conditions[i], kind, id) {
          i := i + 1;
        } else {
          if !force && kind == CONDITION_PARALYZE && walkDelay > 0 {
            return;
          }
          EraseAt(i);
        }
      }
    }

    method ExecuteConditions(interval: int, now: int)
      requires Valid() && Sound(Snap(), Bases())
      modifies this`conditions, this`varSpeed, this`canUseDefense
      modifies varSkills, varSpecialSkills, varStats, experienceRate
      ensures Valid() && Sound(Snap(), Bases()) && SameDrift(old(Snap()), Snap(), Bases())
      ensures Snap() == Executed(old(Snap()), Bases(), 0, interval, now)
      ensures conditions == Survivors(old(conditions), interval, now)
    {
      ExecutedKeeps(Snap(), Bases(), 0, interval, now);
      ExecutedIs(Snap(), Bases(), 0, interval, now);
      assert conditions[0..] == conditions && conditions[..0] == [];
      ExecuteLoop(interval, now);
    }

    method ExecuteLoop(interval: int, now: int)
      requires Valid() && AllOk(conditions)
      modifies this`conditions, this`varSpeed, this`canUseDefense
      modifies varSkills, varSpecialSkills, varStats, experienceRate
      ensures Valid() && Snap() == Executed(old(Snap()), Bases(), 0, interval, now)
    {
      ghost var start := Snap();
      var i := 0;
      while i < |conditions|
        invariant i <= |conditions| && Valid() && AllOk(conditions)
        invariant Executed(Snap(), Bases(), i, interval, now) == Executed(start, Bases(), 0, interval, now)
        decreases |conditions| - i
      {
        var lives := Lives(conditions[i], now);
        conditions := conditions[i := Aged(conditions[i], interval)];
        if lives {
          i := i + 1;
        } else {
          EraseAt(i);
        }
      }
    }
  }
}
