/** The timing wheel of src/game.cpp: startDecay, internalDecayItem, checkDecay and cleanup over four buckets. */
module DecayWheel {

  datatype Item = Item(serial: nat)

  const EVENT_DECAYINTERVAL := 250
  const EVENT_DECAY_BUCKETS := 4
  const ROUND := EVENT_DECAYINTERVAL * EVENT_DECAY_BUCKETS

  /**
   What becomes of an item that decays: it is gone, or cannot be transformed and stays as it is, or next (the same
   object under another id, or another one) is there with a fresh duration.
   */
  datatype Outcome = Gone | Kept | Turned(next: Item, duration: int)

  /** The wheel, the items' durations and flags, the counted references, and what decayed in the latest tick. */
  datatype World = World(
    buckets: seq<seq<Item>>, pending: seq<Item>, last: nat, duration: map<Item, int>, decaying: set<Item>,
    decayable: set<Item>, references: multiset<Item>, toRelease: seq<Item>, fired: set<Item>)

  function Duration(duration: map<Item, int>, item: Item): int {
    if item in duration then duration[item] else 0
  }

  /** Everything the wheel keeps, wherever it is. */
  ghost function Places(buckets: seq<seq<Item>>, pending: seq<Item>): multiset<Item>
    requires |buckets| == 4
  {
    multiset(pending) + multiset(buckets[0]) + multiset(buckets[1]) + multiset(buckets[2]) + multiset(buckets[3])
  }

  ghost predicate Shaped(w: World) {
    |w.buckets| == 4 && w.last < 4
  }

  ghost function Tracked(w: World): multiset<Item>
    requires Shaped(w)
  {
    Places(w.buckets, w.pending)
  }

  // ----- the steps -----

  /** The item waits for cleanup to put it into a bucket; a reference is counted for it. */
  ghost function Enter(w: World, item: Item): World {
    w.(pending := [item] + w.pending, references := w.references + multiset{item}, decaying := w.decaying + {item})
  }

  /** internalDecayItem; what is already on the wheel is not what a transformation yields. */
  ghost function Decay(w: World, item: Item, outcome: Outcome): World
    requires Shaped(w)
  {
    var v := w.(fired := w.fired + {item});
    match outcome
    case Gone => v.(decayable := v.decayable - {item})
    case Kept => v
    case Turned(next, duration) =>
      if next in Tracked(v) || duration <= 0 then v
      else Enter(v.(duration := v.duration[next := duration], decayable := v.decayable + {next}), next)
  }

  ghost function DecayStarted(w: World, item: Item, outcome: Outcome): World
    requires Shaped(w)
  {
    if item !in w.decayable || item in w.decaying then w
    else if Duration(w.duration, item) > 0 then Enter(w, item)
    else Decay(w, item, outcome)
  }

  ghost function Erase(w: World, b: nat, i: nat): World
    requires Shaped(w) && b < 4 && i < |w.buckets[b]|
  {
    w.(buckets := w.buckets[b := w.buckets[b][..i] + w.buckets[b][i + 1..]])
  }

  ghost function Push(w: World, b: nat, item: Item): World
    requires Shaped(w) && b < 4
  {
    w.(buckets := w.buckets[b := w.buckets[b] + [item]])
  }

  ghost function Release(w: World, item: Item): World {
    w.(toRelease := w.toRelease + [item])
  }

  /** What is left of a duration after one visit. */
  function Left(d: int): int {
    d - if d < ROUND then d else ROUND
  }

  /** The bucket a visited item with d left, 0 < d < ROUND, belongs into. */
  function NewBucket(b: nat, d: int): (c: nat)
    requires b < 4 && 0 < d < ROUND
    ensures c == if d < 875 then b else (b + 1) % 4
  {
    (b + (d + EVENT_DECAYINTERVAL / 2) / 1000) % EVENT_DECAY_BUCKETS
  }

  datatype Visited = Visited(w: World, erased: bool)

  ghost function Answer(answers: map<Item, Outcome>, item: Item): Outcome {
    if item in answers then answers[item] else Gone
  }

  /** One turn of checkDecay's loop, at position i of bucket b. */
  ghost function Visit(w: World, b: nat, i: nat, answers: map<Item, Outcome>): Visited
    requires Shaped(w) && b < 4 && i < |w.buckets[b]|
  {
    var item := w.buckets[b][i];
    if item !in w.decayable then
      Visited(Release(Erase(w.(decaying := w.decaying - {item}), b, i), item), true)
    else
      var d := Left(Duration(w.duration, item));
      var v := w.(duration := w.duration[item := d]);
      if d <= 0 then
        Visited(Release(Decay(Erase(v, b, i), item, Answer(answers, item)), item), true)
      else if d < ROUND then
        var c := NewBucket(b, d);
        if c == b then
          Visited(Release(Decay(Erase(v, b, i), item, Answer(answers, item)), item), true)
        else
          Visited(Push(Erase(v, b, i), c, item), true)
      else
        Visited(v, false)
  }

  lemma VisitShape(w: World, b: nat, i: nat, answers: map<Item, Outcome>)
    requires Shaped(w) && b < 4 && i < |w.buckets[b]|
    ensures var v := Visit(w, b, i, answers);
            Shaped(v.w) && v.w.last == w.last && |v.w.buckets[b]| == |w.buckets[b]| - if v.erased then 1 else 0
  {
  }

  ghost function Walk(w: World, b: nat, i: nat, answers: map<Item, Outcome>): (r: World)
    requires Shaped(w) && b < 4 && i <= |w.buckets[b]|
    ensures Shaped(r)
    decreases |w.buckets[b]| - i
  {
    if i == |w.buckets[b]| then w
    else
      VisitShape(w, b, i, answers);
      var v := Visit(w, b, i, answers);
      Walk(v.w, b, if v.erased then i else i + 1, answers)
  }

  /** Where cleanup puts a pending item. */
  function Slot(last: nat, d: int): (c: nat)
    requires last < 4 && d > 0
    ensures c == if d >= ROUND then last else (last + 1) % 4
  {
    if d >= ROUND then last else (last + 1 + d / 1000) % EVENT_DECAY_BUCKETS
  }

  ghost predicate Waiting(w: World) {
    forall x {:trigger Duration(w.duration, x)} | x in w.pending :: Duration(w.duration, x) > 0
  }

  /** The pending items from position k on go into their buckets. */
  ghost function Distribute(w: World, k: nat): (r: World)
    requires Shaped(w) && Waiting(w) && k <= |w.pending|
    ensures Shaped(r) && r == w.(buckets := r.buckets)
    decreases |w.pending| - k
  {
    if k == |w.pending| then w
    else
      assert w.pending[k] in w.pending;
      var v := Push(w, Slot(w.last, Duration(w.duration, w.pending[k])), w.pending[k]);
      Distribute(v, k + 1)
  }

  ghost function CleanedUp(w: World): (r: World)
    requires Shaped(w) && Waiting(w)
    ensures Shaped(r) && r.fired == w.fired && r.decayable == w.decayable
  {
    var v := w.(references := w.references - multiset(w.toRelease), toRelease := []);
    Distribute(v, 0).(pending := [])
  }

  ghost function Turn(w: World, answers: map<Item, Outcome>): (r: World)
    requires Shaped(w)
    ensures Shaped(r)
  {
    var b := (w.last + 1) % EVENT_DECAY_BUCKETS;
    Walk(w.(fired := {}), b, 0, answers).(last := b)
  }

  ghost function DecayChecked(w: World, answers: map<Item, Outcome>): (r: World)
    requires Inv(w)
    ensures Inv(r)
  {
    TurnKeeps(w, answers);
    CleanedUpKeeps(Turn(w, answers));
    CleanedUp(Turn(w, answers))
  }

  // ----- the invariant -----

  /** Each tracked item is in one place, flagged as decaying, and has its one reference; pending ones have time left. */
  ghost predicate Inv(w: World) {
    && Shaped(w) && Waiting(w)
    && (forall x {:trigger Tracked(w)[x]} :: Tracked(w)[x] <= 1)
    && (forall x {:trigger x in w.decaying} | x in Tracked(w) :: x in w.decaying)
    && w.references == Tracked(w) + multiset(w.toRelease)
  }

  lemma EnterKeeps(w: World, item: Item)
    requires Inv(w) && item !in Tracked(w) && Duration(w.duration, item) > 0
    ensures Inv(Enter(w, item)) && Tracked(Enter(w, item)) == Tracked(w) + multiset{item}
  {
    var v := Enter(w, item);
    assert multiset([item] + w.pending) == multiset{item} + multiset(w.pending);
    assert Tracked(v) == Tracked(w) + multiset{item};
    forall x {:trigger Tracked(v)[x]}
      ensures Tracked(v)[x] <= 1
    {
      assert Tracked(w)[x] <= 1 && Tracked(w)[item] == 0;
    }
  }

  lemma DecayKeeps(w: World, item: Item, outcome: Outcome)
    requires Inv(w)
    ensures Inv(Decay(w, item, outcome))
  {
    if outcome.Turned? && outcome.next !in Tracked(w) && outcome.duration > 0 {
      var v := w.(fired := w.fired + {item}, duration := w.duration[outcome.next := outcome.duration],
                  decayable := w.decayable + {outcome.next});
      assert Tracked(v) == Tracked(w);
      forall x | x in v.pending
        ensures Duration(v.duration, x) > 0
      {
        assert Duration(w.duration, x) > 0 && x in Tracked(w);
      }
      EnterKeeps(v, outcome.next);
    }
  }

  lemma DecayStartedKeeps(w: World, item: Item, outcome: Outcome)
    requires Inv(w)
    ensures Inv(DecayStarted(w, item, outcome))
  {
    if item in w.decayable && item !in w.decaying {
      if Duration(w.duration, item) > 0 {
        EnterKeeps(w, item);
      } else {
        DecayKeeps(w, item, outcome);
      }
    }
  }

  lemma BucketReplaced(buckets: seq<seq<Item>>, pending: seq<Item>, b: nat, s: seq<Item>)
    requires |buckets| == 4 && b < 4
    ensures Places(buckets[b := s], pending) + multiset(buckets[b]) == Places(buckets, pending) + multiset(s)
  {
    if b == 0 {
    } else if b == 1 {
    } else if b == 2 {
    } else {
    }
  }

  lemma Without(s: seq<Item>, i: nat)
    requires i < |s|
    ensures multiset(s) == multiset(s[..i] + s[i + 1..]) + multiset{s[i]}
  {
    assert s == s[..i] + [s[i]] + s[i + 1..];
  }

  lemma Erased(w: World, b: nat, i: nat)
    requires Shaped(w) && b < 4 && i < |w.buckets[b]|
    ensures Tracked(w) == Tracked(Erase(w, b, i)) + multiset{w.buckets[b][i]}
  {
    var s := w.buckets[b];
    Without(s, i);
    BucketReplaced(w.buckets, w.pending, b, s[..i] + s[i + 1..]);
  }

  lemma Pushed(w: World, b: nat, item: Item)
    requires Shaped(w) && b < 4
    ensures Tracked(Push(w, b, item)) == Tracked(w) + multiset{item}
  {
    var s := w.buckets[b];
    assert multiset(s + [item]) == multiset(s) + multiset{item};
    BucketReplaced(w.buckets, w.pending, b, s + [item]);
  }

  /** An item leaves the wheel, and its reference waits to be given up. */
  lemma LeavingKeeps(w: World, b: nat, i: nat)
    requires Inv(w) && b < 4 && i < |w.buckets[b]|
    ensures var item := w.buckets[b][i];
            && Inv(Release(Erase(w, b, i), item)) && item !in Tracked(Erase(w, b, i)) && item !in w.pending
            && Inv(Release(Erase(w.(decaying := w.decaying - {item}), b, i), item))
  {
    var item := w.buckets[b][i];
    var v := Release(Erase(w, b, i), item);
    Erased(w, b, i);
    assert multiset(v.toRelease) == multiset(w.toRelease) + multiset{item};
    assert Tracked(w)[item] <= 1;
    assert Tracked(v)[item] == 0;
    forall x {:trigger Tracked(v)[x]}
      ensures Tracked(v)[x] <= 1
    {
      assert Tracked(w)[x] <= 1;
    }
    assert item in multiset(w.buckets[b]);
  }

  lemma TimeSpent(w: World, b: nat, i: nat, d: int)
    requires Inv(w) && b < 4 && i < |w.buckets[b]|
    ensures Inv(w.(duration := w.duration[w.buckets[b][i] := d]))
  {
    LeavingKeeps(w, b, i);
    var v := w.(duration := w.duration[w.buckets[b][i] := d]);
    assert Tracked(v) == Tracked(w);
    forall x {:trigger Duration(v.duration, x)} | x in v.pending
      ensures Duration(v.duration, x) > 0
    {
      assert Duration(w.duration, x) > 0;
    }
  }

  lemma DecayThenRelease(w: World, item: Item, outcome: Outcome)
    requires Shaped(w)
    ensures Release(Decay(w, item, outcome), item) == Decay(Release(w, item), item, outcome)
  {
  }

  lemma MovingKeeps(w: World, b: nat, i: nat, c: nat)
    requires Inv(w) && b < 4 && i < |w.buckets[b]| && c < 4
    ensures Inv(Push(Erase(w, b, i), c, w.buckets[b][i]))
    ensures Tracked(Push(Erase(w, b, i), c, w.buckets[b][i])) == Tracked(w)
  {
    Erased(w, b, i);
    Pushed(Erase(w, b, i), c, w.buckets[b][i]);
  }

  lemma DecayingKeeps(w: World, b: nat, i: nat, outcome: Outcome)
    requires Inv(w) && b < 4 && i < |w.buckets[b]|
    ensures var item := w.buckets[b][i]; Inv(Release(Decay(Erase(w, b, i), item, outcome), item))
  {
    var item := w.buckets[b][i];
    LeavingKeeps(w, b, i);
    DecayThenRelease(Erase(w, b, i), item, outcome);
    DecayKeeps(Release(Erase(w, b, i), item), item, outcome);
  }

  lemma VisitKeeps(w: World, b: nat, i: nat, answers: map<Item, Outcome>)
    requires Inv(w) && b < 4 && i < |w.buckets[b]|
    ensures Inv(Visit(w, b, i, answers).w)
  {
    var item := w.buckets[b][i];
    if item !in w.decayable {
      LeavingKeeps(w, b, i);
    } else {
      var d := Left(Duration(w.duration, item));
      TimeSpent(w, b, i, d);
      SpentKeeps(w, w.(duration := w.duration[item := d]), b, i, d, answers);
    }
  }

  lemma SpentKeeps(w: World, v: World, b: nat, i: nat, d: int, answers: map<Item, Outcome>)
    requires Shaped(w) && Inv(v) && b < 4 && v.buckets == w.buckets && i < |w.buckets[b]|
             && w.buckets[b][i] in w.decayable
    requires d == Left(Duration(w.duration, w.buckets[b][i])) && v == w.(duration := w.duration[w.buckets[b][i] := d])
    ensures Inv(Visit(w, b, i, answers).w)
  {
    if d <= 0 || (d < ROUND && NewBucket(b, d) == b) {
      DecayingKeeps(v, b, i, Answer(answers, v.buckets[b][i]));
    } else if d < ROUND {
      MovingKeeps(v, b, i, NewBucket(b, d));
    }
  }

  lemma {:induction false} WalkKeeps(w: World, b: nat, i: nat, answers: map<Item, Outcome>)
    requires Inv(w) && b < 4 && i <= |w.buckets[b]|
    ensures Inv(Walk(w, b, i, answers))
    decreases |w.buckets[b]| - i
  {
    if i < |w.buckets[b]| {
      VisitKeeps(w, b, i, answers);
      VisitShape(w, b, i, answers);
      var v := Visit(w, b, i, answers);
      WalkKeeps(v.w, b, if v.erased then i else i + 1, answers);
    }
  }

  lemma TurnKeeps(w: World, answers: map<Item, Outcome>)
    requires Inv(w)
    ensures Inv(Turn(w, answers))
  {
    var b := (w.last + 1) % EVENT_DECAY_BUCKETS;
    assert Tracked(w.(fired := {})) == Tracked(w);
    WalkKeeps(w.(fired := {}), b, 0, answers);
    var v := Walk(w.(fired := {}), b, 0, answers);
    assert Tracked(v.(last := b)) == Tracked(v);
  }

  lemma SplitOff(s: seq<Item>, k: nat)
    requires k < |s|
    ensures multiset(s[k..]) == multiset{s[k]} + multiset(s[k + 1..])
  {
    assert s[k..] == [s[k]] + s[k + 1..];
  }

  lemma Regroup(a: multiset<Item>, b: multiset<Item>, c: multiset<Item>)
    ensures (a + b) + c == a + (b + c)
  {
  }

  lemma Cancel(a: multiset<Item>, b: multiset<Item>, m: multiset<Item>)
    requires a + m == b + m
    ensures a == b
  {
    forall x
      ensures a[x] == b[x]
    {
      assert (a + m)[x] == (b + m)[x];
    }
  }

  lemma {:induction false} Distributed(w: World, k: nat)
    requires Shaped(w) && Waiting(w) && k <= |w.pending|
    ensures Tracked(Distribute(w, k)) == Tracked(w) + multiset(w.pending[k..])
    decreases |w.pending| - k
  {
    if k < |w.pending| {
      assert w.pending[k] in w.pending;
      var c := Slot(w.last, Duration(w.duration, w.pending[k]));
      var v := Push(w, c, w.pending[k]);
      Pushed(w, c, w.pending[k]);
      Distributed(v, k + 1);
      SplitOff(w.pending, k);
      Regroup(Tracked(w), multiset{w.pending[k]}, multiset(w.pending[k + 1..]));
    } else {
      assert w.pending[k..] == [];
    }
  }

  lemma CleanupTracks(w: World)
    requires Shaped(w) && Waiting(w)
    ensures Tracked(CleanedUp(w)) == Tracked(w) && CleanedUp(w).pending == []
  {
    var v := w.(references := w.references - multiset(w.toRelease), toRelease := []);
    Distributed(v, 0);
    assert v.pending[0..] == v.pending;
    var d := Distribute(v, 0);
    NonePending(d);
    NothingMoved(w, v);
    assert CleanedUp(w) == d.(pending := []) && d.pending == w.pending;
    Cancel(Tracked(CleanedUp(w)), Tracked(w), multiset(w.pending));
  }

  lemma CleanedUpKeeps(w: World)
    requires Inv(w)
    ensures Inv(CleanedUp(w)) && Tracked(CleanedUp(w)) == Tracked(w) && CleanedUp(w).pending == []
    ensures CleanedUp(w).references == Tracked(w)
  {
    CleanupTracks(w);
    SameTracked(w, CleanedUp(w));
  }

  lemma SameTracked(w: World, r: World)
    requires Inv(w) && Shaped(r) && Tracked(r) == Tracked(w) && r.pending == [] && r.toRelease == []
    requires r.decaying == w.decaying && r.references == w.references - multiset(w.toRelease)
    ensures Inv(r) && r.references == Tracked(w)
  {
    forall x {:trigger Tracked(r)[x]}
      ensures Tracked(r)[x] <= 1
    {
      assert Tracked(w)[x] <= 1;
    }
  }

  lemma NonePending(d: World)
    requires Shaped(d)
    ensures Tracked(d) == Tracked(d.(pending := [])) + multiset(d.pending)
  {
  }

  lemma NothingMoved(w: World, v: World)
    requires Shaped(w) && Shaped(v) && w.buckets == v.buckets && w.pending == v.pending
    ensures Tracked(w) == Tracked(v)
  {
  }

  // ----- when an item decays -----

  /** The tick, counted from the cleanup that puts an item with duration d > 0 into a bucket, at which it decays. */
  function Due(d: int): int {
    if d < ROUND then 1 else 4 * (d / ROUND) + if d % ROUND < 875 then 0 else 1
  }

  /** The ticks from the next visit of the item to the one at which it decays. */
  function AfterVisit(d: int): int {
    if d < ROUND then 0 else Due(d) - 4
  }

  /** The ticks until bucket c is visited. */
  function UntilVisit(last: nat, c: nat): int {
    (c + 3 - last) % 4 + 1
  }

  /** The item is in bucket c and decays n ticks from now. */
  ghost predicate DueFrom(w: World, x: Item, c: nat, n: int)
    requires Shaped(w)
  {
    c < 4 && x in w.buckets[c] && Duration(w.duration, x) > 0
        && n == UntilVisit(w.last, c) + AfterVisit(Duration(w.duration, x))
  }

  ghost predicate DueIn(w: World, x: Item, n: int)
    requires Shaped(w)
  {
    exists c {:trigger DueFrom(w, x, c, n)} :: c < 4 && DueFrom(w, x, c, n)
  }

  /**
   The timing bound: an item decays less than 875 ms early and never late, and after one tick when it has less
   than 250 ms.
   */
  lemma DueBound(d: int)
    requires d > 0
    ensures d >= 250 ==> 250 * Due(d) <= d < 250 * Due(d) + 875
    ensures d < 250 ==> Due(d) == 1
  {
  }

  lemma InBucket(w: World, x: Item, c: nat)
    requires Shaped(w) && c < 4 && x in w.buckets[c]
    ensures x in Tracked(w)
  {
    assert x in multiset(w.buckets[c]);
  }

  /** Items at two places of the wheel are different. */
  lemma DifferentPlaces(w: World, b: nat, i: nat, x: Item, c: nat)
    requires Inv(w) && b < 4 && i < |w.buckets[b]| && c < 4 && x in w.buckets[c]
    requires c == b ==> x in w.buckets[b][..i]
    ensures w.buckets[b][i] != x
  {
    var item := w.buckets[b][i];
    if item == x {
      LeavingKeeps(w, b, i);
      var v := Erase(w, b, i);
      if c == b {
        assert x in v.buckets[b];
      }
      InBucket(v, x, c);
    }
  }

  lemma DecayOfOther(w: World, item: Item, outcome: Outcome, x: Item)
    requires Shaped(w) && x in Tracked(w) && item != x
    ensures var r := Decay(w, item, outcome);
            && r.buckets == w.buckets && Duration(r.duration, x) == Duration(w.duration, x)
            && (x in r.decayable <==> x in w.decayable) && (x in r.fired <==> x in w.fired)
  {
  }

  lemma EraseOther(w: World, b: nat, i: nat, x: Item, c: nat)
    requires Shaped(w) && b < 4 && i < |w.buckets[b]| && c < 4 && x in w.buckets[c] && w.buckets[b][i] != x
    ensures x in Erase(w, b, i).buckets[c]
    ensures x in w.buckets[b][..i] ==> x in Erase(w, b, i).buckets[b][..i]
    ensures x in w.buckets[b][i..] ==> x in Erase(w, b, i).buckets[b][i..]
  {
    var s := w.buckets[b];
    var t := s[..i] + s[i + 1..];
    assert t[..i] == s[..i] && t[i..] == s[i + 1..];
    assert s == s[..i] + [s[i]] + s[i + 1..] && s[i..] == [s[i]] + s[i + 1..];
  }

  /** What the visit of another item leaves of x. */
  ghost predicate Alike(w: World, r: World, x: Item) {
    && Duration(r.duration, x) == Duration(w.duration, x)
    && (x in r.decayable <==> x in w.decayable) && (x in r.fired <==> x in w.fired)
  }

  /** The item stays in bucket c, before or after the current position as it was. */
  ghost predicate Stays(w: World, b: nat, i: nat, v: World, i': nat, x: Item, c: nat) {
    && Shaped(w) && Shaped(v) && b < 4 && c < 4 && i <= |w.buckets[b]| && i' <= |v.buckets[b]|
    && x in v.buckets[c]
    && (x in w.buckets[b][..i] ==> x in v.buckets[b][..i'])
    && (x in w.buckets[b][i..] ==> x in v.buckets[b][i'..])
  }

  lemma LeavingOfOther(w: World, b: nat, i: nat, outcome: Outcome, x: Item, c: nat)
    requires Shaped(w) && b < 4 && i < |w.buckets[b]| && c < 4 && x in w.buckets[c] && w.buckets[b][i] != x
    ensures var r := Release(Decay(Erase(w, b, i), w.buckets[b][i], outcome), w.buckets[b][i]);
            Stays(w, b, i, r, i, x, c) && Alike(w, r, x)
  {
    EraseOther(w, b, i, x, c);
    InBucket(Erase(w, b, i), x, c);
    DecayOfOther(Erase(w, b, i), w.buckets[b][i], outcome, x);
  }

  lemma MovingOfOther(w: World, b: nat, i: nat, e: nat, x: Item, c: nat)
    requires Shaped(w) && b < 4 && i < |w.buckets[b]| && c < 4 && x in w.buckets[c] && w.buckets[b][i] != x && e < 4
             && e != b
    ensures var r := Push(Erase(w, b, i), e, w.buckets[b][i]);
            Stays(w, b, i, r, i, x, c) && Alike(w, r, x)
  {
    EraseOther(w, b, i, x, c);
  }

  lemma StayingOfOther(w: World, b: nat, i: nat, x: Item, c: nat)
    requires Shaped(w) && b < 4 && i < |w.buckets[b]| && c < 4 && x in w.buckets[c] && w.buckets[b][i] != x
    ensures Stays(w, b, i, w, i + 1, x, c)
  {
    assert w.buckets[b][i..] == [w.buckets[b][i]] + w.buckets[b][i + 1..];
    assert w.buckets[b][..i + 1] == w.buckets[b][..i] + [w.buckets[b][i]];
  }

  lemma VisitOfOther(w: World, b: nat, i: nat, answers: map<Item, Outcome>, x: Item, c: nat)
    requires Inv(w) && b < 4 && i < |w.buckets[b]| && c < 4 && x in w.buckets[c] && w.buckets[b][i] != x
    ensures var v := Visit(w, b, i, answers);
            Stays(w, b, i, v.w, if v.erased then i else i + 1, x, c) && Alike(w, v.w, x)
  {
    var item := w.buckets[b][i];
    VisitShape(w, b, i, answers);
    if item !in w.decayable {
      EraseOther(w, b, i, x, c);
    } else {
      var d := Left(Duration(w.duration, item));
      var v := w.(duration := w.duration[item := d]);
      if d <= 0 || (d < ROUND && NewBucket(b, d) == b) {
        LeavingOfOther(v, b, i, Answer(answers, item), x, c);
      } else if d < ROUND {
        MovingOfOther(v, b, i, NewBucket(b, d), x, c);
      } else {
        StayingOfOther(v, b, i, x, c);
      }
    }
  }

  /** The item is in bucket c, and behind the current position when the walk is there. */
  ghost predicate Behind(w: World, b: nat, i: nat, x: Item, c: nat)
    requires Shaped(w)
  {
    b < 4 && i <= |w.buckets[b]| && c < 4 && x in w.buckets[c] && (c == b ==> x in w.buckets[b][..i])
  }

  lemma PassOne(w: World, b: nat, i: nat, answers: map<Item, Outcome>, x: Item, c: nat)
    requires Inv(w) && Behind(w, b, i, x, c) && i < |w.buckets[b]|
    ensures var v := Visit(w, b, i, answers);
            && Inv(v.w) && Behind(v.w, b, if v.erased then i else i + 1, x, c) && Alike(w, v.w, x) && v.w.last == w.last
            && |v.w.buckets[b]| == |w.buckets[b]| - if v.erased then 1 else 0
  {
    DifferentPlaces(w, b, i, x, c);
    VisitOfOther(w, b, i, answers, x, c);
    VisitKeeps(w, b, i, answers);
    VisitShape(w, b, i, answers);
  }

  /** The rest of a walk does not touch an item that is in another bucket or has been visited. */
  lemma {:induction false} WalkPasses(w: World, b: nat, i: nat, answers: map<Item, Outcome>, x: Item, c: nat)
    requires Inv(w) && Behind(w, b, i, x, c)
    ensures var r := Walk(w, b, i, answers); Alike(w, r, x) && x in r.buckets[c] && r.last == w.last
    decreases |w.buckets[b]| - i
  {
    if i < |w.buckets[b]| {
      PassOne(w, b, i, answers, x, c);
      var v := Visit(w, b, i, answers);
      WalkPasses(v.w, b, if v.erased then i else i + 1, answers, x, c);
    }
  }

  lemma {:induction false} WalkForgetsNothing(w: World, b: nat, i: nat, answers: map<Item, Outcome>, x: Item)
    requires Shaped(w) && b < 4 && i <= |w.buckets[b]| && x in w.fired
    ensures x in Walk(w, b, i, answers).fired
    decreases |w.buckets[b]| - i
  {
    if i < |w.buckets[b]| {
      VisitShape(w, b, i, answers);
      var v := Visit(w, b, i, answers);
      WalkForgetsNothing(v.w, b, if v.erased then i else i + 1, answers, x);
    }
  }

  /** The visit of x itself: it decays, moves on by one bucket, or stays for another round. */
  lemma VisitOfItself(w: World, b: nat, i: nat, answers: map<Item, Outcome>, x: Item)
    requires Inv(w) && b < 4 && i < |w.buckets[b]| && w.buckets[b][i] == x && x in w.decayable
             && Duration(w.duration, x) > 0
    ensures var v, d := Visit(w, b, i, answers), Duration(w.duration, x);
            && (d < 1875 ==> x in v.w.fired)
            && (d >= 1875 ==>
               (x in v.w.fired <==> x in w.fired) && x in v.w.decayable && Duration(v.w.duration, x) == d - ROUND)
            && (1875 <= d < 2000 ==> x in v.w.buckets[(b + 1) % 4])
            && (d >= 2000 ==> !v.erased && v.w.buckets == w.buckets)
  {
  }

  lemma {:induction false} WalkOf(w: World, b: nat, i: nat, answers: map<Item, Outcome>, x: Item)
    requires Inv(w) && b < 4 && i <= |w.buckets[b]| && x in w.buckets[b][i..]
    requires x in w.decayable && x !in w.fired && Duration(w.duration, x) > 0
    ensures var r, d := Walk(w, b, i, answers), Duration(w.duration, x);
            && r.last == w.last && (x in r.fired <==> d < 1875)
            && (d >= 1875 ==> x in r.decayable && Duration(r.duration, x) == d - ROUND)
            && (1875 <= d < 2000 ==> x in r.buckets[(b + 1) % 4])
            && (d >= 2000 ==> x in r.buckets[b])
    decreases |w.buckets[b]| - i
  {
    var d := Duration(w.duration, x);
    var v := Visit(w, b, i, answers);
    var i' := if v.erased then i else i + 1;
    VisitKeeps(w, b, i, answers);
    VisitShape(w, b, i, answers);
    WalkKeepsLast(v.w, b, i', answers);
    if w.buckets[b][i] == x {
      VisitOfItself(w, b, i, answers, x);
      if d < 1875 {
        WalkForgetsNothing(v.w, b, i', answers, x);
      } else if d < 2000 {
        WalkPasses(v.w, b, i', answers, x, (b + 1) % 4);
      } else {
        assert w.buckets[b][..i + 1][i] == x;
        WalkPasses(v.w, b, i', answers, x, b);
      }
    } else {
      VisitOfOther(w, b, i, answers, x, b);
      WalkOf(v.w, b, i', answers, x);
    }
  }

  lemma {:induction false} WalkKeepsLast(w: World, b: nat, i: nat, answers: map<Item, Outcome>)
    requires Shaped(w) && b < 4 && i <= |w.buckets[b]|
    ensures Walk(w, b, i, answers).last == w.last
    decreases |w.buckets[b]| - i
  {
    if i < |w.buckets[b]| {
      VisitShape(w, b, i, answers);
      var v := Visit(w, b, i, answers);
      WalkKeepsLast(v.w, b, if v.erased then i else i + 1, answers);
    }
  }

  lemma NextTick(last: nat, c: nat)
    requires last < 4 && c < 4
    ensures var b := (last + 1) % 4;
            && (c == b ==> UntilVisit(last, c) == 1) && UntilVisit(b, b) == 4 && UntilVisit(b, (b + 1) % 4) == 1
            && (c != b ==> UntilVisit(b, c) == UntilVisit(last, c) - 1 && UntilVisit(b, c) >= 1)
  {
  }

  /** What a round takes off the time to wait. */
  lemma NextRound(d: int)
    requires d > 0
    ensures AfterVisit(d) >= 0 && (d < 1875 <==> AfterVisit(d) == 0)
    ensures 1875 <= d < 2000 ==> AfterVisit(d) == 1 && AfterVisit(d - ROUND) == 0
    ensures d >= 2000 ==> AfterVisit(d - ROUND) == AfterVisit(d) - 4
  {
  }

  /** One tick: an item that stays decayable decays at it iff it is due in one, and is one tick closer otherwise. */
  lemma TurnCountsDown(w: World, answers: map<Item, Outcome>, x: Item, n: int)
    requires Inv(w) && DueIn(w, x, n) && x in w.decayable
    ensures var r := Turn(w, answers);
            && n >= 1 && (x in r.fired <==> n == 1)
            && (n > 1 ==> x in r.decayable && DueIn(r, x, n - 1))
  {
    var c :| c < 4 && DueFrom(w, x, c, n);
    var b := (w.last + 1) % EVENT_DECAY_BUCKETS;
    NextTick(w.last, c);
    NextRound(Duration(w.duration, x));
    if c == b {
      TurnOfVisited(w, answers, x, n);
    } else {
      TurnOfOther(w, answers, x, c, n);
    }
  }

  lemma TurnStarts(w: World)
    requires Inv(w)
    ensures Inv(w.(fired := {}))
  {
    NothingMoved(w, w.(fired := {}));
  }

  lemma TurnOfOther(w: World, answers: map<Item, Outcome>, x: Item, c: nat, n: int)
    requires Inv(w) && DueFrom(w, x, c, n) && x in w.decayable && c != (w.last + 1) % EVENT_DECAY_BUCKETS
    ensures x !in Turn(w, answers).fired && x in Turn(w, answers).decayable && DueFrom(Turn(w, answers), x, c, n - 1)
  {
    TurnStarts(w);
    NextTick(w.last, c);
    WalkPasses(w.(fired := {}), (w.last + 1) % EVENT_DECAY_BUCKETS, 0, answers, x, c);
  }

  lemma TurnOfVisited(w: World, answers: map<Item, Outcome>, x: Item, n: int)
    requires Inv(w) && DueFrom(w, x, (w.last + 1) % EVENT_DECAY_BUCKETS, n) && x in w.decayable
    ensures var r, d := Turn(w, answers), Duration(w.duration, x);
            && (x in r.fired <==> d < 1875)
            && (d >= 1875 ==> x in r.decayable && DueIn(r, x, n - 1))
  {
    TurnStarts(w);
    NextTick(w.last, (w.last + 1) % EVENT_DECAY_BUCKETS);
    BucketOfVisited(w.(fired := {}), (w.last + 1) % EVENT_DECAY_BUCKETS, answers, x, n);
  }

  lemma BucketOfVisited(w: World, b: nat, answers: map<Item, Outcome>, x: Item, n: int)
    requires Inv(w) && b < 4 && x in w.buckets[b] && x in w.decayable && x !in w.fired
    requires Duration(w.duration, x) > 0 && n == 1 + AfterVisit(Duration(w.duration, x))
    ensures var r, d := Walk(w, b, 0, answers).(last := b), Duration(w.duration, x);
            && (x in r.fired <==> d < 1875)
            && (d >= 1875 ==> x in r.decayable && DueIn(r, x, n - 1))
  {
    var d := Duration(w.duration, x);
    assert w.buckets[b][0..] == w.buckets[b];
    WalkOf(w, b, 0, answers, x);
    if d >= 1875 {
      DueLater(Walk(w, b, 0, answers).(last := b), x, b, d, n);
    }
  }

  /** After its visit in bucket b an item with a round less to go is due in one tick less. */
  lemma DueLater(u: World, x: Item, b: nat, d: int, n: int)
    requires Shaped(u) && b < 4 && u.last == b && d >= 1875 && Duration(u.duration, x) == d - ROUND
    requires x in u.buckets[if d < 2000 then (b + 1) % 4 else b] && n == 1 + AfterVisit(d)
    ensures DueIn(u, x, n - 1)
  {
    NextTick(b, b);
    NextRound(d);
    assert UntilVisit(b, b) == 4 && UntilVisit(b, (b + 1) % 4) == 1;
    assert DueFrom(u, x, if d < 2000 then (b + 1) % 4 else b, n - 1);
  }

  lemma {:induction false} DistributeKeepsPlace(w: World, k: nat, x: Item, c: nat)
    requires Shaped(w) && Waiting(w) && k <= |w.pending| && c < 4 && x in w.buckets[c]
    ensures x in Distribute(w, k).buckets[c]
    decreases |w.pending| - k
  {
    if k < |w.pending| {
      assert w.pending[k] in w.pending;
      DistributeKeepsPlace(Push(w, Slot(w.last, Duration(w.duration, w.pending[k])), w.pending[k]), k + 1, x, c);
    }
  }

  lemma {:induction false} DistributePlaces(w: World, k: nat, x: Item)
    requires Shaped(w) && Waiting(w) && k <= |w.pending| && x in w.pending[k..]
    ensures Duration(w.duration, x) > 0 && x in Distribute(w, k).buckets[Slot(w.last, Duration(w.duration, x))]
    decreases |w.pending| - k
  {
    assert w.pending[k] in w.pending;
    var c := Slot(w.last, Duration(w.duration, w.pending[k]));
    var v := Push(w, c, w.pending[k]);
    if w.pending[k] == x {
      DistributeKeepsPlace(v, k + 1, x, c);
    } else {
      assert w.pending[k..] == [w.pending[k]] + w.pending[k + 1..];
      DistributePlaces(v, k + 1, x);
    }
  }

  /** cleanup puts a pending item where it is due as its duration says. */
  lemma CleanupSetsDue(w: World, x: Item)
    requires Inv(w) && x in w.pending
    ensures Duration(w.duration, x) > 0 && DueIn(CleanedUp(w), x, Due(Duration(w.duration, x)))
  {
    var v := w.(references := w.references - multiset(w.toRelease), toRelease := []);
    assert v.pending[0..] == v.pending;
    DistributePlaces(v, 0, x);
    assert DueFrom(CleanedUp(w), x, Slot(w.last, Duration(w.duration, x)), Due(Duration(w.duration, x)));
  }

  lemma CleanupKeepsDue(w: World, x: Item, n: int)
    requires Inv(w) && DueIn(w, x, n)
    ensures DueIn(CleanedUp(w), x, n)
  {
    var c :| c < 4 && DueFrom(w, x, c, n);
    DistributeKeepsPlace(w.(references := w.references - multiset(w.toRelease), toRelease := []), 0, x, c);
    assert DueFrom(CleanedUp(w), x, c, n);
  }

  // ----- whole runs -----

  /** An item may start or stop being decayable at any time; only an item off the wheel is given another duration. */
  datatype Event =
    | Started(item: Item, outcome: Outcome)
    | Ticked(answers: map<Item, Outcome>)
    | Cleaned
    | Changed(item: Item, decayable: bool)
    | Lasting(item: Item, duration: int)

  ghost function Step(w: World, e: Event): World
    requires Inv(w)
  {
    match e
    case Started(item, outcome) => DecayStarted(w, item, outcome)
    case Ticked(answers) => DecayChecked(w, answers)
    case Cleaned => CleanedUp(w)
    case Changed(item, decayable) => w.(decayable := if decayable then w.decayable + {item} else w.decayable - {item})
    case Lasting(item, duration) =>
      if item in Tracked(w) then w else w.(duration := w.duration[item := duration], decaying := w.decaying - {item})
  }

  lemma StepKeeps(w: World, e: Event)
    requires Inv(w)
    ensures Inv(Step(w, e))
  {
    match e
    case Started(item, outcome) => DecayStartedKeeps(w, item, outcome);
    case Ticked(answers) =>
    case Cleaned => CleanedUpKeeps(w);
    case Changed(item, decayable) => NothingMoved(w, Step(w, e));
    case Lasting(item, duration) =>
      var v := Step(w, e);
      NothingMoved(w, v);
      forall x {:trigger Duration(v.duration, x)} | x in v.pending
        ensures Duration(v.duration, x) > 0
      {
        assert Duration(w.duration, x) > 0 && x in Tracked(w);
      }
  }

  ghost predicate Follows(w: World, e: Event, v: World) {
    Inv(w) ==> v == Step(w, e)
  }

  ghost predicate Run(worlds: seq<World>, events: seq<Event>) {
    && |worlds| == |events| + 1 && Inv(worlds[0])
    && forall i {:trigger Follows(worlds[i], events[i], worlds[i + 1])} | 0 <= i < |events| ::
         Follows(worlds[i], events[i], worlds[i + 1])
  }

  lemma {:induction false} RunKeeps(worlds: seq<World>, events: seq<Event>, i: nat)
    requires Run(worlds, events) && i <= |events|
    ensures Inv(worlds[i])
  {
    if i > 0 {
      var h := i - 1;
      RunKeeps(worlds, events, h);
      assert Follows(worlds[h], events[h], worlds[h + 1]);
      StepKeeps(worlds[h], events[h]);
    }
  }

  /** The ticks among the events from s up to i. */
  function Ticks(events: seq<Event>, s: nat, i: nat): nat
    requires s <= i <= |events|
  {
    if i == s then 0 else Ticks(events, s, i - 1) + if events[i - 1].Ticked? then 1 else 0
  }

  lemma DueIsTracked(w: World, x: Item, n: int)
    requires Inv(w) && DueIn(w, x, n)
    ensures x in Tracked(w) && x in w.decaying
  {
    var c :| c < 4 && DueFrom(w, x, c, n);
    InBucket(w, x, c);
  }

  /** Between ticks nothing brings an item on the wheel closer to its decay. */
  lemma OtherStepsKeepDue(w: World, e: Event, x: Item, n: int)
    requires Inv(w) && DueIn(w, x, n) && !e.Ticked?
    ensures DueIn(Step(w, e), x, n)
  {
    DueIsTracked(w, x, n);
    if e.Cleaned? {
      CleanupKeepsDue(w, x, n);
    } else {
      var c :| c < 4 && DueFrom(w, x, c, n);
      assert DueFrom(Step(w, e), x, c, n);
    }
  }

  lemma TicksCountDown(w: World, answers: map<Item, Outcome>, x: Item, n: int)
    requires Inv(w) && DueIn(w, x, n) && x in w.decayable
    ensures n >= 1 && (x in DecayChecked(w, answers).fired <==> n == 1)
    ensures n > 1 ==> DueIn(DecayChecked(w, answers), x, n - 1)
  {
    TurnCountsDown(w, answers, x, n);
    TurnKeeps(w, answers);
    if n > 1 {
      CleanupKeepsDue(Turn(w, answers), x, n - 1);
    }
  }

  /** The item can decay whenever the wheel turns between s and i; what it is after a tick does not matter. */
  ghost predicate DecayableAtTicks(worlds: seq<World>, events: seq<Event>, x: Item, s: nat, i: nat)
    requires s <= i <= |events| < |worlds|
  {
    forall k {:trigger worlds[k]} | s <= k < i && events[k].Ticked? :: x in worlds[k].decayable
  }

  /**
   The timing of a whole run, whatever else happens on the wheel: an item that is due in n ticks and is decayable at
   each of them decays at the n-th tick and at none before; until then it stays on the wheel.
   */
  lemma {:induction false} FiresOnTime(worlds: seq<World>, events: seq<Event>, x: Item, n: int, s: nat, i: nat)
    requires Run(worlds, events) && s <= i <= |events| && Inv(worlds[s]) && DueIn(worlds[s], x, n)
    requires DecayableAtTicks(worlds, events, x, s, i)
    requires i > s ==> Ticks(events, s, i - 1) < n
    ensures Inv(worlds[i])
    ensures Ticks(events, s, i) < n ==> DueIn(worlds[i], x, n - Ticks(events, s, i))
    ensures i > s && events[i - 1].Ticked? ==> (x in worlds[i].fired <==> Ticks(events, s, i) == n)
  {
    RunKeeps(worlds, events, i);
    if i > s {
      var h := i - 1;
      RunKeeps(worlds, events, h);
      if h > s {
        TicksGrow(events, s, h - 1, h);
      }
      FiresOnTime(worlds, events, x, n, s, h);
      assert DueIn(worlds[h], x, n - Ticks(events, s, h));
      assert events[h].Ticked? ==> x in worlds[h].decayable;
      CountsDownFrom(worlds, events, x, n, h, Ticks(events, s, h), Ticks(events, s, i));
    }
  }

  lemma CountsDownFrom(worlds: seq<World>, events: seq<Event>, x: Item, n: int, h: nat, before: int, after: int)
    requires Run(worlds, events) && h < |events| && Inv(worlds[h]) && Inv(worlds[h + 1])
    requires DueIn(worlds[h], x, n - before) && (events[h].Ticked? ==> x in worlds[h].decayable)
    requires after == before + if events[h].Ticked? then 1 else 0
    ensures after < n ==> DueIn(worlds[h + 1], x, n - after)
    ensures events[h].Ticked? ==> (x in worlds[h + 1].fired <==> after == n)
  {
    RunCountsDown(worlds, events, x, n - before, h);
  }

  lemma RunCountsDown(worlds: seq<World>, events: seq<Event>, x: Item, n: int, h: nat)
    requires Run(worlds, events) && h < |events| && Inv(worlds[h]) && Inv(worlds[h + 1])
    requires DueIn(worlds[h], x, n) && (events[h].Ticked? ==> x in worlds[h].decayable)
    ensures events[h].Ticked? ==>
              n >= 1 && (x in worlds[h + 1].fired <==> n == 1) && (n > 1 ==> DueIn(worlds[h + 1], x, n - 1))
    ensures !events[h].Ticked? ==> DueIn(worlds[h + 1], x, n)
  {
    assert Follows(worlds[h], events[h], worlds[h + 1]);
    StepCountsDown(worlds[h], events[h], x, n);
  }

  lemma StepCountsDown(w: World, e: Event, x: Item, n: int)
    requires Inv(w) && DueIn(w, x, n) && (e.Ticked? ==> x in w.decayable)
    ensures e.Ticked? ==> n >= 1 && (x in Step(w, e).fired <==> n == 1) && (n > 1 ==> DueIn(Step(w, e), x, n - 1))
    ensures !e.Ticked? ==> DueIn(Step(w, e), x, n)
  {
    if e.Ticked? {
      TicksCountDown(w, e.answers, x, n);
    } else {
      OtherStepsKeepDue(w, e, x, n);
    }
  }

  lemma {:induction false} TicksGrow(events: seq<Event>, s: nat, i: nat, j: nat)
    requires s <= i <= j <= |events|
    ensures Ticks(events, s, i) <= Ticks(events, s, j)
  {
    if i < j {
      TicksGrow(events, s, i, j - 1);
    }
  }

  // ----- what becomes of an item that decays, or cannot -----

  /** A new stage waits for cleanup: it has its duration, is flagged as decaying, and one more reference is counted. */
  lemma NextStageEnters(w: World, x: Item, next: Item, d: int)
    requires Inv(w) && next !in Tracked(w) && d > 0
    ensures var r := Decay(w, x, Turned(next, d));
            && next in r.pending && Duration(r.duration, next) == d && next in r.decaying && next in r.decayable
            && r.references[next] == w.references[next] + 1 && Tracked(r) == Tracked(w) + multiset{next}
            && x in r.fired && r.buckets == w.buckets && r.toRelease == w.toRelease
            && forall y | y != next ::
                 && (y in r.pending <==> y in w.pending) && Duration(r.duration, y) == Duration(w.duration, y)
                 && (y in r.decaying <==> y in w.decaying) && (y in r.decayable <==> y in w.decayable)
                 && r.references[y] == w.references[y]
  {
    var v := w.(fired := w.fired + {x}, duration := w.duration[next := d], decayable := w.decayable + {next});
    assert Tracked(w.(fired := w.fired + {x})) == Tracked(w);
    assert multiset([next] + v.pending) == multiset{next} + multiset(v.pending);
    assert Tracked(Enter(v, next)) == Tracked(v) + multiset{next};
    assert forall y | y != next :: y in [next] + w.pending <==> y in w.pending;
  }

  /** An item that vanishes or stays as it is puts nothing on the wheel; what has vanished cannot decay again. */
  lemma NoNextStage(w: World, x: Item)
    requires Inv(w)
    ensures Decay(w, x, Kept) == w.(fired := w.fired + {x})
    ensures x !in Decay(w, x, Gone).decayable
            && Decay(w, x, Gone) == w.(fired := w.fired + {x}, decayable := w.decayable - {x})
  {
  }

  /** startDecay: an item that cannot decay, or does already, is left alone; without time left it decays at once. */
  lemma StartedIs(w: World, x: Item, outcome: Outcome)
    requires Inv(w)
    ensures x !in w.decayable || x in w.decaying ==> DecayStarted(w, x, outcome) == w
    ensures x in w.decayable && x !in w.decaying && x in w.duration && w.duration[x] > 0 ==>
              var r := DecayStarted(w, x, outcome);
              && Tracked(r) == Tracked(w) + multiset{x} && x in r.pending && x in r.decaying
              && r.references[x] == w.references[x] + 1 && r.duration == w.duration && r.fired == w.fired
    ensures x in w.decayable && x !in w.decaying && (x !in w.duration || w.duration[x] <= 0) ==>
              x in DecayStarted(w, x, outcome).fired
  {
    assert multiset([x] + w.pending) == multiset{x} + multiset(w.pending);
    assert Tracked(Enter(w, x)) == Tracked(w) + multiset{x};
  }

  /** An item that can no longer decay leaves the wheel when its bucket is visited, and may be started again. */
  lemma VisitOfUndecayable(w: World, b: nat, i: nat, answers: map<Item, Outcome>)
    requires Inv(w) && b < 4 && i < |w.buckets[b]| && w.buckets[b][i] !in w.decayable
    ensures var x, v := w.buckets[b][i], Visit(w, b, i, answers);
            && v.erased && x !in Tracked(v.w) && x !in v.w.decaying && v.w.fired == w.fired
            && x in v.w.toRelease && Tracked(w) == Tracked(v.w) + multiset{x} && v.w.references == w.references
            && v.w.duration == w.duration && v.w.decayable == w.decayable
  {
    var x := w.buckets[b][i];
    LeavingKeeps(w, b, i);
    Erased(w, b, i);
    var v := w.(decaying := w.decaying - {x});
    assert Tracked(Release(Erase(v, b, i), x)) == Tracked(Erase(w, b, i));
  }

  // ----- from startDecay on -----

  /** The events at which cleanup runs. */
  predicate Cleans(e: Event) {
    e.Cleaned? || e.Ticked?
  }

  /** The item waits for cleanup with duration d. */
  ghost predicate Pending(w: World, x: Item, d: int) {
    x in w.pending && Duration(w.duration, x) == d
  }

  /** Nothing but cleanup moves a waiting item or touches its duration. */
  lemma StaysPending(w: World, e: Event, x: Item, d: int)
    requires Inv(w) && Pending(w, x, d) && !Cleans(e)
    ensures Pending(Step(w, e), x, d)
  {
    assert x in multiset(w.pending) && x in Tracked(w);
  }

  lemma DecaySparesPending(w: World, item: Item, outcome: Outcome, x: Item)
    requires Shaped(w) && x in w.pending && item != x
    ensures x in Decay(w, item, outcome).pending && Alike(w, Decay(w, item, outcome), x)
  {
    assert x in multiset(w.pending) && x in Tracked(w);
    DecayOfOther(w, item, outcome, x);
  }

  lemma VisitSparesPending(w: World, b: nat, i: nat, answers: map<Item, Outcome>, x: Item)
    requires Shaped(w) && b < 4 && i < |w.buckets[b]| && x in w.pending && w.buckets[b][i] != x
    ensures var v := Visit(w, b, i, answers).w; x in v.pending && Alike(w, v, x)
  {
    var item := w.buckets[b][i];
    var d := Left(Duration(w.duration, item));
    DecaySparesPending(Erase(w.(duration := w.duration[item := d]), b, i), item, Answer(answers, item), x);
  }

  lemma {:induction false} WalkSparesPending(w: World, b: nat, i: nat, answers: map<Item, Outcome>, x: Item)
    requires Inv(w) && b < 4 && i <= |w.buckets[b]| && x in w.pending
    ensures var r := Walk(w, b, i, answers); x in r.pending && Alike(w, r, x)
    decreases |w.buckets[b]| - i
  {
    if i < |w.buckets[b]| {
      LeavingKeeps(w, b, i);
      VisitKeeps(w, b, i, answers);
      VisitSparesPending(w, b, i, answers, x);
      VisitShape(w, b, i, answers);
      var v := Visit(w, b, i, answers);
      WalkSparesPending(v.w, b, if v.erased then i else i + 1, answers, x);
    }
  }

  /** The tick whose cleanup places a waiting item does not visit it. */
  lemma TurnSparesPending(w: World, answers: map<Item, Outcome>, x: Item, d: int)
    requires Inv(w) && Pending(w, x, d)
    ensures Pending(Turn(w, answers), x, d) && x !in Turn(w, answers).fired
  {
    TurnStarts(w);
    WalkSparesPending(w.(fired := {}), (w.last + 1) % EVENT_DECAY_BUCKETS, 0, answers, x);
  }

  /** The first cleanup, on its own or at the end of a tick, puts a waiting item where its duration says. */
  lemma CleaningPlaces(w: World, e: Event, x: Item, d: int)
    requires Inv(w) && Pending(w, x, d) && Cleans(e)
    ensures d > 0 && DueIn(Step(w, e), x, Due(d)) && (e.Ticked? ==> x !in Step(w, e).fired)
  {
    if e.Ticked? {
      TurnSparesPending(w, e.answers, x, d);
      TurnKeeps(w, e.answers);
      CleanupSetsDue(Turn(w, e.answers), x);
    } else {
      CleanupSetsDue(w, x);
    }
  }

  /**
   startDecay of an item that enters the wheel by it with duration d: x itself, with so much time left, or what an
   item without time left turns into.
   */
  ghost predicate Enters(w: World, e: Event, x: Item, d: int)
    requires Shaped(w)
  {
    && e.Started? && e.item in w.decayable && e.item !in w.decaying && d > 0
    && (if Duration(w.duration, e.item) > 0 then e.item == x && Duration(w.duration, x) == d
        else e.outcome == Turned(x, d) && x !in Tracked(w))
  }

  /** x enters the wheel at the first event, and cleanup runs for the first time at event p. */
  ghost predicate EntersAndIsPlaced(worlds: seq<World>, events: seq<Event>, x: Item, d: int, p: nat)
    requires Run(worlds, events)
  {
    && 0 < p < |events| && Enters(worlds[0], events[0], x, d) && Cleans(events[p])
    && forall k {:trigger events[k]} | 0 < k < p :: !Cleans(events[k])
  }

  lemma EntersPending(w: World, e: Event, x: Item, d: int)
    requires Inv(w) && Enters(w, e, x, d)
    ensures Pending(Step(w, e), x, d) && x in Step(w, e).decayable
  {
    if Duration(w.duration, e.item) <= 0 {
      NextStageEnters(w, e.item, x, d);
    }
  }

  lemma RunWaits(worlds: seq<World>, events: seq<Event>, x: Item, d: int, h: nat)
    requires Run(worlds, events) && h < |events| && Inv(worlds[h]) && Pending(worlds[h], x, d) && !Cleans(events[h])
    ensures Pending(worlds[h + 1], x, d)
  {
    assert Follows(worlds[h], events[h], worlds[h + 1]);
    StaysPending(worlds[h], events[h], x, d);
  }

  lemma {:induction false} WaitsForCleanup(
      worlds: seq<World>, events: seq<Event>, x: Item, d: int, p: nat, i: nat)
    requires Run(worlds, events) && EntersAndIsPlaced(worlds, events, x, d, p) && 0 < i <= p
    ensures Inv(worlds[i]) && Pending(worlds[i], x, d)
  {
    var h := i - 1;
    RunKeeps(worlds, events, h);
    RunKeeps(worlds, events, i);
    if h > 0 {
      WaitsForCleanup(worlds, events, x, d, p, h);
      RunWaits(worlds, events, x, d, h);
    } else {
      assert Follows(worlds[0], events[0], worlds[1]);
      EntersPending(worlds[0], events[0], x, d);
    }
  }

  /** The first cleanup of the run places the item; if it is that of a tick, the tick does not touch it. */
  lemma PlacedByCleanup(worlds: seq<World>, events: seq<Event>, x: Item, d: int, p: nat)
    requires Run(worlds, events) && EntersAndIsPlaced(worlds, events, x, d, p)
    ensures Inv(worlds[p + 1]) && DueIn(worlds[p + 1], x, Due(d))
    ensures events[p].Ticked? ==> x !in worlds[p + 1].fired
  {
    WaitsForCleanup(worlds, events, x, d, p, p);
    RunKeeps(worlds, events, p + 1);
    assert Follows(worlds[p], events[p], worlds[p + 1]);
    CleaningPlaces(worlds[p], events[p], x, d);
  }

  /**
   From startDecay to the decay, in every run: the item waits until cleanup runs for the first time, whenever that is;
   it is not touched by the tick that does so, and decays at tick Due of its duration counted from there.
   */
  lemma DecaysWhenDue(worlds: seq<World>, events: seq<Event>, x: Item, d: int, p: nat, i: nat)
    requires Run(worlds, events) && EntersAndIsPlaced(worlds, events, x, d, p) && p < i <= |events|
    requires DecayableAtTicks(worlds, events, x, p + 1, i)
    requires i > p + 1 ==> Ticks(events, p + 1, i - 1) < Due(d)
    ensures Inv(worlds[i])
    ensures Ticks(events, p + 1, i) < Due(d) ==> DueIn(worlds[i], x, Due(d) - Ticks(events, p + 1, i))
    ensures events[i - 1].Ticked? ==> (x in worlds[i].fired <==> i > p + 1 && Ticks(events, p + 1, i) == Due(d))
  {
    PlacedByCleanup(worlds, events, x, d, p);
    FiresOnTime(worlds, events, x, Due(d), p + 1, i);
  }

  // ----- stage by stage -----

  /** The answers of a tick by which x, and nothing else, turns into next, which is x or not on the wheel. */
  ghost predicate TurnsInto(w: World, answers: map<Item, Outcome>, x: Item, next: Item, d: int)
    requires Shaped(w)
  {
    && d > 0 && x in answers && answers[x] == Turned(next, d) && (next == x || next !in Tracked(w))
    && forall y {:trigger answers[y]} | y in answers && y != x && answers[y].Turned? :: answers[y].next != next
  }

  /** A decay that does not turn into next does not put it on the wheel. */
  lemma DecayTracks(w: World, item: Item, outcome: Outcome, next: Item)
    requires Shaped(w) && next !in Tracked(w) && (outcome.Turned? ==> outcome.next != next)
    ensures next !in Tracked(Decay(w, item, outcome))
  {
    if outcome.Turned? && outcome.next !in Tracked(w) && outcome.duration > 0 {
      assert multiset([outcome.next] + w.pending) == multiset{outcome.next} + multiset(w.pending);
    }
  }

  /** While others are visited, next stays off the wheel. */
  lemma VisitSparesNext(w: World, b: nat, i: nat, answers: map<Item, Outcome>, next: Item)
    requires Inv(w) && b < 4 && i < |w.buckets[b]| && next !in Tracked(w)
    requires Answer(answers, w.buckets[b][i]).Turned? ==> Answer(answers, w.buckets[b][i]).next != next
    ensures next !in Tracked(Visit(w, b, i, answers).w)
  {
    var item := w.buckets[b][i];
    var left := Left(Duration(w.duration, item));
    if item !in w.decayable {
      SpareDropped(w, b, i, item, next);
    } else if left <= 0 || (left < ROUND && NewBucket(b, left) == b) {
      SpareDecayed(w, w.(duration := w.duration[item := left]), b, i, item, Answer(answers, item), next);
    } else {
      InBucket(w, item, b);
      var c := if left < ROUND then NewBucket(b, left) else b;
      SpareMoved(w, w.(duration := w.duration[item := left]), b, i, c, item, next);
    }
  }

  lemma SpareDropped(w: World, b: nat, i: nat, item: Item, next: Item)
    requires Shaped(w) && b < 4 && i < |w.buckets[b]| && next !in Tracked(w)
    ensures next !in Tracked(Release(Erase(w.(decaying := w.decaying - {item}), b, i), item))
  {
    var u := w.(decaying := w.decaying - {item});
    SpareErased(w, b, i, next, u);
    SpareReleased(Erase(u, b, i), item);
  }

  lemma SpareDecayed(w: World, v: World, b: nat, i: nat, item: Item, outcome: Outcome, next: Item)
    requires Shaped(w) && b < 4 && i < |w.buckets[b]| && next !in Tracked(w) && v == w.(duration := v.duration)
    requires outcome.Turned? ==> outcome.next != next
    ensures next !in Tracked(Release(Decay(Erase(v, b, i), item, outcome), item))
  {
    SpareErased(w, b, i, next, v);
    DecayTracks(Erase(v, b, i), item, outcome, next);
    SpareReleased(Decay(Erase(v, b, i), item, outcome), item);
  }

  lemma SpareMoved(w: World, v: World, b: nat, i: nat, c: nat, item: Item, next: Item)
    requires Shaped(w) && b < 4 && c < 4 && i < |w.buckets[b]| && next !in Tracked(w) && v == w.(duration := v.duration)
    requires item in Tracked(w)
    ensures next !in Tracked(v) && next !in Tracked(Push(Erase(v, b, i), c, item))
  {
    SpareErased(w, b, i, next, v);
    Pushed(Erase(v, b, i), c, item);
  }

  lemma SpareErased(w: World, b: nat, i: nat, next: Item, v: World)
    requires Shaped(w) && b < 4 && i < |w.buckets[b]| && next !in Tracked(w)
    requires v.buckets == w.buckets && v.pending == w.pending && v.last == w.last
    ensures Tracked(v) == Tracked(w) && next !in Tracked(Erase(v, b, i))
  {
    Erased(v, b, i);
  }

  lemma SpareReleased(w: World, item: Item)
    requires Shaped(w)
    ensures Tracked(Release(w, item)) == Tracked(w)
  {
  }

  lemma OthersSpareNext(w: World, b: nat, i: nat, answers: map<Item, Outcome>, x: Item, next: Item, d: int)
    requires Inv(w) && b < 4 && i < |w.buckets[b]| && w.buckets[b][i] != x && TurnsInto(w, answers, x, next, d)
    ensures Shaped(Visit(w, b, i, answers).w) && TurnsInto(Visit(w, b, i, answers).w, answers, x, next, d)
  {
    VisitShape(w, b, i, answers);
    if next != x {
      VisitSparesNext(w, b, i, answers, next);
    }
  }

  /** The visit at which x decays into its next stage. */
  lemma VisitTurns(w: World, b: nat, i: nat, answers: map<Item, Outcome>, x: Item, next: Item, d: int)
    requires Inv(w) && b < 4 && i < |w.buckets[b]| && w.buckets[b][i] == x && TurnsInto(w, answers, x, next, d)
    requires x in w.decayable && 0 < Duration(w.duration, x) < 1875
    ensures var v := Visit(w, b, i, answers);
            v.erased && Inv(v.w) && Pending(v.w, next, d) && next in v.w.decayable && next in v.w.decaying
  {
    var left := Left(Duration(w.duration, x));
    var v := w.(duration := w.duration[x := left]);
    VisitKeeps(w, b, i, answers);
    TimeSpent(w, b, i, left);
    DecayTurns(v, b, i, x, next, d);
    assert left <= 0 || NewBucket(b, left) == b;
    assert Visit(w, b, i, answers).w == Release(Decay(Erase(v, b, i), x, Turned(next, d)), x);
  }

  lemma DecayTurns(v: World, b: nat, i: nat, x: Item, next: Item, d: int)
    requires Inv(v) && b < 4 && i < |v.buckets[b]| && v.buckets[b][i] == x
    requires d > 0 && (next == x || next !in Tracked(v))
    ensures var r := Release(Decay(Erase(v, b, i), x, Turned(next, d)), x);
            Pending(r, next, d) && next in r.decayable && next in r.decaying
  {
    LeavingKeeps(v, b, i);
    Erased(v, b, i);
    var u := Release(Erase(v, b, i), x);
    SpareReleased(Erase(v, b, i), x);
    NextStageEnters(u, x, next, d);
    DecayThenRelease(Erase(v, b, i), x, Turned(next, d));
  }

  lemma {:induction false} WalkTurns(
      w: World, b: nat, i: nat, answers: map<Item, Outcome>, x: Item, next: Item, d: int)
    requires Inv(w) && b < 4 && i <= |w.buckets[b]| && x in w.buckets[b][i..] && TurnsInto(w, answers, x, next, d)
    requires x in w.decayable && 0 < Duration(w.duration, x) < 1875
    ensures var r := Walk(w, b, i, answers); Inv(r) && Pending(r, next, d) && next in r.decayable
    decreases |w.buckets[b]| - i
  {
    var v := Visit(w, b, i, answers);
    var i' := if v.erased then i else i + 1;
    WalkKeeps(w, b, i, answers);
    VisitKeeps(w, b, i, answers);
    VisitShape(w, b, i, answers);
    if w.buckets[b][i] == x {
      VisitTurns(w, b, i, answers, x, next, d);
      WalkSparesPending(v.w, b, i', answers, next);
    } else {
      OthersSpareNext(w, b, i, answers, x, next, d);
      VisitOfOther(w, b, i, answers, x, b);
      WalkTurns(v.w, b, i', answers, x, next, d);
    }
  }

  lemma DueNow(w: World, x: Item)
    requires Inv(w) && DueIn(w, x, 1)
    ensures x in w.buckets[(w.last + 1) % EVENT_DECAY_BUCKETS] && 0 < Duration(w.duration, x) < 1875
  {
    var c :| c < 4 && DueFrom(w, x, c, 1);
    NextTick(w.last, c);
    NextRound(Duration(w.duration, x));
  }

  /** Forgetting what has fired before a turn changes nothing else. */
  lemma NothingFired(w: World, answers: map<Item, Outcome>, x: Item, next: Item, d: int)
    requires Inv(w) && TurnsInto(w, answers, x, next, d)
    ensures Inv(w.(fired := {})) && TurnsInto(w.(fired := {}), answers, x, next, d)
  {
    TurnStarts(w);
    NothingMoved(w, w.(fired := {}));
  }

  lemma TurnTurns(w: World, answers: map<Item, Outcome>, x: Item, next: Item, d: int)
    requires Inv(w) && DueIn(w, x, 1) && x in w.decayable && TurnsInto(w, answers, x, next, d)
    ensures Pending(Turn(w, answers), next, d) && next in Turn(w, answers).decayable
  {
    DueNow(w, x);
    NothingFired(w, answers, x, next, d);
    BucketTurns(w.(fired := {}), (w.last + 1) % EVENT_DECAY_BUCKETS, answers, x, next, d);
  }

  lemma BucketTurns(w: World, b: nat, answers: map<Item, Outcome>, x: Item, next: Item, d: int)
    requires Inv(w) && b < 4 && x in w.buckets[b] && TurnsInto(w, answers, x, next, d)
    requires x in w.decayable && 0 < Duration(w.duration, x) < 1875
    ensures var r := Walk(w, b, 0, answers).(last := b); Pending(r, next, d) && next in r.decayable
  {
    assert w.buckets[b][0..] == w.buckets[b];
    WalkTurns(w, b, 0, answers, x, next, d);
  }

  /** The tick at which x is due puts its next stage where the new duration says, to be counted from this tick. */
  lemma TickTurns(w: World, answers: map<Item, Outcome>, x: Item, next: Item, d: int)
    requires Inv(w) && DueIn(w, x, 1) && x in w.decayable && TurnsInto(w, answers, x, next, d)
    ensures x in DecayChecked(w, answers).fired && DueIn(DecayChecked(w, answers), next, Due(d))
    ensures next in DecayChecked(w, answers).decayable
  {
    TicksCountDown(w, answers, x, 1);
    TurnTurns(w, answers, x, next, d);
    TurnKeeps(w, answers);
    CleanupSetsDue(Turn(w, answers), next);
  }

  /** One stage of an item that changes: what it is, how long it lasts, and the event, a tick, at which it ends. */
  datatype Stage = Stage(item: Item, duration: int, end: nat)

  /** Each stage ends at the due tick counted from the end of the one before, and turns into the next one there. */
  ghost predicate Staged(worlds: seq<World>, events: seq<Event>, stages: seq<Stage>, s: nat)
    requires Run(worlds, events)
    decreases stages
  {
    stages != [] ==>
      var g := stages[0];
      && s <= g.end < |events| && events[g.end].Ticked? && Ticks(events, s, g.end) == Due(g.duration) - 1
      && DecayableAtTicks(worlds, events, g.item, s, g.end + 1)
      && Inv(worlds[g.end])
      && (|stages| > 1 ==>
            TurnsInto(worlds[g.end], events[g.end].answers, g.item, stages[1].item, stages[1].duration))
      && Staged(worlds, events, stages[1..], g.end + 1)
  }

  /** When stage k begins to be counted. */
  function Begin(stages: seq<Stage>, s: nat, k: nat): nat
    requires k <= |stages|
  {
    if k == 0 then s else stages[k - 1].end + 1
  }

  lemma FirstStageFires(worlds: seq<World>, events: seq<Event>, stages: seq<Stage>, s: nat, i: nat)
    requires Run(worlds, events) && s <= |events| && Staged(worlds, events, stages, s) && stages != []
    requires Inv(worlds[s]) && DueIn(worlds[s], stages[0].item, Due(stages[0].duration)) && s <= i <= stages[0].end
    ensures stages[0].end < |events| && Inv(worlds[i])
    ensures DueIn(worlds[i], stages[0].item, Due(stages[0].duration) - Ticks(events, s, i))
    ensures events[i].Ticked? ==> (stages[0].item in worlds[i + 1].fired <==> i == stages[0].end)
  {
    var g := stages[0];
    TicksGrow(events, s, i, g.end);
    if s < i {
      TicksGrow(events, s, i - 1, g.end);
    }
    if i < g.end {
      TicksGrow(events, s, i + 1, g.end);
    }
    FiresOnTime(worlds, events, g.item, Due(g.duration), s, i);
    FiresOnTime(worlds, events, g.item, Due(g.duration), s, i + 1);
  }

  /**
   A chain of stages in any run: each stage decays at its due tick, counted from the end of the one before, at no tick
   before, and is on the wheel until then.
   */
  lemma {:induction false} StagesFire(
      worlds: seq<World>, events: seq<Event>, stages: seq<Stage>, s: nat, k: nat, i: nat)
    requires Run(worlds, events) && s <= |events| && Staged(worlds, events, stages, s) && k < |stages|
    requires Inv(worlds[s]) && DueIn(worlds[s], stages[0].item, Due(stages[0].duration))
    requires Begin(stages, s, k) <= i <= stages[k].end
    ensures stages[k].end < |events| && Inv(worlds[i])
    ensures DueIn(worlds[i], stages[k].item, Due(stages[k].duration) - Ticks(events, Begin(stages, s, k), i))
    ensures events[i].Ticked? ==> (stages[k].item in worlds[i + 1].fired <==> i == stages[k].end)
    decreases k
  {
    var g := stages[0];
    if k == 0 {
      FirstStageFires(worlds, events, stages, s, i);
    } else {
      StageEnds(worlds, events, stages, s);
      StagesFire(worlds, events, stages[1..], g.end + 1, k - 1, i);
      assert stages[1..][k - 1] == stages[k] && Begin(stages[1..], g.end + 1, k - 1) == Begin(stages, s, k);
    }
  }

  /** The end of the first stage is the beginning of the second. */
  lemma StageEnds(worlds: seq<World>, events: seq<Event>, stages: seq<Stage>, s: nat)
    requires Run(worlds, events) && s <= |events| && Staged(worlds, events, stages, s) && |stages| > 1
    requires Inv(worlds[s]) && DueIn(worlds[s], stages[0].item, Due(stages[0].duration))
    ensures var g := stages[0];
            && g.end < |events| && Inv(worlds[g.end + 1])
            && DueIn(worlds[g.end + 1], stages[1].item, Due(stages[1].duration))
  {
    var g := stages[0];
    FirstStageFires(worlds, events, stages, s, g.end);
    EndTurns(worlds, events, g.end, g.item, stages[1].item, stages[1].duration);
  }

  lemma EndTurns(worlds: seq<World>, events: seq<Event>, h: nat, x: Item, next: Item, d: int)
    requires Run(worlds, events) && h < |events| && events[h].Ticked? && Inv(worlds[h]) && DueIn(worlds[h], x, 1)
    requires x in worlds[h].decayable && TurnsInto(worlds[h], events[h].answers, x, next, d)
    ensures Inv(worlds[h + 1]) && DueIn(worlds[h + 1], next, Due(d))
  {
    RunKeeps(worlds, events, h + 1);
    assert Follows(worlds[h], events[h], worlds[h + 1]);
    TickTurns(worlds[h], events[h].answers, x, next, d);
  }

  /** The whole life of an item, from startDecay to the end of its last stage. */
  lemma StagesFireWhenDue(
      worlds: seq<World>, events: seq<Event>, stages: seq<Stage>, p: nat, k: nat, i: nat)
    requires Run(worlds, events) && stages != []
             && EntersAndIsPlaced(worlds, events, stages[0].item, stages[0].duration, p)
    requires Staged(worlds, events, stages, p + 1) && k < |stages| && Begin(stages, p + 1, k) <= i <= stages[k].end
    ensures stages[k].end < |events| && Inv(worlds[i])
    ensures DueIn(worlds[i], stages[k].item, Due(stages[k].duration) - Ticks(events, Begin(stages, p + 1, k), i))
    ensures events[i].Ticked? ==> (stages[k].item in worlds[i + 1].fired <==> i == stages[k].end)
  {
    PlacedByCleanup(worlds, events, stages[0].item, stages[0].duration, p);
    StagesFire(worlds, events, stages, p + 1, k, i);
  }

  // ----- the object -----

  class Game {
    const decayItems: array<seq<Item>>
    var toDecayItems: seq<Item>
    var lastBucket: nat
    var toReleaseItems: seq<Item>
    // what the items hold: the duration attribute, DECAYING_TRUE, canDecay and the reference counters
    var duration: map<Item, int>
    var decaying: set<Item>
    var decayable: set<Item>
    var references: multiset<Item>
    ghost var fired: set<Item>

    ghost function Snap(): World
      reads this, decayItems
    {
      World(decayItems[..], toDecayItems, lastBucket, duration, decaying, decayable, references, toReleaseItems, fired)
    }

    constructor ()
      ensures fresh(decayItems) && Inv(Snap()) && Tracked(Snap()) == multiset{}
    {
      decayItems := new seq<Item>[4](_ => []);
      toDecayItems, lastBucket, toReleaseItems := [], 0, [];
      duration, decaying, decayable, references, fired := map[], {}, {}, multiset{}, {};
      new;
      assert decayItems[..] == [[], [], [], []];
    }

    method Track(item: Item)
      modifies this
      ensures Snap() == Enter(old(Snap()), item)
    {
      references := references + multiset{item};
      decaying := decaying + {item};
      toDecayItems := [item] + toDecayItems;
    }

    method StartDecay(item: Item, outcome: Outcome)
      requires Inv(Snap())
      modifies this
      ensures Inv(Snap()) && Snap() == DecayStarted(old(Snap()), item, outcome)
    {
      DecayStartedKeeps(Snap(), item, outcome);
      if item !in decayable {
        return;
      }
      if item in decaying {
        return;
      }
      if Duration(duration, item) > 0 {
        Track(item);
      } else {
        InternalDecayItem(item, outcome);
      }
    }

    /** Transforms the item and starts the decay of what it has become, or removes it. */
    method InternalDecayItem(item: Item, outcome: Outcome)
      requires Shaped(Snap())
      modifies this
      ensures Snap() == Decay(old(Snap()), item, outcome)
    {
      fired := fired + {item};
      match outcome
      case Gone =>
        decayable := decayable - {item};
      case Kept =>
      case Turned(next, d) =>
        var tracked := IsTracked(next);
        if !tracked && d > 0 {
          duration := duration[next := d];
          decayable := decayable + {next};
          Track(next);
        }
    }

    method IsTracked(item: Item) returns (yes: bool)
      requires Shaped(Snap())
      ensures yes <==> item in Tracked(Snap())
    {
      yes := item in toDecayItems || item in decayItems[0] || item in decayItems[1] || item in decayItems[2]
          || item in decayItems[3];
    }

    method CheckDecay(answers: map<Item, Outcome>)
      requires Inv(Snap())
      modifies this, decayItems
      ensures Inv(Snap()) && Snap() == DecayChecked(old(Snap()), answers)
    {
      TurnKeeps(Snap(), answers);
      TurnWheel(answers);
      Cleanup();
    }

    method TurnWheel(answers: map<Item, Outcome>)
      requires Shaped(Snap())
      modifies this, decayItems
      ensures Snap() == Turn(old(Snap()), answers)
    {
      var bucket := (lastBucket + 1) % EVENT_DECAY_BUCKETS;
      fired := {};
      WalkBucket(bucket, answers);
      lastBucket := bucket;
    }

    method WalkBucket(bucket: nat, answers: map<Item, Outcome>)
      requires Shaped(Snap()) && bucket < 4
      modifies this, decayItems
      ensures Snap() == Walk(old(Snap()), bucket, 0, answers)
    {
      var i := 0;
      while i < |decayItems[bucket]|
        invariant Shaped(Snap()) && i <= |decayItems[bucket]|
        invariant Walk(Snap(), bucket, i, answers) == Walk(old(Snap()), bucket, 0, answers)
        decreases |decayItems[bucket]| - i
      {
        VisitShape(Snap(), bucket, i, answers);
        var erased := VisitItem(bucket, i, answers);
        i := if erased then i else i + 1;
      }
    }

    method EraseAt(b: nat, i: nat)
      requires Shaped(Snap()) && b < 4 && i < |decayItems[b]|
      modifies decayItems
      ensures Snap() == Erase(old(Snap()), b, i)
    {
      decayItems[b] := decayItems[b][..i] + decayItems[b][i + 1..];
    }

    method PutInto(b: nat, item: Item)
      requires Shaped(Snap()) && b < 4
      modifies decayItems
      ensures Snap() == Push(old(Snap()), b, item)
    {
      decayItems[b] := decayItems[b] + [item];
    }

    method DecayAt(b: nat, i: nat, outcome: Outcome)
      requires Shaped(Snap()) && b < 4 && i < |decayItems[b]|
      modifies this, decayItems
      ensures Snap() == Release(Decay(Erase(old(Snap()), b, i), old(decayItems[b][i]), outcome), old(decayItems[b][i]))
    {
      var item := decayItems[b][i];
      EraseAt(b, i);
      InternalDecayItem(item, outcome);
      toReleaseItems := toReleaseItems + [item];
    }

    /** An item that cannot decay any more leaves the wheel. */
    method DropAt(b: nat, i: nat)
      requires Shaped(Snap()) && b < 4 && i < |decayItems[b]|
      modifies this, decayItems
      ensures var w, item := old(Snap()), old(decayItems[b][i]);
              Snap() == Release(Erase(w.(decaying := w.decaying - {item}), b, i), item)
    {
      var item := decayItems[b][i];
      decaying := decaying - {item};
      EraseAt(b, i);
      toReleaseItems := toReleaseItems + [item];
    }

    /** One turn of the loop. */
    method VisitItem(bucket: nat, i: nat, answers: map<Item, Outcome>) returns (erased: bool)
      requires Shaped(Snap()) && bucket < 4 && i < |decayItems[bucket]|
      modifies this, decayItems
      ensures Visited(Snap(), erased) == Visit(old(Snap()), bucket, i, answers)
    {
      var item := decayItems[bucket][i];
      if item !in decayable {
        DropAt(bucket, i);
        return true;
      }
      var left := Duration(duration, item);
      var decreaseTime := EVENT_DECAYINTERVAL * EVENT_DECAY_BUCKETS;
      if left < decreaseTime {
        decreaseTime := left;
      }
      left := left - decreaseTime;
      duration := duration[item := left];
      erased := Advance(bucket, i, left, if item in answers then answers[item] else Gone);
    }

    /** What is done with the item that has left ms to go. */
    method Advance(bucket: nat, i: nat, left: int, outcome: Outcome) returns (erased: bool)
      requires Shaped(Snap()) && bucket < 4 && i < |decayItems[bucket]|
      modifies this, decayItems
      ensures var w, item := old(Snap()), old(decayItems[bucket][i]);
              Visited(Snap(), erased) ==
              if left <= 0 || (left < ROUND && NewBucket(bucket, left) == bucket) then
                Visited(Release(Decay(Erase(w, bucket, i), item, outcome), item), true)
              else if left < ROUND then
                Visited(Push(Erase(w, bucket, i), NewBucket(bucket, left), item), true)
              else
                Visited(w, false)
    {
      var item := decayItems[bucket][i];
      if left <= 0 {
        DecayAt(bucket, i, outcome);
        return true;
      } else if left < EVENT_DECAYINTERVAL * EVENT_DECAY_BUCKETS {
        var newBucket := (bucket + (left + EVENT_DECAYINTERVAL / 2) / 1000) % EVENT_DECAY_BUCKETS;
        if newBucket == bucket {
          DecayAt(bucket, i, outcome);
        } else {
          EraseAt(bucket, i);
          PutInto(newBucket, item);
        }
        return true;
      } else {
        return false;
      }
    }

    method Cleanup()
      requires Inv(Snap())
      modifies this, decayItems
      ensures Inv(Snap()) && Snap() == CleanedUp(old(Snap()))
    {
      CleanedUpKeeps(Snap());
      EmptyLists();
    }

    method EmptyLists()
      requires Shaped(Snap()) && Waiting(Snap())
      modifies this, decayItems
      ensures Snap() == CleanedUp(old(Snap()))
    {
      GiveUpReferences();
      toReleaseItems := [];
      DistributePending();
      toDecayItems := [];
    }

    method DistributePending()
      requires Shaped(Snap()) && Waiting(Snap())
      modifies decayItems
      ensures Snap() == Distribute(old(Snap()), 0)
    {
      for k := 0 to |toDecayItems|
        invariant Shaped(Snap()) && Waiting(Snap())
        invariant Distribute(Snap(), k) == Distribute(old(Snap()), 0)
      {
        assert toDecayItems[k] in Snap().pending;
        PutPending(toDecayItems[k]);
      }
    }

    method PutPending(item: Item)
      requires Shaped(Snap()) && Duration(duration, item) > 0
      modifies decayItems
      ensures Snap() == Push(old(Snap()), Slot(lastBucket, Duration(duration, item)), item)
    {
      var dur := Duration(duration, item);
      if dur >= EVENT_DECAYINTERVAL * EVENT_DECAY_BUCKETS {
        PutInto(lastBucket, item);
      } else {
        PutInto((lastBucket + 1 + dur / 1000) % EVENT_DECAY_BUCKETS, item);
      }
    }

    method GiveUpReferences()
      modifies this`references
      ensures references == old(references) - multiset(toReleaseItems)
    {
      ghost var start := references;
      for i := 0 to |toReleaseItems|
        invariant references == start - multiset(toReleaseItems[..i])
      {
        OneFewer(start, toReleaseItems, i);
        references := references - multiset{toReleaseItems[i]};
      }
      assert toReleaseItems[..|toReleaseItems|] == toReleaseItems;
    }
  }

  lemma OneFewer(start: multiset<Item>, n: seq<Item>, i: nat)
    requires i < |n|
    ensures start - multiset(n[..i]) - multiset{n[i]} == start - multiset(n[..i + 1])
  {
    assert n[..i + 1] == n[..i] + [n[i]];
  }
}
