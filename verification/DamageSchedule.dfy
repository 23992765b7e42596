/** ConditionDamage::generateDamageList of src/condition.cpp, over exact arithmetic. */
module DamageSchedule {
  import opened Arithmetic

  function Sum(list: seq<int>): int {
    if list == [] then 0 else Sum(list[..|list| - 1]) + list[|list| - 1]
  }

  predicate NonIncreasing(list: seq<int>) {
    forall i, j | 0 <= i < j < |list| :: list[i] >= list[j]
  }

  function Abs(n: int): nat {
    if n < 0 then -n else n
  }

  /** Another hit of i brings sum nearer to med: the comparison of x1 and x2, which a med of 0 makes false. */
  predicate Nearer(sum: int, i: int, med: int) {
    2 * (med - sum) > i
  }

  function AbsReal(x: real): real {
    if x < 0.0 then -x else x
  }

  /** How far a sum is from the target, in parts of the target. */
  function Distance(sum: int, med: int): real
    requires med > 0
  {
    AbsReal(1.0 - sum as real / med as real)
  }

  lemma OffTarget(sum: int, med: int)
    requires med > 0
    ensures Distance(sum, med) * med as real == Abs(med - sum) as real
  {
    var s, m := sum as real, med as real;
    var x := s / m;
    assert x * m == s;
    assert (1.0 - x) * m == m - s;
  }

  lemma ScaledLess(x: real, y: real, m: real, d: real, e: real)
    requires m > 0.0 && x * m == d && y * m == e
    ensures x < y <==> d < e
  {
  }

  lemma Closer(x: real, y: real, sum: int, i: int, med: int)
    requires med > 0 && i > 0
    requires x * med as real == Abs(med - (sum + i)) as real && y * med as real == Abs(med - sum) as real
    ensures x < y <==> Nearer(sum, i, med)
  {
    var d, e := Abs(med - (sum + i)), Abs(med - sum);
    ScaledLess(x, y, med as real, d as real, e as real);
    assert d < e <==> Nearer(sum, i, med);
  }

  /**
   The comparison of the source, of the relative distances from the target with another hit and without it, is the
   test of Nearer. For a target of 0 both distances are infinite, and Nearer fails as well.
   */
  lemma NearerIsCloser(sum: int, i: int, med: int)
    requires med > 0 && i > 0
    ensures Nearer(sum, i, med) <==> Distance(sum + i, med) < Distance(sum, med)
    ensures sum > 0 ==> !Nearer(sum, i, 0)
  {
    OffTarget(sum + i, med);
    OffTarget(sum, med);
    Closer(Distance(sum + i, med), Distance(sum, med), sum, i, med);
  }

  /** The target for value i, the n-th of start values: the part of amount that n of start make up, rounded down. */
  function Target(n: nat, amount: nat, start: nat): (med: nat)
    requires 0 < n <= start
  {
    (n * amount) / start
  }

  /** The last target is the whole amount. */
  lemma LastTarget(amount: nat, start: nat)
    requires start > 0
    ensures Target(start, amount, start) == amount
  {
    ModIs(start * amount, amount, 0, start);
  }

  /**
   Where the amount is large enough for one hit of every value, each target leaves room for one hit of every
   smaller value.
   */
  lemma TargetLeavesRoom(amount: nat, start: nat, i: nat)
    requires 0 < i <= start && start * (start + 1) <= 2 * amount
    ensures 2 * Target(start + 1 - i, amount, start) + i * i - 1 <= 2 * amount
  {
    var n := start + 1 - i;
    var med := Target(n, amount, start);
    assert start * med <= n * amount;
    Room(start, i, amount, med);
  }

  lemma Room(start: nat, i: nat, amount: nat, med: nat)
    requires 0 < i <= start && start * (start + 1) <= 2 * amount && start * med <= (start + 1 - i) * amount
    ensures 2 * med + i * i - 1 <= 2 * amount
  {
    RoomScaled(start, i - 1, amount, med);
    NoMore(start, (i - 1) * (start + 1), 2 * amount - 2 * med);
    Scale(i - 1, i + 1, start + 1);
    assert (i - 1) * (i + 1) == i * i - 1;
  }

  lemma RoomScaled(start: nat, j: nat, amount: nat, med: nat)
    requires j < start && start * (start + 1) <= 2 * amount && start * med <= (start - j) * amount
    ensures start * (j * (start + 1)) <= start * (2 * amount - 2 * med)
  {
    var ja := j * amount;
    assert (start - j) * amount == start * amount - ja;
    assert start * (2 * amount - 2 * med) == 2 * (start * amount) - 2 * (start * med);
    Scale(j, start * (start + 1), 2 * amount);
    Swapped(start, j, start + 1);
    Swapped(2, j, amount);
  }

  lemma Swapped(a: int, b: int, c: int)
    ensures a * (b * c) == b * (a * c)
  {
  }

  lemma Scale(k: nat, a: int, b: int)
    requires a <= b
    ensures k * a <= k * b
  {
    assert k * b == k * a + k * (b - a);
  }

  /** The part of the list for the values from start down to i. */
  ghost predicate Listed(list: seq<int>, sum: int, start: int, i: int) {
    && sum == Sum(list) && NonIncreasing(list)
    && (forall k | 0 <= k < |list| :: i <= list[k] <= start)
    && (forall v | i <= v <= start :: v in list)
  }

  lemma ListOneMore(list: seq<int>, sum: int, start: int, i: int, from: int)
    requires Listed(list, sum, start, from) && from - 1 <= i <= from && i <= start
    ensures Listed(list + [i], sum + i, start, i)
  {
    assert (list + [i])[..|list|] == list;
    forall v | i <= v <= start
      ensures v in list + [i]
    {
      if v == i {
        assert (list + [i])[|list|] == v;
      }
    }
  }

  /**
   The hits of a damage condition: every value from start down to 1, in falling order, at least amount in all,
   and exactly amount if and only if amount is at least the sum of all values from 1 to start.
   */
  method GenerateDamageList(amount0: int, start: int) returns (list: seq<int>)
    ensures NonIncreasing(list) && forall v :: v in list <==> 1 <= v <= start
    ensures start > 0 ==> Sum(list) >= Abs(amount0)
    ensures start > 0 ==> (Sum(list) == Abs(amount0) <==> start * (start + 1) <= 2 * Abs(amount0))
  {
    var amount := Abs(amount0);
    list := [];
    var sum := 0;
    var i := start;
    while i > 0
      invariant if start > 0 then 0 <= i <= start else i == start
      invariant Listed(list, sum, start, i + 1)
      invariant 2 * sum >= start * (start + 1) - i * (i + 1)
      invariant start * (start + 1) <= 2 * amount ==> 2 * sum + i * (i + 1) <= 2 * amount
      invariant start > 0 && i == 0 ==> sum >= amount
    {
      var n := start + 1 - i;
      var med := Target(n, amount, start);
      sum, list := RepeatHit(list, sum, start, i, med, amount);
      if i == 1 {
        LastTarget(amount, start);
      }
      assert (i - 1) * i == i * (i + 1) - 2 * i;
      i := i - 1;
    }
    assert forall v | v in list :: 1 <= v <= start;
  }

  /** The inner loop: one hit of i, and more as long as they bring the sum nearer to the target. */
  method RepeatHit(list0: seq<int>, sum0: int, start: nat, i: nat, med: nat, ghost amount: nat)
    returns (sum: int, list: seq<int>)
    requires 0 < i <= start && Listed(list0, sum0, start, i + 1)
    requires med == Target(start + 1 - i, amount, start)
    ensures Listed(list, sum, start, i) && sum >= sum0 + i && !Nearer(sum, i, med)
    ensures start * (start + 1) <= 2 * amount && 2 * sum0 + i * (i + 1) <= 2 * amount ==>
            2 * sum + i * (i - 1) <= 2 * amount
  {
    sum, list := sum0, list0;
    ghost var fits := start * (start + 1) <= 2 * amount && 2 * sum0 + i * (i + 1) <= 2 * amount;
    ghost var below := i * (i - 1);
    if fits {
      TargetLeavesRoom(amount, start, i);
      assert i * i == below + i && i * (i + 1) == below + 2 * i;
    }
    var again := true;
    while again
      invariant if sum == sum0 then again && Listed(list, sum, start, i + 1)
                else Listed(list, sum, start, i) && sum >= sum0 + i
      invariant sum >= sum0 && (again <==> sum == sum0 || Nearer(sum, i, med))
      invariant fits && sum != sum0 ==> 2 * sum + below <= 2 * amount
      decreases again, med - sum
    {
      ListOneMore(list, sum, start, i, if sum == sum0 then i + 1 else i);
      sum := sum + i;
      list := list + [i];
      again := Nearer(sum, i, med);
    }
  }

  /** The start that init chooses when none is given: the amount divided by 20, rounded up, and at least 1. */
  function DefaultStart(amount: int): int {
    var up := -((-amount) / 20);
    if up < 1 then 1 else up
  }

  /** With the default start the hits add up to the amount exactly for amounts up to 760, and for 780. */
  lemma DefaultStartIsExact(amount: nat)
    requires amount > 0
    ensures var start := DefaultStart(amount);
            start * (start + 1) <= 2 * amount <==> amount <= 760 || amount == 780
  {
    var start := DefaultStart(amount);
    assert 20 * start - 20 < amount <= 20 * start;
    if start >= 40 {
      assert start * (start + 1) >= 41 * start;
    } else if start <= 38 {
      assert (start - 1) * (38 - start) >= 0;
      assert start * (start + 1) == 40 * start - 38 - (start - 1) * (38 - start);
    }
  }
}
