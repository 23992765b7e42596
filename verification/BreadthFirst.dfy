/** Breadth-first order of the items inside a container, and why it visits each of them once. */
module BreadthFirst {
  import opened ItemTypes
  import opened Forest

  /** The lists of the items of s, one after the other. */
  ghost function Kids<R>(f: World<R>, s: seq<R>): seq<R> {
    if s == [] then []
    else Kids(f, s[..|s| - 1]) + if s[|s| - 1] in f then f[s[|s| - 1]].list else []
  }

  lemma KidsOfOneMore<R>(f: World<R>, s: seq<R>, x: R)
    requires x in f
    ensures Kids(f, s + [x]) == Kids(f, s) + f[x].list
  {
    assert (s + [x])[..|s|] == s;
  }

  /** What a breadth-first search knows after visiting done: what it has seen, in order. */
  ghost function Seen<R>(f: World<R>, root: R, done: seq<R>): seq<R>
    requires root in f
  {
    f[root].list + Kids(f, done)
  }

  /** done is a beginning of the breadth-first order: each item is the first one seen but not yet visited. */
  ghost predicate Visited<R>(f: World<R>, root: R, done: seq<R>)
    requires root in f
  {
    done == [] ||
    var before := done[..|done| - 1];
    && Visited(f, root, before)
    && |before| < |Seen(f, root, before)|
    && done[|done| - 1] == Seen(f, root, before)[|before|]
  }

  /** The search has nothing left to visit. */
  ghost predicate Complete<R>(f: World<R>, root: R, done: seq<R>)
    requires root in f
  {
    Visited(f, root, done) && |done| == |Seen(f, root, done)|
  }

  /** Visiting the next item. */
  lemma Visit<R>(f: World<R>, root: R, done: seq<R>, x: R, rest: seq<R>)
    requires root in f && x in f && Visited(f, root, done) && Seen(f, root, done) == done + [x] + rest
    ensures Visited(f, root, done + [x])
    ensures Seen(f, root, done + [x]) == done + [x] + (rest + f[x].list)
  {
    assert (done + [x])[..|done|] == done;
    assert Seen(f, root, done)[|done|] == x;
    KidsOfOneMore(f, done, x);
    assert Seen(f, root, done + [x]) == Seen(f, root, done) + f[x].list;
  }

  /**
   A search in progress: after done it has seen rest, the end of a list it is in the middle of,
   and what the containers in queue list.
   */
  ghost predicate Frontier<R>(f: World<R>, root: R, done: seq<R>, rest: seq<R>, queue: seq<R>) {
    && root in f && Visited(f, root, done)
    && (forall c | c in queue :: c in f)
    && Seen(f, root, done) == done + (rest + Kids(f, queue))
  }

  lemma FrontierStarts<R>(f: World<R>, root: R)
    requires root in f
    ensures Frontier(f, root, [], f[root].list, [])
  {
  }

  lemma Regroup<R>(a: seq<R>, b: seq<R>, c: seq<R>)
    ensures (a + b) + c == a + (b + c)
  {
  }

  /** Visiting the next item; a container goes to the end of the queue, where an empty one makes no difference. */
  lemma FrontierTakes<R>(f: World<R>, root: R, done: seq<R>, x: R, rest: seq<R>, queue: seq<R>, queue': seq<R>)
    requires Frontier(f, root, done, [x] + rest, queue) && x in f
    requires queue' == queue + [x] || (queue' == queue && f[x].list == [])
    ensures |done| < |Seen(f, root, done)| && Seen(f, root, done)[|done|] == x
    ensures Frontier(f, root, done + [x], rest, queue')
  {
    var kids := Kids(f, queue);
    assert ([x] + rest) + kids == [x] + (rest + kids);
    Visit(f, root, done, x, rest + kids);
    KidsOfOneMore(f, queue, x);
    Regroup(rest, kids, f[x].list);
    assert kids + f[x].list == Kids(f, queue');
  }

  /** Going on to the next container of the queue. */
  lemma FrontierTurns<R>(f: World<R>, root: R, done: seq<R>, queue: seq<R>)
    requires Frontier(f, root, done, [], queue) && queue != [] && queue[0] in f
    ensures Frontier(f, root, done, f[queue[0]].list, queue[1..])
  {
    KidsOfFirst(f, queue);
    assert [] + Kids(f, queue) == Kids(f, queue);
  }

  lemma FrontierEnds<R>(f: World<R>, root: R, done: seq<R>)
    requires Frontier(f, root, done, [], [])
    ensures Complete(f, root, done)
  {
  }

  lemma {:induction false} VisitedIsSeen<R>(f: World<R>, root: R, done: seq<R>)
    requires root in f && Visited(f, root, done)
    ensures |done| <= |Seen(f, root, done)| && done == Seen(f, root, done)[..|done|]
  {
    if done != [] {
      var before := done[..|done| - 1];
      var x := done[|done| - 1];
      VisitedIsSeen(f, root, before);
      assert done == before + [x];
      var seen := Seen(f, root, before);
      assert Seen(f, root, done) == seen + if x in f then f[x].list else [];
      assert seen[..|done|] == before + [x];
    }
  }

  /** Everything seen is a different item, inside root, and listed by root or by a visited item. */
  ghost predicate SeenOnce<R>(f: World<R>, depth: map<R, nat>, root: R, done: seq<R>)
    requires Acyclic(f, depth) && root in f
  {
    var seen := Seen(f, root, done);
    && NoDup(seen)
    && forall y | y in seen ::
         && y in f && y != root && Under(f, depth, y, root)
         && f[y].parent.Some? && (f[y].parent.value == root || f[y].parent.value in done)
  }

  lemma {:induction false} SeenIsOnce<R>(f: World<R>, depth: map<R, nat>, root: R, done: seq<R>)
    requires Linked(f) && Acyclic(f, depth) && root in f && Visited(f, root, done)
    ensures SeenOnce(f, depth, root, done)
  {
    if done == [] {
      assert Under(f, depth, root, root);
      ListIsOnce(f, depth, root, root);
      assert Seen(f, root, done) == f[root].list;
    } else {
      var before := done[..|done| - 1];
      var x := done[|done| - 1];
      SeenIsOnce(f, depth, root, before);
      VisitedIsSeen(f, root, before);
      OneMoreSeen(f, depth, root, before, x, done);
    }
  }

  lemma OneMoreSeen<R>(f: World<R>, depth: map<R, nat>, root: R, before: seq<R>, x: R, done: seq<R>)
    requires Linked(f) && Acyclic(f, depth) && root in f && SeenOnce(f, depth, root, before)
    requires |before| < |Seen(f, root, before)| && before == Seen(f, root, before)[..|before|]
    requires x == Seen(f, root, before)[|before|] && done == before + [x]
    ensures SeenOnce(f, depth, root, done)
  {
    var seen := Seen(f, root, before);
    assert x in seen && x in f && Under(f, depth, x, root) && x != root;
    KidsOfOneMore(f, before, x);
    assert Seen(f, root, done) == seen + f[x].list;
    ListIsOnce(f, depth, root, x);
    NotBefore(seen, |before|);
    forall y | y in f[x].list
      ensures y !in seen
    {
      assert f[y].parent == Some(x);
    }
    NoDupConcat(seen, f[x].list);
  }

  lemma NoDupConcat<R>(s: seq<R>, t: seq<R>)
    requires NoDup(s) && NoDup(t) && forall y | y in t :: y !in s
    ensures NoDup(s + t)
  {
    forall i, j | 0 <= i < j < |s + t|
      ensures (s + t)[i] != (s + t)[j]
    {
      if i < |s| <= j {
        assert (s + t)[j] in t;
      }
    }
  }

  lemma ListIsOnce<R>(f: World<R>, depth: map<R, nat>, root: R, x: R)
    requires Linked(f) && Acyclic(f, depth) && root in f && x in f && Under(f, depth, x, root)
    ensures NoDup(f[x].list)
    ensures forall y | y in f[x].list ::
              y in f && y != root && f[y].parent == Some(x) && Under(f, depth, y, root)
  {
    assert DownOk(f, x);
    forall y | y in f[x].list
      ensures y != root && Under(f, depth, y, root)
    {
      assert Below(f, depth, y);
      UnderIsBelow(f, depth, x, root);
    }
  }

  lemma {:induction false} UnderIsBelow<R>(f: World<R>, depth: map<R, nat>, y: R, x: R)
    requires Acyclic(f, depth) && y in f && x in f && Under(f, depth, y, x)
    ensures depth[x] <= depth[y]
    decreases depth[y]
  {
    assert Below(f, depth, y);
    if y != x {
      UnderIsBelow(f, depth, f[y].parent.value, x);
    }
  }

  lemma {:induction false} KidsMembers<R>(f: World<R>, s: seq<R>, y: R, p: R)
    requires p in s && p in f && y in f[p].list
    ensures y in Kids(f, s)
  {
    if s[|s| - 1] != p {
      KidsMembers(f, s[..|s| - 1], y, p);
    }
  }

  /** A complete search has visited everything inside root. */
  lemma {:induction false} CompleteReaches<R>(f: World<R>, depth: map<R, nat>, root: R, done: seq<R>, y: R)
    requires Linked(f) && Acyclic(f, depth) && root in f && Complete(f, root, done)
    requires y in f && y != root && Under(f, depth, y, root)
    ensures y in done
    decreases depth[y]
  {
    assert Below(f, depth, y) && UpOk(f, y);
    var p := f[y].parent.value;
    VisitedIsSeen(f, root, done);
    assert done == Seen(f, root, done);
    if p != root {
      CompleteReaches(f, depth, root, done, p);
      KidsMembers(f, done, y, p);
    }
  }

  /** A complete search visits exactly the items inside root, each once. */
  lemma CompleteIsExact<R>(f: World<R>, depth: map<R, nat>, root: R, done: seq<R>)
    requires Linked(f) && Acyclic(f, depth) && root in f && Complete(f, root, done)
    ensures NoDup(done)
    ensures forall y :: y in done <==> y in f && y != root && Under(f, depth, y, root)
  {
    SeenIsOnce(f, depth, root, done);
    VisitedIsSeen(f, root, done);
    forall y | y in f && y != root && Under(f, depth, y, root)
      ensures y in done
    {
      CompleteReaches(f, depth, root, done, y);
    }
  }

  // ----- level by level -----

  /** The items k + 1 steps below root, from left to right. */
  ghost function Level<R>(f: World<R>, root: R, k: nat): seq<R>
    requires root in f
  {
    if k == 0 then f[root].list else Kids(f, Level(f, root, k - 1))
  }

  ghost function Levels<R>(f: World<R>, root: R, n: nat): seq<R>
    requires root in f
  {
    if n == 0 then [] else Levels(f, root, n - 1) + Level(f, root, n - 1)
  }

  lemma {:induction false} KidsConcat<R>(f: World<R>, s: seq<R>, t: seq<R>)
    ensures Kids(f, s + t) == Kids(f, s) + Kids(f, t)
  {
    if t == [] {
      assert s + t == s;
    } else {
      assert (s + t)[..|s + t| - 1] == s + t[..|t| - 1];
      KidsConcat(f, s, t[..|t| - 1]);
    }
  }

  lemma KidsOfFirst<R>(f: World<R>, s: seq<R>)
    requires s != [] && s[0] in f
    ensures Kids(f, s) == f[s[0]].list + Kids(f, s[1..])
  {
    assert s == [s[0]] + s[1..];
    KidsConcat(f, [s[0]], s[1..]);
    assert [s[0]][..0] == [];
    assert Kids(f, [s[0]]) == [] + f[s[0]].list;
  }

  lemma OneMoreLevel<R>(list: seq<R>, ks: seq<R>, kt: seq<R>, levels: seq<R>, level: seq<R>)
    requires levels == list + ks && level == kt
    ensures levels + level == list + (ks + kt)
  {
  }

  lemma {:induction false} LevelsUnfold<R>(f: World<R>, root: R, n: nat)
    requires root in f
    ensures Levels(f, root, n + 1) == f[root].list + Kids(f, Levels(f, root, n))
  {
    if n == 0 {
      assert Levels(f, root, 1) == Levels(f, root, 0) + Level(f, root, 0);
    } else {
      var s, t := Levels(f, root, n - 1), Level(f, root, n - 1);
      LevelsUnfold(f, root, n - 1);
      KidsConcat(f, s, t);
      OneMoreLevel(f[root].list, Kids(f, s), Kids(f, t), Levels(f, root, n), Level(f, root, n));
    }
  }

  lemma {:induction false} LevelsComeFirst<R>(f: World<R>, root: R, done: seq<R>, n: nat)
    requires root in f && done == Seen(f, root, done)
    ensures Levels(f, root, n) <= done
  {
    if n > 0 {
      LevelsComeFirst(f, root, done, n - 1);
      var s := Levels(f, root, n - 1);
      assert done == s + done[|s|..];
      KidsConcat(f, s, done[|s|..]);
      LevelsUnfold(f, root, n - 1);
    }
  }

  /** A complete search has gone through the levels one after the other. */
  lemma CompleteIsLevels<R>(f: World<R>, depth: map<R, nat>, root: R, done: seq<R>)
    requires Linked(f) && Acyclic(f, depth) && root in f && Complete(f, root, done)
    ensures exists n :: done == Levels(f, root, n)
  {
    VisitedIsSeen(f, root, done);
    assert done == Seen(f, root, done);
    var n := LastLevel(f, root, done, 0);
    var s := Levels(f, root, n);
    LevelsComeFirst(f, root, done, n);
    LevelsUnfold(f, root, n);
    assert s == Seen(f, root, s);
    FixedPointIsAll(f, depth, root, done, s);
  }

  lemma {:induction false} LastLevel<R>(f: World<R>, root: R, done: seq<R>, k: nat) returns (n: nat)
    requires root in f && done == Seen(f, root, done)
    ensures Level(f, root, n) == []
    decreases |done| - |Levels(f, root, k)|
  {
    LevelsComeFirst(f, root, done, k);
    LevelsComeFirst(f, root, done, k + 1);
    if Level(f, root, k) == [] {
      n := k;
    } else {
      n := LastLevel(f, root, done, k + 1);
    }
  }

  /** A beginning of the visit that is closed under listing is the whole visit. */
  lemma FixedPointIsAll<R>(f: World<R>, depth: map<R, nat>, root: R, done: seq<R>, s: seq<R>)
    requires Linked(f) && Acyclic(f, depth) && root in f && Complete(f, root, done)
    requires s <= done && s == Seen(f, root, s)
    ensures s == done
  {
    CompleteIsExact(f, depth, root, done);
    if |s| < |done| {
      assert s == done[..|s|];
      NotBefore(done, |s|);
      ClosedReaches(f, depth, root, s, done[|s|]);
    }
  }

  lemma NotBefore<R>(s: seq<R>, k: nat)
    requires NoDup(s) && k < |s|
    ensures s[k] !in s[..k]
  {
  }

  lemma {:induction false} ClosedReaches<R>(f: World<R>, depth: map<R, nat>, root: R, s: seq<R>, y: R)
    requires Linked(f) && Acyclic(f, depth) && root in f && s == Seen(f, root, s)
    requires y in f && y != root && Under(f, depth, y, root)
    ensures y in s
    decreases depth[y]
  {
    assert Below(f, depth, y) && UpOk(f, y);
    var p := f[y].parent.value;
    if p != root {
      ClosedReaches(f, depth, root, s, p);
      KidsMembers(f, s, y, p);
    }
  }

  /** Two complete searches have gone the same way. */
  lemma {:induction false} VisitedInOneOrder<R>(f: World<R>, root: R, a: seq<R>, b: seq<R>)
    requires root in f && Visited(f, root, a) && Visited(f, root, b) && |a| == |b|
    ensures a == b
  {
    if a != [] {
      VisitedInOneOrder(f, root, a[..|a| - 1], b[..|b| - 1]);
      assert a == a[..|a| - 1] + [a[|a| - 1]] && b == b[..|b| - 1] + [b[|b| - 1]];
    }
  }

  // ----- counting -----

  ghost function Elements<R>(s: seq<R>): set<R> {
    set y | y in s
  }

  lemma {:induction false} NoDupCount<R>(s: seq<R>)
    requires NoDup(s)
    ensures |Elements(s)| == |s|
  {
    if s != [] {
      NoDupCount(s[1..]);
      assert Elements(s) == {s[0]} + Elements(s[1..]);
    }
  }
}
