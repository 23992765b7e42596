/** The walk cache of src/creature.cpp: a window of tile answers that is shifted on every step. */
module WalkCache {

  type Coord = x: int | 0 <= x < 0x1_0000
  datatype Position = Position(x: Coord, y: Coord, z: nat)

  /** What queryAdd answers for the creature at each position; false where there is no tile. */
  type Walkable = Position -> bool

  const MAX_WIDTH: int := 11
  const MAX_HEIGHT: int := 11
  const WIDTH: nat := 2 * MAX_WIDTH + 1
  const HEIGHT: nat := 2 * MAX_HEIGHT + 1

  /** The contents of the window by row and column offset from the creature. */
  type Cells = (int, int) -> bool

  predicate InWindow(dy: int, dx: int) {
    -MAX_HEIGHT <= dy <= MAX_HEIGHT && -MAX_WIDTH <= dx <= MAX_WIDTH
  }

  predicate OnMap(me: Position, dy: int, dx: int) {
    0 <= me.x + dx < 0x1_0000 && 0 <= me.y + dy < 0x1_0000
  }

  function Place(me: Position, dy: int, dx: int): Position
    requires OnMap(me, dy, dx)
  {
    Position(me.x + dx, me.y + dy, me.z)
  }

  /** Coordinates are narrowed to 16 bits before a tile is looked up. */
  function Narrow(n: int): Coord {
    n % 0x1_0000
  }

  function TileAt(me: Position, dy: int, dx: int): (p: Position)
    ensures OnMap(me, dy, dx) ==> p == Place(me, dy, dx)
  {
    Position(Narrow(me.x + dx), Narrow(me.y + dy), me.z)
  }

  function Distance(a: int, b: int): nat {
    if a < b then b - a else a - b
  }

  // ----- what the updates do to one cell of the window -----

  ghost function ReloadedAt(c: Cells, w: Walkable, me: Position, dy: int, dx: int): bool {
    if OnMap(me, dy, dx) then w(Place(me, dy, dx)) else c(dy, dx)
  }

  ghost function RefreshedAt(c: Cells, me: Position, pos: Position, answer: bool, dy: int, dx: int): bool {
    if pos.z == me.z && pos.x - me.x == dx && pos.y - me.y == dy then answer else c(dy, dx)
  }

  /** After the rows have been shifted and the new row has been filled. */
  ghost function RowsShifted(c: Cells, w: Walkable, before: Position, me: Position, dy: int, dx: int): bool {
    if before.y > me.y then (if dy == -MAX_HEIGHT then w(TileAt(me, dy, dx)) else c(dy - 1, dx))
    else if before.y < me.y then (if dy == MAX_HEIGHT then w(TileAt(me, dy, dx)) else c(dy + 1, dx))
    else c(dy, dx)
  }

  /**
   After the columns have been shifted too. The distance is absolute, so the rows that are left out are
   always the first ones, whichever way the rows went.
   */
  ghost function ColumnsShifted(c: Cells, w: Walkable, before: Position, me: Position, dy: int, dx: int): bool {
    var moved := dy + MAX_HEIGHT >= Distance(before.y, me.y);
    if before.x < me.x then
      if dx == MAX_WIDTH then w(TileAt(me, dy, dx)) else RowsShifted(c, w, before, me, dy, if moved then dx + 1 else dx)
    else if before.x > me.x then
      if dx == -MAX_WIDTH then w(TileAt(me, dy, dx))
          else RowsShifted(c, w, before, me, dy, if moved then dx - 1 else dx)
    else RowsShifted(c, w, before, me, dy, dx)
  }

  /** onCreatureMove for the creature itself, without a teleport and on one floor. */
  ghost function SteppedAt(c: Cells, w: Walkable, before: Position, me: Position, dy: int, dx: int): bool {
    if before.x - me.x == dx && before.y - me.y == dy then w(before)
    else ColumnsShifted(c, w, before, me, dy, dx)
  }

  // ----- agreement with asking the tiles -----

  /** Every cell but the creature's own, if it stands for a position at all, holds what the tile answers. */
  ghost predicate Agrees(c: Cells, w: Walkable, me: Position) {
    forall dy, dx {:trigger AgreesAt(c, w, me, dy, dx)} :: Looked(me, dy, dx) ==> AgreesAt(c, w, me, dy, dx)
  }

  /** The cell stands for a position other than the creature's own. */
  predicate Looked(me: Position, dy: int, dx: int) {
    InWindow(dy, dx) && (dy != 0 || dx != 0) && OnMap(me, dy, dx)
  }

  ghost predicate AgreesAt(c: Cells, w: Walkable, me: Position, dy: int, dx: int)
    requires Looked(me, dy, dx)
  {
    c(dy, dx) == w(Place(me, dy, dx))
  }

  ghost predicate SameElsewhere(w: Walkable, w': Walkable, p: Position, q: Position) {
    forall r {:trigger w(r)} {:trigger w'(r)} :: r != p && r != q ==> w(r) == w'(r)
  }

  /** A step that Map::moveCreature does not turn into a teleport, on one floor. */
  predicate OneStep(before: Position, me: Position) {
    before.z == me.z && Distance(before.x, me.x) <= 1 && Distance(before.y, me.y) <= 1
  }

  predicate SouthernDiagonal(before: Position, me: Position) {
    before.y < me.y && before.x != me.x
  }

  /** What one step knows: the window was right before, and the creature is all that moved. */
  ghost predicate StepFrom(c: Cells, w: Walkable, w': Walkable, before: Position, me: Position) {
    Agrees(c, w, before) && OneStep(before, me) && SameElsewhere(w, w', before, me)
  }

  lemma OldCell(c: Cells, w: Walkable, w': Walkable, before: Position, me: Position, dy: int, dx: int)
    requires StepFrom(c, w, w', before, me) && Looked(before, dy, dx)
    requires dy != me.y - before.y || dx != me.x - before.x
    ensures c(dy, dx) == w'(Place(before, dy, dx))
  {
    assert AgreesAt(c, w, before, dy, dx);
  }

  /** Every cell is right after a step; on a southern diagonal, every cell but most of the first and the last row. */
  lemma StepAgreesAt(c: Cells, w: Walkable, w': Walkable, before: Position, me: Position, dy: int, dx: int)
    requires StepFrom(c, w, w', before, me) && Looked(me, dy, dx)
    requires SouthernDiagonal(before, me) ==>
               -MAX_HEIGHT < dy < MAX_HEIGHT || !InWindow(dy, dx + me.x - before.x)
    ensures SteppedAt(c, w', before, me, dy, dx) == w'(Place(me, dy, dx))
  {
    var sy, sx := me.y - before.y, me.x - before.x;
    if Looked(before, dy + sy, dx + sx) {
      OldCell(c, w, w', before, me, dy + sy, dx + sx);
      assert Place(before, dy + sy, dx + sx) == Place(me, dy, dx);
    }
  }

  /**
   On a southern diagonal the first row keeps what lies one column nearer to where the step came from;
   the last row, already filled for the new place, is shifted once too often.
   */
  lemma StepStale(c: Cells, w: Walkable, w': Walkable, before: Position, me: Position, dy: int, dx: int)
    requires StepFrom(c, w, w', before, me) && SouthernDiagonal(before, me) && Looked(me, dy, dx)
    requires var on := me.x - before.x; InWindow(dy, dx + on)
    ensures var on := me.x - before.x;
            && (dy == -MAX_HEIGHT && OnMap(me, dy, dx - on) ==>
                 SteppedAt(c, w', before, me, dy, dx) == w'(Place(me, dy, dx - on)))
            && (dy == MAX_HEIGHT && OnMap(me, dy, dx + on) ==>
                 SteppedAt(c, w', before, me, dy, dx) == w'(Place(me, dy, dx + on)))
  {
    var on := me.x - before.x;
    if dy == -MAX_HEIGHT && OnMap(me, dy, dx - on) {
      OldCell(c, w, w', before, me, dy + 1, dx);
      assert Place(before, dy + 1, dx) == Place(me, dy, dx - on);
    }
  }

  ghost function Stepped(c: Cells, w: Walkable, before: Position, me: Position): Cells {
    (dy, dx) => SteppedAt(c, w, before, me, dy, dx)
  }

  ghost function Reloaded(c: Cells, w: Walkable, me: Position): Cells {
    (dy, dx) => ReloadedAt(c, w, me, dy, dx)
  }

  ghost function Refreshed(c: Cells, me: Position, pos: Position, answer: bool): Cells {
    (dy, dx) => RefreshedAt(c, me, pos, answer, dy, dx)
  }

  /** A right window is right again after a step from before to me, whatever the tiles are. */
  ghost predicate KeepsAgreement(before: Position, me: Position) {
    forall c, w, w' {:trigger StepFrom(c, w, w', before, me)} ::
      StepFrom(c, w, w', before, me) ==> Agrees(Stepped(c, w', before, me), w', me)
  }

  /** Agreement is kept by a step in every world exactly when the step is no southern diagonal. */
  lemma StepAgrees(before: Position, me: Position)
    requires OneStep(before, me)
    ensures KeepsAgreement(before, me) <==> !SouthernDiagonal(before, me)
  {
    if SouthernDiagonal(before, me) {
      SouthernDiagonalBreaks(before, me);
    } else {
      forall c, w, w' {:trigger StepFrom(c, w, w', before, me)} | StepFrom(c, w, w', before, me)
        ensures Agrees(Stepped(c, w', before, me), w', me)
      {
        forall dy, dx {:trigger AgreesAt(Stepped(c, w', before, me), w', me, dy, dx)} | Looked(me, dy, dx)
          ensures AgreesAt(Stepped(c, w', before, me), w', me, dy, dx)
        {
          StepAgreesAt(c, w, w', before, me, dy, dx);
        }
      }
    }
  }

  /** A world with a single walkable tile that a southern diagonal gets wrong. */
  lemma SouthernDiagonalBreaks(before: Position, me: Position)
    requires OneStep(before, me) && SouthernDiagonal(before, me)
    ensures !KeepsAgreement(before, me)
  {
    var on := me.x - before.x;
    var dy, dx := if me.y >= MAX_HEIGHT then -MAX_HEIGHT else MAX_HEIGHT, if me.y >= MAX_HEIGHT then 0 else -on;
    var tile := Place(me, dy, 0);
    var w: Walkable := r => r == tile;
    var c: Cells := (y, x) => OnMap(before, y, x) && w(Place(before, y, x));
    assert StepFrom(c, w, w, before, me);
    StepStale(c, w, w, before, me, dy, dx);
    assert !AgreesAt(Stepped(c, w, before, me), w, me, dy, dx);
  }

  /**
   The columns' shift with a vertical offset that keeps its sign, which the branches for dy < 0 and dy > 0 are
   written for.
   */
  ghost function ColumnsShiftedBySign(c: Cells, w: Walkable, before: Position, me: Position, dy: int, dx: int): bool {
    var offset := before.y - me.y;
    var moved := (if offset > 0 then offset else 0) <= dy + MAX_HEIGHT <= HEIGHT - 1
      + (if offset < 0 then offset else 0);
    if before.x < me.x then
      if dx == MAX_WIDTH then w(TileAt(me, dy, dx)) else RowsShifted(c, w, before, me, dy, if moved then dx + 1 else dx)
    else if before.x > me.x then
      if dx == -MAX_WIDTH then w(TileAt(me, dy, dx))
          else RowsShifted(c, w, before, me, dy, if moved then dx - 1 else dx)
    else RowsShifted(c, w, before, me, dy, dx)
  }

  ghost function SteppedBySign(c: Cells, w: Walkable, before: Position, me: Position): Cells {
    (dy, dx) =>
      if before.x - me.x == dx && before.y - me.y == dy then w(before)
          else ColumnsShiftedBySign(c, w, before, me, dy, dx)
  }

  lemma SignedStepAgreesAt(c: Cells, w: Walkable, w': Walkable, before: Position, me: Position, dy: int, dx: int)
    requires StepFrom(c, w, w', before, me) && Looked(me, dy, dx)
    ensures SteppedBySign(c, w', before, me)(dy, dx) == w'(Place(me, dy, dx))
  {
    var sy, sx := me.y - before.y, me.x - before.x;
    if Looked(before, dy + sy, dx + sx) {
      OldCell(c, w, w', before, me, dy + sy, dx + sx);
      assert Place(before, dy + sy, dx + sx) == Place(me, dy, dx);
    }
  }

  /**
   With a signed offset the step would keep agreement in all eight directions, and differ on the southern
   diagonals only.
   */
  lemma SignedStepAgrees(c: Cells, w: Walkable, w': Walkable, before: Position, me: Position)
    requires StepFrom(c, w, w', before, me)
    ensures Agrees(SteppedBySign(c, w', before, me), w', me)
    ensures !SouthernDiagonal(before, me) ==>
              forall dy, dx | InWindow(dy, dx) ::
                  SteppedBySign(c, w', before, me)(dy, dx) == Stepped(c, w', before, me)(dy, dx)
  {
    var shifted := SteppedBySign(c, w', before, me);
    forall dy, dx {:trigger AgreesAt(shifted, w', me, dy, dx)} | Looked(me, dy, dx)
      ensures AgreesAt(shifted, w', me, dy, dx)
    {
      SignedStepAgreesAt(c, w, w', before, me, dy, dx);
    }
  }

  /** Loading the whole window makes it right, whatever it held before. */
  lemma ReloadAgrees(c: Cells, w: Walkable, me: Position)
    ensures Agrees(Reloaded(c, w, me), w, me)
  {
  }

  /** A refreshed cell follows its tile. */
  lemma RefreshAgrees(c: Cells, w: Walkable, w': Walkable, me: Position, pos: Position)
    requires Agrees(c, w, me) && SameElsewhere(w, w', pos, pos)
    ensures Agrees(Refreshed(c, me, pos, w'(pos)), w', me)
  {
    var c' := Refreshed(c, me, pos, w'(pos));
    forall dy, dx {:trigger AgreesAt(c', w', me, dy, dx)} | Looked(me, dy, dx)
      ensures AgreesAt(c', w', me, dy, dx)
    {
      assert AgreesAt(c, w, me, dy, dx);
    }
  }

  // ----- whole runs -----

  /** The creature, its window, and the answers of the tiles. */
  datatype State = State(c: Cells, w: Walkable, me: Position, loaded: bool)

  datatype Event =
    | Think(usesCache: bool)
    | Move(to: Position, teleport: bool, after: Walkable)
    | TileChange(pos: Position, answer: bool, refreshed: bool)
    | OtherMove(from: Position, to: Position, after: Walkable)

  ghost function With(w: Walkable, pos: Position, answer: bool): Walkable {
    r => if r == pos then answer else w(r)
  }

  ghost function Step(s: State, e: Event): State {
    match e
    case Think(usesCache) =>
      if !s.loaded && usesCache then s.(loaded := true, c := Reloaded(s.c, s.w, s.me)) else s
    case Move(to, teleport, after) =>
      State(if !s.loaded then s.c
            else if teleport || s.me.z != to.z then Reloaded(s.c, after, to)
            else Stepped(s.c, after, s.me, to), after, to, s.loaded)
    case TileChange(pos, answer, refreshed) =>
      s.(w := With(s.w, pos, answer),
         c := if s.loaded && refreshed then Refreshed(s.c, s.me, pos, answer) else s.c)
    case OtherMove(from, to, after) =>
      s.(w := after,
         c := if s.loaded then Refreshed(Refreshed(s.c, s.me, to, after(to)), s.me, from, after(from)) else s.c)
  }

  /** What the callers guarantee: teleports are announced, and only passable changes go without a refresh. */
  ghost predicate Announced(s: State, e: Event) {
    match e
    case Think(_) => true
    case Move(to, teleport, after) =>
      && SameElsewhere(s.w, after, s.me, to)
      && (teleport || s.me.z != to.z || OneStep(s.me, to))
    case TileChange(pos, answer, refreshed) => refreshed || answer == s.w(pos)
    case OtherMove(from, to, after) => SameElsewhere(s.w, after, from, to)
  }

  /** The event leaves the window wrong in some world. */
  ghost predicate Spoils(s: State, e: Event) {
    e.Move? && s.loaded && !e.teleport && s.me.z == e.to.z && SouthernDiagonal(s.me, e.to)
  }

  /** The event loads the whole window. */
  ghost predicate Heals(s: State, e: Event) {
    (e.Move? && s.loaded && (e.teleport || s.me.z != e.to.z)) || (e.Think? && !s.loaded && e.usesCache)
  }

  ghost function Run(s: State, es: seq<Event>): State {
    if es == [] then s else Step(Run(s, es[..|es| - 1]), es[|es| - 1])
  }

  ghost predicate AllAnnounced(s: State, es: seq<Event>) {
    es != [] ==> AllAnnounced(s, es[..|es| - 1]) && Announced(Run(s, es[..|es| - 1]), es[|es| - 1])
  }

  /** No southern diagonal since the window was last loaded. */
  ghost predicate Clean(s: State, es: seq<Event>) {
    es != [] ==>
      var t, e := Run(s, es[..|es| - 1]), es[|es| - 1];
      Heals(t, e) || (Clean(s, es[..|es| - 1]) && !Spoils(t, e))
  }

  lemma EventAgrees(s: State, e: Event)
    requires Announced(s, e)
    requires Heals(s, e) || (!Spoils(s, e) && (s.loaded ==> Agrees(s.c, s.w, s.me)))
    ensures Step(s, e).loaded ==> Agrees(Step(s, e).c, Step(s, e).w, Step(s, e).me)
  {
    match e
    case Think(_) => ReloadAgrees(s.c, s.w, s.me);
    case Move(to, teleport, after) =>
      if s.loaded && !teleport && s.me.z == to.z {
        StepAgrees(s.me, to);
        assert StepFrom(s.c, s.w, after, s.me, to);
      } else {
        ReloadAgrees(s.c, after, to);
      }
    case TileChange(pos, answer, refreshed) =>
      if s.loaded {
        var w' := With(s.w, pos, answer);
        if refreshed {
          RefreshAgrees(s.c, s.w, w', s.me, pos);
        } else {
          AgreesWithSame(s.c, s.w, w', s.me);
        }
      }
    case OtherMove(from, to, after) =>
      if s.loaded {
        var mid := With(s.w, to, after(to));
        RefreshAgrees(s.c, s.w, mid, s.me, to);
        RefreshAgrees(Refreshed(s.c, s.me, to, after(to)), mid, after, s.me, from);
      }
  }

  lemma AgreesWithSame(c: Cells, w: Walkable, w': Walkable, me: Position)
    requires Agrees(c, w, me) && forall r :: w(r) == w'(r)
    ensures Agrees(c, w', me)
  {
    forall dy, dx {:trigger AgreesAt(c, w', me, dy, dx)} | Looked(me, dy, dx)
      ensures AgreesAt(c, w', me, dy, dx)
    {
      assert AgreesAt(c, w, me, dy, dx);
    }
  }

  /** In every run that is clean the loaded window agrees with the tiles. */
  lemma {:induction false} RunAgrees(s: State, es: seq<Event>)
    requires !s.loaded && AllAnnounced(s, es) && Clean(s, es)
    ensures Run(s, es).loaded ==> Agrees(Run(s, es).c, Run(s, es).w, Run(s, es).me)
  {
    if es != [] {
      var t, e := Run(s, es[..|es| - 1]), es[|es| - 1];
      if !Heals(t, e) {
        RunAgrees(s, es[..|es| - 1]);
      }
      EventAgrees(t, e);
    }
  }

  /** The window is loaded by the first think of a creature that uses it, and stays loaded. */
  lemma {:induction false} RunLoads(s: State, es: seq<Event>)
    ensures Run(s, es).loaded <==> s.loaded || Think(true) in es
  {
    if es != [] {
      var front, e := es[..|es| - 1], es[|es| - 1];
      RunLoads(s, front);
      assert es == front + [e];
    }
  }

  // ----- the creature and its array -----

  class Creature {
    const localMapCache: array2<bool>
    const usesCacheMap: bool
    var position: Position
    var isMapLoaded: bool

    ghost predicate Valid()
      reads this
    {
      localMapCache.Length0 == HEIGHT && localMapCache.Length1 == WIDTH
    }

    /** The array holds the window c. */
    ghost predicate Shows(c: Cells)
      requires Valid()
      reads this, localMapCache
    {
      forall dy, dx {:trigger c(dy, dx)} | InWindow(dy, dx) ::
          localMapCache[MAX_HEIGHT + dy, MAX_WIDTH + dx] == c(dy, dx)
    }

    /** The creature is in state s. */
    ghost predicate Is(s: State)
      requires Valid()
      reads this, localMapCache
    {
      Shows(s.c) && position == s.me && isMapLoaded == s.loaded
    }

    method UpdateTileCacheAt(answer: bool, dx: int, dy: int)
      requires Valid()
      modifies localMapCache
      ensures forall y, x | 0 <= y < HEIGHT && 0 <= x < WIDTH ::
                localMapCache[y, x] == if y == MAX_HEIGHT + dy && x == MAX_WIDTH + dx then answer
                    else old(localMapCache[y, x])
    {
      if Distance(dx, 0) <= MAX_WIDTH && Distance(dy, 0) <= MAX_HEIGHT {
        localMapCache[MAX_HEIGHT + dy, MAX_WIDTH + dx] := answer;
      }
    }

    method UpdateTileCache(answer: bool, pos: Position, ghost c: Cells)
      requires Valid() && Shows(c)
      modifies localMapCache
      ensures Shows(Refreshed(c, position, pos, answer))
    {
      if pos.z == position.z {
        UpdateTileCacheAt(answer, pos.x - position.x, pos.y - position.y);
      }
    }

    method UpdateMapCache(tiles: Walkable, ghost c: Cells)
      requires Valid() && Shows(c)
      modifies localMapCache
      ensures Shows(Reloaded(c, tiles, position))
    {
      var y := -MAX_HEIGHT;
      while y <= MAX_HEIGHT
        invariant -MAX_HEIGHT <= y <= MAX_HEIGHT + 1
        invariant forall dy, dx | InWindow(dy, dx) ::
                    localMapCache[MAX_HEIGHT + dy, MAX_WIDTH + dx] ==
                    if dy < y then ReloadedAt(c, tiles, position, dy, dx) else c(dy, dx)
      {
        var x := -MAX_WIDTH;
        while x <= MAX_WIDTH
          invariant -MAX_WIDTH <= x <= MAX_WIDTH + 1
          invariant forall dy, dx | InWindow(dy, dx) ::
                      localMapCache[MAX_HEIGHT + dy, MAX_WIDTH + dx] ==
                      if dy < y || (dy == y && dx < x) then ReloadedAt(c, tiles, position, dy, dx) else c(dy, dx)
        {
          var pos := TileAt(position, y, x);
          NarrowedIsFar(position, y, x);
          UpdateTileCacheAt(tiles(pos), pos.x - position.x, pos.y - position.y);
          x := x + 1;
        }
        y := y + 1;
      }
    }

    /** The loop that asks the tiles of one row. */
    method FillRow(tiles: Walkable, row: int)
      requires Valid() && -MAX_HEIGHT <= row <= MAX_HEIGHT
      modifies localMapCache
      ensures forall y, x | 0 <= y < HEIGHT && 0 <= x < WIDTH ::
                localMapCache[y, x] ==
                if y == MAX_HEIGHT + row then tiles(TileAt(position, row, x - MAX_WIDTH)) else old(localMapCache[y, x])
    {
      var x := -MAX_WIDTH;
      while x <= MAX_WIDTH
        invariant -MAX_WIDTH <= x <= MAX_WIDTH + 1
        invariant forall y, k | 0 <= y < HEIGHT && 0 <= k < WIDTH ::
                    localMapCache[y, k] ==
                    if y == MAX_HEIGHT + row && k < MAX_WIDTH + x then tiles(TileAt(position, row, k - MAX_WIDTH))
                    else old(localMapCache[y, k])
      {
        UpdateTileCacheAt(tiles(TileAt(position, row, x)), x, row);
        x := x + 1;
      }
    }

    /** The loop that asks the tiles of one column. */
    method FillColumn(tiles: Walkable, column: int)
      requires Valid() && -MAX_WIDTH <= column <= MAX_WIDTH
      modifies localMapCache
      ensures forall y, x | 0 <= y < HEIGHT && 0 <= x < WIDTH ::
                localMapCache[y, x] ==
                if x == MAX_WIDTH + column then tiles(TileAt(position, y - MAX_HEIGHT, column))
                    else old(localMapCache[y, x])
    {
      var y := -MAX_HEIGHT;
      while y <= MAX_HEIGHT
        invariant -MAX_HEIGHT <= y <= MAX_HEIGHT + 1
        invariant forall k, x | 0 <= k < HEIGHT && 0 <= x < WIDTH ::
                    localMapCache[k, x] ==
                    if x == MAX_WIDTH + column && k < MAX_HEIGHT + y then
                        tiles(TileAt(position, k - MAX_HEIGHT, column))
                    else old(localMapCache[k, x])
      {
        UpdateTileCacheAt(tiles(TileAt(position, y, column)), column, y);
        y := y + 1;
      }
    }

    /** The shift of the rows, either way. */
    method ShiftRows(tiles: Walkable, oldPos: Position, newPos: Position, ghost c: Cells)
      requires Valid() && Shows(c) && position == newPos
      modifies localMapCache
      ensures forall dy, dx | InWindow(dy, dx) ::
                localMapCache[MAX_HEIGHT + dy, MAX_WIDTH + dx] == RowsShifted(c, tiles, oldPos, newPos, dy, dx)
    {
      if oldPos.y > newPos.y {
        for y := HEIGHT - 1 downto 0
          invariant forall k, x | 0 <= k < HEIGHT && 0 <= x < WIDTH ::
                      localMapCache[k, x] == if k > y then old(localMapCache[k - 1, x]) else old(localMapCache[k, x])
        {
          forall x | 0 <= x < WIDTH {
            localMapCache[y + 1, x] := localMapCache[y, x];
          }
        }
        FillRow(tiles, -MAX_HEIGHT);
      } else if oldPos.y < newPos.y {
        for y := 0 to HEIGHT - 1
          invariant forall k, x | 0 <= k < HEIGHT && 0 <= x < WIDTH ::
                      localMapCache[k, x] == if k < y then old(localMapCache[k + 1, x]) else old(localMapCache[k, x])
        {
          forall x | 0 <= x < WIDTH {
            localMapCache[y, x] := localMapCache[y + 1, x];
          }
        }
        FillRow(tiles, MAX_HEIGHT);
      }
    }

    /** The shift of the columns, either way. */
    method ShiftColumns(tiles: Walkable, oldPos: Position, newPos: Position, ghost c: Cells)
      requires Valid() && position == newPos
      requires forall dy, dx | InWindow(dy, dx) ::
                 localMapCache[MAX_HEIGHT + dy, MAX_WIDTH + dx] == RowsShifted(c, tiles, oldPos, newPos, dy, dx)
      modifies localMapCache
      ensures forall dy, dx | InWindow(dy, dx) ::
                localMapCache[MAX_HEIGHT + dy, MAX_WIDTH + dx] == ColumnsShifted(c, tiles, oldPos, newPos, dy, dx)
    {
      var starty, endy := 0, HEIGHT - 1;
      var dy := Distance(oldPos.y, newPos.y);
      if dy > 0 {
        starty := dy;
      }
      if oldPos.x < newPos.x {
        for y := starty to if starty <= endy then endy + 1 else starty
          invariant forall k, x | 0 <= k < HEIGHT && 0 <= x < WIDTH ::
                      localMapCache[k, x] == if starty <= k < y && x < WIDTH - 1 then old(localMapCache[k, x + 1])
                          else old(localMapCache[k, x])
        {
          for x := 0 to WIDTH - 1
            invariant forall k, i | 0 <= k < HEIGHT && 0 <= i < WIDTH ::
                        localMapCache[k, i] ==
                        if i < WIDTH - 1 && ((starty <= k < y) || (k == y && i < x)) then old(localMapCache[k, i + 1])
                        else old(localMapCache[k, i])
          {
            localMapCache[y, x] := localMapCache[y, x + 1];
          }
        }
        FillColumn(tiles, MAX_WIDTH);
      } else if oldPos.x > newPos.x {
        for y := starty to if starty <= endy then endy + 1 else starty
          invariant forall k, x | 0 <= k < HEIGHT && 0 <= x < WIDTH ::
                      localMapCache[k, x] == if starty <= k < y && x > 0 then old(localMapCache[k, x - 1])
                          else old(localMapCache[k, x])
        {
          for x := WIDTH - 1 downto 0
            invariant forall k, i | 0 <= k < HEIGHT && 0 <= i < WIDTH ::
                        localMapCache[k, i] ==
                        if i > 0 && ((starty <= k < y) || (k == y && i > x)) then old(localMapCache[k, i - 1])
                        else old(localMapCache[k, i])
          {
            localMapCache[y, x + 1] := localMapCache[y, x];
          }
        }
        FillColumn(tiles, -MAX_WIDTH);
      }
    }

    /** onCreatureMove for the creature itself, after the map has moved it. */
    method OnCreatureMove(newPos: Position, oldPos: Position, teleport: bool, tiles: Walkable, ghost s: State)
      requires Valid() && Shows(s.c) && isMapLoaded == s.loaded && s.me == oldPos && position == newPos
      modifies localMapCache
      ensures Is(Step(s, Move(newPos, teleport, tiles)))
    {
      if isMapLoaded {
        if teleport || oldPos.z != newPos.z {
          UpdateMapCache(tiles, s.c);
        } else {
          ShiftRows(tiles, oldPos, newPos, s.c);
          ShiftColumns(tiles, oldPos, newPos, s.c);
          UpdateTileCacheAt(tiles(oldPos), oldPos.x - position.x, oldPos.y - position.y);
        }
      }
    }

    /** onCreatureMove for another creature. */
    method OnOtherCreatureMove(newPos: Position, oldPos: Position, tiles: Walkable, ghost s: State)
      requires Valid() && Is(s)
      modifies localMapCache
      ensures Is(Step(s, OtherMove(oldPos, newPos, tiles)))
    {
      if isMapLoaded {
        UpdateTileCache(tiles(newPos), newPos, s.c);
        UpdateTileCache(tiles(oldPos), oldPos, Refreshed(s.c, position, newPos, tiles(newPos)));
      }
    }

    /** The first part of onThink. */
    method OnThink(tiles: Walkable, ghost s: State)
      requires Valid() && Is(s) && s.w == tiles
      modifies this, localMapCache
      ensures Valid() && Is(Step(s, Think(usesCacheMap)))
    {
      if !isMapLoaded && usesCacheMap {
        isMapLoaded := true;
        UpdateMapCache(tiles, s.c);
      }
    }

    /** onAddTileItem, onUpdateTileItem and onRemoveTileItem: blocks tells whether the item types matter to walking. */
    method OnTileChange(pos: Position, answer: bool, blocks: bool, ghost s: State)
      requires Valid() && Is(s)
      modifies localMapCache
      ensures Is(Step(s, TileChange(pos, answer, blocks)))
    {
      if isMapLoaded && blocks {
        UpdateTileCache(answer, pos, s.c);
      }
    }

    /** getWalkCache: 0 no, 1 yes, 2 unknown. A window that agrees answers as the tile would. */
    method GetWalkCache(pos: Position, ghost s: State) returns (r: int)
      requires Valid() && Is(s)
      ensures r == 2 <==> !usesCacheMap || (pos.z == position.z && !InWindow(pos.y - position.y, pos.x - position.x))
      ensures r != 2 && pos.z != position.z ==> r == 0
      ensures r != 2 && pos == position ==> r == 1
      ensures r != 2 && pos.z == position.z && pos != position && Agrees(s.c, s.w, s.me) ==>
                r == if s.w(pos) then 1 else 0
    {
      if !usesCacheMap {
        return 2;
      }
      if position.z != pos.z {
        return 0;
      }
      if pos == position {
        return 1;
      }
      var dx, dy := pos.x - position.x, pos.y - position.y;
      if Distance(dx, 0) <= MAX_WIDTH && Distance(dy, 0) <= MAX_HEIGHT {
        assert s.c(dy, dx) == localMapCache[MAX_HEIGHT + dy, MAX_WIDTH + dx];
        assert Agrees(s.c, s.w, s.me) ==> AgreesAt(s.c, s.w, s.me, dy, dx);
        return if localMapCache[MAX_HEIGHT + dy, MAX_WIDTH + dx] then 1 else 0;
      }
      r := 2;
    }
  }

  /** A coordinate that was narrowed lies outside the window. */
  lemma NarrowedIsFar(me: Position, dy: int, dx: int)
    requires InWindow(dy, dx)
    ensures var pos := TileAt(me, dy, dx);
            if OnMap(me, dy, dx) then pos.x - me.x == dx && pos.y - me.y == dy
            else !InWindow(pos.y - me.y, pos.x - me.x)
  {
  }
}
