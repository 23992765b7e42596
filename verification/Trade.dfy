/** The trade protocol of src/game.cpp: request, accept and close over the players' trade fields and tradeItems. */
module Trade {
  import opened ItemTypes

  /** tradestate_t of src/player.h */
  datatype TradeState = TRADE_NONE | TRADE_INITIATED | TRADE_ACCEPT | TRADE_ACKNOWLEDGE | TRADE_TRANSFER

  datatype Item = Item(serial: nat)

  datatype Place = OnPlayer(id: nat) | Elsewhere

  /** The trade fields of one player. */
  datatype Seat = Seat(state: TradeState, partner: Option<nat>, item: Option<Item>)

  const IDLE: Seat := Seat(TRADE_NONE, None, None)

  /** Which items are containers, and the pairs (container, descendant) that isHoldingItem answers yes for. */
  datatype Nesting = Nesting(containers: set<Item>, holds: set<(Item, Item)>)

  ghost predicate NestingOk(n: Nesting) {
    forall c, i {:trigger (c, i) in n.holds} :: (c, i) in n.holds ==> c in n.containers
  }

  /** All that the protocol touches: seats, the index of offered items, counted references, and where items are. */
  datatype World = World(
    seats: map<nat, Seat>, offered: map<Item, nat>, references: multiset<Item>, toRelease: seq<Item>,
    nesting: Nesting, place: map<Item, Place>)

  // ----- the steps -----

  ghost function StartTrade(w: World, p: nat, q: nat, item: Item): World
    requires p in w.seats && q in w.seats
  {
    var mine, theirs := w.seats[p], w.seats[q];
    if mine.state != TRADE_NONE && !(mine.state == TRADE_ACKNOWLEDGE && mine.partner == Some(q)) then
      w
    else if theirs.state != TRADE_NONE && theirs.partner != Some(p) then
      w
    else
      var seats := w.seats[p := Seat(TRADE_INITIATED, Some(q), Some(item))];
      w.(seats := if theirs.state == TRADE_NONE then seats[q := Seat(TRADE_ACKNOWLEDGE, Some(p), theirs.item)]
          else seats,
         offered := w.offered[item := p], references := w.references + multiset{item})
  }

  /** The item is on offer, or one that is on offer is inside it or around it. */
  ghost predicate Entangled(offered: map<Item, nat>, nesting: Nesting, item: Item) {
    exists other ::
        other in offered && (other == item || (item, other) in nesting.holds || (other, item) in nesting.holds)
  }

  function Held(nesting: Nesting, item: Item): set<Item> {
    set pair | pair in nesting.holds && pair.0 == item :: pair.1
  }

  ghost function Request(w: World, p: nat, q: nat, thing: Option<Item>, allowed: bool): World {
    if p !in w.seats || q !in w.seats || p == q || thing == None || !allowed then
      w
    else if Entangled(w.offered, w.nesting, thing.value) || |Held(w.nesting, thing.value)| + 1 > 100 then
      w
    else
      StartTrade(w, p, q, thing.value)
  }

  /** An item leaves the index, and the reference counted for it waits to be given up. */
  ghost function Unlist(w: World, item: Option<Item>): World {
    if item.Some? && item.value in w.offered then
      w.(offered := w.offered - {item.value}, toRelease := w.toRelease + [item.value])
    else
      w
  }

  ghost function Withdraw(w: World, p: nat): World
    requires p in w.seats
  {
    var v := Unlist(w, w.seats[p].item);
    v.(seats := v.seats[p := IDLE])
  }

  ghost predicate PartnerThere(w: World, p: nat) {
    p in w.seats && (w.seats[p].partner.Some? ==> w.seats[p].partner.value in w.seats)
  }

  ghost predicate Transferring(w: World, p: nat) {
    p in w.seats && w.seats[p].state == TRADE_TRANSFER
  }

  ghost function InternalClose(w: World, p: nat): World
    requires PartnerThere(w, p)
  {
    var partner := w.seats[p].partner;
    if Transferring(w, p) || (partner.Some? && Transferring(w, partner.value)) then
      w
    else if partner.Some? then
      Withdraw(Withdraw(w, p), partner.value)
    else
      Withdraw(w, p)
  }

  ghost function Close(w: World, p: nat): World
    requires Inv(w)
  {
    if p in w.seats then
      assert SeatOk(w.seats, w.offered, p);
      InternalClose(w, p)
    else w
  }

  /** What the rest of the server answers while a trade is settled: yes or no to each question. */
  datatype Answers = Answers(
    canThrow: bool, eventAllows: bool, playerBackpack: Option<Item>, partnerBackpack: Option<Item>,
    playerSlotTaken: bool, partnerSlotTaken: bool, fitsPartner: bool, fitsPlayer: bool,
    playerItemRemovable: bool, partnerItemRemovable: bool, firstMove: bool, secondMove: bool)

  /** When a settled trade is reported as a success. */
  ghost predicate Succeeds(mine: Option<Item>, theirs: Option<Item>, a: Answers) {
    && (a.partnerBackpack == theirs ==> !a.partnerSlotTaken)
    && (a.playerBackpack == mine ==> !a.playerSlotTaken)
    && !(a.playerBackpack == mine && a.partnerBackpack == theirs)
    && mine.Some? && theirs.Some? && a.fitsPartner && a.fitsPlayer
    && a.playerItemRemovable && a.partnerItemRemovable && a.firstMove
  }

  ghost function Exchanged(
      place: map<Item, Place>, p: nat, q: nat, mine: Item, theirs: Item, second: bool): map<Item, Place>
  {
    if second then place[mine := OnPlayer(q)][theirs := OnPlayer(p)] else place[mine := OnPlayer(q)]
  }

  ghost function Settle(w: World, p: nat, q: nat, a: Answers): World
    requires p in w.seats && q in w.seats
  {
    var mine, theirs := w.seats[p].item, w.seats[q].item;
    var v := Unlist(Unlist(w, mine), theirs);
    v.(seats := v.seats[p := IDLE][q := IDLE],
       place := if Succeeds(mine, theirs, a) then Exchanged(v.place, p, q, mine.value, theirs.value, a.secondMove)
           else v.place)
  }

  ghost predicate MayAccept(w: World, p: nat) {
    && p in w.seats && (w.seats[p].state == TRADE_ACKNOWLEDGE || w.seats[p].state == TRADE_INITIATED)
    && w.seats[p].partner.Some?
  }

  /** The state after a player has accepted and before the partner is looked at. */
  ghost function Accepting(w: World, p: nat): World
    requires p in w.seats
  {
    w.(seats := w.seats[p := w.seats[p].(state := TRADE_ACCEPT)])
  }

  ghost function Accept(w: World, p: nat, a: Answers): World
    requires Inv(w)
  {
    if !MayAccept(w, p) then
      w
    else
      assert SeatOk(w.seats, w.offered, p);
      Answered(Accepting(w, p), p, w.seats[p].partner.value, a)
  }

  /** The first to accept waits; the second settles the trade, or closes it when it cannot be settled. */
  ghost function Answered(v: World, p: nat, q: nat, a: Answers): World
    requires PartnerThere(v, p) && q in v.seats
  {
    if v.seats[q].state != TRADE_ACCEPT then v
    else if !a.canThrow || !a.eventAllows then InternalClose(v, p)
    else Settle(v, p, q, a)
  }

  /** cleanup: the references that wait are given up. */
  ghost function CleanedUp(w: World): World {
    w.(references := w.references - multiset(w.toRelease), toRelease := [])
  }

  ghost function Join(w: World, p: nat): World {
    if p in w.seats then w else w.(seats := w.seats[p := IDLE])
  }

  /** A player who leaves closes the trade first. */
  ghost function Leave(w: World, p: nat): World
    requires Inv(w)
  {
    if p !in w.seats then w
    else
      assert SeatOk(w.seats, w.offered, p);
      var v := if w.seats[p].partner.Some? then InternalClose(w, p) else w;
      v.(seats := v.seats - {p})
  }

  /** The rest of the game moves items about; what is on offer keeps its place among the others on offer. */
  ghost predicate Undisturbed(w: World, n: Nesting) {
    && NestingOk(n)
    && forall a, b | a in w.offered && b in w.offered :: (a, b) in n.holds <==> (a, b) in w.nesting.holds
  }

  ghost function Rearrange(w: World, n: Nesting): World {
    if Undisturbed(w, n) then w.(nesting := n) else w
  }

  datatype Event =
    | Requested(p: nat, q: nat, thing: Option<Item>, allowed: bool)
    | Accepted(p: nat, answers: Answers)
    | Closed(p: nat)
    | Cleaned
    | Joined(p: nat)
    | Left(p: nat)
    | Rearranged(nesting: Nesting)

  ghost function Step(w: World, e: Event): World
    requires Inv(w)
  {
    match e
    case Requested(p, q, thing, allowed) => Request(w, p, q, thing, allowed)
    case Accepted(p, answers) => Accept(w, p, answers)
    case Closed(p) => Close(w, p)
    case Cleaned => CleanedUp(w)
    case Joined(p) => Join(w, p)
    case Left(p) => Leave(w, p)
    case Rearranged(nesting) => Rearrange(w, nesting)
  }

  // ----- the invariant -----

  /** One seat at rest: a partner iff a trade is on, an item when the trade was requested, never in transfer. */
  ghost predicate AtRest(s: Seat) {
    && (s.state == TRADE_NONE <==> s.partner == None)
    && (s.state == TRADE_NONE || s.state == TRADE_ACKNOWLEDGE ==> s.item == None)
    && (s.state == TRADE_INITIATED ==> s.item.Some?)
    && s.state != TRADE_TRANSFER
  }

  /** Two partners: not both have accepted, and one of them offers something. */
  ghost predicate Matched(s: Seat, t: Seat) {
    && !(s.state == TRADE_ACCEPT && t.state == TRADE_ACCEPT)
    && (s.item.Some? || t.item.Some?)
  }

  /** The two seats name each other and go together. */
  ghost predicate Paired(seats: map<nat, Seat>, p: nat, q: nat) {
    && p != q && p in seats && q in seats
    && seats[p].partner == Some(q) && seats[q].partner == Some(p) && Matched(seats[p], seats[q])
  }

  /** What is offered from a seat is in the index under its player. */
  ghost predicate Indexed(s: Seat, p: nat, offered: map<Item, nat>) {
    s.item.Some? ==> s.item.value in offered && offered[s.item.value] == p
  }

  ghost predicate SeatOk(seats: map<nat, Seat>, offered: map<Item, nat>, p: nat) {
    && p in seats && AtRest(seats[p]) && Indexed(seats[p], p, offered)
    && (seats[p].partner.Some? ==> Paired(seats, p, seats[p].partner.value))
  }

  /** What is in the index is offered by the player it names. */
  ghost predicate OfferOk(seats: map<nat, Seat>, offered: map<Item, nat>, i: Item) {
    i in offered && offered[i] in seats && seats[offered[i]].item == Some(i)
  }

  ghost predicate SeatsOk(seats: map<nat, Seat>, offered: map<Item, nat>) {
    && (forall p {:trigger SeatOk(seats, offered, p)} | p in seats :: SeatOk(seats, offered, p))
    && (forall i {:trigger OfferOk(seats, offered, i)} | i in offered :: OfferOk(seats, offered, i))
  }

  /** No offered item is inside another one. */
  ghost predicate Apart(offered: map<Item, nat>, n: Nesting) {
    && NestingOk(n)
    && forall a, b {:trigger (a, b) in n.holds} | a in offered && b in offered && a != b :: (a, b) !in n.holds
  }

  /** One reference is counted for every offered item, and one for each that waits to be given up. */
  ghost predicate ReferencesOk(w: World) {
    w.references == multiset(w.offered.Keys) + multiset(w.toRelease)
  }

  ghost predicate Inv(w: World) {
    SeatsOk(w.seats, w.offered) && Apart(w.offered, w.nesting) && ReferencesOk(w)
  }

  // ----- every step keeps it -----

  lemma OfferCounted(offered: map<Item, nat>, item: Item, p: nat)
    requires item !in offered
    ensures multiset(offered[item := p].Keys) == multiset(offered.Keys) + multiset{item}
  {
    assert offered[item := p].Keys == offered.Keys + {item};
  }

  /** The seats after a trade has been requested. */
  lemma StartSeats(w: World, p: nat, q: nat, item: Item)
    requires SeatsOk(w.seats, w.offered) && p in w.seats && q in w.seats && p != q && item !in w.offered
    ensures var v := StartTrade(w, p, q, item); SeatsOk(v.seats, v.offered)
  {
    var v := StartTrade(w, p, q, item);
    if v.offered != w.offered {
      assert SeatOk(w.seats, w.offered, p) && SeatOk(w.seats, w.offered, q);
      forall r | r in v.seats
        ensures SeatOk(v.seats, v.offered, r)
      {
        assert SeatOk(w.seats, w.offered, r);
        if r != p && r != q && w.seats[r].partner.Some? {
          assert Paired(w.seats, r, w.seats[r].partner.value);
          assert Paired(v.seats, r, v.seats[r].partner.value);
        }
      }
      forall i | i in v.offered
        ensures OfferOk(v.seats, v.offered, i)
      {
        if i != item {
          assert OfferOk(w.seats, w.offered, i);
        }
      }
    }
  }

  lemma StartKeeps(w: World, p: nat, q: nat, item: Item)
    requires Inv(w) && p in w.seats && q in w.seats && p != q && !Entangled(w.offered, w.nesting, item)
    ensures Inv(StartTrade(w, p, q, item))
  {
    assert item !in w.offered;
    StartSeats(w, p, q, item);
    OfferCounted(w.offered, item, p);
  }

  lemma RequestKeeps(w: World, p: nat, q: nat, thing: Option<Item>, allowed: bool)
    requires Inv(w)
    ensures Inv(Request(w, p, q, thing, allowed))
  {
    if p in w.seats && q in w.seats && p != q && thing.Some? && !Entangled(w.offered, w.nesting, thing.value) {
      StartKeeps(w, p, q, thing.value);
    }
  }

  lemma UnlistCounted(w: World, item: Option<Item>)
    requires ReferencesOk(w)
    ensures ReferencesOk(Unlist(w, item))
  {
    if item.Some? && item.value in w.offered {
      var v := Unlist(w, item);
      assert v.offered.Keys == w.offered.Keys - {item.value};
      assert multiset(w.offered.Keys) == multiset(v.offered.Keys) + multiset{item.value};
      assert v.toRelease[..|w.toRelease|] == w.toRelease;
    }
  }

  /** Two partners leave their seats: no trace of the trade is left, and no one else is touched. */
  ghost function Emptied(w: World, p: nat, q: nat): World
    requires p in w.seats && q in w.seats
  {
    var v := Unlist(Unlist(w, w.seats[p].item), w.seats[q].item);
    v.(seats := w.seats[p := IDLE][q := IDLE])
  }

  /** All seats but two are in order, and those two name each other. */
  ghost predicate SeatsOkBut(seats: map<nat, Seat>, offered: map<Item, nat>, p: nat, q: nat) {
    && p != q && p in seats && q in seats
    && Indexed(seats[p], p, offered) && Indexed(seats[q], q, offered)
    && (forall r {:trigger SeatOk(seats, offered, r)} | r in seats && r != p && r != q ::
          SeatOk(seats, offered, r) && seats[r].partner != Some(p) && seats[r].partner != Some(q))
    && (forall i {:trigger OfferOk(seats, offered, i)} | i in offered :: OfferOk(seats, offered, i))
  }

  lemma EmptiedSeats(w: World, p: nat, q: nat)
    requires SeatsOkBut(w.seats, w.offered, p, q)
    ensures var v := Emptied(w, p, q); SeatsOk(v.seats, v.offered)
  {
    var v := Emptied(w, p, q);
    forall r | r in v.seats
      ensures SeatOk(v.seats, v.offered, r)
    {
      if r != p && r != q {
        assert SeatOk(w.seats, w.offered, r) && v.seats[r] == w.seats[r];
        if w.seats[r].partner.Some? {
          assert Paired(w.seats, r, w.seats[r].partner.value);
          assert Paired(v.seats, r, v.seats[r].partner.value);
        }
      }
    }
    forall i | i in v.offered
      ensures OfferOk(v.seats, v.offered, i)
    {
      assert OfferOk(w.seats, w.offered, i);
    }
  }

  lemma EmptiedKeeps(w: World, p: nat, q: nat)
    requires SeatsOkBut(w.seats, w.offered, p, q) && Apart(w.offered, w.nesting) && ReferencesOk(w)
    ensures Inv(Emptied(w, p, q))
  {
    EmptiedSeats(w, p, q);
    UnlistCounted(w, w.seats[p].item);
    UnlistCounted(Unlist(w, w.seats[p].item), w.seats[q].item);
  }

  lemma PartnersApart(seats: map<nat, Seat>, offered: map<Item, nat>, p: nat)
    requires SeatsOk(seats, offered) && p in seats && seats[p].partner.Some?
    ensures SeatsOkBut(seats, offered, p, seats[p].partner.value)
  {
    var q := seats[p].partner.value;
    assert SeatOk(seats, offered, p) && Paired(seats, p, q) && SeatOk(seats, offered, q);
    forall r | r in seats && r != p && r != q
      ensures SeatOk(seats, offered, r) && seats[r].partner != Some(p) && seats[r].partner != Some(q)
    {
      assert SeatOk(seats, offered, r);
      if seats[r].partner.Some? {
        assert Paired(seats, r, seats[r].partner.value);
      }
    }
  }

  /** Two withdrawals empty both seats. */
  lemma WithdrawBoth(w: World, p: nat, q: nat)
    requires p in w.seats && q in w.seats && p != q
    ensures q in Withdraw(w, p).seats && Withdraw(Withdraw(w, p), q) == Emptied(w, p, q)
  {
    assert Withdraw(w, p).seats[q] == w.seats[q];
  }

  /** Closing empties both seats, and nobody else's. */
  lemma CloseIs(w: World, p: nat)
    requires Inv(w) && p in w.seats
    ensures w.seats[p].partner.Some? ==> w.seats[p].partner.value in w.seats
    ensures Close(w, p) == if w.seats[p].partner.Some? then Emptied(w, p, w.seats[p].partner.value) else w
  {
    assert SeatOk(w.seats, w.offered, p);
    if w.seats[p].partner.Some? {
      var q := w.seats[p].partner.value;
      assert Paired(w.seats, p, q) && SeatOk(w.seats, w.offered, q);
      WithdrawBoth(w, p, q);
    } else {
      assert w.seats[p := IDLE] == w.seats;
    }
  }

  lemma CloseKeeps(w: World, p: nat)
    requires Inv(w)
    ensures Inv(Close(w, p))
  {
    if p in w.seats {
      CloseIs(w, p);
      if w.seats[p].partner.Some? {
        PartnersApart(w.seats, w.offered, p);
        EmptiedKeeps(w, p, w.seats[p].partner.value);
      }
    }
  }

  // ----- what happens while a trade is being transferred -----

  /** p and q have named each other and are both in transfer. */
  ghost predicate InTransfer(w: World, p: nat, q: nat) {
    && p != q && p in w.seats && q in w.seats
    && w.seats[p].state == TRADE_TRANSFER && w.seats[p].partner == Some(q)
    && w.seats[q].state == TRADE_TRANSFER && w.seats[q].partner == Some(p)
  }

  /** The calls that the moves and events of a settlement can lead back to; leaving closes the trade first. */
  datatype Call =
    | CloseCall(p: nat)
    | LeaveCall(p: nat)
    | AcceptCall(p: nat)
    | RequestCall(p: nat, q: nat, thing: Option<Item>, allowed: bool)

  /** A call by one of the two players, or a request made to one of them. */
  ghost predicate Concerns(c: Call, p: nat, q: nat) {
    c.p == p || c.p == q || (c.RequestCall? && (c.q == p || c.q == q))
  }

  /** What the call does; an acceptance as far as the partner is not yet looked at. */
  ghost function Called(w: World, c: Call): World {
    match c
    case CloseCall(p) => if PartnerThere(w, p) then InternalClose(w, p) else w
    case LeaveCall(p) => if PartnerThere(w, p) && w.seats[p].partner.Some? then InternalClose(w, p) else w
    case AcceptCall(p) => if MayAccept(w, p) then Accepting(w, p) else w
    case RequestCall(p, q, thing, allowed) => Request(w, p, q, thing, allowed)
  }

  ghost function AllCalled(w: World, calls: seq<Call>): World
    decreases |calls|
  {
    if calls == [] then w else AllCalled(Called(w, calls[0]), calls[1..])
  }

  /** Whatever the two players do, and whatever is asked of them, a transfer runs to its end undisturbed. */
  lemma {:induction false} TransferIsShielded(w: World, p: nat, q: nat, calls: seq<Call>)
    requires InTransfer(w, p, q) && forall i {:trigger calls[i]} | 0 <= i < |calls| :: Concerns(calls[i], p, q)
    ensures AllCalled(w, calls) == w
    decreases |calls|
  {
    if calls != [] {
      assert Concerns(calls[0], p, q);
      assert Called(w, calls[0]) == w;
      TransferIsShielded(w, p, q, calls[1..]);
    }
  }

  lemma AcceptingSeats(seats: map<nat, Seat>, offered: map<Item, nat>, p: nat, q: nat)
    requires SeatsOkBut(seats, offered, p, q)
    ensures SeatsOkBut(seats[p := seats[p].(state := TRADE_ACCEPT)], offered, p, q)
  {
    var seats' := seats[p := seats[p].(state := TRADE_ACCEPT)];
    forall r | r in seats' && r != p && r != q
      ensures SeatOk(seats', offered, r) && seats'[r].partner != Some(p) && seats'[r].partner != Some(q)
    {
      assert SeatOk(seats, offered, r);
      if seats[r].partner.Some? {
        assert Paired(seats, r, seats[r].partner.value);
        assert Paired(seats', r, seats'[r].partner.value);
      }
    }
    forall i | i in offered
      ensures OfferOk(seats', offered, i)
    {
      assert OfferOk(seats, offered, i);
    }
  }

  /** The first to accept waits for the other. */
  lemma WaitingSeats(w: World, p: nat)
    requires SeatsOk(w.seats, w.offered) && MayAccept(w, p) && PartnerThere(w, p)
    requires w.seats[w.seats[p].partner.value].state != TRADE_ACCEPT
    ensures SeatsOk(Accepting(w, p).seats, w.offered)
  {
    var q, seats := w.seats[p].partner.value, Accepting(w, p).seats;
    assert SeatOk(w.seats, w.offered, p) && Paired(w.seats, p, q) && SeatOk(w.seats, w.offered, q);
    PartnersApart(w.seats, w.offered, p);
    AcceptingSeats(w.seats, w.offered, p, q);
    assert Paired(seats, p, q) && Paired(seats, q, p);
    assert SeatOk(seats, w.offered, p) && SeatOk(seats, w.offered, q);
    forall r | r in seats
      ensures SeatOk(seats, w.offered, r)
    {
    }
  }

  lemma AcceptKeeps(w: World, p: nat, a: Answers)
    requires Inv(w)
    ensures Inv(Accept(w, p, a))
  {
    if MayAccept(w, p) {
      assert SeatOk(w.seats, w.offered, p);
      var v, q := Accepting(w, p), w.seats[p].partner.value;
      assert Paired(w.seats, p, q) && SeatOk(w.seats, w.offered, q);
      if v.seats[q].state != TRADE_ACCEPT {
        WaitingSeats(w, p);
      } else {
        PartnersApart(w.seats, w.offered, p);
        AcceptingSeats(w.seats, w.offered, p, q);
        EmptiedKeeps(v, p, q);
        WithdrawBoth(v, p, q);
        assert Settle(v, p, q, a).(place := w.place) == Emptied(v, p, q);
      }
    }
  }

  lemma LeaveKeeps(w: World, p: nat)
    requires Inv(w)
    ensures Inv(Leave(w, p))
  {
    if p in w.seats {
      CloseKeeps(w, p);
      CloseIs(w, p);
      var v, u := Close(w, p), Leave(w, p);
      assert v.seats[p].partner == None && u == v.(seats := v.seats - {p});
      assert SeatOk(v.seats, v.offered, p);
      forall r | r in u.seats
        ensures SeatOk(u.seats, u.offered, r)
      {
        assert SeatOk(v.seats, v.offered, r);
        if v.seats[r].partner.Some? {
          assert Paired(v.seats, r, v.seats[r].partner.value);
          assert Paired(u.seats, r, u.seats[r].partner.value);
        }
      }
      forall i | i in u.offered
        ensures OfferOk(u.seats, u.offered, i)
      {
        assert OfferOk(v.seats, v.offered, i);
      }
    }
  }

  lemma CleanupKeeps(w: World)
    requires Inv(w)
    ensures Inv(CleanedUp(w)) && CleanedUp(w).references == multiset(w.offered.Keys)
  {
  }

  lemma JoinKeeps(w: World, p: nat)
    requires Inv(w)
    ensures Inv(Join(w, p))
  {
    if p !in w.seats {
      var v := Join(w, p);
      forall r | r in v.seats
        ensures SeatOk(v.seats, v.offered, r)
      {
        if r != p {
          assert SeatOk(w.seats, w.offered, r);
          if w.seats[r].partner.Some? {
            assert Paired(w.seats, r, w.seats[r].partner.value);
            assert Paired(v.seats, r, v.seats[r].partner.value);
          }
        }
      }
      forall i | i in v.offered
        ensures OfferOk(v.seats, v.offered, i)
      {
        assert OfferOk(w.seats, w.offered, i);
      }
    }
  }

  lemma StepKeeps(w: World, e: Event)
    requires Inv(w)
    ensures Inv(Step(w, e))
  {
    match e
    case Requested(p, q, thing, allowed) => RequestKeeps(w, p, q, thing, allowed);
    case Accepted(p, answers) => AcceptKeeps(w, p, answers);
    case Closed(p) => CloseKeeps(w, p);
    case Cleaned => CleanupKeeps(w);
    case Joined(p) => JoinKeeps(w, p);
    case Left(p) => LeaveKeeps(w, p);
    case Rearranged(nesting) =>
  }

  // ----- whole runs -----

  ghost predicate Begins(w: World) {
    w.seats == map[] && w.offered == map[] && w.references == multiset{} && w.toRelease == [] && NestingOk(w.nesting)
  }

  ghost predicate Follows(w: World, e: Event, v: World) {
    Inv(w) ==> v == Step(w, e)
  }

  /** The worlds before, between and after the events. */
  ghost predicate Run(worlds: seq<World>, events: seq<Event>) {
    && |worlds| == |events| + 1 && Begins(worlds[0])
    && forall i {:trigger Follows(worlds[i], events[i], worlds[i + 1])} | 0 <= i < |events| ::
         Follows(worlds[i], events[i], worlds[i + 1])
  }

  /** The invariant holds all the way. */
  lemma {:induction false} RunKeeps(worlds: seq<World>, events: seq<Event>, i: nat)
    requires Run(worlds, events) && i <= |events|
    ensures Inv(worlds[i])
  {
    if i > 0 {
      var h := i - 1;
      RunKeeps(worlds, events, h);
      assert Follows(worlds[h], events[h], worlds[h + 1]);
      StepKeeps(worlds[h], events[h]);
    }
  }

  /** Accepting first waits; accepting second empties both seats, and moves items only when the settlement succeeds. */
  lemma AcceptIs(w: World, p: nat, a: Answers)
    requires Inv(w) && MayAccept(w, p)
    ensures PartnerThere(w, p) && w.seats[p].partner.value != p
    ensures var q := w.seats[p].partner.value;
            if w.seats[q].state != TRADE_ACCEPT then
              Accept(w, p, a) == Accepting(w, p)
            else
              && Accept(w, p, a).seats == w.seats[p := IDLE][q := IDLE]
              && Accept(w, p, a).place ==
                 (if a.canThrow && a.eventAllows && Succeeds(w.seats[p].item, w.seats[q].item, a) then
                    Exchanged(w.place, p, q, w.seats[p].item.value, w.seats[q].item.value, a.secondMove)
                  else w.place)
  {
    assert SeatOk(w.seats, w.offered, p);
    var v, q := Accepting(w, p), w.seats[p].partner.value;
    assert Paired(w.seats, p, q) && SeatOk(w.seats, w.offered, q);
    if v.seats[q].state == TRADE_ACCEPT {
      WithdrawBoth(v, p, q);
      assert v.seats[p := IDLE][q := IDLE] == w.seats[p := IDLE][q := IDLE];
    }
  }

  /**
   The backpack test looks up the slot of the other side's item. It has an item to look up in every settlement but
   those in which one side offers its equipped backpack and the other side nothing.
   */
  ghost predicate LookupsDefined(mine: Option<Item>, theirs: Option<Item>, a: Answers) {
    (a.partnerBackpack == theirs ==> mine.Some?) && (a.playerBackpack == mine ==> theirs.Some?)
  }

  lemma WhenLookupsAreDefined(w: World, p: nat, a: Answers)
    requires Inv(w) && MayAccept(w, p) && PartnerThere(w, p)
    ensures var mine, theirs := w.seats[p].item, w.seats[w.seats[p].partner.value].item;
            && (LookupsDefined(mine, theirs, a) <==>
                  !(theirs.Some? && a.partnerBackpack == theirs && mine == None)
                  && !(mine.Some? && a.playerBackpack == mine && theirs == None))
            && (Succeeds(mine, theirs, a) ==> LookupsDefined(mine, theirs, a))
  {
    assert SeatOk(w.seats, w.offered, p) && Paired(w.seats, p, w.seats[p].partner.value);
  }

  ghost predicate SeatIs(w: World, q: nat, s: Seat) {
    q in w.seats && w.seats[q] == s
  }

  /** One more event at the end of a run. */
  lemma Extended(worlds: seq<World>, events: seq<Event>, e: Event) returns (ws: seq<World>, es: seq<Event>)
    requires Run(worlds, events)
    ensures Inv(worlds[|events|]) && ws == worlds + [Step(worlds[|events|], e)] && es == events + [e] && Run(ws, es)
  {
    RunKeeps(worlds, events, |events|);
    ws, es := worlds + [Step(worlds[|events|], e)], events + [e];
    forall i {:trigger Follows(ws[i], es[i], ws[i + 1])} | 0 <= i < |es|
      ensures Follows(ws[i], es[i], ws[i + 1])
    {
      if i < |events| {
        assert Follows(worlds[i], events[i], worlds[i + 1]);
      }
    }
  }

  lemma TwoJoined(p: nat, q: nat) returns (worlds: seq<World>, events: seq<Event>)
    requires p != q
    ensures Run(worlds, events) && |events| == 2
    ensures worlds[2] == World(map[p := IDLE, q := IDLE], map[], multiset{}, [], Nesting({}, {}), map[])
  {
    var start := World(map[], map[], multiset{}, [], Nesting({}, {}), map[]);
    worlds, events := Extended([start], [], Joined(p));
    assert worlds[1].seats == map[p := IDLE];
    worlds, events := Extended(worlds, events, Joined(q));
  }

  /** A request out of the blue, of an item that has nothing to do with those on offer. */
  lemma RequestIs(w: World, p: nat, q: nat, item: Item)
    requires p != q && p in w.seats && q in w.seats && w.nesting == Nesting({}, {}) && item !in w.offered
    ensures Request(w, p, q, Some(item), true) == StartTrade(w, p, q, item)
  {
    assert Held(w.nesting, item) == {};
  }

  /** Two players have joined, one has requested a trade, and has accepted it before there was anything in return. */
  lemma EarlyAcceptance(p: nat, q: nat, item: Item, a: Answers) returns (worlds: seq<World>, events: seq<Event>)
    requires p != q
    ensures Run(worlds, events) && |events| == 4 && events[3] == Accepted(p, a)
    ensures SeatIs(worlds[3], q, Seat(TRADE_ACKNOWLEDGE, Some(p), None))
    ensures SeatIs(worlds[4], q, Seat(TRADE_ACKNOWLEDGE, Some(p), None))
    ensures SeatIs(worlds[4], p, Seat(TRADE_ACCEPT, Some(q), Some(item)))
    ensures worlds[4].offered == map[item := p] && worlds[4].nesting == Nesting({}, {})
  {
    worlds, events := TwoJoined(p, q);
    RequestIs(worlds[2], p, q, item);
    worlds, events := Extended(worlds, events, Requested(p, q, Some(item), true));
    var w := worlds[3];
    assert SeatIs(w, q, Seat(TRADE_ACKNOWLEDGE, Some(p), None));
    assert SeatIs(w, p, Seat(TRADE_INITIATED, Some(q), Some(item)));
    assert w.offered == map[item := p] && w.nesting == Nesting({}, {});
    RunKeeps(worlds, events, 3);
    AcceptIs(w, p, a);
    worlds, events := Extended(worlds, events, Accepted(p, a));
    assert worlds[4] == Accepting(w, p);
  }

  /**
   A run after which the second acceptance is due from a player who offers nothing. With the answers b it comes to the
   settlement, and there the backpack test has no item to look up.
   */
  lemma NothingOfferedInReturn(p: nat, q: nat, item: Item, a: Answers)
    returns (worlds: seq<World>, events: seq<Event>, b: Answers)
    requires p != q
    ensures Run(worlds, events) && |worlds| > 0
    ensures var w := worlds[|worlds| - 1];
            && MayAccept(w, q) && w.seats[q].item == None && w.seats[q].partner == Some(p)
            && p in w.seats && w.seats[p] == Seat(TRADE_ACCEPT, Some(q), Some(item))
            && b.canThrow && b.eventAllows && !LookupsDefined(w.seats[q].item, w.seats[p].item, b)
  {
    worlds, events := EarlyAcceptance(p, q, item, a);
    b := Answers(true, true, None, Some(item), false, false, true, true, true, true, true, true);
  }

  /** Where a lookup has no item the answer in its place makes no difference. */
  lemma LookupsDoNotDecide(w: World, p: nat, q: nat, a: Answers, b: Answers)
    requires p in w.seats && q in w.seats && (w.seats[p].item == None || w.seats[q].item == None)
    ensures Settle(w, p, q, a) == Settle(w, p, q, b)
  {
  }

  lemma CloseMovesNothing(w: World, p: nat)
    requires Inv(w)
    ensures Close(w, p).place == w.place && Leave(w, p).place == w.place
  {
    if p in w.seats {
      CloseIs(w, p);
    }
  }

  lemma OnlyAcceptMoves(w: World, e: Event)
    requires Inv(w) && Step(w, e).place != w.place
    ensures e.Accepted? && MayAccept(w, e.p)
  {
    if e.Closed? || e.Left? {
      CloseMovesNothing(w, e.p);
    } else if e.Requested? {
      RequestMovesNothing(w, e.p, e.q, e.thing, e.allowed);
    }
  }

  lemma RequestMovesNothing(w: World, p: nat, q: nat, thing: Option<Item>, allowed: bool)
    ensures Request(w, p, q, thing, allowed).place == w.place
  {
  }

  /** Items change places only when both partners offered one and both accepted, and then only those two do. */
  lemma MovesAreExchanges(w: World, e: Event)
    requires Inv(w) && Step(w, e).place != w.place
    ensures e.Accepted? && MayAccept(w, e.p) && PartnerThere(w, e.p) && w.seats[e.p].partner.value != e.p
    ensures var mine, theirs := w.seats[e.p], w.seats[w.seats[e.p].partner.value];
            && theirs.state == TRADE_ACCEPT && mine.state == TRADE_INITIATED && theirs.partner == Some(e.p)
            && mine.item.Some? && theirs.item.Some? && mine.item != theirs.item
            && Step(w, e).place
               == Exchanged(w.place, e.p, mine.partner.value, mine.item.value, theirs.item.value, e.answers.secondMove)
  {
    OnlyAcceptMoves(w, e);
    AcceptIs(w, e.p, e.answers);
    var q := w.seats[e.p].partner.value;
    assert SeatOk(w.seats, w.offered, e.p) && Paired(w.seats, e.p, q) && SeatOk(w.seats, w.offered, q);
  }

  /** The answers under which two offered items change hands, asked one by one. */
  lemma TransferNeedsEveryAnswer(w: World, e: Event)
    requires Inv(w) && Step(w, e).place != w.place
    ensures e.Accepted? && MayAccept(w, e.p) && PartnerThere(w, e.p)
    ensures var mine, theirs, a := w.seats[e.p].item, w.seats[w.seats[e.p].partner.value].item, e.answers;
            && a.canThrow && a.eventAllows && a.fitsPartner && a.fitsPlayer
            && a.playerItemRemovable && a.partnerItemRemovable && a.firstMove
            && (a.playerBackpack != mine || a.partnerBackpack != theirs)
            && (a.playerBackpack == mine ==> !a.playerSlotTaken)
            && (a.partnerBackpack == theirs ==> !a.partnerSlotTaken)
  {
    MovesAreExchanges(w, e);
    AcceptIs(w, e.p, e.answers);
  }

  /** Conversely they do change hands then: the accepting player's item first, the partner's if its move succeeds. */
  lemma EveryAnswerTransfers(w: World, p: nat, a: Answers, q: nat, mine: Item, theirs: Item)
    requires Inv(w) && MayAccept(w, p) && w.seats[p].partner == Some(q) && w.seats[p].item == Some(mine)
    requires SeatIs(w, q, Seat(TRADE_ACCEPT, Some(p), Some(theirs)))
    requires a.canThrow && a.eventAllows && a.fitsPartner && a.fitsPlayer
    requires a.playerItemRemovable && a.partnerItemRemovable && a.firstMove
    requires a.playerBackpack != Some(mine) || a.partnerBackpack != Some(theirs)
    requires a.playerBackpack == Some(mine) ==> !a.playerSlotTaken
    requires a.partnerBackpack == Some(theirs) ==> !a.partnerSlotTaken
    ensures var place := Accept(w, p, a).place;
            && mine != theirs && mine in place && place[mine] == OnPlayer(q)
            && (a.secondMove ==> theirs in place && place[theirs] == OnPlayer(p))
            && (!a.secondMove && theirs in place ==> theirs in w.place && place[theirs] == w.place[theirs])
            && forall i | i in w.place && i != mine && i != theirs :: i in place && place[i] == w.place[i]
  {
    AcceptIs(w, p, a);
    assert SeatOk(w.seats, w.offered, p) && SeatOk(w.seats, w.offered, q);
  }

  /** What a request needs to be taken up, and what it then sets; everything else stays. */
  lemma RequestTakenUp(w: World, p: nat, q: nat, thing: Option<Item>, allowed: bool)
    requires Inv(w)
    ensures var v := Request(w, p, q, thing, allowed);
            if && allowed && p != q && p in w.seats && q in w.seats && thing.Some?
               && |set pair | pair in w.nesting.holds && pair.0 == thing.value :: pair.1| < 100
               && (forall other | other in w.offered :: other != thing.value
                     && (thing.value, other) !in w.nesting.holds && (other, thing.value) !in w.nesting.holds)
               && (w.seats[p].state == TRADE_NONE
                   || (w.seats[p].state == TRADE_ACKNOWLEDGE && w.seats[p].partner == Some(q)))
               && (w.seats[q].state == TRADE_NONE || w.seats[q].partner == Some(p))
            then
              && SeatIs(v, p, Seat(TRADE_INITIATED, Some(q), thing))
              && SeatIs(v, q, if w.seats[q].state == TRADE_NONE then Seat(TRADE_ACKNOWLEDGE, Some(p), None)
                              else w.seats[q])
              && v.seats.Keys == w.seats.Keys
              && (forall r | r in w.seats && r != p && r != q :: SeatIs(v, r, w.seats[r]))
              && v.offered == w.offered[thing.value := p] && v.references == w.references + multiset{thing.value}
              && v == w.(seats := v.seats, offered := v.offered, references := v.references)
            else v == w
  {
    if p in w.seats && q in w.seats {
      assert SeatOk(w.seats, w.offered, p) && SeatOk(w.seats, w.offered, q);
    }
    if thing.Some? {
      assert Held(w.nesting, thing.value)
          == set pair | pair in w.nesting.holds && pair.0 == thing.value :: pair.1;
    }
  }

  lemma AcceptedByOneself(w: World, e: Event, q: nat)
    requires Inv(w) && q in Step(w, e).seats && Step(w, e).seats[q].state == TRADE_ACCEPT
    requires q !in w.seats || w.seats[q] != Step(w, e).seats[q]
    ensures e.Accepted? && e.p == q
    ensures q in w.seats && Step(w, e).seats[q] == w.seats[q].(state := TRADE_ACCEPT)
  {
    match e
    case Requested(p, r, thing, allowed) =>
    case Accepted(p, answers) =>
      if MayAccept(w, p) {
        AcceptIs(w, p, answers);
      }
    case Closed(p) => CloseSeats(w, p);
    case Cleaned =>
    case Joined(p) =>
    case Left(p) => CloseSeats(w, p);
    case Rearranged(nesting) =>
  }

  lemma CloseSeats(w: World, p: nat)
    requires Inv(w)
    ensures Close(w, p).seats.Keys == w.seats.Keys
    ensures forall r {:trigger Close(w, p).seats[r]} | r in w.seats ::
              Close(w, p).seats[r] == w.seats[r] || Close(w, p).seats[r] == IDLE
  {
    if p in w.seats {
      CloseIs(w, p);
      assert SeatOk(w.seats, w.offered, p);
    }
  }

  /** A seat that has accepted did so by an event of its own player, and has not changed since. */
  lemma {:induction false} ConsentIsGiven(worlds: seq<World>, events: seq<Event>, k: nat, q: nat, s: Seat)
    returns (j: nat)
    requires Run(worlds, events) && k <= |events| && SeatIs(worlds[k], q, s) && s.state == TRADE_ACCEPT
    ensures j < k && events[j].Accepted? && events[j].p == q
    ensures q in worlds[j].seats && worlds[j].seats[q] != s == worlds[j].seats[q].(state := TRADE_ACCEPT)
    ensures forall i {:trigger SeatIs(worlds[i], q, s)} | j < i <= k :: SeatIs(worlds[i], q, s)
  {
    if k > 0 {
      var h := k - 1;
      RunKeeps(worlds, events, h);
      assert Follows(worlds[h], events[h], worlds[h + 1]);
      if SeatIs(worlds[h], q, s) {
        j := ConsentIsGiven(worlds, events, h, q, s);
      } else {
        AcceptedByOneself(worlds[h], events[h], q);
        j := h;
      }
    }
  }

  /** While one partner's acceptance stands, what the other has offered stands too. */
  lemma OfferStays(w: World, e: Event, p: nat, q: nat, s: Seat)
    requires Inv(w) && SeatIs(w, q, s) && SeatIs(Step(w, e), q, s) && s.state == TRADE_ACCEPT && s.partner == Some(p)
    ensures p in w.seats && p in Step(w, e).seats
    ensures w.seats[p].item.Some? ==> Step(w, e).seats[p].item == w.seats[p].item
  {
    assert SeatOk(w.seats, w.offered, q) && Paired(w.seats, q, p) && SeatOk(w.seats, w.offered, p);
    if TakesNoPart(w, e, p) {
      BystandersSeat(w, e, p);
    } else if e.Accepted? && MayAccept(w, e.p) {
      AcceptIs(w, e.p, e.answers);
    } else if e.Closed? || e.Left? {
      assert e.p in w.seats && SeatOk(w.seats, w.offered, e.p);
      assert e.p == p || (Paired(w.seats, e.p, p) && e.p == q);
      CloseIs(w, e.p);
    }
  }

  lemma {:induction false} OfferStands(
      worlds: seq<World>, events: seq<Event>, j: nat, k: nat, p: nat, q: nat, s: Seat)
    requires Run(worlds, events) && j < k <= |events| && s.state == TRADE_ACCEPT && s.partner == Some(p)
    requires forall i {:trigger SeatIs(worlds[i], q, s)} | j < i <= k :: SeatIs(worlds[i], q, s)
    ensures p in worlds[j + 1].seats && p in worlds[k].seats
    ensures worlds[j + 1].seats[p].item.Some? ==> worlds[k].seats[p].item == worlds[j + 1].seats[p].item
  {
    assert SeatIs(worlds[k], q, s);
    RunKeeps(worlds, events, k);
    if j + 1 < k {
      var h := k - 1;
      OfferStands(worlds, events, j, h, p, q, s);
      RunKeeps(worlds, events, h);
      assert Follows(worlds[h], events[h], worlds[h + 1]) && SeatIs(worlds[h], q, s);
      OfferStays(worlds[h], events[h], p, q, s);
    } else {
      assert SeatOk(worlds[k].seats, worlds[k].offered, q) && Paired(worlds[k].seats, q, p);
    }
  }

  /** Whoever accepts first sees an offer of the partner, or sees that there is none yet. */
  lemma OfferAtAcceptance(w: World, a: Answers, p: nat, q: nat, s: Seat)
    requires Inv(w) && q in w.seats && SeatIs(Accept(w, q, a), q, s) && s.state == TRADE_ACCEPT && s.partner == Some(p)
    requires w.seats[q].(state := TRADE_ACCEPT) == s && w.seats[q] != s
    ensures p in w.seats && p in Accept(w, q, a).seats && Accept(w, q, a).seats[p] == w.seats[p]
    ensures w.seats[p].item.Some? <==> w.seats[p].state == TRADE_INITIATED
  {
    assert SeatOk(w.seats, w.offered, q) && Paired(w.seats, q, p) && SeatOk(w.seats, w.offered, p);
    if MayAccept(w, q) {
      AcceptIs(w, q, a);
    }
  }

  /**
   Whenever an event of a run makes an item change places, its player's partner had accepted by an event of his own
   earlier in the run, and has offered the item that now changes hands to that player ever since. The item that he
   gets in return is one that he saw when he accepted if and only if the trade stood as requested by both then.
   */
  lemma NoTransferWithoutConsent(worlds: seq<World>, events: seq<Event>, k: nat) returns (q: nat, j: nat, s: Seat)
    requires Run(worlds, events) && k < |events| && worlds[k + 1].place != worlds[k].place
    ensures events[k].Accepted? && s.partner == Some(events[k].p) && s.item.Some? && s.state == TRADE_ACCEPT
    ensures j < k && events[j].Accepted? && events[j].p == q && q != events[k].p
    ensures q in worlds[j].seats && worlds[j].seats[q].(state := TRADE_ACCEPT) == s
    ensures forall i {:trigger SeatIs(worlds[i], q, s)} | j < i <= k :: SeatIs(worlds[i], q, s)
    ensures events[k].p in worlds[j].seats && events[k].p in worlds[k].seats
    ensures worlds[j].seats[events[k].p].item == worlds[k].seats[events[k].p].item <==>
            worlds[j].seats[events[k].p].state == TRADE_INITIATED
  {
    RunKeeps(worlds, events, k);
    assert Follows(worlds[k], events[k], worlds[k + 1]);
    MovesAreExchanges(worlds[k], events[k]);
    var p := events[k].p;
    q := worlds[k].seats[p].partner.value;
    s := worlds[k].seats[q];
    j := ConsentIsGiven(worlds, events, k, q, s);
    RunKeeps(worlds, events, j);
    assert Follows(worlds[j], events[j], worlds[j + 1]) && SeatIs(worlds[j + 1], q, s);
    OfferAtAcceptance(worlds[j], events[j].answers, p, q, s);
    OfferStands(worlds, events, j, k, p, q, s);
  }

  /** The early acceptance, and after it a counter-offer. */
  lemma CounterOffered(p: nat, q: nat, item: Item, other: Item, a: Answers)
    returns (worlds: seq<World>, events: seq<Event>)
    requires p != q && item != other
    ensures Run(worlds, events) && |events| == 5
    ensures events[3] == Accepted(p, a) && SeatIs(worlds[3], q, Seat(TRADE_ACKNOWLEDGE, Some(p), None))
    ensures events[4] == Requested(q, p, Some(other), true)
    ensures SeatIs(worlds[5], q, Seat(TRADE_INITIATED, Some(p), Some(other)))
    ensures SeatIs(worlds[5], p, Seat(TRADE_ACCEPT, Some(q), Some(item)))
  {
    worlds, events := EarlyAcceptance(p, q, item, a);
    RequestIs(worlds[4], q, p, other);
    worlds, events := Extended(worlds, events, Requested(q, p, Some(other), true));
  }

  const ALL_WELL: Answers :=
    Answers(true, true, None, None, false, false, true, true, true, true, true, true)

  lemma SecondAcceptance(v: World, p: nat, q: nat, item: Item, other: Item)
    requires Inv(v) && p != q && SeatIs(v, q, Seat(TRADE_INITIATED, Some(p), Some(other)))
    requires SeatIs(v, p, Seat(TRADE_ACCEPT, Some(q), Some(item)))
    ensures Accept(v, q, ALL_WELL).place == v.place[other := OnPlayer(p)][item := OnPlayer(q)]
  {
    AcceptIs(v, q, ALL_WELL);
  }

  /** The other case: a counter-offer made after the acceptance, and taken with it. */
  lemma UnseenCounterOffer(p: nat, q: nat, item: Item, other: Item, a: Answers)
    returns (worlds: seq<World>, events: seq<Event>)
    requires p != q && item != other
    ensures Run(worlds, events) && |events| == 6
    ensures events[3] == Accepted(p, a) && q in worlds[3].seats && worlds[3].seats[q].item == None
    ensures events[4] == Requested(q, p, Some(other), true) && events[5].Accepted? && events[5].p == q
    ensures worlds[6].place == worlds[5].place[other := OnPlayer(p)][item := OnPlayer(q)]
  {
    worlds, events := CounterOffered(p, q, item, other, a);
    RunKeeps(worlds, events, 5);
    SecondAcceptance(worlds[5], p, q, item, other);
    worlds, events := Extended(worlds, events, Accepted(q, ALL_WELL));
  }

  lemma BystandersSeat(w: World, e: Event, r: nat)
    requires Inv(w) && r in w.seats && TakesNoPart(w, e, r)
    ensures r in Step(w, e).seats && Step(w, e).seats[r] == w.seats[r]
  {
    if e.Accepted? && MayAccept(w, e.p) {
      AcceptIs(w, e.p, e.answers);
    }
    if e.Closed? || e.Left? {
      CloseBystander(w, e.p, r);
    }
  }

  ghost predicate TakesNoPart(w: World, e: Event, r: nat) {
    && (e.Requested? ==> e.p != r && e.q != r)
    && (e.Accepted? || e.Closed? || e.Left? ==> e.p != r && (e.p in w.seats ==> w.seats[e.p].partner != Some(r)))
  }

  lemma OfferIndexed(v: World, r: nat)
    requires Inv(v) && r in v.seats
    ensures Indexed(v.seats[r], r, v.offered)
  {
    assert SeatOk(v.seats, v.offered, r);
  }

  /** An event leaves the seat and the offer of everyone alone who takes no part in it. */
  lemma BystandersAreUntouched(w: World, e: Event, r: nat)
    requires Inv(w) && r in w.seats && TakesNoPart(w, e, r)
    ensures r in Step(w, e).seats && Step(w, e).seats[r] == w.seats[r]
    ensures Indexed(w.seats[r], r, Step(w, e).offered)
  {
    BystandersSeat(w, e, r);
    StepKeeps(w, e);
    OfferIndexed(Step(w, e), r);
  }

  lemma CloseBystander(w: World, p: nat, r: nat)
    requires Inv(w) && r in w.seats && p != r && (p in w.seats ==> w.seats[p].partner != Some(r))
    ensures r in Close(w, p).seats && Close(w, p).seats[r] == w.seats[r]
  {
    if p in w.seats {
      CloseIs(w, p);
      assert SeatOk(w.seats, w.offered, p);
    }
  }

  // ----- the objects -----

  class Player {
    const id: nat
    var tradeState: TradeState
    var tradePartner: Player?
    var tradeItem: Option<Item>

    constructor (id: nat)
      ensures this.id == id && AsSeat() == IDLE
    {
      this.id, tradeState, tradePartner, tradeItem := id, TRADE_NONE, null, None;
    }

    ghost function AsSeat(): Seat
      reads this
    {
      Seat(tradeState, if tradePartner == null then None else Some(tradePartner.id), tradeItem)
    }
  }

  class Game {
    var players: map<nat, Player>
    var tradeItems: map<Item, nat>
    var references: multiset<Item>
    var toReleaseItems: seq<Item>
    var nesting: Nesting
    var place: map<Item, Place>

    ghost predicate Listed(player: Player)
      reads this`players
    {
      player.id in players && players[player.id] == player
    }

    ghost predicate PlayerOk(p: nat)
      reads this`players, players.Values
    {
      p in players && players[p].id == p && (players[p].tradePartner != null ==> Listed(players[p].tradePartner))
    }

    ghost predicate Valid()
      reads this`players, players.Values
    {
      forall p {:trigger PlayerOk(p)} | p in players :: PlayerOk(p)
    }

    ghost function Seats(): map<nat, Seat>
      reads this`players, players.Values
    {
      map p | p in players :: players[p].AsSeat()
    }

    ghost function Snap(): World
      reads this, players.Values
    {
      World(Seats(), tradeItems, references, toReleaseItems, nesting, place)
    }

    constructor (nesting: Nesting, place: map<Item, Place>)
      requires NestingOk(nesting)
      ensures Valid() && players == map[] && Begins(Snap())
    {
      players, tradeItems, references, toReleaseItems := map[], map[], multiset{}, [];
      this.nesting, this.place := nesting, place;
    }

    /** Gives a player new trade fields. */
    method Sit(player: Player, state: TradeState, partner: Player?, item: Option<Item>)
      requires Valid() && Listed(player) && (partner != null ==> Listed(partner))
      modifies player
      ensures Valid() && player.tradeState == state && player.tradePartner == partner && player.tradeItem == item
      ensures Seats()
              == old(Seats())[player.id := Seat(state, if partner == null then None else Some(partner.id), item)]
    {
      assert PlayerOk(player.id);
      player.tradeState := state;
      player.tradePartner := partner;
      player.tradeItem := item;
      forall p | p in players
        ensures PlayerOk(p)
      {
        assert old(PlayerOk(p));
      }
      forall p | p in players && p != player.id
        ensures players[p].AsSeat() == old(players[p].AsSeat())
      {
        assert PlayerOk(p);
      }
    }

    /** The trade fields of both, when a request is accepted; the partner's only if he has no trade yet. */
    method SitBoth(player: Player, tradePartner: Player, tradeItem: Item)
      requires Valid() && Listed(player) && Listed(tradePartner) && player != tradePartner
      modifies player, tradePartner
      ensures Valid()
      ensures var seats := old(Seats())[player.id := Seat(TRADE_INITIATED, Some(tradePartner.id), Some(tradeItem))];
              Seats() == if old(tradePartner.tradeState) == TRADE_NONE then
                           seats[tradePartner.id :=
                             Seat(TRADE_ACKNOWLEDGE, Some(player.id), old(tradePartner.tradeItem))]
                         else seats
    {
      var acknowledges := tradePartner.tradeState == TRADE_NONE;
      Sit(player, TRADE_INITIATED, tradePartner, Some(tradeItem));
      if acknowledges {
        Sit(tradePartner, TRADE_ACKNOWLEDGE, player, tradePartner.tradeItem);
      }
    }

    method InternalStartTrade(player: Player, tradePartner: Player, tradeItem: Item) returns (started: bool)
      requires Valid() && Listed(player) && Listed(tradePartner) && player != tradePartner
      modifies this, player, tradePartner
      ensures Valid() && players == old(players)
      ensures Snap() == StartTrade(old(Snap()), player.id, tradePartner.id, tradeItem)
      ensures started <==> Snap() != old(Snap())
    {
      assert PlayerOk(player.id) && PlayerOk(tradePartner.id);
      ghost var w := Snap();
      assert w.seats[player.id] == player.AsSeat() && w.seats[tradePartner.id] == tradePartner.AsSeat();
      if player.tradeState != TRADE_NONE
          && !(player.tradeState == TRADE_ACKNOWLEDGE && player.tradePartner == tradePartner) {
        return false;
      } else if tradePartner.tradeState != TRADE_NONE && tradePartner.tradePartner != player {
        return false;
      }
      SitBoth(player, tradePartner, tradeItem);
      ghost var seats := Seats();
      assert seats == StartTrade(w, player.id, tradePartner.id, tradeItem).seats;
      references := references + multiset{tradeItem};
      tradeItems := tradeItems[tradeItem := player.id];
      started := true;
      assert Seats() == seats;
      assert references[tradeItem] == w.references[tradeItem] + 1;
    }

    /** The loops over tradeItems. */
    method IsEntangled(tradeItem: Item) returns (yes: bool)
      requires NestingOk(nesting)
      ensures yes <==> Entangled(tradeItems, nesting, tradeItem)
    {
      var rest := tradeItems.Keys;
      while rest != {}
        invariant rest <= tradeItems.Keys
        invariant forall other | other in tradeItems && other !in rest ::
                    other != tradeItem && (tradeItem, other) !in nesting.holds && (other, tradeItem) !in nesting.holds
        decreases |rest|
      {
        var item :| item in rest;
        if tradeItem == item {
          return true;
        }
        if tradeItem in nesting.containers && (tradeItem, item) in nesting.holds {
          return true;
        }
        if item in nesting.containers && (item, tradeItem) in nesting.holds {
          return true;
        }
        rest := rest - {item};
      }
      yes := false;
    }

    /**
     thing is what the position and stack index lead to; allowed is the outcome of the other checks and of the
     event.
     */
    method PlayerRequestTrade(playerId: nat, tradePlayerId: nat, thing: Option<Item>, allowed: bool)
      requires Valid() && NestingOk(nesting)
      modifies this, players.Values
      ensures Valid() && players == old(players)
      ensures Snap() == Request(old(Snap()), playerId, tradePlayerId, thing, allowed)
    {
      if playerId !in players {
        return;
      }
      var player := players[playerId];
      assert PlayerOk(playerId);
      if tradePlayerId !in players {
        return;
      }
      var tradePartner := players[tradePlayerId];
      assert PlayerOk(tradePlayerId);
      if tradePartner == player {
        return;
      }
      if thing == None || !allowed {
        return;
      }
      var tradeItem := thing.value;
      var entangled := IsEntangled(tradeItem);
      if entangled {
        return;
      }
      if tradeItem in nesting.containers && |Held(nesting, tradeItem)| + 1 > 100 {
        return;
      }
      if tradeItem !in nesting.containers {
        assert Held(nesting, tradeItem) == {};
      }
      var _ := InternalStartTrade(player, tradePartner, tradeItem);
    }

    method EraseTradeItem(item: Option<Item>)
      modifies this`tradeItems, this`toReleaseItems
      ensures Snap() == Unlist(old(Snap()), item) && Seats() == old(Seats())
    {
      if item.Some? && item.value in tradeItems {
        toReleaseItems := toReleaseItems + [item.value];
        tradeItems := tradeItems - {item.value};
      }
    }

    /** What internalCloseTrade does to each of the two. */
    method WithdrawOffer(player: Player)
      requires Valid() && Listed(player)
      modifies this`tradeItems, this`toReleaseItems, player
      ensures Valid() && Snap() == Withdraw(old(Snap()), player.id)
    {
      if player.tradeItem.Some? {
        EraseTradeItem(player.tradeItem);
      }
      Sit(player, TRADE_NONE, null, None);
    }

    method InternalCloseTrade(player: Player)
      requires Valid() && Listed(player)
      modifies this`tradeItems, this`toReleaseItems, players.Values
      ensures Valid() && PartnerThere(old(Snap()), player.id)
      ensures Snap() == InternalClose(old(Snap()), player.id)
    {
      var tradePartner := player.tradePartner;
      assert PlayerOk(player.id);
      if (tradePartner != null && tradePartner.tradeState == TRADE_TRANSFER) || player.tradeState == TRADE_TRANSFER {
        return;
      }
      WithdrawOffer(player);
      if tradePartner != null {
        WithdrawOffer(tradePartner);
      }
    }

    method PlayerCloseTrade(playerId: nat)
      requires Valid() && Inv(Snap())
      modifies this, players.Values
      ensures Valid() && players == old(players)
      ensures Snap() == Close(old(Snap()), playerId) && Inv(Snap())
    {
      CloseKeeps(Snap(), playerId);
      if playerId !in players {
        return;
      }
      assert PlayerOk(playerId);
      InternalCloseTrade(players[playerId]);
    }

    lemma PartnersAreMutual(player: Player)
      requires Valid() && Inv(Snap()) && Listed(player) && player.tradePartner != null
      ensures Listed(player.tradePartner) && player.tradePartner != player && player.tradePartner.tradePartner == player
    {
      var w, q := Snap(), player.tradePartner.id;
      assert PlayerOk(player.id) && SeatOk(w.seats, w.offered, player.id) && w.seats[player.id] == player.AsSeat();
      assert PlayerOk(q) && Paired(w.seats, player.id, q) && w.seats[q] == player.tradePartner.AsSeat();
    }

    method PlayerAcceptTrade(playerId: nat, a: Answers)
      requires Valid() && Inv(Snap())
      modifies this, players.Values
      ensures Valid() && players == old(players)
      ensures Snap() == Accept(old(Snap()), playerId, a) && Inv(Snap())
    {
      AcceptKeeps(Snap(), playerId, a);
      AcceptTrade(playerId, a);
    }

    /** The body of playerAcceptTrade. */
    method AcceptTrade(playerId: nat, a: Answers)
      requires Valid() && Inv(Snap())
      modifies this, players.Values
      ensures Valid() && players == old(players) && Snap() == Accept(old(Snap()), playerId, a)
    {
      ghost var start := Snap();
      if playerId !in players {
        return;
      }
      var player := players[playerId];
      assert PlayerOk(playerId);
      if !(player.tradeState == TRADE_ACKNOWLEDGE || player.tradeState == TRADE_INITIATED) {
        return;
      }
      var tradePartner := player.tradePartner;
      if tradePartner == null {
        return;
      }
      assert MayAccept(start, playerId) && SeatOk(start.seats, start.offered, playerId);
      PartnersAreMutual(player);
      Sit(player, TRADE_ACCEPT, tradePartner, player.tradeItem);
      AnswerPartner(player, tradePartner, a);
    }

    /** What follows when the partner has accepted already. */
    method AnswerPartner(player: Player, tradePartner: Player, a: Answers)
      requires Valid() && Listed(player) && Listed(tradePartner) && player != tradePartner
      requires player.tradePartner == tradePartner && tradePartner.tradePartner == player
      modifies this, players.Values
      ensures Valid() && players == old(players)
      ensures Snap() == Answered(old(Snap()), player.id, tradePartner.id, a)
    {
      assert PlayerOk(player.id) && PlayerOk(tradePartner.id);
      if tradePartner.tradeState == TRADE_ACCEPT {
        if !a.canThrow || !a.eventAllows {
          InternalCloseTrade(player);
          return;
        }
        SettleTrade(player, tradePartner, a);
      }
    }

    /** The dry runs and the two moves; the outcome of the second move is not looked at. */
    method ExchangeItems(
        playerId: nat, partnerId: nat, playerTradeItem: Option<Item>, partnerTradeItem: Option<Item>, a: Answers)
      returns (isSuccess: bool)
      modifies this`place
      ensures isSuccess <==>
              && playerTradeItem.Some? && partnerTradeItem.Some?
              && !(a.playerBackpack == playerTradeItem && a.partnerBackpack == partnerTradeItem)
              && (a.playerBackpack != playerTradeItem || !a.playerSlotTaken)
              && (a.partnerBackpack != partnerTradeItem || !a.partnerSlotTaken)
              && a.fitsPartner && a.fitsPlayer && a.playerItemRemovable && a.partnerItemRemovable && a.firstMove
      ensures place == if isSuccess then
                         Exchanged(old(place), playerId, partnerId, playerTradeItem.value, partnerTradeItem.value,
                             a.secondMove)
                       else
                         old(place)
    {
      isSuccess := false;
      var tradePartnerRet, playerRet := true, true;
      if a.partnerBackpack == partnerTradeItem {
        tradePartnerRet := !a.partnerSlotTaken;
      }
      if a.playerBackpack == playerTradeItem {
        playerRet := !a.playerSlotTaken;
      }
      if a.playerBackpack == playerTradeItem && a.partnerBackpack == partnerTradeItem {
        playerRet := false;
      }
      if tradePartnerRet && playerRet {
        tradePartnerRet := playerTradeItem.Some? && a.fitsPartner;
        playerRet := partnerTradeItem.Some? && a.fitsPlayer;
        if tradePartnerRet && playerRet {
          playerRet := a.playerItemRemovable;
          tradePartnerRet := a.partnerItemRemovable;
          if tradePartnerRet && playerRet {
            tradePartnerRet := a.firstMove;
            if tradePartnerRet {
              place := place[playerTradeItem.value := OnPlayer(partnerId)];
              if a.secondMove {
                place := place[partnerTradeItem.value := OnPlayer(playerId)];
              }
              isSuccess := true;
            }
          }
        }
      }
    }

    method EnterTransfer(player: Player, tradePartner: Player)
      requires Valid() && Listed(player) && Listed(tradePartner) && player != tradePartner
      requires player.tradePartner == tradePartner && tradePartner.tradePartner == player
      modifies player, tradePartner
      ensures Valid() && player.tradeItem == old(player.tradeItem)
              && tradePartner.tradeItem == old(tradePartner.tradeItem)
      ensures Seats() == old(Seats())[player.id := old(player.AsSeat()).(state := TRADE_TRANSFER)]
                           [tradePartner.id := old(tradePartner.AsSeat()).(state := TRADE_TRANSFER)]
    {
      assert PlayerOk(player.id) && PlayerOk(tradePartner.id);
      Sit(player, TRADE_TRANSFER, player.tradePartner, player.tradeItem);
      assert PlayerOk(tradePartner.id);
      Sit(tradePartner, TRADE_TRANSFER, tradePartner.tradePartner, tradePartner.tradeItem);
    }

    /** The part of playerAcceptTrade that both acceptances lead to. */
    method SettleTrade(player: Player, tradePartner: Player, a: Answers)
      requires Valid() && Listed(player) && Listed(tradePartner) && player != tradePartner
      requires player.tradePartner == tradePartner && tradePartner.tradePartner == player
      modifies this, player, tradePartner
      ensures Valid() && players == old(players)
      ensures Snap() == Settle(old(Snap()), player.id, tradePartner.id, a)
    {
      ghost var w, s, t := Snap(), player.AsSeat().(state := TRADE_TRANSFER),
        tradePartner.AsSeat().(state := TRADE_TRANSFER);
      var playerTradeItem, partnerTradeItem := player.tradeItem, tradePartner.tradeItem;
      TakeOffers(player, tradePartner);
      var _ := ExchangeItems(player.id, tradePartner.id, playerTradeItem, partnerTradeItem, a);
      assert InTransfer(Snap(), player.id, tradePartner.id);
      LeaveTrade(player, tradePartner, w.seats, s, t);
    }

    /** Both seats go into transfer and both items leave the index. */
    method TakeOffers(player: Player, tradePartner: Player)
      requires Valid() && Listed(player) && Listed(tradePartner) && player != tradePartner
      requires player.tradePartner == tradePartner && tradePartner.tradePartner == player
      modifies player, tradePartner, this`tradeItems, this`toReleaseItems
      ensures Valid() && InTransfer(Snap(), player.id, tradePartner.id)
      ensures Snap() == Unlist(Unlist(old(Snap()), old(player.tradeItem)), old(tradePartner.tradeItem)).(
                          seats := old(Seats())[player.id := old(player.AsSeat()).(state := TRADE_TRANSFER)]
                                     [tradePartner.id := old(tradePartner.AsSeat()).(state := TRADE_TRANSFER)])
    {
      ghost var w := Snap();
      var playerTradeItem, partnerTradeItem := player.tradeItem, tradePartner.tradeItem;
      EnterTransfer(player, tradePartner);
      SettledIndex(w, Seats(), playerTradeItem, partnerTradeItem);
      EraseTradeItems(playerTradeItem, partnerTradeItem);
    }

    method EraseTradeItems(playerTradeItem: Option<Item>, partnerTradeItem: Option<Item>)
      modifies this`tradeItems, this`toReleaseItems
      ensures Snap() == Unlist(Unlist(old(Snap()), playerTradeItem), partnerTradeItem)
    {
      EraseTradeItem(playerTradeItem);
      EraseTradeItem(partnerTradeItem);
    }

    method LeaveTrade(player: Player, tradePartner: Player, ghost seats: map<nat, Seat>, ghost s: Seat, ghost t: Seat)
      requires Valid() && Listed(player) && Listed(tradePartner) && player != tradePartner
      requires Seats() == seats[player.id := s][tradePartner.id := t]
      modifies player, tradePartner
      ensures Valid() && Seats() == seats[player.id := IDLE][tradePartner.id := IDLE]
    {
      assert PlayerOk(player.id) && PlayerOk(tradePartner.id);
      Sit(player, TRADE_NONE, null, None);
      Sit(tradePartner, TRADE_NONE, null, None);
      LastSeatsCount(seats, player.id, tradePartner.id, s, t, IDLE);
    }

    /** A player enters, with the trade fields of a new object. */
    method AddPlayer(player: Player)
      requires Valid() && Inv(Snap()) && player.id !in players && player.AsSeat() == IDLE
      modifies this`players
      ensures Valid() && players == old(players)[player.id := player]
      ensures Snap() == Join(old(Snap()), player.id) && Inv(Snap())
    {
      ghost var start := Snap();
      JoinKeeps(start, player.id);
      players := players[player.id := player];
      forall p | p in players
        ensures PlayerOk(p)
      {
        assert p == player.id || old(PlayerOk(p));
      }
      assert Seats() == Join(start, player.id).seats;
    }

    method OnRemoveCreature(player: Player)
      requires Valid() && Inv(Snap()) && Listed(player)
      modifies this, players.Values
      ensures players == old(players) - {player.id}
      ensures Valid() && Snap() == Leave(old(Snap()), player.id) && Inv(Snap())
    {
      ghost var start := Snap();
      LeaveKeeps(start, player.id);
      assert SeatOk(start.seats, start.offered, player.id);
      if player.tradePartner != null {
        InternalCloseTrade(player);
        ClosedLeavesNoPartner(start, player.id);
      }
      Depart(player);
    }

    method Depart(player: Player)
      requires Valid() && Inv(Snap()) && Listed(player) && player.tradePartner == null
      modifies this`players
      ensures Valid() && players == old(players) - {player.id}
      ensures Seats() == old(Seats()) - {player.id}
    {
      ghost var w := Snap();
      forall p | p in players && p != player.id
        ensures players[p].tradePartner != player
      {
        assert PlayerOk(p) && w.seats[p] == players[p].AsSeat() && w.seats[player.id] == player.AsSeat();
        NobodysPartner(w, player.id, p);
      }
      players := players - {player.id};
      forall p | p in players
        ensures PlayerOk(p)
      {
        assert old(PlayerOk(p));
      }
    }

    method Cleanup()
      requires Valid() && Inv(Snap())
      modifies this`references, this`toReleaseItems
      ensures Valid() && Snap() == CleanedUp(old(Snap())) && Inv(Snap())
      ensures references == multiset(tradeItems.Keys)
    {
      CleanupKeeps(Snap());
      GiveUpReferences();
      toReleaseItems := [];
    }

    method GiveUpReferences()
      modifies this`references
      ensures references == old(references) - multiset(toReleaseItems)
    {
      ghost var start := references;
      for i := 0 to |toReleaseItems|
        invariant references == start - multiset(toReleaseItems[..i])
      {
        OneFewer(start, toReleaseItems, i);
        references := references - multiset{toReleaseItems[i]};
      }
      assert toReleaseItems[..|toReleaseItems|] == toReleaseItems;
    }
  }

  lemma LastSeatsCount(seats: map<nat, Seat>, p: nat, q: nat, s: Seat, t: Seat, u: Seat)
    ensures seats[p := s][q := t][p := u][q := u] == seats[p := u][q := u]
  {
  }

  lemma SettledIndex(w: World, seats: map<nat, Seat>, mine: Option<Item>, theirs: Option<Item>)
    ensures Unlist(Unlist(w.(seats := seats), mine), theirs) == Unlist(Unlist(w, mine), theirs).(seats := seats)
  {
  }

  lemma NobodysPartner(w: World, q: nat, p: nat)
    requires Inv(w) && p in w.seats && q in w.seats && w.seats[q].partner == None
    ensures w.seats[p].partner != Some(q)
  {
    assert SeatOk(w.seats, w.offered, p);
  }

  lemma OneFewer(start: multiset<Item>, n: seq<Item>, i: nat)
    requires i < |n|
    ensures start - multiset(n[..i]) - multiset{n[i]} == start - multiset(n[..i + 1])
  {
    assert n[..i + 1] == n[..i] + [n[i]];
  }

  lemma ClosedLeavesNoPartner(w: World, p: nat)
    requires Inv(w) && p in w.seats
    ensures Inv(Close(w, p)) && p in Close(w, p).seats && Close(w, p).seats[p].partner == None
  {
    CloseKeeps(w, p);
    CloseIs(w, p);
  }
}
