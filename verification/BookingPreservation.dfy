/** Every step keeps the invariant, and rows only ever move forward. */
module BookingPreservation {
  import opened Wrappers
  import opened Counting
  import opened Inventory
  import opened BookingSteps
  import opened BookingInvariant

  // ---------- What never changes about a row ----------

  ghost predicate HoldLater(now: int, a: Hold, later: int, b: Hold) {
    && a.pilgrim == b.pilgrim && a.lodge == b.lodge && a.roomType == b.roomType
    && a.stay == b.stay && a.attempt == b.attempt
    // Consumed, released and expired are never left.
    && (a.status != HoldActive ==> b.status == a.status)
    // An order stays attached, with its amount.
    && (a.order.Some? ==> b.order == a.order && b.amount == a.amount)
    // Past its expiry a hold is never converted, extended or given an order.
    && (!Live(now, a) ==> !Live(later, b) && (b.status == HoldConsumed ==> a.status == HoldConsumed)
                          && b.order == a.order)
  }

  ghost predicate BookingLater(a: Booking, b: Booking) {
    && a.pilgrim == b.pilgrim && a.lodge == b.lodge && a.roomType == b.roomType && a.stay == b.stay
    && a.source == b.source && a.payment == b.payment && a.total == b.total && a.deadline == b.deadline
    && (a.room.Some? ==> b.room == a.room)
    // A booking that gave up its claim never takes it back.
    && (!ActiveStatus(a.status) ==> !ActiveStatus(b.status))
    && (a.status != PendingOwnerApproval ==> b.status != PendingOwnerApproval)
  }

  ghost predicate Later(pre: Db, cur: Db) {
    && pre.now <= cur.now
    && (forall t | t in pre.types :: t in cur.types && cur.types[t].lodge == pre.types[t].lodge)
    && (forall r | r in pre.rooms :: r in cur.rooms && cur.rooms[r].roomType == pre.rooms[r].roomType)
    && (forall h | h in pre.holds :: h in cur.holds && HoldLater(pre.now, pre.holds[h], cur.now, cur.holds[h]))
    && (forall b | b in pre.bookings :: b in cur.bookings && BookingLater(pre.bookings[b], cur.bookings[b]))
    && (forall b | b in pre.bookings :: CollectionsOf(cur.collections, b) == CollectionsOf(pre.collections, b))
    && (forall b | b in pre.bookings :: CreationRows(cur.history, b) == CreationRows(pre.history, b))
  }

  lemma LaterTransitive(a: Db, b: Db, c: Db)
    requires Later(a, b) && Later(b, c)
    ensures Later(a, c)
  {
    forall h | h in a.holds ensures h in c.holds && HoldLater(a.now, a.holds[h], c.now, c.holds[h]) {
      assert HoldLater(a.now, a.holds[h], b.now, b.holds[h]);
      assert HoldLater(b.now, b.holds[h], c.now, c.holds[h]);
    }
    forall x | x in a.bookings ensures x in c.bookings && BookingLater(a.bookings[x], c.bookings[x]) {
      assert BookingLater(a.bookings[x], b.bookings[x]);
      assert BookingLater(b.bookings[x], c.bookings[x]);
    }
  }

  /** The guarantee of one step. */
  ghost predicate Good(cur: Db, next: Db) {
    Inv(next) && Later(cur, next)
  }

  // ---------- Capacity ----------

  /** Steps that only give up claims, or add rooms, keep capacity. */
  lemma CapacityShrinks(cur: Db, next: Db)
    requires Capacity(cur)
    requires forall t: Id, n: int :: BookingsOn(next, t, n) <= BookingsOn(cur, t, n)
    requires forall t: Id, n: int :: HoldsOn(next, t, n) <= HoldsOn(cur, t, n)
    requires forall t: Id :: RoomsOf(cur, t) <= RoomsOf(next, t)
    ensures Capacity(next)
  {
    forall t: Id, n: int ensures Claims(next, t, n) <= |RoomsOf(next, t)| {
      SubsetCard(BookingsOn(next, t, n), BookingsOn(cur, t, n));
      SubsetCard(HoldsOn(next, t, n), HoldsOn(cur, t, n));
      SubsetCard(RoomsOf(cur, t), RoomsOf(next, t));
      assert Claims(cur, t, n) <= |RoomsOf(cur, t)|;
    }
  }

  // ---------- Parts of the invariant a step leaves alone ----------

  lemma SafeBookings(cur: Db, next: Db)
    requires NoDoubleBooking(cur) && next.bookings == cur.bookings
    ensures NoDoubleBooking(next)
  {
    forall a, b | a in next.bookings && b in next.bookings ensures !Conflicting(next, a, b) {
      assert !Conflicting(cur, a, b);
    }
  }

  /** Money records depend on a booking's amounts and on the order of the hold it came from. */
  ghost predicate MoneyKept(cur: Db, next: Db) {
    && next.bookings.Keys == cur.bookings.Keys
    && next.collections == cur.collections
    && (forall b | b in cur.bookings :: next.bookings[b].payment == cur.bookings[b].payment
          && next.bookings[b].total == cur.bookings[b].total && next.bookings[b].source == cur.bookings[b].source)
    && (forall h | h in cur.holds && cur.holds[h].order.Some? :: h in next.holds
          && next.holds[h].order == cur.holds[h].order && next.holds[h].amount == cur.holds[h].amount)
  }

  lemma LedgerKept(cur: Db, next: Db)
    requires Ledger(cur) && MoneyKept(cur, next) && next.history == cur.history
    ensures Ledger(next)
  {
    forall b | b in next.bookings ensures PaidAsRecorded(next, b) {
      assert PaidAsRecorded(cur, b);
    }
  }

  ghost predicate SameOrigin(a: Booking, b: Booking) {
    a.source == b.source && a.stay == b.stay && a.pilgrim == b.pilgrim && a.lodge == b.lodge && a.roomType == b.roomType
  }

  ghost predicate LinksKept(cur: Db, next: Db) {
    && next.bookings.Keys == cur.bookings.Keys
    && (forall b | b in cur.bookings :: SameOrigin(cur.bookings[b], next.bookings[b]))
    && (forall h | h in cur.holds :: h in next.holds
          && next.holds[h].pilgrim == cur.holds[h].pilgrim && next.holds[h].lodge == cur.holds[h].lodge
          && next.holds[h].roomType == cur.holds[h].roomType && next.holds[h].stay == cur.holds[h].stay)
    && (forall h | h in next.holds :: next.holds[h].status == HoldConsumed
          <==> h in cur.holds && cur.holds[h].status == HoldConsumed)
  }

  lemma HoldLinksKept(cur: Db, next: Db)
    requires HoldLinks(cur) && LinksKept(cur, next)
    ensures HoldLinks(next)
  {
    forall b, h | MadeFrom(cur, b, h) || MadeFrom(next, b, h) ensures MadeFrom(cur, b, h) && MadeFrom(next, b, h) {
      assert SameOrigin(cur.bookings[b], next.bookings[b]);
    }
    forall h | h in next.holds && next.holds[h].status == HoldConsumed ensures exists b :: MadeFrom(next, b, h) {
      var b :| MadeFrom(cur, b, h);
      assert MadeFrom(next, b, h);
    }
    forall b, h | MadeFrom(next, b, h) ensures h in next.holds && CopiesHold(next.bookings[b], next.holds[h]) {
      assert MadeFrom(cur, b, h);
      assert CopiesHold(cur.bookings[b], cur.holds[h]);
    }
  }

  lemma SameStateKeeps(cur: Db)
    requires Inv(cur)
    ensures Good(cur, cur)
  {
  }

  // ---------- Clock and environment ----------

  ghost predicate EnvironmentMove(cur: Db, next: Db) {
    && cur.now <= next.now
    && next == cur.(now := next.now, lodges := next.lodges, types := next.types,
                    rooms := next.rooms, blocks := next.blocks)
    && (forall t | t in next.types :: next.types[t].lodge in next.lodges)
    && (forall t | t in cur.types :: t in next.types && next.types[t].lodge == cur.types[t].lodge)
    && (forall r | r in cur.rooms :: r in next.rooms && next.rooms[r].roomType == cur.rooms[r].roomType)
    && (forall r | r in next.rooms :: next.rooms[r].roomType in next.types
          && next.rooms[r].lodge == next.types[next.rooms[r].roomType].lodge)
  }

  lemma EnvironmentReferences(cur: Db, next: Db)
    requires References(cur) && EnvironmentMove(cur, next)
    ensures References(next)
  {
    forall h | h in next.holds ensures HoldRow(next, next.holds[h]) {
      assert HoldRow(cur, cur.holds[h]);
    }
    forall b | b in next.bookings ensures BookingRow(next, next.bookings[b]) {
      assert BookingRow(cur, cur.bookings[b]);
    }
  }

  lemma EnvironmentCapacity(cur: Db, next: Db)
    requires Capacity(cur) && EnvironmentMove(cur, next)
    ensures Capacity(next)
  {
    forall t: Id, n: int ensures BookingsOn(next, t, n) <= BookingsOn(cur, t, n) {}
    forall t: Id, n: int ensures HoldsOn(next, t, n) <= HoldsOn(cur, t, n) {}
    forall t: Id ensures RoomsOf(cur, t) <= RoomsOf(next, t) {}
    CapacityShrinks(cur, next);
  }

  lemma EnvironmentLater(cur: Db, next: Db)
    requires EnvironmentMove(cur, next)
    ensures Later(cur, next) && MoneyKept(cur, next) && LinksKept(cur, next)
    ensures UniqueKeys(cur) ==> UniqueKeys(next)
  {
  }

  lemma EnvironmentKeeps(cur: Db, next: Db)
    requires Inv(cur) && EnvironmentMove(cur, next)
    ensures Good(cur, next)
  {
    hide References, NoDoubleBooking, Capacity, HoldLinks, UniqueKeys, Ledger, Later, MoneyKept, LinksKept;
    EnvironmentLater(cur, next);
    EnvironmentReferences(cur, next);
    SafeBookings(cur, next);
    EnvironmentCapacity(cur, next);
    HoldLinksKept(cur, next);
    LedgerKept(cur, next);
  }

  // ---------- Holds ----------

  /** The holds table after a step that neither consumes a hold nor touches a booking. */
  ghost predicate HoldsMove(cur: Db, next: Db) {
    && next == cur.(holds := next.holds)
    && (forall h | h in cur.holds :: h in next.holds
          && HoldLater(cur.now, cur.holds[h], cur.now, next.holds[h])
          && (next.holds[h].status == HoldConsumed <==> cur.holds[h].status == HoldConsumed))
    && (forall h | h in next.holds :: HoldRow(cur, next.holds[h]))
    && (forall h | h in next.holds && h !in cur.holds :: next.holds[h].status != HoldConsumed)
  }

  lemma HoldsMoveReferences(cur: Db, next: Db)
    requires References(cur) && HoldsMove(cur, next)
    ensures References(next)
  {
    forall h | h in next.holds ensures HoldRow(next, next.holds[h]) {
      assert HoldRow(cur, next.holds[h]);
    }
    forall b | b in next.bookings ensures BookingRow(next, next.bookings[b]) {
      assert BookingRow(cur, cur.bookings[b]);
    }
  }

  lemma HoldsMoveLater(cur: Db, next: Db)
    requires HoldsMove(cur, next)
    ensures Later(cur, next) && LinksKept(cur, next)
  {
    hide HoldRow, CollectionsOf, CreationRows, Live;
  }

  lemma HoldsMoveMoney(cur: Db, next: Db)
    requires HoldsMove(cur, next)
    ensures MoneyKept(cur, next)
  {
    hide HoldRow;
  }

  lemma HoldsMoveKeeps(cur: Db, next: Db)
    requires Inv(cur) && HoldsMove(cur, next)
    requires UniqueKeys(next) && Capacity(next)
    ensures Good(cur, next)
  {
    hide References, NoDoubleBooking, Capacity, HoldLinks, UniqueKeys, Ledger, Later, MoneyKept, LinksKept, HoldRow,
      HoldLater;
    HoldsMoveLater(cur, next);
    HoldsMoveMoney(cur, next);
    HoldsMoveReferences(cur, next);
    SafeBookings(cur, next);
    HoldLinksKept(cur, next);
    LedgerKept(cur, next);
  }

  lemma MovedHoldsCapacity(cur: Db, next: Db)
    requires Capacity(cur) && HoldsMove(cur, next) && next.holds.Keys == cur.holds.Keys
    ensures Capacity(next)
  {
    forall t: Id, n: int ensures HoldsOn(next, t, n) <= HoldsOn(cur, t, n) {
      forall h | h in HoldsOn(next, t, n) ensures h in HoldsOn(cur, t, n) {
        assert HoldLater(cur.now, cur.holds[h], cur.now, next.holds[h]);
      }
    }
    assert forall t: Id, n: int :: BookingsOn(next, t, n) == BookingsOn(cur, t, n);
    CapacityShrinks(cur, next);
  }

  /** An update of one hold moves the table when it moves that row. */
  lemma OneHoldMoves(cur: Db, id: Id, hold: Hold)
    requires References(cur) && id in cur.holds && HoldRow(cur, hold)
    requires HoldLater(cur.now, cur.holds[id], cur.now, hold)
    requires hold.status == HoldConsumed <==> cur.holds[id].status == HoldConsumed
    ensures HoldsMove(cur, cur.(holds := cur.holds[id := hold]))
  {
  }

  lemma AttachKeeps(cur: Db, id: Id, order: Id, amount: int, extension: int)
    requires Inv(cur)
    ensures Good(cur, AttachProviderOrder(cur, id, order, amount, extension).db)
  {
    hide NoDoubleBooking, HoldLinks, Ledger, Capacity, Good, BookingRow;
    var next := AttachProviderOrder(cur, id, order, amount, extension).db;
    if next != cur {
      assert HoldRow(cur, cur.holds[id]);
      OneHoldMoves(cur, id, next.holds[id]);
      AttachKeys(cur, next, id);
      MovedHoldsCapacity(cur, next);
      HoldsMoveKeeps(cur, next);
    } else {
      SameStateKeeps(cur);
    }
  }

  lemma AttachKeys(cur: Db, next: Db, id: Id)
    requires UniqueKeys(cur) && id in cur.holds && id in next.holds
    requires next.holds == cur.holds[id := next.holds[id]]
    requires next.holds[id].pilgrim == cur.holds[id].pilgrim && next.holds[id].attempt == cur.holds[id].attempt
    requires forall h | h in cur.holds :: cur.holds[h].order != next.holds[id].order
    ensures UniqueKeys(next)
  {
    forall g, h | g in next.holds && h in next.holds && SameAttempt(next.holds[g], next.holds[h]) ensures g == h {
      assert SameAttempt(cur.holds[g], cur.holds[h]);
    }
    forall g, h | g in next.holds && h in next.holds && SameOrder(next.holds[g], next.holds[h]) ensures g == h {
      assert g != id && h != id ==> SameOrder(cur.holds[g], cur.holds[h]);
    }
  }

  lemma KeysOfStatusChange(cur: Db, next: Db)
    requires UniqueKeys(cur) && next.holds.Keys == cur.holds.Keys
    requires forall h | h in cur.holds :: next.holds[h].pilgrim == cur.holds[h].pilgrim
               && next.holds[h].attempt == cur.holds[h].attempt && next.holds[h].order == cur.holds[h].order
    ensures UniqueKeys(next)
  {
    forall g, h | g in next.holds && h in next.holds && SameAttempt(next.holds[g], next.holds[h]) ensures g == h {
      assert SameAttempt(cur.holds[g], cur.holds[h]);
    }
    forall g, h | g in next.holds && h in next.holds && SameOrder(next.holds[g], next.holds[h]) ensures g == h {
      assert SameOrder(cur.holds[g], cur.holds[h]);
    }
  }

  lemma ReleaseKeeps(cur: Db, id: Id, user: Id)
    requires Inv(cur)
    ensures Good(cur, ReleaseLock(cur, id, user).0)
  {
    hide NoDoubleBooking, HoldLinks, Ledger, Capacity, Good, BookingRow;
    var next := ReleaseLock(cur, id, user).0;
    if next != cur {
      assert HoldRow(cur, cur.holds[id]);
      OneHoldMoves(cur, id, next.holds[id]);
      KeysOfStatusChange(cur, next);
      MovedHoldsCapacity(cur, next);
      HoldsMoveKeeps(cur, next);
    } else {
      SameStateKeeps(cur);
    }
  }

  lemma ExpireLocksKeeps(cur: Db)
    requires Inv(cur)
    ensures Good(cur, ExpireLocks(cur))
  {
    hide NoDoubleBooking, HoldLinks, Ledger, Capacity, Good, BookingRow;
    hide References, UniqueKeys, HoldsMove;
    var next := ExpireLocks(cur);
    ExpiryMoves(cur);
    KeysOfStatusChange(cur, next);
    MovedHoldsCapacity(cur, next);
    HoldsMoveKeeps(cur, next);
  }

  lemma ExpiryMoves(cur: Db)
    requires References(cur)
    ensures HoldsMove(cur, ExpireLocks(cur))
  {
    hide BookingRow, HoldLater;
    var next := ExpireLocks(cur);
    forall h | h in cur.holds ensures HoldLater(cur.now, cur.holds[h], cur.now, next.holds[h]) {
      MarkedHoldLater(cur.now, cur.holds[h]);
    }
    forall h | h in next.holds ensures HoldRow(cur, next.holds[h]) {
      assert HoldRow(cur, cur.holds[h]);
    }
  }

  lemma MarkedHoldLater(now: int, hold: Hold)
    ensures HoldLater(now, hold, now, if Overdue(now, hold) then hold.(status := HoldExpired) else hold)
  {
  }

  lemma CreateLockKeeps(cur: Db, user: Id, lodge: Id, roomType: Id, checkIn: int, checkOut: int,
                        key: Option<string>, quote: Option<int>, ttl: int, newId: Id)
    requires Inv(cur) && newId !in cur.holds
    ensures Good(cur, CreateLock(cur, user, lodge, roomType, checkIn, checkOut, key, quote, ttl, newId).db)
  {
    hide NoDoubleBooking, HoldLinks, Ledger, Capacity, Good, BookingRow, UniqueKeys, FindAttempt, CountAvailableRooms,
      ValidAttemptKey, HoldsMove, References;
    var next := CreateLock(cur, user, lodge, roomType, checkIn, checkOut, key, quote, ttl, newId).db;
    if next != cur {
      var stay := Stay(checkIn, checkOut);
      assert key.Some? ==> FindAttempt(cur, user, key.value).None?;
      NewHoldMoves(cur, newId, next.holds[newId]);
      NewHoldKeys(cur, next, newId);
      NewHoldCapacity(cur, next, newId, stay);
      HoldsMoveKeeps(cur, next);
    } else {
      SameStateKeeps(cur);
    }
  }

  lemma NewHoldMoves(cur: Db, newId: Id, hold: Hold)
    requires References(cur) && newId !in cur.holds && HoldRow(cur, hold) && hold.status != HoldConsumed
    ensures HoldsMove(cur, cur.(holds := cur.holds[newId := hold]))
  {
    hide BookingRow;
  }

  lemma NewHoldKeys(cur: Db, next: Db, newId: Id)
    requires UniqueKeys(cur) && newId !in cur.holds && newId in next.holds
    requires next.holds == cur.holds[newId := next.holds[newId]]
    requires next.holds[newId].order.None?
    requires next.holds[newId].attempt.Some? ==>
               FindAttempt(cur, next.holds[newId].pilgrim, next.holds[newId].attempt.value).None?
    ensures UniqueKeys(next)
  {
    forall g, h | g in next.holds && h in next.holds && SameAttempt(next.holds[g], next.holds[h]) ensures g == h {
      if g != newId && h != newId {
        assert SameAttempt(cur.holds[g], cur.holds[h]);
      }
    }
    forall g, h | g in next.holds && h in next.holds && SameOrder(next.holds[g], next.holds[h]) ensures g == h {
      assert SameOrder(cur.holds[g], cur.holds[h]);
    }
  }

  /** A hold taken when the window-wide count is positive fits on each of its nights. */
  lemma NewHoldCapacity(cur: Db, next: Db, newId: Id, stay: Stay)
    requires Inv(cur) && newId !in cur.holds && newId in next.holds
    requires next == cur.(holds := cur.holds[newId := next.holds[newId]])
    requires next.holds[newId].stay == stay
    requires next.holds[newId].roomType in cur.types
    requires CountAvailableRooms(cur, cur.types[next.holds[newId].roomType].lodge, next.holds[newId].roomType,
                                 stay, None, None) > 0
    ensures Capacity(next)
  {
    hide References, NoDoubleBooking, HoldLinks, UniqueKeys, Ledger, CountAvailableRooms, BookingsOn, HoldsOn, RoomsOf;
    forall t: Id, n: int ensures Claims(next, t, n) <= |RoomsOf(next, t)| {
      NewHoldNight(cur, next, newId, t, n);
      assert Claims(cur, t, n) <= |RoomsOf(cur, t)|;
      if t == next.holds[newId].roomType && Covers(stay, n) {
        WindowBoundsNight(cur, cur.types[t].lodge, t, stay, None, n);
      }
    }
  }

  lemma NewHoldNight(cur: Db, next: Db, newId: Id, t: Id, n: int)
    requires newId !in cur.holds && newId in next.holds
    requires next == cur.(holds := cur.holds[newId := next.holds[newId]])
    ensures BookingsOn(next, t, n) == BookingsOn(cur, t, n) && RoomsOf(next, t) == RoomsOf(cur, t)
    ensures |HoldsOn(next, t, n)| <= |HoldsOn(cur, t, n)| + 1
    ensures !(t == next.holds[newId].roomType && Covers(next.holds[newId].stay, n)) ==>
              HoldsOn(next, t, n) == HoldsOn(cur, t, n)
    ensures HoldsBut(cur, t, n, None) == HoldsOn(cur, t, n)
  {
    SubsetCard(HoldsOn(next, t, n), HoldsOn(cur, t, n) + {newId});
  }

  // ---------- Bookings that change status ----------

  /** One booking's status moves on, with one history row; it claims no more than before. */
  ghost predicate StatusMove(cur: Db, next: Db, id: Id) {
    && id in cur.bookings && id in next.bookings
    && next == cur.(bookings := cur.bookings[id := next.bookings[id]], history := next.history, rooms := next.rooms)
    && next.bookings[id] == cur.bookings[id].(status := next.bookings[id].status)
    && (next.bookings[id] == cur.bookings[id]
        || (next.bookings[id].status != PendingOwnerApproval
            && (ActiveStatus(next.bookings[id].status) ==>
                  ActiveStatus(cur.bookings[id].status) && cur.bookings[id].room.Some?)))
    && (next.history == cur.history || NotedOnce(cur.history, next.history, id))
    && next.rooms.Keys == cur.rooms.Keys
    && (forall r | r in cur.rooms :: next.rooms[r].lodge == cur.rooms[r].lodge
                                     && next.rooms[r].roomType == cur.rooms[r].roomType)
  }

  ghost predicate NotedOnce(before: seq<HistoryRow>, after: seq<HistoryRow>, id: Id) {
    && |after| == |before| + 1 && after == before + [after[|before|]]
    && after[|before|].booking == id && after[|before|].action != BookingCreated
  }

  lemma StatusReferences(cur: Db, next: Db, id: Id)
    requires References(cur) && StatusMove(cur, next, id)
    ensures References(next)
  {
    forall h | h in next.holds ensures HoldRow(next, next.holds[h]) {
      assert HoldRow(cur, cur.holds[h]);
    }
    forall b | b in next.bookings ensures BookingRow(next, next.bookings[b]) {
      assert BookingRow(cur, cur.bookings[b]);
    }
  }

  lemma StatusBookings(cur: Db, next: Db, id: Id)
    requires NoDoubleBooking(cur) && StatusMove(cur, next, id)
    ensures NoDoubleBooking(next)
  {
    forall a, b | a in next.bookings && b in next.bookings ensures !Conflicting(next, a, b) {
      assert !Conflicting(cur, a, b);
    }
  }

  lemma StatusCapacity(cur: Db, next: Db, id: Id)
    requires Capacity(cur) && StatusMove(cur, next, id)
    ensures Capacity(next)
  {
    forall t: Id, n: int ensures BookingsOn(next, t, n) <= BookingsOn(cur, t, n) {}
    forall t: Id, n: int ensures HoldsOn(next, t, n) <= HoldsOn(cur, t, n) {}
    forall t: Id ensures RoomsOf(cur, t) <= RoomsOf(next, t) {}
    CapacityShrinks(cur, next);
  }

  /** A row about an existing booking that does not record a creation. */
  lemma LedgerWithNote(cur: Db, next: Db, row: HistoryRow)
    requires Ledger(cur) && MoneyKept(cur, next)
    requires next.history == cur.history + [row] && row.booking in cur.bookings && row.action != BookingCreated
    ensures Ledger(next)
    ensures forall b | b in cur.bookings :: CreationRows(next.history, b) == CreationRows(cur.history, b)
  {
    forall b | b in next.bookings
      ensures CreationRows(next.history, b) == CreationRows(cur.history, b) && PaidAsRecorded(next, b)
    {
      AppendHistory(cur.history, row, b);
      assert PaidAsRecorded(cur, b);
    }
  }

  /** A step that leaves the holds alone moves forward when each booking does. */
  lemma BookingsMoveLater(cur: Db, next: Db)
    requires next == cur.(bookings := next.bookings, history := next.history, rooms := next.rooms)
    requires forall r | r in cur.rooms :: r in next.rooms && next.rooms[r].roomType == cur.rooms[r].roomType
    requires forall b | b in cur.bookings :: b in next.bookings && BookingLater(cur.bookings[b], next.bookings[b])
    requires forall b | b in cur.bookings :: CreationRows(next.history, b) == CreationRows(cur.history, b)
    ensures Later(cur, next)
  {
    hide BookingLater, CollectionsOf, CreationRows;
  }

  lemma StatusLedger(cur: Db, next: Db, id: Id)
    requires Ledger(cur) && StatusMove(cur, next, id)
    ensures Ledger(next)
    ensures forall b | b in cur.bookings :: CreationRows(next.history, b) == CreationRows(cur.history, b)
  {
    hide Ledger, CreationRows, CollectionsOf;
    if next.history == cur.history {
      LedgerKept(cur, next);
    } else {
      LedgerWithNote(cur, next, next.history[|cur.history|]);
    }
  }

  lemma StatusLater(cur: Db, next: Db, id: Id)
    requires Ledger(cur) && UniqueKeys(cur) && StatusMove(cur, next, id)
    ensures Ledger(next) && UniqueKeys(next) && Later(cur, next) && LinksKept(cur, next)
  {
    hide Ledger, CollectionsOf, CreationRows, UniqueKeys, Later;
    StatusLedger(cur, next, id);
    KeysOfStatusChange(cur, next);
    BookingsMoveLater(cur, next);
  }

  lemma StatusMoveKeeps(cur: Db, next: Db, id: Id)
    requires Inv(cur) && StatusMove(cur, next, id)
    ensures Good(cur, next)
  {
    hide References, NoDoubleBooking, Capacity, HoldLinks, UniqueKeys, Ledger, Later, MoneyKept, LinksKept;
    StatusReferences(cur, next, id);
    StatusBookings(cur, next, id);
    StatusCapacity(cur, next, id);
    StatusLater(cur, next, id);
    HoldLinksKept(cur, next);
  }

  lemma CancelKeeps(cur: Db, id: Id, existing: Booking)
    requires Inv(cur)
    ensures Good(cur, CancelTx(cur, id, existing).db)
  {
    hide Inv, Good;
    var next := CancelTx(cur, id, existing).db;
    if id in cur.bookings && Cancellable(cur.bookings[id].status) {
      assert StatusMove(cur, next, id);
      StatusMoveKeeps(cur, next, id);
    } else {
      SameStateKeeps(cur);
    }
  }

  lemma BlindWriteKeeps(cur: Db, id: Id, status: BookingStatus)
    requires Inv(cur) && status in {Rejected, Expired}
    ensures Good(cur, BlindWrite(cur, id, status))
  {
    hide Inv, Good;
    if id in cur.bookings {
      StatusMoveKeeps(cur, BlindWrite(cur, id, status), id);
    } else {
      SameStateKeeps(cur);
    }
  }

  /** A history row written on its own, whenever it comes. */
  lemma NoteKeeps(cur: Db, row: HistoryRow)
    requires Inv(cur) && row.booking in cur.bookings && row.action != BookingCreated
    ensures Good(cur, Note(cur, row))
  {
    hide Inv, Good;
    assert cur.bookings[row.booking := cur.bookings[row.booking]] == cur.bookings;
    StatusMoveKeeps(cur, Note(cur, row), row.booking);
  }

  /** A transition written late, over whatever the row has become, unless a check-in revives it. */
  lemma TransitionKeeps(cur: Db, id: Id, t: Transition)
    requires Inv(cur) && id in cur.bookings
    requires t == MarkCheckedIn ==>
               ActiveStatus(cur.bookings[id].status) && cur.bookings[id].status != PendingOwnerApproval
    ensures Good(cur, TransitionTx(cur, id, t).db)
  {
    hide NoDoubleBooking, Capacity, HoldLinks, UniqueKeys, Ledger, Good;
    var next := TransitionTx(cur, id, t).db;
    assert BookingRow(cur, cur.bookings[id]);
    assert StatusMove(cur, next, id);
    StatusMoveKeeps(cur, next, id);
  }

  // ---------- Accepting ----------

  /** A pending booking gets a room that is free for its whole stay. */
  ghost predicate AcceptMove(cur: Db, next: Db, id: Id, room: Id) {
    && id in cur.bookings && room in cur.rooms
    && cur.bookings[id].status == PendingOwnerApproval
    && cur.rooms[room].roomType == cur.bookings[id].roomType
    && (forall b | b in cur.bookings :: b == id || !BookingTakes(cur.bookings[b], room, cur.bookings[id].stay))
    && next == cur.(bookings := cur.bookings[id := cur.bookings[id].(room := Some(room), status := Accepted)],
                    rooms := cur.rooms[room := cur.rooms[room].(status := Confirmed)],
                    history := cur.history + [HistoryRow(id, BookingAccepted, Some(PendingOwnerApproval), Accepted)])
  }

  lemma AcceptReferences(cur: Db, next: Db, id: Id, room: Id)
    requires References(cur) && AcceptMove(cur, next, id, room)
    ensures References(next)
  {
    forall h | h in next.holds ensures HoldRow(next, next.holds[h]) {
      assert HoldRow(cur, cur.holds[h]);
    }
    forall b | b in next.bookings ensures BookingRow(next, next.bookings[b]) {
      assert BookingRow(cur, cur.bookings[b]);
    }
  }

  lemma AcceptBookings(cur: Db, next: Db, id: Id, room: Id)
    requires NoDoubleBooking(cur) && AcceptMove(cur, next, id, room)
    ensures NoDoubleBooking(next)
  {
    forall a, b | a in next.bookings && b in next.bookings ensures !Conflicting(next, a, b) {
      assert !Conflicting(cur, a, b);
      assert a != id ==> !BookingTakes(cur.bookings[a], room, cur.bookings[id].stay);
      assert b != id ==> !BookingTakes(cur.bookings[b], room, cur.bookings[id].stay);
    }
  }

  lemma AcceptCapacity(cur: Db, next: Db, id: Id, room: Id)
    requires Capacity(cur) && AcceptMove(cur, next, id, room)
    ensures Capacity(next)
  {
    forall t: Id, n: int ensures BookingsOn(next, t, n) <= BookingsOn(cur, t, n) {}
    forall t: Id, n: int ensures HoldsOn(next, t, n) <= HoldsOn(cur, t, n) {}
    forall t: Id ensures RoomsOf(cur, t) <= RoomsOf(next, t) {}
    CapacityShrinks(cur, next);
  }

  lemma AcceptLedger(cur: Db, next: Db, id: Id, room: Id)
    requires Ledger(cur) && AcceptMove(cur, next, id, room)
    ensures Ledger(next)
    ensures forall b | b in cur.bookings :: CreationRows(next.history, b) == CreationRows(cur.history, b)
  {
    hide BookingTakes;
    LedgerWithNote(cur, next, HistoryRow(id, BookingAccepted, Some(PendingOwnerApproval), Accepted));
  }

  lemma AcceptLater(cur: Db, next: Db, id: Id, room: Id)
    requires References(cur) && UniqueKeys(cur) && AcceptMove(cur, next, id, room)
    requires forall b | b in cur.bookings :: CreationRows(next.history, b) == CreationRows(cur.history, b)
    ensures UniqueKeys(next) && Later(cur, next) && LinksKept(cur, next)
  {
    hide BookingTakes, CreationRows, CollectionsOf, UniqueKeys, Later, HoldRow;
    assert BookingRow(cur, cur.bookings[id]);
    KeysOfStatusChange(cur, next);
    BookingsMoveLater(cur, next);
  }

  lemma AcceptMoveKeeps(cur: Db, next: Db, id: Id, room: Id)
    requires Inv(cur) && AcceptMove(cur, next, id, room)
    ensures Good(cur, next)
  {
    hide References, NoDoubleBooking, Capacity, HoldLinks, UniqueKeys, Ledger, Later, MoneyKept, LinksKept;
    AcceptReferences(cur, next, id, room);
    AcceptBookings(cur, next, id, room);
    AcceptCapacity(cur, next, id, room);
    AcceptLedger(cur, next, id, room);
    AcceptLater(cur, next, id, room);
    HoldLinksKept(cur, next);
  }

  /** An acceptance that changes anything gives the booking a free room. */
  lemma AcceptMoves(cur: Db, id: Id, existing: Booking)
    requires id in cur.bookings && SameOrigin(existing, cur.bookings[id]) && existing.status == PendingOwnerApproval
    ensures var next := AcceptTx(cur, id, existing).db;
            next != cur ==> exists room ::
              AcceptMove(cur, next, id, room) && room in cur.rooms && !BlockingRoomStatus(cur.rooms[room].status)
  {
    var next := AcceptTx(cur, id, existing).db;
    if next != cur {
      var rooms := FreeRooms(cur, existing.lodge, existing.roomType, existing.stay, Some(id), None);
      assert AcceptMove(cur, next, id, FirstRoom(cur.rooms, rooms));
    }
  }

  lemma AcceptKeeps(cur: Db, id: Id, existing: Booking)
    requires Inv(cur)
    requires id in cur.bookings && SameOrigin(existing, cur.bookings[id]) && existing.status == PendingOwnerApproval
    ensures Good(cur, AcceptTx(cur, id, existing).db)
  {
    hide Inv, Good, AcceptTx;
    var next := AcceptTx(cur, id, existing).db;
    AcceptMoves(cur, id, existing);
    if next == cur {
      SameStateKeeps(cur);
    } else {
      var room :| AcceptMove(cur, next, id, room);
      AcceptMoveKeeps(cur, next, id, room);
    }
  }

  // ---------- Converting a hold ----------

  /** A live hold becomes a booking of the same stay; any room it takes is free for that stay. */
  ghost predicate ConvertMove(cur: Db, next: Db, id: Id, newId: Id, booking: Booking, rows: seq<Collection>) {
    && id in cur.holds && Live(cur.now, cur.holds[id]) && newId !in cur.bookings
    && booking.source == Some(id)
    && CopiesHold(booking, cur.holds[id].(status := HoldConsumed))
    && ActiveStatus(booking.status)
    && (booking.room.Some? ==> forall b | b in cur.bookings ::
          !BookingTakes(cur.bookings[b], booking.room.value, booking.stay))
    && next == Convert(cur, id, newId, booking, rows).(rooms := next.rooms)
    && next.rooms.Keys == cur.rooms.Keys
    && (forall r | r in cur.rooms :: next.rooms[r].lodge == cur.rooms[r].lodge
                                     && next.rooms[r].roomType == cur.rooms[r].roomType)
    && BookingRow(cur, booking)
  }

  lemma ConvertReferences(cur: Db, next: Db, id: Id, newId: Id, booking: Booking, rows: seq<Collection>)
    requires References(cur) && ConvertMove(cur, next, id, newId, booking, rows)
    ensures References(next)
  {
    forall h | h in next.holds ensures HoldRow(next, next.holds[h]) {
      assert HoldRow(cur, cur.holds[h]);
    }
    forall b | b in next.bookings ensures BookingRow(next, next.bookings[b]) {
      assert b == newId || BookingRow(cur, cur.bookings[b]);
    }
  }

  lemma ConvertBookings(cur: Db, next: Db, id: Id, newId: Id, booking: Booking, rows: seq<Collection>)
    requires NoDoubleBooking(cur) && ConvertMove(cur, next, id, newId, booking, rows)
    ensures NoDoubleBooking(next)
  {
    forall a, b | a in next.bookings && b in next.bookings ensures !Conflicting(next, a, b) {
      if a != newId && b != newId {
        assert !Conflicting(cur, a, b);
      }
    }
  }

  /** The new booking takes the place of the hold: no night gains a claim. */
  lemma ConvertCapacity(cur: Db, next: Db, id: Id, newId: Id, booking: Booking, rows: seq<Collection>)
    requires Capacity(cur) && ConvertMove(cur, next, id, newId, booking, rows)
    ensures Capacity(next)
  {
    forall t: Id, n: int ensures Claims(next, t, n) <= |RoomsOf(next, t)| {
      assert Claims(cur, t, n) <= |RoomsOf(cur, t)|;
      ConvertNight(cur, next, id, newId, booking, rows, t, n);
    }
  }

  lemma ConvertHolds(cur: Db, next: Db, id: Id, newId: Id, booking: Booking, rows: seq<Collection>, t: Id, n: int)
    requires ConvertMove(cur, next, id, newId, booking, rows)
    ensures HoldsOn(next, t, n) == HoldsOn(cur, t, n) - {id}
    ensures id in HoldsOn(cur, t, n) <==> t == booking.roomType && Covers(booking.stay, n)
  {
    hide BookingTakes, BookingRow;
    assert next.holds == cur.holds[id := cur.holds[id].(status := HoldConsumed)];
    forall h ensures h in HoldsOn(next, t, n) <==> h in HoldsOn(cur, t, n) - {id} {
    }
  }

  lemma AddedBookingNight(cur: Db, next: Db, newId: Id, booking: Booking, t: Id, n: int)
    requires newId !in cur.bookings && next.bookings == cur.bookings[newId := booking] && ActiveStatus(booking.status)
    ensures newId !in BookingsOn(cur, t, n)
    ensures BookingsOn(next, t, n)
            == BookingsOn(cur, t, n) + if t == booking.roomType && Covers(booking.stay, n) then {newId} else {}
  {
    hide ActiveStatus, Covers;
    forall b | b in cur.bookings ensures b in BookingsOn(next, t, n) <==> b in BookingsOn(cur, t, n) {
      assert next.bookings[b] == cur.bookings[b];
    }
    if t == booking.roomType && Covers(booking.stay, n) {
      assert BookingsOn(next, t, n) == BookingsOn(cur, t, n) + {newId};
    } else {
      assert BookingsOn(next, t, n) == BookingsOn(cur, t, n);
    }
  }

  lemma ConvertNight(cur: Db, next: Db, id: Id, newId: Id, booking: Booking, rows: seq<Collection>, t: Id, n: int)
    requires ConvertMove(cur, next, id, newId, booking, rows)
    ensures RoomsOf(next, t) == RoomsOf(cur, t)
    ensures Claims(next, t, n) == Claims(cur, t, n)
  {
    hide BookingTakes, BookingRow, HoldsOn, BookingsOn;
    ConvertHolds(cur, next, id, newId, booking, rows, t, n);
    assert next.bookings == cur.bookings[newId := booking];
    AddedBookingNight(cur, next, newId, booking, t, n);
    assert RoomsOf(next, t) == RoomsOf(cur, t);
  }

  lemma ConvertLinks(cur: Db, next: Db, id: Id, newId: Id, booking: Booking, rows: seq<Collection>)
    requires HoldLinks(cur) && ConvertMove(cur, next, id, newId, booking, rows)
    ensures HoldLinks(next)
  {
    forall b, h | b != newId ensures MadeFrom(next, b, h) <==> MadeFrom(cur, b, h) {}
    assert forall b :: !MadeFrom(cur, b, id);
    assert MadeFrom(next, newId, id);
    forall h | h in next.holds && next.holds[h].status == HoldConsumed ensures exists b :: MadeFrom(next, b, h) {
      if h != id {
        var b :| MadeFrom(cur, b, h);
        assert MadeFrom(next, b, h);
      }
    }
    forall b, h | MadeFrom(next, b, h) ensures h in next.holds && CopiesHold(next.bookings[b], next.holds[h]) {
      if b != newId {
        assert MadeFrom(cur, b, h);
        assert CopiesHold(cur.bookings[b], cur.holds[h]);
      }
    }
    forall a, b, h | MadeFrom(next, a, h) && MadeFrom(next, b, h) ensures a == b {
      assert a != newId ==> MadeFrom(cur, a, h);
      assert b != newId ==> MadeFrom(cur, b, h);
    }
  }

  /** The new booking has its creation row and, at most, the one collection row inserted with it. */
  ghost predicate ConvertRows(cur: Db, newId: Id, rows: seq<Collection>) {
    && |rows| <= 1 && (forall i | 0 <= i < |rows| :: rows[i].booking == newId)
    && (rows != [] && rows[0].payment.Some? ==>
          forall i | 0 <= i < |cur.collections| :: cur.collections[i].payment != rows[0].payment)
  }

  lemma ConvertHistory(cur: Db, newId: Id, note: HistoryRow, b: Id)
    requires Ledger(cur) && newId !in cur.bookings && note.booking == newId && note.action == BookingCreated
    ensures CreationRows(cur.history + [note], b) == (if b == newId then 1 else CreationRows(cur.history, b))
  {
    AppendHistory(cur.history, note, b);
    if b == newId {
      NoCreationRows(cur.history, newId);
    }
  }

  lemma ConvertCollections(cur: Db, newId: Id, rows: seq<Collection>, b: Id)
    requires Ledger(cur) && newId !in cur.bookings && ConvertRows(cur, newId, rows)
    ensures CollectionsOf(cur.collections + rows, b)
            == (if b == newId then rows else CollectionsOf(cur.collections, b))
  {
    if rows != [] {
      assert rows == [rows[0]];
      AppendCollection(cur.collections, rows[0], b);
    } else {
      assert cur.collections + rows == cur.collections;
    }
    if b == newId {
      NoRows(cur.collections, newId);
    }
  }

  lemma ConvertLogs(cur: Db, next: Db, id: Id, newId: Id, booking: Booking, rows: seq<Collection>)
    requires Ledger(cur) && ConvertMove(cur, next, id, newId, booking, rows) && ConvertRows(cur, newId, rows)
    ensures forall b :: CreationRows(next.history, b) == (if b == newId then 1 else CreationRows(cur.history, b))
    ensures forall b :: CollectionsOf(next.collections, b)
                        == (if b == newId then rows else CollectionsOf(cur.collections, b))
  {
    hide BookingTakes, BookingRow, Ledger, CreationRows, CollectionsOf, ConvertRows;
    var note := HistoryRow(newId, BookingCreated, None, booking.status);
    assert next.history == cur.history + [note] && next.collections == cur.collections + rows;
    forall b: Id
      ensures CreationRows(next.history, b) == (if b == newId then 1 else CreationRows(cur.history, b))
    {
      ConvertHistory(cur, newId, note, b);
    }
    forall b: Id
      ensures CollectionsOf(next.collections, b) == (if b == newId then rows else CollectionsOf(cur.collections, b))
    {
      ConvertCollections(cur, newId, rows, b);
    }
  }

  lemma ConvertPaid(cur: Db, next: Db, id: Id, newId: Id, booking: Booking, rows: seq<Collection>, b: Id)
    requires Ledger(cur) && ConvertMove(cur, next, id, newId, booking, rows)
    requires b in cur.bookings && CollectionsOf(next.collections, b) == CollectionsOf(cur.collections, b)
    ensures PaidAsRecorded(next, b)
  {
    hide CollectionsOf, BookingTakes, BookingRow;
    assert PaidAsRecorded(cur, b);
    assert next.bookings[b] == cur.bookings[b];
  }

  lemma ConvertLedger(cur: Db, next: Db, id: Id, newId: Id, booking: Booking, rows: seq<Collection>)
    requires Ledger(cur) && ConvertMove(cur, next, id, newId, booking, rows) && ConvertRows(cur, newId, rows)
    requires CollectionsOf(next.collections, newId) == rows ==> PaidAsRecorded(next, newId)
    ensures Ledger(next)
    ensures forall b | b in cur.bookings :: CollectionsOf(next.collections, b) == CollectionsOf(cur.collections, b)
    ensures forall b | b in cur.bookings :: CreationRows(next.history, b) == CreationRows(cur.history, b)
  {
    hide PaidAsRecorded, CreationRows, CollectionsOf, BookingTakes, BookingRow;
    ConvertLogs(cur, next, id, newId, booking, rows);
    forall b | b in next.bookings ensures PaidAsRecorded(next, b) {
      if b != newId {
        ConvertPaid(cur, next, id, newId, booking, rows, b);
      }
    }
  }

  lemma ConvertLater(cur: Db, next: Db, id: Id, newId: Id, booking: Booking, rows: seq<Collection>)
    requires UniqueKeys(cur) && ConvertMove(cur, next, id, newId, booking, rows)
    requires forall b | b in cur.bookings :: CollectionsOf(next.collections, b) == CollectionsOf(cur.collections, b)
    requires forall b | b in cur.bookings :: CreationRows(next.history, b) == CreationRows(cur.history, b)
    ensures UniqueKeys(next) && Later(cur, next)
  {
    hide UniqueKeys, CollectionsOf, CreationRows, BookingTakes, CopiesHold, BookingLater;
    KeysOfStatusChange(cur, next);
    forall b | b in cur.bookings ensures BookingLater(cur.bookings[b], next.bookings[b]) {
      SameBookingLater(cur.bookings[b]);
    }
  }

  lemma SameBookingLater(b: Booking)
    ensures BookingLater(b, b)
  {
  }

  lemma ConvertKeeps(cur: Db, next: Db, id: Id, newId: Id, booking: Booking, rows: seq<Collection>)
    requires Inv(cur) && ConvertMove(cur, next, id, newId, booking, rows) && ConvertRows(cur, newId, rows)
    requires CollectionsOf(next.collections, newId) == rows ==> PaidAsRecorded(next, newId)
    ensures Good(cur, next)
  {
    hide References, NoDoubleBooking, Capacity, HoldLinks, UniqueKeys, Ledger, Later, ConvertMove, ConvertRows,
      PaidAsRecorded, CollectionsOf, CreationRows;
    ConvertReferences(cur, next, id, newId, booking, rows);
    ConvertBookings(cur, next, id, newId, booking, rows);
    ConvertCapacity(cur, next, id, newId, booking, rows);
    ConvertLinks(cur, next, id, newId, booking, rows);
    ConvertLedger(cur, next, id, newId, booking, rows);
    ConvertLater(cur, next, id, newId, booking, rows);
  }

  /** What a row read earlier still says about the row of today. */
  ghost predicate SameHold(lock: Hold, hold: Hold) {
    && lock.pilgrim == hold.pilgrim && lock.lodge == hold.lodge && lock.roomType == hold.roomType
    && lock.stay == hold.stay
    && (lock.order.Some? ==> hold.order == lock.order && hold.amount == lock.amount)
  }

  /** A creation that changes anything converts its hold. */
  lemma CreateBookingMoves(cur: Db, id: Id, lock: Hold, user: Id, dto: Request, quote: Option<int>,
                           responseTime: int, newId: Id)
    requires References(cur) && newId !in cur.bookings
    requires id in cur.holds && SameHold(lock, cur.holds[id]) && lock.pilgrim == user
    ensures var next := CreateBookingTx(cur, id, lock, user, dto, quote, responseTime, newId).db;
            next != cur ==>
              && quote.Some? && next.rooms == cur.rooms
              && ConvertMove(cur, next, id, newId,
                             PendingBooking(lock, id, user, dto, quote.value, cur.now + responseTime),
                             PendingRows(newId, dto, quote.value))
  {
    hide FindBySource, CountAvailableRooms;
    assert HoldRow(cur, cur.holds[id]);
  }

  lemma CreateBookingKeeps(cur: Db, id: Id, lock: Hold, user: Id, dto: Request, quote: Option<int>,
                           responseTime: int, newId: Id)
    requires Inv(cur) && newId !in cur.bookings
    requires id in cur.holds && SameHold(lock, cur.holds[id]) && lock.pilgrim == user
    ensures Good(cur, CreateBookingTx(cur, id, lock, user, dto, quote, responseTime, newId).db)
  {
    hide References, NoDoubleBooking, Capacity, HoldLinks, UniqueKeys, Ledger, Good, CreateBookingTx, CollectionsOf,
      BookingRow, CopiesHold;
    var next := CreateBookingTx(cur, id, lock, user, dto, quote, responseTime, newId).db;
    if next == cur {
      SameStateKeeps(cur);
    } else {
      CreateBookingMoves(cur, id, lock, user, dto, quote, responseTime, newId);
      var booking := PendingBooking(lock, id, user, dto, quote.value, cur.now + responseTime);
      ConvertKeeps(cur, next, id, newId, booking, PendingRows(newId, dto, quote.value));
    }
  }

  function PaidRow(newId: Id, lock: Hold, paid: Payment): Collection
    requires lock.amount.Some?
  {
    Collection(newId, lock.amount.value, CollectionPaid, Some(paid.order), Some(paid.payment))
  }

  /** A payment that changes anything converts its hold and takes the first free room for it. */
  lemma PrepaidMoves(cur: Db, id: Id, lock: Hold, user: Id, dto: Request, paid: Payment, skipped: set<Id>, newId: Id)
    requires References(cur) && newId !in cur.bookings
    requires id in cur.holds && SameHold(lock, cur.holds[id]) && lock.pilgrim == user
    requires lock.order == Some(paid.order) && lock.amount.Some?
    ensures var next := PrepaidTx(cur, id, lock, user, dto, paid, skipped, newId).db;
            next != cur ==>
              var rooms := PrepaidRooms(cur, id, lock, skipped);
              && rooms != {} && LeastId(rooms) in cur.rooms
              && ConvertMove(cur, next, id, newId, PrepaidBooking(lock, id, user, LeastId(rooms)),
                             [PaidRow(newId, lock, paid)])
              && next.rooms == cur.rooms[LeastId(rooms) := cur.rooms[LeastId(rooms)].(status := Confirmed)]
              && (forall c | c in cur.collections :: c.payment != Some(paid.payment))
  {
    hide FindBySource, TypeStillBookable;
    assert HoldRow(cur, cur.holds[id]);
  }

  lemma PrepaidKeeps(cur: Db, id: Id, lock: Hold, user: Id, dto: Request, paid: Payment,
                     skipped: set<Id>, newId: Id)
    requires Inv(cur) && newId !in cur.bookings
    requires id in cur.holds && SameHold(lock, cur.holds[id]) && lock.pilgrim == user
    requires lock.order == Some(paid.order) && lock.amount.Some?
    ensures Good(cur, PrepaidTx(cur, id, lock, user, dto, paid, skipped, newId).db)
  {
    hide NoDoubleBooking, Capacity, HoldLinks, UniqueKeys, Ledger, Good, PrepaidTx, PrepaidRooms, CollectionsOf,
      BookingRow;
    var next := PrepaidTx(cur, id, lock, user, dto, paid, skipped, newId).db;
    if next == cur {
      SameStateKeeps(cur);
    } else {
      PrepaidMoves(cur, id, lock, user, dto, paid, skipped, newId);
      var booking := PrepaidBooking(lock, id, user, LeastId(PrepaidRooms(cur, id, lock, skipped)));
      assert HoldRow(cur, cur.holds[id]);
      ConvertKeeps(cur, next, id, newId, booking, [PaidRow(newId, lock, paid)]);
    }
  }

  // ---------- Every step ----------

  lemma CreateBookingStepKeeps(seen: Db, cur: Db, step: Step)
    requires step.StepCreateBooking? && Inv(cur) && Later(seen, cur) && Enabled(seen, cur, step)
    ensures Good(cur, Apply(seen, cur, step).db)
  {
    hide Inv, Good, CreateBookingTx, BookingLater;
    var found := CreateBookingReads(seen, step.hold, step.user, step.dto);
    if found.Proceed? {
      assert HoldLater(seen.now, seen.holds[step.hold], cur.now, cur.holds[step.hold]);
      CreateBookingKeeps(cur, step.hold, found.row, step.user, step.dto, step.quote, step.responseTime, step.newId);
    } else {
      SameStateKeeps(cur);
    }
  }

  lemma PrepaidStepKeeps(seen: Db, cur: Db, step: Step)
    requires step.StepPrepaid? && Inv(cur) && Later(seen, cur) && Enabled(seen, cur, step)
    ensures Good(cur, Apply(seen, cur, step).db)
  {
    hide Inv, Good, PrepaidTx, BookingLater;
    var found := PrepaidReads(seen, step.hold, step.user, step.dto, step.paid);
    if found.Proceed? {
      assert HoldLater(seen.now, seen.holds[step.hold], cur.now, cur.holds[step.hold]);
      PrepaidKeeps(cur, step.hold, found.row, step.user, step.dto, step.paid, step.skipped, step.newId);
    } else {
      SameStateKeeps(cur);
    }
  }

  lemma AcceptStepKeeps(seen: Db, cur: Db, step: Step)
    requires step.StepAccept? && Inv(cur) && Later(seen, cur)
    ensures Good(cur, Apply(seen, cur, step).db)
  {
    hide Inv, Good, AcceptTx, HoldLater;
    var found := OwnerReads(seen, step.booking, step.manages);
    if found.Proceed? {
      assert BookingLater(seen.bookings[step.booking], cur.bookings[step.booking]);
      AcceptKeeps(cur, step.booking, found.row);
    } else {
      SameStateKeeps(cur);
    }
  }

  lemma ReleasingStepKeeps(seen: Db, cur: Db, step: Step)
    requires step.StepCancel? || step.StepReject? || step.StepExpireBooking?
    requires Inv(cur)
    ensures Good(cur, Apply(seen, cur, step).db)
  {
    hide Inv, Good, CancelTx, BlindWrite;
    SameStateKeeps(cur);
    match step
    case StepCancel(booking, user, admin) =>
      var found := CancelReads(seen, booking, user, admin);
      if found.Proceed? {
        CancelKeeps(cur, booking, found.row);
      }
    case StepReject(booking, manages) =>
      var found := OwnerReads(seen, booking, manages);
      if found.Proceed? {
        BlindWriteKeeps(cur, booking, Rejected);
      }
    case StepExpireBooking(booking) =>
      if booking in seen.bookings {
        BlindWriteKeeps(cur, booking, Expired);
      }
  }

  lemma EnvironmentStepKeeps(seen: Db, cur: Db, step: Step)
    requires step.Tick? || step.Environment?
    requires Inv(cur) && Enabled(seen, cur, step)
    ensures Good(cur, Apply(seen, cur, step).db)
  {
    hide NoDoubleBooking, Capacity, HoldLinks, UniqueKeys, Ledger, Good, HoldRow, BookingRow;
    var next := Apply(seen, cur, step).db;
    assert EnvironmentMove(cur, next);
    EnvironmentKeeps(cur, next);
  }

  /** The deployed write of an order is the guarded one exactly when the hold is live and has none. */
  lemma WriteOrderIsGuarded(db: Db, id: Id, order: Id, amount: int, extension: int)
    ensures WriteOrderTx(db, id, order, amount, extension) == AttachProviderOrder(db, id, order, amount, extension)
            <==> id in db.holds && Live(db.now, db.holds[id]) && db.holds[id].order.None?
  {
    if id in db.holds && Live(db.now, db.holds[id]) && db.holds[id].order.None? {
      assert forall h | h in db.holds && db.holds[h].order == Some(order) :: h != id;
    }
  }

  lemma OrderStepKeeps(seen: Db, cur: Db, step: Step)
    requires step.StepCreateOrder? && Inv(cur) && Later(seen, cur) && Enabled(seen, cur, step)
    ensures Good(cur, Apply(seen, cur, step).db)
  {
    hide Inv, Good, Later, WriteOrderTx, AttachProviderOrder, GetAvailability;
    SameStateKeeps(cur);
    var resolved := ResolveLockForPrepay(seen, step.hold, step.user, step.quote);
    if resolved.Ok? && !(resolved.value.order.Some? && resolved.value.orderAmount.Some?) {
      LiveHoldOrder(cur, step.hold);
      WriteOrderIsGuarded(cur, step.hold, step.order, resolved.value.amount, step.extension);
      AttachKeeps(cur, step.hold, step.order, resolved.value.amount, step.extension);
    }
  }

  lemma LiveHoldOrder(cur: Db, id: Id)
    requires Inv(cur) && id in cur.holds
    ensures cur.holds[id].order.Some? <==> cur.holds[id].amount.Some?
  {
    hide NoDoubleBooking, Capacity, HoldLinks, UniqueKeys, Ledger, BookingRow;
    assert HoldRow(cur, cur.holds[id]);
  }

  lemma TransitionStepKeeps(seen: Db, cur: Db, step: Step)
    requires step.StepTransition? && Inv(cur) && Later(seen, cur) && Enabled(seen, cur, step)
    ensures Good(cur, Apply(seen, cur, step).db)
  {
    hide Inv, Good, TransitionTx, HoldLater;
    SameStateKeeps(cur);
    if TransitionReads(seen, step.booking, step.transition).Proceed? {
      assert BookingLater(seen.bookings[step.booking], cur.bookings[step.booking]);
      TransitionKeeps(cur, step.booking, step.transition);
    }
  }

  /** One step, however stale its reads, keeps the invariant and moves every row forward. */
  lemma StepKeeps(seen: Db, cur: Db, step: Step)
    requires Inv(cur) && Later(seen, cur) && Enabled(seen, cur, step)
    ensures Good(cur, Apply(seen, cur, step).db)
  {
    hide Inv, Good, Later;
    match step
    case Tick(_) => EnvironmentStepKeeps(seen, cur, step);
    case Environment(_, _, _, _) => EnvironmentStepKeeps(seen, cur, step);
    case StepCreateLock(user, lodge, roomType, checkIn, checkOut, key, quote, ttl, newId) =>
      CreateLockKeeps(cur, user, lodge, roomType, checkIn, checkOut, key, quote, ttl, newId);
    case StepAttachOrder(hold, order, amount, extension) => AttachKeeps(cur, hold, order, amount, extension);
    case StepCreateOrder(_, _, _, _, _) => OrderStepKeeps(seen, cur, step);
    case StepReleaseLock(hold, user) => ReleaseKeeps(cur, hold, user);
    case StepExpireLocks => ExpireLocksKeeps(cur);
    case StepCreateBooking(_, _, _, _, _, _) => CreateBookingStepKeeps(seen, cur, step);
    case StepPrepaid(_, _, _, _, _, _) => PrepaidStepKeeps(seen, cur, step);
    case StepCancel(_, _, _) => ReleasingStepKeeps(seen, cur, step);
    case StepAccept(_, _) => AcceptStepKeeps(seen, cur, step);
    case StepReject(_, _) => ReleasingStepKeeps(seen, cur, step);
    case StepExpireBooking(_) => ReleasingStepKeeps(seen, cur, step);
    case StepTransition(_, _) => TransitionStepKeeps(seen, cur, step);
    case StepNote(row) => NoteKeeps(cur, row);
  }
}
