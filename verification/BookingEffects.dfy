/**
 * What each call leaves behind, said of the rows themselves: exactly when it changes anything, and
 * then every field it writes. The conditions are written out here from the rows, apart from the
 * queries and checks by which the services arrive at them.
 */
module BookingEffects {
  import opened Wrappers
  import opened Inventory
  import opened BookingSteps
  import opened BookingInvariant
  import opened BookingPreservation
  import opened BookingRuns

  // ---------- Rooms and claims of a window ----------

  predicate Apart(stay: Stay, from: int, to: int) {
    stay.checkOut <= from || to <= stay.checkIn
  }

  /** The room can be sold for every night from `from` until `to`, but for what two rows say. */
  predicate Sellable(db: Db, r: Id, from: int, to: int, booking: Option<Id>, hold: Option<Id>)
    requires r in db.rooms
  {
    && db.rooms[r].active && !db.rooms[r].deleted
    && db.rooms[r].status != Occupied && db.rooms[r].status != Maintenance && db.rooms[r].status != Blocked
    && (forall n | from <= n < to :: Block(r, n) !in db.blocks)
    && (forall b | b in db.bookings && db.bookings[b].room == Some(r) && Some(b) != booking ::
          Apart(db.bookings[b].stay, from, to)
          || db.bookings[b].status !in {PendingOwnerApproval, Accepted, QrGenerated, CheckedIn})
    && (forall h | h in db.holds && db.holds[h].room == Some(r) && Some(h) != hold ::
          Apart(db.holds[h].stay, from, to) || db.holds[h].status != HoldActive || db.holds[h].expiresAt <= db.now)
  }

  function SellableRooms(db: Db, lodge: Id, t: Id, from: int, to: int, booking: Option<Id>, hold: Option<Id>): set<Id> {
    set r | r in db.rooms && db.rooms[r].lodge == lodge && db.rooms[r].roomType == t
            && Sellable(db, r, from, to, booking, hold)
  }

  /** Bookings that wait for a room in the window. */
  function WaitingBookings(db: Db, lodge: Id, t: Id, from: int, to: int): set<Id> {
    set b | b in db.bookings && db.bookings[b].lodge == lodge && db.bookings[b].roomType == t
            && db.bookings[b].room == None && !Apart(db.bookings[b].stay, from, to)
            && db.bookings[b].status in {PendingOwnerApproval, Accepted, QrGenerated, CheckedIn}
  }

  /** Holds that wait for a room in the window, but for the caller's own. */
  function WaitingHolds(db: Db, lodge: Id, t: Id, from: int, to: int, own: Option<Id>): set<Id> {
    set h | h in db.holds && Some(h) != own && db.holds[h].lodge == lodge && db.holds[h].roomType == t
            && db.holds[h].room == None && !Apart(db.holds[h].stay, from, to)
            && db.holds[h].status == HoldActive && db.holds[h].expiresAt > db.now
  }

  predicate RoomLeftFor(db: Db, lodge: Id, t: Id, from: int, to: int, own: Option<Id>) {
    |SellableRooms(db, lodge, t, from, to, None, own)|
    > |WaitingBookings(db, lodge, t, from, to)| + |WaitingHolds(db, lodge, t, from, to, own)|
  }

  predicate OnSale(db: Db, lodge: Id, t: Id) {
    && t in db.types && db.types[t].lodge == lodge && db.types[t].active && !db.types[t].deleted
    && lodge in db.lodges && db.lodges[lodge].active && !db.lodges[lodge].deleted && db.lodges[lodge].verified
  }

  lemma SellableIsFree(db: Db, lodge: Id, t: Id, stay: Stay, booking: Option<Id>, hold: Option<Id>)
    ensures FreeRooms(db, lodge, t, stay, booking, hold)
            == SellableRooms(db, lodge, t, stay.checkIn, stay.checkOut, booking, hold)
  {
    forall r | r in db.rooms
      ensures RoomFree(db, r, stay, booking, hold) == Sellable(db, r, stay.checkIn, stay.checkOut, booking, hold)
    {
      SameRoomTest(db, r, stay, booking, hold);
    }
  }

  lemma SameRoomTest(db: Db, r: Id, stay: Stay, booking: Option<Id>, hold: Option<Id>)
    requires r in db.rooms
    ensures RoomFree(db, r, stay, booking, hold) == Sellable(db, r, stay.checkIn, stay.checkOut, booking, hold)
  {
    if RoomFree(db, r, stay, booking, hold) {
      forall b | b in db.bookings && db.bookings[b].room == Some(r) && Some(b) != booking
        ensures Apart(db.bookings[b].stay, stay.checkIn, stay.checkOut)
                || db.bookings[b].status !in {PendingOwnerApproval, Accepted, QrGenerated, CheckedIn}
      {
        assert !BookingTakes(db.bookings[b], r, stay);
      }
      forall h | h in db.holds && db.holds[h].room == Some(r) && Some(h) != hold
        ensures Apart(db.holds[h].stay, stay.checkIn, stay.checkOut) || db.holds[h].status != HoldActive
                || db.holds[h].expiresAt <= db.now
      {
        assert !HoldTakes(db.now, db.holds[h], r, stay);
      }
    }
  }

  lemma WaitingIsUnassigned(db: Db, lodge: Id, t: Id, stay: Stay, own: Option<Id>)
    ensures UnassignedBookings(db, lodge, t, stay, None) == WaitingBookings(db, lodge, t, stay.checkIn, stay.checkOut)
    ensures UnassignedHolds(db, lodge, t, stay, own) == WaitingHolds(db, lodge, t, stay.checkIn, stay.checkOut, own)
  {
  }

  /** The availability answer: a positive count exactly when the type is on sale with room left for one more. */
  lemma AvailableExactly(db: Db, lodge: Id, t: Id, stay: Stay, own: Option<Id>, quote: Option<int>)
    ensures var r := GetAvailability(db, lodge, t, stay, own, quote);
            (r.Ok? && r.value > 0) <==>
              && stay.checkIn < stay.checkOut && OnSale(db, lodge, t) && quote.Some?
              && RoomLeftFor(db, lodge, t, stay.checkIn, stay.checkOut, own)
  {
    SellableIsFree(db, lodge, t, stay, None, own);
    WaitingIsUnassigned(db, lodge, t, stay, own);
    hide FreeRooms, UnassignedBookings, UnassignedHolds, SellableRooms, WaitingBookings, WaitingHolds;
  }

  // ---------- Taking a hold ----------

  predicate KeyChar(c: char) {
    'a' <= c <= 'z' || 'A' <= c <= 'Z' || '0' <= c <= '9' || c in {'_', '-'}
  }

  /** No key, or a key of 16 to 128 of its characters that no hold of the caller carries. */
  predicate FreshKey(db: Db, user: Id, key: Option<string>) {
    key.Some? ==>
      && 16 <= |key.value| <= 128 && (forall i | 0 <= i < |key.value| :: KeyChar(key.value[i]))
      && forall h | h in db.holds :: db.holds[h].pilgrim != user || db.holds[h].attempt != key
  }

  /**
   * A call takes a hold exactly when its key is fresh, the range has a night, the type is on sale and a
   * room is left; the hold is then the caller's for that type, those nights and that key, it runs for
   * the given time and has no order, and nothing else changes.
   */
  lemma LockExactly(seen: Db, cur: Db, step: Step)
    requires step.StepCreateLock? && step.newId !in cur.holds
    ensures var r := Apply(seen, cur, step);
            && (r.db != cur <==>
                  && FreshKey(cur, step.user, step.key) && step.checkIn < step.checkOut
                  && OnSale(cur, step.lodge, step.roomType) && step.quote.Some?
                  && RoomLeftFor(cur, step.lodge, step.roomType, step.checkIn, step.checkOut, None))
            && (r.db != cur ==>
                  && r.reply == Ok(step.newId) && step.newId in r.db.holds
                  && r.db == cur.(holds := cur.holds[step.newId := r.db.holds[step.newId]])
                  && var hold := r.db.holds[step.newId];
                  && hold.pilgrim == step.user && hold.lodge == step.lodge && hold.roomType == step.roomType
                  && hold.stay == Stay(step.checkIn, step.checkOut) && hold.room == None
                  && hold.attempt == step.key && hold.status == HoldActive
                  && hold.expiresAt == cur.now + step.ttl && hold.order == None && hold.amount == None)
  {
    AvailableExactly(cur, step.lodge, step.roomType, Stay(step.checkIn, step.checkOut), None, step.quote);
    hide GetAvailability, RoomLeftFor, OnSale;
    if step.key.Some? {
      var found := FindAttempt(cur, step.user, step.key.value);
      assert found.Some? <==>
        exists h :: h in cur.holds && cur.holds[h].pilgrim == step.user && cur.holds[h].attempt == step.key;
    }
  }

  // ---------- The end of a hold ----------

  /** The caller's own active hold is released at this moment; no other row changes. */
  lemma ReleaseExactly(seen: Db, cur: Db, step: Step)
    requires step.StepReleaseLock?
    ensures var next := Apply(seen, cur, step).db;
            if step.hold in cur.holds && cur.holds[step.hold].pilgrim == step.user
               && cur.holds[step.hold].status == HoldActive then
              && step.hold in next.holds && next.holds[step.hold].status == HoldReleased
              && next == cur.(holds := cur.holds[step.hold :=
                                cur.holds[step.hold].(status := HoldReleased, expiresAt := cur.now)])
            else next == cur
  {
  }

  /** Exactly the active holds whose time is up become expired. */
  lemma ExpiryExactly(seen: Db, cur: Db, step: Step)
    requires step.StepExpireLocks?
    ensures var next := Apply(seen, cur, step).db;
            && next == cur.(holds := next.holds) && next.holds.Keys == cur.holds.Keys
            && forall h | h in cur.holds ::
                 next.holds[h] == if cur.holds[h].status == HoldActive && cur.holds[h].expiresAt <= cur.now
                                  then cur.holds[h].(status := HoldExpired) else cur.holds[h]
  {
  }

  // ---------- Orders ----------

  /** The guarded update: a live hold without an order, and an order nobody has. */
  lemma AttachExactly(seen: Db, cur: Db, step: Step)
    requires step.StepAttachOrder?
    ensures var r := Apply(seen, cur, step);
            if step.hold in cur.holds && cur.holds[step.hold].status == HoldActive
               && cur.holds[step.hold].expiresAt > cur.now && cur.holds[step.hold].order == None
               && forall h | h in cur.holds :: cur.holds[h].order != Some(step.order) then
              && r.reply == Ok(step.hold)
              && r.db == cur.(holds := cur.holds[step.hold :=
                                cur.holds[step.hold].(order := Some(step.order), amount := Some(step.amount),
                                                      expiresAt := cur.now + step.extension)])
            else r.reply.Err? && r.db == cur
  {
  }

  /** The hold can be paid for: it is the caller's and live, its type is on sale and a room is left. */
  predicate Payable(seen: Db, step: Step)
    requires step.StepCreateOrder?
  {
    && step.hold in seen.holds && seen.holds[step.hold].pilgrim == step.user
    && seen.holds[step.hold].status == HoldActive && seen.holds[step.hold].expiresAt > seen.now
    && var lock := seen.holds[step.hold];
    && lock.stay.checkIn < lock.stay.checkOut && OnSale(seen, lock.lodge, lock.roomType) && step.quote.Some?
    && RoomLeftFor(seen, lock.lodge, lock.roomType, lock.stay.checkIn, lock.stay.checkOut, Some(step.hold))
  }

  /**
   * An order is written exactly for a payable hold without one, at a positive price, under an order no
   * other hold has; it is for the price quoted, and the hold runs on for the given time.
   */
  lemma OrderExactly(seen: Db, cur: Db, step: Step)
    requires step.StepCreateOrder? && Enabled(seen, cur, step)
    requires step.hold in seen.holds ==> (seen.holds[step.hold].order.Some? <==> seen.holds[step.hold].amount.Some?)
    ensures var r := Apply(seen, cur, step);
            if Payable(seen, step) && seen.holds[step.hold].order == None && step.quote.value > 0
               && forall h | h in cur.holds && h != step.hold :: cur.holds[h].order != Some(step.order) then
              && r.reply == Ok(step.hold) && step.hold in cur.holds
              && r.db == cur.(holds := cur.holds[step.hold :=
                                cur.holds[step.hold].(order := Some(step.order), amount := Some(step.quote.value),
                                                      expiresAt := cur.now + step.extension)])
            else
              r.db == cur && (r.reply.Ok? <==> Payable(seen, step) && seen.holds[step.hold].order.Some?)
  {
    if step.hold in seen.holds {
      var lock := seen.holds[step.hold];
      AvailableExactly(seen, lock.lodge, lock.roomType, lock.stay, Some(step.hold), step.quote);
    }
    hide GetAvailability, RoomLeftFor;
  }

  // ---------- Creating a booking ----------

  /** What a creation asks of the rows it reads first: the caller's live hold, fit for the guests. */
  predicate HoldServes(seen: Db, id: Id, user: Id, dto: Request) {
    && id in seen.holds && seen.holds[id].pilgrim == user
    && seen.holds[id].status == HoldActive && seen.holds[id].expiresAt > seen.now
    && (forall b | b in seen.bookings :: seen.bookings[b].source != Some(id))
    && var lock := seen.holds[id];
    && lock.lodge in seen.lodges && seen.lodges[lock.lodge].verified
    && lock.roomType in seen.types && seen.types[lock.roomType].active && !seen.types[lock.roomType].deleted
    && dto.adults <= seen.types[lock.roomType].adults && dto.children <= seen.types[lock.roomType].children
    && dto.idProofOwned
  }

  /** What it asks of the rows it writes: the hold is still live and nothing has been made from it. */
  predicate HoldStillOpen(cur: Db, id: Id) {
    && id in cur.holds && cur.holds[id].status == HoldActive && cur.holds[id].expiresAt > cur.now
    && forall b | b in cur.bookings :: cur.bookings[b].source != Some(id)
  }

  predicate MayBook(seen: Db, cur: Db, step: Step)
    requires step.StepCreateBooking?
  {
    && HoldServes(seen, step.hold, step.user, step.dto) && seen.holds[step.hold].order == None
    && HoldStillOpen(cur, step.hold)
    && var lock := seen.holds[step.hold];
    && lock.stay.checkIn < lock.stay.checkOut && OnSale(cur, lock.lodge, lock.roomType) && step.quote.Some?
    && RoomLeftFor(cur, lock.lodge, lock.roomType, lock.stay.checkIn, lock.stay.checkOut, Some(step.hold))
    && (step.dto.online ==> step.quote.value > 0)
  }

  lemma NoSource(db: Db, id: Id)
    ensures FindBySource(db, id).None? <==> forall b | b in db.bookings :: db.bookings[b].source != Some(id)
  {
  }

  /** The rows a creation leaves: the hold consumed, one booking, one history row, the collections given. */
  ghost predicate Booked(cur: Db, next: Db, id: Id, newId: Id, rows: seq<Collection>) {
    && id in cur.holds && newId in next.bookings
    && next == cur.(holds := cur.holds[id := cur.holds[id].(status := HoldConsumed)],
                    bookings := cur.bookings[newId := next.bookings[newId]],
                    history := cur.history + [HistoryRow(newId, BookingCreated, None, next.bookings[newId].status)],
                    collections := cur.collections + rows, rooms := next.rooms)
  }

  /** The new booking is the caller's, for the lodge, type and nights of the hold it names. */
  predicate ForHold(booking: Booking, lock: Hold, id: Id, user: Id) {
    && booking.pilgrim == user && booking.lodge == lock.lodge && booking.roomType == lock.roomType
    && booking.stay.checkIn == lock.stay.checkIn && booking.stay.checkOut == lock.stay.checkOut
    && booking.source == Some(id)
  }

  lemma CreationReads(seen: Db, id: Id, user: Id, dto: Request)
    ensures var r := CreateBookingReads(seen, id, user, dto);
            && (r.Proceed? <==> HoldServes(seen, id, user, dto) && seen.holds[id].order == None)
            && (r.Proceed? ==> r.row == seen.holds[id]) && (id !in seen.holds ==> !HoldServes(seen, id, user, dto))
  {
    NoSource(seen, id);
    hide FindBySource;
  }

  /** What the transaction asks of the rows it meets. */
  predicate MayWriteBooking(cur: Db, id: Id, lock: Hold, dto: Request, quote: Option<int>) {
    && HoldStillOpen(cur, id)
    && lock.stay.checkIn < lock.stay.checkOut && OnSale(cur, lock.lodge, lock.roomType) && quote.Some?
    && RoomLeftFor(cur, lock.lodge, lock.roomType, lock.stay.checkIn, lock.stay.checkOut, Some(id))
    && (dto.online ==> quote.value > 0)
  }

  lemma CreationWrites(cur: Db, id: Id, lock: Hold, user: Id, dto: Request, quote: Option<int>, responseTime: int,
                       newId: Id)
    requires newId !in cur.bookings
    ensures var r := CreateBookingTx(cur, id, lock, user, dto, quote, responseTime, newId);
            if MayWriteBooking(cur, id, lock, dto, quote) then
              && r.reply == Ok(newId) && r.db.rooms == cur.rooms
              && Booked(cur, r.db, id, newId,
                        if dto.online then [Collection(newId, quote.value, CollectionPending, None, None)] else [])
              && var booking := r.db.bookings[newId];
              && ForHold(booking, lock, id, user)
              && booking.status == PendingOwnerApproval && booking.room == None && booking.total == quote.value
              && booking.payment == (if dto.online then PaymentPending else PayAtLodge)
              && booking.deadline == Some(cur.now + responseTime)
            else r.db == cur
  {
    NoSource(cur, id);
    AvailableExactly(cur, lock.lodge, lock.roomType, lock.stay, Some(id), quote);
    hide GetAvailability, RoomLeftFor, FindBySource, OnSale;
  }

  /**
   * A booking is made exactly when the hold serves and is still open, the type is on sale with a room
   * left, and an online price is positive. It waits for the owner, without a room, at the price quoted.
   */
  lemma CreationExactly(seen: Db, cur: Db, step: Step)
    requires step.StepCreateBooking? && step.newId !in cur.bookings
    ensures var r := Apply(seen, cur, step);
            && (r.db != cur <==> MayBook(seen, cur, step))
            && (r.db != cur ==>
                  && r.reply == Ok(step.newId) && r.db.rooms == cur.rooms
                  && Booked(cur, r.db, step.hold, step.newId,
                            if step.dto.online
                            then [Collection(step.newId, step.quote.value, CollectionPending, None, None)] else [])
                  && var booking := r.db.bookings[step.newId];
                  && ForHold(booking, seen.holds[step.hold], step.hold, step.user)
                  && booking.status == PendingOwnerApproval && booking.room == None
                  && booking.total == step.quote.value
                  && booking.payment == (if step.dto.online then PaymentPending else PayAtLodge)
                  && booking.deadline == Some(cur.now + step.responseTime))
  {
    hide CreateBookingReads, CreateBookingTx, HoldServes, HoldStillOpen, OnSale, RoomLeftFor, ForHold;
    CreationReads(seen, step.hold, step.user, step.dto);
    if step.hold in seen.holds {
      CreationWrites(cur, step.hold, seen.holds[step.hold], step.user, step.dto, step.quote, step.responseTime,
                     step.newId);
    }
  }

  predicate MayPay(seen: Db, cur: Db, step: Step)
    requires step.StepPrepaid?
  {
    && HoldServes(seen, step.hold, step.user, step.dto)
    && seen.holds[step.hold].order == Some(step.paid.order)
    && seen.holds[step.hold].amount == Some(step.paid.amount) && step.paid.inr && step.paid.amount > 0
    && HoldStillOpen(cur, step.hold)
    && var t := seen.holds[step.hold].roomType;
    && t in cur.types && OnSale(cur, cur.types[t].lodge, t)
    && step.dto.adults <= cur.types[t].adults && step.dto.children <= cur.types[t].children
    && PayableRooms(seen, cur, step) != {}
    && forall c | c in cur.collections :: c.payment != Some(step.paid.payment)
  }

  function PayableRooms(seen: Db, cur: Db, step: Step): set<Id>
    requires step.StepPrepaid? && step.hold in seen.holds
  {
    var lock := seen.holds[step.hold];
    SellableRooms(cur, lock.lodge, lock.roomType, lock.stay.checkIn, lock.stay.checkOut, None, Some(step.hold))
    - step.skipped
  }

  lemma PaymentReads(seen: Db, id: Id, user: Id, dto: Request, paid: Payment)
    ensures var r := PrepaidReads(seen, id, user, dto, paid);
            && (r.Proceed? <==>
                  && HoldServes(seen, id, user, dto) && seen.holds[id].order == Some(paid.order)
                  && seen.holds[id].amount == Some(paid.amount) && paid.inr)
            && (r.Proceed? ==> r.row == seen.holds[id]) && (id !in seen.holds ==> !HoldServes(seen, id, user, dto))
  {
    NoSource(seen, id);
    hide FindBySource;
  }

  /** The rooms nobody has locked that can be sold for the nights of the hold. */
  function TakeableRooms(cur: Db, id: Id, lock: Hold, skipped: set<Id>): set<Id> {
    SellableRooms(cur, lock.lodge, lock.roomType, lock.stay.checkIn, lock.stay.checkOut, None, Some(id)) - skipped
  }

  /** What the transaction of a payment asks of the rows it meets. */
  predicate MayWritePayment(cur: Db, id: Id, lock: Hold, dto: Request, paid: Payment, skipped: set<Id>) {
    && HoldStillOpen(cur, id)
    && lock.roomType in cur.types && OnSale(cur, cur.types[lock.roomType].lodge, lock.roomType)
    && dto.adults <= cur.types[lock.roomType].adults && dto.children <= cur.types[lock.roomType].children
    && TakeableRooms(cur, id, lock, skipped) != {} && paid.amount > 0
    && forall c | c in cur.collections :: c.payment != Some(paid.payment)
  }

  lemma PaymentWrites(cur: Db, id: Id, lock: Hold, user: Id, dto: Request, paid: Payment, skipped: set<Id>, newId: Id)
    requires lock.amount == Some(paid.amount) && newId !in cur.bookings
    ensures var r := PrepaidTx(cur, id, lock, user, dto, paid, skipped, newId);
            if MayWritePayment(cur, id, lock, dto, paid, skipped) then
              && r.reply == Ok(newId)
              && Booked(cur, r.db, id, newId,
                        [Collection(newId, paid.amount, CollectionPaid, Some(paid.order), Some(paid.payment))])
              && var booking := r.db.bookings[newId];
              && ForHold(booking, lock, id, user)
              && booking.status == Accepted && booking.payment == FullyPaid
              && booking.total == paid.amount && booking.deadline == None
              && booking.room.Some? && booking.room.value in TakeableRooms(cur, id, lock, skipped)
              && (forall x | x in TakeableRooms(cur, id, lock, skipped) :: booking.room.value <= x)
              && booking.room.value in cur.rooms
              && r.db.rooms == cur.rooms[booking.room.value :=
                                 cur.rooms[booking.room.value].(status := Confirmed)]
            else r.db == cur
  {
    NoSource(cur, id);
    SellableIsFree(cur, lock.lodge, lock.roomType, lock.stay, None, Some(id));
    RoomsAreThere(cur, lock.lodge, lock.roomType, lock.stay, None, Some(id));
    hide FreeRooms, SellableRooms, FindBySource;
  }

  /**
   * A payment makes a booking exactly when the hold serves with that order and amount and is still
   * open, the type is on sale for the guests, and a room that nobody has locked is sellable. The
   * booking is accepted and paid, in the first such room, which is confirmed.
   */
  lemma PaymentExactly(seen: Db, cur: Db, step: Step)
    requires step.StepPrepaid? && step.newId !in cur.bookings
    ensures var r := Apply(seen, cur, step);
            && (r.db != cur <==> MayPay(seen, cur, step))
            && (r.db != cur ==>
                  && r.reply == Ok(step.newId)
                  && Booked(cur, r.db, step.hold, step.newId,
                            [Collection(step.newId, step.paid.amount, CollectionPaid, Some(step.paid.order),
                                        Some(step.paid.payment))])
                  && var booking := r.db.bookings[step.newId];
                  && ForHold(booking, seen.holds[step.hold], step.hold, step.user)
                  && booking.status == Accepted && booking.payment == FullyPaid
                  && booking.total == step.paid.amount && booking.deadline == None
                  && booking.room.Some? && booking.room.value in PayableRooms(seen, cur, step)
                  && (forall x | x in PayableRooms(seen, cur, step) :: booking.room.value <= x)
                  && booking.room.value in cur.rooms
                  && r.db.rooms == cur.rooms[booking.room.value :=
                                     cur.rooms[booking.room.value].(status := Confirmed)])
  {
    hide PrepaidReads, PrepaidTx, HoldServes, HoldStillOpen, OnSale, ForHold, SellableRooms;
    PaymentReads(seen, step.hold, step.user, step.dto, step.paid);
    if step.hold in seen.holds && seen.holds[step.hold].amount == Some(step.paid.amount) {
      PaymentWrites(cur, step.hold, seen.holds[step.hold], step.user, step.dto, step.paid, step.skipped, step.newId);
    }
  }

  lemma RoomsAreThere(db: Db, lodge: Id, t: Id, stay: Stay, booking: Option<Id>, hold: Option<Id>)
    ensures FreeRooms(db, lodge, t, stay, booking, hold) <= db.rooms.Keys
  {
  }

  // ---------- After creation ----------

  /** The caller may cancel what was read, and it can still be cancelled. */
  predicate MayCancel(seen: Db, cur: Db, step: Step)
    requires step.StepCancel?
  {
    && step.booking in seen.bookings && (seen.bookings[step.booking].pilgrim == step.user || step.admin)
    && seen.bookings[step.booking].status in {PendingOwnerApproval, Accepted, QrGenerated}
    && step.booking in cur.bookings
    && cur.bookings[step.booking].status in {PendingOwnerApproval, Accepted, QrGenerated}
  }

  lemma CancellationReads(seen: Db, id: Id, user: Id, admin: bool)
    ensures var r := CancelReads(seen, id, user, admin);
            && (id in seen.bookings ==>
                  (r == Stop(Forbidden) <==> seen.bookings[id].pilgrim != user && !admin))
            && (id !in seen.bookings ==> r == Stop(NotFound))
            && (r.Proceed? <==>
                  && id in seen.bookings && (seen.bookings[id].pilgrim == user || admin)
                  && seen.bookings[id].status in {PendingOwnerApproval, Accepted, QrGenerated})
            && (r.Proceed? ==> r.row == seen.bookings[id])
  {
  }

  lemma CancellationWrites(cur: Db, id: Id, existing: Booking)
    ensures var r := CancelTx(cur, id, existing);
            && r.reply != Err(Service(Forbidden))
            && if id in cur.bookings && cur.bookings[id].status in {PendingOwnerApproval, Accepted, QrGenerated} then
                 var room := cur.bookings[id].room;
                 && r.reply == Ok(id)
                 && r.db == cur.(bookings := cur.bookings[id := cur.bookings[id].(status := Cancelled)],
                                 rooms := r.db.rooms,
                                 history := cur.history + [HistoryRow(id, CancelledByPilgrim,
                                                                      Some(existing.status), Cancelled)])
                 && r.db.rooms == (if room.Some? && room.value in cur.rooms
                                      && cur.rooms[room.value].status in {Confirmed, Reserved}
                                   then cur.rooms[room.value := cur.rooms[room.value].(status := Available)]
                                   else cur.rooms)
               else r.db == cur
  {
  }

  /**
   * A cancellation is made exactly by the pilgrim or an administrator, of a booking not yet begun; its
   * room goes back on sale if it was kept for it. A stranger is refused.
   */
  lemma CancelExactly(seen: Db, cur: Db, step: Step)
    requires step.StepCancel?
    ensures var r, id := Apply(seen, cur, step), step.booking;
            && (id in seen.bookings ==>
                  (r.reply == Err(Service(Forbidden)) <==> seen.bookings[id].pilgrim != step.user && !step.admin))
            && if MayCancel(seen, cur, step) then
                 var room := cur.bookings[id].room;
                 && r.reply == Ok(id)
                 && r.db == cur.(bookings := cur.bookings[id := cur.bookings[id].(status := Cancelled)],
                                 rooms := r.db.rooms,
                                 history := cur.history + [HistoryRow(id, CancelledByPilgrim,
                                                                      Some(seen.bookings[id].status), Cancelled)])
                 && r.db.rooms == (if room.Some? && room.value in cur.rooms
                                      && cur.rooms[room.value].status in {Confirmed, Reserved}
                                   then cur.rooms[room.value := cur.rooms[room.value].(status := Available)]
                                   else cur.rooms)
               else r.db == cur
  {
    hide CancelReads, CancelTx;
    CancellationReads(seen, step.booking, step.user, step.admin);
    if step.booking in seen.bookings {
      CancellationWrites(cur, step.booking, seen.bookings[step.booking]);
    }
  }

  /** The owner may decide what was read: it waits for an answer and is to be paid at the lodge. */
  predicate MayDecide(seen: Db, id: Id, manages: bool) {
    && id in seen.bookings && manages
    && seen.bookings[id].status == PendingOwnerApproval && seen.bookings[id].payment == PayAtLodge
  }

  /** Rooms the owner may give to the booking. */
  function AcceptableRooms(seen: Db, cur: Db, id: Id): set<Id>
    requires id in seen.bookings
  {
    var b := seen.bookings[id];
    SellableRooms(cur, b.lodge, b.roomType, b.stay.checkIn, b.stay.checkOut, Some(id), None)
  }

  /**
   * An acceptance is made exactly by someone who manages the lodge, of a pay-at-lodge booking that
   * still waits, when a room is sellable; it gets the one on the lowest floor, by room number, which is
   * confirmed. Anyone else is refused.
   */
  lemma AcceptExactly(seen: Db, cur: Db, step: Step)
    requires step.StepAccept?
    ensures var r, id := Apply(seen, cur, step), step.booking;
            && (id in seen.bookings ==> (r.reply == Err(Service(Forbidden)) <==> !step.manages))
            && if MayDecide(seen, id, step.manages) && id in cur.bookings
                  && cur.bookings[id].status == PendingOwnerApproval && AcceptableRooms(seen, cur, id) != {} then
                 && r.reply == Ok(id) && id in r.db.bookings && r.db.bookings[id].room.Some?
                 && var room := r.db.bookings[id].room.value;
                 && room in AcceptableRooms(seen, cur, id) && room in cur.rooms
                 && (forall x | x in AcceptableRooms(seen, cur, id) ::
                       x in cur.rooms && !(cur.rooms[x].floor < cur.rooms[room].floor)
                       && !(cur.rooms[x].floor == cur.rooms[room].floor
                            && cur.rooms[x].number < cur.rooms[room].number))
                 && r.db == cur.(bookings := cur.bookings[id :=
                                   cur.bookings[id].(room := Some(room), status := Accepted)],
                                 rooms := cur.rooms[room := cur.rooms[room].(status := Confirmed)],
                                 history := cur.history + [HistoryRow(id, BookingAccepted, Some(PendingOwnerApproval),
                                                                      Accepted)])
               else r.db == cur
  {
    if step.booking in seen.bookings {
      var b := seen.bookings[step.booking];
      SellableIsFree(cur, b.lodge, b.roomType, b.stay, Some(step.booking), None);
      RoomsAreThere(cur, b.lodge, b.roomType, b.stay, Some(step.booking), None);
    }
    hide FreeRooms, SellableRooms;
  }

  /** A rejection marks the booking for whoever may decide, and does nothing else for anyone. */
  lemma RejectExactly(seen: Db, cur: Db, step: Step)
    requires step.StepReject?
    ensures var r, id := Apply(seen, cur, step), step.booking;
            && (r.reply == Ok(id) <==> MayDecide(seen, id, step.manages))
            && (id in seen.bookings ==> (r.reply == Err(Service(Forbidden)) <==> !step.manages))
            && r.db == if MayDecide(seen, id, step.manages) && id in cur.bookings
                       then cur.(bookings := cur.bookings[id := cur.bookings[id].(status := Rejected)]) else cur
  {
  }

  /** The expiry job marks exactly the bookings that waited for an answer until their deadline. */
  lemma OwnerSilenceExactly(seen: Db, cur: Db, step: Step)
    requires step.StepExpireBooking?
    ensures var id := step.booking;
            Apply(seen, cur, step).db ==
              if id in seen.bookings && seen.bookings[id].status == PendingOwnerApproval
                 && seen.bookings[id].deadline.Some? && seen.bookings[id].deadline.value <= seen.now
                 && id in cur.bookings
              then cur.(bookings := cur.bookings[id := cur.bookings[id].(status := Expired)]) else cur
  {
  }

  /** Check-in is for accepted bookings, check-out for guests who are in, completion for those who left. */
  lemma TransitionExactly(seen: Db, cur: Db, step: Step)
    requires step.StepTransition?
    ensures var r, id := Apply(seen, cur, step), step.booking;
            var (from, to) := match step.transition
              case MarkCheckedIn => (Accepted, CheckedIn)
              case MarkCheckedOut => (CheckedIn, CheckedOut)
              case MarkCompleted => (CheckedOut, Completed);
            if id in seen.bookings && seen.bookings[id].status == from && id in cur.bookings then
              && r.reply == Ok(id)
              && r.db == cur.(bookings := cur.bookings[id := cur.bookings[id].(status := to)])
            else r.reply.Err? && r.db == cur
  {
  }

  // ---------- What the invariant and the expiry job speak of ----------

  /** Which bookings claim a room on a night, which holds do, and which rooms a type has. */
  lemma ClaimsOfNight(db: Db, t: Id, n: int)
    ensures BookingsOn(db, t, n) == set b | b in db.bookings && db.bookings[b].roomType == t
              && db.bookings[b].status in {PendingOwnerApproval, Accepted, QrGenerated, CheckedIn}
              && db.bookings[b].stay.checkIn <= n < db.bookings[b].stay.checkOut
    ensures HoldsOn(db, t, n) == set h | h in db.holds && db.holds[h].roomType == t
              && db.holds[h].status == HoldActive && db.holds[h].expiresAt > db.now
              && db.holds[h].stay.checkIn <= n < db.holds[h].stay.checkOut
    ensures RoomsOf(db, t) == set r | r in db.rooms && db.rooms[r].roomType == t
  {
  }

  /** The bookings the expiry job finds: those that wait for an answer past their deadline. */
  lemma OverdueExactly(db: Db, b: Id)
    ensures b in OverdueBookings(db) <==>
              && b in db.bookings && db.bookings[b].status == PendingOwnerApproval
              && db.bookings[b].deadline.Some? && db.bookings[b].deadline.value <= db.now
    ensures b in OverdueHolds(db) <==>
              b in db.holds && db.holds[b].status == HoldActive && db.holds[b].expiresAt <= db.now
  {
  }

  // ---------- Over runs ----------

  /** A call with a key answers with a hold of its caller that carries the key and is what it asked for. */
  lemma HoldCarriesKey(run: Run, i: nat, h: Id)
    requires IsRun(run) && i < |run.events| && StepOf(run, i) && run.events[i].step.StepCreateLock?
    requires run.events[i].step.key.Some? && ReplyAt(run, i) == Ok(h)
    ensures var step := run.events[i].step;
            && h in run.states[i + 1].holds
            && var hold := run.states[i + 1].holds[h];
            && hold.pilgrim == step.user && hold.attempt == step.key
            && hold.lodge == step.lodge && hold.roomType == step.roomType
            && hold.stay == Stay(step.checkIn, step.checkOut) && ValidAttemptKey(step.key.value)
  {
    hide GetAvailability, ValidAttemptKey;
    LockExactly(run.states[run.events[i].seen], run.states[i], run.events[i].step);
  }

  /**
   * Once a pilgrim's call with a key has been answered with a hold, every later call of the same
   * pilgrim with that key takes nothing. It is answered with the same hold exactly while that is live
   * and the call asks for the same lodge, type and nights, and fails otherwise.
   */
  lemma AttemptReturnsFirst(run: Run, i: nat, j: nat, h: Id)
    requires IsRun(run) && i < j < |run.events| && StepOf(run, i) && StepOf(run, j)
    requires run.events[i].step.StepCreateLock? && run.events[j].step.StepCreateLock?
    requires run.events[i].step.key.Some? && run.events[j].step.key == run.events[i].step.key
    requires run.events[j].step.user == run.events[i].step.user && ReplyAt(run, i) == Ok(h)
    ensures run.states[j + 1] == run.states[j] && h in run.states[j].holds
    ensures ReplyAt(run, j).Ok? ==> ReplyAt(run, j) == Ok(h)
    ensures ReplyAt(run, j) == Ok(h) <==>
              var first, again, hold := run.events[i].step, run.events[j].step, run.states[j].holds[h];
              && hold.status == HoldActive && hold.expiresAt > run.states[j].now
              && again.lodge == first.lodge && again.roomType == first.roomType
              && again.checkIn == first.checkIn && again.checkOut == first.checkOut
  {
    hide Inv, Apply, Later, ValidAttemptKey, StepOf, Init;
    HoldCarriesKey(run, i, h);
    AttemptIsIdempotent(run, i + 1, j, h);
    SameHoldLater(run, i + 1, j, h);
  }

  lemma SameHoldLater(run: Run, i: nat, j: nat, h: Id)
    requires IsRun(run) && i <= j < |run.states| && h in run.states[i].holds
    ensures h in run.states[j].holds
    ensures var a, b := run.states[i].holds[h], run.states[j].holds[h];
            && b.pilgrim == a.pilgrim && b.lodge == a.lodge && b.roomType == a.roomType && b.stay == a.stay
            && (a.order.Some? ==> b.order == a.order && b.amount == a.amount)
  {
    hide Inv, BookingLater;
    RunIsSafe(run, j);
    assert Later(run.states[i], run.states[j]);
    assert HoldLater(run.states[i].now, run.states[i].holds[h], run.states[j].now, run.states[j].holds[h]);
  }

  /**
   * A booking that is not prepaid costs ever after what was quoted to the call that made it, is paid
   * as that call asked, and has its owner's deadline from that moment.
   */
  lemma BookedForThePrice(run: Run, i: nat, j: nat, hold: Id, b: Id)
    requires IsRun(run) && i < |run.events| && i < j < |run.states|
    requires StepOf(run, i) && Creates(run, i, hold, b) && run.events[i].step.StepCreateBooking?
    ensures b in run.states[i + 1].bookings && b in run.states[j].bookings
    ensures run.states[i + 1].bookings[b].status == PendingOwnerApproval && run.states[i + 1].bookings[b].room == None
    ensures var step, booking := run.events[i].step, run.states[j].bookings[b];
            && step.quote == Some(booking.total)
            && booking.payment == (if step.dto.online then PaymentPending else PayAtLodge)
            && booking.deadline == Some(run.states[i].now + step.responseTime)
            && booking.pilgrim == step.user && booking.source == Some(hold)
  {
    hide Inv, Apply, Later, HoldServes, HoldStillOpen, RoomLeftFor, OnSale;
    CreatedBooking(run, i, hold, b);
    CreationExactly(run.states[run.events[i].seen], run.states[i], run.events[i].step);
    SameBookingLaterOn(run, i + 1, j, b);
  }

  lemma SameBookingLaterOn(run: Run, i: nat, j: nat, b: Id)
    requires IsRun(run) && i <= j < |run.states| && b in run.states[i].bookings
    ensures b in run.states[j].bookings
    ensures var x, y := run.states[i].bookings[b], run.states[j].bookings[b];
            && y.pilgrim == x.pilgrim && y.source == x.source && y.total == x.total && y.payment == x.payment
            && y.deadline == x.deadline
  {
    hide Inv, HoldLater;
    RunIsSafe(run, j);
    assert Later(run.states[i], run.states[j]);
    assert BookingLater(run.states[i].bookings[b], run.states[j].bookings[b]);
  }

  /** Step k wrote the order for that hold at the price quoted to it. */
  ghost predicate Ordered(run: Run, k: nat, hold: Id, order: Id, amount: int)
    requires |run.states| == |run.events| + 1
  {
    && k < |run.events| && run.events[k].step.StepCreateOrder? && run.events[k].step.hold == hold
    && run.states[k + 1] != run.states[k]
    && run.events[k].step.order == order && run.events[k].step.quote == Some(amount)
  }

  /** No other step writes an order. */
  lemma OrdersStayAlone(seen: Db, cur: Db, step: Step, hold: Id)
    requires !step.StepCreateOrder? && !step.StepAttachOrder?
    requires hold in Apply(seen, cur, step).db.holds && Apply(seen, cur, step).db.holds[hold].order.Some?
    ensures hold in cur.holds && cur.holds[hold].order.Some?
  {
    hide GetAvailability, FreeRooms, FindAttempt, FindBySource, GuestChecks, TypeStillBookable, ValidAttemptKey;
  }

  /** An order on a hold came from a step that wrote it, at the amount the hold now stores. */
  lemma {:induction false} OrderCameFrom(run: Run, n: nat, hold: Id)
    requires IsRun(run) && n < |run.states| && forall k | 0 <= k < n :: !run.events[k].step.StepAttachOrder?
    requires hold in run.states[n].holds && run.states[n].holds[hold].order.Some?
    ensures run.states[n].holds[hold].amount.Some?
    ensures exists k: nat :: k < n && Ordered(run, k, hold, run.states[n].holds[hold].order.value,
                                              run.states[n].holds[hold].amount.value)
  {
    hide Inv, Apply, Later, Payable, IsRun, Ordered, Enabled;
    OrderHasAmount(run, n, hold);
    FirstStateHasNoHolds(run);
    var m := n - 1;
    assert StepOf(run, m) by { StepIs(run, m); }
    var seen, cur, step := run.states[run.events[m].seen], run.states[m], run.events[m].step;
    if hold in cur.holds && cur.holds[hold].order.Some? {
      SameHoldLater(run, m, n, hold);
      OrderCameFrom(run, m, hold);
      var k: nat :| k < m && Ordered(run, k, hold, run.states[n].holds[hold].order.value,
                                     run.states[n].holds[hold].amount.value);
    } else {
      if !step.StepCreateOrder? {
        OrdersStayAlone(seen, cur, step, hold);
      }
      OrderWritten(run, m, hold);
    }
  }

  lemma StepIs(run: Run, m: nat)
    requires IsRun(run) && m < |run.events|
    ensures StepOf(run, m)
  {
  }

  lemma FirstStateHasNoHolds(run: Run)
    requires IsRun(run)
    ensures |run.states| == |run.events| + 1 && run.states[0].holds == map[]
  {
  }

  lemma OrderHasAmount(run: Run, n: nat, hold: Id)
    requires IsRun(run) && n < |run.states| && hold in run.states[n].holds
    ensures run.states[n].holds[hold].order.Some? <==> run.states[n].holds[hold].amount.Some?
  {
    ReachableInv(run, n);
    hide NoDoubleBooking, Capacity, HoldLinks, UniqueKeys, Ledger;
    assert HoldRow(run.states[n], run.states[n].holds[hold]);
  }

  lemma OrderWritten(run: Run, m: nat, hold: Id)
    requires IsRun(run) && m < |run.events| && StepOf(run, m) && run.events[m].step.StepCreateOrder?
    requires hold in run.states[m].holds ==> run.states[m].holds[hold].order.None?
    requires hold in run.states[m + 1].holds && run.states[m + 1].holds[hold].order.Some?
    requires run.states[m + 1].holds[hold].amount.Some?
    ensures Ordered(run, m, hold, run.states[m + 1].holds[hold].order.value, run.states[m + 1].holds[hold].amount.value)
  {
    hide Inv, Apply, Later, RoomLeftFor, OnSale, Enabled;
    var step := run.events[m].step;
    if step.hold in run.states[run.events[m].seen].holds {
      OrderHasAmount(run, run.events[m].seen, step.hold);
    }
    OrderExactly(run.states[run.events[m].seen], run.states[m], step);
  }

  /**
   * Where orders are written by the payment service alone, a prepaid booking costs, ever after, what
   * was quoted when its order was made.
   */
  lemma QuoteIsCharged(run: Run, i: nat, j: nat, hold: Id, b: Id)
    requires IsRun(run) && i < |run.events| && i < j < |run.states|
    requires StepOf(run, i) && Creates(run, i, hold, b) && run.events[i].step.StepPrepaid?
    requires forall k | 0 <= k <= i :: !run.events[k].step.StepAttachOrder?
    ensures b in run.states[j].bookings
    ensures exists k: nat ::
              k <= i && Ordered(run, k, hold, run.events[i].step.paid.order, run.states[j].bookings[b].total)
  {
    hide Inv, Apply, Later, IsRun, StepOf, Creates, Ordered;
    PrepaidMoneyIsConserved(run, i, j, hold, b);
    PrepaidMoneyIsConserved(run, i, i + 1, hold, b);
    OrderCameFrom(run, i + 1, hold);
  }

  // ---------- Who moves a booking ----------

  /** The steps that are meant to move a booking from one status to another. */
  predicate MovesBookings(step: Step) {
    step.StepCancel? || step.StepAccept? || step.StepReject? || step.StepExpireBooking? || step.StepTransition?
  }

  lemma OthersLeaveStatus(seen: Db, cur: Db, step: Step, b: Id)
    requires Enabled(seen, cur, step) && !MovesBookings(step) && b in cur.bookings
    ensures b in Apply(seen, cur, step).db.bookings && Apply(seen, cur, step).db.bookings[b] == cur.bookings[b]
  {
    hide GetAvailability, FreeRooms, FindAttempt, FindBySource, GuestChecks, TypeStillBookable, ValidAttemptKey,
         AnsweredInTime, EnvironmentOk;
  }

  /** Why a step may give a booking its next status: who asked, of what, and when. */
  predicate Entitled(run: Run, i: nat, b: Id)
    requires |run.states| == |run.events| + 1 && i < |run.events| && run.events[i].seen <= i
    requires b in run.states[i].bookings && b in run.states[i + 1].bookings
  {
    var step, booking, next := run.events[i].step, run.states[i].bookings[b], run.states[i + 1].bookings[b].status;
    match next
    case Cancelled => step.StepCancel? && step.booking == b && (step.user == booking.pilgrim || step.admin)
                      && booking.status in {PendingOwnerApproval, Accepted, QrGenerated}
    case Accepted => step == StepAccept(b, true) && booking.payment == PayAtLodge
                     && booking.status == PendingOwnerApproval
    case Rejected => step == StepReject(b, true) && booking.payment == PayAtLodge
    case Expired => step == StepExpireBooking(b)
                    && booking.deadline.Some? && booking.deadline.value <= run.states[run.events[i].seen].now
    case CheckedIn => step == StepTransition(b, MarkCheckedIn)
                      && booking.status in {PendingOwnerApproval, Accepted, QrGenerated, CheckedIn}
    case CheckedOut => step == StepTransition(b, MarkCheckedOut)
    case Completed => step == StepTransition(b, MarkCompleted)
    case _ => false
  }

  /**
   * In every run a booking is cancelled only by its pilgrim or an administrator, accepted and rejected
   * only by someone who manages the lodge, and then only if it is to be paid there, expired only past
   * its deadline, and checked in only while it is active.
   */
  lemma OnlyTheEntitled(run: Run, i: nat, b: Id)
    requires IsRun(run) && i < |run.events| && b in run.states[i].bookings
    ensures b in run.states[i + 1].bookings && run.events[i].seen <= i
    ensures run.states[i + 1].bookings[b].status != run.states[i].bookings[b].status ==> Entitled(run, i, b)
  {
    hide Inv, Apply, Later, MayDecide, AcceptableRooms, MayCancel;
    StepIs(run, i);
    SameBookingLaterOn(run, i, i + 1, b);
    var seen, cur, step := run.states[run.events[i].seen], run.states[i], run.events[i].step;
    if !MovesBookings(step) {
      OthersLeaveStatus(seen, cur, step, b);
    } else {
      if step.booking in seen.bookings {
        SameBookingLaterOn(run, run.events[i].seen, i, step.booking);
      }
      match step
      case StepCancel(_, _, _) => CancelMoves(seen, cur, step, b);
      case StepAccept(_, _) => AcceptMoves(seen, cur, step, b);
      case StepReject(_, _) => RejectMoves(seen, cur, step, b);
      case StepExpireBooking(_) => OwnerSilenceExactly(seen, cur, step);
      case StepTransition(_, _) => TransitionMoves(seen, cur, step, b);
    }
  }

  lemma CancelMoves(seen: Db, cur: Db, step: Step, b: Id)
    requires step.StepCancel? && b in cur.bookings
    ensures var next := Apply(seen, cur, step).db;
            b in next.bookings && (next.bookings[b].status != cur.bookings[b].status ==>
              && b == step.booking && next.bookings[b].status == Cancelled
              && b in seen.bookings && (seen.bookings[b].pilgrim == step.user || step.admin)
              && cur.bookings[b].status in {PendingOwnerApproval, Accepted, QrGenerated})
  {
    hide Apply;
    CancelExactly(seen, cur, step);
  }

  lemma AcceptMoves(seen: Db, cur: Db, step: Step, b: Id)
    requires step.StepAccept? && b in cur.bookings
    ensures var next := Apply(seen, cur, step).db;
            b in next.bookings && (next.bookings[b].status != cur.bookings[b].status ==>
              && b == step.booking && next.bookings[b].status == Accepted && step.manages
              && b in seen.bookings && seen.bookings[b].payment == PayAtLodge
              && cur.bookings[b].status == PendingOwnerApproval)
  {
    hide Apply, AcceptableRooms;
    AcceptExactly(seen, cur, step);
  }

  lemma RejectMoves(seen: Db, cur: Db, step: Step, b: Id)
    requires step.StepReject? && b in cur.bookings
    ensures var next := Apply(seen, cur, step).db;
            b in next.bookings && (next.bookings[b].status != cur.bookings[b].status ==>
              && b == step.booking && next.bookings[b].status == Rejected && step.manages
              && b in seen.bookings && seen.bookings[b].payment == PayAtLodge)
  {
    hide Apply;
    RejectExactly(seen, cur, step);
  }

  lemma TransitionMoves(seen: Db, cur: Db, step: Step, b: Id)
    requires step.StepTransition? && b in cur.bookings && Enabled(seen, cur, step)
    ensures var next := Apply(seen, cur, step).db;
            b in next.bookings && (next.bookings[b].status != cur.bookings[b].status ==>
              && b == step.booking
              && next.bookings[b].status == (match step.transition case MarkCheckedIn => CheckedIn
                                             case MarkCheckedOut => CheckedOut case MarkCompleted => Completed)
              && (step.transition == MarkCheckedIn ==>
                    cur.bookings[b].status in {PendingOwnerApproval, Accepted, QrGenerated, CheckedIn}))
  {
  }
}
