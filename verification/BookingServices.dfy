/**
 * The inventory services as they run: methods that update the tables row by row and put them back
 * when a transaction throws. Each is proved to do what its step function says, so the theorems
 * about runs are theorems about these methods.
 */
module BookingServices {
  import opened Wrappers
  import opened Inventory
  import opened BookingSteps
  import opened BookingInvariant
  import opened BookingPreservation
  import Steps = BookingSteps

  /** A transaction that has claimed its own hold sees the same availability as before the claim. */
  lemma ClaimIsInvisible(db: Db, id: Id, lodge: Id, roomType: Id, stay: Stay, quote: Option<int>)
    requires id in db.holds
    ensures var claimed := db.(holds := db.holds[id := db.holds[id].(status := HoldConsumed)]);
            && GetAvailability(claimed, lodge, roomType, stay, Some(id), quote)
               == GetAvailability(db, lodge, roomType, stay, Some(id), quote)
            && FreeRooms(claimed, lodge, roomType, stay, None, Some(id))
               == FreeRooms(db, lodge, roomType, stay, None, Some(id))
  {
    var claimed := db.(holds := db.holds[id := db.holds[id].(status := HoldConsumed)]);
    forall r | r in db.rooms
      ensures RoomFree(claimed, r, stay, None, Some(id)) == RoomFree(db, r, stay, None, Some(id))
    {
      assert forall h | h in db.holds && h != id :: claimed.holds[h] == db.holds[h];
    }
    assert FreeRooms(claimed, lodge, roomType, stay, None, Some(id))
           == FreeRooms(db, lodge, roomType, stay, None, Some(id));
    assert UnassignedHolds(claimed, lodge, roomType, stay, Some(id))
           == UnassignedHolds(db, lodge, roomType, stay, Some(id));
    assert UnassignedBookings(claimed, lodge, roomType, stay, None)
           == UnassignedBookings(db, lodge, roomType, stay, None);
  }

  function RejectionRow(b: Id): HistoryRow {
    HistoryRow(b, BookingRejected, Some(PendingOwnerApproval), Rejected)
  }

  function TransitionRow(b: Id, t: Transition): HistoryRow {
    HistoryRow(b, t.Recorded(), Some(t.From()), t.To())
  }

  function ExpiryRow(b: Id): HistoryRow {
    HistoryRow(b, BookingExpired, Some(PendingOwnerApproval), Expired)
  }

  /** The history rows that follow a rejection, an expiry and each transition. */
  lemma RowsOfCalls(b: Id)
    ensures RejectionRow(b) == HistoryRow(b, BookingRejected, Some(PendingOwnerApproval), Rejected)
    ensures ExpiryRow(b) == HistoryRow(b, BookingExpired, Some(PendingOwnerApproval), Expired)
    ensures TransitionRow(b, MarkCheckedIn) == HistoryRow(b, BookingCheckedIn, Some(Accepted), CheckedIn)
    ensures TransitionRow(b, MarkCheckedOut) == HistoryRow(b, BookingCheckedOut, Some(CheckedIn), CheckedOut)
    ensures TransitionRow(b, MarkCompleted) == HistoryRow(b, BookingCompleted, Some(CheckedOut), Completed)
  {
  }

  /** The given bookings have expired, each with one history row, and nothing else has changed. */
  ghost predicate ExpiredSoFar(start: Db, db: Db, done: set<Id>) {
    && db == start.(bookings := db.bookings, history := db.history)
    && db.bookings.Keys == start.bookings.Keys
    && (forall b | b in start.bookings :: db.bookings[b]
          == if b in done then start.bookings[b].(status := Expired) else start.bookings[b])
    && |db.history| == |start.history| + |done|
    && start.history == db.history[..|start.history|]
    && (forall b | b in done :: ExpiryRow(b) in db.history[|start.history|..])
  }

  lemma StartExpiring(db: Db)
    ensures ExpiredSoFar(db, db, {})
  {
  }

  lemma ExpireOne(start: Db, db: Db, done: set<Id>, b: Id)
    requires ExpiredSoFar(start, db, done) && b in OverdueBookings(start) && b !in done
    ensures b in db.bookings
    ensures var next := db.(bookings := db.bookings[b := db.bookings[b].(status := Expired)],
                            history := db.history + [ExpiryRow(b)]);
            ExpiredSoFar(start, next, done + {b}) && (Inv(db) ==> Inv(next))
  {
    hide Inv;
    var next := db.(bookings := db.bookings[b := db.bookings[b].(status := Expired)],
                    history := db.history + [ExpiryRow(b)]);
    var k := |start.history|;
    assert next.history[k..] == db.history[k..] + [ExpiryRow(b)];
    assert next.history[..k] == db.history[..k];
    assert next == Note(BlindWrite(db, b, Expired), ExpiryRow(b));
    ExpiryKeeps(db, b);
  }

  class Database {
    var now: int
    var lodges: map<Id, Lodge>
    var types: map<Id, RoomType>
    var rooms: map<Id, Room>
    var blocks: set<Block>
    var holds: map<Id, Hold>
    var bookings: map<Id, Booking>
    var history: seq<HistoryRow>
    var collections: seq<Collection>

    function View(): Db
      reads this
    {
      Db(now, lodges, types, rooms, blocks, holds, bookings, history, collections)
    }

    constructor (initial: Db)
      ensures View() == initial
    {
      now, lodges, types, rooms, blocks :=
        initial.now, initial.lodges, initial.types, initial.rooms, initial.blocks;
      holds, bookings, history, collections :=
        initial.holds, initial.bookings, initial.history, initial.collections;
    }

    // ---------- booking-locks.service.ts ----------

    method CreateLock(user: Id, lodge: Id, roomType: Id, checkIn: int, checkOut: int,
                      key: Option<string>, quote: Option<int>, ttl: int, newId: Id)
      returns (reply: Result<Id, Failure>)
      modifies this`holds
      ensures Outcome(View(), reply)
              == Steps.CreateLock(old(View()), user, lodge, roomType, checkIn, checkOut, key, quote, ttl, newId)
      ensures old(Inv(View())) && newId !in old(holds) ==> Inv(View())
    {
      hide Inv;
      ghost var before := View();
      if key.Some? && !ValidAttemptKey(key.value) {
        return Err(Service(BadRequest));
      }
      var range := ParseDateRange(checkIn, checkOut);
      if range.Err? {
        return Err(Service(range.error));
      }
      var stay := range.value;
      if key.Some? {
        var attempt := FindAttempt(View(), user, key.value);
        if attempt.Some? {
          var existing := holds[attempt.value];
          if existing.lodge != lodge || existing.roomType != roomType || existing.stay != stay {
            return Err(Service(Conflict));
          }
          if existing.status != HoldActive || existing.expiresAt <= now {
            return Err(Service(Conflict));
          }
          return Ok(attempt.value);
        }
      }
      var availability := GetAvailability(View(), lodge, roomType, stay, None, quote);
      if availability.Err? {
        return Err(Service(availability.error));
      }
      if availability.value <= 0 {
        return Err(Service(Conflict));
      }
      holds := holds[newId := Hold(user, lodge, roomType, None, stay, now + ttl, HoldActive, None, None, key)];
      reply := Ok(newId);
      KeepsInvariant(before, StepCreateLock(user, lodge, roomType, checkIn, checkOut, key, quote, ttl, newId), View());
    }

    method AttachProviderOrder(id: Id, order: Id, amount: int, extension: int)
      returns (reply: Result<Id, Failure>)
      modifies this`holds
      ensures Outcome(View(), reply) == Steps.AttachProviderOrder(old(View()), id, order, amount, extension)
      ensures old(Inv(View())) ==> Inv(View())
    {
      hide Inv;
      ghost var step := StepAttachOrder(id, order, amount, extension);
      KeepsInvariant(View(), step, Apply(View(), View(), step).db);
      if id !in holds || !Live(now, holds[id]) || holds[id].order.Some? {
        return Err(Service(Conflict));
      }
      if exists h | h in holds :: holds[h].order == Some(order) {
        return Err(ConstraintViolation);
      }
      holds := holds[id := holds[id].(expiresAt := now + extension, order := Some(order), amount := Some(amount))];
      reply := Ok(id);
    }

    // ---------- payments.service.ts: the order for a hold ----------

    /** The write after the provider has answered, by identifier alone. */
    method WriteProviderOrder(id: Id, order: Id, amount: int, extension: int) returns (reply: Result<Id, Failure>)
      modifies this`holds
      ensures Outcome(View(), reply) == WriteOrderTx(old(View()), id, order, amount, extension)
    {
      if id !in holds {
        return Err(Service(NotFound));
      }
      if exists h | h in holds :: h != id && holds[h].order == Some(order) {
        return Err(ConstraintViolation);
      }
      holds := holds[id := holds[id].(expiresAt := now + extension, order := Some(order), amount := Some(amount))];
      reply := Ok(id);
    }

    method CreatePrepaidOrder(id: Id, user: Id, quote: Option<int>, order: Id, extension: int)
      returns (reply: Result<Id, Failure>)
      modifies this`holds
      ensures Outcome(View(), reply)
              == Apply(old(View()), old(View()), StepCreateOrder(id, user, quote, order, extension))
      ensures old(Inv(View())) ==> Inv(View())
    {
      hide Inv;
      ghost var before, step := View(), StepCreateOrder(id, user, quote, order, extension);
      var resolved := ResolveLockForPrepay(View(), id, user, quote);
      if resolved.Err? {
        reply := Err(Service(resolved.error));
      } else if resolved.value.order.Some? && resolved.value.orderAmount.Some? {
        reply := Ok(id);
      } else if resolved.value.amount <= 0 {
        reply := Err(Service(BadRequest));
      } else {
        reply := WriteProviderOrder(id, order, resolved.value.amount, extension);
      }
      KeepsInvariant(before, step, View());
    }

    // ---------- booking-locks.service.ts: the end of a hold ----------

    method ReleaseLock(id: Id, user: Id) returns (released: bool)
      modifies this`holds
      ensures (View(), released) == Steps.ReleaseLock(old(View()), id, user)
      ensures released <==> id in old(holds) && old(holds)[id].pilgrim == user && old(holds)[id].status == HoldActive
      ensures id in old(holds) && old(holds)[id].pilgrim == user ==> id in holds && !Live(now, holds[id])
      ensures old(Inv(View())) ==> Inv(View())
    {
      hide Inv;
      KeepsInvariant(View(), StepReleaseLock(id, user), Steps.ReleaseLock(View(), id, user).0);
      released := id in holds && holds[id].pilgrim == user && holds[id].status == HoldActive;
      if released {
        holds := holds[id := holds[id].(expiresAt := now, status := HoldReleased)];
      }
    }

    method ExpireLocks() returns (count: nat)
      modifies this`holds
      ensures View() == Steps.ExpireLocks(old(View()))
      ensures count == |OverdueHolds(old(View()))|
      ensures forall h | h in holds :: !Overdue(now, holds[h])
      ensures old(Inv(View())) ==> Inv(View())
    {
      hide Inv;
      KeepsInvariant(View(), StepExpireLocks, Steps.ExpireLocks(View()));
      var due := OverdueHolds(View());
      holds := map h | h in holds :: if h in due then holds[h].(status := HoldExpired) else holds[h];
      count := |due|;
    }

    // ---------- bookings.service.ts: creation ----------

    /** The body of createBooking's transaction; `lock` is the row its caller read before. */
    method CreateBookingTransaction(id: Id, lock: Hold, user: Id, dto: Request, quote: Option<int>,
                                    responseTime: int, newId: Id)
      returns (reply: Result<Id, Failure>)
      modifies this`holds, this`bookings, this`history, this`collections
      ensures Outcome(View(), reply)
              == CreateBookingTx(old(View()), id, lock, user, dto, quote, responseTime, newId)
    {
      hide FindBySource, CountAvailableRooms;
      var prior := FindBySource(View(), id);
      if prior.Some? {
        return Ok(prior.value);
      }
      if id !in holds || !Live(now, holds[id]) {
        return Err(Service(Conflict));
      }
      ClaimIsInvisible(View(), id, lock.lodge, lock.roomType, lock.stay, quote);
      var unclaimed := holds;
      holds := holds[id := holds[id].(status := HoldConsumed)];
      var availability := GetAvailability(View(), lock.lodge, lock.roomType, lock.stay, Some(id), quote);
      if availability.Err? {
        holds := unclaimed;
        return Err(Service(availability.error));
      }
      if availability.value <= 0 {
        holds := unclaimed;
        return Err(Service(Conflict));
      }
      if dto.online && quote.value <= 0 {
        holds := unclaimed;
        return Err(ConstraintViolation);
      }
      bookings := bookings[newId := PendingBooking(lock, id, user, dto, quote.value, now + responseTime)];
      history := history + [HistoryRow(newId, BookingCreated, None, PendingOwnerApproval)];
      if dto.online {
        collections := collections + [Collection(newId, quote.value, CollectionPending, None, None)];
      }
      reply := Ok(newId);
      assert unclaimed[id].(status := HoldConsumed) == holds[id];
      assert collections == old(collections) + PendingRows(newId, dto, quote.value);
    }

    method CreateBooking(id: Id, user: Id, dto: Request, quote: Option<int>, responseTime: int, newId: Id)
      returns (reply: Result<Id, Failure>)
      modifies this`holds, this`bookings, this`history, this`collections
      ensures Outcome(View(), reply)
              == Apply(old(View()), old(View()), StepCreateBooking(id, user, dto, quote, responseTime, newId))
      ensures old(Inv(View())) && newId !in old(bookings) ==> Inv(View())
    {
      hide Inv;
      ghost var before, step := View(), StepCreateBooking(id, user, dto, quote, responseTime, newId);
      var found := CreateBookingReads(View(), id, user, dto);
      match found {
        case Stop(e) => reply := Err(Service(e));
        case Answer(b) => reply := Ok(b);
        case Proceed(lock) =>
          reply := CreateBookingTransaction(id, lock, user, dto, quote, responseTime, newId);
      }
      KeepsInvariant(before, step, View());
    }

    /** The body of createPrepaidBooking's transaction; `skipped` are the room rows others hold locked. */
    method PrepaidTransaction(id: Id, lock: Hold, user: Id, dto: Request, paid: Payment,
                              skipped: set<Id>, newId: Id)
      returns (reply: Result<Id, Failure>)
      requires lock.amount.Some?
      modifies this`holds, this`bookings, this`history, this`collections, this`rooms
      ensures Outcome(View(), reply) == PrepaidTx(old(View()), id, lock, user, dto, paid, skipped, newId)
    {
      var prior := FindBySource(View(), id);
      if prior.Some? {
        return Ok(prior.value);
      }
      if !TypeStillBookable(View(), lock, dto) {
        return Err(Service(Conflict));
      }
      if id !in holds || !Live(now, holds[id]) {
        return Err(Service(Conflict));
      }
      ClaimIsInvisible(View(), id, lock.lodge, lock.roomType, lock.stay, None);
      var unclaimed := holds;
      holds := holds[id := holds[id].(status := HoldConsumed)];
      var available := PrepaidRooms(View(), id, lock, skipped);
      if available == {} {
        holds := unclaimed;
        return Err(Service(Conflict));
      }
      var selected := LeastId(available);
      if lock.amount.value <= 0 || exists i | 0 <= i < |collections| :: collections[i].payment == Some(paid.payment) {
        assert lock.amount.value <= 0 || exists c | c in collections :: c.payment == Some(paid.payment);
        holds := unclaimed;
        return Err(ConstraintViolation);
      }
      bookings := bookings[newId := PrepaidBooking(lock, id, user, selected)];
      rooms := rooms[selected := rooms[selected].(status := Confirmed)];
      history := history + [HistoryRow(newId, BookingCreated, None, Accepted)];
      collections := collections
        + [Collection(newId, lock.amount.value, CollectionPaid, Some(paid.order), Some(paid.payment))];
      reply := Ok(newId);
    }

    method CreatePrepaidBooking(id: Id, user: Id, dto: Request, paid: Payment, skipped: set<Id>, newId: Id)
      returns (reply: Result<Id, Failure>)
      modifies this`holds, this`bookings, this`history, this`collections, this`rooms
      ensures Outcome(View(), reply)
              == Apply(old(View()), old(View()), StepPrepaid(id, user, dto, paid, skipped, newId))
      ensures old(Inv(View())) && newId !in old(bookings) ==> Inv(View())
    {
      hide Inv;
      ghost var before, step := View(), StepPrepaid(id, user, dto, paid, skipped, newId);
      var found := PrepaidReads(View(), id, user, dto, paid);
      match found {
        case Stop(e) => reply := Err(Service(e));
        case Answer(b) => reply := Ok(b);
        case Proceed(lock) => reply := PrepaidTransaction(id, lock, user, dto, paid, skipped, newId);
      }
      KeepsInvariant(before, step, View());
    }

    // ---------- bookings.service.ts: after creation ----------

    method CancelTransaction(id: Id, existing: Booking) returns (reply: Result<Id, Failure>)
      modifies this`bookings, this`rooms, this`history
      ensures Outcome(View(), reply) == CancelTx(old(View()), id, existing)
    {
      if id !in bookings {
        return Err(Service(NotFound));
      }
      var current := bookings[id];
      if current.status == Cancelled {
        return Ok(id);
      }
      if !Cancellable(current.status) {
        return Err(Service(Conflict));
      }
      bookings := bookings[id := current.(status := Cancelled)];
      if current.room.Some? && current.room.value in rooms
         && rooms[current.room.value].status in {Confirmed, Reserved}
      {
        rooms := rooms[current.room.value := rooms[current.room.value].(status := Available)];
      }
      history := history + [HistoryRow(id, CancelledByPilgrim, Some(existing.status), Cancelled)];
      reply := Ok(id);
    }

    method CancelBooking(id: Id, user: Id, admin: bool) returns (reply: Result<Id, Failure>)
      modifies this`bookings, this`rooms, this`history
      ensures Outcome(View(), reply) == Apply(old(View()), old(View()), StepCancel(id, user, admin))
      ensures old(Inv(View())) ==> Inv(View())
    {
      hide Inv;
      ghost var before, step := View(), StepCancel(id, user, admin);
      var found := CancelReads(View(), id, user, admin);
      match found {
        case Stop(e) => reply := Err(Service(e));
        case Answer(b) => reply := Ok(b);
        case Proceed(existing) => reply := CancelTransaction(id, existing);
      }
      KeepsInvariant(before, step, View());
    }

    method AcceptTransaction(id: Id, existing: Booking) returns (reply: Result<Id, Failure>)
      modifies this`bookings, this`rooms, this`history
      ensures Outcome(View(), reply) == AcceptTx(old(View()), id, existing)
    {
      if id !in bookings {
        return Err(Service(NotFound));
      }
      if bookings[id].status != PendingOwnerApproval {
        return Err(Service(Conflict));
      }
      var free := FreeRooms(View(), existing.lodge, existing.roomType, existing.stay, Some(id), None);
      if free == {} {
        return Err(Service(Conflict));
      }
      var selected := FirstRoom(rooms, free);
      bookings := bookings[id := bookings[id].(room := Some(selected), status := Accepted)];
      rooms := rooms[selected := rooms[selected].(status := Confirmed)];
      history := history + [HistoryRow(id, BookingAccepted, Some(existing.status), Accepted)];
      reply := Ok(id);
    }

    method AcceptBooking(id: Id, manages: bool) returns (reply: Result<Id, Failure>)
      modifies this`bookings, this`rooms, this`history
      ensures Outcome(View(), reply) == Apply(old(View()), old(View()), StepAccept(id, manages))
      ensures old(Inv(View())) ==> Inv(View())
    {
      hide Inv;
      ghost var before, step := View(), StepAccept(id, manages);
      var found := OwnerReads(View(), id, manages);
      match found {
        case Stop(e) => reply := Err(Service(e));
        case Answer(b) => reply := Ok(b);
        case Proceed(existing) => reply := AcceptTransaction(id, existing);
      }
      KeepsInvariant(before, step, View());
    }

    method RejectBooking(id: Id, manages: bool) returns (reply: Result<Id, Failure>)
      modifies this`bookings, this`history
      ensures var written := Apply(old(View()), old(View()), StepReject(id, manages));
              && reply == written.reply
              && View() == if OwnerReads(old(View()), id, manages).Proceed? then Note(written.db, RejectionRow(id))
                           else written.db
      ensures old(Inv(View())) ==> Inv(View())
    {
      hide Inv;
      ghost var before, step := View(), StepReject(id, manages);
      KeepsInvariant(before, step, Apply(before, before, step).db);
      var found := OwnerReads(View(), id, manages);
      match found {
        case Stop(e) => reply := Err(Service(e));
        case Answer(b) => reply := Ok(b);
        case Proceed(existing) =>
          bookings := bookings[id := bookings[id].(status := Rejected)];
          NotedKeeps(View(), RejectionRow(id));
          history := history + [HistoryRow(id, BookingRejected, Some(existing.status), Rejected)];
          reply := Ok(id);
      }
    }

    /** Expires, one write at a time, every booking whose owner did not answer in time. */
    method ExpirePendingBookings() returns (count: nat)
      modifies this`bookings, this`history
      ensures ExpiredSoFar(old(View()), View(), OverdueBookings(old(View())))
      ensures count == |OverdueBookings(old(View()))|
      ensures old(Inv(View())) ==> Inv(View())
    {
      hide Inv, ExpiredSoFar;
      var due := OverdueBookings(View());
      count := |due|;
      var todo := due;
      StartExpiring(View());
      assert due - todo == {};
      while todo != {}
        invariant todo <= due
        invariant ExpiredSoFar(old(View()), View(), due - todo)
        invariant old(Inv(View())) ==> Inv(View())
        decreases |todo|
      {
        var b :| b in todo;
        ghost var before := View();
        ExpireOne(old(View()), before, due - todo, b);
        bookings := bookings[b := bookings[b].(status := Expired)];
        history := history + [ExpiryRow(b)];
        assert due - todo + {b} == due - (todo - {b});
        todo := todo - {b};
      }
      assert due - todo == due;
    }

    /** The write of transitionBooking, whatever the row has become since it was read. */
    method TransitionWrite(id: Id, t: Transition) returns (reply: Result<Id, Failure>)
      modifies this`bookings
      ensures Outcome(View(), reply) == TransitionTx(old(View()), id, t)
    {
      if id !in bookings {
        return Err(Service(NotFound));
      }
      bookings := bookings[id := bookings[id].(status := t.To())];
      reply := Ok(id);
    }

    method TransitionBooking(id: Id, t: Transition) returns (reply: Result<Id, Failure>)
      modifies this`bookings, this`history
      ensures var written := Apply(old(View()), old(View()), StepTransition(id, t));
              && reply == written.reply
              && View() == if reply.Ok? then Note(written.db, TransitionRow(id, t)) else written.db
      ensures old(Inv(View())) ==> Inv(View())
    {
      hide Inv;
      ghost var before, step := View(), StepTransition(id, t);
      KeepsInvariant(before, step, Apply(before, before, step).db);
      var found := TransitionReads(View(), id, t);
      match found {
        case Stop(e) => reply := Err(Service(e));
        case Answer(b) => reply := Ok(b);
        case Proceed(_) =>
          reply := TransitionWrite(id, t);
          NotedKeeps(View(), TransitionRow(id, t));
          history := history + [HistoryRow(id, t.Recorded(), Some(t.From()), t.To())];
      }
    }
  }

  lemma ExpiryKeeps(before: Db, b: Id)
    requires b in before.bookings
    ensures Inv(before) ==> Inv(Note(BlindWrite(before, b, Expired), ExpiryRow(b)))
  {
    hide Inv;
    if Inv(before) {
      BlindWriteKeeps(before, b, Expired);
      NoteKeeps(BlindWrite(before, b, Expired), ExpiryRow(b));
    }
  }

  /** The second write of a call whose first one was a step. */
  lemma NotedKeeps(before: Db, row: HistoryRow)
    requires row.booking in before.bookings && row.action != BookingCreated
    ensures Inv(before) ==> Inv(Note(before, row))
  {
    hide Inv;
    if Inv(before) {
      NoteKeeps(before, row);
    }
  }

  lemma KeepsInvariant(before: Db, step: Step, after: Db)
    requires after == Apply(before, before, step).db
    ensures Inv(before) && Enabled(before, before, step) ==> Inv(after)
  {
    hide Inv, Later, Apply;
    if Inv(before) && Enabled(before, before, step) {
      SameStateKeeps(before);
      assert Good(before, before);
      StepKeeps(before, before, step);
      assert Good(before, after);
    }
  }
}
