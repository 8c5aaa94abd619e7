/**
 * Three places where a write relies on a check made before other writers could run. For each: the
 * exact condition under which the write is harmless, and a run in which it is not.
 */
module BookingRaces {
  import opened Wrappers
  import opened Inventory
  import opened BookingSteps
  import opened BookingInvariant
  import opened BookingPreservation
  import opened BookingRuns

  // ---------- A hold that got an order after createBooking looked ----------

  /** Every booking made from a hold with a provider order was paid through that order. */
  ghost predicate OrdersArePaid(db: Db) {
    forall b, h | MadeFrom(db, b, h) && h in db.holds && db.holds[h].order.Some? ::
      db.bookings[b].payment == FullyPaid
  }

  /**
   * createBooking refuses a hold with an order, but only in the reads before its transaction. Its
   * transaction keeps paid orders matched with paid bookings exactly when the hold still has none.
   */
  lemma CreateBookingAndOrders(cur: Db, id: Id, lock: Hold, user: Id, dto: Request, quote: Option<int>,
                               responseTime: int, newId: Id)
    requires Inv(cur) && OrdersArePaid(cur) && newId !in cur.bookings && id in cur.holds
    requires CreateBookingTx(cur, id, lock, user, dto, quote, responseTime, newId).reply == Ok(newId)
    ensures OrdersArePaid(CreateBookingTx(cur, id, lock, user, dto, quote, responseTime, newId).db)
            <==> cur.holds[id].order.None?
  {
    hide References, NoDoubleBooking, Capacity, UniqueKeys, Ledger, GetAvailability;
    var next := CreateBookingTx(cur, id, lock, user, dto, quote, responseTime, newId).db;
    assert MadeFrom(next, newId, id);
    forall b, h | MadeFrom(next, b, h) && b != newId ensures MadeFrom(cur, b, h) {
    }
  }

  /**
   * As long as paid orders are matched with paid bookings, a payment call that succeeds ends with
   * a booking that is fully paid, for the amount stored with the order.
   */
  lemma PrepaidSuccessIsPaid(seen: Db, cur: Db, step: Step)
    requires Inv(cur) && OrdersArePaid(cur) && Later(seen, cur) && Enabled(seen, cur, step) && step.StepPrepaid?
    requires Apply(seen, cur, step).reply.Ok?
    ensures var next, b := Apply(seen, cur, step).db, Apply(seen, cur, step).reply.value;
            && b in next.bookings && step.hold in next.holds
            && next.bookings[b].payment == FullyPaid
            && next.holds[step.hold].order == Some(step.paid.order)
            && next.holds[step.hold].amount == Some(next.bookings[b].total)
  {
    hide References, NoDoubleBooking, Capacity, UniqueKeys, FreeRooms, LeastId, TypeStillBookable, GuestChecks,
      CollectionsOf, CreationRows, BookingLater, HoldLinks;
    var next, b := Apply(seen, cur, step).db, Apply(seen, cur, step).reply.value;
    HoldReadEarlier(seen, cur, step.hold);
    if next != cur {
      PrepaidCreation(seen, cur, step);
    } else {
      PrepaidPrior(seen, cur, step, b);
      assert OrdersArePaid(cur);
      assert PaidAsRecorded(cur, b);
    }
  }

  /** The creation that makes the booking of this step meets a hold without an order. */
  predicate MeetsNoOrder(seen: Db, cur: Db, step: Step) {
    step.StepCreateBooking? && Apply(seen, cur, step).db != cur && step.hold in cur.holds ==>
      cur.holds[step.hold].order.None?
  }

  /** A step that makes no booking leaves orders and payments matched: consumed holds keep their order. */
  lemma OrdersStay(cur: Db, next: Db)
    requires OrdersArePaid(cur) && HoldLinks(cur) && HoldLinks(next) && Later(cur, next)
    requires next.bookings.Keys == cur.bookings.Keys
    ensures OrdersArePaid(next)
  {
    hide HoldLater, BookingLater;
    forall b, h | MadeFrom(next, b, h) && h in next.holds && next.holds[h].order.Some?
      ensures next.bookings[b].payment == FullyPaid
    {
      BookingStays(cur.bookings[b], next.bookings[b]);
      assert MadeFrom(cur, b, h);
      assert CopiesHold(cur.bookings[b], cur.holds[h]);
      ConsumedKeepsOrder(cur.now, cur.holds[h], next.now, next.holds[h]);
    }
  }

  lemma BookingStays(a: Booking, b: Booking)
    requires BookingLater(a, b)
    ensures b.source == a.source && b.payment == a.payment
  {
  }

  lemma ConsumedKeepsOrder(now: int, a: Hold, later: int, b: Hold)
    requires HoldLater(now, a, later, b) && a.status == HoldConsumed
    ensures b.order == a.order
  {
  }

  lemma PaidBookingAdded(cur: Db, next: Db, newId: Id)
    requires OrdersArePaid(cur) && newId !in cur.bookings && newId in next.bookings
    requires next.bookings == cur.bookings[newId := next.bookings[newId]] && next.bookings[newId].payment == FullyPaid
    requires forall h | h in next.holds :: h in cur.holds && next.holds[h].order == cur.holds[h].order
    ensures OrdersArePaid(next)
  {
    forall b, h | MadeFrom(next, b, h) && h in next.holds && next.holds[h].order.Some?
      ensures next.bookings[b].payment == FullyPaid
    {
      if b != newId {
        assert MadeFrom(cur, b, h);
      }
    }
  }

  lemma PaidCreationKeepsOrders(seen: Db, cur: Db, step: Step)
    requires Later(seen, cur) && Enabled(seen, cur, step) && step.StepPrepaid? && OrdersArePaid(cur)
    ensures OrdersArePaid(Apply(seen, cur, step).db)
  {
    hide OrdersArePaid, FreeRooms, PrepaidRooms, LeastId, GuestChecks, TypeStillBookable, BookingLater, HoldLater,
      FindBySource, CollectionsOf, CreationRows;
    var next := Apply(seen, cur, step).db;
    if next != cur {
      PaidBookingAdded(cur, next, step.newId);
    }
  }

  /** One step keeps paid orders matched with paid bookings exactly when it meets no order. */
  lemma StepAndOrders(seen: Db, cur: Db, step: Step)
    requires Inv(cur) && Later(seen, cur) && Enabled(seen, cur, step) && OrdersArePaid(cur)
    ensures OrdersArePaid(Apply(seen, cur, step).db) <==> MeetsNoOrder(seen, cur, step)
  {
    hide Inv, Later, OrdersArePaid, Apply;
    StepKeeps(seen, cur, step);
    if step.StepCreateBooking? {
      CreationAndOrders(seen, cur, step);
    } else if step.StepPrepaid? {
      PaidCreationKeepsOrders(seen, cur, step);
    } else {
      SameBookings(seen, cur, step);
      LinksOf(cur);
      LinksOf(Apply(seen, cur, step).db);
      OrdersStay(cur, Apply(seen, cur, step).db);
    }
  }

  lemma LinksOf(db: Db)
    requires Inv(db)
    ensures HoldLinks(db)
  {
  }

  lemma SameBookings(seen: Db, cur: Db, step: Step)
    requires !step.StepCreateBooking? && !step.StepPrepaid?
    ensures Apply(seen, cur, step).db.bookings.Keys == cur.bookings.Keys
  {
    hide GetAvailability, FreeRooms, FindAttempt, ValidAttemptKey;
  }

  lemma CreationAndOrders(seen: Db, cur: Db, step: Step)
    requires Inv(cur) && Later(seen, cur) && Enabled(seen, cur, step) && OrdersArePaid(cur) && step.StepCreateBooking?
    ensures OrdersArePaid(Apply(seen, cur, step).db) <==> MeetsNoOrder(seen, cur, step)
  {
    hide Inv, OrdersArePaid, CreateBookingTx, BookingLater, GuestChecks, FindBySource, HoldLater;
    var found := CreateBookingReads(seen, step.hold, step.user, step.dto);
    if found.Proceed? && Apply(seen, cur, step).db != cur {
      ChangedMeansMade(cur, step.hold, found.row, step.user, step.dto, step.quote, step.responseTime, step.newId);
      CreateBookingAndOrders(cur, step.hold, found.row, step.user, step.dto, step.quote, step.responseTime, step.newId);
    }
  }

  lemma ChangedMeansMade(cur: Db, id: Id, lock: Hold, user: Id, dto: Request, quote: Option<int>, responseTime: int,
                         newId: Id)
    requires CreateBookingTx(cur, id, lock, user, dto, quote, responseTime, newId).db != cur
    ensures id in cur.holds
    ensures CreateBookingTx(cur, id, lock, user, dto, quote, responseTime, newId).reply == Ok(newId)
  {
  }

  /** Every creation up to state j met a hold without an order. */
  ghost predicate CreationsMeetNoOrder(run: Run, j: nat)
    requires IsRun(run) && j < |run.states|
  {
    forall i: nat | i < j ::
      StepOf(run, i) && MeetsNoOrder(run.states[run.events[i].seen], run.states[i], run.events[i].step)
  }

  /**
   * Over a run, bookings of holds with an order are paid in every state exactly when every creation
   * that made a booking met a hold without one.
   */
  lemma {:induction false} OrdersArePaidInRuns(run: Run, j: nat)
    requires IsRun(run) && j < |run.states|
    ensures (forall i: nat | i <= j :: OrdersArePaid(run.states[i])) <==> CreationsMeetNoOrder(run, j)
  {
    hide OrdersArePaid, MeetsNoOrder, Inv, Later, Apply, Enabled;
    if j == 0 {
      NoOrdersAtStart(run.states[0]);
    } else {
      OrdersArePaidInRuns(run, j - 1);
      RunIsSafe(run, j - 1);
      assert StepOf(run, j - 1);
      if CreationsMeetNoOrder(run, j - 1) {
        StepAndOrders(run.states[run.events[j - 1].seen], run.states[j - 1], run.events[j - 1].step);
      }
      assert CreationsMeetNoOrder(run, j) <==>
        && CreationsMeetNoOrder(run, j - 1)
        && MeetsNoOrder(run.states[run.events[j - 1].seen], run.states[j - 1], run.events[j - 1].step);
    }
  }

  lemma NoOrdersAtStart(db: Db)
    requires Init(db)
    ensures OrdersArePaid(db)
  {
  }

  lemma HoldReadEarlier(seen: Db, cur: Db, hold: Id)
    requires Later(seen, cur)
    ensures hold in seen.holds ==> hold in cur.holds
                                   && HoldLater(seen.now, seen.holds[hold], cur.now, cur.holds[hold])
  {
  }

  lemma PrepaidPrior(seen: Db, cur: Db, step: Step, b: Id)
    requires HoldLinks(cur) && Later(seen, cur) && Enabled(seen, cur, step) && step.StepPrepaid?
    requires Apply(seen, cur, step) == Outcome(cur, Ok(b))
    ensures MadeFrom(cur, b, step.hold) && step.hold in cur.holds
    ensures cur.holds[step.hold].order == Some(step.paid.order)
  {
    hide FreeRooms, LeastId, TypeStillBookable, CopiesHold;
    HoldReadEarlier(seen, cur, step.hold);
    var earlier := FindBySource(seen, step.hold);
    if earlier.Some? {
      assert BookingLater(seen.bookings[earlier.value], cur.bookings[earlier.value]);
    }
  }

  /** In such a run a payment call that succeeds ends with a booking paid in full for its order. */
  lemma PaymentCallsEndPaid(run: Run, j: nat)
    requires IsRun(run) && j < |run.events| && StepOf(run, j) && CreationsMeetNoOrder(run, j)
    requires run.events[j].step.StepPrepaid? && ReplyAt(run, j).Ok?
    ensures var next, b, step := run.states[j + 1], ReplyAt(run, j).value, run.events[j].step;
            && b in next.bookings && step.hold in next.holds
            && next.bookings[b].payment == FullyPaid
            && next.holds[step.hold].order == Some(step.paid.order)
            && next.holds[step.hold].amount == Some(next.bookings[b].total)
  {
    hide OrdersArePaid, MeetsNoOrder, Inv, Later, Apply;
    OrdersArePaidInRuns(run, j);
    RunIsSafe(run, j);
    PrepaidSuccessIsPaid(run.states[run.events[j].seen], run.states[j], run.events[j].step);
  }

  // ---------- An expiry moved after the payment provider answered ----------

  /**
   * The write respects capacity exactly when the hold is still live, when it has been given up for
   * good, or when every one of its nights still has a room to spare. attachProviderOrder tests the
   * first; the failing case is a hold past its expiry that the expiry job has not marked yet.
   */
  lemma WriteOrderAndCapacity(cur: Db, id: Id, order: Id, amount: int, extension: int)
    requires Inv(cur) && id in cur.holds && extension > 0
    ensures Capacity(WriteOrder(cur, id, order, amount, extension))
            <==> || Live(cur.now, cur.holds[id]) || cur.holds[id].status != HoldActive
                 || forall night | Covers(cur.holds[id].stay, night) ::
                      Claims(cur, cur.holds[id].roomType, night) < |RoomsOf(cur, cur.holds[id].roomType)|
  {
    hide References, NoDoubleBooking, HoldLinks, UniqueKeys, Ledger;
    var next := WriteOrder(cur, id, order, amount, extension);
    var hold := cur.holds[id];
    var revived := hold.status == HoldActive && !Live(cur.now, hold);
    forall t: Id, n: int
      ensures RoomsOf(next, t) == RoomsOf(cur, t)
      ensures Claims(next, t, n) == Claims(cur, t, n)
                + (if revived && t == hold.roomType && Covers(hold.stay, n) then 1 else 0)
    {
      WrittenOrderNight(cur, id, order, amount, extension, t, n);
    }
    if revived && Capacity(next) {
      forall night | Covers(hold.stay, night)
        ensures Claims(cur, hold.roomType, night) < |RoomsOf(cur, hold.roomType)|
      {
        assert Claims(next, hold.roomType, night) <= |RoomsOf(next, hold.roomType)|;
      }
    }
    if !revived || forall night | Covers(hold.stay, night) ::
         Claims(cur, hold.roomType, night) < |RoomsOf(cur, hold.roomType)|
    {
      forall t: Id, n: int ensures Claims(next, t, n) <= |RoomsOf(next, t)| {
        assert Claims(cur, t, n) <= |RoomsOf(cur, t)|;
      }
    }
  }

  lemma WrittenOrderNight(cur: Db, id: Id, order: Id, amount: int, extension: int, t: Id, n: int)
    requires id in cur.holds && extension > 0
    ensures var next, hold := WriteOrder(cur, id, order, amount, extension), cur.holds[id];
            && RoomsOf(next, t) == RoomsOf(cur, t)
            && Claims(next, t, n) == Claims(cur, t, n)
                 + (if hold.status == HoldActive && !Live(cur.now, hold) && t == hold.roomType
                       && Covers(hold.stay, n) then 1 else 0)
  {
    var next := WriteOrder(cur, id, order, amount, extension);
    assert RoomsOf(next, t) == RoomsOf(cur, t);
    assert BookingsOn(next, t, n) == BookingsOn(cur, t, n);
    hide RoomsOf, BookingsOn;
    WrittenOrderHolds(cur, id, order, amount, extension, t, n);
  }

  lemma WrittenOrderHolds(cur: Db, id: Id, order: Id, amount: int, extension: int, t: Id, n: int)
    requires id in cur.holds && extension > 0
    ensures var next, hold := WriteOrder(cur, id, order, amount, extension), cur.holds[id];
            |HoldsOn(next, t, n)| == |HoldsOn(cur, t, n)|
              + (if hold.status == HoldActive && !Live(cur.now, hold) && t == hold.roomType
                    && Covers(hold.stay, n) then 1 else 0)
  {
    var next, hold := WriteOrder(cur, id, order, amount, extension), cur.holds[id];
    if hold.status == HoldActive && !Live(cur.now, hold) && t == hold.roomType && Covers(hold.stay, n) {
      assert HoldsOn(next, t, n) == HoldsOn(cur, t, n) + {id};
    } else {
      assert HoldsOn(next, t, n) == HoldsOn(cur, t, n);
    }
  }

  // ---------- A check-in written over a released booking ----------

  /**
   * A transition written late brings no released booking back exactly when the booking still holds
   * its room, or when the transition is one that gives it up.
   */
  lemma LateTransition(cur: Db, id: Id, t: Transition)
    requires Inv(cur) && id in cur.bookings
    ensures BookingLater(cur.bookings[id], WriteTransition(cur, id, t).bookings[id])
            <==> ActiveStatus(cur.bookings[id].status) || t != MarkCheckedIn
  {
  }

  /** Written over a released booking, a check-in double-books exactly when the room was given away. */
  lemma LateCheckIn(cur: Db, id: Id)
    requires Inv(cur) && id in cur.bookings && !ActiveStatus(cur.bookings[id].status)
    ensures NoDoubleBooking(WriteTransition(cur, id, MarkCheckedIn))
            <==> (cur.bookings[id].room.None? || forall b | b in cur.bookings && b != id ::
                    !BookingTakes(cur.bookings[b], cur.bookings[id].room.value, cur.bookings[id].stay))
  {
    hide References, Capacity, HoldLinks, UniqueKeys, Ledger;
    var next := WriteTransition(cur, id, MarkCheckedIn);
    forall a, b | a in cur.bookings && b in cur.bookings && a != id && b != id
      ensures !Conflicting(next, a, b)
    {
      assert !Conflicting(cur, a, b);
    }
    forall b | b in cur.bookings && b != id
      ensures Conflicting(next, id, b) <==> (cur.bookings[id].room.Some?
                && BookingTakes(cur.bookings[b], cur.bookings[id].room.value, cur.bookings[id].stay))
      ensures Conflicting(next, b, id) <==> Conflicting(next, id, b)
    {
    }
  }
}
