/**
 * Whole runs of the inventory: any number of concurrent calls, each of which may act on reads
 * made arbitrarily many steps earlier, together with a clock and an environment that changes
 * rooms, blocks, room types and lodges at will.
 */
module BookingRuns {
  import opened Wrappers
  import opened Counting
  import opened Inventory
  import opened BookingSteps
  import opened BookingInvariant
  import opened BookingPreservation

  /** A step, and the index of the state in which its call made its reads. */
  datatype Event = Event(step: Step, seen: nat)

  datatype Run = Run(states: seq<Db>, events: seq<Event>)

  ghost predicate StepOf(run: Run, i: nat)
    requires i < |run.events| && |run.states| == |run.events| + 1
  {
    && run.events[i].seen <= i
    && Enabled(run.states[run.events[i].seen], run.states[i], run.events[i].step)
    && run.states[i + 1] == Apply(run.states[run.events[i].seen], run.states[i], run.events[i].step).db
  }

  ghost predicate IsRun(run: Run) {
    && |run.states| == |run.events| + 1
    && Init(run.states[0])
    && forall i | 0 <= i < |run.events| :: StepOf(run, i)
  }

  /** The answer the call of one event gets. */
  function ReplyAt(run: Run, i: nat): Result<Id, Failure>
    requires i < |run.events| && |run.states| == |run.events| + 1 && run.events[i].seen <= i
  {
    Apply(run.states[run.events[i].seen], run.states[i], run.events[i].step).reply
  }

  lemma {:induction false} RunIsSafe(run: Run, n: nat)
    requires IsRun(run) && n < |run.states|
    ensures forall i | 0 <= i <= n :: Inv(run.states[i])
    ensures forall i | 0 <= i <= n :: Later(run.states[i], run.states[n])
  {
    hide Inv, Later;
    if n == 0 {
      InitEstablishes(run.states[0]);
      SameStateKeeps(run.states[0]);
      assert Later(run.states[0], run.states[0]) by { assert Good(run.states[0], run.states[0]); }
    } else {
      RunIsSafe(run, n - 1);
      assert StepOf(run, n - 1);
      var cur, next := run.states[n - 1], run.states[n];
      StepKeeps(run.states[run.events[n - 1].seen], cur, run.events[n - 1].step);
      assert Good(cur, next);
      SameStateKeeps(next);
      assert Good(next, next);
      forall i | 0 <= i <= n ensures Later(run.states[i], next) {
        if i < n {
          LaterTransitive(run.states[i], cur, next);
        }
      }
    }
  }

  lemma ReachableInv(run: Run, i: nat)
    requires IsRun(run) && i < |run.states|
    ensures Inv(run.states[i])
  {
    RunIsSafe(run, i);
  }

  // ---------- No conflicts, ever ----------

  predicate HoldingStatus(status: BookingStatus) {
    status in {Accepted, QrGenerated, CheckedIn}
  }

  /** The conflict report's query for one room held twice (booking-views.service.ts). */
  ghost predicate DoubleBookedRow(db: Db, today: int, a: Id, b: Id) {
    && a in db.bookings && b in db.bookings && b > a
    && db.bookings[a].room.Some? && db.bookings[b].room == db.bookings[a].room
    && db.bookings[b].stay.checkIn < db.bookings[a].stay.checkOut
    && db.bookings[a].stay.checkIn < db.bookings[b].stay.checkOut
    && HoldingStatus(db.bookings[a].status) && HoldingStatus(db.bookings[b].status)
    && db.bookings[a].stay.checkOut >= today && db.bookings[b].stay.checkOut >= today
  }

  /** The report's query for a room type with more bookings on a day than it has rooms. */
  ghost predicate OverbookedRow(db: Db, roomType: Id, totalRooms: int, day: int) {
    |HeldOn(db, roomType, day)| > totalRooms
  }

  function HeldOn(db: Db, roomType: Id, day: int): set<Id> {
    set b | b in db.bookings && db.bookings[b].roomType == roomType && HoldingStatus(db.bookings[b].status)
            && db.bookings[b].stay.checkIn <= day && db.bookings[b].stay.checkOut > day
  }

  /** Over every interleaving, the report of doubly booked rooms is empty. */
  lemma NoRoomIsDoubleBooked(run: Run, i: nat, today: int, a: Id, b: Id)
    requires IsRun(run) && i < |run.states|
    ensures !DoubleBookedRow(run.states[i], today, a, b)
  {
    ReachableInv(run, i);
    if a in run.states[i].bookings && b in run.states[i].bookings {
      assert !Conflicting(run.states[i], a, b);
    }
  }

  /** Nor does any day appear in the report of overbooked room types. */
  lemma NoTypeIsOverbooked(run: Run, i: nat, roomType: Id, totalRooms: int, day: int)
    requires IsRun(run) && i < |run.states|
    requires totalRooms >= |RoomsOf(run.states[i], roomType)|
    ensures !OverbookedRow(run.states[i], roomType, totalRooms, day)
  {
    ReachableInv(run, i);
    var db := run.states[i];
    SubsetCard(HeldOn(db, roomType, day), BookingsOn(db, roomType, day));
    assert Claims(db, roomType, day) <= |RoomsOf(db, roomType)|;
  }

  /**
   * On every night of every reachable state, bookings with a room, bookings without one and live
   * holds of a room type together fit in its rooms; those with a room sit in different rooms.
   */
  lemma NightsFit(run: Run, i: nat, roomType: Id, night: int)
    requires IsRun(run) && i < |run.states|
    ensures var db := run.states[i];
            && |BookingsOn(db, roomType, night)| + |HoldsOn(db, roomType, night)| <= |RoomsOf(db, roomType)|
            && forall a, b | a in PlacedOn(db, roomType, night) && b in PlacedOn(db, roomType, night) && a != b ::
                 db.bookings[a].room != db.bookings[b].room
  {
    ReachableInv(run, i);
    var db := run.states[i];
    assert Claims(db, roomType, night) <= |RoomsOf(db, roomType)|;
    forall a, b | a in PlacedOn(db, roomType, night) && b in PlacedOn(db, roomType, night) && a != b
      ensures db.bookings[a].room != db.bookings[b].room
    {
      assert !Conflicting(db, a, b);
    }
  }

  // ---------- Holds and bookings ----------

  /** A hold is consumed exactly when one booking, and no other, names it as its source. */
  lemma ConsumedIsBooked(run: Run, i: nat, hold: Id)
    requires IsRun(run) && i < |run.states| && hold in run.states[i].holds
    ensures run.states[i].holds[hold].status == HoldConsumed
            <==> exists b :: MadeFrom(run.states[i], b, hold)
    ensures forall a, b | MadeFrom(run.states[i], a, hold) && MadeFrom(run.states[i], b, hold) :: a == b
    ensures forall b | MadeFrom(run.states[i], b, hold) ::
              CopiesHold(run.states[i].bookings[b], run.states[i].holds[hold])
  {
    ReachableInv(run, i);
  }

  /** Consumed, released and expired are final, and an expired hold is never used again. */
  lemma HoldsEnd(run: Run, i: nat, j: nat, hold: Id)
    requires IsRun(run) && i <= j < |run.states| && hold in run.states[i].holds
    ensures hold in run.states[j].holds
    ensures run.states[i].holds[hold].status != HoldActive ==>
              run.states[j].holds[hold].status == run.states[i].holds[hold].status
    ensures !Live(run.states[i].now, run.states[i].holds[hold]) ==>
              && !Live(run.states[j].now, run.states[j].holds[hold])
              && run.states[j].holds[hold].order == run.states[i].holds[hold].order
              && ((exists b :: MadeFrom(run.states[j], b, hold)) <==> exists b :: MadeFrom(run.states[i], b, hold))
  {
    RunIsSafe(run, j);
    assert Later(run.states[i], run.states[j]);
    assert HoldLater(run.states[i].now, run.states[i].holds[hold], run.states[j].now, run.states[j].holds[hold]);
    ConsumedIsBooked(run, i, hold);
    ConsumedIsBooked(run, j, hold);
  }

  /** The event made a booking from a hold: its answer is a booking that did not exist before. */
  ghost predicate Creates(run: Run, i: nat, hold: Id, booking: Id)
    requires i < |run.events| && |run.states| == |run.events| + 1 && run.events[i].seen <= i
  {
    && CreationOf(run.events[i].step, hold)
    && ReplyAt(run, i) == Ok(booking)
    && booking !in run.states[i].bookings
  }

  predicate CreationOf(step: Step, hold: Id) {
    (step.StepCreateBooking? || step.StepPrepaid?) && step.hold == hold
  }

  /** A creation call that meets a booking already made from its hold adds nothing. */
  lemma CreationAfterBooking(seen: Db, cur: Db, step: Step, hold: Id, booking: Id)
    requires HoldLinks(cur) && Later(seen, cur) && CreationOf(step, hold)
    requires MadeFrom(cur, booking, hold)
    ensures Apply(seen, cur, step).db == cur
    ensures Apply(seen, cur, step).reply.Ok? ==> Apply(seen, cur, step).reply == Ok(booking)
  {
    hide GetAvailability, FreeRooms, GuestChecks, Convert, CopiesHold, HoldLater, LeastId, Live, TypeStillBookable;
    PriorIsFound(seen, cur, hold, booking);
  }

  /** The rows read earlier, and the rows now, name no booking of the hold but the one there is. */
  lemma PriorIsFound(seen: Db, cur: Db, hold: Id, booking: Id)
    requires HoldLinks(cur) && Later(seen, cur) && MadeFrom(cur, booking, hold)
    ensures FindBySource(cur, hold) == Some(booking)
    ensures FindBySource(seen, hold).Some? ==> FindBySource(seen, hold) == Some(booking)
  {
    hide HoldLater, CopiesHold;
    var earlier := FindBySource(seen, hold);
    if earlier.Some? {
      assert BookingLater(seen.bookings[earlier.value], cur.bookings[earlier.value]);
      assert MadeFrom(cur, earlier.value, hold);
    }
    var prior := FindBySource(cur, hold);
    assert prior.Some? && MadeFrom(cur, prior.value, hold);
  }

  /**
   * Once a creation call has made a booking, every later creation call for that hold, prepaid or
   * not and whatever it read, leaves the rows alone and answers with that booking or an error.
   */
  lemma CreationIsIdempotent(run: Run, i: nat, j: nat, hold: Id, booking: Id)
    requires IsRun(run) && i < j < |run.events|
    requires StepOf(run, i) && Creates(run, i, hold, booking)
    requires StepOf(run, j) && CreationOf(run.events[j].step, hold)
    ensures run.states[j + 1] == run.states[j]
    ensures ReplyAt(run, j).Ok? ==> ReplyAt(run, j) == Ok(booking)
    ensures CreationRows(run.states[j + 1].history, booking) == 1
  {
    hide References, NoDoubleBooking, Capacity, UniqueKeys, HoldLater, Apply;
    CreatedBooking(run, i, hold, booking);
    RunIsSafe(run, i + 1);
    RunIsSafe(run, j);
    assert Later(run.states[i + 1], run.states[j]);
    assert BookingLater(run.states[i + 1].bookings[booking], run.states[j].bookings[booking]);
    assert MadeFrom(run.states[j], booking, hold);
    assert Later(run.states[run.events[j].seen], run.states[j]);
    CreationAfterBooking(run.states[run.events[j].seen], run.states[j], run.events[j].step, hold, booking);
  }

  /** The creation call gave up in its reads. */
  predicate StoppedEarly(seen: Db, step: Step, hold: Id)
    requires CreationOf(step, hold)
  {
    if step.StepCreateBooking? then CreateBookingReads(seen, hold, step.user, step.dto).Stop?
    else PrepaidReads(seen, hold, step.user, step.dto, step.paid).Stop?
  }

  /** A creation call that meets the booking, and does not give up in its reads, answers with it. */
  lemma RepeatAnswers(seen: Db, cur: Db, step: Step, hold: Id, booking: Id)
    requires HoldLinks(cur) && Later(seen, cur) && CreationOf(step, hold) && MadeFrom(cur, booking, hold)
    ensures Apply(seen, cur, step).reply == Ok(booking) <==> !StoppedEarly(seen, step, hold)
  {
    hide GetAvailability, FreeRooms, GuestChecks, Convert, CopiesHold, HoldLater, LeastId, Live, TypeStillBookable;
    PriorIsFound(seen, cur, hold, booking);
  }

  /** Of a hold that already has a booking, the reads ask only for its pilgrim and its order. */
  lemma ReadsOfBooked(seen: Db, step: Step, hold: Id)
    requires CreationOf(step, hold) && hold in seen.holds && FindBySource(seen, hold).Some?
    requires seen.holds[hold].order.Some? <==> seen.holds[hold].amount.Some?
    ensures StoppedEarly(seen, step, hold) <==>
              || seen.holds[hold].pilgrim != step.user
              || seen.holds[hold].order != (if step.StepPrepaid? then Some(step.paid.order) else None)
  {
    hide FindBySource, GuestChecks;
  }

  lemma BookedAfter(run: Run, i: nat, k: nat, hold: Id, booking: Id)
    requires IsRun(run) && i < k < |run.states| && i < |run.events|
    requires StepOf(run, i) && Creates(run, i, hold, booking)
    ensures MadeFrom(run.states[k], booking, hold) && hold in run.states[k].holds
    ensures run.states[k].holds[hold].order.Some? <==> run.states[k].holds[hold].amount.Some?
  {
    hide NoDoubleBooking, Capacity, UniqueKeys, Ledger, Apply, HoldLater, CopiesHold;
    CreatedBooking(run, i, hold, booking);
    RunIsSafe(run, k);
    assert Later(run.states[i + 1], run.states[k]);
    assert BookingLater(run.states[i + 1].bookings[booking], run.states[k].bookings[booking]);
    assert MadeFrom(run.states[k], booking, hold);
    assert HoldRow(run.states[k], run.states[k].holds[hold]);
  }

  /**
   * A creation call repeated after a booking was made, whichever kind made it, returns that booking
   * exactly when it is the hold's pilgrim who calls and, for an unpaid creation, the hold has no order,
   * or, for a payment, the order is the hold's.
   */
  lemma RepeatReturnsExactly(run: Run, i: nat, j: nat, hold: Id, booking: Id)
    requires IsRun(run) && i < j < |run.events| && i < run.events[j].seen
    requires StepOf(run, i) && Creates(run, i, hold, booking)
    requires StepOf(run, j) && CreationOf(run.events[j].step, hold)
    ensures var step, seen := run.events[j].step, run.states[run.events[j].seen];
            && hold in seen.holds
            && (ReplyAt(run, j) == Ok(booking) <==>
                  && seen.holds[hold].pilgrim == step.user
                  && seen.holds[hold].order == if step.StepPrepaid? then Some(step.paid.order) else None)
  {
    hide References, NoDoubleBooking, Capacity, UniqueKeys, Ledger, HoldLater, BookingLater, Apply, StoppedEarly,
      Creates;
    BookedAfter(run, i, j, hold, booking);
    BookedAfter(run, i, run.events[j].seen, hold, booking);
    RunIsSafe(run, j);
    var seen := run.states[run.events[j].seen];
    assert Later(seen, run.states[j]);
    assert FindBySource(seen, hold).Some?;
    ReadsOfBooked(seen, run.events[j].step, hold);
    RepeatAnswers(seen, run.states[j], run.events[j].step, hold, booking);
  }

  lemma CreatorIsPilgrim(run: Run, i: nat, k: nat, hold: Id, booking: Id)
    requires IsRun(run) && i < k < |run.states| && i < |run.events|
    requires StepOf(run, i) && Creates(run, i, hold, booking)
    ensures hold in run.states[k].holds && run.states[k].holds[hold].pilgrim == run.events[i].step.user
  {
    hide Inv, BookingLater;
    BookedAfter(run, i, k, hold, booking);
    RunIsSafe(run, k);
    RunIsSafe(run, i);
    var seen := run.states[run.events[i].seen];
    assert Later(seen, run.states[i]) && Later(run.states[i], run.states[k]);
    LaterTransitive(seen, run.states[i], run.states[k]);
    FirstCaller(seen, run.states[i], run.events[i].step, hold, booking);
    assert HoldLater(seen.now, seen.holds[hold], run.states[k].now, run.states[k].holds[hold]);
  }

  lemma FirstCaller(seen: Db, cur: Db, step: Step, hold: Id, booking: Id)
    requires CreationOf(step, hold) && Later(seen, cur)
    requires Apply(seen, cur, step).reply == Ok(booking) && booking !in cur.bookings
    ensures hold in seen.holds && seen.holds[hold].pilgrim == step.user
  {
    hide GetAvailability, FreeRooms, GuestChecks, HoldLater, LeastId, Live, TypeStillBookable, BookingLater,
      CollectionsOf, CreationRows, Convert;
  }

  /** A payment confirmed again returns the booking it made. */
  lemma PaymentAgainReturnsBooking(run: Run, i: nat, j: nat, hold: Id, booking: Id)
    requires IsRun(run) && i < j < |run.events| && i < run.events[j].seen
    requires StepOf(run, i) && Creates(run, i, hold, booking) && run.events[i].step.StepPrepaid?
    requires StepOf(run, j) && CreationOf(run.events[j].step, hold) && run.events[j].step.StepPrepaid?
    requires run.events[j].step.user == run.events[i].step.user
    requires run.events[j].step.paid == run.events[i].step.paid
    ensures ReplyAt(run, j) == Ok(booking)
  {
    hide Inv, Apply, Later;
    RepeatReturnsExactly(run, i, j, hold, booking);
    CreatorIsPilgrim(run, i, run.events[j].seen, hold, booking);
    PrepaidMoneyIsConserved(run, i, run.events[j].seen, hold, booking);
  }

  /** A creation repeated by its caller returns the booking exactly when the hold has no order. */
  lemma CreationAgainReturnsBooking(run: Run, i: nat, j: nat, hold: Id, booking: Id)
    requires IsRun(run) && i < j < |run.events| && i < run.events[j].seen
    requires StepOf(run, i) && Creates(run, i, hold, booking)
    requires StepOf(run, j) && CreationOf(run.events[j].step, hold) && run.events[j].step.StepCreateBooking?
    requires run.events[j].step.user == run.events[i].step.user
    ensures hold in run.states[run.events[j].seen].holds
    ensures ReplyAt(run, j) == Ok(booking) <==> run.states[run.events[j].seen].holds[hold].order.None?
  {
    hide Inv, Apply, Later;
    RepeatReturnsExactly(run, i, j, hold, booking);
    CreatorIsPilgrim(run, i, run.events[j].seen, hold, booking);
  }

  lemma CreatedBooking(run: Run, i: nat, hold: Id, booking: Id)
    requires IsRun(run) && i < |run.events| && StepOf(run, i) && Creates(run, i, hold, booking)
    ensures MadeFrom(run.states[i + 1], booking, hold)
    ensures booking == run.events[i].step.newId
    ensures run.states[i + 1] != run.states[i]
  {
    hide Inv, Apply, Later;
    RunIsSafe(run, i);
    CreationStep(run.states[run.events[i].seen], run.states[i], run.events[i].step, hold, booking);
  }

  lemma CreationStep(seen: Db, cur: Db, step: Step, hold: Id, booking: Id)
    requires Later(seen, cur) && CreationOf(step, hold)
    requires Apply(seen, cur, step).reply == Ok(booking) && booking !in cur.bookings
    ensures MadeFrom(Apply(seen, cur, step).db, booking, hold)
    ensures booking == step.newId
  {
    hide GetAvailability, FreeRooms, GuestChecks, HoldLater, LeastId, Live, TypeStillBookable, BookingLater,
      CollectionsOf, CreationRows;
    EarlierBookingRemains(seen, cur, hold);
  }

  lemma EarlierBookingRemains(seen: Db, cur: Db, hold: Id)
    requires Later(seen, cur)
    ensures var earlier := FindBySource(seen, hold);
            earlier.Some? ==> earlier.value in cur.bookings
  {
  }

  // ---------- Checkout attempts ----------

  /**
   * From the moment an attempt key names a hold, every call with that key leaves the rows alone:
   * it answers with that hold, still live and for the same stay, or fails.
   */
  lemma AttemptIsIdempotent(run: Run, i: nat, j: nat, hold: Id)
    requires IsRun(run) && i <= j < |run.events| && StepOf(run, j) && hold in run.states[i].holds
    requires run.events[j].step.StepCreateLock?
    requires run.events[j].step.key.Some? && run.states[i].holds[hold].attempt == run.events[j].step.key
    requires run.states[i].holds[hold].pilgrim == run.events[j].step.user
    ensures run.states[j + 1] == run.states[j]
    ensures ReplyAt(run, j).Ok? ==>
              && ReplyAt(run, j) == Ok(hold)
              && Live(run.states[j].now, run.states[j].holds[hold])
              && run.states[j].holds[hold].stay == Stay(run.events[j].step.checkIn, run.events[j].step.checkOut)
              && run.states[j].holds[hold].roomType == run.events[j].step.roomType
    ensures hold in run.states[j].holds
    ensures ReplyAt(run, j) == Ok(hold) <==>
              && ValidAttemptKey(run.events[j].step.key.value)
              && SameRequest(run.states[j].holds[hold], run.events[j].step)
              && Live(run.states[j].now, run.states[j].holds[hold])
  {
    hide NoDoubleBooking, Capacity, HoldLinks, Ledger, BookingLater, BookingRow, Apply;
    RunIsSafe(run, j);
    assert HoldRow(run.states[j], run.states[j].holds[hold]);
    var cur, step := run.states[j], run.events[j].step;
    assert Later(run.states[i], cur);
    assert HoldLater(run.states[i].now, run.states[i].holds[hold], cur.now, cur.holds[hold]);
    RepeatedAttempt(run.states[run.events[j].seen], cur, step, hold);
  }

  /** The call asks for the hold's lodge, room type and stay. */
  predicate SameRequest(hold: Hold, step: Step)
    requires step.StepCreateLock?
  {
    && hold.lodge == step.lodge && hold.roomType == step.roomType
    && hold.stay == Stay(step.checkIn, step.checkOut)
  }

  lemma RepeatedAttempt(seen: Db, cur: Db, step: Step, hold: Id)
    requires UniqueKeys(cur) && step.StepCreateLock? && hold in cur.holds
    requires step.key.Some? && cur.holds[hold].attempt == step.key && cur.holds[hold].pilgrim == step.user
    requires cur.holds[hold].stay.checkIn < cur.holds[hold].stay.checkOut
    ensures Apply(seen, cur, step).db == cur
    ensures Apply(seen, cur, step).reply.Ok? ==>
              && Apply(seen, cur, step).reply == Ok(hold)
              && Live(cur.now, cur.holds[hold])
              && cur.holds[hold].stay == Stay(step.checkIn, step.checkOut)
              && cur.holds[hold].roomType == step.roomType
    ensures Apply(seen, cur, step).reply == Ok(hold) <==>
              && ValidAttemptKey(step.key.value) && SameRequest(cur.holds[hold], step)
              && Live(cur.now, cur.holds[hold])
  {
    hide GetAvailability, ValidAttemptKey;
    var found := FindAttempt(cur, step.user, step.key.value);
    assert found.Some?;
    assert SameAttempt(cur.holds[found.value], cur.holds[hold]);
  }

  /** In every reachable state an attempt key names at most one hold of its pilgrim. */
  lemma AttemptNamesOneHold(run: Run, i: nat, g: Id, h: Id)
    requires IsRun(run) && i < |run.states| && g in run.states[i].holds && h in run.states[i].holds
    requires run.states[i].holds[g].attempt.Some?
    requires run.states[i].holds[g].attempt == run.states[i].holds[h].attempt
    requires run.states[i].holds[g].pilgrim == run.states[i].holds[h].pilgrim
    ensures g == h
  {
    ReachableInv(run, i);
    assert SameAttempt(run.states[i].holds[g], run.states[i].holds[h]);
  }

  // ---------- Money ----------

  /** A call that fails leaves every row as it was; so does a payment that finds no room. */
  lemma FailureChangesNothing(seen: Db, cur: Db, step: Step)
    requires Enabled(seen, cur, step)
    ensures Apply(seen, cur, step).reply.Err? ==> Apply(seen, cur, step).db == cur
    ensures step.StepPrepaid? && FreeRoomsFor(seen, step.hold, cur) == {} && FindBySource(cur, step.hold).None?
            ==> Apply(seen, cur, step).db == cur
  {
  }

  function FreeRoomsFor(seen: Db, hold: Id, cur: Db): set<Id> {
    if hold in seen.holds then
      FreeRooms(cur, seen.holds[hold].lodge, seen.holds[hold].roomType, seen.holds[hold].stay, None, Some(hold))
    else {}
  }

  /**
   * Whatever happens between order and capture, and ever after, a booking made by the payment
   * path costs what was captured: the amount stored on its hold, and its one collection row,
   * which is paid and carries the order.
   */
  lemma PrepaidMoneyIsConserved(run: Run, i: nat, j: nat, hold: Id, booking: Id)
    requires IsRun(run) && i < |run.events| && i < j < |run.states|
    requires StepOf(run, i) && Creates(run, i, hold, booking) && run.events[i].step.StepPrepaid?
    ensures hold in run.states[j].holds && booking in run.states[j].bookings
    ensures var db, paid := run.states[j], run.events[i].step.paid;
            && db.bookings[booking].total == paid.amount
            && db.bookings[booking].payment == FullyPaid
            && db.holds[hold].amount == Some(paid.amount) && db.holds[hold].order == Some(paid.order)
            && CollectionsOf(db.collections, booking)
               == [Collection(booking, paid.amount, CollectionPaid, Some(paid.order), Some(paid.payment))]
  {
    hide Inv, Apply, Enabled, Later, CollectionsOf;
    CreatedBooking(run, i, hold, booking);
    RunIsSafe(run, i);
    RunIsSafe(run, i + 1);
    RunIsSafe(run, j);
    PrepaidCreation(run.states[run.events[i].seen], run.states[i], run.events[i].step);
    MoneyLater(run.states[i + 1], run.states[j], hold, booking);
  }

  lemma MoneyLater(next: Db, db: Db, hold: Id, booking: Id)
    requires Later(next, db) && hold in next.holds && booking in next.bookings && next.holds[hold].order.Some?
    ensures hold in db.holds && booking in db.bookings
    ensures db.bookings[booking].total == next.bookings[booking].total
    ensures db.bookings[booking].payment == next.bookings[booking].payment
    ensures db.holds[hold].amount == next.holds[hold].amount && db.holds[hold].order == next.holds[hold].order
    ensures CollectionsOf(db.collections, booking) == CollectionsOf(next.collections, booking)
  {
    hide CollectionsOf;
    assert HoldLater(next.now, next.holds[hold], db.now, db.holds[hold]);
    assert BookingLater(next.bookings[booking], db.bookings[booking]);
  }

  lemma PrepaidCreation(seen: Db, cur: Db, step: Step)
    requires Inv(cur) && Later(seen, cur) && Enabled(seen, cur, step) && step.StepPrepaid?
    requires Apply(seen, cur, step).db != cur
    ensures var next := Apply(seen, cur, step).db;
            && step.newId in next.bookings && step.hold in next.holds
            && next.bookings[step.newId].total == step.paid.amount
            && next.bookings[step.newId].payment == FullyPaid
            && next.holds[step.hold].amount == Some(step.paid.amount)
            && next.holds[step.hold].order == Some(step.paid.order)
            && CollectionsOf(next.collections, step.newId)
               == [Collection(step.newId, step.paid.amount, CollectionPaid, Some(step.paid.order),
                              Some(step.paid.payment))]
  {
    hide NoDoubleBooking, Capacity, HoldLinks, UniqueKeys, References, BookingLater;
    var lock := seen.holds[step.hold];
    assert HoldLater(seen.now, lock, cur.now, cur.holds[step.hold]);
    var next := Apply(seen, cur, step).db;
    var row := PaidRow(step.newId, lock, step.paid);
    assert next.collections == cur.collections + [row];
    AppendCollection(cur.collections, row, step.newId);
    NoRows(cur.collections, step.newId);
  }

  /** One captured payment pays for at most one booking. */
  lemma PaymentPaysOnce(run: Run, i: nat, a: Id, b: Id, payment: Id)
    requires IsRun(run) && i < |run.states|
    requires exists x :: 0 <= x < |run.states[i].collections| && run.states[i].collections[x].booking == a
                         && run.states[i].collections[x].payment == Some(payment)
    requires exists x :: 0 <= x < |run.states[i].collections| && run.states[i].collections[x].booking == b
                         && run.states[i].collections[x].payment == Some(payment)
    ensures a == b
  {
    ReachableInv(run, i);
    var c := run.states[i].collections;
    var x :| 0 <= x < |c| && c[x].booking == a && c[x].payment == Some(payment);
    var y :| 0 <= y < |c| && c[y].booking == b && c[y].payment == Some(payment);
    assert x <= y || y < x;
  }
}
