/** Runs of a lodge with one room in which each of the three late writes does harm. */
module BookingRaceRuns {
  import opened Wrappers
  import opened Inventory
  import opened BookingSteps
  import opened BookingInvariant
  import opened BookingRuns
  import opened BookingRaces

  const TONIGHT := Stay(10, 11)

  const GUEST := Request(1, 0, false, true)

  /** One verified lodge, one room type, one room on sale. */
  function OneRoom(): Db {
    Db(0, map[0 := Lodge(true, false, true)], map[0 := RoomType(0, true, false, 2, 0)],
       map[0 := Room(0, 0, 0, 0, Available, true, false)], {}, map[], map[], [], [])
  }

  function Taken(user: Id, newId: Id): Step {
    StepCreateLock(user, 0, 0, 10, 11, None, Some(100), 300000, newId)
  }

  /** The hold that step makes. */
  function HoldOf(user: Id, now: int): Hold {
    Hold(user, 0, 0, None, TONIGHT, now + 300000, HoldActive, None, None, None)
  }

  /** The count the availability query gives when nothing else claims the room. */
  lemma RoomLeft(db: Db, exceptHold: Option<Id>)
    requires db.rooms.Keys == {0} && db.rooms[0].lodge == 0 && db.rooms[0].roomType == 0
    requires !db.rooms[0].deleted && db.rooms[0].active && !BlockingRoomStatus(db.rooms[0].status)
    requires db.blocks == {}
    requires forall b | b in db.bookings :: !ActiveStatus(db.bookings[b].status)
    requires forall h | h in db.holds :: db.holds[h].room.None? && (exceptHold == Some(h) || !Live(db.now, db.holds[h]))
    ensures FreeRooms(db, 0, 0, TONIGHT, None, exceptHold) == {0}
    ensures CountAvailableRooms(db, 0, 0, TONIGHT, None, exceptHold) == 1
  {
    assert RoomFree(db, 0, TONIGHT, None, exceptHold);
    assert FreeRooms(db, 0, 0, TONIGHT, None, exceptHold) == {0};
    assert UnassignedBookings(db, 0, 0, TONIGHT, None) == {};
    assert UnassignedHolds(db, 0, 0, TONIGHT, exceptHold) == {};
  }

  lemma FirstHold(db: Db, user: Id, newId: Id)
    requires db.rooms.Keys == {0} && db.rooms[0] == Room(0, 0, 0, 0, Available, true, false) && db.blocks == {}
    requires db.lodges == OneRoom().lodges && db.types == OneRoom().types
    requires forall b | b in db.bookings :: !ActiveStatus(db.bookings[b].status)
    requires forall h | h in db.holds :: db.holds[h].room.None? && !Live(db.now, db.holds[h])
    ensures Apply(db, db, Taken(user, newId))
            == Outcome(db.(holds := db.holds[newId := HoldOf(user, db.now)]), Ok(newId))
  {
    RoomLeft(db, None);
  }

  /** An event whose call read the state it acts on, or an earlier one, and what it led to. */
  lemma Extend(run: Run, event: Event, next: Db)
    requires IsRun(run) && event.seen < |run.states| && |run.states| > 0
    requires Enabled(run.states[event.seen], run.states[|run.states| - 1], event.step)
    requires next == Apply(run.states[event.seen], run.states[|run.states| - 1], event.step).db
    ensures IsRun(Then(run, event, next))
  {
    hide Apply, Enabled, Init;
    var longer := Then(run, event, next);
    forall i | 0 <= i < |longer.events| ensures StepOf(longer, i) {
      if i < |run.events| {
        assert StepOf(run, i);
      }
    }
  }

  function Then(run: Run, event: Event, next: Db): Run {
    Run(run.states + [next], run.events + [event])
  }

  lemma StartRun(db: Db)
    requires db == OneRoom()
    ensures IsRun(Run([db], []))
  {
  }

  const A := OneRoom()

  /** A hold taken, read again at once by the call that books it. */
  const B := A.(holds := map[0 := HoldOf(1, 0)])

  const AB := Run([A, B], [Event(Taken(1, 0), 0)])

  lemma HoldTaken()
    ensures IsRun(AB)
  {
    hide Apply;
    StartRun(A);
    FirstHold(A, 1, 0);
    Extend(Run([A], []), Event(Taken(1, 0), 0), B);
    assert [A] + [B] == [A, B];
  }

  // ---------- A guest's hold expires while the payment provider is asked ----------

  const EXPIRED := B.(now := 300001)

  const RETAKEN := EXPIRED.(holds := map[0 := HoldOf(1, 0), 1 := HoldOf(2, 300001)])

  const EXPIRY_RUN := Then(Then(AB, Event(Tick(300001), 1), EXPIRED), Event(Taken(2, 1), 2), RETAKEN)

  lemma ExpiryIsRun()
    ensures IsRun(EXPIRY_RUN)
    ensures EXPIRY_RUN.states[1] == B && EXPIRY_RUN.states[3] == RETAKEN
  {
    HoldTaken();
    hide IsRun;
    assert EXPIRED == Apply(B, B, Tick(300001)).db;
    hide Apply;
    Extend(AB, Event(Tick(300001), 1), EXPIRED);
    FirstHold(EXPIRED, 2, 1);
    Extend(Then(AB, Event(Tick(300001), 1), EXPIRED), Event(Taken(2, 1), 2), RETAKEN);
  }

  lemma ResolvedInTime()
    ensures ResolveLockForPrepay(B, 0, 1, Some(100)).Ok?
  {
    hide FreeRooms, UnassignedHolds, UnassignedBookings;
    RoomLeft(B, Some(0));
  }

  /**
   * Another guest takes the room, then the order for the first hold is written: one room, two live
   * claims on it. The guarded update refuses at that point.
   */
  lemma LateOrderOversells()
    ensures IsRun(EXPIRY_RUN)
    ensures ResolveLockForPrepay(EXPIRY_RUN.states[1], 0, 1, Some(100)).Ok?
    ensures !Capacity(WriteOrder(EXPIRY_RUN.states[3], 0, 7, 100, 900000))
    ensures AttachProviderOrder(EXPIRY_RUN.states[3], 0, 7, 100, 900000).reply.Err?
  {
    ExpiryIsRun();
    hide IsRun;
    ResolvedInTime();
    hide ResolveLockForPrepay;
    var after := WriteOrder(RETAKEN, 0, 7, 100, 900000);
    assert HoldsOn(after, 0, 10) == {0, 1};
    assert RoomsOf(after, 0) == {0};
    assert Claims(after, 0, 10) > |RoomsOf(after, 0)|;
  }

  // ---------- A hold gets an order between the reads of createBooking and its transaction ----------

  const PAID := Payment(7, 8, 100, true)

  const ORDERED := B.(holds := map[0 := HoldOf(1, 0).(expiresAt := 900000, order := Some(7), amount := Some(100))])

  const UNPAID := Convert(ORDERED, 0, 0, PendingBooking(HoldOf(1, 0), 0, 1, GUEST, 100, 120000), [])

  const ORDER_RUN :=
    Then(Then(AB, Event(Ordered(), 1), ORDERED), Event(Booked(1, 0), 1), UNPAID)

  function Ordered(): Step {
    StepCreateOrder(0, 1, Some(100), 7, 900000)
  }

  lemma OrderStep()
    ensures ORDERED == Apply(B, B, Ordered()).db
  {
    hide FreeRooms, UnassignedHolds, UnassignedBookings;
    RoomLeft(B, Some(0));
  }

  lemma UnpaidStep()
    ensures UNPAID == Apply(B, ORDERED, Booked(1, 0)).db
  {
    hide FreeRooms, UnassignedHolds, UnassignedBookings;
    RoomLeft(ORDERED, Some(0));
    assert FindBySource(B, 0).None? && FindBySource(ORDERED, 0).None?;
  }

  lemma OrderIsRun()
    ensures IsRun(ORDER_RUN)
    ensures ORDER_RUN.states[3] == UNPAID
  {
    HoldTaken();
    OrderStep();
    UnpaidStep();
    hide IsRun, Apply;
    Extend(AB, Event(Ordered(), 1), ORDERED);
    Extend(Then(AB, Event(Ordered(), 1), ORDERED), Event(Booked(1, 0), 1), UNPAID);
  }

  /** The captured payment for that order is answered with the booking, which is not paid. */
  lemma LateOrderGoesUnpaid()
    ensures IsRun(ORDER_RUN)
    ensures var db := ORDER_RUN.states[3];
            && Apply(db, db, StepPrepaid(0, 1, GUEST, PAID, {}, 1)) == Outcome(db, Ok(0))
            && db.bookings[0].payment == PayAtLodge && CollectionsOf(db.collections, 0) == []
            && db.holds[0].order == Some(PAID.order)
  {
    OrderIsRun();
    hide IsRun;
    assert UNPAID.bookings.Keys == {0} && UNPAID.bookings[0].source == Some(0);
    assert FindBySource(UNPAID, 0) == Some(0);
  }

  // ---------- A room is sold again while a check-in waits to write ----------

  function Booked(user: Id, id: Id): Step {
    StepCreateBooking(id, user, GUEST, Some(100), 120000, id)
  }

  function WithRoom(db: Db, id: Id): Db
    requires id in db.bookings && 0 in db.rooms
  {
    db.(bookings := db.bookings[id := db.bookings[id].(room := Some(0), status := Accepted)],
        rooms := db.rooms[0 := db.rooms[0].(status := Confirmed)],
        history := db.history + [HistoryRow(id, BookingAccepted, Some(PendingOwnerApproval), Accepted)])
  }

  lemma BookingStep(db: Db, user: Id, id: Id)
    requires db.rooms.Keys == {0} && db.rooms[0] == Room(0, 0, 0, 0, Available, true, false) && db.blocks == {}
    requires db.lodges == A.lodges && db.types == A.types
    requires db.now == 0 && id in db.holds && db.holds[id] == HoldOf(user, 0)
    requires forall b | b in db.bookings :: !ActiveStatus(db.bookings[b].status) && db.bookings[b].source != Some(id)
    requires forall h | h in db.holds :: db.holds[h].room.None? && (h == id || !Live(db.now, db.holds[h]))
    ensures Apply(db, db, Booked(user, id))
            == Outcome(Convert(db, id, id, PendingBooking(HoldOf(user, 0), id, user, GUEST, 100, 120000), []), Ok(id))
  {
    RoomLeft(db, Some(id));
    assert FindBySource(db, id).None?;
  }

  lemma AcceptStep(db: Db, user: Id, id: Id)
    requires db.rooms.Keys == {0} && db.rooms[0] == Room(0, 0, 0, 0, Available, true, false) && db.blocks == {}
    requires id in db.bookings
    requires db.bookings[id] == PendingBooking(HoldOf(user, 0), id, user, GUEST, 100, 120000)
    requires forall b | b in db.bookings && b != id :: !ActiveStatus(db.bookings[b].status)
    requires forall h | h in db.holds :: db.holds[h].room.None?
    ensures Apply(db, db, StepAccept(id, true)) == Outcome(WithRoom(db, id), Ok(id))
  {
    var free := FreeRooms(db, 0, 0, TONIGHT, Some(id), None);
    assert RoomFree(db, 0, TONIGHT, Some(id), None);
    assert free == {0};
    assert FirstRoom(db.rooms, free) == 0;
  }

  const C := Convert(B, 0, 0, PendingBooking(HoldOf(1, 0), 0, 1, GUEST, 100, 120000), [])

  const D := WithRoom(C, 0)

  const E := Note(SetStatus(D.(rooms := A.rooms), 0, Cancelled),
                  HistoryRow(0, CancelledByPilgrim, Some(Accepted), Cancelled))

  const F := E.(holds := E.holds[1 := HoldOf(2, 0)])

  const G := Convert(F, 1, 1, PendingBooking(HoldOf(2, 0), 1, 2, GUEST, 100, 120000), [])

  const H := WithRoom(G, 1)

  const TO_D := Then(Then(AB, Event(Booked(1, 0), 1), C), Event(StepAccept(0, true), 2), D)

  const TO_F := Then(Then(TO_D, Event(StepCancel(0, 1, false), 3), E), Event(Taken(2, 1), 4), F)

  const CHECK_IN_RUN := Then(Then(TO_F, Event(Booked(2, 1), 5), G), Event(StepAccept(1, true), 6), H)

  lemma UpToD()
    ensures IsRun(TO_D)
  {
    HoldTaken();
    hide IsRun, Apply;
    BookingStep(B, 1, 0);
    Extend(AB, Event(Booked(1, 0), 1), C);
    AcceptStep(C, 1, 0);
    Extend(Then(AB, Event(Booked(1, 0), 1), C), Event(StepAccept(0, true), 2), D);
  }

  lemma CancelStep()
    ensures Apply(D, D, StepCancel(0, 1, false)).db == E
  {
    assert A.rooms == ReleasedRooms(D.rooms, Some(0));
  }

  lemma UpToF()
    ensures IsRun(TO_F)
  {
    UpToD();
    CancelStep();
    hide IsRun, Apply;
    Extend(TO_D, Event(StepCancel(0, 1, false), 3), E);
    FirstHoldAfter(E);
    Extend(Then(TO_D, Event(StepCancel(0, 1, false), 3), E), Event(Taken(2, 1), 4), F);
  }

  lemma FirstHoldAfter(db: Db)
    requires db == E
    ensures Apply(db, db, Taken(2, 1)).db == F
  {
    hide Apply;
    FirstHold(db, 2, 1);
  }

  lemma CheckInIsRun()
    ensures IsRun(CHECK_IN_RUN)
  {
    UpToF();
    hide IsRun, Apply;
    BookingStep(F, 2, 1);
    Extend(TO_F, Event(Booked(2, 1), 5), G);
    AcceptStep(G, 2, 1);
    Extend(Then(TO_F, Event(Booked(2, 1), 5), G), Event(StepAccept(1, true), 6), H);
  }

  /** The check-in read the booking while it was accepted; its write puts two parties in one room. */
  lemma LateCheckInDoubleBooks()
    ensures IsRun(CHECK_IN_RUN)
    ensures CHECK_IN_RUN.states[3].bookings[0].status == MarkCheckedIn.From()
    ensures !NoDoubleBooking(WriteTransition(CHECK_IN_RUN.states[7], 0, MarkCheckedIn))
  {
    CheckInIsRun();
    hide IsRun;
    assert CHECK_IN_RUN.states[3] == D && CHECK_IN_RUN.states[7] == H;
    var after := WriteTransition(H, 0, MarkCheckedIn);
    assert Conflicting(after, 0, 1);
  }
}
