/**
 * One night is exactly what a hold promises: for every longer stay there is a run in which a live hold
 * is refused although nobody took anything off sale and every night still has its rooms.
 */
module BookingPromiseRun {
  import opened Wrappers
  import opened Inventory
  import opened BookingSteps
  import opened BookingInvariant
  import opened BookingRuns
  import opened BookingRaceRuns
  import opened BookingPromise

  // ---------- The promise for stays of n nights ----------

  /** The parameters of a call that books a hold. */
  datatype Call = Call(user: Id, dto: Request, quote: Option<int>, responseTime: int, newId: Id)

  /**
   * In a run without outside changes, state j has a live hold of n nights whose type is on sale, and
   * the call that books it is refused.
   */
  ghost predicate Refused(run: Run, j: nat, id: Id, call: Call, n: nat) {
    && IsRun(run) && j < |run.states| && (forall k | 0 <= k < j :: !run.events[k].step.Environment?)
    && var db := run.states[j];
    && id in db.holds && Live(db.now, db.holds[id]) && db.holds[id].stay.checkOut - db.holds[id].stay.checkIn == n
    && Bookable(db, id, call.quote) && (call.dto.online ==> call.quote.value > 0)
    && CreateBookingTx(db, id, db.holds[id], call.user, call.dto, call.quote, call.responseTime, call.newId).reply
       != Ok(call.newId)
  }

  ghost predicate AlwaysHonoured(n: nat) {
    forall run: Run, j: nat, id: Id, call: Call :: !Refused(run, j, id, call, n)
  }

  // ---------- The run ----------

  /** A stay of n nights, and its last night. */
  function Long(n: nat): Stay {
    Stay(10, 10 + n)
  }

  function LastNight(n: nat): Stay {
    Stay(9 + n, 10 + n)
  }

  /** Two rooms on sale, one of them blocked on the first night only. */
  const TWO_ROOMS := Db(0, map[0 := Lodge(true, false, true)], map[0 := RoomType(0, true, false, 2, 0)],
                        map[0 := Room(0, 0, 0, 0, Available, true, false),
                            1 := Room(0, 0, 0, 1, Available, true, false)],
                        {Block(0, 10)}, map[], map[], [], [])

  function Lock(user: Id, stay: Stay, newId: Id): Step {
    StepCreateLock(user, 0, 0, stay.checkIn, stay.checkOut, None, Some(100), 300000, newId)
  }

  function Held(user: Id, stay: Stay): Hold {
    Hold(user, 0, 0, None, stay, 300000, HoldActive, None, None, None)
  }

  /** The first guest holds all the nights, the second one the last. */
  function First(n: nat): Db {
    TWO_ROOMS.(holds := map[0 := Held(1, Long(n))])
  }

  function Both(n: nat): Db {
    TWO_ROOMS.(holds := map[0 := Held(1, Long(n)), 1 := Held(2, LastNight(n))])
  }

  const START := Run([TWO_ROOMS], [])

  function OneHold(n: nat): Run {
    Then(START, Event(Lock(1, Long(n), 0), 0), First(n))
  }

  function TwoHolds(n: nat): Run {
    Then(OneHold(n), Event(Lock(2, LastNight(n), 1), 1), Both(n))
  }

  predicate SameHouse(db: Db) {
    db == TWO_ROOMS.(holds := db.holds)
  }

  lemma FreeForLong(db: Db, n: nat, exceptHold: Option<Id>)
    requires n >= 1 && SameHouse(db) && forall h | h in db.holds :: db.holds[h].room.None?
    ensures FreeRooms(db, 0, 0, Long(n), None, exceptHold) == {1}
  {
    assert Block(0, 10) in db.blocks;
    assert RoomFree(db, 1, Long(n), None, exceptHold);
  }

  lemma FreeForLastNight(db: Db, n: nat, exceptHold: Option<Id>)
    requires n >= 2 && SameHouse(db) && forall h | h in db.holds :: db.holds[h].room.None?
    ensures FreeRooms(db, 0, 0, LastNight(n), None, exceptHold) == {0, 1}
  {
    assert RoomFree(db, 0, LastNight(n), None, exceptHold) && RoomFree(db, 1, LastNight(n), None, exceptHold);
  }

  lemma FirstStep(n: nat)
    requires n >= 2
    ensures First(n) == Apply(TWO_ROOMS, TWO_ROOMS, Lock(1, Long(n), 0)).db
  {
    hide FreeRooms;
    FreeForLong(TWO_ROOMS, n, None);
    assert UnassignedBookings(TWO_ROOMS, 0, 0, Long(n), None) == {};
    assert UnassignedHolds(TWO_ROOMS, 0, 0, Long(n), None) == {};
  }

  lemma SecondStep(n: nat)
    requires n >= 2
    ensures Both(n) == Apply(First(n), First(n), Lock(2, LastNight(n), 1)).db
  {
    hide FreeRooms;
    FreeForLastNight(First(n), n, None);
    assert UnassignedBookings(First(n), 0, 0, LastNight(n), None) == {};
    assert UnassignedHolds(First(n), 0, 0, LastNight(n), None) == {0};
  }

  lemma TwoHoldsIsRun(n: nat)
    requires n >= 2
    ensures IsRun(TwoHolds(n)) && |TwoHolds(n).states| == 3 && TwoHolds(n).states[2] == Both(n)
    ensures forall k | 0 <= k < 2 :: !TwoHolds(n).events[k].step.Environment?
  {
    FirstStep(n);
    SecondStep(n);
    assert IsRun(START);
    hide IsRun, Apply;
    Extend(START, Event(Lock(1, Long(n), 0), 0), First(n));
    Extend(OneHold(n), Event(Lock(2, LastNight(n), 1), 1), Both(n));
  }

  lemma NothingLeft(n: nat)
    requires n >= 2
    ensures CountAvailableRooms(Both(n), 0, 0, Long(n), None, Some(0)) == 0
  {
    FreeForLong(Both(n), n, Some(0));
    hide FreeRooms;
    assert UnassignedBookings(Both(n), 0, 0, Long(n), None) == {};
    assert UnassignedHolds(Both(n), 0, 0, Long(n), Some(0)) == {1};
  }

  const CALL := Call(1, GUEST, Some(100), 60000, 0)

  /**
   * The first guest's hold is live, nobody has touched a room or a block, and every night has an open
   * room for each of its claims; still the hold cannot be booked, because the second guest's claim is
   * counted against the one room that is free for all the nights.
   */
  lemma LongHoldIsRefused(n: nat)
    requires n >= 2
    ensures Refused(TwoHolds(n), 2, 0, CALL, n) && TwoHolds(n).states[2] == Both(n) && Promise(Both(n))
    ensures CreateBookingTx(Both(n), 0, Held(1, Long(n)), 1, GUEST, Some(100), 60000, 0).reply == Err(Service(Conflict))
  {
    TwoHoldsIsRun(n);
    hide IsRun;
    PromiseIsKept(TwoHolds(n), 0, 2);
    hide Promise;
    NothingLeft(n);
    hide CountAvailableRooms;
    assert FindBySource(Both(n), 0).None?;
  }

  /** Holds of n nights are always honoured exactly when n is one. */
  lemma OneNightIsThePromise(n: nat)
    requires n >= 1
    ensures AlwaysHonoured(n) <==> n == 1
  {
    hide Refused;
    if n == 1 {
      forall run: Run, j: nat, id: Id, call: Call ensures !Refused(run, j, id, call, 1) {
        OneNightNotRefused(run, j, id, call);
      }
    } else {
      LongHoldIsRefused(n);
    }
  }

  lemma OneNightNotRefused(run: Run, j: nat, id: Id, call: Call)
    ensures !Refused(run, j, id, call, 1)
  {
    hide IsRun, CreateBookingTx;
    if Refused(run, j, id, call, 1) {
      OneNightHoldIsHonoured(run, j, id, run.states[j].holds[id].stay.checkIn, call.user, call.dto, call.quote,
                             call.responseTime, call.newId);
    }
  }
}
