/**
 * What a hold promises. As long as nobody takes a room off sale, a live hold or a pending booking of
 * a single night always gets a room; one of two nights may be refused although nothing was blocked.
 */
module BookingPromise {
  import opened Wrappers
  import opened Counting
  import opened Inventory
  import opened BookingSteps
  import opened BookingInvariant
  import opened BookingPreservation
  import opened BookingRuns

  // ---------- Open rooms and unplaced claims, night by night ----------

  function Night(n: int): Stay {
    Stay(n, n + 1)
  }

  predicate RoomOpen(db: Db, r: Id, n: int)
    requires r in db.rooms
  {
    && !db.rooms[r].deleted && db.rooms[r].active && !BlockingRoomStatus(db.rooms[r].status)
    && Block(r, n) !in db.blocks
    && forall b | b in db.bookings :: !BookingTakes(db.bookings[b], r, Night(n))
  }

  function OpenOn(db: Db, t: Id, n: int): set<Id> {
    set r | r in db.rooms && db.rooms[r].roomType == t && RoomOpen(db, r, n)
  }

  function UnplacedOn(db: Db, t: Id, n: int): set<Id> {
    set b | b in BookingsOn(db, t, n) && db.bookings[b].room.None?
  }

  ghost predicate NightOpen(db: Db, t: Id, n: int) {
    |UnplacedOn(db, t, n)| + |HoldsOn(db, t, n)| <= |OpenOn(db, t, n)|
  }

  /** On every night there is an open room for every claim that has none yet. */
  ghost predicate Promise(db: Db) {
    forall t: Id, n: int :: NightOpen(db, t, n)
  }

  // ---------- The availability queries and the nights ----------

  ghost predicate Roomless(db: Db, b: Option<Id>) {
    b.Some? && b.value in db.bookings ==> db.bookings[b.value].room.None?
  }

  /** A room free for a window is open on each of its nights. */
  lemma FreeIsOpen(db: Db, lodge: Id, t: Id, stay: Stay, exceptBooking: Option<Id>, exceptHold: Option<Id>, n: int)
    requires Covers(stay, n) && Roomless(db, exceptBooking)
    ensures FreeRooms(db, lodge, t, stay, exceptBooking, exceptHold) <= OpenOn(db, t, n)
  {
  }

  /** A room open on a night is free for the stay of that night alone. */
  lemma OpenIsFree(db: Db, lodge: Id, t: Id, n: int, exceptBooking: Option<Id>, exceptHold: Option<Id>)
    requires References(db) && t in db.types && db.types[t].lodge == lodge
    ensures OpenOn(db, t, n) <= FreeRooms(db, lodge, t, Night(n), exceptBooking, exceptHold)
  {
    forall r | r in OpenOn(db, t, n) ensures RoomFree(db, r, Night(n), exceptBooking, exceptHold) {
      forall h | h in db.holds ensures !HoldTakes(db.now, db.holds[h], r, Night(n)) {
        assert HoldRow(db, db.holds[h]);
      }
    }
  }

  lemma UnplacedIsUnassigned(db: Db, lodge: Id, t: Id, stay: Stay, n: int)
    requires References(db) && Covers(stay, n) && t in db.types && db.types[t].lodge == lodge
    ensures UnplacedOn(db, t, n) <= UnassignedBookings(db, lodge, t, stay, None)
  {
    forall b | b in UnplacedOn(db, t, n) ensures b in UnassignedBookings(db, lodge, t, stay, None) {
      assert BookingRow(db, db.bookings[b]);
    }
  }

  lemma UnassignedIsUnplaced(db: Db, lodge: Id, t: Id, n: int, exceptHold: Option<Id>)
    ensures UnassignedBookings(db, lodge, t, Night(n), None) <= UnplacedOn(db, t, n)
    ensures UnassignedHolds(db, lodge, t, Night(n), exceptHold) <= HoldsBut(db, t, n, exceptHold)
  {
  }

  /** A positive window-wide count leaves an open room to spare on every night of the window. */
  lemma WindowLeavesOpen(db: Db, lodge: Id, t: Id, stay: Stay, n: int)
    requires References(db) && Covers(stay, n) && t in db.types && db.types[t].lodge == lodge
    requires CountAvailableRooms(db, lodge, t, stay, None, None) > 0
    ensures |UnplacedOn(db, t, n)| + |HoldsOn(db, t, n)| + 1 <= |OpenOn(db, t, n)|
  {
    hide References, RoomOpen, RoomFree, BookingsOn;
    HoldsOfNight(db, lodge, t, stay, None, n);
    assert HoldsBut(db, t, n, None) == HoldsOn(db, t, n);
    UnplacedIsUnassigned(db, lodge, t, stay, n);
    SubsetCard(UnplacedOn(db, t, n), UnassignedBookings(db, lodge, t, stay, None));
    FreeIsOpen(db, lodge, t, stay, None, None, n);
    SubsetCard(FreeRooms(db, lodge, t, stay, None, None), OpenOn(db, t, n));
  }

  // ---------- Steps that give up claims ----------

  ghost predicate Eased(cur: Db, next: Db, t: Id, n: int) {
    && UnplacedOn(next, t, n) <= UnplacedOn(cur, t, n) && HoldsOn(next, t, n) <= HoldsOn(cur, t, n)
    && OpenOn(cur, t, n) <= OpenOn(next, t, n)
  }

  lemma EasedNight(cur: Db, next: Db, t: Id, n: int)
    requires NightOpen(cur, t, n) && Eased(cur, next, t, n)
    ensures NightOpen(next, t, n)
  {
    hide UnplacedOn, HoldsOn, OpenOn;
    SubsetCard(UnplacedOn(next, t, n), UnplacedOn(cur, t, n));
    SubsetCard(HoldsOn(next, t, n), HoldsOn(cur, t, n));
    SubsetCard(OpenOn(cur, t, n), OpenOn(next, t, n));
  }

  /** Time passes, or the holds table moves without a new hold. */
  lemma HoldsEase(cur: Db, next: Db)
    requires Promise(cur) && next == cur.(now := next.now, holds := next.holds) && next.holds.Keys <= cur.holds.Keys
    requires forall h | h in next.holds && Live(next.now, next.holds[h]) ::
               && Live(cur.now, cur.holds[h]) && next.holds[h].roomType == cur.holds[h].roomType
               && next.holds[h].stay == cur.holds[h].stay
    ensures Promise(next)
  {
    forall t: Id, n: int ensures NightOpen(next, t, n) {
      assert NightOpen(cur, t, n);
      assert Eased(cur, next, t, n);
      EasedNight(cur, next, t, n);
    }
  }

  /** A room's status may change between states that leave it on sale. */
  ghost predicate RoomsStayOnSale(cur: Db, next: Db) {
    next.rooms.Keys == cur.rooms.Keys && forall r | r in cur.rooms ::
      && next.rooms[r].(status := cur.rooms[r].status) == cur.rooms[r]
      && (BlockingRoomStatus(next.rooms[r].status) ==> BlockingRoomStatus(cur.rooms[r].status))
  }

  /** One booking's status changes, towards giving up its claim if anything. */
  lemma StatusEases(cur: Db, next: Db, id: Id)
    requires Promise(cur) && id in cur.bookings && id in next.bookings && RoomsStayOnSale(cur, next)
    requires next == cur.(bookings := cur.bookings[id := next.bookings[id]], history := next.history,
                          rooms := next.rooms)
    requires next.bookings[id] == cur.bookings[id].(status := next.bookings[id].status)
    requires ActiveStatus(next.bookings[id].status) ==> ActiveStatus(cur.bookings[id].status)
    ensures Promise(next)
  {
    forall t: Id, n: int ensures NightOpen(next, t, n) {
      assert NightOpen(cur, t, n);
      StatusEasesNight(cur, next, id, t, n);
      EasedNight(cur, next, t, n);
    }
  }

  lemma StatusEasesNight(cur: Db, next: Db, id: Id, t: Id, n: int)
    requires id in cur.bookings && id in next.bookings && RoomsStayOnSale(cur, next)
    requires next == cur.(bookings := cur.bookings[id := next.bookings[id]], history := next.history,
                          rooms := next.rooms)
    requires next.bookings[id] == cur.bookings[id].(status := next.bookings[id].status)
    requires ActiveStatus(next.bookings[id].status) ==> ActiveStatus(cur.bookings[id].status)
    ensures Eased(cur, next, t, n)
  {
    hide BlockingRoomStatus;
    forall r | r in OpenOn(cur, t, n) ensures RoomOpen(next, r, n) {
      forall b | b in next.bookings ensures !BookingTakes(next.bookings[b], r, Night(n)) {
        assert !BookingTakes(cur.bookings[b], r, Night(n));
      }
    }
  }

  // ---------- Steps that make or place claims ----------

  lemma NewHoldKeepsPromise(cur: Db, next: Db, newId: Id)
    requires Inv(cur) && Promise(cur) && newId !in cur.holds && newId in next.holds
    requires next == cur.(holds := cur.holds[newId := next.holds[newId]])
    requires next.holds[newId].roomType in cur.types
    requires CountAvailableRooms(cur, cur.types[next.holds[newId].roomType].lodge, next.holds[newId].roomType,
                                 next.holds[newId].stay, None, None) > 0
    ensures Promise(next)
  {
    hide References, NoDoubleBooking, Capacity, HoldLinks, UniqueKeys, Ledger, CountAvailableRooms, HoldsOn, BookingsOn;
    forall t: Id, n: int ensures NightOpen(next, t, n) {
      assert NightOpen(cur, t, n);
      NewHoldNight(cur, next, newId, t, n);
      SameRoomsAndBookings(cur, next, t, n);
      if t == next.holds[newId].roomType && Covers(next.holds[newId].stay, n) {
        WindowLeavesOpen(cur, cur.types[t].lodge, t, next.holds[newId].stay, n);
      }
    }
  }

  lemma SameRoomsAndBookings(cur: Db, next: Db, t: Id, n: int)
    requires next.bookings == cur.bookings && next.rooms == cur.rooms && next.blocks == cur.blocks
    ensures UnplacedOn(next, t, n) == UnplacedOn(cur, t, n) && OpenOn(next, t, n) == OpenOn(cur, t, n)
  {
    assert BookingsOn(next, t, n) == BookingsOn(cur, t, n);
  }

  /** The claim of one night moves from a hold to a booking, or from a roomless booking to a room. */
  lemma ConvertedNight(cur: Db, next: Db, id: Id, newId: Id, booking: Booking, rows: seq<Collection>, t: Id, n: int)
    requires References(cur) && ConvertMove(cur, next, id, newId, booking, rows) && RoomsStayOnSale(cur, next)
    requires NightOpen(cur, t, n)
    ensures NightOpen(next, t, n)
  {
    ConvertedHolds(cur, next, id, newId, booking, rows, t, n);
    ConvertedUnplaced(cur, next, newId, booking, t, n);
    ConvertedOpen(cur, next, id, newId, booking, rows, t, n);
  }

  predicate OnNight(booking: Booking, t: Id, n: int) {
    booking.roomType == t && Covers(booking.stay, n)
  }

  lemma ConvertedHolds(cur: Db, next: Db, id: Id, newId: Id, booking: Booking, rows: seq<Collection>, t: Id, n: int)
    requires ConvertMove(cur, next, id, newId, booking, rows)
    ensures |HoldsOn(next, t, n)| == |HoldsOn(cur, t, n)| - (if OnNight(booking, t, n) then 1 else 0)
  {
    assert HoldsOn(next, t, n) == HoldsOn(cur, t, n) - {id};
    assert id in HoldsOn(cur, t, n) <==> OnNight(booking, t, n);
  }

  lemma UnplacedMember(cur: Db, next: Db, newId: Id, booking: Booking, t: Id, n: int, b: Id)
    requires newId !in cur.bookings && next.bookings == cur.bookings[newId := booking] && ActiveStatus(booking.status)
    ensures b in UnplacedOn(next, t, n) <==>
              b in UnplacedOn(cur, t, n) || (b == newId && OnNight(booking, t, n) && booking.room.None?)
    ensures newId !in UnplacedOn(cur, t, n)
  {
    hide ActiveStatus, Covers;
  }

  lemma ConvertedUnplaced(cur: Db, next: Db, newId: Id, booking: Booking, t: Id, n: int)
    requires newId !in cur.bookings && next.bookings == cur.bookings[newId := booking] && ActiveStatus(booking.status)
    ensures |UnplacedOn(next, t, n)|
            == |UnplacedOn(cur, t, n)| + (if OnNight(booking, t, n) && booking.room.None? then 1 else 0)
  {
    hide ActiveStatus, UnplacedOn, OnNight;
    forall b
      ensures b in UnplacedOn(next, t, n) <==>
                b in UnplacedOn(cur, t, n) || (b == newId && OnNight(booking, t, n) && booking.room.None?)
    {
      UnplacedMember(cur, next, newId, booking, t, n, b);
    }
    UnplacedMember(cur, next, newId, booking, t, n, newId);
    if OnNight(booking, t, n) && booking.room.None? {
      assert UnplacedOn(next, t, n) == UnplacedOn(cur, t, n) + {newId};
    } else {
      assert UnplacedOn(next, t, n) == UnplacedOn(cur, t, n);
    }
  }

  lemma ConvertedOpen(cur: Db, next: Db, id: Id, newId: Id, booking: Booking, rows: seq<Collection>, t: Id, n: int)
    requires ConvertMove(cur, next, id, newId, booking, rows) && RoomsStayOnSale(cur, next)
    ensures |OpenOn(next, t, n)|
            >= |OpenOn(cur, t, n)| - (if OnNight(booking, t, n) && booking.room.Some? then 1 else 0)
  {
    hide CopiesHold, BlockingRoomStatus, ActiveStatus;
    var taken := if OnNight(booking, t, n) && booking.room.Some? then {booking.room.value} else {};
    forall r | r in OpenOn(cur, t, n) - taken ensures r in OpenOn(next, t, n) {
      forall b | b in next.bookings ensures !BookingTakes(next.bookings[b], r, Night(n)) {
        if b != newId {
          assert !BookingTakes(cur.bookings[b], r, Night(n));
        }
      }
    }
    SubsetCard(OpenOn(cur, t, n) - taken, OpenOn(next, t, n));
    assert |OpenOn(cur, t, n) - taken| >= |OpenOn(cur, t, n)| - |taken|;
  }

  lemma ConvertKeepsPromise(cur: Db, next: Db, id: Id, newId: Id, booking: Booking, rows: seq<Collection>)
    requires References(cur) && ConvertMove(cur, next, id, newId, booking, rows) && RoomsStayOnSale(cur, next)
    requires Promise(cur)
    ensures Promise(next)
  {
    hide References, ConvertMove, RoomsStayOnSale, NightOpen;
    forall t: Id, n: int ensures NightOpen(next, t, n) {
      assert NightOpen(cur, t, n);
      ConvertedNight(cur, next, id, newId, booking, rows, t, n);
    }
  }

  lemma AcceptedNight(cur: Db, next: Db, id: Id, room: Id, t: Id, n: int)
    requires AcceptMove(cur, next, id, room) && BookingRow(cur, cur.bookings[id])
    requires !BlockingRoomStatus(cur.rooms[room].status)
    requires NightOpen(cur, t, n)
    ensures NightOpen(next, t, n)
  {
    assert HoldsOn(next, t, n) == HoldsOn(cur, t, n);
    AcceptedUnplaced(cur, next, id, room, t, n);
    hide OpenOn, UnplacedOn, HoldsOn;
    AcceptedOpen(cur, next, id, room, t, n);
  }

  lemma AcceptedUnplaced(cur: Db, next: Db, id: Id, room: Id, t: Id, n: int)
    requires id in cur.bookings && cur.bookings[id].room.None? && cur.bookings[id].status == PendingOwnerApproval
    requires next.bookings == cur.bookings[id := cur.bookings[id].(room := Some(room), status := Accepted)]
    ensures |UnplacedOn(next, t, n)| == |UnplacedOn(cur, t, n)| - (if OnNight(cur.bookings[id], t, n) then 1 else 0)
  {
    var placed := if OnNight(cur.bookings[id], t, n) then {id} else {};
    assert UnplacedOn(next, t, n) == UnplacedOn(cur, t, n) - placed;
    assert placed <= UnplacedOn(cur, t, n);
  }

  lemma AcceptedOpen(cur: Db, next: Db, id: Id, room: Id, t: Id, n: int)
    requires AcceptMove(cur, next, id, room) && !BlockingRoomStatus(cur.rooms[room].status)
    ensures |OpenOn(next, t, n)| >= |OpenOn(cur, t, n)| - (if OnNight(cur.bookings[id], t, n) then 1 else 0)
  {
    hide ActiveStatus;
    var taken := if OnNight(cur.bookings[id], t, n) then {room} else {};
    forall r | r in OpenOn(cur, t, n) - taken ensures r in OpenOn(next, t, n) {
      forall b | b in next.bookings ensures !BookingTakes(next.bookings[b], r, Night(n)) {
        if b != id {
          assert !BookingTakes(cur.bookings[b], r, Night(n));
        }
      }
    }
    SubsetCard(OpenOn(cur, t, n) - taken, OpenOn(next, t, n));
    assert |OpenOn(cur, t, n) - taken| >= |OpenOn(cur, t, n)| - |taken|;
  }

  lemma AcceptKeepsPromise(cur: Db, id: Id, existing: Booking)
    requires References(cur) && Promise(cur)
    requires id in cur.bookings && SameOrigin(existing, cur.bookings[id]) && existing.status == PendingOwnerApproval
    ensures Promise(AcceptTx(cur, id, existing).db)
  {
    hide AcceptTx, AcceptMove, NightOpen;
    var next := AcceptTx(cur, id, existing).db;
    AcceptMoves(cur, id, existing);
    if next != cur {
      var room :| AcceptMove(cur, next, id, room) && room in cur.rooms && !BlockingRoomStatus(cur.rooms[room].status);
      assert BookingRow(cur, cur.bookings[id]);
      forall t: Id, n: int ensures NightOpen(next, t, n) {
        assert NightOpen(cur, t, n);
        AcceptedNight(cur, next, id, room, t, n);
      }
    }
  }

  // ---------- Every step but the environment's ----------

  lemma HoldStepKeepsPromise(seen: Db, cur: Db, step: Step)
    requires step.Tick? || step.StepReleaseLock? || step.StepExpireLocks? || step.StepAttachOrder?
    requires Promise(cur)
    ensures Promise(Apply(seen, cur, step).db)
  {
    hide Promise;
    var next := Apply(seen, cur, step).db;
    if next != cur {
      HoldsEase(cur, next);
    }
  }

  lemma OrderStepKeepsPromise(seen: Db, cur: Db, step: Step)
    requires step.StepCreateOrder? && Enabled(seen, cur, step) && Promise(cur)
    ensures Promise(Apply(seen, cur, step).db)
  {
    hide Promise, GetAvailability;
    var next := Apply(seen, cur, step).db;
    if next != cur {
      HoldsEase(cur, next);
    }
  }

  lemma CreateLockKeepsPromise(seen: Db, cur: Db, step: Step)
    requires step.StepCreateLock? && Inv(cur) && Enabled(seen, cur, step) && Promise(cur)
    ensures Promise(Apply(seen, cur, step).db)
  {
    hide Inv, Promise, CountAvailableRooms, FindAttempt, ValidAttemptKey;
    var next := Apply(seen, cur, step).db;
    if next != cur {
      NewHoldKeepsPromise(cur, next, step.newId);
    }
  }

  lemma CreateBookingKeepsPromise(seen: Db, cur: Db, step: Step)
    requires step.StepCreateBooking? && Inv(cur) && Later(seen, cur) && Enabled(seen, cur, step) && Promise(cur)
    ensures Promise(Apply(seen, cur, step).db)
  {
    hide Inv, Promise, CreateBookingTx, BookingLater, ConvertMove;
    var found := CreateBookingReads(seen, step.hold, step.user, step.dto);
    var next := Apply(seen, cur, step).db;
    if found.Proceed? && next != cur {
      assert HoldLater(seen.now, seen.holds[step.hold], cur.now, cur.holds[step.hold]);
      InvReferences(cur);
      CreateBookingMoves(cur, step.hold, found.row, step.user, step.dto, step.quote, step.responseTime, step.newId);
      ConvertKeepsPromise(cur, next, step.hold, step.newId,
                          PendingBooking(found.row, step.hold, step.user, step.dto, step.quote.value,
                                         cur.now + step.responseTime),
                          PendingRows(step.newId, step.dto, step.quote.value));
    }
  }

  lemma InvReferences(db: Db)
    requires Inv(db)
    ensures References(db)
  {
  }

  lemma PrepaidKeepsPromise(seen: Db, cur: Db, step: Step)
    requires step.StepPrepaid? && Inv(cur) && Later(seen, cur) && Enabled(seen, cur, step) && Promise(cur)
    ensures Promise(Apply(seen, cur, step).db)
  {
    hide Inv, Promise, PrepaidTx, BookingLater, ConvertMove, PrepaidRooms, LeastId, FindBySource, GuestChecks,
      RoomsStayOnSale;
    var found := PrepaidReads(seen, step.hold, step.user, step.dto, step.paid);
    var next := Apply(seen, cur, step).db;
    if found.Proceed? && next != cur {
      assert HoldLater(seen.now, seen.holds[step.hold], cur.now, cur.holds[step.hold]);
      InvReferences(cur);
      PrepaidMoves(cur, step.hold, found.row, step.user, step.dto, step.paid, step.skipped, step.newId);
      var room := LeastId(PrepaidRooms(cur, step.hold, found.row, step.skipped));
      TakenStaysOnSale(cur, next, room);
      ConvertKeepsPromise(cur, next, step.hold, step.newId, PrepaidBooking(found.row, step.hold, step.user, room),
                          [PaidRow(step.newId, found.row, step.paid)]);
    }
  }

  lemma TakenStaysOnSale(cur: Db, next: Db, room: Id)
    requires room in cur.rooms && next.rooms == cur.rooms[room := cur.rooms[room].(status := Confirmed)]
    ensures RoomsStayOnSale(cur, next)
  {
  }

  lemma AcceptStepKeepsPromise(seen: Db, cur: Db, step: Step)
    requires step.StepAccept? && Inv(cur) && Later(seen, cur) && Promise(cur)
    ensures Promise(Apply(seen, cur, step).db)
  {
    hide Inv, Promise, AcceptTx, HoldLater;
    var found := OwnerReads(seen, step.booking, step.manages);
    if found.Proceed? {
      assert BookingLater(seen.bookings[step.booking], cur.bookings[step.booking]);
      InvReferences(cur);
      AcceptKeepsPromise(cur, step.booking, found.row);
    }
  }

  lemma StatusStepKeepsPromise(seen: Db, cur: Db, step: Step)
    requires step.StepCancel? || step.StepReject? || step.StepExpireBooking? || step.StepTransition?
    requires Enabled(seen, cur, step) && Promise(cur)
    ensures Promise(Apply(seen, cur, step).db)
  {
    hide Promise;
    var next := Apply(seen, cur, step).db;
    if next != cur {
      StatusEases(cur, next, step.booking);
    }
  }

  lemma NoteKeepsPromise(seen: Db, cur: Db, step: Step)
    requires step.StepNote? && Promise(cur)
    ensures Promise(Apply(seen, cur, step).db)
  {
    var next := Apply(seen, cur, step).db;
    forall t: Id, n: int ensures NightOpen(next, t, n) {
      assert NightOpen(cur, t, n);
      SameRoomsAndBookings(cur, next, t, n);
      assert HoldsOn(next, t, n) == HoldsOn(cur, t, n);
    }
  }

  /** Every step, however old the reads of its call, keeps the promise, if it is not the environment's. */
  lemma StepKeepsPromise(seen: Db, cur: Db, step: Step)
    requires Inv(cur) && Later(seen, cur) && Enabled(seen, cur, step) && Promise(cur) && !step.Environment?
    ensures Promise(Apply(seen, cur, step).db)
  {
    hide Inv, Promise, Later, Apply;
    match step
    case StepCreateLock(_, _, _, _, _, _, _, _, _) => CreateLockKeepsPromise(seen, cur, step);
    case StepCreateBooking(_, _, _, _, _, _) => CreateBookingKeepsPromise(seen, cur, step);
    case StepPrepaid(_, _, _, _, _, _) => PrepaidKeepsPromise(seen, cur, step);
    case StepAccept(_, _) => AcceptStepKeepsPromise(seen, cur, step);
    case StepCancel(_, _, _) => StatusStepKeepsPromise(seen, cur, step);
    case StepReject(_, _) => StatusStepKeepsPromise(seen, cur, step);
    case StepExpireBooking(_) => StatusStepKeepsPromise(seen, cur, step);
    case StepTransition(_, _) => StatusStepKeepsPromise(seen, cur, step);
    case StepNote(_) => NoteKeepsPromise(seen, cur, step);
    case StepCreateOrder(_, _, _, _, _) => OrderStepKeepsPromise(seen, cur, step);
    case _ => HoldStepKeepsPromise(seen, cur, step);
  }

  lemma PromiseAtStart(db: Db)
    requires Init(db)
    ensures Promise(db)
  {
    forall t: Id, n: int ensures NightOpen(db, t, n) {
      assert UnplacedOn(db, t, n) == {} && HoldsOn(db, t, n) == {};
    }
  }

  /**
   * From a state in which every claim has an open room on each night, such as the first, the promise
   * holds through any steps that do not touch rooms and blocks from outside.
   */
  lemma {:induction false} PromiseIsKept(run: Run, i: nat, j: nat)
    requires IsRun(run) && i <= j < |run.states|
    requires Promise(run.states[i]) || i == 0
    requires forall k | i <= k < j :: !run.events[k].step.Environment?
    ensures Promise(run.states[j])
  {
    hide Promise, Inv, Later, Apply;
    if i == j {
      if i == 0 {
        PromiseAtStart(run.states[0]);
      }
    } else {
      PromiseIsKept(run, i, j - 1);
      RunIsSafe(run, j - 1);
      assert StepOf(run, j - 1);
      StepKeepsPromise(run.states[run.events[j - 1].seen], run.states[j - 1], run.events[j - 1].step);
    }
  }

  // ---------- Exactly when a claim is honoured ----------

  function NewClaims(db: Db, id: Id): nat
    requires id in db.holds
  {
    var hold := db.holds[id];
    |UnassignedBookings(db, hold.lodge, hold.roomType, hold.stay, None)|
    + |UnassignedHolds(db, hold.lodge, hold.roomType, hold.stay, Some(id))|
  }

  function RoomsFor(db: Db, id: Id): set<Id>
    requires id in db.holds
  {
    var hold := db.holds[id];
    FreeRooms(db, hold.lodge, hold.roomType, hold.stay, None, Some(id))
  }

  /**
   * A live hold of any length can be booked exactly when the rooms free for its whole stay outnumber
   * the other claims without a room that touch the stay anywhere.
   */
  lemma HoldIsHonouredExactly(db: Db, id: Id, user: Id, dto: Request, quote: Option<int>, responseTime: int, newId: Id)
    requires Inv(db) && id in db.holds && Live(db.now, db.holds[id])
    requires Bookable(db, id, quote) && (dto.online ==> quote.value > 0)
    ensures CreateBookingTx(db, id, db.holds[id], user, dto, quote, responseTime, newId).reply == Ok(newId)
            <==> |RoomsFor(db, id)| > NewClaims(db, id)
  {
    hide References, NoDoubleBooking, Capacity, HoldLinks, UniqueKeys, Ledger, Convert, FindBySource;
    NoPrior(db, id);
  }

  /** The room type and its lodge are on sale and the price calculation answers. */
  predicate Bookable(db: Db, id: Id, quote: Option<int>)
    requires id in db.holds
  {
    var hold := db.holds[id];
    GetAvailability(db, hold.lodge, hold.roomType, hold.stay, Some(id), quote).Ok?
  }

  /** A payment for it goes through exactly when one room is free for the whole stay, whatever else is held. */
  lemma PaymentIsHonouredExactly(db: Db, id: Id, user: Id, dto: Request, paid: Payment, skipped: set<Id>, newId: Id)
    requires Inv(db) && id in db.holds && Live(db.now, db.holds[id])
    requires db.holds[id].amount.Some? && db.holds[id].amount.value > 0
    requires TypeStillBookable(db, db.holds[id], dto)
    requires forall c | c in db.collections :: c.payment != Some(paid.payment)
    ensures PrepaidTx(db, id, db.holds[id], user, dto, paid, skipped, newId).reply == Ok(newId)
            <==> RoomsFor(db, id) - skipped != {}
  {
    hide References, NoDoubleBooking, Capacity, HoldLinks, UniqueKeys, Ledger, Convert, FindBySource, FreeRooms,
      TypeStillBookable;
    NoPrior(db, id);
  }

  /** The owner's acceptance of a pending booking goes through exactly when one room is free for its stay. */
  lemma AcceptanceIsHonouredExactly(db: Db, id: Id, seen: Booking)
    requires id in db.bookings && db.bookings[id].status == PendingOwnerApproval && SameOrigin(seen, db.bookings[id])
    ensures AcceptTx(db, id, seen).reply == Ok(id)
            <==> exists r :: r in db.rooms && db.rooms[r].lodge == seen.lodge && db.rooms[r].roomType == seen.roomType
                             && RoomFree(db, r, db.bookings[id].stay, Some(id), None)
  {
    hide RoomFree, FirstRoom;
    var rooms := FreeRooms(db, seen.lodge, seen.roomType, seen.stay, Some(id), None);
    if r :| r in db.rooms && db.rooms[r].lodge == seen.lodge && db.rooms[r].roomType == seen.roomType
            && RoomFree(db, r, db.bookings[id].stay, Some(id), None) {
      assert r in rooms;
    }
    if rooms != {} {
      var r :| r in rooms;
    }
  }

  // ---------- One night ----------

  /** The window-wide count of a single night leaves a room for a claim that is not counted. */
  lemma OneNightCount(db: Db, id: Id, n: int)
    requires id in db.holds && Live(db.now, db.holds[id]) && db.holds[id].stay == Night(n)
    requires References(db) && NightOpen(db, db.holds[id].roomType, n)
    ensures var hold := db.holds[id];
            && CountAvailableRooms(db, hold.lodge, hold.roomType, hold.stay, None, Some(id)) > 0
            && FreeRooms(db, hold.lodge, hold.roomType, hold.stay, None, Some(id)) != {}
  {
    hide RoomOpen, RoomFree, BookingsOn;
    var hold := db.holds[id];
    var lodge, t := hold.lodge, hold.roomType;
    assert HoldRow(db, hold);
    OpenIsFree(db, lodge, t, n, None, Some(id));
    SubsetCard(OpenOn(db, t, n), FreeRooms(db, lodge, t, hold.stay, None, Some(id)));
    UnassignedIsUnplaced(db, lodge, t, n, Some(id));
    SubsetCard(UnassignedBookings(db, lodge, t, hold.stay, None), UnplacedOn(db, t, n));
    SubsetCard(UnassignedHolds(db, lodge, t, hold.stay, Some(id)), HoldsBut(db, t, n, Some(id)));
    assert HoldsBut(db, t, n, Some(id)) == HoldsOn(db, t, n) - {id};
    assert id in HoldsOn(db, t, n);
  }

  lemma NoPrior(db: Db, id: Id)
    requires HoldLinks(db) && id in db.holds && db.holds[id].status == HoldActive
    ensures FindBySource(db, id).None?
  {
    hide CopiesHold;
    if FindBySource(db, id).Some? {
      assert MadeFrom(db, FindBySource(db, id).value, id);
      CopyIsConsumed(db.bookings[FindBySource(db, id).value], db.holds[id]);
    }
  }

  lemma CopyIsConsumed(booking: Booking, hold: Hold)
    requires CopiesHold(booking, hold)
    ensures hold.status == HoldConsumed
  {
  }

  /**
   * As long as nobody has touched rooms or blocks from outside, a live hold of one night is honoured:
   * its conversion goes through whenever the type is still bookable, and a payment finds its room.
   */
  lemma OneNightHoldIsHonoured(run: Run, j: nat, id: Id, n: int, user: Id, dto: Request, quote: Option<int>,
                               responseTime: int, newId: Id)
    requires IsRun(run) && j < |run.states| && forall k | 0 <= k < j :: !run.events[k].step.Environment?
    requires id in run.states[j].holds && Live(run.states[j].now, run.states[j].holds[id])
    requires run.states[j].holds[id].stay == Night(n)
    ensures var db, hold := run.states[j], run.states[j].holds[id];
            && PrepaidRooms(db, id, hold, {}) != {}
            && (GetAvailability(db, hold.lodge, hold.roomType, hold.stay, Some(id), quote).Ok?
                && (dto.online ==> quote.value > 0) ==>
                  CreateBookingTx(db, id, hold, user, dto, quote, responseTime, newId).reply == Ok(newId))
  {
    hide IsRun, Convert, FreeRooms, NightOpen, CountAvailableRooms, FindBySource, References, HoldLinks;
    var db := run.states[j];
    PromiseIsKept(run, 0, j);
    ReachableInv(run, j);
    assert NightOpen(db, db.holds[id].roomType, n);
    OneNightCount(db, id, n);
    NoPrior(db, id);
  }

  /** So is a pending booking of one night when its owner accepts it. */
  lemma OneNightBookingIsAccepted(run: Run, j: nat, id: Id, n: int)
    requires IsRun(run) && j < |run.states| && forall k | 0 <= k < j :: !run.events[k].step.Environment?
    requires id in run.states[j].bookings && run.states[j].bookings[id].status == PendingOwnerApproval
    requires run.states[j].bookings[id].stay == Night(n)
    ensures AcceptTx(run.states[j], id, run.states[j].bookings[id]).reply == Ok(id)
  {
    hide IsRun, FreeRooms, NightOpen, HoldLinks, FirstRoom;
    var db := run.states[j];
    var booking := db.bookings[id];
    PromiseIsKept(run, 0, j);
    ReachableInv(run, j);
    assert NightOpen(db, booking.roomType, n);
    assert BookingRow(db, booking);
    PendingFindsRoom(db, id, n);
  }

  lemma PendingFindsRoom(db: Db, id: Id, n: int)
    requires References(db) && id in db.bookings && db.bookings[id].status == PendingOwnerApproval
    requires db.bookings[id].stay == Night(n) && NightOpen(db, db.bookings[id].roomType, n)
    ensures var b := db.bookings[id]; FreeRooms(db, b.lodge, b.roomType, b.stay, Some(id), None) != {}
  {
    hide RoomOpen, RoomFree;
    var b := db.bookings[id];
    assert BookingRow(db, b);
    assert id in UnplacedOn(db, b.roomType, n);
    OpenIsFree(db, b.lodge, b.roomType, n, Some(id), None);
    SubsetCard(OpenOn(db, b.roomType, n), FreeRooms(db, b.lodge, b.roomType, b.stay, Some(id), None));
  }
}
