/**
 * The rows a booking transaction reads and writes, and the availability queries over them
 * (backend/src/modules/bookings/booking-availability.service.ts).
 *
 * Identifiers are natural numbers, dates are day numbers, instants are milliseconds and money is
 * in paise. A hold's secret code stands for its identifier.
 */
module Inventory {
  import opened Wrappers

  type Id = nat

  datatype RoomStatus =
    Available | Reserved | PendingApproval | Confirmed | Occupied | Cleaning | Maintenance | Blocked

  datatype BookingStatus =
    | Draft | PendingOwnerApproval | Accepted | Rejected | QrGenerated | CheckedIn
    | CheckedOut | Completed | Cancelled | Expired | NoShow

  datatype HoldStatus = HoldActive | HoldConsumed | HoldExpired | HoldReleased

  datatype PaymentStatus = PaymentPending | PayAtLodge | FullyPaid

  datatype CollectionStatus = CollectionPending | CollectionPaid

  datatype Action =
    | BookingCreated | CancelledByPilgrim | BookingAccepted | BookingRejected | BookingExpired
    | BookingCheckedIn | BookingCheckedOut | BookingCompleted

  datatype Error = BadRequest | NotFound | Forbidden | Conflict

  /** A stay occupies the nights checkIn, ..., checkOut - 1. */
  datatype Stay = Stay(checkIn: int, checkOut: int)

  datatype Lodge = Lodge(active: bool, deleted: bool, verified: bool)

  datatype RoomType = RoomType(lodge: Id, active: bool, deleted: bool, adults: nat, children: nat)

  /** `floor` and `number` are ranks in the database's sort order. */
  datatype Room = Room(lodge: Id, roomType: Id, floor: int, number: int,
                       status: RoomStatus, active: bool, deleted: bool)

  /** A night on which a room is marked anything but available. */
  datatype Block = Block(room: Id, night: int)

  /** A booking_locks row. */
  datatype Hold = Hold(pilgrim: Id, lodge: Id, roomType: Id, room: Option<Id>, stay: Stay,
                       expiresAt: int, status: HoldStatus,
                       order: Option<Id>, amount: Option<int>, attempt: Option<string>)

  datatype Booking = Booking(pilgrim: Id, lodge: Id, roomType: Id, room: Option<Id>, stay: Stay,
                             status: BookingStatus, source: Option<Id>,
                             payment: PaymentStatus, total: int, deadline: Option<int>)

  datatype HistoryRow = HistoryRow(booking: Id, action: Action,
                                   from: Option<BookingStatus>, to: BookingStatus)

  /** An online payment_collections row. */
  datatype Collection = Collection(booking: Id, amount: int, status: CollectionStatus,
                                   order: Option<Id>, payment: Option<Id>)

  datatype Db = Db(now: int,
                   lodges: map<Id, Lodge>, types: map<Id, RoomType>,
                   rooms: map<Id, Room>, blocks: set<Block>,
                   holds: map<Id, Hold>, bookings: map<Id, Booking>,
                   history: seq<HistoryRow>, collections: seq<Collection>)

  // ---------- Dates ----------

  predicate Overlaps(a: Stay, b: Stay) {
    a.checkIn < b.checkOut && a.checkOut > b.checkIn
  }

  predicate Covers(stay: Stay, night: int) {
    stay.checkIn <= night < stay.checkOut
  }

  function ParseDateRange(checkIn: int, checkOut: int): (r: Result<Stay, Error>)
    ensures r.Ok? <==> exists night :: Covers(Stay(checkIn, checkOut), night)
    ensures r.Ok? ==> forall night :: Covers(r.value, night) <==> checkIn <= night < checkOut
  {
    if checkIn >= checkOut then Err(BadRequest)
    else
      assert Covers(Stay(checkIn, checkOut), checkIn);
      Ok(Stay(checkIn, checkOut))
  }

  /** Two stays overlap exactly when some night belongs to both. */
  lemma OverlapIsSharedNight(a: Stay, b: Stay)
    requires a.checkIn < a.checkOut && b.checkIn < b.checkOut
    ensures Overlaps(a, b) <==> exists night :: Covers(a, night) && Covers(b, night)
  {
    if Overlaps(a, b) {
      var night := if a.checkIn < b.checkIn then b.checkIn else a.checkIn;
      assert Covers(a, night) && Covers(b, night);
    }
  }

  // ---------- Claims on rooms ----------

  predicate ActiveStatus(status: BookingStatus) {
    status in {PendingOwnerApproval, Accepted, QrGenerated, CheckedIn}
  }

  predicate BlockingRoomStatus(status: RoomStatus) {
    status in {Occupied, Maintenance, Blocked}
  }

  predicate Live(now: int, hold: Hold) {
    hold.status == HoldActive && hold.expiresAt > now
  }

  predicate BookingTakes(booking: Booking, room: Id, stay: Stay) {
    booking.room == Some(room) && ActiveStatus(booking.status) && Overlaps(booking.stay, stay)
  }

  predicate HoldTakes(now: int, hold: Hold, room: Id, stay: Stay) {
    hold.room == Some(room) && Live(now, hold) && Overlaps(hold.stay, stay)
  }

  /** The availability query's condition on one room. */
  predicate RoomFree(db: Db, room: Id, stay: Stay, exceptBooking: Option<Id>, exceptHold: Option<Id>)
    requires room in db.rooms
  {
    && !db.rooms[room].deleted
    && db.rooms[room].active
    && !BlockingRoomStatus(db.rooms[room].status)
    && (forall b | b in db.bookings :: exceptBooking == Some(b) || !BookingTakes(db.bookings[b], room, stay))
    && (forall h | h in db.holds :: exceptHold == Some(h) || !HoldTakes(db.now, db.holds[h], room, stay))
    && (forall night | stay.checkIn <= night < stay.checkOut :: Block(room, night) !in db.blocks)
  }

  function FreeRooms(db: Db, lodge: Id, roomType: Id, stay: Stay,
                     exceptBooking: Option<Id>, exceptHold: Option<Id>): set<Id>
  {
    set r | r in db.rooms && db.rooms[r].lodge == lodge && db.rooms[r].roomType == roomType
            && RoomFree(db, r, stay, exceptBooking, exceptHold)
  }

  function UnassignedBookings(db: Db, lodge: Id, roomType: Id, stay: Stay, except: Option<Id>): set<Id> {
    set b | b in db.bookings && except != Some(b)
            && db.bookings[b].lodge == lodge && db.bookings[b].roomType == roomType
            && db.bookings[b].room.None? && ActiveStatus(db.bookings[b].status)
            && Overlaps(db.bookings[b].stay, stay)
  }

  function UnassignedHolds(db: Db, lodge: Id, roomType: Id, stay: Stay, except: Option<Id>): set<Id> {
    set h | h in db.holds && except != Some(h)
            && db.holds[h].lodge == lodge && db.holds[h].roomType == roomType
            && db.holds[h].room.None? && Live(db.now, db.holds[h])
            && Overlaps(db.holds[h].stay, stay)
  }

  function CountAvailableRooms(db: Db, lodge: Id, roomType: Id, stay: Stay,
                               exceptBooking: Option<Id>, exceptHold: Option<Id>): int
  {
    var free := |FreeRooms(db, lodge, roomType, stay, exceptBooking, exceptHold)|;
    var count := free - |UnassignedBookings(db, lodge, roomType, stay, exceptBooking)|
                 - |UnassignedHolds(db, lodge, roomType, stay, exceptHold)|;
    if count > 0 then count else 0
  }

  /** `quote` is what the price calculation answers at this moment: None when it rejects. */
  function GetAvailability(db: Db, lodge: Id, roomType: Id, stay: Stay,
                           exceptHold: Option<Id>, quote: Option<int>): Result<int, Error>
  {
    if stay.checkIn >= stay.checkOut then Err(BadRequest)
    else if roomType !in db.types || db.types[roomType].deleted || !db.types[roomType].active
            || db.types[roomType].lodge != lodge then Err(NotFound)
    else if lodge !in db.lodges || db.lodges[lodge].deleted || !db.lodges[lodge].active then Err(NotFound)
    else if !db.lodges[lodge].verified then Err(BadRequest)
    else if quote.None? then Err(BadRequest)
    else Ok(CountAvailableRooms(db, lodge, roomType, stay, None, exceptHold))
  }

  // ---------- Choosing one row ----------

  /** The room order of the owner-approval flow: floor, then room number. */
  predicate RoomBefore(rooms: map<Id, Room>, a: Id, b: Id)
    requires a in rooms && b in rooms
  {
    var x, y := rooms[a], rooms[b];
    x.floor < y.floor
    || (x.floor == y.floor && (x.number < y.number || (x.number == y.number && a <= b)))
  }

  lemma {:induction false} FirstRoomExists(rooms: map<Id, Room>, s: set<Id>)
    requires s != {} && s <= rooms.Keys
    ensures exists m :: m in s && forall r | r in s :: RoomBefore(rooms, m, r)
    decreases |s|
  {
    var x :| x in s;
    if s == {x} {
      assert RoomBefore(rooms, x, x);
    } else {
      var rest := s - {x};
      assert s == rest + {x};
      FirstRoomExists(rooms, rest);
      var m :| m in rest && forall r | r in rest :: RoomBefore(rooms, m, r);
      if RoomBefore(rooms, x, m) {
        assert forall r | r in s :: RoomBefore(rooms, x, r);
      } else {
        assert forall r | r in s :: RoomBefore(rooms, m, r);
      }
    }
  }

  function FirstRoom(rooms: map<Id, Room>, s: set<Id>): (m: Id)
    requires s != {} && s <= rooms.Keys
    ensures m in s && forall r | r in s :: RoomBefore(rooms, m, r)
  {
    FirstRoomExists(rooms, s);
    var m :| m in s && forall r | r in s :: RoomBefore(rooms, m, r);
    m
  }

  predicate IsLeast(m: Id, s: set<Id>) {
    m in s && forall x | x in s :: m <= x
  }

  lemma {:induction false} LeastIdExists(s: set<Id>)
    requires s != {}
    ensures exists m :: IsLeast(m, s)
    decreases |s|
  {
    var y :| y in s;
    var rest := s - {y};
    if rest == {} {
      assert IsLeast(y, s) by { assert s == {y}; }
    } else {
      LeastIdExists(rest);
      var m :| IsLeast(m, rest);
      var least := if y <= m then y else m;
      assert IsLeast(least, s) by {
        forall x | x in s ensures least <= x {
          assert x == y || x in rest;
        }
      }
    }
  }

  function LeastId(s: set<Id>): (m: Id)
    requires s != {}
    ensures IsLeast(m, s)
  {
    LeastIdExists(s);
    var m :| m in s && IsLeast(m, s);
    m
  }

  /** The hold a checkout attempt key already names, if any. */
  function FindAttempt(db: Db, pilgrim: Id, key: string): (r: Option<Id>)
    ensures r.Some? ==> r.value in db.holds && db.holds[r.value].pilgrim == pilgrim
                        && db.holds[r.value].attempt == Some(key)
    ensures r.None? ==> forall h | h in db.holds ::
                db.holds[h].pilgrim != pilgrim || db.holds[h].attempt != Some(key)
  {
    var s := set h | h in db.holds && db.holds[h].pilgrim == pilgrim && db.holds[h].attempt == Some(key);
    if s == {} then
      assert forall h | h in db.holds :: h !in s;
      None
    else Some(LeastId(s))
  }

  /** The booking made from a hold, if any. */
  function FindBySource(db: Db, hold: Id): (r: Option<Id>)
    ensures r.Some? ==> r.value in db.bookings && db.bookings[r.value].source == Some(hold)
    ensures r.None? ==> forall b | b in db.bookings :: db.bookings[b].source != Some(hold)
  {
    var s := set b | b in db.bookings && db.bookings[b].source == Some(hold);
    if s == {} then
      assert forall b | b in db.bookings :: b !in s;
      None
    else Some(LeastId(s))
  }
}
