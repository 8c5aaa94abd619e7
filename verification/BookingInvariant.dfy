/**
 * What every reachable state of the inventory satisfies. The code only compares counts over a
 * whole window; the invariant speaks of each night and each room.
 */
module BookingInvariant {
  import opened Wrappers
  import opened Counting
  import opened Inventory
  import opened BookingSteps

  // ---------- Safety of the inventory ----------

  ghost predicate Conflicting(db: Db, a: Id, b: Id)
    requires a in db.bookings && b in db.bookings
  {
    && a != b
    && ActiveStatus(db.bookings[a].status) && ActiveStatus(db.bookings[b].status)
    && db.bookings[a].room.Some? && db.bookings[a].room == db.bookings[b].room
    && Overlaps(db.bookings[a].stay, db.bookings[b].stay)
  }

  /** No two active bookings share a room on overlapping stays. */
  ghost predicate NoDoubleBooking(db: Db) {
    forall a, b | a in db.bookings && b in db.bookings :: !Conflicting(db, a, b)
  }

  function RoomsOf(db: Db, roomType: Id): set<Id> {
    set r | r in db.rooms && db.rooms[r].roomType == roomType
  }

  /** Active bookings of a room type on one night, with or without a room. */
  function BookingsOn(db: Db, roomType: Id, night: int): set<Id> {
    set b | b in db.bookings && db.bookings[b].roomType == roomType
            && ActiveStatus(db.bookings[b].status) && Covers(db.bookings[b].stay, night)
  }

  /** Live holds of a room type on one night. */
  function HoldsOn(db: Db, roomType: Id, night: int): set<Id> {
    set h | h in db.holds && db.holds[h].roomType == roomType
            && Live(db.now, db.holds[h]) && Covers(db.holds[h].stay, night)
  }

  function Claims(db: Db, roomType: Id, night: int): nat {
    |BookingsOn(db, roomType, night)| + |HoldsOn(db, roomType, night)|
  }

  /** On no night do bookings and holds of a type outnumber its rooms. */
  ghost predicate Capacity(db: Db) {
    forall roomType: Id, night: int :: Claims(db, roomType, night) <= |RoomsOf(db, roomType)|
  }

  // ---------- Shape of the rows ----------

  ghost predicate References(db: Db) {
    && (forall t | t in db.types :: db.types[t].lodge in db.lodges)
    && (forall r | r in db.rooms :: db.rooms[r].roomType in db.types
                                    && db.rooms[r].lodge == db.types[db.rooms[r].roomType].lodge)
    && (forall h | h in db.holds :: HoldRow(db, db.holds[h]))
    && (forall b | b in db.bookings :: BookingRow(db, db.bookings[b]))
  }

  ghost predicate HoldRow(db: Db, hold: Hold) {
    && hold.room.None?
    && hold.stay.checkIn < hold.stay.checkOut
    && hold.roomType in db.types && db.types[hold.roomType].lodge == hold.lodge
    && (hold.order.Some? <==> hold.amount.Some?)
  }

  ghost predicate BookingRow(db: Db, booking: Booking) {
    && booking.stay.checkIn < booking.stay.checkOut
    && booking.roomType in db.types && db.types[booking.roomType].lodge == booking.lodge
    && (booking.room.Some? ==> booking.room.value in db.rooms
                               && db.rooms[booking.room.value].roomType == booking.roomType)
    && (booking.status == PendingOwnerApproval ==> booking.room.None?)
    && (booking.status in {Accepted, QrGenerated, CheckedIn} ==> booking.room.Some?)
    && (booking.payment == FullyPaid ==> booking.status != PendingOwnerApproval)
  }

  // ---------- Holds and the bookings made from them ----------

  ghost predicate MadeFrom(db: Db, booking: Id, hold: Id) {
    booking in db.bookings && db.bookings[booking].source == Some(hold)
  }

  /** A hold is consumed exactly when one booking names it, and that booking copies its stay. */
  ghost predicate HoldLinks(db: Db) {
    && (forall h | h in db.holds && db.holds[h].status == HoldConsumed :: exists b :: MadeFrom(db, b, h))
    && (forall b, h | MadeFrom(db, b, h) :: h in db.holds && CopiesHold(db.bookings[b], db.holds[h]))
    && (forall a, b, h | MadeFrom(db, a, h) && MadeFrom(db, b, h) :: a == b)
  }

  ghost predicate CopiesHold(booking: Booking, hold: Hold) {
    && hold.status == HoldConsumed
    && booking.pilgrim == hold.pilgrim && booking.lodge == hold.lodge
    && booking.roomType == hold.roomType && booking.stay == hold.stay
  }

  /** An attempt key names at most one hold of a pilgrim, a provider order at most one hold. */
  ghost predicate UniqueKeys(db: Db) {
    && (forall g, h | g in db.holds && h in db.holds && SameAttempt(db.holds[g], db.holds[h]) :: g == h)
    && (forall g, h | g in db.holds && h in db.holds && SameOrder(db.holds[g], db.holds[h]) :: g == h)
  }

  ghost predicate SameAttempt(a: Hold, b: Hold) {
    a.pilgrim == b.pilgrim && a.attempt.Some? && a.attempt == b.attempt
  }

  ghost predicate SameOrder(a: Hold, b: Hold) {
    a.order.Some? && a.order == b.order
  }

  // ---------- History and money ----------

  /** The creation rows a booking has in the history. */
  function CreationRows(history: seq<HistoryRow>, booking: Id): nat {
    if history == [] then 0
    else
      var last := history[|history| - 1];
      CreationRows(history[..|history| - 1], booking)
      + (if last.booking == booking && last.action == BookingCreated then 1 else 0)
  }

  /** A booking's collection rows, oldest first. */
  function CollectionsOf(collections: seq<Collection>, booking: Id): seq<Collection> {
    if collections == [] then []
    else
      var last := collections[|collections| - 1];
      CollectionsOf(collections[..|collections| - 1], booking) + (if last.booking == booking then [last] else [])
  }

  /** The collection rows a booking must have, given how it is paid. */
  ghost predicate PaidAsRecorded(db: Db, b: Id)
    requires b in db.bookings
  {
    var booking := db.bookings[b];
    var rows := CollectionsOf(db.collections, b);
    match booking.payment
    case PayAtLodge => rows == []
    case PaymentPending => rows == [Collection(b, booking.total, CollectionPending, None, None)]
    case FullyPaid =>
      && |rows| == 1
      && rows[0].status == CollectionPaid && rows[0].amount == booking.total
      && booking.source.Some? && booking.source.value in db.holds
      && db.holds[booking.source.value].amount == Some(booking.total)
      && rows[0].order.Some? && rows[0].order == db.holds[booking.source.value].order
      && rows[0].payment.Some?
  }

  ghost predicate Ledger(db: Db) {
    && (forall i | 0 <= i < |db.history| :: db.history[i].booking in db.bookings)
    && (forall i | 0 <= i < |db.collections| :: db.collections[i].booking in db.bookings)
    && (forall b | b in db.bookings :: CreationRows(db.history, b) == 1)
    && (forall b | b in db.bookings :: PaidAsRecorded(db, b))
    && (forall i, j | 0 <= i < j < |db.collections| ::
          db.collections[i].payment.None? || db.collections[i].payment != db.collections[j].payment)
  }

  ghost predicate Inv(db: Db) {
    && References(db)
    && NoDoubleBooking(db)
    && Capacity(db)
    && HoldLinks(db)
    && UniqueKeys(db)
    && Ledger(db)
  }

  /** Before the first hold: any lodges, room types, rooms and blocks. */
  ghost predicate Init(db: Db) {
    && db.holds == map[] && db.bookings == map[] && db.history == [] && db.collections == []
    && References(db)
  }

  lemma InitEstablishes(db: Db)
    requires Init(db)
    ensures Inv(db)
  {
    forall roomType: Id, night: int ensures Claims(db, roomType, night) <= |RoomsOf(db, roomType)| {
      assert BookingsOn(db, roomType, night) == {};
      assert HoldsOn(db, roomType, night) == {};
    }
  }

  // ---------- Rows appended to the logs ----------

  lemma AppendHistory(history: seq<HistoryRow>, row: HistoryRow, booking: Id)
    ensures CreationRows(history + [row], booking)
            == CreationRows(history, booking)
               + (if row.booking == booking && row.action == BookingCreated then 1 else 0)
  {
    assert (history + [row])[..|history|] == history;
  }

  lemma AppendCollection(collections: seq<Collection>, row: Collection, booking: Id)
    ensures CollectionsOf(collections + [row], booking)
            == CollectionsOf(collections, booking) + (if row.booking == booking then [row] else [])
  {
    assert (collections + [row])[..|collections|] == collections;
  }

  lemma {:induction false} NoRows(collections: seq<Collection>, booking: Id)
    requires forall i | 0 <= i < |collections| :: collections[i].booking != booking
    ensures CollectionsOf(collections, booking) == []
  {
    if collections != [] {
      NoRows(collections[..|collections| - 1], booking);
    }
  }

  lemma {:induction false} NoCreationRows(history: seq<HistoryRow>, booking: Id)
    requires forall i | 0 <= i < |history| :: history[i].booking != booking
    ensures CreationRows(history, booking) == 0
  {
    if history != [] {
      NoCreationRows(history[..|history| - 1], booking);
    }
  }

  // ---------- From windows to nights ----------

  /** The holds of a night, but for one that is about to be converted. */
  function HoldsBut(db: Db, roomType: Id, night: int, exceptHold: Option<Id>): set<Id> {
    set h | h in HoldsOn(db, roomType, night) && exceptHold != Some(h)
  }

  lemma HoldsOfNight(db: Db, lodge: Id, roomType: Id, stay: Stay, exceptHold: Option<Id>, night: int)
    requires References(db) && Covers(stay, night)
    requires roomType in db.types && db.types[roomType].lodge == lodge
    ensures |HoldsBut(db, roomType, night, exceptHold)|
            <= |UnassignedHolds(db, lodge, roomType, stay, exceptHold)|
  {
    forall h | h in HoldsBut(db, roomType, night, exceptHold)
      ensures h in UnassignedHolds(db, lodge, roomType, stay, exceptHold)
    {
      assert HoldRow(db, db.holds[h]);
    }
    SubsetCard(HoldsBut(db, roomType, night, exceptHold), UnassignedHolds(db, lodge, roomType, stay, exceptHold));
  }

  function PlacedOn(db: Db, roomType: Id, night: int): set<Id> {
    set b | b in BookingsOn(db, roomType, night) && db.bookings[b].room.Some?
  }

  lemma BookingsOfNight(db: Db, lodge: Id, roomType: Id, stay: Stay, night: int)
    requires References(db) && Covers(stay, night)
    requires roomType in db.types && db.types[roomType].lodge == lodge
    ensures |BookingsOn(db, roomType, night)|
            <= |PlacedOn(db, roomType, night)| + |UnassignedBookings(db, lodge, roomType, stay, None)|
  {
    hide References, UnassignedBookings, BookingsOn;
    var placed := PlacedOn(db, roomType, night);
    var pending := BookingsOn(db, roomType, night) - placed;
    forall b | b in pending ensures b in UnassignedBookings(db, lodge, roomType, stay, None) {
      UnplacedWaits(db, lodge, roomType, stay, night, b);
    }
    SubsetCard(pending, UnassignedBookings(db, lodge, roomType, stay, None));
    assert BookingsOn(db, roomType, night) == placed + pending;
  }

  lemma UnplacedWaits(db: Db, lodge: Id, roomType: Id, stay: Stay, night: int, b: Id)
    requires References(db) && Covers(stay, night) && roomType in db.types && db.types[roomType].lodge == lodge
    requires b in BookingsOn(db, roomType, night) && b !in PlacedOn(db, roomType, night)
    ensures b in UnassignedBookings(db, lodge, roomType, stay, None)
  {
    assert BookingRow(db, db.bookings[b]);
  }

  lemma PlacedIsTaken(db: Db, lodge: Id, roomType: Id, stay: Stay, exceptHold: Option<Id>, night: int, b: Id)
    requires References(db) && Covers(stay, night) && b in PlacedOn(db, roomType, night)
    ensures var room := db.bookings[b].room.value;
            room in RoomsOf(db, roomType) && room !in FreeRooms(db, lodge, roomType, stay, None, exceptHold)
  {
    assert BookingRow(db, db.bookings[b]);
    assert BookingTakes(db.bookings[b], db.bookings[b].room.value, stay);
  }

  /** Bookings with a room on one night sit in distinct rooms, none of them free for the window. */
  lemma PlacedAndFree(db: Db, lodge: Id, roomType: Id, stay: Stay, exceptHold: Option<Id>, night: int)
    requires References(db) && NoDoubleBooking(db)
    requires Covers(stay, night)
    ensures |PlacedOn(db, roomType, night)| + |FreeRooms(db, lodge, roomType, stay, None, exceptHold)|
            <= |RoomsOf(db, roomType)|
  {
    var placed := PlacedOn(db, roomType, night);
    var free := FreeRooms(db, lodge, roomType, stay, None, exceptHold);
    var taken := RoomsOf(db, roomType) - free;
    var roomOf := (b: Id) requires b in db.bookings && db.bookings[b].room.Some? => db.bookings[b].room.value;
    forall b | b in placed ensures roomOf.requires(b) && roomOf(b) in taken {
      PlacedIsTaken(db, lodge, roomType, stay, exceptHold, night, b);
    }
    forall a, b | a in placed && b in placed && roomOf(a) == roomOf(b) ensures a == b {
      assert !Conflicting(db, a, b);
    }
    InjectionCard(placed, taken, roomOf);
    DisjointCard(taken, free, RoomsOf(db, roomType));
  }

  /**
   * The bound behind the availability test: on every night of a window, the claims made so far
   * leave room for as many more as the window-wide count allows.
   */
  lemma WindowBoundsNight(db: Db, lodge: Id, roomType: Id, stay: Stay, exceptHold: Option<Id>, night: int)
    requires References(db) && NoDoubleBooking(db) && Covers(stay, night)
    requires roomType in db.types && db.types[roomType].lodge == lodge
    requires CountAvailableRooms(db, lodge, roomType, stay, None, exceptHold) > 0
    ensures |BookingsOn(db, roomType, night)| + |HoldsBut(db, roomType, night, exceptHold)|
            + CountAvailableRooms(db, lodge, roomType, stay, None, exceptHold)
            <= |RoomsOf(db, roomType)|
  {
    HoldsOfNight(db, lodge, roomType, stay, exceptHold, night);
    BookingsOfNight(db, lodge, roomType, stay, night);
    PlacedAndFree(db, lodge, roomType, stay, exceptHold, night);
  }
}
