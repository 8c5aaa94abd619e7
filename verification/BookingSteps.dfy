/**
 * What each inventory transaction does to the rows, as functions on a Db value
 * (backend/src/modules/bookings/bookings.service.ts, booking-locks.service.ts).
 *
 * A service call reads some rows first and then runs a transaction. The two halves are separate
 * functions, because other writers may run between them: the second half receives the row the
 * first half read, however stale. A transaction that throws leaves the rows as they were.
 */
module BookingSteps {
  import opened Wrappers
  import opened Inventory

  datatype Outcome = Outcome(db: Db, reply: Result<Id, Failure>)

  /** A service exception, or an error raised by a database constraint. */
  datatype Failure = Service(error: Error) | ConstraintViolation

  /** The answer of the reads that precede a booking transaction. */
  datatype PreRead<T> = Stop(error: Error) | Answer(booking: Id) | Proceed(row: T)

  /** The parts of a booking request the transactions depend on. */
  datatype Request = Request(adults: nat, children: nat, online: bool, idProofOwned: bool)

  /** A captured provider payment. */
  datatype Payment = Payment(order: Id, payment: Id, amount: int, inr: bool)

  function Throw(db: Db, error: Error): Outcome {
    Outcome(db, Err(Service(error)))
  }

  function SetStatus(db: Db, id: Id, status: BookingStatus): Db
    requires id in db.bookings
  {
    db.(bookings := db.bookings[id := db.bookings[id].(status := status)])
  }

  /** A history row, written in a transaction or by a call of its own. */
  function Note(db: Db, row: HistoryRow): Db {
    db.(history := db.history + [row])
  }

  // ---------- Holds ----------

  predicate AttemptKeyChar(c: char) {
    'a' <= c <= 'z' || 'A' <= c <= 'Z' || '0' <= c <= '9' || c == '_' || c == '-'
  }

  predicate ValidAttemptKey(key: string) {
    16 <= |key| <= 128 && forall i | 0 <= i < |key| :: AttemptKeyChar(key[i])
  }

  function CreateLock(db: Db, user: Id, lodge: Id, roomType: Id, checkIn: int, checkOut: int,
                      key: Option<string>, quote: Option<int>, ttl: int, newId: Id): Outcome
  {
    if key.Some? && !ValidAttemptKey(key.value) then Throw(db, BadRequest)
    else match ParseDateRange(checkIn, checkOut)
    case Err(e) => Throw(db, e)
    case Ok(stay) =>
      match (if key.Some? then FindAttempt(db, user, key.value) else None)
      case Some(h) =>
        var existing := db.holds[h];
        if existing.lodge != lodge || existing.roomType != roomType || existing.stay != stay then
          Throw(db, Conflict)
        else if !Live(db.now, existing) then Throw(db, Conflict)
        else Outcome(db, Ok(h))
      case None =>
        match GetAvailability(db, lodge, roomType, stay, None, quote)
        case Err(e) => Throw(db, e)
        case Ok(count) =>
          if count <= 0 then Throw(db, Conflict)
          else
            var hold := Hold(user, lodge, roomType, None, stay, db.now + ttl, HoldActive, None, None, key);
            Outcome(db.(holds := db.holds[newId := hold]), Ok(newId))
  }

  /** One guarded update: only a live hold without an order gets one, and its expiry moves. */
  function AttachProviderOrder(db: Db, id: Id, order: Id, amount: int, extension: int): Outcome {
    if id in db.holds && Live(db.now, db.holds[id]) && db.holds[id].order.None? then
      if exists h | h in db.holds :: db.holds[h].order == Some(order) then
        Outcome(db, Err(ConstraintViolation))
      else
        var hold := db.holds[id].(expiresAt := db.now + extension, order := Some(order), amount := Some(amount));
        Outcome(db.(holds := db.holds[id := hold]), Ok(id))
    else Throw(db, Conflict)
  }

  function ReleaseLock(db: Db, id: Id, user: Id): (Db, bool) {
    if id in db.holds && db.holds[id].pilgrim == user && db.holds[id].status == HoldActive then
      (db.(holds := db.holds[id := db.holds[id].(expiresAt := db.now, status := HoldReleased)]), true)
    else (db, false)
  }

  predicate Overdue(now: int, hold: Hold) {
    hold.status == HoldActive && hold.expiresAt <= now
  }

  function OverdueHolds(db: Db): set<Id> {
    set h | h in db.holds && Overdue(db.now, db.holds[h])
  }

  function ExpireLocks(db: Db): Db {
    db.(holds := map h | h in db.holds ::
          if Overdue(db.now, db.holds[h]) then db.holds[h].(status := HoldExpired) else db.holds[h])
  }

  /** What the payment service learns before it creates an order for a hold. */
  datatype Resolved = Resolved(amount: int, order: Option<Id>, orderAmount: Option<int>)

  function ResolveLockForPrepay(db: Db, id: Id, user: Id, quote: Option<int>): Result<Resolved, Error> {
    if id !in db.holds || db.holds[id].pilgrim != user || !Live(db.now, db.holds[id]) then Err(BadRequest)
    else
      var lock := db.holds[id];
      if lock.lodge !in db.lodges || !db.lodges[lock.lodge].verified then Err(BadRequest)
      else if lock.roomType !in db.types || !db.types[lock.roomType].active || db.types[lock.roomType].deleted then
        Err(BadRequest)
      else match GetAvailability(db, lock.lodge, lock.roomType, lock.stay, Some(id), quote)
      case Err(e) => Err(e)
      case Ok(count) =>
        if count <= 0 then Err(Conflict) else Ok(Resolved(quote.value, lock.order, lock.amount))
  }

  /** The write at the end of createPrepaidOrder, by identifier alone. */
  function WriteOrder(db: Db, id: Id, order: Id, amount: int, extension: int): Db
    requires id in db.holds
  {
    db.(holds := db.holds[id := db.holds[id].(expiresAt := db.now + extension, order := Some(order),
                                              amount := Some(amount))])
  }

  function WriteOrderTx(db: Db, id: Id, order: Id, amount: int, extension: int): Outcome {
    if id !in db.holds then Throw(db, NotFound)
    else if exists h | h in db.holds :: h != id && db.holds[h].order == Some(order) then
      Outcome(db, Err(ConstraintViolation))
    else Outcome(WriteOrder(db, id, order, amount, extension), Ok(id))
  }

  /** createPrepaidOrder: the hold is resolved in `seen`, the provider is asked, `db` is written. */
  function CreateOrder(seen: Db, db: Db, id: Id, user: Id, quote: Option<int>, order: Id, extension: int): Outcome {
    match ResolveLockForPrepay(seen, id, user, quote)
    case Err(e) => Throw(db, e)
    case Ok(resolved) =>
      if resolved.order.Some? && resolved.orderAmount.Some? then Outcome(db, Ok(id))
      else if resolved.amount <= 0 then Throw(db, BadRequest)
      else WriteOrderTx(db, id, order, resolved.amount, extension)
  }

  /**
   * The hold's row is locked from the reads to the write, so it has not changed; what may have passed
   * is its expiry, if the provider took too long.
   */
  predicate AnsweredInTime(seen: Db, db: Db, id: Id, user: Id, quote: Option<int>) {
    match ResolveLockForPrepay(seen, id, user, quote)
    case Err(_) => true
    case Ok(resolved) =>
      (resolved.order.Some? && resolved.orderAmount.Some?)
      || (id in db.holds && db.holds[id] == seen.holds[id] && Live(db.now, db.holds[id]))
  }

  // ---------- Creating a booking ----------

  /** The checks both creation paths make on the hold's lodge, room type and guests. */
  function GuestChecks(db: Db, hold: Hold, dto: Request): (r: PreRead<Hold>)
    ensures r == Stop(BadRequest) || r == Proceed(hold)
  {
    if hold.lodge !in db.lodges || !db.lodges[hold.lodge].verified then Stop(BadRequest)
    else if hold.roomType !in db.types || !db.types[hold.roomType].active || db.types[hold.roomType].deleted then
      Stop(BadRequest)
    else if dto.adults > db.types[hold.roomType].adults || dto.children > db.types[hold.roomType].children then
      Stop(BadRequest)
    else if !dto.idProofOwned then Stop(BadRequest)
    else Proceed(hold)
  }

  function CreateBookingReads(db: Db, id: Id, user: Id, dto: Request): PreRead<Hold> {
    if id !in db.holds || db.holds[id].pilgrim != user then Stop(BadRequest)
    else if db.holds[id].order.Some? then Stop(BadRequest)
    else match FindBySource(db, id)
    case Some(prior) => Answer(prior)
    case None =>
      if !Live(db.now, db.holds[id]) then Stop(BadRequest) else GuestChecks(db, db.holds[id], dto)
  }

  function PrepaidReads(db: Db, id: Id, user: Id, dto: Request, paid: Payment): PreRead<Hold> {
    if id !in db.holds || db.holds[id].pilgrim != user || db.holds[id].order != Some(paid.order)
       || db.holds[id].amount.None? then Stop(BadRequest)
    else match FindBySource(db, id)
    case Some(prior) => Answer(prior)
    case None =>
      if !Live(db.now, db.holds[id]) then Stop(BadRequest)
      else if !paid.inr || paid.amount != db.holds[id].amount.value then Stop(BadRequest)
      else GuestChecks(db, db.holds[id], dto)
  }

  /** A hold becomes a booking: the hold is consumed, the booking and its rows are inserted. */
  function Convert(db: Db, id: Id, newId: Id, booking: Booking, rows: seq<Collection>): Db
    requires id in db.holds
  {
    db.(holds := db.holds[id := db.holds[id].(status := HoldConsumed)],
        bookings := db.bookings[newId := booking],
        history := db.history + [HistoryRow(newId, BookingCreated, None, booking.status)],
        collections := db.collections + rows)
  }

  function PendingBooking(lock: Hold, id: Id, user: Id, dto: Request, total: int, deadline: int): Booking {
    Booking(user, lock.lodge, lock.roomType, None, lock.stay, PendingOwnerApproval, Some(id),
            if dto.online then PaymentPending else PayAtLodge, total, Some(deadline))
  }

  function PendingRows(newId: Id, dto: Request, total: int): seq<Collection> {
    if dto.online then [Collection(newId, total, CollectionPending, None, None)] else []
  }

  function CreateBookingTx(db: Db, id: Id, lock: Hold, user: Id, dto: Request, quote: Option<int>,
                           responseTime: int, newId: Id): Outcome
  {
    match FindBySource(db, id)
    case Some(prior) => Outcome(db, Ok(prior))
    case None =>
      if id !in db.holds || !Live(db.now, db.holds[id]) then Throw(db, Conflict)
      else match GetAvailability(db, lock.lodge, lock.roomType, lock.stay, Some(id), quote)
      case Err(e) => Throw(db, e)
      case Ok(count) =>
        if count <= 0 then Throw(db, Conflict)
        else if dto.online && quote.value <= 0 then Outcome(db, Err(ConstraintViolation))
        else
          var booking := PendingBooking(lock, id, user, dto, quote.value, db.now + responseTime);
          Outcome(Convert(db, id, newId, booking, PendingRows(newId, dto, quote.value)), Ok(newId))
  }

  predicate TypeStillBookable(db: Db, lock: Hold, dto: Request) {
    && lock.roomType in db.types
    && db.types[lock.roomType].active && !db.types[lock.roomType].deleted
    && db.types[lock.roomType].lodge in db.lodges
    && db.lodges[db.types[lock.roomType].lodge].active
    && !db.lodges[db.types[lock.roomType].lodge].deleted
    && db.lodges[db.types[lock.roomType].lodge].verified
    && dto.adults <= db.types[lock.roomType].adults
    && dto.children <= db.types[lock.roomType].children
  }

  function PrepaidBooking(lock: Hold, id: Id, user: Id, room: Id): Booking
    requires lock.amount.Some?
  {
    Booking(user, lock.lodge, lock.roomType, Some(room), lock.stay, Accepted, Some(id),
            FullyPaid, lock.amount.value, None)
  }

  /** The rooms the payment path may take; rows other transactions hold locked are skipped. */
  function PrepaidRooms(db: Db, id: Id, lock: Hold, skipped: set<Id>): set<Id> {
    FreeRooms(db, lock.lodge, lock.roomType, lock.stay, None, Some(id)) - skipped
  }

  function PrepaidTx(db: Db, id: Id, lock: Hold, user: Id, dto: Request, paid: Payment,
                     skipped: set<Id>, newId: Id): Outcome
    requires lock.amount.Some?
  {
    match FindBySource(db, id)
    case Some(prior) => Outcome(db, Ok(prior))
    case None =>
      if !TypeStillBookable(db, lock, dto) then Throw(db, Conflict)
      else if id !in db.holds || !Live(db.now, db.holds[id]) then Throw(db, Conflict)
      else
        var rooms := PrepaidRooms(db, id, lock, skipped);
        if rooms == {} then Throw(db, Conflict)
        else if lock.amount.value <= 0
                || (exists c | c in db.collections :: c.payment == Some(paid.payment)) then
          Outcome(db, Err(ConstraintViolation))
        else
          var room := LeastId(rooms);
          var row := Collection(newId, lock.amount.value, CollectionPaid, Some(paid.order), Some(paid.payment));
          var made := Convert(db, id, newId, PrepaidBooking(lock, id, user, room), [row]);
          Outcome(made.(rooms := made.rooms[room := made.rooms[room].(status := Confirmed)]), Ok(newId))
  }

  // ---------- After creation ----------

  predicate Cancellable(status: BookingStatus) {
    status in {PendingOwnerApproval, Accepted, QrGenerated}
  }

  function CancelReads(db: Db, id: Id, user: Id, admin: bool): PreRead<Booking> {
    if id !in db.bookings then Stop(NotFound)
    else if db.bookings[id].pilgrim != user && !admin then Stop(Forbidden)
    else if db.bookings[id].status == Cancelled then Answer(id)
    else if !Cancellable(db.bookings[id].status) then Stop(BadRequest)
    else Proceed(db.bookings[id])
  }

  /** A room kept for a cancelled booking is put back on sale, unless it is in another state. */
  function ReleasedRooms(rooms: map<Id, Room>, room: Option<Id>): map<Id, Room> {
    if room.Some? && room.value in rooms && rooms[room.value].status in {Confirmed, Reserved} then
      rooms[room.value := rooms[room.value].(status := Available)]
    else rooms
  }

  function CancelTx(db: Db, id: Id, existing: Booking): Outcome {
    if id !in db.bookings then Throw(db, NotFound)
    else if db.bookings[id].status == Cancelled then Outcome(db, Ok(id))
    else if !Cancellable(db.bookings[id].status) then Throw(db, Conflict)
    else
      var released := db.(rooms := ReleasedRooms(db.rooms, db.bookings[id].room));
      Outcome(Note(SetStatus(released, id, Cancelled),
                   HistoryRow(id, CancelledByPilgrim, Some(existing.status), Cancelled)), Ok(id))
  }

  /** The common reads of the owner's accept and reject. */
  function OwnerReads(db: Db, id: Id, manages: bool): PreRead<Booking> {
    if id !in db.bookings then Stop(NotFound)
    else if !manages then Stop(Forbidden)
    else if db.bookings[id].status != PendingOwnerApproval then Stop(BadRequest)
    else if db.bookings[id].payment != PayAtLodge then Stop(BadRequest)
    else Proceed(db.bookings[id])
  }

  function AcceptTx(db: Db, id: Id, existing: Booking): Outcome {
    if id !in db.bookings then Throw(db, NotFound)
    else if db.bookings[id].status != PendingOwnerApproval then Throw(db, Conflict)
    else
      var rooms := FreeRooms(db, existing.lodge, existing.roomType, existing.stay, Some(id), None);
      if rooms == {} then Throw(db, Conflict)
      else
        var room := FirstRoom(db.rooms, rooms);
        Outcome(
          db.(bookings := db.bookings[id := db.bookings[id].(room := Some(room), status := Accepted)],
              rooms := db.rooms[room := db.rooms[room].(status := Confirmed)],
              history := db.history + [HistoryRow(id, BookingAccepted, Some(existing.status), Accepted)]),
          Ok(id))
  }

  /** Reject and expire write the status without looking at the row again. */
  function BlindWrite(db: Db, id: Id, status: BookingStatus): Db {
    if id in db.bookings then SetStatus(db, id, status) else db
  }

  /** The bookings the expiry job finds. */
  predicate ResponseOverdue(now: int, booking: Booking) {
    booking.status == PendingOwnerApproval && booking.deadline.Some? && booking.deadline.value <= now
  }

  function OverdueBookings(db: Db): set<Id> {
    set b | b in db.bookings && ResponseOverdue(db.now, db.bookings[b])
  }

  /** Check-in, check-out and completion. */
  datatype Transition = MarkCheckedIn | MarkCheckedOut | MarkCompleted {
    function From(): BookingStatus {
      match this case MarkCheckedIn => Accepted case MarkCheckedOut => CheckedIn case MarkCompleted => CheckedOut
    }

    function To(): BookingStatus {
      match this case MarkCheckedIn => CheckedIn case MarkCheckedOut => CheckedOut case MarkCompleted => Completed
    }

    function Recorded(): Action {
      match this
      case MarkCheckedIn => BookingCheckedIn
      case MarkCheckedOut => BookingCheckedOut
      case MarkCompleted => BookingCompleted
    }
  }

  function TransitionReads(db: Db, id: Id, t: Transition): PreRead<Booking> {
    if id !in db.bookings then Stop(NotFound)
    else if db.bookings[id].status != t.From() then Stop(BadRequest)
    else Proceed(db.bookings[id])
  }

  /** The write names the row but not the status it was read with. */
  function WriteTransition(db: Db, id: Id, t: Transition): Db
    requires id in db.bookings
  {
    SetStatus(db, id, t.To())
  }

  function TransitionTx(db: Db, id: Id, t: Transition): Outcome {
    if id !in db.bookings then Throw(db, NotFound) else Outcome(WriteTransition(db, id, t), Ok(id))
  }

  // ---------- One step of a run ----------

  datatype Step =
    | Tick(elapsed: nat)
    | Environment(lodges: map<Id, Lodge>, types: map<Id, RoomType>, rooms: map<Id, Room>, blocks: set<Block>)
    | StepCreateLock(user: Id, lodge: Id, roomType: Id, checkIn: int, checkOut: int,
                     key: Option<string>, quote: Option<int>, ttl: int, newId: Id)
    | StepAttachOrder(hold: Id, order: Id, amount: int, extension: int)
    | StepCreateOrder(hold: Id, user: Id, quote: Option<int>, order: Id, extension: int)
    | StepReleaseLock(hold: Id, user: Id)
    | StepExpireLocks
    | StepCreateBooking(hold: Id, user: Id, dto: Request, quote: Option<int>, responseTime: int, newId: Id)
    | StepPrepaid(hold: Id, user: Id, dto: Request, paid: Payment, skipped: set<Id>, newId: Id)
    | StepCancel(booking: Id, user: Id, admin: bool)
    | StepAccept(booking: Id, manages: bool)
    | StepReject(booking: Id, manages: bool)
    | StepExpireBooking(booking: Id)
    | StepTransition(booking: Id, transition: Transition)
    | StepNote(row: HistoryRow)  // the history row that a rejection, an expiry or a transition writes afterwards

  /** Room types and rooms are never removed and keep their lodge and type; all else may change. */
  predicate EnvironmentOk(db: Db, step: Step)
    requires step.Environment?
  {
    && db.lodges.Keys <= step.lodges.Keys
    && (forall t | t in db.types :: t in step.types && step.types[t].lodge == db.types[t].lodge)
    && (forall t | t in step.types :: step.types[t].lodge in step.lodges)
    && (forall r | r in db.rooms :: r in step.rooms && step.rooms[r].lodge == db.rooms[r].lodge
                                    && step.rooms[r].roomType == db.rooms[r].roomType)
    && (forall r | r in step.rooms :: step.rooms[r].roomType in step.types
                                      && step.rooms[r].lodge == step.types[step.rooms[r].roomType].lodge)
  }

  /**
   * New rows get identifiers no row has. The last two conditions keep the writes of two calls out of a
   * run exactly where they would do harm: an order written to a hold that ran out while the provider
   * was asked, and a check-in written over a booking that was released meanwhile.
   */
  predicate Enabled(seen: Db, db: Db, step: Step) {
    match step
    case Environment(_, _, _, _) => EnvironmentOk(db, step)
    case StepCreateLock(_, _, _, _, _, _, _, _, newId) => newId !in db.holds
    case StepCreateBooking(_, _, _, _, _, newId) => newId !in db.bookings
    case StepPrepaid(_, _, _, _, _, newId) => newId !in db.bookings
    case StepCreateOrder(hold, user, quote, _, _) => AnsweredInTime(seen, db, hold, user, quote)
    case StepNote(row) => row.booking in db.bookings && row.action != BookingCreated
    case StepTransition(booking, t) =>
      TransitionReads(seen, booking, t).Proceed? && t == MarkCheckedIn ==>
        booking in db.bookings && ActiveStatus(db.bookings[booking].status)
    case _ => true
  }

  /** `seen` is the state in which the call made its reads, `db` the state its writes meet. */
  function Apply(seen: Db, db: Db, step: Step): (r: Outcome)
  {
    match step
    case Tick(elapsed) => Outcome(db.(now := db.now + elapsed), Ok(0))
    case Environment(lodges, types, rooms, blocks) =>
      Outcome(db.(lodges := lodges, types := types, rooms := rooms, blocks := blocks), Ok(0))
    case StepCreateLock(user, lodge, roomType, checkIn, checkOut, key, quote, ttl, newId) =>
      CreateLock(db, user, lodge, roomType, checkIn, checkOut, key, quote, ttl, newId)
    case StepAttachOrder(hold, order, amount, extension) =>
      AttachProviderOrder(db, hold, order, amount, extension)
    case StepCreateOrder(hold, user, quote, order, extension) =>
      CreateOrder(seen, db, hold, user, quote, order, extension)
    case StepReleaseLock(hold, user) => Outcome(ReleaseLock(db, hold, user).0, Ok(hold))
    case StepExpireLocks => Outcome(ExpireLocks(db), Ok(0))
    case StepCreateBooking(hold, user, dto, quote, responseTime, newId) =>
      (match CreateBookingReads(seen, hold, user, dto)
       case Stop(e) => Throw(db, e)
       case Answer(b) => Outcome(db, Ok(b))
       case Proceed(lock) => CreateBookingTx(db, hold, lock, user, dto, quote, responseTime, newId))
    case StepPrepaid(hold, user, dto, paid, skipped, newId) =>
      (match PrepaidReads(seen, hold, user, dto, paid)
       case Stop(e) => Throw(db, e)
       case Answer(b) => Outcome(db, Ok(b))
       case Proceed(lock) => PrepaidTx(db, hold, lock, user, dto, paid, skipped, newId))
    case StepCancel(booking, user, admin) =>
      (match CancelReads(seen, booking, user, admin)
       case Stop(e) => Throw(db, e)
       case Answer(b) => Outcome(db, Ok(b))
       case Proceed(existing) => CancelTx(db, booking, existing))
    case StepAccept(booking, manages) =>
      (match OwnerReads(seen, booking, manages)
       case Stop(e) => Throw(db, e)
       case Answer(b) => Outcome(db, Ok(b))
       case Proceed(existing) => AcceptTx(db, booking, existing))
    case StepReject(booking, manages) =>
      (match OwnerReads(seen, booking, manages)
       case Stop(e) => Throw(db, e)
       case Answer(b) => Outcome(db, Ok(b))
       case Proceed(existing) => Outcome(BlindWrite(db, booking, Rejected), Ok(booking)))
    case StepExpireBooking(booking) =>
      if booking in seen.bookings && ResponseOverdue(seen.now, seen.bookings[booking]) then
        Outcome(BlindWrite(db, booking, Expired), Ok(booking))
      else Outcome(db, Ok(booking))
    case StepNote(row) => Outcome(Note(db, row), Ok(row.booking))
    case StepTransition(booking, t) =>
      (match TransitionReads(seen, booking, t)
       case Stop(e) => Throw(db, e)
       case Answer(b) => Outcome(db, Ok(b))
       case Proceed(_) => TransitionTx(db, booking, t))
  }
}
