/**
 * How the pilgrim app merges realtime events, polled records and list snapshots
 * (apps/pilgrim-app/src/pilgrim-ui/booking-state.ts, backend-sync.ts:157-217, 274-280).
 * A timestamp is a number of milliseconds, or None where the text does not parse.
 */
module ClientBookings {
  import opened Wrappers

  datatype ServerStatus =
    | Draft | PendingOwnerApproval | Accepted | Rejected | QrGenerated | CheckedIn | CheckedOut | Completed
    | Cancelled | Expired | NoShow

  datatype Status = Pending | Confirmed | Staying | Finished | Ended

  datatype ServerPayment =
    NotRequired | PaymentPending | AdvancePaid | FullyPaid | PayAtLodge | PaymentRefunded | PaymentFailed

  datatype Payment = Paid | Refunded | AtLodge

  /** What a polled record leaves alone; `details` stands for the guests and the booking code. */
  datatype Kept<P> = Kept(payment: P, amount: int, details: int)

  /** One version of a booking on the server; `stay` stands for its dates. */
  datatype Server = Server(id: nat, status: ServerStatus, stay: int, updatedAt: int, kept: Kept<ServerPayment>)

  datatype Booking = Booking(id: nat, status: Status, qrReady: bool, stay: int, updatedAt: Option<int>,
                             kept: Kept<Payment>)

  datatype Message =
    | Event(id: nat, status: Option<ServerStatus>, updatedAt: Option<int>)
    | Record(record: Server)
    | Snapshot(bookings: seq<Server>)
    | Created(booking: Server)

  // ---------- The app's functions ----------

  function MapStatus(s: ServerStatus): Status {
    match s
    case PendingOwnerApproval | Draft => Pending
    case CheckedIn => Staying
    case Accepted | QrGenerated => Confirmed
    case CheckedOut | Completed => Finished
    case _ => Ended
  }

  predicate QrReady(s: ServerStatus) {
    s == Accepted || s == QrGenerated
  }

  function MapPayment(p: ServerPayment): Payment {
    match p
    case FullyPaid | AdvancePaid => Paid
    case PaymentRefunded => Refunded
    case _ => AtLodge
  }

  function MapKept(kept: Kept<ServerPayment>): Kept<Payment> {
    Kept(MapPayment(kept.payment), kept.amount, kept.details)
  }

  function MapBooking(s: Server): Booking {
    Booking(s.id, MapStatus(s.status), QrReady(s.status), s.stay, Some(s.updatedAt), MapKept(s.kept))
  }

  /** a > b as the app compares parsed times: false if either does not parse. */
  predicate After(a: Option<int>, b: Option<int>) {
    a.Some? && b.Some? && a.value > b.value
  }

  /** An event counts unless it has no time, or one not after the booking's own. */
  predicate Ignored(b: Booking, at: Option<int>) {
    at.None? || (b.updatedAt.Some? && at.value <= b.updatedAt.value)
  }

  function ApplyEvent(b: Booking, status: Option<ServerStatus>, at: Option<int>): Booking {
    if Ignored(b, at) || status.None? then b
    else
      match status.value
      case Accepted | QrGenerated => b.(qrReady := true, status := Confirmed, updatedAt := at)
      case Cancelled | Rejected | Expired => b.(qrReady := false, status := Ended, updatedAt := at)
      case CheckedIn => b.(qrReady := false, status := Staying, updatedAt := at)
      case CheckedOut | Completed => b.(qrReady := false, status := Finished, updatedAt := at)
      case _ => b
  }

  /** A record moves status, QR code, dates and version; the payment and the rest stay as they were. */
  function ApplyRecord(b: Booking, s: Server): Booking {
    if After(b.updatedAt, Some(s.updatedAt)) then b
    else b.(qrReady := QrReady(s.status), status := MapStatus(s.status), stay := s.stay, updatedAt := Some(s.updatedAt))
  }

  /** The last booking with the id, which is the one a map built from the list keeps. */
  function Find(bookings: seq<Booking>, id: nat): Option<Booking> {
    if bookings == [] then None
    else if bookings[|bookings| - 1].id == id then Some(bookings[|bookings| - 1])
    else Find(bookings[..|bookings| - 1], id)
  }

  function Newer(existing: Option<Booking>, fetched: Booking): Booking {
    if existing.Some? && After(existing.value.updatedAt, fetched.updatedAt) then existing.value else fetched
  }

  function MergeSnapshot(current: seq<Booking>, fetched: seq<Booking>): seq<Booking> {
    seq(|fetched|, i requires 0 <= i < |fetched| => Newer(Find(current, fetched[i].id), fetched[i]))
  }

  function MapAll(servers: seq<Server>): seq<Booking> {
    seq(|servers|, i requires 0 <= i < |servers| => MapBooking(servers[i]))
  }

  function Without(bookings: seq<Booking>, id: nat): seq<Booking> {
    if bookings == [] then []
    else
      Without(bookings[..|bookings| - 1], id)
      + if bookings[|bookings| - 1].id == id then [] else [bookings[|bookings| - 1]]
  }

  /** The list after a message. */
  function Receive(bookings: seq<Booking>, m: Message): seq<Booking> {
    match m
    case Event(id, status, at) =>
      seq(|bookings|, i requires 0 <= i < |bookings| =>
        if bookings[i].id == id then ApplyEvent(bookings[i], status, at) else bookings[i])
    case Record(record) =>
      seq(|bookings|, i requires 0 <= i < |bookings| =>
        if bookings[i].id == record.id then ApplyRecord(bookings[i], record) else bookings[i])
    case Snapshot(fetched) => MergeSnapshot(bookings, MapAll(fetched))
    case Created(booking) => [MapBooking(booking)] + Without(bookings, booking.id)
  }

  // ---------- One booking at a time ----------

  function FindServer(servers: seq<Server>, id: nat): Option<Server> {
    if servers == [] then None
    else if servers[|servers| - 1].id == id then Some(servers[|servers| - 1])
    else FindServer(servers[..|servers| - 1], id)
  }

  /** What a message does to the booking with the given id. */
  function ReceiveOne(b: Option<Booking>, m: Message, id: nat): Option<Booking> {
    match m
    case Event(i, status, at) => if i == id && b.Some? then Some(ApplyEvent(b.value, status, at)) else b
    case Record(record) => if record.id == id && b.Some? then Some(ApplyRecord(b.value, record)) else b
    case Snapshot(fetched) =>
      var f := FindServer(fetched, id);
      if f.None? then None else Some(Newer(b, MapBooking(f.value)))
    case Created(booking) => if booking.id == id then Some(MapBooking(booking)) else b
  }

  /** b2 is b1 with the message applied to each booking that has the id. */
  ghost predicate Mapped(b1: seq<Booking>, b2: seq<Booking>, id: nat, m: Message) {
    && |b2| == |b1|
    && forall i | 0 <= i < |b1| ::
      b2[i].id == b1[i].id && (b1[i].id == id ==> Some(b2[i]) == ReceiveOne(Some(b1[i]), m, id))
  }

  lemma {:induction false} FindMapped(b1: seq<Booking>, b2: seq<Booking>, id: nat, m: Message)
    requires Mapped(b1, b2, id, m) && (m.Event? || m.Record?)
    ensures Find(b2, id) == ReceiveOne(Find(b1, id), m, id)
  {
    if b1 != [] {
      var n := |b1| - 1;
      assert b1[n] in b1;
      FindMapped(b1[..n], b2[..n], id, m);
    }
  }

  lemma {:induction false} FindMerged(current: seq<Booking>, fetched: seq<Server>, id: nat)
    ensures Find(MergeSnapshot(current, MapAll(fetched)), id) == ReceiveOne(Find(current, id), Snapshot(fetched), id)
  {
    if fetched != [] {
      var n := |fetched| - 1;
      FindMerged(current, fetched[..n], id);
      var merged := MergeSnapshot(current, MapAll(fetched));
      assert merged[..n] == MergeSnapshot(current, MapAll(fetched[..n]));
      FindKeepsId(current, fetched[n].id);
    }
  }

  lemma {:induction false} FindKeepsId(bookings: seq<Booking>, id: nat)
    ensures Find(bookings, id).Some? ==> Find(bookings, id).value.id == id && Find(bookings, id).value in bookings
  {
    if bookings != [] {
      FindKeepsId(bookings[..|bookings| - 1], id);
    }
  }

  lemma {:induction false} FindAppended(a: seq<Booking>, b: seq<Booking>, id: nat)
    ensures Find(a + b, id) == if Find(b, id).Some? then Find(b, id) else Find(a, id)
  {
    if b == [] {
      assert a + b == a;
    } else {
      FindAppended(a, b[..|b| - 1], id);
      assert (a + b)[..|a + b| - 1] == a + b[..|b| - 1];
    }
  }

  lemma {:induction false} FindWithout(bookings: seq<Booking>, gone: nat, id: nat)
    ensures Find(Without(bookings, gone), id) == if id == gone then None else Find(bookings, id)
  {
    if bookings != [] {
      var n := |bookings| - 1;
      FindWithout(bookings[..n], gone, id);
      var tail := if bookings[n].id == gone then [] else [bookings[n]];
      FindAppended(Without(bookings[..n], gone), tail, id);
      assert tail != [] ==> tail[..0] == [];
    }
  }

  /** On the list, a message does to each booking what it does to that booking alone. */
  lemma ReceiveIsPerBooking(bookings: seq<Booking>, m: Message, id: nat)
    ensures Find(Receive(bookings, m), id) == ReceiveOne(Find(bookings, id), m, id)
  {
    match m
    case Event(_, _, _) =>
      FindMapped(bookings, Receive(bookings, m), id, m);
    case Record(_) =>
      FindMapped(bookings, Receive(bookings, m), id, m);
    case Snapshot(fetched) =>
      FindMerged(bookings, fetched, id);
    case Created(booking) =>
      var first := [MapBooking(booking)];
      FindAppended(first, Without(bookings, booking.id), id);
      FindWithout(bookings, booking.id, id);
      assert first[..0] == [];
  }

  // ---------- What the server may send ----------

  /** For each booking, its versions in the order they were written. */
  type History = map<nat, seq<Server>>

  ghost predicate Strict(h: History) {
    forall id | id in h :: Versions(h[id], id)
  }

  ghost predicate Versions(v: seq<Server>, id: nat) {
    (forall i | 0 <= i < |v| :: v[i].id == id) && forall i, j | 0 <= i < j < |v| :: v[i].updatedAt < v[j].updatedAt
  }

  predicate Written(h: History, s: Server) {
    s.id in h && s in h[s.id]
  }

  /** A message carries versions of the history, whichever and however late. */
  ghost predicate Authentic(m: Message, h: History) {
    match m
    case Event(id, status, at) =>
      at.None? || exists s :: Written(h, s) && s.id == id && status == Some(s.status) && at == Some(s.updatedAt)
    case Record(record) => Written(h, record)
    case Snapshot(fetched) => forall i | 0 <= i < |fetched| :: Written(h, fetched[i])
    case Created(booking) => Written(h, booking)
  }

  /** The booking shows the status and the QR code of version s. */
  predicate Shows(b: Booking, s: Server) {
    && b.id == s.id && b.status == MapStatus(s.status) && b.qrReady == QrReady(s.status)
    && b.updatedAt == Some(s.updatedAt)
  }

  ghost predicate Genuine(b: Booking, h: History) {
    exists s :: Written(h, s) && Shows(b, s)
  }

  // ---------- Runs ----------

  ghost predicate IsRun(lists: seq<seq<Booking>>, messages: seq<Message>, h: History) {
    && Strict(h) && |lists| == |messages| + 1
    && (forall id :: Find(lists[0], id).Some? ==> Genuine(Find(lists[0], id).value, h))
    && forall i | 0 <= i < |messages| :: Authentic(messages[i], h) && lists[i + 1] == Receive(lists[i], messages[i])
  }

  lemma {:induction false} FoundServer(servers: seq<Server>, id: nat)
    ensures FindServer(servers, id).Some? ==> FindServer(servers, id).value in servers
    ensures FindServer(servers, id).Some? ==> FindServer(servers, id).value.id == id
    ensures FindServer(servers, id).None? ==> forall s :: s in servers ==> s.id != id
  {
    if servers != [] {
      FoundServer(servers[..|servers| - 1], id);
    }
  }

  lemma GenuineStep(b: Option<Booking>, m: Message, id: nat, h: History)
    requires Authentic(m, h) && (b.Some? ==> b.value.id == id && Genuine(b.value, h))
    ensures var c := ReceiveOne(b, m, id); c.Some? ==> c.value.id == id && Genuine(c.value, h)
  {
    var c := ReceiveOne(b, m, id);
    if c.Some? && c != b {
      match m
      case Event(_, status, at) =>
        var s :| Written(h, s) && s.id == id && status == Some(s.status) && at == Some(s.updatedAt);
        assert Shows(c.value, s);
      case Record(record) =>
        assert Shows(c.value, record);
      case Snapshot(fetched) =>
        FoundServer(fetched, id);
        assert Shows(c.value, FindServer(fetched, id).value);
      case Created(booking) =>
        assert Shows(c.value, booking);
    }
  }

  /**
   * Whatever order messages arrive in and however often, a booking's status and QR code are always
   * those of the server's version with the same timestamp.
   */
  lemma {:induction false} AlwaysGenuine(lists: seq<seq<Booking>>, messages: seq<Message>, h: History, i: nat, id: nat)
    requires IsRun(lists, messages, h) && i < |lists|
    ensures Find(lists[i], id).Some? ==> Find(lists[i], id).value.id == id && Genuine(Find(lists[i], id).value, h)
  {
    FindKeepsId(lists[i], id);
    if i > 0 {
      AlwaysGenuine(lists, messages, h, i - 1, id);
      ReceiveIsPerBooking(lists[i - 1], messages[i - 1], id);
      GenuineStep(Find(lists[i - 1], id), messages[i - 1], id, h);
    }
  }

  /** The message neither leaves the booking out of a list nor replaces it with a creation reply. */
  predicate Keeps(m: Message, id: nat) {
    && (m.Snapshot? ==> FindServer(m.bookings, id).Some?)
    && !(m.Created? && m.booking.id == id)
  }

  function Time(b: Option<Booking>): int {
    if b.Some? && b.value.updatedAt.Some? then b.value.updatedAt.value else -1
  }

  lemma StepNeverOlder(b: Booking, m: Message, id: nat, h: History)
    requires b.updatedAt.Some? && Keeps(m, id) && Authentic(m, h)
    ensures ReceiveOne(Some(b), m, id).Some?
    ensures Time(ReceiveOne(Some(b), m, id)) >= b.updatedAt.value
  {
  }

  /** A booking that every snapshot lists is never lost and never goes back to an older version. */
  lemma {:induction false} NeverOlder(lists: seq<seq<Booking>>, messages: seq<Message>, h: History,
                                      i: nat, j: nat, id: nat)
    requires IsRun(lists, messages, h) && i <= j < |lists| && Find(lists[i], id).Some?
    requires forall k | i <= k < j :: Keeps(messages[k], id)
    ensures Find(lists[j], id).Some? && Find(lists[j], id).value.updatedAt.Some?
    ensures Time(Find(lists[j], id)) >= Time(Find(lists[i], id))
  {
    AlwaysGenuine(lists, messages, h, j, id);
    if i < j {
      NeverOlder(lists, messages, h, i, j - 1, id);
      AlwaysGenuine(lists, messages, h, j - 1, id);
      ReceiveIsPerBooking(lists[j - 1], messages[j - 1], id);
      StepNeverOlder(Find(lists[j - 1], id).value, messages[j - 1], id, h);
    }
  }

  /** The newest version of a booking. */
  function Latest(h: History, id: nat): Server
    requires id in h && h[id] != []
  {
    h[id][|h[id]| - 1]
  }

  lemma LatestIsNewest(h: History, s: Server)
    requires Strict(h) && Written(h, s)
    ensures h[s.id] != [] && s.updatedAt <= Latest(h, s.id).updatedAt
    ensures s.updatedAt == Latest(h, s.id).updatedAt ==> s == Latest(h, s.id)
  {
    assert Versions(h[s.id], s.id);
    var i :| 0 <= i < |h[s.id]| && h[s.id][i] == s;
  }

  /** The message delivers the newest version as a record, in a list or as a creation reply. */
  predicate Delivers(m: Message, s: Server) {
    match m
    case Event(_, _, _) => false
    case Record(record) => record == s
    case Snapshot(fetched) => FindServer(fetched, s.id) == Some(s)
    case Created(booking) => booking == s
  }

  /** The whole booking comes with the message, not only what a record carries. */
  predicate InFull(m: Message, s: Server) {
    Delivers(m, s) && !m.Record?
  }

  /** The booking is at version s in all that events and records move. */
  predicate UpToDate(b: Booking, s: Server) {
    Shows(b, s) && b.stay == s.stay
  }

  /** At the newest version only a list that carries it can still change anything, and then all of it. */
  lemma LatestStays(b: Booking, m: Message, id: nat, h: History)
    requires Strict(h) && id in h && h[id] != [] && Authentic(m, h) && Keeps(m, id)
    requires UpToDate(b, Latest(h, id)) && b.id == id
    ensures ReceiveOne(Some(b), m, id) == Some(if InFull(m, Latest(h, id)) then MapBooking(Latest(h, id)) else b)
  {
    match m
    case Event(i, status, at) =>
      if i == id && at.Some? {
        var s :| Written(h, s) && s.id == id && at == Some(s.updatedAt);
        LatestIsNewest(h, s);
      }
    case Record(record) =>
      if record.id == id {
        LatestIsNewest(h, record);
      }
    case Snapshot(fetched) =>
      FoundServer(fetched, id);
      LatestIsNewest(h, FindServer(fetched, id).value);
    case Created(_) =>
  }

  lemma LatestArrives(b: Option<Booking>, m: Message, id: nat, h: History)
    requires Strict(h) && id in h && h[id] != [] && Latest(h, id).id == id && Delivers(m, Latest(h, id))
    requires b.Some? ==> b.value.id == id && Genuine(b.value, h)
    requires m.Record? ==> b.Some?
    ensures var c, latest := ReceiveOne(b, m, id), Latest(h, id);
            c == Some(if m.Record? then MapBooking(latest).(kept := b.value.kept) else MapBooking(latest))
  {
    if b.Some? {
      var s :| Written(h, s) && Shows(b.value, s);
      LatestIsNewest(h, s);
    }
  }

  /** The booking is up to date with version s, and entirely equal to it exactly if `whole`. */
  ghost predicate Converged(b: Option<Booking>, s: Server, whole: bool) {
    b.Some? && b.value.id == s.id && UpToDate(b.value, s) && (b.value == MapBooking(s) <==> whole)
  }

  lemma ArrivalConverges(b: Option<Booking>, m: Message, id: nat, h: History)
    requires Strict(h) && id in h && h[id] != [] && Latest(h, id).id == id && Delivers(m, Latest(h, id))
    requires b.Some? ==> b.value.id == id && Genuine(b.value, h)
    requires m.Record? ==> b.Some?
    ensures Converged(ReceiveOne(b, m, id), Latest(h, id),
                      InFull(m, Latest(h, id)) || (b.Some? && b.value.kept == MapKept(Latest(h, id).kept)))
  {
    hide ReceiveOne;
    LatestArrives(b, m, id, h);
  }

  lemma StaysConverged(b: Option<Booking>, m: Message, id: nat, h: History, whole: bool)
    requires Strict(h) && id in h && h[id] != [] && Latest(h, id).id == id && Authentic(m, h) && Keeps(m, id)
    requires Converged(b, Latest(h, id), whole)
    ensures Converged(ReceiveOne(b, m, id), Latest(h, id), whole || InFull(m, Latest(h, id)))
  {
    hide ReceiveOne, Authentic;
    LatestStays(b.value, m, id, h);
  }

  /** Some message from i up to j carries the whole of version s. */
  ghost predicate CameInFull(messages: seq<Message>, i: nat, j: nat, s: Server)
    requires j <= |messages|
  {
    exists k :: i <= k < j && InFull(messages[k], s)
  }

  lemma NothingInFull(messages: seq<Message>, i: nat, s: Server)
    requires i <= |messages|
    ensures !CameInFull(messages, i, i, s)
  {
  }

  lemma StillInFull(messages: seq<Message>, i: nat, j: nat, s: Server)
    requires i < j <= |messages|
    ensures CameInFull(messages, i, j, s) <==> CameInFull(messages, i, j - 1, s) || InFull(messages[j - 1], s)
  {
  }

  /**
   * Once the newest version has been delivered, status, QR code and dates equal the server's for good,
   * whatever else arrives late, twice or out of order. Payment, amount and details do so exactly when
   * the version also came in a list or a creation reply, or when they were right before its record came.
   */
  lemma {:induction false} Converges(lists: seq<seq<Booking>>, messages: seq<Message>, h: History,
                                     i: nat, j: nat, id: nat)
    requires IsRun(lists, messages, h) && i < j < |lists| && id in h && h[id] != []
    requires Delivers(messages[i], Latest(h, id)) && (messages[i].Record? ==> Find(lists[i], id).Some?)
    requires forall k | i < k < j :: Keeps(messages[k], id)
    ensures var b, latest := Find(lists[j], id), Latest(h, id);
            && b.Some? && b.value.id == id && UpToDate(b.value, latest)
            && (b.value == MapBooking(latest) <==>
                  || CameInFull(messages, i, j, latest)
                  || (Find(lists[i], id).Some? && Find(lists[i], id).value.kept == MapKept(latest.kept)))
  {
    hide Find, Receive, ReceiveOne, InFull, Delivers, Genuine, MapBooking, MapKept, UpToDate, CameInFull;
    var latest := Latest(h, id);
    assert Versions(h[id], id);
    ReceiveIsPerBooking(lists[j - 1], messages[j - 1], id);
    StillInFull(messages, i, j, latest);
    if j == i + 1 {
      NothingInFull(messages, i, latest);
      AlwaysGenuine(lists, messages, h, i, id);
      ArrivalConverges(Find(lists[i], id), messages[i], id, h);
    } else {
      Converges(lists, messages, h, i, j - 1, id);
      StaysConverged(Find(lists[j - 1], id), messages[j - 1], id, h,
                     CameInFull(messages, i, j - 1, latest)
                     || (Find(lists[i], id).Some? && Find(lists[i], id).value.kept == MapKept(latest.kept)));
    }
  }

  /**
   * Two devices that have each received the newest version show the same status, QR code and dates,
   * however their messages were ordered. They agree entirely exactly when they agree on what records
   * leave alone, which they do if each received the version in full.
   */
  lemma DevicesAgree(lists1: seq<seq<Booking>>, messages1: seq<Message>, i1: nat,
                     lists2: seq<seq<Booking>>, messages2: seq<Message>, i2: nat, h: History, id: nat)
    requires id in h && h[id] != [] && IsRun(lists1, messages1, h) && IsRun(lists2, messages2, h)
    requires i1 < |messages1| && Delivers(messages1[i1], Latest(h, id))
    requires i2 < |messages2| && Delivers(messages2[i2], Latest(h, id))
    requires messages1[i1].Record? ==> Find(lists1[i1], id).Some?
    requires messages2[i2].Record? ==> Find(lists2[i2], id).Some?
    requires forall k | i1 < k < |messages1| :: Keeps(messages1[k], id)
    requires forall k | i2 < k < |messages2| :: Keeps(messages2[k], id)
    ensures var b1, b2, latest := Find(lists1[|messages1|], id), Find(lists2[|messages2|], id), Latest(h, id);
            && b1.Some? && b2.Some? && UpToDate(b1.value, latest) && UpToDate(b2.value, latest)
            && (b1 == b2 <==> b1.value.kept == b2.value.kept)
            && (CameInFull(messages1, i1, |messages1|, latest) && CameInFull(messages2, i2, |messages2|, latest) ==>
                  b1 == b2)
  {
    Converges(lists1, messages1, h, i1, |messages1|, id);
    Converges(lists2, messages2, h, i2, |messages2|, id);
  }

  // ---------- What the pilgrim sees ----------

  /** What a status of the server looks like on the screen. */
  predicate Looks(b: Booking, status: ServerStatus) {
    && (b.status == Pending <==> status in {Draft, PendingOwnerApproval})
    && (b.status == Confirmed <==> status in {Accepted, QrGenerated})
    && (b.status == Staying <==> status == CheckedIn)
    && (b.status == Finished <==> status in {CheckedOut, Completed})
    && (b.status == Ended <==> status in {Rejected, Cancelled, Expired, NoShow})
    && (b.qrReady <==> status in {Accepted, QrGenerated})
  }

  /** What a payment of the server looks like on the screen. */
  predicate PaidLooks(b: Booking, payment: ServerPayment) {
    && (b.kept.payment == Paid <==> payment in {FullyPaid, AdvancePaid})
    && (b.kept.payment == Refunded <==> payment == PaymentRefunded)
    && (b.kept.payment == AtLodge <==> payment in {NotRequired, PaymentPending, PayAtLodge, PaymentFailed})
  }

  /** The version of the server that the booking on the list shows. */
  lemma SeenIsServer(lists: seq<seq<Booking>>, messages: seq<Message>, h: History, i: nat, id: nat)
    returns (s: Server)
    requires IsRun(lists, messages, h) && i < |lists| && Find(lists[i], id).Some?
    ensures Written(h, s) && s.id == id && Find(lists[i], id).value.updatedAt == Some(s.updatedAt)
    ensures Looks(Find(lists[i], id).value, s.status)
  {
    AlwaysGenuine(lists, messages, h, i, id);
    s :| Written(h, s) && Shows(Find(lists[i], id).value, s);
  }

  /** Once the newest version has come in full, the screen shows all of it, the payment included. */
  lemma FullDeliveryShown(lists: seq<seq<Booking>>, messages: seq<Message>, h: History, i: nat, j: nat, id: nat)
    requires IsRun(lists, messages, h) && i < j < |lists| && id in h && h[id] != []
    requires InFull(messages[i], Latest(h, id)) && forall k | i < k < j :: Keeps(messages[k], id)
    ensures var b, latest := Find(lists[j], id), Latest(h, id);
            && b.Some? && Looks(b.value, latest.status) && PaidLooks(b.value, latest.kept.payment)
            && b.value.stay == latest.stay && b.value.updatedAt == Some(latest.updatedAt)
            && b.value.kept.amount == latest.kept.amount && b.value.kept.details == latest.kept.details
  {
    hide Find, Receive, ReceiveOne, Genuine;
    Converges(lists, messages, h, i, j, id);
    assert CameInFull(messages, i, j, Latest(h, id));
  }

  /** The eleven statuses less the three that the app does not act on when an event brings them. */
  predicate Acted(status: ServerStatus) {
    status in {Accepted, QrGenerated, Cancelled, Rejected, Expired, CheckedIn, CheckedOut, Completed}
  }

  /** Whether an event of that time moves the booking. */
  predicate Moves(b: Booking, status: Option<ServerStatus>, at: Option<int>) {
    && at.Some? && (b.updatedAt.None? || b.updatedAt.value < at.value)
    && status.Some? && Acted(status.value)
  }

  /**
   * An event moves the booking it names exactly when it carries a time after the booking's own, or a
   * time at all if the booking has none, and a status the app acts on. It never adds or drops one.
   */
  lemma EventExactly(bookings: seq<Booking>, id: nat, status: Option<ServerStatus>, at: Option<int>, other: nat)
    ensures var b, c := Find(bookings, id), Find(Receive(bookings, Event(id, status, at)), id);
            && (b.None? <==> c.None?)
            && (b.Some? && !Moves(b.value, status, at) ==> c == b)
            && (b.Some? && Moves(b.value, status, at) ==>
                  && Looks(c.value, status.value) && c.value.updatedAt == at
                  && c.value.id == b.value.id && c.value.stay == b.value.stay && c.value.kept == b.value.kept)
    ensures other != id ==> Find(Receive(bookings, Event(id, status, at)), other) == Find(bookings, other)
  {
    ReceiveIsPerBooking(bookings, Event(id, status, at), id);
    ReceiveIsPerBooking(bookings, Event(id, status, at), other);
  }

  /**
   * A record moves the booking it names exactly when that is not newer, and then to the record's
   * status, dates and time; payment, amount and details stay. It never adds or drops a booking.
   */
  lemma RecordExactly(bookings: seq<Booking>, s: Server, other: nat)
    ensures var b, c := Find(bookings, s.id), Find(Receive(bookings, Record(s)), s.id);
            && (b.None? <==> c.None?)
            && (b.Some? && b.value.updatedAt.Some? && b.value.updatedAt.value > s.updatedAt ==> c == b)
            && (b.Some? && (b.value.updatedAt.None? || b.value.updatedAt.value <= s.updatedAt) ==>
                  && Looks(c.value, s.status) && c.value.updatedAt == Some(s.updatedAt) && c.value.stay == s.stay
                  && c.value.id == b.value.id && c.value.kept == b.value.kept)
    ensures other != s.id ==> Find(Receive(bookings, Record(s)), other) == Find(bookings, other)
  {
    ReceiveIsPerBooking(bookings, Record(s), s.id);
    ReceiveIsPerBooking(bookings, Record(s), other);
  }

  /** The whole booking as the server has it. */
  predicate IsAs(b: Booking, s: Server) {
    && b.id == s.id && Looks(b, s.status) && PaidLooks(b, s.kept.payment) && b.stay == s.stay
    && b.updatedAt == Some(s.updatedAt) && b.kept.amount == s.kept.amount && b.kept.details == s.kept.details
  }

  /**
   * After a snapshot the list has exactly the snapshot's bookings. One that was newer on the device
   * stays as it was there, and every other is as the snapshot has it.
   */
  lemma SnapshotExactly(bookings: seq<Booking>, fetched: seq<Server>, id: nat)
    ensures var b, c, f := Find(bookings, id), Find(Receive(bookings, Snapshot(fetched)), id), FindServer(fetched, id);
            && (c.None? <==> f.None?) && (f.None? <==> forall s | s in fetched :: s.id != id)
            && (f.Some? && b.Some? && b.value.updatedAt.Some? && b.value.updatedAt.value > f.value.updatedAt ==> c == b)
            && (f.Some? && (b.None? || b.value.updatedAt.None? || b.value.updatedAt.value <= f.value.updatedAt) ==>
                  IsAs(c.value, f.value))
  {
    ReceiveIsPerBooking(bookings, Snapshot(fetched), id);
    FoundServer(fetched, id);
  }

  /** The reply to a creation puts the booking on the list as the server has it and leaves the others. */
  lemma CreationExactly(bookings: seq<Booking>, s: Server, other: nat)
    ensures Find(Receive(bookings, Created(s)), s.id).Some? && IsAs(Find(Receive(bookings, Created(s)), s.id).value, s)
    ensures other != s.id ==> Find(Receive(bookings, Created(s)), other) == Find(bookings, other)
  {
    ReceiveIsPerBooking(bookings, Created(s), s.id);
    ReceiveIsPerBooking(bookings, Created(s), other);
  }

  // ---------- Where the three ways differ ----------

  /**
   * A newer event and the record of the same version show the same status and QR code exactly when
   * the event is one the app handles; a no-show, a draft or a pending approval reaches the screen
   * only through a record or a snapshot.
   */
  lemma EventAgreesWithRecord(b: Booking, s: Server)
    requires b.id == s.id && (b.updatedAt.Some? ==> b.updatedAt.value < s.updatedAt)
    ensures Shows(ApplyEvent(b, Some(s.status), Some(s.updatedAt)), s)
            <==> s.status !in {Draft, PendingOwnerApproval, NoShow}
    ensures s.status in {Draft, PendingOwnerApproval, NoShow} ==> ApplyEvent(b, Some(s.status), Some(s.updatedAt)) == b
    ensures Shows(ApplyRecord(b, s), s)
  {
  }

  /** A creation reply is not compared with the list, so it goes back exactly when it is older. */
  lemma CreationMayGoBack(bookings: seq<Booking>, s: Server)
    requires Find(bookings, s.id).Some? && Find(bookings, s.id).value.updatedAt.Some?
    ensures Time(Find(Receive(bookings, Created(s)), s.id)) < Time(Find(bookings, s.id))
            <==> s.updatedAt < Find(bookings, s.id).value.updatedAt.value
  {
    ReceiveIsPerBooking(bookings, Created(s), s.id);
  }

  // ---------- Two histories in which devices go wrong ----------

  /** A booking paid online: pending, then accepted and paid. */
  const UNPAID := Server(1, PendingOwnerApproval, 10, 100, Kept(PaymentPending, 500, 0))
  const PAID := Server(1, Accepted, 10, 200, Kept(FullyPaid, 500, 0))
  const HISTORY: History := map[1 := [UNPAID, PAID]]

  lemma HistoryIsStrict()
    ensures Strict(HISTORY) && Written(HISTORY, UNPAID) && Written(HISTORY, PAID) && Latest(HISTORY, 1) == PAID
  {
    assert HISTORY[1][0] == UNPAID && HISTORY[1][1] == PAID;
    assert Versions(HISTORY[1], 1);
  }

  lemma TwoMessages(m1: Message, m2: Message)
    requires Authentic(m1, HISTORY) && Authentic(m2, HISTORY)
    ensures var lists := [[], Receive([], m1), Receive(Receive([], m1), m2)]; IsRun(lists, [m1, m2], HISTORY)
  {
    HistoryIsStrict();
  }

  /**
   * Both devices listed the booking while it was unpaid. Then one polls the record of the paid version
   * and the other lists it: both show it confirmed, but only the second one shows it paid.
   */
  lemma RecordLeavesPaymentStale() returns (polled: seq<seq<Booking>>, listed: seq<seq<Booking>>)
    ensures IsRun(polled, [Snapshot([UNPAID]), Record(PAID)], HISTORY)
    ensures IsRun(listed, [Snapshot([UNPAID]), Snapshot([PAID])], HISTORY)
    ensures polled[2] == [Booking(1, Confirmed, true, 10, Some(200), Kept(AtLodge, 500, 0))]
    ensures listed[2] == [Booking(1, Confirmed, true, 10, Some(200), Kept(Paid, 500, 0))]
  {
    HistoryIsStrict();
    var before := [MapBooking(UNPAID)];
    assert before[..0] == [];
    polled := [[], Receive([], Snapshot([UNPAID])), Receive(Receive([], Snapshot([UNPAID])), Record(PAID))];
    listed := [[], Receive([], Snapshot([UNPAID])), Receive(Receive([], Snapshot([UNPAID])), Snapshot([PAID]))];
    TwoMessages(Snapshot([UNPAID]), Record(PAID));
    TwoMessages(Snapshot([UNPAID]), Snapshot([PAID]));
    assert Receive([], Snapshot([UNPAID])) == before;
    assert Find(before, 1) == Some(before[0]);
  }

  /** The list overtakes the reply to the booking's creation, which then puts it back to unpaid. */
  lemma CreationReplyOvertaken() returns (lists: seq<seq<Booking>>)
    ensures IsRun(lists, [Snapshot([PAID]), Created(UNPAID)], HISTORY)
    ensures lists[1] == [MapBooking(PAID)] && lists[2] == [MapBooking(UNPAID)]
    ensures Time(Find(lists[2], 1)) < Time(Find(lists[1], 1))
  {
    HistoryIsStrict();
    var first := [MapBooking(PAID)];
    assert first[..0] == [];
    lists := [[], Receive([], Snapshot([PAID])), Receive(Receive([], Snapshot([PAID])), Created(UNPAID))];
    TwoMessages(Snapshot([PAID]), Created(UNPAID));
    assert Receive([], Snapshot([PAID])) == first;
    assert Without(first, 1) == [];
    assert [MapBooking(UNPAID)] + [] == [MapBooking(UNPAID)];
  }
}
