/**
 * The pay-at-lodge cash receipt (backend/src/modules/bookings/cash-collection.ts): an owner may
 * confirm a collection any number of times, from any device, and only one confirmation counts.
 */
module CashCollection {
  import opened Wrappers

  datatype RowStatus = Pending | Paid | Failed | Refunded | Cancelled

  /** A PAY_AT_LODGE payment_collections row; `reference` marks the owner's own receipt. */
  datatype Row = Row(amount: int, status: RowStatus, provider: Option<string>, paidAt: Option<int>, reference: bool)

  /** The fields of a booking the collection looks at; amounts are in paise. */
  datatype Booking = Booking(deleted: bool, payAtLodge: bool, checkedIn: bool,
                             total: Option<int>, balance: Option<int>)

  /** A booking and its rows, oldest first. */
  datatype Account = Account(booking: Booking, rows: seq<Row>)

  datatype Error = NotFound | Forbidden | BadRequest | Conflict

  // ---------- Amounts as text ----------

  predicate Digits(s: string) {
    forall i | 0 <= i < |s| :: '0' <= s[i] <= '9'
  }

  function DigitsValue(s: string): nat
    requires Digits(s)
  {
    if s == "" then 0 else 10 * DigitsValue(s[..|s| - 1]) + (s[|s| - 1] as int - '0' as int)
  }

  function PointAt(s: string): (k: nat)
    ensures k <= |s| && (k < |s| ==> s[k] == '.') && forall i | 0 <= i < k :: s[i] != '.'
  {
    if s == "" || s[0] == '.' then 0 else 1 + PointAt(s[1..])
  }

  /** Digits, then optionally a point and one or two digits; the value in paise. */
  function ParseAmount(s: string): Option<nat> {
    var k := PointAt(s);
    var whole, rest := s[..k], s[k..];
    if whole == "" || !Digits(whole) then None
    else if rest == "" then Some(100 * DigitsValue(whole))
    else
      var cents := rest[1..];
      if !(1 <= |cents| <= 2) || !Digits(cents) then None
      else Some(100 * DigitsValue(whole) + (if |cents| == 1 then 10 else 1) * DigitsValue(cents))
  }

  function Digit(n: nat): char
    requires n < 10
  {
    ('0' as int + n) as char
  }

  function Decimal(n: nat): string {
    if n < 10 then [Digit(n)] else Decimal(n / 10) + [Digit(n % 10)]
  }

  /** Rupees with two decimals, as the app shows an amount. */
  function Render(paise: nat): string {
    Decimal(paise / 100) + "." + [Digit(paise % 100 / 10), Digit(paise % 10)]
  }

  lemma {:induction false} DecimalValue(n: nat)
    ensures Decimal(n) != "" && Digits(Decimal(n)) && DigitsValue(Decimal(n)) == n
  {
    if n >= 10 {
      DecimalValue(n / 10);
      var s := Decimal(n);
      assert s[..|s| - 1] == Decimal(n / 10);
    }
  }

  lemma {:induction false} PointAfter(s: string, rest: string)
    requires Digits(s)
    ensures PointAt(s + "." + rest) == |s|
  {
    if s == "" {
    } else {
      PointAfter(s[1..], rest);
      assert (s + "." + rest)[1..] == s[1..] + "." + rest;
    }
  }

  lemma TwoDigits(cents: string, n: nat)
    requires n < 100 && cents == [Digit(n / 10), Digit(n % 10)]
    ensures Digits(cents) && DigitsValue(cents) == n
  {
    var tens := cents[..1];
    assert tens == [Digit(n / 10)] && tens[..0] == "";
    assert DigitsValue(tens) == 10 * DigitsValue(tens[..0]) + n / 10;
  }

  /** An amount shown to the owner and sent back unchanged is read as the same amount. */
  lemma ParseRendered(paise: nat)
    ensures ParseAmount(Render(paise)) == Some(paise)
  {
    var whole, cents := Decimal(paise / 100), [Digit(paise % 100 / 10), Digit(paise % 10)];
    DecimalValue(paise / 100);
    PointAfter(whole, cents);
    TwoDigits(cents, paise % 100);
    var s := Render(paise);
    assert s == whole + "." + cents && s[..|whole|] == whole;
    assert s[|whole|..] == "." + cents && ("." + cents)[1..] == cents;
  }

  /** The text is digits, or digits, a point and one or two digits, and stands for the amount. */
  ghost predicate StandsFor(s: string, paise: nat) {
    exists whole, cents ::
      && whole != "" && Digits(whole) && Digits(cents) && |cents| <= 2
      && s == (if cents == "" then whole else whole + "." + cents)
      && paise == 100 * DigitsValue(whole) + Hundredths(cents)
  }

  /** What one or two digits after the point are worth. */
  function Hundredths(cents: string): nat
    requires Digits(cents) && |cents| <= 2
  {
    (if |cents| >= 1 then 10 * (cents[0] as int - 48) else 0) + (if |cents| == 2 then cents[1] as int - 48 else 0)
  }

  lemma CentsValue(cents: string)
    requires Digits(cents) && 1 <= |cents| <= 2
    ensures Hundredths(cents) == (if |cents| == 1 then 10 else 1) * DigitsValue(cents)
  {
    assert cents[..1][..0] == "" && cents[..1] == [cents[0]];
    assert DigitsValue(cents[..1]) == cents[0] as int - 48;
    if |cents| == 1 {
      assert cents == cents[..1];
    }
  }

  lemma {:induction false} NoPointIn(s: string)
    requires Digits(s)
    ensures PointAt(s) == |s|
  {
    if s != "" {
      NoPointIn(s[1..]);
    }
  }

  /** Exactly such texts are read, and as what they stand for. */
  lemma ParsedExactly(s: string, paise: nat)
    ensures ParseAmount(s) == Some(paise) <==> StandsFor(s, paise)
  {
    if ParseAmount(s) == Some(paise) {
      ParsedStandsFor(s, paise);
    }
    if StandsFor(s, paise) {
      StandsForParsed(s, paise);
    }
  }

  lemma ParsedStandsFor(s: string, paise: nat)
    requires ParseAmount(s) == Some(paise)
    ensures StandsFor(s, paise)
  {
    hide DigitsValue, PointAt;
    var k := PointAt(s);
    var whole, cents := s[..k], if k == |s| then "" else s[k + 1..];
    if k < |s| {
      assert s[k..][1..] == cents && s == whole + "." + cents;
      CentsValue(cents);
    } else {
      assert s == whole;
    }
    assert paise == 100 * DigitsValue(whole) + Hundredths(cents);
  }

  lemma WholeParsed(whole: string)
    requires whole != "" && Digits(whole)
    ensures ParseAmount(whole) == Some(100 * DigitsValue(whole))
  {
    hide DigitsValue, PointAt;
    NoPointIn(whole);
    assert whole[..|whole|] == whole && whole[|whole|..] == "";
  }

  lemma CentsParsed(whole: string, cents: string)
    requires whole != "" && Digits(whole) && Digits(cents) && 1 <= |cents| <= 2
    ensures ParseAmount(whole + "." + cents) == Some(100 * DigitsValue(whole) + Hundredths(cents))
  {
    hide DigitsValue, PointAt, Digits, Hundredths;
    var s := whole + "." + cents;
    PointAfter(whole, cents);
    CentsValue(cents);
    assert s[..|whole|] == whole;
    assert s[|whole|..] == "." + cents;
    assert ("." + cents)[1..] == cents;
  }

  lemma StandsForParsed(s: string, paise: nat)
    requires StandsFor(s, paise)
    ensures ParseAmount(s) == Some(paise)
  {
    hide DigitsValue, ParseAmount, Hundredths;
    var whole, cents :|
      && whole != "" && Digits(whole) && Digits(cents) && |cents| <= 2
      && s == (if cents == "" then whole else whole + "." + cents)
      && paise == 100 * DigitsValue(whole) + Hundredths(cents);
    if cents == "" {
      WholeParsed(whole);
      assert Hundredths("") == 0 by { NoCents(); }
    } else {
      CentsParsed(whole, cents);
    }
  }

  lemma NoCents()
    ensures Hundredths("") == 0
  {
  }

  // ---------- Sums over the rows ----------

  function PaidSum(rows: seq<Row>): int {
    if rows == [] then 0
    else PaidSum(rows[..|rows| - 1]) + (if rows[|rows| - 1].status == Paid then rows[|rows| - 1].amount else 0)
  }

  /** The latest date among the paid rows, if any has one. */
  function LatestPaid(rows: seq<Row>): Option<int> {
    if rows == [] then None
    else
      var before, last := LatestPaid(rows[..|rows| - 1]), rows[|rows| - 1];
      if last.status != Paid || last.paidAt.None? then before
      else if before.Some? && before.value > last.paidAt.value then before
      else last.paidAt
  }

  function AmountOr(a: Option<int>, default: int): int {
    if a.Some? then a.value else default
  }

  // ---------- One attempt ----------

  /** The account after an attempt, and whether it recorded the receipt. */
  function Attempt(a: Account, access: bool, expected: string, now: int): (Account, Result<bool, Error>) {
    var total := AmountOr(a.booking.total, 0);
    var due := if a.booking.balance.Some? then a.booking.balance.value else total;
    if a.booking.deleted then (a, Err(NotFound))
    else if !access then (a, Err(Forbidden))
    else if !a.booking.payAtLodge || !a.booking.checkedIn then (a, Err(BadRequest))
    else if total <= 0 then (a, Err(BadRequest))
    else if PaidSum(a.rows) >= total then (a, Ok(false))
    else if PaidSum(a.rows) > 0 || Settled(a.rows) || |a.rows| > 1 then (a, Err(Conflict))
    else if ParseAmount(expected) != Some(due) || due != total then (a, Err(Conflict))
    else
      var receipt := if a.rows != []
                     then a.rows[0].(status := Paid, amount := due, paidAt := Some(now), reference := true)
                     else Row(due, Paid, None, Some(now), true);
      (Account(a.booking.(balance := Some(0)), [receipt]), Ok(true))
  }

  /** Some row was already decided, or belongs to a provider. */
  predicate Settled(rows: seq<Row>) {
    exists i | 0 <= i < |rows| :: rows[i].status != Pending || rows[i].provider.Some?
  }

  /** What the owner's screen shows: when the cash was collected, if it was. */
  function CollectedAt(a: Account): Option<int> {
    if a.booking.payAtLodge && AmountOr(a.booking.total, 0) > 0
       && PaidSum(a.rows) >= AmountOr(a.booking.total, 0) then LatestPaid(a.rows)
    else None
  }

  lemma {:induction false} NothingPaid(rows: seq<Row>)
    requires forall i | 0 <= i < |rows| :: rows[i].status == Pending
    ensures PaidSum(rows) == 0
  {
    if rows != [] {
      NothingPaid(rows[..|rows| - 1]);
    }
  }

  /**
   * An attempt that reports a change raises the paid sum from nothing to exactly the total, leaves
   * nothing due, and is what the owner confirmed; any other attempt changes nothing.
   */
  lemma AttemptCollectsOnce(a: Account, access: bool, expected: string, now: int)
    ensures var (b, r) := Attempt(a, access, expected, now);
            var total := AmountOr(a.booking.total, 0);
            && (r == Ok(true) ==>
                  && PaidSum(a.rows) == 0 && PaidSum(b.rows) == total && total > 0
                  && b.booking == a.booking.(balance := Some(0))
                  && ParseAmount(expected) == Some(total)
                  && |b.rows| == 1 && b.rows[0].status == Paid && b.rows[0].reference
                  && (a.rows != [] ==> |a.rows| == 1 && a.rows[0].status == Pending)
                  && CollectedAt(b) == Some(now))
            && (r != Ok(true) ==> b == a)
  {
    var (b, r) := Attempt(a, access, expected, now);
    if r == Ok(true) {
      NothingPaid(a.rows);
      assert b.rows == [b.rows[0]];
      assert b.rows[..0] == [];
      assert PaidSum(b.rows) == PaidSum(b.rows[..0]) + b.rows[0].amount;
      assert LatestPaid(b.rows[..0]) == None;
    }
  }

  /** Nothing has happened to the booking's cash: no row, or one that still waits and has no provider. */
  predicate Untouched(rows: seq<Row>) {
    rows == [] || (|rows| == 1 && rows[0].status == Pending && rows[0].provider.None?)
  }

  /**
   * The receipt is recorded exactly when the caller may, the guest is checked in to pay at the lodge,
   * nothing has touched the cash yet, the whole total is due, and the amount confirmed is the total.
   */
  lemma RecordedExactly(a: Account, access: bool, expected: string, now: int)
    ensures var total := AmountOr(a.booking.total, 0);
            Attempt(a, access, expected, now).1 == Ok(true) <==>
              && !a.booking.deleted && access && a.booking.payAtLodge && a.booking.checkedIn && total > 0
              && Untouched(a.rows) && AmountOr(a.booking.balance, total) == total
              && ParseAmount(expected) == Some(total)
  {
    hide ParseAmount;
    if Untouched(a.rows) {
      NothingPaid(a.rows);
      assert !Settled(a.rows);
    } else if a.rows != [] && !Settled(a.rows) {
      assert a.rows[0].status == Pending;
    }
  }

  /** What is paid is the sum over the paid rows, wherever the list is cut. */
  lemma {:induction false} PaidAddsUp(a: seq<Row>, b: seq<Row>, row: Row)
    ensures PaidSum(a + b) == PaidSum(a) + PaidSum(b)
    ensures PaidSum([row]) == if row.status == Paid then row.amount else 0
  {
    assert [row][..0] == [] && PaidSum([row][..0]) == 0;
    if b == [] {
      assert a + b == a;
    } else {
      PaidAddsUp(a, b[..|b| - 1], row);
      assert (a + b)[..|a + b| - 1] == a + b[..|b| - 1];
    }
  }

  /** The date shown is that of a paid row, none of which has a later one. */
  lemma {:induction false} LatestExactly(rows: seq<Row>)
    ensures LatestPaid(rows).Some? ==>
              && (exists i :: 0 <= i < |rows| && rows[i].status == Paid && rows[i].paidAt == LatestPaid(rows))
              && forall i | 0 <= i < |rows| && rows[i].status == Paid && rows[i].paidAt.Some? ::
                   rows[i].paidAt.value <= LatestPaid(rows).value
    ensures LatestPaid(rows).None? ==> forall i | 0 <= i < |rows| && rows[i].status == Paid :: rows[i].paidAt.None?
  {
    if rows != [] {
      LatestExactly(rows[..|rows| - 1]);
    }
  }

  /** What the other answers mean: when it is already collected, and why an attempt is refused. */
  lemma AnsweredExactly(a: Account, access: bool, expected: string, now: int)
    ensures var r, total := Attempt(a, access, expected, now).1, AmountOr(a.booking.total, 0);
            var open := !a.booking.deleted && access && a.booking.payAtLodge && a.booking.checkedIn && total > 0;
            && (r == Ok(false) <==> open && PaidSum(a.rows) >= total)
            && (r == Err(NotFound) <==> a.booking.deleted)
            && (r == Err(Forbidden) <==> !a.booking.deleted && !access)
            && (r == Err(BadRequest) <==> !a.booking.deleted && access && !open)
            && (r == Err(Conflict) <==>
                  && open && PaidSum(a.rows) < total
                  && !(Untouched(a.rows) && AmountOr(a.booking.balance, total) == total
                       && ParseAmount(expected) == Some(total)))
  {
    hide ParseAmount;
    RecordedExactly(a, access, expected, now);
    if Untouched(a.rows) {
      NothingPaid(a.rows);
    }
  }

  /** The receipt that is written: paid in full, now, by the owner, and by no provider. */
  lemma ReceiptExactly(a: Account, access: bool, expected: string, now: int)
    requires Attempt(a, access, expected, now).1 == Ok(true)
    ensures var b := Attempt(a, access, expected, now).0;
            && b.rows == [Row(AmountOr(a.booking.total, 0), Paid, None, Some(now), true)]
            && b.booking.balance == Some(0) && b.booking.total == a.booking.total
            && b.booking.payAtLodge && b.booking.checkedIn && !b.booking.deleted
  {
    hide ParseAmount;
    RecordedExactly(a, access, expected, now);
  }

  ghost predicate Dated(rows: seq<Row>) {
    forall i | 0 <= i < |rows| && rows[i].status == Paid :: rows[i].paidAt.Some?
  }

  lemma {:induction false} PaidIsDated(rows: seq<Row>)
    requires Dated(rows)
    ensures PaidSum(rows) != 0 ==> LatestPaid(rows).Some?
  {
    if rows != [] {
      PaidIsDated(rows[..|rows| - 1]);
    }
  }

  /**
   * For a checked-in pay-at-lodge booking whose receipts are dated, the screen says "collected"
   * exactly when one more attempt, for whatever amount, would succeed without doing anything.
   */
  lemma ShownMeansDone(a: Account, expected: string, now: int)
    requires !a.booking.deleted && a.booking.payAtLodge && a.booking.checkedIn && Dated(a.rows)
    ensures CollectedAt(a).Some? <==> Attempt(a, true, expected, now) == (a, Ok(false))
  {
    PaidIsDated(a.rows);
  }

  // ---------- Any run ----------

  datatype Event =
    | Collect(access: bool, expected: string, at: int)
    | Change(account: Account)  // anything else that happens to the booking or its rows

  /**
   * What other code may do: change the booking at will, add rows, change amounts, and settle rows
   * (pay, fail, refund, cancel); rows are never removed and a settled row never turns pending.
   */
  ghost predicate ChangeOk(a: Account, b: Account) {
    && |b.rows| >= |a.rows|
    && forall i | 0 <= i < |a.rows| :: a.rows[i].status != Pending ==> b.rows[i].status != Pending
  }

  ghost predicate Step(a: Account, e: Event, b: Account) {
    match e
    case Collect(access, expected, at) => b == Attempt(a, access, expected, at).0
    case Change(account) => b == account && ChangeOk(a, b)
  }

  predicate Changed(a: Account, e: Event) {
    e.Collect? && Attempt(a, e.access, e.expected, e.at).1 == Ok(true)
  }

  ghost predicate IsRun(states: seq<Account>, events: seq<Event>) {
    |states| == |events| + 1 && forall i | 0 <= i < |events| :: Step(states[i], events[i], states[i + 1])
  }

  ghost predicate HasSettledRow(a: Account) {
    exists i :: 0 <= i < |a.rows| && a.rows[i].status != Pending
  }

  lemma {:induction false} SettledStays(states: seq<Account>, events: seq<Event>, i: nat, j: nat)
    requires IsRun(states, events) && i <= j < |states| && HasSettledRow(states[i])
    ensures HasSettledRow(states[j])
    decreases j - i
  {
    if i < j {
      assert Step(states[i], events[i], states[i + 1]);
      var k :| 0 <= k < |states[i].rows| && states[i].rows[k].status != Pending;
      if events[i].Collect? {
        AttemptCollectsOnce(states[i], events[i].access, events[i].expected, events[i].at);
        assert states[i + 1].rows[k].status != Pending;
      } else {
        assert states[i + 1].rows[k].status != Pending;
      }
      SettledStays(states, events, i + 1, j);
    }
  }

  /**
   * Over any run, from any rows, with any amounts offered and anything else happening in between,
   * at most one attempt on a booking reports a change.
   */
  lemma CollectedAtMostOnce(states: seq<Account>, events: seq<Event>, i: nat, j: nat)
    requires IsRun(states, events) && i < j < |events|
    requires Changed(states[i], events[i])
    ensures !Changed(states[j], events[j])
  {
    assert Step(states[i], events[i], states[i + 1]);
    AttemptCollectsOnce(states[i], events[i].access, events[i].expected, events[i].at);
    assert states[i + 1].rows[0].status != Pending;
    SettledStays(states, events, i + 1, j);
  }

  /** With no other change to the account, every attempt after the collection is a harmless repeat. */
  lemma RetryIsHarmless(a: Account, access: bool, expected: string, now: int, retry: string, later: int)
    requires Attempt(a, access, expected, now).1 == Ok(true)
    ensures Attempt(Attempt(a, access, expected, now).0, true, retry, later)
            == (Attempt(a, access, expected, now).0, Ok(false))
  {
    AttemptCollectsOnce(a, access, expected, now);
  }

  // ---------- The transaction as it runs ----------

  class CollectionDesk {
    var booking: Booking
    var rows: seq<Row>

    constructor (account: Account)
      ensures View() == account
    {
      booking, rows := account.booking, account.rows;
    }

    function View(): Account
      reads this
    {
      Account(booking, rows)
    }

    method RecordCashCollection(access: bool, expected: string, now: int) returns (r: Result<bool, Error>)
      modifies this
      ensures (View(), r) == Attempt(old(View()), access, expected, now)
      ensures r == Ok(true) ==> PaidSum(old(rows)) == 0 && PaidSum(rows) == AmountOr(booking.total, 0)
      ensures r != Ok(true) ==> View() == old(View())
    {
      AttemptCollectsOnce(View(), access, expected, now);
      if booking.deleted {
        return Err(NotFound);
      }
      if !access {
        return Err(Forbidden);
      }
      if !booking.payAtLodge || !booking.checkedIn {
        return Err(BadRequest);
      }
      var total := if booking.total.Some? then booking.total.value else 0;
      if total <= 0 {
        return Err(BadRequest);
      }
      var paid := PaidSum(rows);
      if paid >= total {
        return Ok(false);
      }
      if paid > 0 || (exists i | 0 <= i < |rows| :: rows[i].status != Pending || rows[i].provider.Some?) || |rows| > 1 {
        return Err(Conflict);
      }
      var due := if booking.balance.Some? then booking.balance.value
                 else if booking.total.Some? then booking.total.value else 0;
      var offered := ParseAmount(expected);
      if offered != Some(due) || due != total {
        return Err(Conflict);
      }
      if rows != [] {
        rows := [rows[0].(status := Paid, amount := due, paidAt := Some(now), reference := true)];
      } else {
        rows := [Row(due, Paid, None, Some(now), true)];
      }
      booking := booking.(balance := Some(0));
      r := Ok(true);
    }
  }
}
