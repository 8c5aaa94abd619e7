/**
 * The price of a stay (backend/src/modules/bookings/booking-pricing.ts): a closed form over the
 * window, proved to be the sum of the prices of its nights. Money is in paise, dates are day
 * numbers.
 */
module Pricing {
  import opened Wrappers

  datatype PriceError = DatesInvalid | FestivalDatesInvalid | InvalidRoomPrice

  /** A stored festival date: absent, null, the empty string, a real date, or anything else. */
  datatype Setting = Missing | Null | Empty | Day(day: int) | Malformed

  /** The inclusive days on which the festival price applies. */
  datatype Window = NoFestival | Festival(first: int, last: int)

  /** What the price of a night depends on. */
  datatype Rates = Rates(base: int, festival: int, window: Window, overrides: map<int, int>)

  predicate Configured(s: Setting) {
    s != Missing && s != Null && s != Empty
  }

  /** No window without a festival price or when both dates are blank; otherwise two ordered dates. */
  function FestivalWindow(festivalPrice: Option<int>, start: Setting, end: Setting): Result<Window, PriceError> {
    if festivalPrice.None? || (!Configured(start) && !Configured(end)) then Ok(NoFestival)
    else if !start.Day? || !end.Day? || start.day > end.day then Err(FestivalDatesInvalid)
    else Ok(Festival(start.day, end.day))
  }

  // ---------- The price, night by night ----------

  predicate IsFestival(rates: Rates, night: int) {
    rates.window.Festival? && rates.window.first <= night <= rates.window.last
  }

  function RegularPrice(rates: Rates, night: int): int {
    if IsFestival(rates, night) then rates.festival else rates.base
  }

  /** An override beats the festival price, which beats the base price. */
  function NightPrice(rates: Rates, night: int): int {
    if night in rates.overrides then rates.overrides[night] else RegularPrice(rates, night)
  }

  function StayTotal(rates: Rates, checkIn: int, checkOut: int): int
    decreases checkOut - checkIn
  {
    if checkIn >= checkOut then 0
    else StayTotal(rates, checkIn, checkOut - 1) + NightPrice(rates, checkOut - 1)
  }

  ghost predicate EveryNightPriced(rates: Rates, checkIn: int, checkOut: int) {
    forall night | checkIn <= night < checkOut :: NightPrice(rates, night) >= 0
  }

  function RatesFor(base: int, festivalPrice: Option<int>, window: Window, overrides: map<int, int>): Rates {
    Rates(base, if festivalPrice.Some? then festivalPrice.value else 0, window, overrides)
  }

  /** What a caller is promised: a total if every night has a price, an error otherwise. */
  ghost function StayPrice(base: int, festivalPrice: Option<int>, start: Setting, end: Setting,
                           overrides: map<int, int>, checkIn: int, checkOut: int): Result<int, PriceError>
  {
    if checkIn >= checkOut then Err(DatesInvalid)
    else match FestivalWindow(festivalPrice, start, end)
    case Err(e) => Err(e)
    case Ok(window) =>
      Priced(RatesFor(base, festivalPrice, window, overrides), checkIn, checkOut)
  }

  ghost function Priced(rates: Rates, checkIn: int, checkOut: int): Result<int, PriceError> {
    if EveryNightPriced(rates, checkIn, checkOut) then Ok(StayTotal(rates, checkIn, checkOut))
    else Err(InvalidRoomPrice)
  }

  // ---------- The closed form ----------

  function Min(a: int, b: int): int { if a <= b then a else b }

  function Max(a: int, b: int): int { if a >= b then a else b }

  /** The festival nights of a stay, as the code counts them. */
  function FestivalNights(window: Window, checkIn: int, checkOut: int): int {
    match window
    case NoFestival => 0
    case Festival(first, last) => Max(0, Min(checkOut, last + 1) - Max(checkIn, first))
  }

  function NightsWhere(rates: Rates, checkIn: int, checkOut: int, festival: bool): set<int> {
    set n | checkIn <= n < checkOut && IsFestival(rates, n) == festival
  }

  /** The min/max expression counts exactly the nights that fall in the festival. */
  lemma {:induction false} FestivalNightsCount(rates: Rates, checkIn: int, checkOut: int)
    requires checkIn <= checkOut
    ensures |NightsWhere(rates, checkIn, checkOut, true)| == FestivalNights(rates.window, checkIn, checkOut)
    ensures |NightsWhere(rates, checkIn, checkOut, false)|
            == checkOut - checkIn - FestivalNights(rates.window, checkIn, checkOut)
    decreases checkOut - checkIn
  {
    if checkIn == checkOut {
      assert NightsWhere(rates, checkIn, checkOut, true) == {};
      assert NightsWhere(rates, checkIn, checkOut, false) == {};
    } else {
      var night := checkOut - 1;
      FestivalNightsCount(rates, checkIn, night);
      var kind := IsFestival(rates, night);
      assert NightsWhere(rates, checkIn, checkOut, kind) == NightsWhere(rates, checkIn, night, kind) + {night};
      assert NightsWhere(rates, checkIn, checkOut, !kind) == NightsWhere(rates, checkIn, night, !kind);
    }
  }

  /** The total when only the overrides of some nights have been applied. */
  function TotalWith(rates: Rates, applied: set<int>, checkIn: int, checkOut: int): int
    decreases checkOut - checkIn
  {
    if checkIn >= checkOut then 0
    else
      var night := checkOut - 1;
      TotalWith(rates, applied, checkIn, night)
      + (if night in applied && night in rates.overrides then rates.overrides[night] else RegularPrice(rates, night))
  }

  function AtRates(base: int, nights: int, festival: int, festivalNights: int): int {
    base * nights + festival * festivalNights
  }

  /** With no override applied, base and festival rate times their nights. */
  lemma {:induction false} RegularTotal(rates: Rates, checkIn: int, checkOut: int)
    requires checkIn <= checkOut
    ensures var f := FestivalNights(rates.window, checkIn, checkOut);
            TotalWith(rates, {}, checkIn, checkOut) == AtRates(rates.base, checkOut - checkIn - f, rates.festival, f)
    decreases checkOut - checkIn
  {
    if checkIn < checkOut {
      var night := checkOut - 1;
      RegularTotal(rates, checkIn, night);
      var f := FestivalNights(rates.window, checkIn, night);
      var o := night - checkIn - f;
      if IsFestival(rates, night) {
        assert FestivalNights(rates.window, checkIn, checkOut) == f + 1;
        assert rates.festival * (f + 1) == rates.festival * f + rates.festival;
      } else {
        assert FestivalNights(rates.window, checkIn, checkOut) == f;
        assert rates.base * (o + 1) == rates.base * o + rates.base;
      }
    }
  }

  /** Applying one more override corrects the total by its distance from the regular price. */
  lemma {:induction false} ApplyOverride(rates: Rates, applied: set<int>, night: int, checkIn: int, checkOut: int)
    requires night !in applied && night in rates.overrides
    ensures TotalWith(rates, applied + {night}, checkIn, checkOut)
            == TotalWith(rates, applied, checkIn, checkOut)
               + (if checkIn <= night < checkOut then rates.overrides[night] - RegularPrice(rates, night) else 0)
    decreases checkOut - checkIn
  {
    if checkIn < checkOut {
      ApplyOverride(rates, applied, night, checkIn, checkOut - 1);
    }
  }

  /** With every override of the window applied, the sum over the nights. */
  lemma {:induction false} AllApplied(rates: Rates, applied: set<int>, checkIn: int, checkOut: int)
    requires forall n | checkIn <= n < checkOut && n in rates.overrides :: n in applied
    ensures TotalWith(rates, applied, checkIn, checkOut) == StayTotal(rates, checkIn, checkOut)
    decreases checkOut - checkIn
  {
    if checkIn < checkOut {
      AllApplied(rates, applied, checkIn, checkOut - 1);
    }
  }

  /** A total of nights that all have a price is not negative, so the last test never decides alone. */
  lemma {:induction false} PricedTotal(rates: Rates, checkIn: int, checkOut: int)
    requires EveryNightPriced(rates, checkIn, checkOut)
    ensures StayTotal(rates, checkIn, checkOut) >= 0
    decreases checkOut - checkIn
  {
    if checkIn < checkOut {
      assert NightPrice(rates, checkOut - 1) >= 0;
      PricedTotal(rates, checkIn, checkOut - 1);
    }
  }

  /** The nights of one kind outnumber the overrides among them exactly when one has no override. */
  lemma UncoveredNight(rates: Rates, checkIn: int, checkOut: int, festival: bool, overridden: set<int>)
    requires overridden <= NightsWhere(rates, checkIn, checkOut, festival)
    ensures |NightsWhere(rates, checkIn, checkOut, festival)| > |overridden|
            <==> exists n | checkIn <= n < checkOut :: IsFestival(rates, n) == festival && n !in overridden
  {
    var all := NightsWhere(rates, checkIn, checkOut, festival);
    assert all == overridden + (all - overridden);
    if n :| n in all - overridden {
      assert checkIn <= n < checkOut && IsFestival(rates, n) == festival && n !in overridden;
    } else {
      assert all - overridden == {};
    }
  }

  /** The overrides of one kind met so far in the loop. */
  function Overridden(rates: Rates, done: set<int>, festival: bool): set<int> {
    set n | n in done && IsFestival(rates, n) == festival
  }

  /** The three tests after the loop reject exactly the stays with a night below zero. */
  lemma FinalTests(rates: Rates, done: set<int>, checkIn: int, checkOut: int, total: int)
    requires checkIn <= checkOut
    requires forall n :: n in done <==> checkIn <= n < checkOut && n in rates.overrides
    requires forall n | n in done :: rates.overrides[n] >= 0
    requires total == TotalWith(rates, done, checkIn, checkOut)
    ensures var f := FestivalNights(rates.window, checkIn, checkOut);
            Priced(rates, checkIn, checkOut) ==
              if || (rates.base < 0 && checkOut - checkIn - f > |Overridden(rates, done, false)|)
                 || (rates.festival < 0 && f > |Overridden(rates, done, true)|)
                 || total < 0
              then Err(InvalidRoomPrice) else Ok(total)
  {
    AllApplied(rates, done, checkIn, checkOut);
    FestivalNightsCount(rates, checkIn, checkOut);
    UncoveredNight(rates, checkIn, checkOut, false, Overridden(rates, done, false));
    UncoveredNight(rates, checkIn, checkOut, true, Overridden(rates, done, true));
    if EveryNightPriced(rates, checkIn, checkOut) {
      PricedTotal(rates, checkIn, checkOut);
    }
    forall n | checkIn <= n < checkOut && n !in done
      ensures NightPrice(rates, n) == if IsFestival(rates, n) then rates.festival else rates.base
    {
    }
  }

  /** One iteration of the loop: the total is corrected and one of the counters grows. */
  lemma OverrideStep(rates: Rates, done: set<int>, date: int, isFestival: bool, checkIn: int, checkOut: int)
    requires date !in done && date in rates.overrides && checkIn <= date < checkOut
    requires isFestival == (rates.window.Festival? && rates.window.first <= date <= rates.window.last)
    ensures TotalWith(rates, done + {date}, checkIn, checkOut)
            == TotalWith(rates, done, checkIn, checkOut)
               + (rates.overrides[date] - (if isFestival then rates.festival else rates.base))
    ensures |Overridden(rates, done + {date}, false)|
            == |Overridden(rates, done, false)| + (if isFestival then 0 else 1)
    ensures |Overridden(rates, done + {date}, true)| == |Overridden(rates, done, true)| + (if isFestival then 1 else 0)
  {
    ApplyOverride(rates, done, date, checkIn, checkOut);
    assert Overridden(rates, done + {date}, isFestival) == Overridden(rates, done, isFestival) + {date};
    assert Overridden(rates, done + {date}, !isFestival) == Overridden(rates, done, !isFestival);
  }

  lemma NegativeOverride(rates: Rates, date: int, checkIn: int, checkOut: int)
    requires date in rates.overrides && checkIn <= date < checkOut && rates.overrides[date] < 0
    ensures Priced(rates, checkIn, checkOut) == Err(InvalidRoomPrice)
  {
    assert NightPrice(rates, date) < 0;
  }

  /** The overrides of the stay that the loop has been through. */
  function Done(rates: Rates, checkIn: int, checkOut: int, left: set<int>): set<int> {
    set d | d in rates.overrides && checkIn <= d < checkOut && d !in left
  }

  /** The loop's variables when the overrides on the dates in `left` are still to come. */
  ghost predicate Corrected(rates: Rates, checkIn: int, checkOut: int, left: set<int>,
                            total: int, ordinary: int, festival: int)
  {
    var done := Done(rates, checkIn, checkOut, left);
    && total == TotalWith(rates, done, checkIn, checkOut)
    && ordinary == |Overridden(rates, done, false)| && festival == |Overridden(rates, done, true)|
    && forall d | d in done :: rates.overrides[d] >= 0
  }

  /** Before the loop, the closed form is the total with no override applied. */
  lemma LoopStarts(rates: Rates, checkIn: int, checkOut: int, left: set<int>)
    requires checkIn <= checkOut
    requires forall d | d in rates.overrides && checkIn <= d < checkOut :: d in left
    ensures var f := FestivalNights(rates.window, checkIn, checkOut);
            Corrected(rates, checkIn, checkOut, left,
                      AtRates(rates.base, checkOut - checkIn - f, rates.festival, f), 0, 0)
  {
    RegularTotal(rates, checkIn, checkOut);
    assert Done(rates, checkIn, checkOut, left) == {};
    assert Overridden(rates, {}, false) == {} && Overridden(rates, {}, true) == {};
  }

  lemma LoopGoesOn(rates: Rates, checkIn: int, checkOut: int, left: set<int>, total: int, ordinary: int, festival: int,
                   date: int, isFestival: bool)
    requires Corrected(rates, checkIn, checkOut, left, total, ordinary, festival)
    requires date in left && date in rates.overrides && checkIn <= date < checkOut && rates.overrides[date] >= 0
    requires isFestival == (rates.window.Festival? && rates.window.first <= date <= rates.window.last)
    ensures Corrected(rates, checkIn, checkOut, left - {date},
                      total + (rates.overrides[date] - (if isFestival then rates.festival else rates.base)),
                      if isFestival then ordinary else ordinary + 1, if isFestival then festival + 1 else festival)
  {
    hide TotalWith, Overridden;
    var done := Done(rates, checkIn, checkOut, left);
    OverrideStep(rates, done, date, isFestival, checkIn, checkOut);
    assert Done(rates, checkIn, checkOut, left - {date}) == done + {date};
  }

  lemma LoopEnds(rates: Rates, checkIn: int, checkOut: int, total: int, ordinary: int, festival: int)
    requires checkIn <= checkOut && Corrected(rates, checkIn, checkOut, {}, total, ordinary, festival)
    ensures var f := FestivalNights(rates.window, checkIn, checkOut);
            Priced(rates, checkIn, checkOut) ==
              if || (rates.base < 0 && checkOut - checkIn - f > ordinary)
                 || (rates.festival < 0 && f > festival)
                 || total < 0
              then Err(InvalidRoomPrice) else Ok(total)
  {
    hide TotalWith, Overridden, Priced, FestivalNights;
    FinalTests(rates, Done(rates, checkIn, checkOut, {}), checkIn, checkOut, total);
  }

  lemma PriceInWindow(base: int, festivalPrice: Option<int>, start: Setting, end: Setting, overrides: map<int, int>,
                      checkIn: int, checkOut: int)
    requires checkIn < checkOut
    ensures StayPrice(base, festivalPrice, start, end, overrides, checkIn, checkOut)
            == match FestivalWindow(festivalPrice, start, end)
               case Err(e) => Err(e)
               case Ok(window) => Priced(RatesFor(base, festivalPrice, window, overrides), checkIn, checkOut)
  {
  }

  lemma NoNights(base: int, festivalPrice: Option<int>, start: Setting, end: Setting, overrides: map<int, int>,
                 checkIn: int, checkOut: int)
    requires checkIn >= checkOut
    ensures StayPrice(base, festivalPrice, start, end, overrides, checkIn, checkOut) == Err(DatesInvalid)
  {
  }

  // ---------- The algorithm ----------

  /** `table` is every override row of the room type; a date has at most one. */
  method CalculateStayPrice(base: int, checkIn: int, checkOut: int, festivalPrice: Option<int>,
                            start: Setting, end: Setting, table: map<int, int>)
    returns (r: Result<int, PriceError>)
    ensures r == StayPrice(base, festivalPrice, start, end, table, checkIn, checkOut)
  {
    hide Priced, StayPrice, Corrected, AtRates, Min, Max;
    var nights := checkOut - checkIn;
    if nights < 1 {
      NoNights(base, festivalPrice, start, end, table, checkIn, checkOut);
      return Err(DatesInvalid);
    }
    PriceInWindow(base, festivalPrice, start, end, table, checkIn, checkOut);
    var prices := map d | d in table && checkIn <= d < checkOut :: table[d];
    // festivalStart and festivalEnd, which are set together or not at all
    var window := NoFestival;
    if festivalPrice.Some? && (Configured(start) || Configured(end)) {
      if !start.Day? || !end.Day? || start.day > end.day {
        return Err(FestivalDatesInvalid);
      }
      window := Festival(start.day, end.day);
    }
    var festivalNights := if window.Festival? then
      Max(0, Min(checkOut, window.last + 1) - Max(checkIn, window.first)) else 0;
    var festivalRate := if festivalPrice.Some? then festivalPrice.value else 0;
    var total := AtRates(base, nights - festivalNights, festivalRate, festivalNights);
    var ordinaryOverrides, festivalOverrides := 0, 0;

    ghost var rates := RatesFor(base, festivalPrice, window, table);
    assert FestivalWindow(festivalPrice, start, end) == Ok(window);
    assert festivalNights == FestivalNights(window, checkIn, checkOut);
    assert rates.base == base && rates.festival == festivalRate && rates.window == window && rates.overrides == table;
    hide FestivalWindow, FestivalNights, Configured, RatesFor;
    var dates := prices.Keys;
    LoopStarts(rates, checkIn, checkOut, dates);
    while dates != {}
      invariant dates <= prices.Keys
      invariant Corrected(rates, checkIn, checkOut, dates, total, ordinaryOverrides, festivalOverrides)
    {
      var date :| date in dates;
      var price := prices[date];
      var isFestival := window.Festival? && window.first <= date <= window.last;
      if price < 0 {
        NegativeOverride(rates, date, checkIn, checkOut);
        return Err(InvalidRoomPrice);
      }
      LoopGoesOn(rates, checkIn, checkOut, dates, total, ordinaryOverrides, festivalOverrides, date, isFestival);
      total := total + (price - (if isFestival then festivalRate else base));
      if isFestival {
        festivalOverrides := festivalOverrides + 1;
      } else {
        ordinaryOverrides := ordinaryOverrides + 1;
      }
      dates := dates - {date};
    }
    LoopEnds(rates, checkIn, checkOut, total, ordinaryOverrides, festivalOverrides);
    if || (base < 0 && nights - festivalNights > ordinaryOverrides)
       || (festivalRate < 0 && festivalNights > festivalOverrides)
       || total < 0
    {
      return Err(InvalidRoomPrice);
    }
    return Ok(total);
  }

  // ---------- What the price promises ----------

  lemma {:induction false} TotalSplits(rates: Rates, a: int, b: int, c: int)
    requires a <= b <= c
    ensures StayTotal(rates, a, c) == StayTotal(rates, a, b) + StayTotal(rates, b, c)
    decreases c - b
  {
    if b < c {
      TotalSplits(rates, a, b, c - 1);
    }
  }

  /**
   * A stay cut in two is accepted exactly when both parts are, and then costs their sum; the
   * festival settings are judged the same way for all three.
   */
  lemma PriceIsAdditive(base: int, festivalPrice: Option<int>, start: Setting, end: Setting,
                        overrides: map<int, int>, a: int, b: int, c: int)
    requires a < b < c
    ensures var whole := StayPrice(base, festivalPrice, start, end, overrides, a, c);
            var first := StayPrice(base, festivalPrice, start, end, overrides, a, b);
            var rest := StayPrice(base, festivalPrice, start, end, overrides, b, c);
            && (whole.Ok? <==> first.Ok? && rest.Ok?)
            && (whole.Ok? ==> whole.value == first.value + rest.value)
  {
    var window := FestivalWindow(festivalPrice, start, end);
    if window.Ok? {
      var rates := RatesFor(base, festivalPrice, window.value, overrides);
      TotalSplits(rates, a, b, c);
      assert EveryNightPriced(rates, a, c) <==> EveryNightPriced(rates, a, b) && EveryNightPriced(rates, b, c);
    }
  }

  predicate Blank(s: Setting) {
    s.Missing? || s.Null? || s.Empty?
  }

  /** Both settings are days, in order. */
  predicate Ordered(start: Setting, end: Setting) {
    start.Day? && end.Day? && start.day <= end.day
  }

  /** A festival price with a window that is not two ordered days, nor left blank. */
  predicate BadWindow(festivalPrice: Option<int>, start: Setting, end: Setting) {
    festivalPrice.Some? && !(Blank(start) && Blank(end)) && !Ordered(start, end)
  }

  /** What one night costs: its override; else the festival price from the first day to the last; else base. */
  function PriceOf(base: int, festivalPrice: Option<int>, start: Setting, end: Setting, overrides: map<int, int>,
                   night: int): int
  {
    if night in overrides then overrides[night]
    else if festivalPrice.Some? && Ordered(start, end) && start.day <= night <= end.day then festivalPrice.value
    else base
  }

  /** A stay of one night costs what that night costs, if that is not negative. */
  lemma OneNightCosts(base: int, festivalPrice: Option<int>, start: Setting, end: Setting, overrides: map<int, int>,
                      night: int)
    ensures StayPrice(base, festivalPrice, start, end, overrides, night, night + 1)
            == if BadWindow(festivalPrice, start, end) then Err(FestivalDatesInvalid)
               else if PriceOf(base, festivalPrice, start, end, overrides, night) < 0 then Err(InvalidRoomPrice)
               else Ok(PriceOf(base, festivalPrice, start, end, overrides, night))
  {
    var window := FestivalWindow(festivalPrice, start, end);
    if window.Ok? {
      var rates := RatesFor(base, festivalPrice, window.value, overrides);
      assert StayTotal(rates, night, night) == 0;
      assert StayTotal(rates, night, night + 1) == NightPrice(rates, night);
      assert EveryNightPriced(rates, night, night + 1) <==> NightPrice(rates, night) >= 0;
    }
  }

  /** The sum of the nights, each at its own price. */
  function SumOf(base: int, festivalPrice: Option<int>, start: Setting, end: Setting, overrides: map<int, int>,
                 checkIn: int, checkOut: int): int
    decreases checkOut - checkIn
  {
    if checkIn >= checkOut then 0
    else PriceOf(base, festivalPrice, start, end, overrides, checkIn)
         + SumOf(base, festivalPrice, start, end, overrides, checkIn + 1, checkOut)
  }

  /**
   * Every answer of the calculation, in terms of its arguments: refused without nights, refused for a
   * bad festival window, refused exactly when some night is below zero, and else the sum of the nights.
   */
  lemma {:induction false} StayCosts(base: int, festivalPrice: Option<int>, start: Setting, end: Setting,
                                     overrides: map<int, int>, checkIn: int, checkOut: int)
    ensures var r := StayPrice(base, festivalPrice, start, end, overrides, checkIn, checkOut);
            && (r == Err(DatesInvalid) <==> checkIn >= checkOut)
            && (r == Err(FestivalDatesInvalid) <==> checkIn < checkOut && BadWindow(festivalPrice, start, end))
            && (r.Ok? <==>
                  && checkIn < checkOut && !BadWindow(festivalPrice, start, end)
                  && forall n | checkIn <= n < checkOut :: PriceOf(base, festivalPrice, start, end, overrides, n) >= 0)
            && (r.Ok? ==> r.value == SumOf(base, festivalPrice, start, end, overrides, checkIn, checkOut))
    decreases checkOut - checkIn
  {
    if checkIn >= checkOut {
    } else {
      OneNightCosts(base, festivalPrice, start, end, overrides, checkIn);
      assert SumOf(base, festivalPrice, start, end, overrides, checkIn + 1, checkIn + 1) == 0;
      if checkIn + 1 < checkOut {
        StayCosts(base, festivalPrice, start, end, overrides, checkIn + 1, checkOut);
        PriceIsAdditive(base, festivalPrice, start, end, overrides, checkIn, checkIn + 1, checkOut);
        WindowDecides(base, festivalPrice, start, end, overrides, checkIn, checkOut);
        hide StayPrice, BadWindow, PriceOf, SumOf;
        SumStarts(base, festivalPrice, start, end, overrides, checkIn, checkOut);
      }
    }
  }

  lemma SumStarts(base: int, festivalPrice: Option<int>, start: Setting, end: Setting, overrides: map<int, int>,
                  checkIn: int, checkOut: int)
    requires checkIn < checkOut
    ensures SumOf(base, festivalPrice, start, end, overrides, checkIn, checkOut)
            == PriceOf(base, festivalPrice, start, end, overrides, checkIn)
               + SumOf(base, festivalPrice, start, end, overrides, checkIn + 1, checkOut)
  {
  }

  lemma WindowDecides(base: int, festivalPrice: Option<int>, start: Setting, end: Setting, overrides: map<int, int>,
                      checkIn: int, checkOut: int)
    requires checkIn < checkOut
    ensures StayPrice(base, festivalPrice, start, end, overrides, checkIn, checkOut) != Err(DatesInvalid)
    ensures StayPrice(base, festivalPrice, start, end, overrides, checkIn, checkOut) == Err(FestivalDatesInvalid)
            <==> BadWindow(festivalPrice, start, end)
  {
  }

  /** Only overrides of nights inside the stay matter. */
  lemma {:induction false} OutsideOverridesIgnored(rates: Rates, overrides: map<int, int>, checkIn: int, checkOut: int)
    requires forall n | checkIn <= n < checkOut ::
               (n in overrides <==> n in rates.overrides) && (n in overrides ==> overrides[n] == rates.overrides[n])
    ensures StayTotal(rates.(overrides := overrides), checkIn, checkOut) == StayTotal(rates, checkIn, checkOut)
    ensures EveryNightPriced(rates.(overrides := overrides), checkIn, checkOut)
            <==> EveryNightPriced(rates, checkIn, checkOut)
    decreases checkOut - checkIn
  {
    var other := rates.(overrides := overrides);
    assert forall n | checkIn <= n < checkOut :: NightPrice(other, n) == NightPrice(rates, n);
    if checkIn < checkOut {
      OutsideOverridesIgnored(rates, overrides, checkIn, checkOut - 1);
    }
  }
}
