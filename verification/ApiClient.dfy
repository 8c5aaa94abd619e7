/**
 * The shared API client: one refresh at a time, one retry a request, one notice an expiry
 * (packages/shared/src/api-client.ts:76-153). A promise is a number; the network, the refresh
 * function and the app's callback appear as events and effects.
 */
module ApiClient {
  import opened Wrappers

  // ---------- Which requests may refresh ----------

  predicate EndsWith(path: string, suffix: string) {
    |suffix| <= |path| && path[|path| - |suffix|..] == suffix
  }

  const AUTHENTICATION :=
    ["/logout", "/refresh-token", "/request-otp", "/verify-otp", "/owner-login", "/admin-login", "/google"]

  predicate IsAuthenticationEndpoint(path: string) {
    exists i | 0 <= i < |AUTHENTICATION| :: EndsWith(path, AUTHENTICATION[i])
  }

  predicate MayRefresh(path: string) {
    !IsAuthenticationEndpoint(path) || EndsWith(path, "/logout")
  }

  // ---------- State, events, effects ----------

  datatype Phase = Sending(retry: bool) | Waiting(refresh: nat) | Done

  datatype Request = Request(path: string, phase: Phase)

  datatype Reply = Success | Unauthorized | Failure

  datatype Outcome = NewToken | NoToken | Rejected

  /** The fields of the client, the refreshes that have settled, and the requests. */
  datatype State = State(canRefresh: bool, refreshing: Option<nat>, notified: bool, started: nat,
                         settled: map<nat, Outcome>, requests: map<nat, Request>)

  datatype Event =
    | Send(id: nat, path: string)
    | Respond(id: nat, reply: Reply)
    | Settle(refresh: nat, outcome: Outcome)
    | Resume(id: nat)
    | Reset

  datatype Effect = Sent(id: nat) | Awaited(id: nat) | RefreshStarted | RefreshSettled | ExpiryReported | FlagReset

  function Notify(s: State): (State, seq<Effect>) {
    if s.notified then (s, []) else (s.(notified := true), [ExpiryReported])
  }

  function ClearFlag(s: State): (State, seq<Effect>) {
    (s.(notified := false), [FlagReset])
  }

  /** The promise to await: the refresh under way, or a new one. */
  function RefreshAfterUnauthorized(s: State): (State, nat, seq<Effect>) {
    if s.refreshing.Some? then (s, s.refreshing.value, [])
    else (s.(refreshing := Some(s.started), started := s.started + 1), s.started, [RefreshStarted])
  }

  function SetPhase(s: State, id: nat, phase: Phase): State
    requires id in s.requests
  {
    s.(requests := s.requests[id := s.requests[id].(phase := phase)])
  }

  predicate Enabled(s: State, e: Event) {
    match e
    case Send(id, _) => id !in s.requests
    case Respond(id, _) => id in s.requests && s.requests[id].phase.Sending?
    case Settle(n, _) => n < s.started && n !in s.settled
    case Resume(id) => id in s.requests && s.requests[id].phase.Waiting? && s.requests[id].phase.refresh in s.settled
    case Reset => true
  }

  function Step(s: State, e: Event): (State, seq<Effect>)
    requires Enabled(s, e)
  {
    match e
    case Send(id, path) => (s.(requests := s.requests[id := Request(path, Sending(false))]), [Sent(id)])
    case Respond(id, reply) =>
      var request := s.requests[id];
      if reply == Unauthorized && !request.phase.retry && MayRefresh(request.path) then
        if s.canRefresh then
          var (t, promise, effects) := RefreshAfterUnauthorized(s);
          (SetPhase(t, id, Waiting(promise)), effects + [Awaited(id)])
        else
          var (t, effects) := Notify(s);
          (SetPhase(t, id, Done), effects)
      else (SetPhase(s, id, Done), [])
    case Settle(n, outcome) => (s.(refreshing := None, settled := s.settled[n := outcome]), [RefreshSettled])
    case Resume(id) =>
      var outcome := s.settled[s.requests[id].phase.refresh];
      if outcome == NewToken then
        var (t, effects) := ClearFlag(s);
        (SetPhase(t, id, Sending(true)), effects + [Sent(id)])
      else if outcome == NoToken then
        var (t, effects) := Notify(s);
        (SetPhase(t, id, Done), effects)
      else (SetPhase(s, id, Done), [])
    case Reset => ClearFlag(s)
  }

  // ---------- Runs ----------

  predicate Initial(s: State) {
    s.refreshing.None? && !s.notified && s.started == 0 && s.settled == map[] && s.requests == map[]
  }

  ghost predicate IsRun(states: seq<State>, events: seq<Event>) {
    && |states| == |events| + 1 && Initial(states[0])
    && forall i | 0 <= i < |events| :: Enabled(states[i], events[i]) && states[i + 1] == Step(states[i], events[i]).0
  }

  /** Everything that happened up to state j, in order. */
  ghost function Trace(states: seq<State>, events: seq<Event>, j: nat): seq<Effect>
    requires IsRun(states, events) && j < |states|
  {
    if j == 0 then [] else Trace(states, events, j - 1) + Step(states[j - 1], events[j - 1]).1
  }

  function Number(trace: seq<Effect>, effect: Effect): nat {
    if trace == [] then 0
    else Number(trace[..|trace| - 1], effect) + if trace[|trace| - 1] == effect then 1 else 0
  }

  /** How often the expiry was reported since the flag was last reset. */
  function SinceReset(trace: seq<Effect>): nat {
    if trace == [] then 0
    else
      match trace[|trace| - 1]
      case FlagReset => 0
      case ExpiryReported => SinceReset(trace[..|trace| - 1]) + 1
      case _ => SinceReset(trace[..|trace| - 1])
  }

  lemma {:induction false} NumberJoined(a: seq<Effect>, b: seq<Effect>, effect: Effect)
    ensures Number(a + b, effect) == Number(a, effect) + Number(b, effect)
  {
    if b == [] {
      assert a + b == a;
    } else {
      NumberJoined(a, b[..|b| - 1], effect);
      assert (a + b)[..|a + b| - 1] == a + b[..|b| - 1];
    }
  }

  lemma NumberOfPair(x: Effect, y: Effect, effect: Effect)
    ensures Number([x], effect) == (if x == effect then 1 else 0)
    ensures Number([x, y], effect) == (if x == effect then 1 else 0) + (if y == effect then 1 else 0)
  {
    assert [x][..0] == [] && [x, y][..1] == [x];
  }

  /** A request's sends and waits are what its phase says. */
  ghost predicate Counted(s: State, trace: seq<Effect>, id: nat) {
    var sent, awaited := Number(trace, Sent(id)), Number(trace, Awaited(id));
    if id !in s.requests then sent == 0 && awaited == 0
    else
      match s.requests[id].phase
      case Sending(retry) => if retry then sent == 2 && awaited == 1 else sent == 1 && awaited == 0
      case Waiting(_) => sent == 1 && awaited == 1
      case Done => 1 <= sent <= 2 && awaited <= 1 && sent <= awaited + 1
  }

  ghost predicate InFlight(s: State, trace: seq<Effect>) {
    Number(trace, RefreshStarted) == Number(trace, RefreshSettled) + if s.refreshing.Some? then 1 else 0
  }

  /** The refreshes begun and not settled, any of which may settle next. */
  function Outstanding(s: State): set<nat> {
    set n | 0 <= n < s.started && n !in s.settled
  }

  /** The slot names exactly the refreshes that are outstanding. */
  ghost predicate SlotTells(s: State) {
    && Outstanding(s) == (if s.refreshing.Some? then {s.refreshing.value} else {})
    && forall n | n in s.settled :: n < s.started
  }

  /** Every waiting request waits for the refresh under way or for one that has settled. */
  ghost predicate NobodyStranded(s: State) {
    && SlotTells(s)
    && forall id | id in s.requests && s.requests[id].phase.Waiting? ::
      s.refreshing == Some(s.requests[id].phase.refresh) || s.requests[id].phase.refresh in s.settled
  }

  lemma NumberOfFew(effects: seq<Effect>, x: Effect)
    requires |effects| <= 2
    ensures Number(effects, x) == (if |effects| >= 1 && effects[0] == x then 1 else 0)
                                  + (if |effects| == 2 && effects[1] == x then 1 else 0)
  {
    if |effects| == 1 {
      assert effects == [effects[0]];
      NumberOfPair(effects[0], effects[0], x);
    } else if |effects| == 2 {
      assert effects == [effects[0], effects[1]];
      NumberOfPair(effects[0], effects[1], x);
    }
  }

  lemma FewEffects(s: State, e: Event)
    requires Enabled(s, e)
    ensures |Step(s, e).1| <= 2
  {
    hide MayRefresh;
  }

  lemma CountedStep(s: State, e: Event, trace: seq<Effect>, id: nat)
    requires Enabled(s, e) && Counted(s, trace, id)
    ensures Counted(Step(s, e).0, trace + Step(s, e).1, id)
  {
    hide MayRefresh, Number;
    FewEffects(s, e);
    NumberJoined(trace, Step(s, e).1, Sent(id));
    NumberJoined(trace, Step(s, e).1, Awaited(id));
    NumberOfFew(Step(s, e).1, Sent(id));
    NumberOfFew(Step(s, e).1, Awaited(id));
  }

  lemma SettledIsGone(s: State, t: State, n: nat)
    requires t.started == s.started && t.settled.Keys == s.settled.Keys + {n}
    ensures Outstanding(t) == Outstanding(s) - {n}
  {
    forall k ensures k in Outstanding(t) <==> k in Outstanding(s) - {n} {
    }
  }

  lemma StartedIsOutstanding(s: State, t: State)
    requires t.started == s.started + 1 && t.settled == s.settled && s.started !in s.settled
    ensures Outstanding(t) == Outstanding(s) + {s.started}
  {
    forall k ensures k in Outstanding(t) <==> k in Outstanding(s) + {s.started} {
    }
  }

  lemma SlotStep(s: State, e: Event)
    requires Enabled(s, e) && SlotTells(s)
    ensures SlotTells(Step(s, e).0)
  {
    hide MayRefresh;
    var t := Step(s, e).0;
    if e.Settle? {
      assert e.refresh in Outstanding(s);
      SettledIsGone(s, t, e.refresh);
    } else if t.started == s.started {
      assert Outstanding(t) == Outstanding(s);
    } else {
      StartedIsOutstanding(s, t);
    }
  }

  /** Whatever settles is what the slot names. */
  lemma SettlesTheSlot(s: State, e: Event)
    requires Enabled(s, e) && SlotTells(s) && e.Settle?
    ensures s.refreshing == Some(e.refresh)
  {
    assert e.refresh in Outstanding(s);
  }

  lemma InFlightStep(s: State, e: Event, trace: seq<Effect>)
    requires Enabled(s, e) && SlotTells(s) && InFlight(s, trace)
    ensures InFlight(Step(s, e).0, trace + Step(s, e).1)
  {
    hide MayRefresh, Number;
    FewEffects(s, e);
    NumberJoined(trace, Step(s, e).1, RefreshStarted);
    NumberJoined(trace, Step(s, e).1, RefreshSettled);
    hide SlotTells, Outstanding;
    if e.Settle? {
      SettlesTheSlot(s, e);
    }
    NumberOfFew(Step(s, e).1, RefreshStarted);
    NumberOfFew(Step(s, e).1, RefreshSettled);
  }

  lemma {:induction false} SinceResetJoined(a: seq<Effect>, b: seq<Effect>)
    ensures FlagReset !in b ==> SinceReset(a + b) == SinceReset(a) + SinceReset(b)
    ensures FlagReset in b ==> SinceReset(a + b) == SinceReset(b)
  {
    if b == [] {
      assert a + b == a;
    } else {
      SinceResetJoined(a, b[..|b| - 1]);
      assert (a + b)[..|a + b| - 1] == a + b[..|b| - 1];
    }
  }

  /** The flag is up exactly when the expiry was reported since the last reset, and then once. */
  ghost predicate FlagTells(s: State, trace: seq<Effect>) {
    SinceReset(trace) == if s.notified then 1 else 0
  }

  lemma ShortSinceReset(x: Effect, y: Effect)
    ensures SinceReset([x]) == if x == ExpiryReported then 1 else 0
    ensures SinceReset([x, y]) == if y == FlagReset then 0
                                  else (if x == ExpiryReported then 1 else 0) + (if y == ExpiryReported then 1 else 0)
  {
    assert [x][..0] == [] && [x, y][..1] == [x];
  }

  lemma EffectsSinceReset(s: State, e: Event)
    requires Enabled(s, e)
    ensures var (t, effects) := Step(s, e);
            && (FlagReset in effects ==> SinceReset(effects) == 0 && !t.notified)
            && (FlagReset !in effects ==>
                  SinceReset(effects) + (if s.notified then 1 else 0) == (if t.notified then 1 else 0))
  {
    hide MayRefresh, SinceReset;
    var effects := Step(s, e).1;
    assert SinceReset([]) == 0 by { NoReports(); }
    if |effects| == 1 {
      ShortSinceReset(effects[0], effects[0]);
      assert effects == [effects[0]];
    } else if |effects| == 2 {
      ShortSinceReset(effects[0], effects[1]);
      assert effects == [effects[0], effects[1]];
    }
  }

  lemma NoReports()
    ensures SinceReset([]) == 0
  {
  }

  lemma FlagStep(s: State, e: Event, trace: seq<Effect>)
    requires Enabled(s, e) && FlagTells(s, trace)
    ensures FlagTells(Step(s, e).0, trace + Step(s, e).1)
  {
    hide Step, SinceReset;
    EffectsSinceReset(s, e);
    SinceResetJoined(trace, Step(s, e).1);
  }

  lemma StrandedStep(s: State, e: Event)
    requires Enabled(s, e) && NobodyStranded(s)
    ensures NobodyStranded(Step(s, e).0)
  {
    hide MayRefresh, SlotTells, Outstanding;
    SlotStep(s, e);
    if e.Settle? {
      SettlesTheSlot(s, e);
    }
  }

  // ---------- Results ----------

  lemma {:induction false} SlotIsRight(states: seq<State>, events: seq<Event>, j: nat)
    requires IsRun(states, events) && j < |states|
    ensures SlotTells(states[j])
  {
    hide Step;
    if j == 0 {
      assert Outstanding(states[0]) == {};
    } else {
      SlotIsRight(states, events, j - 1);
      SlotStep(states[j - 1], events[j - 1]);
    }
  }

  /**
   * Over every interleaving at most one refresh is under way: whichever refresh settles, it is the one
   * in the slot, and no other was begun meanwhile.
   */
  lemma {:induction false} SingleFlight(states: seq<State>, events: seq<Event>, j: nat)
    requires IsRun(states, events) && j < |states|
    ensures InFlight(states[j], Trace(states, events, j))
    ensures forall m, n | m in Outstanding(states[j]) && n in Outstanding(states[j]) :: m == n
    ensures forall n | n in Outstanding(states[j]) :: states[j].refreshing == Some(n)
    ensures Number(Trace(states, events, j), RefreshStarted) <= Number(Trace(states, events, j), RefreshSettled) + 1
  {
    hide Step, Outstanding;
    SlotIsRight(states, events, j);
    if j > 0 {
      SingleFlight(states, events, j - 1);
      SlotIsRight(states, events, j - 1);
      InFlightStep(states[j - 1], events[j - 1], Trace(states, events, j - 1));
    }
  }

  lemma {:induction false} RequestCounts(states: seq<State>, events: seq<Event>, j: nat, id: nat)
    requires IsRun(states, events) && j < |states|
    ensures Counted(states[j], Trace(states, events, j), id)
  {
    hide Step, Counted;
    if j == 0 {
      NothingCounted(states[0], id);
    } else {
      RequestCounts(states, events, j - 1, id);
      CountedStep(states[j - 1], events[j - 1], Trace(states, events, j - 1), id);
    }
  }

  lemma NothingCounted(s: State, id: nat)
    requires Initial(s)
    ensures Counted(s, [], id)
  {
  }

  // ---------- When a request is sent again ----------

  /** At step i the awaited refresh of the request turns out to have given a token. */
  ghost predicate Retried(states: seq<State>, events: seq<Event>, i: nat, id: nat)
    requires IsRun(states, events)
  {
    && i < |events| && events[i] == Resume(id)
    && states[i].settled[states[i].requests[id].phase.refresh] == NewToken
  }

  ghost predicate RetriedBefore(states: seq<State>, events: seq<Event>, j: nat, id: nat)
    requires IsRun(states, events)
  {
    exists i: nat :: i < j && Retried(states, events, i, id)
  }

  /** A token from the refresh sends the request a second time, on the same path, and lowers the flag. */
  lemma TokenSendsAgain(states: seq<State>, events: seq<Event>, i: nat, id: nat)
    requires IsRun(states, events) && Retried(states, events, i, id)
    ensures id in states[i].requests && states[i].requests[id].phase.Waiting?
    ensures id in states[i + 1].requests
    ensures states[i + 1].requests[id] == Request(states[i].requests[id].path, Sending(true))
    ensures !states[i + 1].notified
    ensures Number(Step(states[i], events[i]).1, Sent(id)) == 1
  {
    FewEffects(states[i], events[i]);
    NumberOfFew(Step(states[i], events[i]).1, Sent(id));
  }

  /** How far a request has come, in terms of the steps there have been. */
  ghost predicate SentOften(states: seq<State>, events: seq<Event>, j: nat, id: nat)
    requires IsRun(states, events) && j < |states|
  {
    var again := RetriedBefore(states, events, j, id);
    && Number(Trace(states, events, j), Sent(id))
       == (if id in states[j].requests then 1 else 0) + (if again then 1 else 0)
    && (again ==> id in states[j].requests && !states[j].requests[id].phase.Waiting?
                  && states[j].requests[id].phase != Sending(false))
    && (id in states[j].requests && states[j].requests[id].phase == Sending(true) ==> again)
  }

  lemma OtherStepsSend(s: State, e: Event, id: nat)
    requires Enabled(s, e)
    requires !(e == Resume(id) && s.settled[s.requests[id].phase.refresh] == NewToken)
    ensures var (t, effects) := Step(s, e);
            && Number(effects, Sent(id)) == (if id in t.requests then 1 else 0) - (if id in s.requests then 1 else 0)
            && (id in s.requests ==> id in t.requests && t.requests[id].path == s.requests[id].path)
            && (id in s.requests && s.requests[id].phase == Sending(true) ==>
                  t.requests[id].phase == Sending(true) || t.requests[id].phase == Done)
            && (id in s.requests && s.requests[id].phase == Done ==> t.requests[id].phase == Done)
            && (id in t.requests && t.requests[id].phase == Sending(true) ==>
                  id in s.requests && s.requests[id].phase == Sending(true))
  {
    hide MayRefresh, Number;
    FewEffects(s, e);
    NumberOfFew(Step(s, e).1, Sent(id));
  }

  lemma RetriedNow(states: seq<State>, events: seq<Event>, j: nat, id: nat)
    requires IsRun(states, events) && j < |events|
    ensures RetriedBefore(states, events, j + 1, id)
            <==> RetriedBefore(states, events, j, id) || Retried(states, events, j, id)
  {
    hide Retried;
  }

  /**
   * A request has been sent once, and once more exactly if its refresh gave it a token.
   */
  lemma {:induction false} SentExactly(states: seq<State>, events: seq<Event>, j: nat, id: nat)
    requires IsRun(states, events) && j < |states|
    ensures SentOften(states, events, j, id)
  {
    hide Step, Number, RetriedBefore, Retried;
    if j == 0 {
      assert !RetriedBefore(states, events, 0, id) by { NeverRetried(states, events, id); }
      assert Number([], Sent(id)) == 0 by { NothingSent(id); }
    } else {
      SentExactly(states, events, j - 1, id);
      RetriedNow(states, events, j - 1, id);
      NumberJoined(Trace(states, events, j - 1), Step(states[j - 1], events[j - 1]).1, Sent(id));
      if Retried(states, events, j - 1, id) {
        TokenSendsAgain(states, events, j - 1, id);
      } else {
        NotRetried(states, events, j - 1, id);
        OtherStepsSend(states[j - 1], events[j - 1], id);
      }
    }
  }

  lemma NeverRetried(states: seq<State>, events: seq<Event>, id: nat)
    requires IsRun(states, events)
    ensures !RetriedBefore(states, events, 0, id)
  {
  }

  lemma NothingSent(id: nat)
    ensures Number([], Sent(id)) == 0
  {
  }

  lemma NotRetried(states: seq<State>, events: seq<Event>, i: nat, id: nat)
    requires IsRun(states, events) && i < |events| && !Retried(states, events, i, id)
    ensures Enabled(states[i], events[i])
    ensures !(events[i] == Resume(id) && states[i].settled[states[i].requests[id].phase.refresh] == NewToken)
  {
  }

  /**
   * At step i the request came to its end for a reason: a reply other than a 401 that may refresh, no
   * way to refresh, or a refresh without a token.
   */
  ghost predicate GaveUp(states: seq<State>, events: seq<Event>, i: nat, id: nat)
    requires IsRun(states, events)
  {
    && i < |events| && id in states[i].requests
    && ((events[i].Respond? && events[i].id == id
         && (events[i].reply != Unauthorized || !MayRefresh(states[i].requests[id].path) || !states[i].canRefresh))
        || (events[i] == Resume(id) && states[i].settled[states[i].requests[id].phase.refresh] != NewToken))
  }

  lemma EndsForAReason(states: seq<State>, events: seq<Event>, i: nat, id: nat)
    requires IsRun(states, events) && i < |events|
    requires id in states[i + 1].requests && states[i + 1].requests[id].phase == Done
    requires id in states[i].requests ==>
               states[i].requests[id].phase == Sending(false) || states[i].requests[id].phase.Waiting?
    ensures GaveUp(states, events, i, id)
  {
    hide MayRefresh;
    assert Enabled(states[i], events[i]) && states[i + 1] == Step(states[i], events[i]).0;
  }

  /** A request that is done after a single send was given up for one of those reasons. */
  lemma {:induction false} DoneAfterOneSend(states: seq<State>, events: seq<Event>, j: nat, id: nat)
    requires IsRun(states, events) && j < |states|
    requires id in states[j].requests && states[j].requests[id].phase == Done
    requires Number(Trace(states, events, j), Sent(id)) == 1
    ensures exists i: nat :: i < j && GaveUp(states, events, i, id)
  {
    hide Step, Number, GaveUp, RetriedBefore, Retried;
    SentExactly(states, events, j, id);
    assert j > 0;
    SentExactly(states, events, j - 1, id);
    RetriedNow(states, events, j - 1, id);
    if id in states[j - 1].requests && states[j - 1].requests[id].phase == Done {
      DoneAfterOneSend(states, events, j - 1, id);
      var i: nat :| i < j - 1 && GaveUp(states, events, i, id);
      assert i < j;
    } else {
      EndsForAReason(states, events, j - 1, id);
    }
  }

  /** A refused request goes out again once its refresh has given a token. */
  lemma RefusedThenSentAgain() returns (states: seq<State>, events: seq<Event>)
    ensures IsRun(states, events)
    ensures events == [Send(0, "/bookings"), Respond(0, Unauthorized), Settle(0, NewToken), Resume(0)]
    ensures states[4].requests == map[0 := Request("/bookings", Sending(true))] && !states[4].notified
  {
    events := [Send(0, "/bookings"), Respond(0, Unauthorized), Settle(0, NewToken), Resume(0)];
    var s0 := State(true, None, false, 0, map[], map[]);
    var s1 := Step(s0, events[0]).0;
    assert MayRefresh("/bookings") by { NotAuthentication("/bookings"); }
    var s2 := Step(s1, events[1]).0;
    var s3 := Step(s2, events[2]).0;
    var s4 := Step(s3, events[3]).0;
    states := [s0, s1, s2, s3, s4];
  }

  /**
   * A refused request is never sent again exactly on the paths that end in one of six endpoints; a
   * logout is, and so is every other.
   */
  lemma PathsThatRefresh(path: string)
    ensures !MayRefresh(path) <==>
              exists prefix: string, endpoint: string ::
                && path == prefix + endpoint
                && endpoint in {"/refresh-token", "/request-otp", "/verify-otp", "/owner-login", "/admin-login",
                                "/google"}
  {
    assert AUTHENTICATION[0] == "/logout" && AUTHENTICATION[1] == "/refresh-token";
    assert AUTHENTICATION[2] == "/request-otp" && AUTHENTICATION[3] == "/verify-otp";
    assert AUTHENTICATION[4] == "/owner-login";
    assert AUTHENTICATION[5] == "/admin-login" && AUTHENTICATION[6] == "/google";
    if !MayRefresh(path) {
      var i :| 0 <= i < |AUTHENTICATION| && EndsWith(path, AUTHENTICATION[i]);
      assert path == path[..|path| - |AUTHENTICATION[i]|] + AUTHENTICATION[i];
    }
    if prefix: string, endpoint: string :|
      && path == prefix + endpoint
      && endpoint in {"/refresh-token", "/request-otp", "/verify-otp", "/owner-login", "/admin-login", "/google"}
    {
      assert path[|prefix|..] == endpoint;
      NotLogout(prefix, endpoint);
      assert exists i | 1 <= i < |AUTHENTICATION| :: AUTHENTICATION[i] == endpoint;
    }
  }

  lemma NotLogout(prefix: string, suffix: string)
    requires suffix != "" && suffix[|suffix| - 1] != 't'
    ensures !EndsWith(prefix + suffix, "/logout")
  {
    LastLetter(prefix + suffix, "/logout");
  }

  /** Every request is sent at most twice, awaits at most one refresh, and is sent again only after one. */
  lemma SentAtMostTwice(states: seq<State>, events: seq<Event>, j: nat, id: nat)
    requires IsRun(states, events) && j < |states|
    ensures var trace := Trace(states, events, j);
            Number(trace, Sent(id)) <= 2 && Number(trace, Awaited(id)) <= 1
            && Number(trace, Sent(id)) <= Number(trace, Awaited(id)) + 1
  {
    RequestCounts(states, events, j, id);
  }

  lemma {:induction false} FlagIsRight(states: seq<State>, events: seq<Event>, j: nat)
    requires IsRun(states, events) && j < |states|
    ensures FlagTells(states[j], Trace(states, events, j))
  {
    hide Step;
    if j > 0 {
      FlagIsRight(states, events, j - 1);
      FlagStep(states[j - 1], events[j - 1], Trace(states, events, j - 1));
    }
  }

  lemma {:induction false} NobodyIsStranded(states: seq<State>, events: seq<Event>, j: nat)
    requires IsRun(states, events) && j < |states|
    ensures NobodyStranded(states[j])
  {
    hide Step;
    if j > 0 {
      NobodyIsStranded(states, events, j - 1);
      StrandedStep(states[j - 1], events[j - 1]);
    }
  }

  lemma {:induction false} PrefixTrace(states: seq<State>, events: seq<Event>, i: nat, j: nat)
    requires IsRun(states, events) && i <= j < |states|
    ensures Trace(states, events, i) <= Trace(states, events, j)
  {
    if i < j {
      PrefixTrace(states, events, i, j - 1);
    }
  }

  /** With no reset among them, later effects only add to the reports. */
  lemma {:induction false} ReportsAddUp(trace: seq<Effect>, i: nat, j: nat)
    requires i < j <= |trace| && trace[i] == ExpiryReported
    requires forall k | i < k < j :: trace[k] != FlagReset
    ensures SinceReset(trace[..j]) >= SinceReset(trace[..i]) + 1
    ensures i < j - 1 && trace[j - 1] == ExpiryReported ==> SinceReset(trace[..j]) >= 2
  {
    assert trace[..j][..j - 1] == trace[..j - 1];
    if i < j - 1 {
      ReportsAddUp(trace, i, j - 1);
    }
  }

  lemma {:induction false} PrefixWithin(trace: seq<Effect>, effects: seq<Effect>, s: State, e: Event, n: nat)
    requires Enabled(s, e) && effects == Step(s, e).1 && FlagTells(s, trace) && n <= |effects|
    ensures SinceReset(trace + effects[..n]) <= 1
  {
    hide MayRefresh;
    FlagStep(s, e, trace);
    SinceResetJoined(trace, effects[..n]);
    if n == 1 {
      ShortSinceReset(effects[0], effects[0]);
      assert effects[..n] == [effects[0]];
    } else if n == 0 {
      assert trace + effects[..n] == trace;
    } else {
      assert effects[..n] == effects;
    }
  }

  lemma {:induction false} AtMostOneSinceReset(states: seq<State>, events: seq<Event>, j: nat, n: nat)
    requires IsRun(states, events) && j < |states| && n <= |Trace(states, events, j)|
    ensures SinceReset(Trace(states, events, j)[..n]) <= 1
  {
    hide Step;
    if j > 0 {
      var before, effects := Trace(states, events, j - 1), Step(states[j - 1], events[j - 1]).1;
      if n <= |before| {
        AtMostOneSinceReset(states, events, j - 1, n);
        assert (before + effects)[..n] == before[..n];
      } else {
        FlagIsRight(states, events, j - 1);
        PrefixWithin(before, effects, states[j - 1], events[j - 1], n - |before|);
        assert (before + effects)[..n] == before + effects[..n - |before|];
      }
    }
  }

  /** Between any two reports of an expiry the flag was reset. */
  lemma ReportedOncePerReset(states: seq<State>, events: seq<Event>, j: nat, a: nat, b: nat)
    requires IsRun(states, events) && j < |states| && a < b < |Trace(states, events, j)|
    requires Trace(states, events, j)[a] == ExpiryReported && Trace(states, events, j)[b] == ExpiryReported
    ensures exists k :: a < k < b && Trace(states, events, j)[k] == FlagReset
  {
    hide Step;
    var trace := Trace(states, events, j);
    if forall k | a < k < b :: trace[k] != FlagReset {
      ReportsAddUp(trace, a, b + 1);
      AtMostOneSinceReset(states, events, j, b + 1);
    }
  }

  /**
   * A request that was refused and waited leaves the expiry reported exactly when its refresh gave
   * no token or someone had reported it before: a refresh that rejects goes unreported.
   */
  lemma ReportedUnlessRejected(s: State, id: nat)
    requires Enabled(s, Resume(id)) && s.settled[s.requests[id].phase.refresh] != NewToken
    ensures Step(s, Resume(id)).0.requests[id].phase == Done
    ensures Step(s, Resume(id)).0.notified <==> s.notified || s.settled[s.requests[id].phase.refresh] == NoToken
    ensures ExpiryReported in Step(s, Resume(id)).1
            <==> !s.notified && s.settled[s.requests[id].phase.refresh] == NoToken
  {
  }

  /** A refused request whose refresh rejects ends without any notice. */
  lemma RejectedRefreshIsSilent() returns (states: seq<State>, events: seq<Event>)
    ensures IsRun(states, events)
    ensures events == [Send(0, "/bookings"), Respond(0, Unauthorized), Settle(0, Rejected), Resume(0)]
    ensures states[4].requests == map[0 := Request("/bookings", Done)] && !states[4].notified
  {
    events := [Send(0, "/bookings"), Respond(0, Unauthorized), Settle(0, Rejected), Resume(0)];
    var s0 := State(true, None, false, 0, map[], map[]);
    var s1 := Step(s0, events[0]).0;
    assert MayRefresh("/bookings") by { NotAuthentication("/bookings"); }
    var s2 := Step(s1, events[1]).0;
    var s3 := Step(s2, events[2]).0;
    var s4 := Step(s3, events[3]).0;
    states := [s0, s1, s2, s3, s4];
  }

  lemma NotAuthentication(path: string)
    requires |path| > 0 && path[|path| - 1] == 's'
    ensures !IsAuthenticationEndpoint(path)
  {
    forall i | 0 <= i < |AUTHENTICATION| ensures !EndsWith(path, AUTHENTICATION[i]) {
      LastLetter(path, AUTHENTICATION[i]);
    }
  }

  lemma LastLetter(path: string, suffix: string)
    requires path != "" && suffix != ""
    ensures EndsWith(path, suffix) ==> path[|path| - 1] == suffix[|suffix| - 1]
  {
    if EndsWith(path, suffix) {
      assert path[|path| - |suffix|..][|suffix| - 1] == path[|path| - 1];
    }
  }

  // ---------- The client object ----------

  class ApiClient {
    const canRefresh: bool
    var refreshPromise: Option<nat>
    var sessionExpiredNotified: bool
    var started: nat
    var reports: nat

    constructor (canRefresh: bool)
      ensures this.canRefresh == canRefresh && refreshPromise.None? && !sessionExpiredNotified
      ensures started == 0 && reports == 0
    {
      this.canRefresh := canRefresh;
      refreshPromise, sessionExpiredNotified, started, reports := None, false, 0, 0;
    }

    ghost predicate Agrees(s: State)
      reads this
    {
      s.canRefresh == canRefresh && s.refreshing == refreshPromise && s.notified == sessionExpiredNotified
      && s.started == started
    }

    method NotifySessionExpired(ghost s: State)
      requires Agrees(s)
      modifies this
      ensures Agrees(Notify(s).0) && reports == old(reports) + |Notify(s).1|
    {
      if sessionExpiredNotified {
        return;
      }
      sessionExpiredNotified := true;
      reports := reports + 1;
    }

    method ResetSessionExpiredFlag(ghost s: State)
      requires Agrees(s)
      modifies this
      ensures Agrees(ClearFlag(s).0) && reports == old(reports)
    {
      sessionExpiredNotified := false;
    }

    method StartOrJoinRefresh(ghost s: State) returns (promise: nat)
      requires Agrees(s)
      modifies this
      ensures Agrees(RefreshAfterUnauthorized(s).0) && promise == RefreshAfterUnauthorized(s).1
      ensures reports == old(reports) && refreshPromise == Some(promise)
    {
      if refreshPromise.None? {
        refreshPromise := Some(started);
        started := started + 1;
      }
      promise := refreshPromise.value;
    }

    /** A refresh settles. */
    method Settled(ghost s: State, refresh: nat, outcome: Outcome)
      requires Agrees(s) && Enabled(s, Settle(refresh, outcome))
      modifies this
      ensures Agrees(Step(s, Settle(refresh, outcome)).0) && reports == old(reports)
    {
      refreshPromise := None;
    }

    /** A reply arrives: the phase the request is in next. */
    method Replied(ghost s: State, id: nat, path: string, retry: bool, reply: Reply) returns (next: Phase)
      requires Agrees(s) && id in s.requests && s.requests[id] == Request(path, Sending(retry))
      modifies this
      ensures Agrees(Step(s, Respond(id, reply)).0) && next == Step(s, Respond(id, reply)).0.requests[id].phase
      ensures reports == old(reports) + Number(Step(s, Respond(id, reply)).1, ExpiryReported)
    {
      FewEffects(s, Respond(id, reply));
      NumberOfFew(Step(s, Respond(id, reply)).1, ExpiryReported);
      next := Done;
      if reply == Unauthorized && !retry && MayRefresh(path) {
        if canRefresh {
          var promise := StartOrJoinRefresh(s);
          next := Waiting(promise);
        } else {
          NotifySessionExpired(s);
        }
      }
    }

    /** The awaited refresh has settled: retry, give up with a notice, or just fail. */
    method Resumed(ghost s: State, id: nat, outcome: Outcome) returns (next: Phase)
      requires Agrees(s) && Enabled(s, Resume(id)) && s.settled[s.requests[id].phase.refresh] == outcome
      modifies this
      ensures Agrees(Step(s, Resume(id)).0) && next == Step(s, Resume(id)).0.requests[id].phase
      ensures reports == old(reports) + Number(Step(s, Resume(id)).1, ExpiryReported)
    {
      FewEffects(s, Resume(id));
      NumberOfFew(Step(s, Resume(id)).1, ExpiryReported);
      next := Done;
      if outcome == NewToken {
        ResetSessionExpiredFlag(s);
        next := Sending(true);
      } else if outcome == NoToken {
        NotifySessionExpired(s);
      }
    }
  }
}
