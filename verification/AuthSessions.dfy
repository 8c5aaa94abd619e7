/**
 * Login sessions, refresh tokens and access tokens
 * (backend/src/modules/auth/auth.service.ts:529-667, 742-792; strategies/jwt-auth.strategy.ts:22-42).
 * Times are milliseconds; durations and token expiry are whole seconds.
 */
module AuthSessions {
  import opened Wrappers

  datatype Config = Config(accessTtl: int, refreshTtl: int, maxAgeDays: nat)

  datatype Token = Token(user: nat, device: nat, issuedAt: int, expiresAt: int, revokedAt: Option<int>)

  /** The session row of a refresh token. */
  datatype Session = Session(user: nat, expiresAt: int, active: bool)

  /** The rows: users with their active flag, refresh tokens, and sessions by their refresh token. */
  datatype Store = Store(users: map<nat, bool>, tokens: map<nat, Token>, sessions: map<nat, Session>)

  /** A signed access token: subject, session, expiry, and how long signing lagged behind measuring. */
  datatype Access = Access(user: nat, sid: nat, exp: int, lag: nat)

  // ---------- The pieces of the service ----------

  function SessionEnd(c: Config, now: int): int {
    now + c.maxAgeDays * 86400 * 1000
  }

  function NewToken(c: Config, user: nat, device: nat, now: int): Token {
    var limit := now + c.refreshTtl * 1000;
    Token(user, device, now, if SessionEnd(c, now) <= limit then SessionEnd(c, now) else limit, None)
  }

  /** How many seconds an access token may live; none or less means the session is over. */
  function ExpiresIn(c: Config, deadline: int, now: int): int {
    var remaining := (deadline - now) / 1000;
    if c.accessTtl <= remaining then c.accessTtl else remaining
  }

  /** The token is signed `lag` after its lifetime was measured; signing counts in whole seconds. */
  function Sign(c: Config, user: nat, sid: nat, deadline: int, now: int, lag: nat): Access {
    Access(user, sid, (now + lag) / 1000 + ExpiresIn(c, deadline, now), lag)
  }

  predicate Refreshable(s: Store, token: nat, device: nat, now: int) {
    && token in s.tokens && s.tokens[token].device == device && s.tokens[token].revokedAt.None?
    && s.tokens[token].expiresAt > now
    && token in s.sessions && s.sessions[token].active && s.sessions[token].expiresAt > now
    && s.tokens[token].user in s.users && s.users[s.tokens[token].user]
  }

  /** What every authenticated request checks. */
  predicate Accepts(s: Store, a: Access, now: int) {
    && now / 1000 < a.exp
    && a.sid in s.sessions && s.sessions[a.sid].user == a.user && s.sessions[a.sid].active
    && s.sessions[a.sid].expiresAt > now
    && a.sid in s.tokens && s.tokens[a.sid].revokedAt.None? && s.tokens[a.sid].expiresAt > now
    && a.user in s.users && s.users[a.user]
  }

  /** The first write of a logout. */
  function Revoked(s: Store, token: nat, user: nat, device: nat, now: int): Store {
    if token in s.tokens && s.tokens[token].user == user && s.tokens[token].device == device then
      s.(tokens := s.tokens[token := s.tokens[token].(revokedAt := Some(now))])
    else s
  }

  /** The second write of a logout. */
  function Deactivated(s: Store, token: nat, user: nat): Store {
    if token in s.sessions && s.sessions[token].user == user then
      s.(sessions := s.sessions[token := s.sessions[token].(active := false)])
    else s
  }

  /** A password reset, an admin's new password, or (with `suspend`) a suspension: one transaction. */
  function AllRevoked(s: Store, user: nat, suspend: bool, now: int): Store {
    Store(if suspend && user in s.users then s.users[user := false] else s.users,
          map t | t in s.tokens :: if s.tokens[t].user == user && s.tokens[t].revokedAt.None?
                                   then s.tokens[t].(revokedAt := Some(now)) else s.tokens[t],
          map t | t in s.sessions :: if s.sessions[t].user == user then s.sessions[t].(active := false)
                                     else s.sessions[t])
  }

  // ---------- Runs ----------

  /** A login between its writes, and a refresh between its lookup and its answer. */
  datatype Login = Login(token: nat, user: nat, deadline: int, signed: bool)
  datatype Refresh = Refresh(token: nat, user: nat, deadline: int)

  datatype State = State(store: Store, logins: map<nat, Login>, refreshes: map<nat, Refresh>,
                         issued: set<Access>, now: int)

  datatype Event =
    | Begin(login: nat, user: nat, device: nat, token: nat)
    | SignLogin(login: nat, lag: nat)
    | Complete(login: nat)
    | Lookup(request: nat, token: nat, device: nat)
    | Issue(request: nat, lag: nat)
    | Revoke(token: nat, user: nat, device: nat)
    | Deactivate(token: nat, user: nat)
    | RevokeAll(user: nat, suspend: bool)
    | SetUser(user: nat, active: bool)  // a new or reactivated user

  ghost predicate Step(c: Config, s: State, e: Event, t: State) {
    s.now <= t.now
    && var now := t.now;
    match e
    case Begin(login, user, device, token) =>
      && login !in s.logins && token !in s.store.tokens
      && t == s.(now := now, store := s.store.(tokens := s.store.tokens[token := NewToken(c, user, device, now)]),
                 logins := s.logins[login := Login(token, user, SessionEnd(c, now), false)])
    case SignLogin(login, lag) =>
      && login in s.logins && !s.logins[login].signed
      && var l := s.logins[login];
         t == if ExpiresIn(c, l.deadline, now) <= 0 then s.(now := now, logins := s.logins - {login})
              else s.(now := now, logins := s.logins[login := l.(signed := true)],
                      issued := s.issued + {Sign(c, l.user, l.token, l.deadline, now, lag)})
    case Complete(login) =>
      && login in s.logins && s.logins[login].signed
      && var l := s.logins[login];
         t == s.(now := now, logins := s.logins - {login},
                 store := s.store.(sessions := s.store.sessions[l.token := Session(l.user, l.deadline, true)]))
    case Lookup(request, token, device) =>
      && request !in s.refreshes
      && t == if !Refreshable(s.store, token, device, now) then s.(now := now)
              else s.(now := now, refreshes := s.refreshes[request :=
                        Refresh(token, s.store.tokens[token].user, s.store.sessions[token].expiresAt)])
    case Issue(request, lag) =>
      && request in s.refreshes
      && var r := s.refreshes[request];
         t == if ExpiresIn(c, r.deadline, now) <= 0 then s.(now := now, refreshes := s.refreshes - {request})
              else s.(now := now, refreshes := s.refreshes - {request},
                      issued := s.issued + {Sign(c, r.user, r.token, r.deadline, now, lag)})
    case Revoke(token, user, device) => t == s.(now := now, store := Revoked(s.store, token, user, device, now))
    case Deactivate(token, user) => t == s.(now := now, store := Deactivated(s.store, token, user))
    case RevokeAll(user, suspend) => t == s.(now := now, store := AllRevoked(s.store, user, suspend, now))
    case SetUser(user, active) => t == s.(now := now, store := s.store.(users := s.store.users[user := active]))
  }

  ghost predicate IsRun(c: Config, states: seq<State>, events: seq<Event>) {
    && |states| == |events| + 1
    && states[0].store.tokens == map[] && states[0].store.sessions == map[]
    && states[0].logins == map[] && states[0].refreshes == map[] && states[0].issued == {}
    && forall i | 0 <= i < |events| :: Step(c, states[i], events[i], states[i + 1])
  }

  /** The fixed end of the session that the login which wrote this token row opened. */
  function Deadline(c: Config, s: Store, token: nat): int
    requires token in s.tokens
  {
    SessionEnd(c, s.tokens[token].issuedAt)
  }

  /** The refresh token is on file for that user, and its login fixed that deadline. */
  ghost predicate Fixed(c: Config, s: Store, token: nat, user: nat, deadline: int) {
    token in s.tokens && s.tokens[token].user == user && deadline == Deadline(c, s, token)
  }

  ghost predicate SessionRowsFixed(c: Config, s: Store) {
    forall t | t in s.sessions :: Fixed(c, s, t, s.sessions[t].user, s.sessions[t].expiresAt)
  }

  ghost predicate LoginsFixed(c: Config, s: State) {
    forall l | l in s.logins :: Fixed(c, s.store, s.logins[l].token, s.logins[l].user, s.logins[l].deadline)
  }

  ghost predicate RefreshesFixed(c: Config, s: State) {
    forall r | r in s.refreshes ::
      Fixed(c, s.store, s.refreshes[r].token, s.refreshes[r].user, s.refreshes[r].deadline)
  }

  ghost predicate SessionsFixed(c: Config, s: State) {
    SessionRowsFixed(c, s.store) && LoginsFixed(c, s) && RefreshesFixed(c, s)
  }

  /** Expiry is bounded by the deadline of its session, plus the time signing took. */
  ghost predicate TokenBounded(c: Config, s: Store, a: Access) {
    a.sid in s.tokens && s.tokens[a.sid].user == a.user && 1000 * a.exp <= Deadline(c, s, a.sid) + a.lag
  }

  ghost predicate TokensBounded(c: Config, s: State) {
    forall a | a in s.issued :: TokenBounded(c, s.store, a)
  }

  /** Rows of refresh tokens stay, with their user and login time; a revoked one stays revoked. */
  ghost predicate Kept(s: Store, t: Store) {
    forall k | k in s.tokens ::
      && k in t.tokens && t.tokens[k].user == s.tokens[k].user && t.tokens[k].issuedAt == s.tokens[k].issuedAt
      && (s.tokens[k].revokedAt.Some? ==> t.tokens[k].revokedAt.Some?)
  }

  lemma SignBounded(c: Config, user: nat, sid: nat, deadline: int, now: int, lag: nat)
    ensures 1000 * Sign(c, user, sid, deadline, now, lag).exp <= deadline + lag
  {
  }

  lemma StepKept(c: Config, s: State, e: Event, t: State)
    requires Step(c, s, e, t)
    ensures Kept(s.store, t.store)
  {
  }

  lemma FixedKept(c: Config, s: Store, t: Store, token: nat, user: nat, deadline: int)
    requires Kept(s, t) && Fixed(c, s, token, user, deadline)
    ensures Fixed(c, t, token, user, deadline)
  {
  }

  lemma SessionRowsStay(c: Config, s: State, e: Event, t: State)
    requires Step(c, s, e, t) && SessionsFixed(c, s) && Kept(s.store, t.store)
    ensures SessionRowsFixed(c, t.store)
  {
    hide ExpiresIn, Sign, Fixed, Kept, SessionEnd;
    var rows := t.store.sessions;
    forall k | k in rows ensures Fixed(c, t.store, k, rows[k].user, rows[k].expiresAt) {
      if e.Complete? && k == s.logins[e.login].token {
        FixedKept(c, s.store, t.store, k, s.logins[e.login].user, s.logins[e.login].deadline);
      } else {
        FixedKept(c, s.store, t.store, k, s.store.sessions[k].user, s.store.sessions[k].expiresAt);
      }
    }
  }

  lemma LoginsStay(c: Config, s: State, e: Event, t: State)
    requires Step(c, s, e, t) && SessionsFixed(c, s) && Kept(s.store, t.store)
    ensures LoginsFixed(c, t)
  {
    hide ExpiresIn, Sign, Kept, SessionEnd, AllRevoked;
    var logins := t.logins;
    forall l | l in logins ensures Fixed(c, t.store, logins[l].token, logins[l].user, logins[l].deadline) {
      if l in s.logins {
        FixedKept(c, s.store, t.store, s.logins[l].token, s.logins[l].user, s.logins[l].deadline);
      }
    }
  }

  lemma RefreshesStay(c: Config, s: State, e: Event, t: State)
    requires Step(c, s, e, t) && SessionsFixed(c, s) && Kept(s.store, t.store)
    ensures RefreshesFixed(c, t)
  {
    hide ExpiresIn, Sign, Fixed, Kept, SessionEnd, AllRevoked;
    var refreshes := t.refreshes;
    forall r | r in refreshes
      ensures Fixed(c, t.store, refreshes[r].token, refreshes[r].user, refreshes[r].deadline)
    {
      if r in s.refreshes {
        FixedKept(c, s.store, t.store, s.refreshes[r].token, s.refreshes[r].user, s.refreshes[r].deadline);
      } else {
        var row := s.store.sessions[e.token];
        FixedKept(c, s.store, t.store, e.token, row.user, row.expiresAt);
        SameUser(c, s.store, e.token, row.user, row.expiresAt);
      }
    }
  }

  lemma SameUser(c: Config, s: Store, token: nat, user: nat, deadline: int)
    requires Fixed(c, s, token, user, deadline)
    ensures token in s.tokens && s.tokens[token].user == user
  {
  }

  lemma StepFixed(c: Config, s: State, e: Event, t: State)
    requires Step(c, s, e, t) && SessionsFixed(c, s)
    ensures SessionsFixed(c, t)
  {
    StepKept(c, s, e, t);
    SessionRowsStay(c, s, e, t);
    LoginsStay(c, s, e, t);
    RefreshesStay(c, s, e, t);
  }

  lemma StepBounded(c: Config, s: State, e: Event, t: State)
    requires Step(c, s, e, t) && SessionsFixed(c, s) && TokensBounded(c, s)
    ensures TokensBounded(c, t)
  {
    hide ExpiresIn;
    StepKept(c, s, e, t);
    forall a | a in t.issued ensures TokenBounded(c, t.store, a) {
      if a in s.issued {
        assert TokenBounded(c, s.store, a);
      } else if e.SignLogin? {
        var l := s.logins[e.login];
        SignBounded(c, l.user, l.token, l.deadline, t.now, e.lag);
      } else {
        var r := s.refreshes[e.request];
        SignBounded(c, r.user, r.token, r.deadline, t.now, e.lag);
      }
    }
  }

  lemma NothingYet(c: Config, s: State)
    requires s.store.tokens == map[] && s.store.sessions == map[]
    requires s.logins == map[] && s.refreshes == map[] && s.issued == {}
    ensures SessionsFixed(c, s) && TokensBounded(c, s)
  {
  }

  lemma {:induction false} RunFixed(c: Config, states: seq<State>, events: seq<Event>, j: nat)
    requires IsRun(c, states, events) && j < |states|
    ensures SessionsFixed(c, states[j]) && TokensBounded(c, states[j])
  {
    hide Step, SessionsFixed, TokensBounded;
    if j == 0 {
      NothingYet(c, states[0]);
    } else {
      RunFixed(c, states, events, j - 1);
      StepFixed(c, states[j - 1], events[j - 1], states[j]);
      StepBounded(c, states[j - 1], events[j - 1], states[j]);
    }
  }

  lemma {:induction false} RunKept(c: Config, states: seq<State>, events: seq<Event>, i: nat, j: nat)
    requires IsRun(c, states, events) && i <= j < |states|
    ensures Kept(states[i].store, states[j].store)
  {
    hide Step;
    if i < j {
      RunKept(c, states, events, i, j - 1);
      StepKept(c, states[j - 1], events[j - 1], states[j]);
    }
  }

  // ---------- Results ----------

  /**
   * However often a session is refreshed, an access token expires by the deadline its login fixed,
   * give or take the time between measuring and signing; and the deadline never moves.
   */
  lemma ExpiryWithinDeadline(c: Config, states: seq<State>, events: seq<Event>, i: nat, j: nat, a: Access)
    requires IsRun(c, states, events) && i <= j < |states| && a in states[i].issued
    ensures a.sid in states[i].store.tokens && a.sid in states[j].store.tokens
    ensures Deadline(c, states[j].store, a.sid) == Deadline(c, states[i].store, a.sid)
    ensures 1000 * a.exp <= Deadline(c, states[j].store, a.sid) + a.lag
  {
    RunFixed(c, states, events, i);
    assert TokenBounded(c, states[i].store, a);
    RunKept(c, states, events, i, j);
  }

  /** Nothing is accepted at or past the deadline, even a token whose own expiry slipped past it. */
  lemma NothingAcceptedPastDeadline(c: Config, states: seq<State>, events: seq<Event>, j: nat, a: Access, now: int)
    requires IsRun(c, states, events) && j < |states| && Accepts(states[j].store, a, now)
    ensures a.sid in states[j].store.tokens && now < Deadline(c, states[j].store, a.sid)
  {
    RunFixed(c, states, events, j);
  }

  /**
   * Once a refresh token is revoked, no refresh looked up later succeeds and no access token of its
   * session is accepted, not even one that a refresh already under way is still about to issue.
   */
  lemma RevokedForGood(c: Config, states: seq<State>, events: seq<Event>, i: nat, j: nat,
                       token: nat, device: nat, a: Access, now: int)
    requires IsRun(c, states, events) && i <= j < |states|
    requires token in states[i].store.tokens && states[i].store.tokens[token].revokedAt.Some?
    ensures !Refreshable(states[j].store, token, device, now)
    ensures a.sid == token ==> !Accepts(states[j].store, a, now)
  {
    RunKept(c, states, events, i, j);
  }

  /** After a reset of the user's password nothing from before it works, whatever happens next. */
  lemma ResetEndsSessions(c: Config, states: seq<State>, events: seq<Event>, i: nat, j: nat,
                          token: nat, device: nat, a: Access, now: int)
    requires IsRun(c, states, events) && i < j < |states| && events[i].RevokeAll?
    requires token in states[i].store.tokens && states[i].store.tokens[token].user == events[i].user
    ensures !Refreshable(states[j].store, token, device, now)
    ensures a.sid == token ==> !Accepts(states[j].store, a, now)
  {
    assert Step(c, states[i], events[i], states[i + 1]);
    RevokedForGood(c, states, events, i + 1, j, token, device, a, now);
  }

  /** The two writes of a logout may be interrupted; the first already ends the session. */
  lemma LogoutEndsSession(c: Config, states: seq<State>, events: seq<Event>, i: nat, j: nat,
                          device: nat, a: Access, now: int)
    requires IsRun(c, states, events) && i < j < |states| && events[i].Revoke?
    requires events[i].token in states[i].store.tokens
    requires states[i].store.tokens[events[i].token].user == events[i].user
    requires states[i].store.tokens[events[i].token].device == events[i].device
    ensures !Refreshable(states[j].store, events[i].token, device, now)
    ensures a.sid == events[i].token ==> !Accepts(states[j].store, a, now)
  {
    assert Step(c, states[i], events[i], states[i + 1]);
    RevokedForGood(c, states, events, i + 1, j, events[i].token, device, a, now);
  }

  /** Signing counts whole seconds; this is when the second it falls in begins. */
  function SignedAt(now: int, lag: nat): int {
    1000 * ((now + lag) / 1000)
  }

  /**
   * A token's own expiry is past its session's end exactly when the second it is signed in begins less
   * than its lifetime before that end. Limited by the session, that is more than the dropped fraction
   * after measuring; limited by its own lifetime, more than the time to spare after measuring.
   */
  lemma ExpirySlips(c: Config, user: nat, sid: nat, deadline: int, now: int, lag: nat)
    ensures var slips := 1000 * Sign(c, user, sid, deadline, now, lag).exp > deadline;
            && (slips <==> SignedAt(now, lag) > deadline - 1000 * ExpiresIn(c, deadline, now))
            && ((deadline - now) / 1000 <= c.accessTtl ==>
                  (slips <==> SignedAt(now, lag) - now > (deadline - now) % 1000))
            && (c.accessTtl <= (deadline - now) / 1000 ==>
                  (slips <==> SignedAt(now, lag) - now > deadline - now - 1000 * c.accessTtl))
            && (SignedAt(now, lag) <= now ==> !slips)
  {
    assert deadline - now == 1000 * ((deadline - now) / 1000) + (deadline - now) % 1000;
  }

  /** One millisecond is enough for it to slip. */
  lemma ExpirySlipsByOneMillisecond()
    ensures var c := Config(900, 86400, 1);
            1000 * Sign(c, 7, 1, 10999, 999, 1).exp > 10999 && ExpiresIn(c, 10999, 999) > 0
  {
  }

  /** A token limited by its own lifetime slips as well. */
  lemma ShortTokenSlips()
    ensures var c := Config(10, 86400, 1);
            1000 * Sign(c, 7, 1, 11000, 0, 2000).exp > 11000 && ExpiresIn(c, 11000, 0) == c.accessTtl
  {
  }

  // ---------- What a login gives, exactly ----------

  /** The end of every token and session of a login at the given time. */
  predicate EndsAt(c: Config, start: int, end: int) {
    && end <= start + 86_400_000 * c.maxAgeDays && end <= start + 1000 * c.refreshTtl
    && (end == start + 86_400_000 * c.maxAgeDays || end == start + 1000 * c.refreshTtl)
  }

  /** The event ends the session of that token, or makes its user inactive. */
  predicate Ends(e: Event, token: nat, user: nat, device: nat) {
    || e == Revoke(token, user, device)
    || e == Deactivate(token, user)
    || (e.RevokeAll? && e.user == user)
    || e == SetUser(user, false)
  }

  /** The token's row is untouched and its user active. */
  predicate Untouched(s: Store, token: nat, row: Token) {
    && token in s.tokens && s.tokens[token] == row && row.revokedAt.None?
    && row.user in s.users && s.users[row.user]
  }

  /** Of the logins under way only the one that wrote the token has it, and only until it completes. */
  ghost predicate OnlyLogin(s: State, login: nat, token: nat, user: nat, deadline: int, done: bool) {
    forall l | l in s.logins && s.logins[l].token == token ::
      !done && l == login && s.logins[l].user == user && s.logins[l].deadline == deadline
  }

  /** The session row is there exactly once the login is complete. */
  predicate SessionRow(s: Store, token: nat, user: nat, deadline: int, done: bool) {
    if done then token in s.sessions && s.sessions[token] == Session(user, deadline, true) else token !in s.sessions
  }

  /** The login still has its token, unless it gave up. */
  predicate HasToken(s: State, login: nat, token: nat) {
    login in s.logins ==> s.logins[login].token == token
  }

  lemma StepUntouched(c: Config, s: State, e: Event, t: State, token: nat, row: Token)
    requires Step(c, s, e, t) && Untouched(s.store, token, row) && !Ends(e, token, row.user, row.device)
    ensures Untouched(t.store, token, row)
  {
    hide ExpiresIn, Sign, SessionEnd, NewToken, Refreshable;
  }

  lemma StepOnlyLogin(c: Config, s: State, e: Event, t: State, login: nat, token: nat, user: nat, deadline: int,
                      done: bool)
    requires Step(c, s, e, t) && OnlyLogin(s, login, token, user, deadline, done) && token in s.store.tokens
    ensures OnlyLogin(t, login, token, user, deadline, done)
  {
    hide ExpiresIn, Sign, SessionEnd, NewToken, Refreshable;
  }

  lemma StepSession(c: Config, s: State, e: Event, t: State, login: nat, token: nat, row: Token, deadline: int,
                    done: bool)
    requires Step(c, s, e, t) && OnlyLogin(s, login, token, row.user, deadline, done)
    requires SessionRow(s.store, token, row.user, deadline, done) && !Ends(e, token, row.user, row.device)
    requires e == Complete(login) ==> done || s.logins[login].token != token
    ensures SessionRow(t.store, token, row.user, deadline, done)
  {
    hide ExpiresIn, Sign, SessionEnd, NewToken, Refreshable;
  }

  /** Event i begins a login of an active user, and up to state j nothing ends it or makes the user inactive. */
  ghost predicate Undisturbed(c: Config, states: seq<State>, events: seq<Event>, i: nat, j: nat) {
    && IsRun(c, states, events) && i < j < |states| && events[i].Begin?
    && events[i].user in states[i].store.users && states[i].store.users[events[i].user]
    && forall m | i < m < j :: !Ends(events[m], events[i].token, events[i].user, events[i].device)
  }

  /** Up to event k the login is neither completed nor begun again. */
  ghost predicate Pending(events: seq<Event>, i: nat, k: nat)
    requires i < k <= |events| && events[i].Begin?
  {
    forall m | i < m < k ::
      events[m] != Complete(events[i].login) && !(events[m].Begin? && events[m].login == events[i].login)
  }

  /** What is on file for the login of event i. */
  ghost predicate OnFile(c: Config, states: seq<State>, events: seq<Event>, i: nat, m: nat, row: Token, done: bool)
    requires i < m < |states| && i < |events| && events[i].Begin?
  {
    var e, s, deadline := events[i], states[m], states[i + 1].now + 86_400_000 * c.maxAgeDays;
    && row.user == e.user && row.device == e.device && EndsAt(c, states[i + 1].now, row.expiresAt)
    && Untouched(s.store, e.token, row)
    && OnlyLogin(s, e.login, e.token, e.user, deadline, done)
    && SessionRow(s.store, e.token, e.user, deadline, done)
  }

  lemma BeginsOnFile(c: Config, states: seq<State>, events: seq<Event>, i: nat) returns (row: Token)
    requires Undisturbed(c, states, events, i, i + 1)
    ensures OnFile(c, states, events, i, i + 1, row, false) && HasToken(states[i + 1], events[i].login, events[i].token)
  {
    hide ExpiresIn, Sign, Refreshable;
    RunFixed(c, states, events, i);
    var s, e, t := states[i], events[i], states[i + 1];
    assert Step(c, s, e, t);
    row := NewToken(c, e.user, e.device, t.now);
    assert EndsAt(c, t.now, row.expiresAt);
    forall l | l in s.logins ensures s.logins[l].token != e.token {
      assert Fixed(c, s.store, s.logins[l].token, s.logins[l].user, s.logins[l].deadline);
    }
    assert e.token !in s.store.sessions;
  }

  lemma {:induction false} WaitsOnFile(c: Config, states: seq<State>, events: seq<Event>, i: nat, j: nat)
    returns (row: Token)
    requires Undisturbed(c, states, events, i, j) && Pending(events, i, j)
    ensures OnFile(c, states, events, i, j, row, false) && HasToken(states[j], events[i].login, events[i].token)
  {
    hide Step, OnlyLogin, SessionRow, Untouched, EndsAt;
    if j == i + 1 {
      row := BeginsOnFile(c, states, events, i);
    } else {
      row := WaitsOnFile(c, states, events, i, j - 1);
      var e := events[i];
      StepOf(c, states, events, j - 1);
      StepFile(c, states, events, i, j - 1, row, false);
      StepHasToken(c, states[j - 1], events[j - 1], states[j], e.login, e.token);
    }
  }

  lemma StepOf(c: Config, states: seq<State>, events: seq<Event>, i: nat)
    requires IsRun(c, states, events) && i < |events|
    ensures i + 1 < |states| && Step(c, states[i], events[i], states[i + 1])
  {
  }

  lemma StepHasToken(c: Config, s: State, e: Event, t: State, login: nat, token: nat)
    requires Step(c, s, e, t) && HasToken(s, login, token) && !(e.Begin? && e.login == login)
    ensures HasToken(t, login, token)
  {
    hide ExpiresIn, Sign, SessionEnd, NewToken, Refreshable;
  }

  lemma StepFile(c: Config, states: seq<State>, events: seq<Event>, i: nat, m: nat, row: Token, done: bool)
    requires IsRun(c, states, events) && i < m < |events| && events[i].Begin?
    requires OnFile(c, states, events, i, m, row, done)
    requires events[m] == Complete(events[i].login) ==> done
    requires !Ends(events[m], events[i].token, events[i].user, events[i].device)
    ensures OnFile(c, states, events, i, m + 1, row, done)
  {
    hide Step, IsRun, OnlyLogin, SessionRow, Ends, EndsAt;
    StepOf(c, states, events, m);
    var s, e, t := states[m], events[m], states[m + 1];
    var deadline := states[i + 1].now + 86_400_000 * c.maxAgeDays;
    StepUntouched(c, s, e, t, events[i].token, row);
    StepOnlyLogin(c, s, e, t, events[i].login, events[i].token, events[i].user, deadline, done);
    StepSession(c, s, e, t, events[i].login, events[i].token, row, deadline, done);
  }

  lemma CompletesFile(c: Config, states: seq<State>, events: seq<Event>, i: nat, k: nat, row: Token)
    requires IsRun(c, states, events) && i < k < |events| && events[i].Begin?
    requires OnFile(c, states, events, i, k, row, false) && HasToken(states[k], events[i].login, events[i].token)
    requires events[k] == Complete(events[i].login)
    ensures OnFile(c, states, events, i, k + 1, row, true)
  {
    StepOf(c, states, events, k);
  }

  lemma {:induction false} StaysOnFile(c: Config, states: seq<State>, events: seq<Event>, i: nat, k: nat, j: nat)
    returns (row: Token)
    requires Undisturbed(c, states, events, i, j) && i < k < j
    requires Pending(events, i, k) && events[k] == Complete(events[i].login)
    ensures OnFile(c, states, events, i, j, row, true)
  {
    hide Step, OnFile, HasToken, Ends, Pending;
    if j == k + 1 {
      row := WaitsOnFile(c, states, events, i, k);
      CompletesFile(c, states, events, i, k, row);
    } else {
      row := StaysOnFile(c, states, events, i, k, j - 1);
      StepFile(c, states, events, i, j - 1, row, true);
    }
  }

  /**
   * From its last write until something ends it, a login can be refreshed from its device and no other,
   * and its access tokens are accepted until their own expiry, in both cases exactly until the lifetime
   * of the refresh token or the greatest age of a session has passed since it began.
   */
  lemma LoginWorksExactly(c: Config, states: seq<State>, events: seq<Event>, i: nat, k: nat, j: nat,
                          device: nat, a: Access, now: int)
    requires Undisturbed(c, states, events, i, j) && i < k < j
    requires Pending(events, i, k) && events[k] == Complete(events[i].login)
    requires a.sid == events[i].token
    ensures var start := states[i + 1].now;
            var lasts := now < start + 1000 * c.refreshTtl && now < start + 86_400_000 * c.maxAgeDays;
            && (Refreshable(states[j].store, events[i].token, device, now) <==> lasts && device == events[i].device)
            && (Accepts(states[j].store, a, now) <==> lasts && a.user == events[i].user && now / 1000 < a.exp)
  {
    hide IsRun;
    var row := StaysOnFile(c, states, events, i, k, j);
  }

  /** Before its last write nothing of a login works yet. */
  lemma UnfinishedLogin(c: Config, states: seq<State>, events: seq<Event>, i: nat, j: nat,
                        device: nat, a: Access, now: int)
    requires Undisturbed(c, states, events, i, j) && Pending(events, i, j) && a.sid == events[i].token
    ensures !Refreshable(states[j].store, events[i].token, device, now) && !Accepts(states[j].store, a, now)
  {
    hide IsRun;
    var row := WaitsOnFile(c, states, events, i, j);
  }

  /** The lifetime of an access token: the configured one or the whole seconds left, whichever is less. */
  predicate Lives(c: Config, deadline: int, now: int, seconds: int) {
    && seconds <= c.accessTtl && seconds <= (deadline - now) / 1000
    && (seconds == c.accessTtl || seconds == (deadline - now) / 1000)
  }

  /** The refresh token an event signs for, if it signs. */
  function SignsFor(s: State, e: Event): Option<nat> {
    if e.SignLogin? && e.login in s.logins then Some(s.logins[e.login].token)
    else if e.Issue? && e.request in s.refreshes then Some(s.refreshes[e.request].token)
    else None
  }

  /**
   * What is issued in any run: at most one token a step, for the user of its refresh token, with that
   * lifetime measured against the age limit of the login, and none exactly when that leaves no second.
   */
  lemma IssuedExactly(c: Config, states: seq<State>, events: seq<Event>, i: nat) returns (seconds: int)
    requires IsRun(c, states, events) && i < |events|
    ensures var s, e, t, token := states[i], events[i], states[i + 1], SignsFor(states[i], events[i]);
            && (token.None? ==> t.issued == s.issued)
            && (token.Some? ==>
                  && token.value in s.store.tokens && (e.SignLogin? || e.Issue?)
                  && var row := s.store.tokens[token.value];
                  && Lives(c, row.issuedAt + 86_400_000 * c.maxAgeDays, t.now, seconds)
                  && t.issued == s.issued
                     + if seconds <= 0 then {}
                       else {Access(row.user, token.value, (t.now + e.lag) / 1000 + seconds, e.lag)})
  {
    seconds := 0;
    RunFixed(c, states, events, i);
    StepOf(c, states, events, i);
    var s, e, t := states[i], events[i], states[i + 1];
    if e.SignLogin? {
      var l := s.logins[e.login];
      assert Fixed(c, s.store, l.token, l.user, l.deadline);
      seconds := ExpiresIn(c, l.deadline, t.now);
    } else if e.Issue? {
      var r := s.refreshes[e.request];
      assert Fixed(c, s.store, r.token, r.user, r.deadline);
      seconds := ExpiresIn(c, r.deadline, t.now);
    }
  }

  /** The user is unknown or inactive. */
  predicate Barred(s: Store, user: nat) {
    user !in s.users || !s.users[user]
  }

  lemma {:induction false} StaysBarred(c: Config, states: seq<State>, events: seq<Event>, user: nat, i: nat, j: nat)
    requires IsRun(c, states, events) && i <= j < |states| && Barred(states[i].store, user)
    requires forall m | i <= m < j :: events[m] != SetUser(user, true)
    ensures Barred(states[j].store, user)
  {
    hide Step;
    if i < j {
      StaysBarred(c, states, events, user, i, j - 1);
      StepBarred(c, states[j - 1], events[j - 1], states[j], user);
    }
  }

  lemma StepBarred(c: Config, s: State, e: Event, t: State, user: nat)
    requires Step(c, s, e, t) && Barred(s.store, user) && e != SetUser(user, true)
    ensures Barred(t.store, user)
  {
    hide ExpiresIn, Sign, SessionEnd, NewToken, Refreshable;
  }

  /** After a suspension nothing of the user works, a login since then included, until it is lifted. */
  lemma SuspensionBars(c: Config, states: seq<State>, events: seq<Event>, i: nat, j: nat,
                       token: nat, device: nat, a: Access, now: int)
    requires IsRun(c, states, events) && i < j < |states| && events[i].RevokeAll? && events[i].suspend
    requires forall m | i < m < j :: events[m] != SetUser(events[i].user, true)
    ensures a.user == events[i].user ==> !Accepts(states[j].store, a, now)
    ensures token in states[j].store.tokens && states[j].store.tokens[token].user == events[i].user ==>
              !Refreshable(states[j].store, token, device, now)
  {
    StepOf(c, states, events, i);
    StaysBarred(c, states, events, events[i].user, i + 1, j);
  }

  /** The look-up of event i found the refresh token good, and the refresh under way is for it. */
  ghost predicate LookedUp(states: seq<State>, events: seq<Event>, i: nat, request: nat, r: Refresh)
    requires i < |events| < |states|
  {
    && events[i].Lookup? && events[i].request == request && events[i].token == r.token
    && Refreshable(states[i].store, r.token, events[i].device, states[i + 1].now)
  }

  /** Nothing is refreshed without a look-up that found the token good for the device that asked. */
  lemma {:induction false} RefreshWasLookedUp(c: Config, states: seq<State>, events: seq<Event>, j: nat, request: nat)
    returns (i: nat)
    requires IsRun(c, states, events) && j < |states| && request in states[j].refreshes
    ensures i < j && LookedUp(states, events, i, request, states[j].refreshes[request])
  {
    hide Refreshable, Sign, ExpiresIn;
    StepOf(c, states, events, j - 1);
    if request in states[j - 1].refreshes {
      i := RefreshWasLookedUp(c, states, events, j - 1, request);
    } else {
      i := j - 1;
    }
  }

  /** A look-up starts a refresh exactly when the token is good, and for the user and end on file. */
  lemma LookupExactly(c: Config, states: seq<State>, events: seq<Event>, i: nat)
    requires IsRun(c, states, events) && i < |events| && events[i].Lookup?
    ensures var s, e, t := states[i], events[i], states[i + 1];
            && t.store == s.store && t.logins == s.logins && t.issued == s.issued
            && if Refreshable(s.store, e.token, e.device, t.now) then
                 && e.request in t.refreshes && t.refreshes - {e.request} == s.refreshes
                 && t.refreshes[e.request].token == e.token
                 && t.refreshes[e.request].user == s.store.tokens[e.token].user
                 && t.refreshes[e.request].deadline
                    == s.store.tokens[e.token].issuedAt + 86_400_000 * c.maxAgeDays
               else t.refreshes == s.refreshes
  {
    RunFixed(c, states, events, i);
    StepOf(c, states, events, i);
    var s, e := states[i], events[i];
    if Refreshable(s.store, e.token, e.device, states[i + 1].now) {
      assert Fixed(c, s.store, e.token, s.store.sessions[e.token].user, s.store.sessions[e.token].expiresAt);
    }
  }

  // ---------- The service on its rows ----------

  datatype Error = Unauthorized | BadRequest

  class AuthService {
    const config: Config
    var users: map<nat, bool>
    var tokens: map<nat, Token>
    var sessions: map<nat, Session>

    constructor (config: Config)
      ensures this.config == config && View() == Store(map[], map[], map[])
    {
      this.config := config;
      users, tokens, sessions := map[], map[], map[];
    }

    function View(): Store
      reads this
    {
      Store(users, tokens, sessions)
    }

    method IssueAccessToken(user: nat, sid: nat, deadline: int, now: int, lag: nat) returns (r: Result<Access, Error>)
      ensures r == if ExpiresIn(config, deadline, now) <= 0 then Err(Unauthorized)
                   else Ok(Sign(config, user, sid, deadline, now, lag))
      ensures r.Ok? ==> now < deadline && 1000 * r.value.exp <= deadline + lag
      ensures r.Ok? <==> config.accessTtl >= 1 && deadline - now >= 1000
      ensures r.Ok? ==> r.value.user == user && r.value.sid == sid && r.value.lag == lag
      ensures r.Ok? ==> Lives(config, deadline, now, r.value.exp - (now + lag) / 1000)
    {
      var expiresIn := (deadline - now) / 1000;
      if config.accessTtl <= expiresIn {
        expiresIn := config.accessTtl;
      }
      if expiresIn <= 0 {
        return Err(Unauthorized);
      }
      return Ok(Access(user, sid, (now + lag) / 1000 + expiresIn, lag));
    }

    method IssueTokens(user: nat, device: nat, token: nat, now: int, lag: nat)
      returns (deadline: int, r: Result<Access, Error>)
      requires token !in tokens
      modifies this
      ensures View() == old(View()).(tokens := old(tokens)[token := NewToken(config, user, device, now)])
      ensures deadline == SessionEnd(config, now) && deadline == now + 86_400_000 * config.maxAgeDays
      ensures EndsAt(config, now, tokens[token].expiresAt) && tokens[token].revokedAt.None?
      ensures tokens[token].user == user && tokens[token].device == device && tokens[token].issuedAt == now
      ensures r.Ok? ==> r.value == Sign(config, user, token, deadline, now, lag)
    {
      deadline := now + config.maxAgeDays * 86400 * 1000;
      var expiresAt := now + config.refreshTtl * 1000;
      if deadline <= expiresAt {
        expiresAt := deadline;
      }
      tokens := tokens[token := Token(user, device, now, expiresAt, None)];
      r := IssueAccessToken(user, token, deadline, now, lag);
    }

    /** The lookup of a refresh: what it found, or no. */
    method LookupRefresh(token: nat, device: nat, now: int) returns (r: Result<Refresh, Error>)
      ensures r.Ok? <==> Refreshable(View(), token, device, now)
      ensures r.Ok? ==> r.value == Refresh(token, tokens[token].user, sessions[token].expiresAt)
    {
      if token !in tokens || tokens[token].device != device || tokens[token].revokedAt.Some?
         || tokens[token].expiresAt <= now || token !in sessions || !sessions[token].active
         || sessions[token].expiresAt <= now || tokens[token].user !in users || !users[tokens[token].user] {
        return Err(Unauthorized);
      }
      return Ok(Refresh(token, tokens[token].user, sessions[token].expiresAt));
    }

    method Logout(user: nat, device: nat, token: nat, now: int) returns (r: Result<(), Error>)
      modifies this
      ensures r.Ok? <==> token in old(tokens) && old(tokens)[token].user == user && old(tokens)[token].device == device
      ensures View() == if r.Ok? then Deactivated(Revoked(old(View()), token, user, device, now), token, user)
                        else old(View())
      ensures r.Ok? ==> forall d, at :: !Refreshable(View(), token, d, at)
      ensures users == old(users) && tokens.Keys == old(tokens).Keys && sessions.Keys == old(sessions).Keys
      ensures forall t :: t in tokens && t != token ==> tokens[t] == old(tokens)[t]
      ensures forall t :: t in sessions && t != token ==> sessions[t] == old(sessions)[t]
      ensures r.Ok? && token in sessions && sessions[token].user == user ==> !sessions[token].active
    {
      if token !in tokens || tokens[token].user != user || tokens[token].device != device {
        return Err(BadRequest);
      }
      tokens := tokens[token := tokens[token].(revokedAt := Some(now))];
      if token in sessions && sessions[token].user == user {
        sessions := sessions[token := sessions[token].(active := false)];
      }
      return Ok(());
    }

    /** The revoking writes of a password reset, an admin's new password or a suspension. */
    method EndSessions(user: nat, suspend: bool, now: int)
      modifies this
      ensures View() == AllRevoked(old(View()), user, suspend, now)
      ensures forall t, d, at :: t in tokens && tokens[t].user == user ==> !Refreshable(View(), t, d, at)
      ensures tokens.Keys == old(tokens).Keys && sessions.Keys == old(sessions).Keys
      ensures forall t :: t in tokens && tokens[t].user != user ==> tokens[t] == old(tokens)[t]
      ensures forall t :: t in tokens && old(tokens)[t].revokedAt.Some? ==> tokens[t] == old(tokens)[t]
      ensures forall t :: t in sessions && sessions[t].user != user ==> sessions[t] == old(sessions)[t]
      ensures forall t :: t in sessions && sessions[t].user == user ==> !sessions[t].active
      ensures users == if suspend && user in old(users) then old(users)[user := false] else old(users)
    {
      if suspend && user in users {
        users := users[user := false];
      }
      tokens := map t | t in tokens :: if tokens[t].user == user && tokens[t].revokedAt.None?
                                       then tokens[t].(revokedAt := Some(now)) else tokens[t];
      sessions := map t | t in sessions :: if sessions[t].user == user then sessions[t].(active := false)
                                           else sessions[t];
    }
  }
}
