/**
 * The sliding limit on OTP requests per phone and purpose, and on password resets per user
 * (backend/src/modules/auth/auth.service.ts:123-140, 711-724, 731-741).
 */
module OtpLimit {

  datatype Request<K> = Request(key: K, at: int)

  /** The window in milliseconds, both ends included, and the most requests it may hold. */
  datatype Limit = Limit(window: nat, most: nat)

  /** The requests of a key created between two times, both included. */
  function Count<K(==)>(log: seq<Request<K>>, key: K, from: int, to: int): nat {
    if log == [] then 0
    else
      var last := log[|log| - 1];
      Count(log[..|log| - 1], key, from, to) + if last.key == key && from <= last.at <= to then 1 else 0
  }

  /** The requests of a key created since a time. */
  function CountSince<K(==)>(log: seq<Request<K>>, key: K, from: int): nat {
    if log == [] then 0
    else
      var last := log[|log| - 1];
      CountSince(log[..|log| - 1], key, from) + if last.key == key && from <= last.at then 1 else 0
  }

  predicate Allowed<K(==)>(log: seq<Request<K>>, limit: Limit, key: K, now: int) {
    CountSince(log, key, now - limit.window) < limit.most
  }

  /** The log after an attempt, allowed or not. */
  function Attempt<K(==)>(log: seq<Request<K>>, limit: Limit, key: K, now: int): seq<Request<K>> {
    if Allowed(log, limit, key, now) then log + [Request(key, now)] else log
  }

  /** The log after a list of attempts, from an empty one. */
  function After<K(==)>(attempts: seq<Request<K>>, limit: Limit): seq<Request<K>> {
    if attempts == [] then []
    else
      var last := attempts[|attempts| - 1];
      Attempt(After(attempts[..|attempts| - 1], limit), limit, last.key, last.at)
  }

  ghost predicate InOrder<K>(log: seq<Request<K>>) {
    forall i, j | 0 <= i < j < |log| :: log[i].at <= log[j].at
  }

  ghost predicate NoLaterThan<K>(log: seq<Request<K>>, now: int) {
    forall i | 0 <= i < |log| :: log[i].at <= now
  }

  lemma {:induction false} CountWithin<K>(log: seq<Request<K>>, key: K, from: int, to: int, since: int)
    requires since <= from
    ensures Count(log, key, from, to) <= CountSince(log, key, since)
  {
    if log != [] {
      CountWithin(log[..|log| - 1], key, from, to, since);
    }
  }

  lemma {:induction false} CountUpTo<K>(log: seq<Request<K>>, key: K, from: int, now: int)
    requires NoLaterThan(log, now)
    ensures Count(log, key, from, now) == CountSince(log, key, from)
  {
    if log != [] {
      CountUpTo(log[..|log| - 1], key, from, now);
    }
  }

  lemma {:induction false} LogInOrder<K>(attempts: seq<Request<K>>, limit: Limit, now: int)
    requires InOrder(attempts) && NoLaterThan(attempts, now)
    ensures NoLaterThan(After(attempts, limit), now)
  {
    if attempts != [] {
      LogInOrder(attempts[..|attempts| - 1], limit, now);
    }
  }

  /**
   * Under a clock that does not run backwards, every interval of the window's length, wherever it
   * starts, holds at most the permitted number of requests of a key.
   */
  lemma {:induction false} AtMostInAnyWindow<K>(attempts: seq<Request<K>>, limit: Limit, key: K, start: int)
    requires InOrder(attempts)
    ensures Count(After(attempts, limit), key, start, start + limit.window) <= limit.most
  {
    if attempts != [] {
      var before, last := attempts[..|attempts| - 1], attempts[|attempts| - 1];
      var log := After(before, limit);
      AtMostInAnyWindow(before, limit, key, start);
      if Allowed(log, limit, last.key, last.at) && last.key == key && start <= last.at <= start + limit.window {
        CountWithin(log, key, start, start + limit.window, last.at - limit.window);
        assert (log + [last])[..|log|] == log;
      } else if Allowed(log, limit, last.key, last.at) {
        assert (log + [last])[..|log|] == log;
      }
    }
  }

  /** A request is refused exactly when the window that ends now already holds the permitted number. */
  lemma RefusedWhenFull<K>(attempts: seq<Request<K>>, limit: Limit, key: K, now: int)
    requires InOrder(attempts) && NoLaterThan(attempts, now)
    ensures var log := After(attempts, limit);
            Attempt(log, limit, key, now) == log <==> Count(log, key, now - limit.window, now) == limit.most
  {
    hide Count, CountSince, After, InOrder, NoLaterThan;
    var log := After(attempts, limit);
    LogInOrder(attempts, limit, now);
    CountUpTo(log, key, now - limit.window, now);
    AtMostInAnyWindow(attempts, limit, key, now - limit.window);
  }

  /** Which requests of the log are the key's and lie between two times, both included. */
  ghost function Places<K>(log: seq<Request<K>>, key: K, from: int, to: int): set<nat> {
    set i: nat | i < |log| && log[i].key == key && from <= log[i].at && log[i].at <= to
  }

  lemma {:induction false} CountedExactly<K>(log: seq<Request<K>>, key: K, from: int, to: int)
    ensures Count(log, key, from, to) == |Places(log, key, from, to)|
  {
    if log != [] {
      var n := |log| - 1;
      CountedExactly(log[..n], key, from, to);
      var before := Places(log[..n], key, from, to);
      assert Places(log, key, from, to)
             == if log[n].key == key && from <= log[n].at <= to then before + {n} else before;
    }
  }

  /** The two logs hold as many requests of the key in every interval. */
  ghost predicate SameCounts<K>(log: seq<Request<K>>, own: seq<Request<K>>, key: K) {
    && (forall from, to :: Count(log, key, from, to) == Count(own, key, from, to))
    && forall from :: CountSince(log, key, from) == CountSince(own, key, from)
  }

  lemma SameAfterAttempt<K>(log: seq<Request<K>>, own: seq<Request<K>>, limit: Limit, key: K, last: Request<K>)
    requires SameCounts(log, own, key)
    ensures SameCounts(Attempt(log, limit, last.key, last.at),
                       if last.key == key then Attempt(own, limit, key, last.at) else own, key)
  {
    hide Count, CountSince;
    forall from, to
      ensures Count(log + [last], key, from, to) == Count(log, key, from, to) + One(last, key, from, to)
      ensures Count(own + [last], key, from, to) == Count(own, key, from, to) + One(last, key, from, to)
    {
      CountAppended(log, last, key, from, to);
      CountAppended(own, last, key, from, to);
    }
    forall from
      ensures CountSince(log + [last], key, from) == CountSince(log, key, from) + One(last, key, from, last.at)
      ensures CountSince(own + [last], key, from) == CountSince(own, key, from) + One(last, key, from, last.at)
    {
      CountAppended(log, last, key, from, last.at);
      CountAppended(own, last, key, from, last.at);
    }
  }

  /** What one request adds to the count of an interval. */
  function One<K(==)>(r: Request<K>, key: K, from: int, to: int): nat {
    if r.key == key && from <= r.at <= to then 1 else 0
  }

  /** Requests of other keys never count: a key is served or refused as if it were the only one. */
  lemma {:induction false} KeysAreIndependent<K>(attempts: seq<Request<K>>, limit: Limit, key: K)
    ensures SameCounts(After(attempts, limit), After(Of(attempts, key), limit), key)
  {
    hide SameCounts, Attempt;
    if attempts == [] {
      Nothing(key);
    } else {
      var before, last := attempts[..|attempts| - 1], attempts[|attempts| - 1];
      KeysAreIndependent(before, limit, key);
      SameAfterAttempt(After(before, limit), After(Of(before, key), limit), limit, key, last);
      var all := Of(before, key) + [last];
      assert all[..|all| - 1] == Of(before, key) && Of(before, key) + [] == Of(before, key);
    }
  }

  lemma Nothing<K>(key: K)
    ensures SameCounts([], [], key)
  {
  }

  lemma CountAppended<K>(log: seq<Request<K>>, last: Request<K>, key: K, from: int, to: int)
    ensures Count(log + [last], key, from, to)
            == Count(log, key, from, to) + One(last, key, from, to)
    ensures CountSince(log + [last], key, from)
            == CountSince(log, key, from) + One(last, key, from, last.at)
  {
    assert (log + [last])[..|log|] == log;
  }

  /** The attempts of one key. */
  function Of<K(==)>(attempts: seq<Request<K>>, key: K): seq<Request<K>> {
    if attempts == [] then []
    else
      var last := attempts[|attempts| - 1];
      Of(attempts[..|attempts| - 1], key) + if last.key == key then [last] else []
  }

  /** An accepted request is written with its key and time at the end; a refused one leaves the log. */
  lemma AcceptedIsWritten<K>(attempts: seq<Request<K>>, limit: Limit, key: K, now: int)
    requires InOrder(attempts) && NoLaterThan(attempts, now)
    ensures var log := After(attempts, limit);
            Attempt(log, limit, key, now)
            == if |Places(log, key, now - limit.window, now)| < limit.most then log + [Request(key, now)] else log
  {
    hide Count, CountSince, After, Places, InOrder, NoLaterThan;
    var log := After(attempts, limit);
    LogInOrder(attempts, limit, now);
    CountUpTo(log, key, now - limit.window, now);
    CountedExactly(log, key, now - limit.window, now);
  }

  class Limiter<K(==)> {
    const limit: Limit
    var log: seq<Request<K>>

    constructor (limit: Limit)
      ensures this.limit == limit && log == []
    {
      this.limit := limit;
      log := [];
    }

    /** The count and the insert, taken as one step. */
    method RequestOtp(key: K, now: int) returns (ok: bool)
      modifies this
      ensures log == Attempt(old(log), limit, key, now)
      ensures ok <==> CountSince(old(log), key, now - limit.window) < limit.most
    {
      var count := CountSince(log, key, now - limit.window);
      if count >= limit.most {
        return false;
      }
      log := log + [Request(key, now)];
      return true;
    }
  }
}
