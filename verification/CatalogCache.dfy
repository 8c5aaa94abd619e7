/**
 * The catalogue cache and its generation counter under concurrent builds
 * (backend/src/modules/catalog/catalog.service.ts:182-217, 280-283).
 */
module CatalogCache {
  import opened Wrappers
  import opened CatalogCards

  const TTL_MS := 15000

  datatype Entry = Entry(cards: seq<Card>, expiresAt: int)

  /** The two fields of the service. */
  datatype Service = Service(generation: nat, cache: Option<Entry>)

  /** A rebuild under way: the generation it began in and the query results it has so far. */
  datatype Build = Build(generation: nat, lodges: Option<seq<Lodge>>, photos: Option<seq<Of<Photo>>>,
                         rooms: Option<seq<Of<Rates>>>, reviews: Option<seq<Of<Review>>>)

  datatype State = State(service: Service, builds: map<nat, Build>, data: Catalog)

  /** Each query result arrives as its own event, so the data may change between any two of them. */
  datatype Event =
    | Request(id: nat, now: int)
    | ReadLodges(id: nat)
    | ReadPhotos(id: nat)
    | ReadRooms(id: nat)
    | ReadReviews(id: nat)
    | Finish(id: nat, now: int)
    | Fail(id: nat)
    | Invalidate
    | Change(data: Catalog)

  // ---------- The synchronous pieces ----------

  function Hit(s: Service, now: int): Option<seq<Card>> {
    if s.cache.Some? && s.cache.value.expiresAt > now then Some(s.cache.value.cards) else None
  }

  function Dropped(s: Service): Service {
    Service(s.generation + 1, None)
  }

  function Installed(s: Service, generation: nat, cards: seq<Card>, now: int): Service {
    if generation == s.generation then s.(cache := Some(Entry(cards, now + TTL_MS))) else s
  }

  predicate Complete(b: Build) {
    b.lodges.Some? && b.photos.Some? && b.rooms.Some? && b.reviews.Some?
  }

  function Results(b: Build): Catalog
    requires Complete(b)
  {
    Catalog(b.lodges.value, b.photos.value, b.rooms.value, b.reviews.value)
  }

  // ---------- Runs ----------

  ghost predicate Step(s: State, e: Event, t: State) {
    match e
    case Request(id, now) =>
      if Hit(s.service, now).Some? then t == s
      else id !in s.builds && t == s.(builds := s.builds[id := Build(s.service.generation, None, None, None, None)])
    case ReadLodges(id) =>
      && id in s.builds && s.builds[id].lodges.None?
      && t == s.(builds := s.builds[id := s.builds[id].(lodges := Some(s.data.lodges))])
    case ReadPhotos(id) =>
      && id in s.builds && s.builds[id].lodges.Some? && s.builds[id].photos.None?
      && var found := Within(s.data.photos, Ids(s.builds[id].lodges.value));
         t == s.(builds := s.builds[id := s.builds[id].(photos := Some(found))])
    case ReadRooms(id) =>
      && id in s.builds && s.builds[id].lodges.Some? && s.builds[id].rooms.None?
      && var found := Within(s.data.rooms, Ids(s.builds[id].lodges.value));
         t == s.(builds := s.builds[id := s.builds[id].(rooms := Some(found))])
    case ReadReviews(id) =>
      && id in s.builds && s.builds[id].lodges.Some? && s.builds[id].reviews.None?
      && var found := Within(s.data.reviews, Ids(s.builds[id].lodges.value));
         t == s.(builds := s.builds[id := s.builds[id].(reviews := Some(found))])
    case Finish(id, now) =>
      && id in s.builds && Complete(s.builds[id])
      && var b := s.builds[id];
         t == State(Installed(s.service, b.generation, Cards(Results(b)), now), s.builds - {id}, s.data)
    case Fail(id) => t == s.(builds := s.builds - {id})
    case Invalidate => t == s.(service := Dropped(s.service))
    case Change(data) => t == s.(data := data)
  }

  ghost predicate IsRun(states: seq<State>, events: seq<Event>) {
    && |states| == |events| + 1
    && states[0].service == Service(0, None) && states[0].builds == map[]
    && forall i | 0 <= i < |events| :: Step(states[i], events[i], states[i + 1])
  }

  /** The state right after the latest invalidation before state j, or the first state. */
  function LatestDrop(events: seq<Event>, j: nat): (r: nat)
    requires j <= |events|
    ensures r <= j
    ensures r > 0 ==> events[r - 1].Invalidate?
    ensures forall i | r <= i < j :: !events[i].Invalidate?
  {
    if j == 0 then 0 else if events[j - 1].Invalidate? then j else LatestDrop(events, j - 1)
  }

  /** When a build was requested and in which states each of its queries was answered. */
  datatype Trace = Trace(request: nat, lodges: nat, photos: nat, rooms: nat, reviews: nat)

  ghost predicate Follows(states: seq<State>, events: seq<Event>, from: nat, upto: nat, id: nat, b: Build, t: Trace)
    requires |states| == |events| + 1
  {
    && from <= t.request < upto <= |events|
    && events[t.request].Request? && events[t.request].id == id
    && (b.lodges.Some? ==> t.request < t.lodges < upto && b.lodges.value == states[t.lodges].data.lodges)
    && (b.lodges.None? ==> b.photos.None? && b.rooms.None? && b.reviews.None?)
    && (b.photos.Some? ==>
          t.lodges < t.photos < upto && b.photos.value == Within(states[t.photos].data.photos, Ids(b.lodges.value)))
    && (b.rooms.Some? ==>
          t.lodges < t.rooms < upto && b.rooms.value == Within(states[t.rooms].data.rooms, Ids(b.lodges.value)))
    && (b.reviews.Some? ==>
          t.lodges < t.reviews < upto && b.reviews.value == Within(states[t.reviews].data.reviews, Ids(b.lodges.value)))
  }

  ghost predicate Traced(states: seq<State>, events: seq<Event>, from: nat, upto: nat, id: nat, b: Build)
    requires |states| == |events| + 1
  {
    exists t :: Follows(states, events, from, upto, id, b, t)
  }

  /** Step f finished a build all of whose queries were issued and answered since `from`. */
  ghost predicate Produced(states: seq<State>, events: seq<Event>, from: nat, f: nat, entry: Entry, b: Build)
    requires |states| == |events| + 1
  {
    && f < |events| && events[f].Finish? && Complete(b)
    && Traced(states, events, from, f, events[f].id, b)
    && entry == Entry(Cards(Results(b)), events[f].now + TTL_MS)
  }

  ghost predicate Fresh(states: seq<State>, events: seq<Event>, from: nat, upto: nat, entry: Entry)
    requires |states| == |events| + 1
  {
    exists f: nat, b :: f < upto && Produced(states, events, from, f, entry, b)
  }

  /** A build of the current generation is traced; no build is of a later one. */
  ghost predicate BuildTraced(states: seq<State>, events: seq<Event>, j: nat, id: nat)
    requires |states| == |events| + 1 && j < |states| && id in states[j].builds
  {
    && states[j].builds[id].generation <= states[j].service.generation
    && (states[j].builds[id].generation == states[j].service.generation ==>
          Traced(states, events, LatestDrop(events, j), j, id, states[j].builds[id]))
  }

  ghost predicate BuildsTraced(states: seq<State>, events: seq<Event>, j: nat)
    requires |states| == |events| + 1 && j < |states|
  {
    forall id | id in states[j].builds :: BuildTraced(states, events, j, id)
  }

  lemma FollowsLonger(states: seq<State>, events: seq<Event>, from: nat, upto: nat, id: nat, b: Build)
    requires |states| == |events| + 1 && upto < |events| && Traced(states, events, from, upto, id, b)
    ensures Traced(states, events, from, upto + 1, id, b)
  {
    var t :| Follows(states, events, from, upto, id, b, t);
    assert Follows(states, events, from, upto + 1, id, b, t);
  }

  /** An answered query extends the trace of its build. */
  lemma ReadTraced(states: seq<State>, events: seq<Event>, j: nat, from: nat, b: Build)
    requires IsRun(states, events) && j < |events|
    requires events[j].ReadLodges? || events[j].ReadPhotos? || events[j].ReadRooms? || events[j].ReadReviews?
    requires events[j].id in states[j].builds && b == states[j].builds[events[j].id]
    requires Traced(states, events, from, j, events[j].id, b)
    ensures Traced(states, events, from, j + 1, events[j].id, states[j + 1].builds[events[j].id])
  {
    assert Step(states[j], events[j], states[j + 1]);
    var t :| Follows(states, events, from, j, events[j].id, b, t);
    var u := match events[j]
      case ReadLodges(_) => t.(lodges := j)
      case ReadPhotos(_) => t.(photos := j)
      case ReadRooms(_) => t.(rooms := j)
      case _ => t.(reviews := j);
    assert Follows(states, events, from, j + 1, events[j].id, states[j + 1].builds[events[j].id], u);
  }

  lemma BuildsStayTraced(states: seq<State>, events: seq<Event>, j: nat)
    requires IsRun(states, events) && j < |events| && BuildsTraced(states, events, j)
    ensures BuildsTraced(states, events, j + 1)
  {
    hide Within, Cards, Ids;
    assert Step(states[j], events[j], states[j + 1]);
    var from := LatestDrop(events, j);
    var next, builds := j + 1, states[j + 1].builds;
    forall id | id in builds ensures BuildTraced(states, events, next, id) {
      var b := builds[id];
      assert id in states[j].builds ==> BuildTraced(states, events, j, id);
      if b.generation != states[j + 1].service.generation || events[j].Invalidate? {
      } else if id in states[j].builds && states[j].builds[id] == b {
        FollowsLonger(states, events, from, j, id, b);
      } else if events[j].Request? {
        assert Follows(states, events, from, j + 1, id, b, Trace(j, 0, 0, 0, 0));
      } else {
        ReadTraced(states, events, j, from, states[j].builds[id]);
      }
    }
  }

  lemma FreshLonger(states: seq<State>, events: seq<Event>, from: nat, upto: nat, entry: Entry)
    requires |states| == |events| + 1 && Fresh(states, events, from, upto, entry)
    ensures Fresh(states, events, from, upto + 1, entry)
  {
    var f: nat, b :| f < upto && Produced(states, events, from, f, entry, b);
  }

  lemma {:induction false} BuildsAreTraced(states: seq<State>, events: seq<Event>, j: nat)
    requires IsRun(states, events) && j < |states|
    ensures BuildsTraced(states, events, j)
  {
    if j > 0 {
      BuildsAreTraced(states, events, j - 1);
      BuildsStayTraced(states, events, j - 1);
    }
  }

  /**
   * Whatever the interleaving of builds, invalidations and changes of the data, the cached cards
   * come from a build that was requested, and whose four queries were all answered, after the
   * latest invalidation.
   */
  lemma {:induction false} CachedCardsAreFresh(states: seq<State>, events: seq<Event>, j: nat)
    requires IsRun(states, events) && j < |states| && states[j].service.cache.Some?
    ensures Fresh(states, events, LatestDrop(events, j), j, states[j].service.cache.value)
  {
    hide Within, Cards, Ids;
    if j > 0 {
      assert Step(states[j - 1], events[j - 1], states[j]);
      if states[j].service == states[j - 1].service {
        CachedCardsAreFresh(states, events, j - 1);
        FreshLonger(states, events, LatestDrop(events, j - 1), j - 1, states[j].service.cache.value);
      } else {
        BuildsAreTraced(states, events, j - 1);
        assert BuildTraced(states, events, j - 1, events[j - 1].id);
        var b := states[j - 1].builds[events[j - 1].id];
        assert Produced(states, events, LatestDrop(events, j), j - 1, states[j].service.cache.value, b);
      }
    }
  }

  /**
   * With the data unchanged since the latest invalidation, what a hit returns is what a build from
   * the data of that moment would return, and its build finished less than the cache time ago.
   */
  lemma HitEqualsFreshBuild(states: seq<State>, events: seq<Event>, j: nat, now: int)
    requires IsRun(states, events) && j < |states| && Hit(states[j].service, now).Some?
    requires forall i | LatestDrop(events, j) <= i <= j :: states[i].data == states[j].data
    ensures Hit(states[j].service, now).value == Cards(states[j].data)
    ensures exists f: nat, b ::
      && Produced(states, events, LatestDrop(events, j), f, states[j].service.cache.value, b)
      && f < j && now < events[f].now + TTL_MS
  {
    var entry, from := states[j].service.cache.value, LatestDrop(events, j);
    CachedCardsAreFresh(states, events, j);
    var f: nat, b :| f < j && Produced(states, events, from, f, entry, b);
    var t :| Follows(states, events, from, f, events[f].id, b, t);
    var data := states[j].data;
    assert states[t.lodges].data == data && states[t.photos].data == data;
    assert states[t.rooms].data == data && states[t.reviews].data == data;
    assert Results(b) == Queried(data.lodges, data.photos, data.rooms, data.reviews);
    QueriedCards(data.lodges, data.photos, data.rooms, data.reviews);
  }

  /** A build of the current generation finishes at step f. */
  ghost predicate Installs(states: seq<State>, events: seq<Event>, f: nat)
    requires |states| == |events| + 1 && f < |events|
  {
    && events[f].Finish? && events[f].id in states[f].builds && Complete(states[f].builds[events[f].id])
    && states[f].builds[events[f].id].generation == states[f].service.generation
  }

  lemma StepKeepsService(states: seq<State>, events: seq<Event>, j: nat)
    requires IsRun(states, events) && j < |events| && !events[j].Invalidate? && !Installs(states, events, j)
    ensures states[j + 1].service == states[j].service
  {
    hide Cards, Within;
    assert Step(states[j], events[j], states[j + 1]);
  }

  lemma InstalledNow(states: seq<State>, events: seq<Event>, f: nat)
    requires IsRun(states, events) && f < |events| && Installs(states, events, f)
    ensures states[f + 1].service.cache
            == Some(Entry(Cards(Results(states[f].builds[events[f].id])), events[f].now + 15_000))
  {
    assert Step(states[f], events[f], states[f + 1]);
  }

  /**
   * What a build of the current generation returned is what every request gets for fifteen seconds
   * from its end and no longer, until an invalidation or another such build.
   */
  lemma {:induction false} ServedExactly(states: seq<State>, events: seq<Event>, f: nat, j: nat, now: int)
    requires IsRun(states, events) && f < j < |states| && Installs(states, events, f)
    requires forall m | f < m < j :: !events[m].Invalidate? && !Installs(states, events, m)
    ensures Hit(states[j].service, now) == if now < events[f].now + 15_000
                                           then Some(Cards(Results(states[f].builds[events[f].id]))) else None
  {
    hide Cards, Within, Step;
    if j == f + 1 {
      InstalledNow(states, events, f);
    } else {
      ServedExactly(states, events, f, j - 1, now);
      StepKeepsService(states, events, j - 1);
    }
  }

  /** A build that was not requested since the latest invalidation leaves the cache as it is. */
  lemma StaleBuildIsDropped(states: seq<State>, events: seq<Event>, f: nat)
    requires IsRun(states, events) && f < |events| && events[f].Finish?
    requires forall r | LatestDrop(events, f) <= r < f :: !(events[r].Request? && events[r].id == events[f].id)
    ensures states[f + 1].service == states[f].service
  {
    BuildsAreTraced(states, events, f);
    assert events[f].id in states[f].builds ==> BuildTraced(states, events, f, events[f].id);
    StepKeepsService(states, events, f);
  }

  /** A request is answered from the cache or begins a build, and an invalidation leaves nothing to answer from. */
  lemma RequestsAndDrops(states: seq<State>, events: seq<Event>, j: nat, now: int)
    requires IsRun(states, events) && j < |events|
    ensures events[j].Request? && Hit(states[j].service, events[j].now).Some? ==> states[j + 1] == states[j]
    ensures events[j].Request? && Hit(states[j].service, events[j].now).None? ==>
              && events[j].id in states[j + 1].builds && states[j + 1].service == states[j].service
              && states[j + 1].builds[events[j].id].generation == states[j].service.generation
    ensures events[j].Invalidate? ==>
              && Hit(states[j + 1].service, now).None? && states[j + 1].builds == states[j].builds
              && states[j + 1].service.generation > states[j].service.generation
  {
    assert Step(states[j], events[j], states[j + 1]);
  }

  // ---------- The service object ----------

  class CatalogService {
    var cacheGeneration: nat
    var cache: Option<Entry>

    constructor ()
      ensures View() == Service(0, None)
    {
      cacheGeneration, cache := 0, None;
    }

    function View(): Service
      reads this
    {
      Service(cacheGeneration, cache)
    }

    method Invalidate()
      modifies this
      ensures View() == Dropped(old(View()))
      ensures forall now :: Hit(View(), now).None?
    {
      cacheGeneration := cacheGeneration + 1;
      cache := None;
    }

    /** Up to the first await: the cached cards, or the generation a rebuild starts in. */
    method Begin(now: int) returns (hit: Option<seq<Card>>, generation: nat)
      ensures hit == Hit(View(), now) && generation == View().generation
    {
      hit := None;
      generation := cacheGeneration;
      if cache.Some? && cache.value.expiresAt > now {
        hit := Some(cache.value.cards);
      }
    }

    /** After the last await: the cards, kept only if nothing was invalidated meanwhile. */
    method End(generation: nat, results: Catalog, now: int) returns (cards: seq<Card>)
      modifies this
      ensures cards == Cards(results)
      ensures View() == Installed(old(View()), generation, Cards(results), now)
    {
      cards := Assemble(results);
      if generation == cacheGeneration {
        cache := Some(Entry(cards, now + TTL_MS));
      }
    }
  }
}
