/**
 * Assembling the lodge cards from the catalogue's four queries
 * (backend/src/modules/catalog/catalog.service.ts:196-278).
 */
module CatalogCards {
  import opened Wrappers

  /** A row that belongs to a lodge. */
  datatype Of<T> = Of(lodge: nat, row: T)

  datatype Amenity = Amenity(name: string, slug: string, usable: bool)

  /** `order` is the place of the name in the locale's order. */
  datatype Lodge = Lodge(id: nat, name: string, order: int, propertyType: nat,
                         distance: Option<nat>, amenities: seq<Amenity>)

  datatype Photo = Photo(thumbnail: Option<string>, url: string)

  /** Prices are in paise. */
  datatype Rates = Rates(base: int, festival: Option<int>)

  datatype Review = Review(average: Option<real>, count: nat)

  /** Everything the four queries can see; photos are in display order. */
  datatype Catalog = Catalog(lodges: seq<Lodge>, photos: seq<Of<Photo>>, rooms: seq<Of<Rates>>,
                             reviews: seq<Of<Review>>)

  /** The average rating of a card is in tenths. */
  datatype Card = Card(id: nat, name: string, order: int, propertyType: nat, distance: Option<nat>,
                       amenities: seq<Amenity>, slugs: seq<string>, cover: Option<string>,
                       price: Option<int>, festivalPrice: Option<int>, rating: Option<int>, reviews: nat)

  const MAX_CARD_AMENITIES := 4

  // ---------- What a card shows ----------

  /** The lodge's first row. */
  function First<T>(rows: seq<Of<T>>, lodge: nat): (r: Option<T>)
    ensures r.Some? <==> exists i :: 0 <= i < |rows| && rows[i].lodge == lodge
    ensures r.Some? ==> exists i :: 0 <= i < |rows| && rows[i] == Of(lodge, r.value)
                                    && forall j | 0 <= j < i :: rows[j].lodge != lodge
  {
    if rows == [] then None
    else
      var before := First(rows[..|rows| - 1], lodge);
      if before.Some? then before
      else if rows[|rows| - 1].lodge == lodge then Some(rows[|rows| - 1].row) else None
  }

  /** The lodge's last row, which is the one a map built from the rows keeps. */
  function Last<T>(rows: seq<Of<T>>, lodge: nat): Option<T> {
    if rows == [] then None
    else if rows[|rows| - 1].lodge == lodge then Some(rows[|rows| - 1].row)
    else Last(rows[..|rows| - 1], lodge)
  }

  /** The lodge's cheapest rates, the earlier row winning a tie. */
  function Cheapest(rooms: seq<Of<Rates>>, lodge: nat): (r: Option<Rates>)
    ensures r.Some? <==> exists i :: 0 <= i < |rooms| && rooms[i].lodge == lodge
    ensures r.Some? ==> Of(lodge, r.value) in rooms
    ensures r.Some? ==> forall i | 0 <= i < |rooms| && rooms[i].lodge == lodge :: r.value.base <= rooms[i].row.base
  {
    if rooms == [] then None
    else
      var before, last := Cheapest(rooms[..|rooms| - 1], lodge), rooms[|rooms| - 1];
      if last.lodge == lodge && (before.None? || last.row.base < before.value.base) then Some(last.row) else before
  }

  function Lower(s: string): string {
    seq(|s|, i requires 0 <= i < |s| => if 'A' <= s[i] <= 'Z' then (s[i] as int + 32) as char else s[i])
  }

  function Usable(amenities: seq<Amenity>): seq<Amenity> {
    if amenities == [] then []
    else
      var last := amenities[|amenities| - 1];
      Usable(amenities[..|amenities| - 1]) + if last.usable then [last.(slug := Lower(last.slug))] else []
  }

  function Tenths(average: real): int {
    (average * 10.0 + 0.5).Floor
  }

  function CardOf(lodge: Lodge, photo: Option<Photo>, rates: Option<Rates>, review: Option<Review>): Card {
    var amenities := Usable(lodge.amenities);
    Card(lodge.id, lodge.name, lodge.order, lodge.propertyType, lodge.distance,
         if |amenities| <= MAX_CARD_AMENITIES then amenities else amenities[..MAX_CARD_AMENITIES],
         seq(|amenities|, i requires 0 <= i < |amenities| => amenities[i].slug),
         if photo.None? then None
         else if photo.value.thumbnail.Some? then photo.value.thumbnail else Some(photo.value.url),
         if rates.None? then None else Some(rates.value.base),
         if rates.None? then None else rates.value.festival,
         if review.None? || review.value.average.None? then None else Some(Tenths(review.value.average.value)),
         if review.None? then 0 else review.value.count)
  }

  function CardFor(lodge: Lodge, data: Catalog): Card {
    CardOf(lodge, First(data.photos, lodge.id), Cheapest(data.rooms, lodge.id), Last(data.reviews, lodge.id))
  }

  /** The cards of a catalogue: one for each lodge, in the order the lodges are listed. */
  function Cards(data: Catalog): seq<Card> {
    seq(|data.lodges|, i requires 0 <= i < |data.lodges| => CardFor(data.lodges[i], data))
  }

  // ---------- What a card shows, row by row ----------

  /** The amenity is the one on the card, with its slug in lower case. */
  predicate ShownAs(amenity: Amenity, shown: Amenity) {
    amenity.usable && shown == Amenity(amenity.name, Lower(amenity.slug), true)
  }

  /** The usable amenities are the lodge's in their order; `at` says where each stands there. */
  lemma {:induction false} UsableExactly(amenities: seq<Amenity>) returns (at: seq<nat>)
    ensures |at| == |Usable(amenities)|
    ensures forall k | 0 <= k < |at| :: at[k] < |amenities| && ShownAs(amenities[at[k]], Usable(amenities)[k])
    ensures forall k, l | 0 <= k < l < |at| :: at[k] < at[l]
    ensures forall i | 0 <= i < |amenities| && amenities[i].usable :: i in at
  {
    at := [];
    if amenities != [] {
      var n := |amenities| - 1;
      var before := UsableExactly(amenities[..n]);
      at := before;
      if amenities[n].usable {
        at := before + [n];
        assert n == at[|before|];
      }
      forall i | 0 <= i < |amenities| && amenities[i].usable ensures i in at {
        if i < n {
          assert amenities[..n][i] == amenities[i];
          assert i in before;
        }
      }
    }
  }

  /** The lodge's row that a map built from the rows keeps is the one with none of the lodge's after it. */
  lemma {:induction false} LastExactly<T>(rows: seq<Of<T>>, lodge: nat, i: nat)
    requires i < |rows| && rows[i].lodge == lodge && forall j | i < j < |rows| :: rows[j].lodge != lodge
    ensures Last(rows, lodge) == Some(rows[i].row)
  {
    if i < |rows| - 1 {
      LastExactly(rows[..|rows| - 1], lodge, i);
    }
  }

  /** The lodge's cheapest row, the earliest if several are. */
  ghost predicate IsCheapest(rooms: seq<Of<Rates>>, lodge: nat, i: nat) {
    && i < |rooms| && rooms[i].lodge == lodge
    && forall j | 0 <= j < |rooms| && rooms[j].lodge == lodge ::
         if j < i then rooms[i].row.base < rooms[j].row.base else rooms[i].row.base <= rooms[j].row.base
  }

  lemma {:induction false} CheapestExactly(rooms: seq<Of<Rates>>, lodge: nat, i: nat)
    requires IsCheapest(rooms, lodge, i)
    ensures Cheapest(rooms, lodge) == Some(rooms[i].row)
  {
    var n := |rooms| - 1;
    if i < n {
      CheapestExactly(rooms[..n], lodge, i);
    } else {
      var before := Cheapest(rooms[..n], lodge);
      assert before.Some? ==> rooms[i].row.base < before.value.base by {
        if before.Some? {
          var j :| 0 <= j < n && rooms[..n][j] == Of(lodge, before.value);
          assert rooms[j] == rooms[..n][j];
        }
      }
    }
  }

  /** No row of the lodge. */
  predicate NoRow<T>(rows: seq<Of<T>>, lodge: nat) {
    forall i | 0 <= i < |rows| :: rows[i].lodge != lodge
  }

  /** No row of the lodge from one position up to another. */
  predicate NoRowIn<T>(rows: seq<Of<T>>, from: nat, to: nat, lodge: nat)
    requires to <= |rows|
  {
    forall i | from <= i < to :: rows[i].lodge != lodge
  }

  lemma {:induction false} NothingLast<T>(rows: seq<Of<T>>, lodge: nat)
    requires NoRow(rows, lodge)
    ensures Last(rows, lodge) == None
  {
    if rows != [] {
      NothingLast(rows[..|rows| - 1], lodge);
    }
  }

  /**
   * The cover is the thumbnail of the lodge's first photo, or its full picture if there is none; no
   * photo, no cover.
   */
  lemma CoverShown(lodge: Lodge, data: Catalog, i: nat)
    ensures NoRow(data.photos, lodge.id) ==> CardFor(lodge, data).cover == None
    ensures i < |data.photos| && data.photos[i].lodge == lodge.id && NoRowIn(data.photos, 0, i, lodge.id) ==>
              var photo := data.photos[i].row;
              CardFor(lodge, data).cover == Some(if photo.thumbnail.None? then photo.url else photo.thumbnail.value)
  {
    if i < |data.photos| && data.photos[i].lodge == lodge.id && NoRowIn(data.photos, 0, i, lodge.id) {
      var first := First(data.photos, lodge.id);
      var k :| 0 <= k < |data.photos| && data.photos[k] == Of(lodge.id, first.value)
               && forall j | 0 <= j < k :: data.photos[j].lodge != lodge.id;
      assert k == i;
    }
  }

  /** Both prices are those of the lodge's cheapest room type; no room type, no prices. */
  lemma PricesShown(lodge: Lodge, data: Catalog, i: nat)
    ensures NoRow(data.rooms, lodge.id) ==>
              CardFor(lodge, data).price == None && CardFor(lodge, data).festivalPrice == None
    ensures IsCheapest(data.rooms, lodge.id, i) ==>
              && CardFor(lodge, data).price == Some(data.rooms[i].row.base)
              && CardFor(lodge, data).festivalPrice == data.rooms[i].row.festival
  {
    if IsCheapest(data.rooms, lodge.id, i) {
      CheapestExactly(data.rooms, lodge.id, i);
    }
  }

  /** The rating is the average of the lodge's review row to the nearest tenth, halves up. */
  lemma ReviewsShown(lodge: Lodge, data: Catalog, i: nat)
    ensures NoRow(data.reviews, lodge.id) ==>
              CardFor(lodge, data).rating == None && CardFor(lodge, data).reviews == 0
    ensures i < |data.reviews| && data.reviews[i].lodge == lodge.id
            && NoRowIn(data.reviews, i + 1, |data.reviews|, lodge.id) ==>
              var card, review := CardFor(lodge, data), data.reviews[i].row;
              && card.reviews == review.count && (card.rating.None? <==> review.average.None?)
              && (card.rating.Some? ==>
                    && 10.0 * review.average.value - 0.5 < card.rating.value as real
                    && card.rating.value as real <= 10.0 * review.average.value + 0.5)
  {
    if NoRow(data.reviews, lodge.id) {
      NothingLast(data.reviews, lodge.id);
    } else if i < |data.reviews| && data.reviews[i].lodge == lodge.id
              && NoRowIn(data.reviews, i + 1, |data.reviews|, lodge.id) {
      LastExactly(data.reviews, lodge.id, i);
    }
  }

  /** The card can be found by every usable amenity of the lodge and shows the first four of them. */
  lemma AmenitiesShown(lodge: Lodge, data: Catalog) returns (at: seq<nat>)
    ensures var card := CardFor(lodge, data);
            && |card.slugs| == |at| && |card.amenities| == (if |at| < 4 then |at| else 4)
            && (forall k | 0 <= k < |at| ::
                  && at[k] < |lodge.amenities| && lodge.amenities[at[k]].usable
                  && card.slugs[k] == Lower(lodge.amenities[at[k]].slug))
            && forall k | 0 <= k < |card.amenities| ::
                 card.amenities[k].name == lodge.amenities[at[k]].name && card.amenities[k].slug == card.slugs[k]
    ensures forall k, l | 0 <= k < l < |at| :: at[k] < at[l]
    ensures forall i | 0 <= i < |lodge.amenities| && lodge.amenities[i].usable :: i in at
  {
    at := UsableExactly(lodge.amenities);
  }

  /** The listed lodges come in their order, each under its own name and place. */
  lemma LodgesShown(data: Catalog, i: nat)
    requires i < |data.lodges|
    ensures |Cards(data)| == |data.lodges|
    ensures var card, lodge := Cards(data)[i], data.lodges[i];
            && card == CardFor(lodge, data) && card.id == lodge.id && card.name == lodge.name
            && card.order == lodge.order && card.propertyType == lodge.propertyType
            && card.distance == lodge.distance
  {
  }

  // ---------- Only the listed lodges are queried ----------

  function Ids(lodges: seq<Lodge>): set<nat> {
    set i | 0 <= i < |lodges| :: lodges[i].id
  }

  /** The rows a query for the given lodges returns. */
  function Within<T>(rows: seq<Of<T>>, ids: set<nat>): seq<Of<T>> {
    if rows == [] then []
    else
      Within(rows[..|rows| - 1], ids) + if rows[|rows| - 1].lodge in ids then [rows[|rows| - 1]] else []
  }

  lemma {:induction false} WithinKeeps<T>(rows: seq<Of<T>>, ids: set<nat>, lodge: nat)
    requires lodge in ids
    ensures First(Within(rows, ids), lodge) == First(rows, lodge)
    ensures Last(Within(rows, ids), lodge) == Last(rows, lodge)
  {
    if rows != [] {
      WithinKeeps(rows[..|rows| - 1], ids, lodge);
      var kept := Within(rows, ids);
      if rows[|rows| - 1].lodge in ids {
        assert kept[..|kept| - 1] == Within(rows[..|rows| - 1], ids);
      } else {
        assert kept == Within(rows[..|rows| - 1], ids);
      }
    }
  }

  lemma {:induction false} WithinKeepsRates(rows: seq<Of<Rates>>, ids: set<nat>, lodge: nat)
    requires lodge in ids
    ensures Cheapest(Within(rows, ids), lodge) == Cheapest(rows, lodge)
  {
    if rows != [] {
      WithinKeepsRates(rows[..|rows| - 1], ids, lodge);
      var kept := Within(rows, ids);
      if rows[|rows| - 1].lodge in ids {
        assert kept[..|kept| - 1] == Within(rows[..|rows| - 1], ids);
      } else {
        assert kept == Within(rows[..|rows| - 1], ids);
      }
    }
  }

  /** What the follow-up queries return for the lodges of an earlier one. */
  function Queried(lodges: seq<Lodge>, photos: seq<Of<Photo>>, rooms: seq<Of<Rates>>, reviews: seq<Of<Review>>)
    : Catalog
  {
    var ids := Ids(lodges);
    Catalog(lodges, Within(photos, ids), Within(rooms, ids), Within(reviews, ids))
  }

  /** Asking only about the listed lodges loses nothing. */
  lemma QueriedCards(lodges: seq<Lodge>, photos: seq<Of<Photo>>, rooms: seq<Of<Rates>>, reviews: seq<Of<Review>>)
    ensures Cards(Queried(lodges, photos, rooms, reviews)) == Cards(Catalog(lodges, photos, rooms, reviews))
  {
    var ids := Ids(lodges);
    forall i | 0 <= i < |lodges|
      ensures CardFor(lodges[i], Queried(lodges, photos, rooms, reviews))
              == CardFor(lodges[i], Catalog(lodges, photos, rooms, reviews))
    {
      assert lodges[i].id in ids;
      WithinKeeps(photos, ids, lodges[i].id);
      WithinKeepsRates(rooms, ids, lodges[i].id);
      WithinKeeps(reviews, ids, lodges[i].id);
    }
  }

  // ---------- The loops ----------

  function Find<T>(m: map<nat, T>, lodge: nat): Option<T> {
    if lodge in m then Some(m[lodge]) else None
  }

  method CoverByLodge(photos: seq<Of<Photo>>) returns (m: map<nat, Photo>)
    ensures forall lodge: nat :: Find(m, lodge) == First(photos, lodge)
  {
    m := map[];
    for i := 0 to |photos|
      invariant forall lodge: nat :: Find(m, lodge) == First(photos[..i], lodge)
    {
      assert photos[..i + 1][..i] == photos[..i];
      if photos[i].lodge !in m {
        m := m[photos[i].lodge := photos[i].row];
      }
    }
    assert photos[..|photos|] == photos;
  }

  method PricesByLodge(rooms: seq<Of<Rates>>) returns (m: map<nat, Rates>)
    ensures forall lodge: nat :: Find(m, lodge) == Cheapest(rooms, lodge)
  {
    m := map[];
    for i := 0 to |rooms|
      invariant forall lodge: nat :: Find(m, lodge) == Cheapest(rooms[..i], lodge)
    {
      assert rooms[..i + 1][..i] == rooms[..i];
      var row := rooms[i];
      if row.lodge !in m || row.row.base < m[row.lodge].base {
        m := m[row.lodge := row.row];
      }
    }
    assert rooms[..|rooms|] == rooms;
  }

  method ReviewByLodge(reviews: seq<Of<Review>>) returns (m: map<nat, Review>)
    ensures forall lodge: nat :: Find(m, lodge) == Last(reviews, lodge)
  {
    m := map[];
    for i := 0 to |reviews|
      invariant forall lodge: nat :: Find(m, lodge) == Last(reviews[..i], lodge)
    {
      assert reviews[..i + 1][..i] == reviews[..i];
      m := m[reviews[i].lodge := reviews[i].row];
    }
    assert reviews[..|reviews|] == reviews;
  }

  /** From the four query results to the cards. */
  method Assemble(data: Catalog) returns (cards: seq<Card>)
    ensures cards == Cards(data)
  {
    var covers := CoverByLodge(data.photos);
    var prices := PricesByLodge(data.rooms);
    var reviews := ReviewByLodge(data.reviews);
    cards := seq(|data.lodges|, i requires 0 <= i < |data.lodges| =>
      CardOf(data.lodges[i], Find(covers, data.lodges[i].id), Find(prices, data.lodges[i].id),
             Find(reviews, data.lodges[i].id)));
    forall i | 0 <= i < |data.lodges| ensures cards[i] == CardFor(data.lodges[i], data) {
      var id := data.lodges[i].id;
      assert Find(covers, id) == First(data.photos, id) && Find(prices, id) == Cheapest(data.rooms, id);
      assert Find(reviews, id) == Last(data.reviews, id);
    }
  }
}
