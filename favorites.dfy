/**
 * The favourite-places service (`FavoriteService`): each favourite belongs
 * to the user who saved it, and only that user may read or delete it.
 */
module Favorites {
  import opened Common
  import opened FavoriteSchema
  import Store

  /**
   * What `get_favorite_by_id` answers: nothing for a missing id, a refusal
   * for another user's favourite, the favourite itself for its owner.
   */
  function Lookup(favs: map<string, Favorite>, id: string, userId: string): (r: Result<Option<Favorite>>)
    ensures r.Ok? && r.value.Some? <==> id in favs && favs[id].userId == userId
    ensures r.Ok? && r.value.Some? ==> r.value.value == favs[id]
    ensures r.Ok? && r.value.None? <==> id !in favs
    ensures r.Err? ==> r.error == Forbidden
  {
    if id !in favs then Ok(None)
    else if favs[id].userId != userId then Err(Forbidden)
    else Ok(Some(favs[id]))
  }

  /** `create_favorite`: the given fields plus a fresh id, the owner and the creation time. */
  method CreateFavorite(db: Store.Db, userId: string, c: FavoriteCreate, now: Time) returns (r: Favorite)
    modifies db`favorites
    ensures r.id !in old(db.favorites)
    ensures r == Favorite(r.id, userId, c.name, c.address, c.coords, now)
    ensures db.favorites == old(db.favorites)[r.id := r]
    ensures Lookup(db.favorites, r.id, userId) == Ok(Some(r))
    ensures forall other :: other != userId ==> Lookup(db.favorites, r.id, other) == Err(Forbidden)
  {
    var id := FreshKey(db.favorites.Keys);
    r := Favorite(id, userId, c.name, c.address, c.coords, now);
    db.favorites := db.favorites[id := r];
  }

  /** `get_favorite_by_id`. */
  method GetFavoriteById(db: Store.Db, id: string, userId: string) returns (r: Result<Option<Favorite>>)
    ensures r == Lookup(db.favorites, id, userId)
    ensures r.Ok? && r.value.Some? ==> r.value.value.userId == userId
  {
    if id !in db.favorites {
      return Ok(None);
    }
    var f := db.favorites[id];
    if f.userId != userId {
      return Err(Forbidden);
    }
    r := Ok(Some(f));
  }

  function CreatedKey(f: Favorite): real {
    f.createdAt as real
  }

  /** `get_favorites_by_user`: exactly the user's favourites, newest first. */
  method GetFavoritesByUser(db: Store.Db, userId: string) returns (r: seq<Favorite>)
    ensures forall f :: f in r <==> f in db.favorites.Values && f.userId == userId
    ensures |r| == |KeysWhere(db.favorites, (f: Favorite) => f.userId == userId)|
    ensures SortedBy(r, CreatedKey, true)
  {
    r := SelectSorted(db.favorites, (f: Favorite) => f.userId == userId, CreatedKey, true);
  }

  /** `delete_favorite`: refused for a missing or foreign favourite; otherwise it is gone. */
  method DeleteFavorite(db: Store.Db, id: string, userId: string) returns (r: Outcome)
    modifies db`favorites
    ensures id !in old(db.favorites) ==> r == Fail(NotFound)
    ensures id in old(db.favorites) && old(db.favorites)[id].userId != userId ==> r == Fail(Forbidden)
    ensures r.Pass? <==> Lookup(old(db.favorites), id, userId).Ok? && id in old(db.favorites)
    ensures r.Pass? ==> db.favorites == old(db.favorites) - {id} && Lookup(db.favorites, id, userId) == Ok(None)
    ensures r.Fail? ==> db.favorites == old(db.favorites)
  {
    if id !in db.favorites {
      return Fail(NotFound);
    }
    if db.favorites[id].userId != userId {
      return Fail(Forbidden);
    }
    db.favorites := db.favorites - {id};
    r := Pass;
  }
}
