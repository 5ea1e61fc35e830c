/** Saved places (`favorites` collection). */
module FavoriteSchema {
  import opened Common

  /** The creation payload (`FavoriteLocationCreate`). */
  datatype FavoriteCreate = FavoriteCreate(name: string, address: string, coords: Coords)

  /** A stored favourite (`FavoriteLocationInDB`). */
  datatype Favorite = Favorite(
    id: string,
    userId: string,
    name: string,
    address: string,
    coords: Coords,
    createdAt: Time)

  predicate ValidCreate(c: FavoriteCreate) {
    1 <= |c.name| <= 100 && 1 <= |c.address| <= 200 && ValidCoords(c.coords)
  }
}
