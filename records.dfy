/** The entities the data layer passes around: restaurants as the API and the
    local store hold them, reviews, and the failures a promise of the data
    layer can reject with. Field names follow the JSON keys (is_favorite
    becomes isFavorite, cuisine_type cuisineType, restaurant_id restaurantId). */
module Records {
  import opened Wrappers
  import Text

  /** A JSON scalar that the application compares with `===` or coerces with
      unary `+`: a number or a string. */
  datatype Scalar = Num(n: int) | Str(s: string)

  /** The `is_favorite` field: absent, a JSON boolean (as the API sends it)
      or a string (as the favourite toggle writes it). */
  datatype Favorite = FavoriteUnset | FavoriteBool(b: bool) | FavoriteString(s: string)

  datatype Review = Review(
    id: Option<int>,
    restaurantId: Scalar,
    name: string,
    rating: Scalar,
    comments: string,
    createdAt: int,
    updatedAt: int)

  /** A restaurant record. `reviews` is None when the field is absent or
      null; `sync` is None when the record has no `sync` object. */
  datatype Restaurant = Restaurant(
    id: int,
    name: string,
    neighborhood: string,
    cuisineType: string,
    photograph: Option<string>,
    isFavorite: Favorite,
    sync: Option<map<string, bool>>,
    reviews: Option<seq<Review>>)

  /** Why a promise of the data layer rejects. */
  datatype Failure =
    | NetworkError     // fetch itself rejected
    | NotOk            // "The network response was not ok"
    | BadJson          // response.json() rejected
    | TypeError        // a property of null or undefined was used
    | DataError        // IndexedDB refused the key (NaN)

  /** Unary `+` applied to a scalar; None stands for NaN. */
  function ToNumber(k: Scalar): (r: Option<int>)
    ensures k.Num? ==> r == Some(k.n)
  {
    match k
    case Num(n) => Some(n)
    case Str(s) => Text.StringToNumber(s)
  }

  /** `Object.keys(r)`: the JSON keys present in the record. */
  function ObjectKeys(r: Restaurant): (keys: set<string>)
    ensures "id" in keys
  {
    {"id", "name", "neighborhood", "cuisine_type"}
    + (if r.photograph.Some? then {"photograph"} else {})
    + (if r.isFavorite.FavoriteUnset? then {} else {"is_favorite"})
    + (if r.sync.Some? then {"sync"} else {})
    + (if r.reviews.Some? then {"reviews"} else {})
  }
}
