/** js/dbhelper.js, the earlier data helper. Its `IDB` getter opens the
    database afresh on every access and resolves to undefined when the
    browser has no service worker or the open fails; the store and the API
    are asked side by side, and a failed API call is caught and becomes
    undefined. It also builds the restaurant image URL and srcset. */
module LegacyDbHelper {
  import opened Wrappers
  import opened Records
  import opened Gateway
  import opened Storage
  import opened DbHelper
  import Text

  /** `DBHelper.IDB`: is there a database handle? The getter opens the
      database afresh on every access; it resolves to undefined when the
      browser has no service worker, and when the open fails (the rejection
      is caught). */
  predicate HandleOpened(hasServiceWorker: bool, openOk: bool) {
    hasServiceWorker && openOk
  }

  /** `putRestaurantsToDatabase`: one put per restaurant, in order, inside
      one transaction; the list itself is returned. */
  method PutRestaurantsToDatabase(restaurants: seq<Restaurant>, db: ObjectStore) returns (r: seq<Restaurant>)
    requires db.Valid()
    modifies db
    ensures db.Valid()
    ensures r == restaurants
    ensures db.records == PutAll(old(db.records), restaurants)
  {
    for i := 0 to |restaurants|
      invariant db.Valid()
      invariant db.records == PutAll(old(db.records), restaurants[..i])
    {
      assert restaurants[..i + 1][..i] == restaurants[..i];
      db.Put(restaurants[i]);
    }
    assert restaurants[..|restaurants|] == restaurants;
    r := restaurants;
  }

  /** `fetchRestaurants`: undefined without a handle; otherwise the stored
      list when it is non-empty and the API list (undefined on any API
      failure) when it is not. The API list is written to the store in
      either case; the stored list is the one read before that write. */
  method FetchRestaurants(hasServiceWorker: bool, openOk: bool, db: ObjectStore,
                          restaurantsFetch: Fetched<seq<Restaurant>>, reviewsFetch: Fetched<seq<Review>>)
    returns (r: Option<seq<Restaurant>>)
    requires db.Valid()
    modifies db
    ensures db.Valid()
    ensures r == RestaurantsOutcome(HandleOpened(hasServiceWorker, openOk), old(ValuesInKeyOrder(db.records)),
                                    JoinedFromApi(restaurantsFetch, reviewsFetch))
    ensures db.records ==
      if HandleOpened(hasServiceWorker, openOk) && JoinedFromApi(restaurantsFetch, reviewsFetch).Ok?
      then PutAll(old(db.records), JoinedFromApi(restaurantsFetch, reviewsFetch).value)
      else old(db.records)
  {
    if !HandleOpened(hasServiceWorker, openOk) {
      return None;
    }
    var fromDb := db.GetAll();
    var fromApi: Option<seq<Restaurant>> := None;
    var restaurants := FetchJson(restaurantsFetch);
    var reviews := FetchJson(reviewsFetch);
    if restaurants.Ok? && reviews.Ok? && restaurants.value.Some? {
      var list := restaurants.value.value;
      if reviews.value.Some? {
        var joined := JoinReviews(list, reviews.value.value);
        JoinReviewsIsJoined(list, reviews.value.value, joined);
        var written := PutRestaurantsToDatabase(joined, db);
        fromApi := Some(written);
      } else if list == [] {
        var written := PutRestaurantsToDatabase(list, db);
        fromApi := Some(written);
      }
    }
    r := PreferStored(Some(fromDb), fromApi);
  }

  /** The API half of `fetchRestaurantById`: the restaurant with the
      reviews of `/reviews?restaurant_id={restaurant.id}` attached, or none.
      A JSON null restaurant is passed through as null, a JSON null review
      list fails `reviews.map`, and every failure is caught. */
  function LegacyRestaurantFromApi(restaurantFetch: Fetched<Restaurant>, reviewsFetch: Fetched<seq<Review>>)
    : (r: Option<Restaurant>)
    ensures r.Some? <==>
      && FetchJson(restaurantFetch).Ok? && FetchJson(restaurantFetch).value.Some?
      && FetchJson(reviewsFetch).Ok? && FetchJson(reviewsFetch).value.Some?
    ensures r.Some? ==>
      r.value == FetchJson(restaurantFetch).value.value.(reviews := FetchJson(reviewsFetch).value)
  {
    match FetchJson(restaurantFetch)
    case Err(_) => None
    case Ok(restaurant) =>
      if restaurant.None? then None
      else match FetchJson(reviewsFetch)
        case Err(_) => None
        case Ok(reviews) =>
          if reviews.None? then None else Some(restaurant.value.(reviews := reviews))
  }

  /** Where the legacy and the src API paths for one restaurant agree: when
      both responses carry a value they yield the same record, and the
      legacy path yields a record only when the src path does. */
  lemma LegacyRestaurantAgreesWithSrc(restaurantFetch: Fetched<Restaurant>, reviewsFetch: Fetched<seq<Review>>)
    ensures LegacyRestaurantFromApi(restaurantFetch, reviewsFetch).Some? ==>
      RestaurantFromApi(restaurantFetch, reviewsFetch) == Ok(LegacyRestaurantFromApi(restaurantFetch, reviewsFetch).value)
    ensures RestaurantFromApi(restaurantFetch, reviewsFetch).Ok? && RestaurantFromApi(restaurantFetch, reviewsFetch).value.reviews.Some? ==>
      LegacyRestaurantFromApi(restaurantFetch, reviewsFetch) == Some(RestaurantFromApi(restaurantFetch, reviewsFetch).value)
  {
  }

  /** `fetchRestaurantById(id)`: with a handle, the store read and the API
      call are both issued. A NaN `+id` makes the store read reject with a
      DataError, and the whole call with it, but the API record is still
      fetched and written. Otherwise the stored record wins whenever there
      is one (a stored record always has keys), and the API record, written
      to the store when there is one, is the fallback. */
  method FetchRestaurantById(hasServiceWorker: bool, openOk: bool, db: ObjectStore, id: Scalar,
                             restaurantFetch: Fetched<Restaurant>, reviewsFetch: Fetched<seq<Review>>)
    returns (r: Result<Option<Restaurant>, Failure>)
    requires db.Valid()
    modifies db
    ensures db.Valid()
    ensures !HandleOpened(hasServiceWorker, openOk) ==> r == Ok(None)
    ensures HandleOpened(hasServiceWorker, openOk) && ToNumber(id).None? ==> r == Err(DataError)
    ensures HandleOpened(hasServiceWorker, openOk) && ToNumber(id).Some? ==>
      r == Ok(if ToNumber(id).value in old(db.records) then Some(old(db.records)[ToNumber(id).value])
              else LegacyRestaurantFromApi(restaurantFetch, reviewsFetch))
    ensures db.records ==
      if HandleOpened(hasServiceWorker, openOk) && LegacyRestaurantFromApi(restaurantFetch, reviewsFetch).Some?
      then old(db.records)[LegacyRestaurantFromApi(restaurantFetch, reviewsFetch).value.id :=
                           LegacyRestaurantFromApi(restaurantFetch, reviewsFetch).value]
      else old(db.records)
  {
    if !HandleOpened(hasServiceWorker, openOk) {
      return Ok(None);
    }
    // The read is issued first, in its own transaction, and sees the store
    // as it was before the API record is written.
    var key := ToNumber(id);
    var fromDb: Option<Restaurant> := None;
    if key.Some? {
      fromDb := db.Get(key.value);
    }
    var fromApi: Option<Restaurant> := None;
    var restaurant := FetchJson(restaurantFetch);
    if restaurant.Ok? && restaurant.value.Some? {
      var reviews := FetchJson(reviewsFetch);
      if reviews.Ok? && reviews.value.Some? {
        var record := restaurant.value.value.(reviews := reviews.value);
        db.Put(record);
        fromApi := Some(record);
      }
    }
    if key.None? {
      return Err(DataError);
    }
    if fromDb.Some? {
      assert "id" in ObjectKeys(fromDb.value);
    }
    r := Ok(if fromDb.Some? && |ObjectKeys(fromDb.value)| > 0 then fromDb else fromApi);
  }

  /** `fetchRestaurantByCuisineAndNeighborhood(cuisine, neighborhood)`. */
  method FetchRestaurantByCuisineAndNeighborhood(hasServiceWorker: bool, openOk: bool, db: ObjectStore,
                                                 restaurantsFetch: Fetched<seq<Restaurant>>, reviewsFetch: Fetched<seq<Review>>,
                                                 cuisine: Option<string>, neighborhood: Option<string>)
    returns (results: seq<Restaurant>)
    requires db.Valid()
    modifies db
    ensures db.Valid()
    ensures results == SelectByCuisineAndNeighborhood(
      RestaurantsOutcome(HandleOpened(hasServiceWorker, openOk), old(ValuesInKeyOrder(db.records)),
                         JoinedFromApi(restaurantsFetch, reviewsFetch)),
      OrAll(cuisine), OrAll(neighborhood))
    ensures db.records ==
      if HandleOpened(hasServiceWorker, openOk) && JoinedFromApi(restaurantsFetch, reviewsFetch).Ok?
      then PutAll(old(db.records), JoinedFromApi(restaurantsFetch, reviewsFetch).value)
      else old(db.records)
  {
    var restaurants := FetchRestaurants(hasServiceWorker, openOk, db, restaurantsFetch, reviewsFetch);
    results := SelectByCuisineAndNeighborhood(restaurants, OrAll(cuisine), OrAll(neighborhood));
  }

  /** `fetchNeighborhoods()`. */
  method FetchNeighborhoods(hasServiceWorker: bool, openOk: bool, db: ObjectStore,
                            restaurantsFetch: Fetched<seq<Restaurant>>, reviewsFetch: Fetched<seq<Review>>)
    returns (neighborhoods: seq<string>)
    requires db.Valid()
    modifies db
    ensures db.Valid()
    ensures neighborhoods == Neighborhoods(
      RestaurantsOutcome(HandleOpened(hasServiceWorker, openOk), old(ValuesInKeyOrder(db.records)),
                         JoinedFromApi(restaurantsFetch, reviewsFetch)))
    ensures db.records ==
      if HandleOpened(hasServiceWorker, openOk) && JoinedFromApi(restaurantsFetch, reviewsFetch).Ok?
      then PutAll(old(db.records), JoinedFromApi(restaurantsFetch, reviewsFetch).value)
      else old(db.records)
  {
    var restaurants := FetchRestaurants(hasServiceWorker, openOk, db, restaurantsFetch, reviewsFetch);
    neighborhoods := Neighborhoods(restaurants);
  }

  /** `fetchCuisines()`. */
  method FetchCuisines(hasServiceWorker: bool, openOk: bool, db: ObjectStore,
                       restaurantsFetch: Fetched<seq<Restaurant>>, reviewsFetch: Fetched<seq<Review>>)
    returns (cuisines: seq<string>)
    requires db.Valid()
    modifies db
    ensures db.Valid()
    ensures cuisines == Cuisines(
      RestaurantsOutcome(HandleOpened(hasServiceWorker, openOk), old(ValuesInKeyOrder(db.records)),
                         JoinedFromApi(restaurantsFetch, reviewsFetch)))
    ensures db.records ==
      if HandleOpened(hasServiceWorker, openOk) && JoinedFromApi(restaurantsFetch, reviewsFetch).Ok?
      then PutAll(old(db.records), JoinedFromApi(restaurantsFetch, reviewsFetch).value)
      else old(db.records)
  {
    var restaurants := FetchRestaurants(hasServiceWorker, openOk, db, restaurantsFetch, reviewsFetch);
    cuisines := Cuisines(restaurants);
  }

  /** `restaurant.photograph || "placeholder"`: an absent or empty
      photograph is replaced. */
  function PhotoName(r: Restaurant): (name: string)
    ensures name != ""
    ensures name != "placeholder" ==> r.photograph == Some(name)
    ensures r.photograph.Some? && r.photograph.value != "" ==> name == r.photograph.value
    ensures r.photograph.None? || r.photograph == Some("") ==> name == "placeholder"
  {
    if r.photograph.Some? && r.photograph.value != "" then r.photograph.value else "placeholder"
  }

  const ImageSize: nat := 840
  const SrcsetSizes: seq<nat> := [840, 720, 600, 480, 360]

  /** `/img/{name}-{size}px.jpg`. */
  function ImagePath(name: string, size: nat): string {
    "/img/" + name + "-" + Text.NatToString(size) + "px.jpg"
  }

  /** One srcset candidate: the image path and its width descriptor. */
  function Candidate(name: string, size: nat): string {
    ImagePath(name, size) + " " + Text.NatToString(size) + "w"
  }

  /** Example, used by the image URL: the width 840 renders as "840". */
  lemma ImageSizeText()
    ensures Text.NatToString(ImageSize) == "840"
  {
    assert Text.NatToString(8) == "8";
    assert Text.NatToString(84) == "84";
  }

  /** `imageUrlForRestaurant`: the 840 px JPEG of the photograph, or of the
      placeholder. */
  function ImageUrlForRestaurant(r: Restaurant): (url: string)
    ensures url == "/img/" + PhotoName(r) + "-840px.jpg"
    ensures r.photograph.Some? && r.photograph.value != "" ==> url == "/img/" + r.photograph.value + "-840px.jpg"
    ensures r.photograph.None? || r.photograph == Some("") ==> url == "/img/placeholder-840px.jpg"
  {
    ImageSizeText();
    ImagePath(PhotoName(r), ImageSize)
  }

  /** `imageSrcsetForRestaurant`: the candidates for every size, joined by
      commas. */
  function ImageSrcsetForRestaurant(r: Restaurant): string {
    Text.Join(seq(|SrcsetSizes|, i requires 0 <= i < |SrcsetSizes| => Candidate(PhotoName(r), SrcsetSizes[i])), ',')
  }

  /** For every record, the srcset is the five candidates of its photograph
      name (or of the placeholder), widest first, joined by commas; it
      starts with the image URL and its width descriptor. */
  lemma SrcsetIsJoin(r: Restaurant)
    ensures var n := PhotoName(r);
      ImageSrcsetForRestaurant(r) ==
        Text.Join([Candidate(n, 840), Candidate(n, 720), Candidate(n, 600), Candidate(n, 480), Candidate(n, 360)], ',')
    ensures Text.StartsWith(ImageSrcsetForRestaurant(r), ImageUrlForRestaurant(r) + " 840w")
  {
    var n := PhotoName(r);
    var parts := seq(|SrcsetSizes|, i requires 0 <= i < |SrcsetSizes| => Candidate(n, SrcsetSizes[i]));
    assert parts == [Candidate(n, 840), Candidate(n, 720), Candidate(n, 600), Candidate(n, 480), Candidate(n, 360)];
    ImageSizeText();
    var first := Candidate(n, 840);
    assert first == ImageUrlForRestaurant(r) + " 840w";
    var s := ImageSrcsetForRestaurant(r);
    assert s == first + [','] + Text.Join(parts[1..], ',');
    assert s[..|first|] == first;
  }

  /** A candidate carries a comma only where the photograph name does. */
  lemma CandidateHasNoComma(name: string, size: nat)
    requires ',' !in name
    ensures ',' !in Candidate(name, size)
  {
    var digits := Text.NatToString(size);
    assert ',' !in digits;
    assert Candidate(name, size) == "/img/" + name + "-" + digits + "px.jpg" + " " + digits + "w";
  }

  /** A srcset of a photograph name without commas reads back as exactly
      five candidates, one per size from the widest down, and the first one
      is the image URL with its width descriptor. */
  lemma SrcsetCandidates(r: Restaurant)
    requires ',' !in PhotoName(r)
    ensures Text.Split(ImageSrcsetForRestaurant(r), ',') ==
      seq(|SrcsetSizes|, i requires 0 <= i < |SrcsetSizes| => Candidate(PhotoName(r), SrcsetSizes[i]))
    ensures |Text.Split(ImageSrcsetForRestaurant(r), ',')| == 5
    ensures Text.Split(ImageSrcsetForRestaurant(r), ',')[0] ==
      ImageUrlForRestaurant(r) + " " + Text.NatToString(ImageSize) + "w"
  {
    var name := PhotoName(r);
    var parts := seq(|SrcsetSizes|, i requires 0 <= i < |SrcsetSizes| => Candidate(name, SrcsetSizes[i]));
    forall i | 0 <= i < |parts| ensures ',' !in parts[i] {
      CandidateHasNoComma(name, SrcsetSizes[i]);
    }
    Text.SplitJoin(parts, ',');
  }
}
