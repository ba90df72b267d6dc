/** The read paths of src/js/dbhelper.js: the API fetches with their join,
    the choice between the local store and the API, the cuisine and
    neighborhood selections and the restaurant page URL.

    `fetchRestaurants` and `fetchRestaurantById` read the store, then call
    the API, inside `try { ... } finally { return ... }`: the `return` in
    `finally` swallows every rejection, so a failed store read skips the API
    call and yields undefined (None), and a failed API call leaves whatever
    the store returned. */
module DbHelper {
  import opened Wrappers
  import opened Records
  import opened Seqs
  import opened Gateway
  import opened Storage
  import Text

  /** `dbData && dbData.length ? dbData : apiData`. */
  function PreferStored(dbData: Option<seq<Restaurant>>, apiData: Option<seq<Restaurant>>)
    : (r: Option<seq<Restaurant>>)
    ensures dbData.Some? && |dbData.value| > 0 ==> r == dbData
    ensures dbData.None? || dbData.value == [] ==> r == apiData
    ensures r != dbData ==> r == apiData
  {
    if dbData.Some? && |dbData.value| > 0 then dbData else apiData
  }

  /** What `fetchRestaurants` resolves to, given whether the store handle
      is ready, what the store holds and what the API yields. */
  function RestaurantsOutcome(ready: bool, stored: seq<Restaurant>, api: Result<seq<Restaurant>, Failure>)
    : (r: Option<seq<Restaurant>>)
    ensures !ready ==> r.None?
    ensures ready && stored != [] ==> r == Some(stored)
    ensures ready && stored == [] && api.Ok? ==> r == Some(api.value)
    ensures ready && stored == [] && api.Err? ==> r.None?
  {
    if !ready then None
    else PreferStored(Some(stored), if api.Ok? then Some(api.value) else None)
  }

  /** `fetchAllRestaurantsFromApi`: fetch, join, write the joined list to
      the store (without waiting for the write) and return it. */
  method FetchAllRestaurantsFromApi(store: Store, openOk: bool,
                                    restaurantsFetch: Fetched<seq<Restaurant>>, reviewsFetch: Fetched<seq<Review>>)
    returns (r: Result<seq<Restaurant>, Failure>)
    requires store.Valid()
    modifies store, store.objects
    ensures store.Valid()
    ensures r == JoinedFromApi(restaurantsFetch, reviewsFetch)
    ensures r.Ok? ==> store.hasOpened && store.available == old(store.HandleReady(openOk))
    ensures r.Err? ==> unchanged(store)
    ensures store.objects.records ==
      if r.Ok? && old(store.HandleReady(openOk)) then PutAll(old(store.objects.records), r.value)
      else old(store.objects.records)
  {
    var restaurants := FetchJson(restaurantsFetch);
    if restaurants.Err? {
      return Err(restaurants.error);
    }
    var reviews := FetchJson(reviewsFetch);
    if reviews.Err? {
      return Err(reviews.error);
    }
    if restaurants.value.None? {
      return Err(TypeError);
    }
    var list := restaurants.value.value;
    var joined: seq<Restaurant> := [];
    if reviews.value.None? {
      if list != [] {
        return Err(TypeError);
      }
    } else {
      joined := JoinReviews(list, reviews.value.value);
      JoinReviewsIsJoined(list, reviews.value.value, joined);
    }
    var written := store.PutAllRestaurants(openOk, joined);
    r := Ok(joined);
  }

  /** `fetchRestaurants`: the stored list when it is non-empty, otherwise
      the API list; undefined (None) when neither is available. The API is
      asked (and its list written to the store) even when the stored list
      wins. */
  method FetchRestaurants(store: Store, openOk: bool,
                          restaurantsFetch: Fetched<seq<Restaurant>>, reviewsFetch: Fetched<seq<Review>>)
    returns (r: Option<seq<Restaurant>>)
    requires store.Valid()
    modifies store, store.objects
    ensures store.Valid()
    ensures store.hasOpened && store.available == old(store.HandleReady(openOk))
    ensures r == RestaurantsOutcome(old(store.HandleReady(openOk)), old(ValuesInKeyOrder(store.objects.records)),
                                    JoinedFromApi(restaurantsFetch, reviewsFetch))
    ensures !old(store.HandleReady(openOk)) ==> r == None
    ensures old(store.HandleReady(openOk)) && old(|store.objects.records|) > 0 ==>
      r == Some(old(ValuesInKeyOrder(store.objects.records)))
    ensures store.objects.records ==
      if old(store.HandleReady(openOk)) && JoinedFromApi(restaurantsFetch, reviewsFetch).Ok?
      then PutAll(old(store.objects.records), JoinedFromApi(restaurantsFetch, reviewsFetch).value)
      else old(store.objects.records)
  {
    var dbData: Option<seq<Restaurant>> := None;
    var apiData: Option<seq<Restaurant>> := None;
    var stored := store.GetAllRestaurants(openOk);
    if stored.Ok? {
      dbData := Some(stored.value);
      var api := FetchAllRestaurantsFromApi(store, openOk, restaurantsFetch, reviewsFetch);
      if api.Ok? {
        apiData := Some(api.value);
      }
    }
    r := PreferStored(dbData, apiData);
  }

  /** `fetchRestaurantFromApi` before its write to the store: the
      restaurant of `/restaurants/{id}` with the list of
      `/reviews?restaurant_id={id}` as its `reviews` (a JSON null list is
      stored as null). A JSON null restaurant fails the assignment. */
  function RestaurantFromApi(restaurantFetch: Fetched<Restaurant>, reviewsFetch: Fetched<seq<Review>>)
    : (r: Result<Restaurant, Failure>)
    ensures r.Ok? <==> FetchJson(restaurantFetch).Ok? && FetchJson(restaurantFetch).value.Some? && FetchJson(reviewsFetch).Ok?
    ensures r.Ok? ==> r.value == FetchJson(restaurantFetch).value.value.(reviews := FetchJson(reviewsFetch).value)
  {
    match FetchJson(restaurantFetch)
    case Err(e) => Err(e)
    case Ok(restaurant) =>
      match FetchJson(reviewsFetch)
      case Err(e) => Err(e)
      case Ok(reviews) =>
        if restaurant.None? then Err(TypeError) else Ok(restaurant.value.(reviews := reviews))
  }

  /** `fetchRestaurantFromApi`: fetch, attach the reviews, write the record
      to the store (without waiting for the write) and return it. */
  method FetchRestaurantFromApi(store: Store, openOk: bool,
                                restaurantFetch: Fetched<Restaurant>, reviewsFetch: Fetched<seq<Review>>)
    returns (r: Result<Restaurant, Failure>)
    requires store.Valid()
    modifies store, store.objects
    ensures store.Valid()
    ensures r.Ok? ==> store.hasOpened && store.available == old(store.HandleReady(openOk))
    ensures r == RestaurantFromApi(restaurantFetch, reviewsFetch)
    ensures r.Err? ==> unchanged(store)
    ensures store.objects.records ==
      if r.Ok? && old(store.HandleReady(openOk)) then old(store.objects.records)[r.value.id := r.value]
      else old(store.objects.records)
  {
    var restaurant := FetchJson(restaurantFetch);
    if restaurant.Err? {
      return Err(restaurant.error);
    }
    var reviews := FetchJson(reviewsFetch);
    if reviews.Err? {
      return Err(reviews.error);
    }
    if restaurant.value.None? {
      return Err(TypeError);
    }
    var record := restaurant.value.value.(reviews := reviews.value);
    var written := store.PutRestaurant(openOk, record);
    r := Ok(record);
  }

  /** `fetchRestaurantById(id)`: the stored record under `+id` whenever
      there is one, otherwise the API record; undefined (None) when the
      store cannot be read (no database, or `+id` is NaN) or when neither
      source has the record. */
  method FetchRestaurantById(store: Store, openOk: bool, id: Scalar,
                             restaurantFetch: Fetched<Restaurant>, reviewsFetch: Fetched<seq<Review>>)
    returns (r: Option<Restaurant>)
    requires store.Valid()
    modifies store, store.objects
    ensures store.Valid()
    ensures store.hasOpened && store.available == old(store.HandleReady(openOk))
    ensures !old(store.HandleReady(openOk)) || ToNumber(id).None? ==> r == None
    ensures old(store.HandleReady(openOk)) && ToNumber(id).Some? ==>
      r == if ToNumber(id).value in old(store.objects.records) then Some(old(store.objects.records)[ToNumber(id).value])
           else if RestaurantFromApi(restaurantFetch, reviewsFetch).Ok?
           then Some(RestaurantFromApi(restaurantFetch, reviewsFetch).value) else None
    ensures store.objects.records ==
      if old(store.HandleReady(openOk)) && ToNumber(id).Some? && RestaurantFromApi(restaurantFetch, reviewsFetch).Ok?
      then old(store.objects.records)[RestaurantFromApi(restaurantFetch, reviewsFetch).value.id :=
                                      RestaurantFromApi(restaurantFetch, reviewsFetch).value]
      else old(store.objects.records)
  {
    var dbData: Option<Restaurant> := None;
    var apiData: Option<Restaurant> := None;
    var stored := store.GetRestaurant(openOk, id);
    if stored.Ok? {
      dbData := stored.value;
      var api := FetchRestaurantFromApi(store, openOk, restaurantFetch, reviewsFetch);
      if api.Ok? {
        apiData := Some(api.value);
      }
    }
    r := if dbData.Some? then dbData else apiData;
  }

  /** A parameter left undefined takes its default, "all". */
  function OrAll(choice: Option<string>): string {
    if choice.Some? then choice.value else "all"
  }

  /** The selection a restaurant must pass: "all" places no constraint. */
  predicate Matches(r: Restaurant, cuisine: string, neighborhood: string) {
    && (cuisine == "all" || r.cuisineType == cuisine)
    && (neighborhood == "all" || r.neighborhood == neighborhood)
  }

  /** The body of the `then` in `fetchRestaurantByCuisineAndNeighborhood`. */
  function SelectByCuisineAndNeighborhood(restaurants: Option<seq<Restaurant>>, cuisine: string, neighborhood: string)
    : seq<Restaurant>
  {
    if restaurants.None? then []
    else
      var results := restaurants.value;
      var results := if cuisine != "all" then Filter(results, (r: Restaurant) => r.cuisineType == cuisine) else results;
      if neighborhood != "all" then Filter(results, (r: Restaurant) => r.neighborhood == neighborhood) else results
  }

  /** The selection is the order-preserving sublist of the restaurants that
      match both constraints, and a missing list selects nothing. */
  lemma SelectionIsMatchingSublist(restaurants: Option<seq<Restaurant>>, cuisine: string, neighborhood: string)
    ensures restaurants.None? ==> SelectByCuisineAndNeighborhood(restaurants, cuisine, neighborhood) == []
    ensures restaurants.Some? ==>
      SelectByCuisineAndNeighborhood(restaurants, cuisine, neighborhood)
      == Filter(restaurants.value, (r: Restaurant) => Matches(r, cuisine, neighborhood))
  {
    if restaurants.Some? {
      var rs := restaurants.value;
      var byCuisine := (r: Restaurant) => r.cuisineType == cuisine;
      var byNeighborhood := (r: Restaurant) => r.neighborhood == neighborhood;
      var both := (r: Restaurant) => Matches(r, cuisine, neighborhood);
      if cuisine != "all" && neighborhood != "all" {
        FilterTwice(rs, byCuisine, byNeighborhood, both);
      } else if cuisine != "all" {
        FilterTwice(rs, byCuisine, (r: Restaurant) => true, both);
        FilterKeepsAll(Filter(rs, byCuisine), (r: Restaurant) => true);
      } else if neighborhood != "all" {
        FilterTwice(rs, (r: Restaurant) => true, byNeighborhood, both);
        FilterKeepsAll(rs, (r: Restaurant) => true);
      } else {
        FilterKeepsAll(rs, both);
      }
    }
  }

  /** `restaurants.map((v, i) => restaurants[i].neighborhood)`. */
  function NeighborhoodsOf(restaurants: seq<Restaurant>): (ns: seq<string>)
    ensures |ns| == |restaurants|
  {
    seq(|restaurants|, i requires 0 <= i < |restaurants| => restaurants[i].neighborhood)
  }

  /** `restaurants.map((v, i) => restaurants[i].cuisine_type)`. */
  function CuisinesOf(restaurants: seq<Restaurant>): (cs: seq<string>)
    ensures |cs| == |restaurants|
  {
    seq(|restaurants|, i requires 0 <= i < |restaurants| => restaurants[i].cuisineType)
  }

  /** The body of the `then` in `fetchNeighborhoods`. */
  function Neighborhoods(restaurants: Option<seq<Restaurant>>): seq<string> {
    if restaurants.None? then [] else Distinct(NeighborhoodsOf(restaurants.value))
  }

  /** The body of the `then` in `fetchCuisines`. */
  function Cuisines(restaurants: Option<seq<Restaurant>>): seq<string> {
    if restaurants.None? then [] else Distinct(CuisinesOf(restaurants.value))
  }

  /** The neighborhood list names every neighborhood present, each once, in
      the order of first occurrence, and is no longer than the restaurant
      list. */
  lemma NeighborhoodsSpec(restaurants: seq<Restaurant>)
    ensures forall n :: n in Neighborhoods(Some(restaurants)) <==>
      exists i :: 0 <= i < |restaurants| && restaurants[i].neighborhood == n
    ensures NoDuplicates(Neighborhoods(Some(restaurants)))
    ensures forall a, b :: 0 <= a < b < |Neighborhoods(Some(restaurants))| ==>
      IndexOf(NeighborhoodsOf(restaurants), Neighborhoods(Some(restaurants))[a])
      < IndexOf(NeighborhoodsOf(restaurants), Neighborhoods(Some(restaurants))[b])
    ensures |Neighborhoods(Some(restaurants))| <= |restaurants|
    ensures Neighborhoods(None) == []
  {
    var ns := NeighborhoodsOf(restaurants);
    DistinctSpec(ns);
    forall n ensures n in ns <==> exists i :: 0 <= i < |restaurants| && restaurants[i].neighborhood == n {
      if n in ns {
        var i :| 0 <= i < |ns| && ns[i] == n;
        assert restaurants[i].neighborhood == n;
      }
      if exists i :: 0 <= i < |restaurants| && restaurants[i].neighborhood == n {
        var i :| 0 <= i < |restaurants| && restaurants[i].neighborhood == n;
        assert ns[i] == n;
      }
    }
  }

  /** The cuisine list names every cuisine present, each once, in the order
      of first occurrence, and is no longer than the restaurant list. */
  lemma CuisinesSpec(restaurants: seq<Restaurant>)
    ensures forall c :: c in Cuisines(Some(restaurants)) <==>
      exists i :: 0 <= i < |restaurants| && restaurants[i].cuisineType == c
    ensures NoDuplicates(Cuisines(Some(restaurants)))
    ensures forall a, b :: 0 <= a < b < |Cuisines(Some(restaurants))| ==>
      IndexOf(CuisinesOf(restaurants), Cuisines(Some(restaurants))[a])
      < IndexOf(CuisinesOf(restaurants), Cuisines(Some(restaurants))[b])
    ensures |Cuisines(Some(restaurants))| <= |restaurants|
    ensures Cuisines(None) == []
  {
    var cs := CuisinesOf(restaurants);
    DistinctSpec(cs);
    forall c ensures c in cs <==> exists i :: 0 <= i < |restaurants| && restaurants[i].cuisineType == c {
      if c in cs {
        var i :| 0 <= i < |cs| && cs[i] == c;
        assert restaurants[i].cuisineType == c;
      }
      if exists i :: 0 <= i < |restaurants| && restaurants[i].cuisineType == c {
        var i :| 0 <= i < |restaurants| && restaurants[i].cuisineType == c;
        assert cs[i] == c;
      }
    }
  }

  /** `fetchRestaurantByCuisineAndNeighborhood(cuisine, neighborhood)`. */
  method FetchRestaurantByCuisineAndNeighborhood(store: Store, openOk: bool,
                                                 restaurantsFetch: Fetched<seq<Restaurant>>, reviewsFetch: Fetched<seq<Review>>,
                                                 cuisine: Option<string>, neighborhood: Option<string>)
    returns (results: seq<Restaurant>)
    requires store.Valid()
    modifies store, store.objects
    ensures store.Valid()
    ensures results == SelectByCuisineAndNeighborhood(
      RestaurantsOutcome(old(store.HandleReady(openOk)), old(ValuesInKeyOrder(store.objects.records)),
                         JoinedFromApi(restaurantsFetch, reviewsFetch)),
      OrAll(cuisine), OrAll(neighborhood))
    ensures store.hasOpened && store.available == old(store.HandleReady(openOk))
    ensures store.objects.records ==
      if old(store.HandleReady(openOk)) && JoinedFromApi(restaurantsFetch, reviewsFetch).Ok?
      then PutAll(old(store.objects.records), JoinedFromApi(restaurantsFetch, reviewsFetch).value)
      else old(store.objects.records)
  {
    var restaurants := FetchRestaurants(store, openOk, restaurantsFetch, reviewsFetch);
    results := SelectByCuisineAndNeighborhood(restaurants, OrAll(cuisine), OrAll(neighborhood));
  }

  /** `fetchNeighborhoods()`. */
  method FetchNeighborhoods(store: Store, openOk: bool,
                            restaurantsFetch: Fetched<seq<Restaurant>>, reviewsFetch: Fetched<seq<Review>>)
    returns (neighborhoods: seq<string>)
    requires store.Valid()
    modifies store, store.objects
    ensures store.Valid()
    ensures neighborhoods == Neighborhoods(
      RestaurantsOutcome(old(store.HandleReady(openOk)), old(ValuesInKeyOrder(store.objects.records)),
                         JoinedFromApi(restaurantsFetch, reviewsFetch)))
    ensures store.hasOpened && store.available == old(store.HandleReady(openOk))
    ensures store.objects.records ==
      if old(store.HandleReady(openOk)) && JoinedFromApi(restaurantsFetch, reviewsFetch).Ok?
      then PutAll(old(store.objects.records), JoinedFromApi(restaurantsFetch, reviewsFetch).value)
      else old(store.objects.records)
  {
    var restaurants := FetchRestaurants(store, openOk, restaurantsFetch, reviewsFetch);
    neighborhoods := Neighborhoods(restaurants);
  }

  /** `fetchCuisines()`. */
  method FetchCuisines(store: Store, openOk: bool,
                       restaurantsFetch: Fetched<seq<Restaurant>>, reviewsFetch: Fetched<seq<Review>>)
    returns (cuisines: seq<string>)
    requires store.Valid()
    modifies store, store.objects
    ensures store.Valid()
    ensures cuisines == Cuisines(
      RestaurantsOutcome(old(store.HandleReady(openOk)), old(ValuesInKeyOrder(store.objects.records)),
                         JoinedFromApi(restaurantsFetch, reviewsFetch)))
    ensures store.hasOpened && store.available == old(store.HandleReady(openOk))
    ensures store.objects.records ==
      if old(store.HandleReady(openOk)) && JoinedFromApi(restaurantsFetch, reviewsFetch).Ok?
      then PutAll(old(store.objects.records), JoinedFromApi(restaurantsFetch, reviewsFetch).value)
      else old(store.objects.records)
  {
    var restaurants := FetchRestaurants(store, openOk, restaurantsFetch, reviewsFetch);
    cuisines := Cuisines(restaurants);
  }

  const RestaurantPage := "./restaurant.html?id="

  /** `urlForRestaurant`: the restaurant page with the id as query value;
      the id reads back from the URL with unary `+`. */
  function UrlForRestaurant(r: Restaurant): (url: string)
    ensures Text.StartsWith(url, RestaurantPage)
    ensures Text.StringToNumber(url[|RestaurantPage|..]) == Some(r.id)
  {
    Text.IntToStringRoundTrip(r.id);
    var url := RestaurantPage + Text.IntToString(r.id);
    assert url[|RestaurantPage|..] == Text.IntToString(r.id);
    url
  }
}
