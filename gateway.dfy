/** The remote side of the data layer: what a `fetch` of the API can yield,
    `jsonFromResponse`, and the join of the `/reviews` list onto the
    `/restaurants` list by `restaurant_id`. */
module Gateway {
  import opened Wrappers
  import opened Records
  import opened Seqs

  /** A response body as `response.json()` reads it. */
  datatype Json<T> = Malformed | Null | Value(v: T)

  datatype HttpResponse<T> = HttpResponse(ok: bool, body: Json<T>)

  /** The outcome of `fetch(url)`: it rejects only when the network fails. */
  datatype Fetched<T> = NetworkFailure | Received(response: HttpResponse<T>)

  /** `jsonFromResponse`: the parsed body of an ok response (None for a JSON
      null); every other response rejects. */
  function JsonFromResponse<T>(response: HttpResponse<T>): (r: Result<Option<T>, Failure>)
    ensures r.Ok? <==> response.ok && !response.body.Malformed?
    ensures !response.ok ==> r == Err(NotOk)
    ensures response.ok && response.body.Malformed? ==> r == Err(BadJson)
    ensures r.Ok? ==> (r.value.Some? <==> response.body.Value?)
    ensures r.Ok? && r.value.Some? ==> r.value.value == response.body.v
  {
    if !response.ok then Err(NotOk)
    else match response.body
      case Malformed => Err(BadJson)
      case Null => Ok(None)
      case Value(v) => Ok(Some(v))
  }

  /** `fetch(url).then(DBHelper.jsonFromResponse)`. */
  function FetchJson<T>(f: Fetched<T>): (r: Result<Option<T>, Failure>)
    ensures f.NetworkFailure? ==> r == Err(NetworkError)
    ensures f.Received? ==> r == JsonFromResponse(f.response)
  {
    match f
    case NetworkFailure => Err(NetworkError)
    case Received(response) => JsonFromResponse(response)
  }

  /** Does the review belong to the restaurant with this id
      (`review.restaurant_id === restaurant.id`)? Strict equality: a review
      whose restaurant_id is a string never matches. */
  predicate BelongsTo(review: Review, id: int) {
    review.restaurantId == Num(id)
  }

  /** `reviews.filter(review => review.restaurant_id === id)`. */
  function ReviewsFor(reviews: seq<Review>, id: int): seq<Review> {
    Filter(reviews, (rv: Review) => BelongsTo(rv, id))
  }

  /** The restaurant list after the join: every restaurant with its own
      reviews and nothing else changed. */
  function Joined(restaurants: seq<Restaurant>, reviews: seq<Review>): (joined: seq<Restaurant>)
    ensures |joined| == |restaurants|
  {
    seq(|restaurants|, i requires 0 <= i < |restaurants| =>
      restaurants[i].(reviews := Some(ReviewsFor(reviews, restaurants[i].id))))
  }

  /** The `forEach` that assigns `restaurant.reviews` on each restaurant of
      the list in turn. */
  method JoinReviews(restaurants: seq<Restaurant>, reviews: seq<Review>) returns (joined: seq<Restaurant>)
    ensures |joined| == |restaurants|
    ensures forall i :: 0 <= i < |joined| ==>
      joined[i].id == restaurants[i].id && joined[i].reviews == Some(ReviewsFor(reviews, restaurants[i].id))
    ensures forall i :: 0 <= i < |joined| ==>
      joined[i].(reviews := restaurants[i].reviews) == restaurants[i]
  {
    joined := restaurants;
    var i := 0;
    while i < |joined|
      invariant 0 <= i <= |joined| == |restaurants|
      invariant forall k :: 0 <= k < i ==> joined[k] == restaurants[k].(reviews := Some(ReviewsFor(reviews, restaurants[k].id)))
      invariant forall k :: i <= k < |joined| ==> joined[k] == restaurants[k]
    {
      var restaurant := joined[i];
      joined := joined[i := restaurant.(reviews := Some(ReviewsFor(reviews, restaurant.id)))];
      i := i + 1;
    }
  }

  /** The join yields exactly `Joined`. */
  lemma JoinReviewsIsJoined(restaurants: seq<Restaurant>, reviews: seq<Review>, joined: seq<Restaurant>)
    requires |joined| == |restaurants|
    requires forall i :: 0 <= i < |joined| ==>
      joined[i].id == restaurants[i].id && joined[i].reviews == Some(ReviewsFor(reviews, restaurants[i].id))
    requires forall i :: 0 <= i < |joined| ==>
      joined[i].(reviews := restaurants[i].reviews) == restaurants[i]
    ensures joined == Joined(restaurants, reviews)
  {
    forall i | 0 <= i < |joined| ensures joined[i] == Joined(restaurants, reviews)[i] {
      var j := joined[i];
      assert j == j.(reviews := restaurants[i].reviews).(reviews := j.reviews);
    }
  }

  /** The reviews a restaurant receives are exactly those whose
      restaurant_id is its id: each one matches, each matching review is
      kept as often as it occurs, and the kept reviews of a concatenation
      are those of each part in turn (so the original order is kept). */
  lemma ReviewsForExact(reviews: seq<Review>, id: int)
    ensures forall rv :: rv in ReviewsFor(reviews, id) <==> rv in reviews && BelongsTo(rv, id)
    ensures forall rv :: multiset(ReviewsFor(reviews, id))[rv] == if BelongsTo(rv, id) then multiset(reviews)[rv] else 0
    ensures forall a, b :: a + b == reviews ==> ReviewsFor(reviews, id) == ReviewsFor(a, id) + ReviewsFor(b, id)
  {
    var p := (rv: Review) => BelongsTo(rv, id);
    forall rv ensures multiset(ReviewsFor(reviews, id))[rv] == if BelongsTo(rv, id) then multiset(reviews)[rv] else 0 {
      FilterCount(reviews, p, rv);
    }
    forall a, b | a + b == reviews ensures ReviewsFor(reviews, id) == ReviewsFor(a, id) + ReviewsFor(b, id) {
      FilterConcat(a, b, p);
    }
  }

  /** Reviews of a single restaurant come back whole from the join. */
  lemma ReviewsForAllMatching(reviews: seq<Review>, id: int)
    requires forall k :: 0 <= k < |reviews| ==> BelongsTo(reviews[k], id)
    ensures ReviewsFor(reviews, id) == reviews
  {
    FilterKeepsAll(reviews, (rv: Review) => BelongsTo(rv, id));
  }

  /** `fetchAllRestaurantsFromApi` before its write to the store: fetch the
      restaurants, then the reviews, then join. A JSON null in place of the
      restaurant list fails the `forEach`; a null review list fails the
      `filter` unless there is no restaurant to join it to. */
  function JoinedFromApi(restaurantsFetch: Fetched<seq<Restaurant>>, reviewsFetch: Fetched<seq<Review>>)
    : (r: Result<seq<Restaurant>, Failure>)
    ensures r.Ok? ==> FetchJson(restaurantsFetch).Ok? && FetchJson(reviewsFetch).Ok?
    ensures FetchJson(restaurantsFetch).Ok? && FetchJson(restaurantsFetch).value.None? ==> r.Err?
    ensures FetchJson(restaurantsFetch).Ok? && FetchJson(restaurantsFetch).value.Some? &&
            FetchJson(reviewsFetch).Ok? && FetchJson(reviewsFetch).value.None? ==>
      r == if FetchJson(restaurantsFetch).value.value == [] then Ok([]) else Err(TypeError)
    ensures r.Ok? ==> |r.value| == if FetchJson(restaurantsFetch).value.Some? then |FetchJson(restaurantsFetch).value.value| else 0
    ensures forall restaurants, reviews ::
      restaurantsFetch == Received(HttpResponse(true, Value(restaurants))) &&
      reviewsFetch == Received(HttpResponse(true, Value(reviews))) ==>
      r == Ok(Joined(restaurants, reviews))
  {
    match FetchJson(restaurantsFetch)
    case Err(e) => Err(e)
    case Ok(restaurants) =>
      match FetchJson(reviewsFetch)
      case Err(e) => Err(e)
      case Ok(reviews) =>
        if restaurants.None? then Err(TypeError)
        else if reviews.None? then (if restaurants.value == [] then Ok([]) else Err(TypeError))
        else Ok(Joined(restaurants.value, reviews.value))
  }
}
