/** Posting a review from the restaurant page (src/js/restaurant_info.js,
    `postReview`): the review built from the form, and the outbox record
    for the restaurant that the review is appended to before it is written
    back. The outbox is a store of change records keyed by restaurant id. */
module Reviews {
  import opened Wrappers
  import opened Records

  /** The three form fields, as the form holds them (text). */
  datatype ReviewForm = ReviewForm(username: string, rating: string, comments: string)

  /** The `reviews` field of an outbox record: absent, null, or a list. */
  datatype ReviewsField = ReviewsAbsent | ReviewsNull | ReviewsList(list: seq<Review>)

  /** An outbox change record: its id, its pending reviews and whatever
      other fields it carries. */
  datatype Change = Change(id: int, reviews: ReviewsField, extra: map<string, string>)

  /** The object literal `review`: the page's restaurant id, the form
      values and one timestamp for both creation and update. */
  function NewReview(restaurantId: int, form: ReviewForm, timestamp: int): (review: Review)
    ensures review.restaurantId == Num(restaurantId)
    ensures review.createdAt == review.updatedAt == timestamp
    ensures review.id.None?
    ensures review.name == form.username && review.rating == Str(form.rating) && review.comments == form.comments
  {
    Review(None, Num(restaurantId), form.username, Str(form.rating), form.comments, timestamp, timestamp)
  }

  /** `{id, reviews: [], ...changes}`: the fields of the stored record win
      over the defaults, and an absent record contributes nothing. */
  function WithDefaults(existing: Option<Change>, id: int): Change {
    if existing.None? then Change(id, ReviewsList([]), map[])
    else
      var c := existing.value;
      c.(reviews := if c.reviews.ReviewsAbsent? then ReviewsList([]) else c.reviews)
  }

  /** The record `postReview` writes: the defaulted record with the review
      pushed onto its list; a null list makes the push fail. */
  function Merged(existing: Option<Change>, id: int, review: Review): (r: Result<Change, Failure>)
  {
    var changes := WithDefaults(existing, id);
    if changes.reviews.ReviewsNull? then Err(TypeError)
    else Ok(changes.(reviews := ReviewsList(changes.reviews.list + [review])))
  }

  /** The reviews pending before the merge. */
  function Pending(existing: Option<Change>): seq<Review> {
    if existing.Some? && existing.value.reviews.ReviewsList? then existing.value.reviews.list else []
  }

  /** The merge keeps every field of the stored record and appends the
      review last: the list grows by exactly one and the earlier reviews
      are unchanged. With no stored record, the result is `{id, reviews:
      [review]}`. It fails only on a stored null list. */
  lemma MergedSpec(existing: Option<Change>, id: int, review: Review)
    requires existing.Some? ==> existing.value.id == id
    ensures Merged(existing, id, review).Err? <==> existing.Some? && existing.value.reviews.ReviewsNull?
    ensures existing.None? ==> Merged(existing, id, review) == Ok(Change(id, ReviewsList([review]), map[]))
    ensures Merged(existing, id, review).Ok? ==>
      var c := Merged(existing, id, review).value;
      && c.id == id
      && c.reviews.ReviewsList?
      && |c.reviews.list| == |Pending(existing)| + 1
      && c.reviews.list[..|Pending(existing)|] == Pending(existing)
      && c.reviews.list[|Pending(existing)|] == review
      && (existing.Some? ==> c.extra == existing.value.extra)
  {
    var changes := WithDefaults(existing, id);
    if !changes.reviews.ReviewsNull? {
      assert changes.reviews.list == Pending(existing);
      assert (Pending(existing) + [review])[..|Pending(existing)|] == Pending(existing);
    }
  }

  /** Two posts in a row leave both reviews pending, in posting order. */
  lemma PostTwice(id: int, first: Review, second: Review)
    ensures Merged(Some(Merged(None, id, first).value), id, second) == Ok(Change(id, ReviewsList([first, second]), map[]))
  {
    var once := Change(id, ReviewsList([first]), map[]);
    assert Merged(None, id, first) == Ok(once) by {
      assert [] + [first] == [first];
    }
    assert [first] + [second] == [first, second];
  }

  /** The outbox store: one change record per restaurant id. */
  class Outbox {
    var changes: map<int, Change>

    ghost predicate Valid()
      reads this
    {
      forall k :: k in changes ==> changes[k].id == k
    }

    constructor()
      ensures Valid() && changes == map[]
    {
      changes := map[];
    }

    /** `storage.getOutboxData(id)`. */
    function Get(id: int): (c: Option<Change>)
      reads this
      ensures c.Some? <==> id in changes
      ensures c.Some? ==> c.value == changes[id]
    {
      if id in changes then Some(changes[id]) else None
    }

    /** `storage.putOutboxData(c)`: a whole-record upsert under `c.id`. */
    method Put(c: Change)
      requires Valid()
      modifies this
      ensures Valid()
      ensures changes == old(changes)[c.id := c]
    {
      changes := changes[c.id := c];
    }
  }

  /** `postReview` up to the write of the outbox: build the review, read
      the outbox record of the page's restaurant, default its fields, push
      the review and write the record back. Only that restaurant's entry is
      written; a stored null list rejects and writes nothing. */
  method PostReview(outbox: Outbox, restaurantId: int, form: ReviewForm, timestamp: int) returns (r: Result<Review, Failure>)
    requires outbox.Valid()
    modifies outbox
    ensures outbox.Valid()
    ensures r.Ok? ==> r.value == NewReview(restaurantId, form, timestamp)
    ensures r.Ok? <==> Merged(old(outbox.Get(restaurantId)), restaurantId, NewReview(restaurantId, form, timestamp)).Ok?
    ensures outbox.changes ==
      if r.Ok?
      then old(outbox.changes)[restaurantId :=
             Merged(old(outbox.Get(restaurantId)), restaurantId, NewReview(restaurantId, form, timestamp)).value]
      else old(outbox.changes)
  {
    var review := Review(None, Num(restaurantId), form.username, Str(form.rating), form.comments, timestamp, timestamp);
    var stored := outbox.Get(restaurantId);
    var changes := Change(restaurantId, ReviewsList([]), map[]);
    if stored.Some? {
      changes := stored.value;
      if changes.reviews.ReviewsAbsent? {
        changes := changes.(reviews := ReviewsList([]));
      }
    }
    if changes.reviews.ReviewsNull? {
      return Err(TypeError);
    }
    var list := changes.reviews.list;
    list := list + [review];
    changes := changes.(reviews := ReviewsList(list));
    outbox.Put(changes);
    r := Ok(review);
  }
}
