/** From the restaurant list to the restaurant page: the link built by
    `urlForRestaurant` carries the id in its query, `getParameterByName("id")`
    reads it back on the restaurant page, and unary `+` (in the store read
    of `fetchRestaurantById`) turns it into the same id. */
module Navigation {
  import opened Wrappers
  import opened Records
  import opened Query
  import DbHelper
  import Text

  /** A page path followed by `?id=` and the id reads back as that id. */
  lemma IdQueryRoundTrip(page: string, id: int, decode: string -> Option<string>)
    requires '?' !in page && '&' !in page
    requires decode(Text.IntToString(id)) == Some(Text.IntToString(id))
    ensures GetParameterByName("id", None, page + "?id=" + Text.IntToString(id), decode) == Found(Text.IntToString(id))
    ensures ToNumber(Str(Text.IntToString(id))) == Some(id)
  {
    var digits := Text.IntToString(id);
    var u := page + "?id=" + digits;
    var p := |page|;
    assert u[p] == '?' && u[p + 1..p + 3] == "id" && u[p + 3] == '=';
    assert u[p + 4..] == digits;
    forall q | 0 <= q < p ensures MatchAt(u, "id", q).None? {
      assert u[q] == page[q];
    }
    LeftmostValue("id", None, u, decode, p);
    ValueSpanWhole(digits);
    assert Text.PlusToSpace(digits) == digits;
    Text.IntToStringRoundTrip(id);
  }

  /** The restaurant page link of a restaurant leads back to its id. */
  lemma RestaurantPageRoundTrip(r: Restaurant, decode: string -> Option<string>)
    requires decode(Text.IntToString(r.id)) == Some(Text.IntToString(r.id))
    ensures GetParameterByName("id", None, DbHelper.UrlForRestaurant(r), decode) == Found(Text.IntToString(r.id))
    ensures ToNumber(Str(Text.IntToString(r.id))) == Some(r.id)
  {
    assert DbHelper.UrlForRestaurant(r) == "./restaurant.html" + "?id=" + Text.IntToString(r.id);
    IdQueryRoundTrip("./restaurant.html", r.id, decode);
  }
}
