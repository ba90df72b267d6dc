/** The favourite checkbox of the restaurant list (src/js/main.js): how a
    record renders, and the read-modify-write `toggleFavorite` performs on
    the local store. */
module Favorites {
  import opened Wrappers
  import opened Records
  import opened Storage
  import Text

  /** `favInput.checked = restaurant.is_favorite === "true"`. */
  function IsChecked(r: Restaurant): (checked: bool)
    ensures checked <==> r.isFavorite == FavoriteString("true")
    ensures r.isFavorite.FavoriteBool? || r.isFavorite.FavoriteUnset? ==> !checked
  {
    r.isFavorite == FavoriteString("true")
  }

  /** The `data-id` attribute of the checkbox: `restaurant.id` as text. It
      coerces back to the same id under unary `+`. */
  function DataId(r: Restaurant): (dataId: string)
    ensures ToNumber(Str(dataId)) == Some(r.id)
  {
    Text.IntToStringRoundTrip(r.id);
    Text.IntToString(r.id)
  }

  /** The record `toggleFavorite` writes back for a box now in state
      `checked`. */
  function Toggled(r: Restaurant, checked: bool): Restaurant {
    r.(isFavorite := FavoriteString(if checked then "true" else "false"),
       sync := Some((if r.sync.Some? then r.sync.value else map[])["favorite" := true]))
  }

  /** After the toggle the record renders in the state the box was put in,
      `sync.favorite` is set, every other `sync` field is kept, and nothing
      but `is_favorite` and `sync` changes. */
  lemma ToggledSpec(r: Restaurant, checked: bool)
    ensures IsChecked(Toggled(r, checked)) == checked
    ensures Toggled(r, checked).isFavorite == FavoriteString(if checked then "true" else "false")
    ensures Toggled(r, checked).sync.Some?
    ensures "favorite" in Toggled(r, checked).sync.value && Toggled(r, checked).sync.value["favorite"]
    ensures r.sync.Some? ==> Toggled(r, checked).sync.value.Keys == r.sync.value.Keys + {"favorite"}
    ensures r.sync.None? ==> Toggled(r, checked).sync.value.Keys == {"favorite"}
    ensures r.sync.Some? ==> forall k :: k in r.sync.value && k != "favorite" ==>
      Toggled(r, checked).sync.value[k] == r.sync.value[k]
    ensures Toggled(r, checked).(isFavorite := r.isFavorite, sync := r.sync) == r
  {
  }

  /** Toggling again overrides the earlier toggle: only the last box state
      counts. */
  lemma ToggleLastWins(r: Restaurant, first: bool, second: bool)
    ensures Toggled(Toggled(r, first), second) == Toggled(r, second)
  {
    var once := if r.sync.Some? then r.sync.value else map[];
    assert once["favorite" := true]["favorite" := true] == once["favorite" := true];
  }

  /** `toggleFavorite`: read the record under `+dataId`, set `is_favorite`
      and `sync.favorite`, and write it back under the same key. It rejects
      when the store cannot be read or holds no such record. */
  method ToggleFavorite(store: Store, openOk: bool, dataId: string, checked: bool) returns (r: Result<(), Failure>)
    requires store.Valid()
    modifies store, store.objects
    ensures store.Valid()
    ensures store.hasOpened && store.available == old(store.HandleReady(openOk))
    ensures r.Ok? <==>
      && old(store.HandleReady(openOk)) && ToNumber(Str(dataId)).Some?
      && ToNumber(Str(dataId)).value in old(store.objects.records)
    ensures !old(store.HandleReady(openOk)) ==> r == Err(TypeError)
    ensures old(store.HandleReady(openOk)) && ToNumber(Str(dataId)).None? ==> r == Err(DataError)
    ensures r.Ok? ==>
      var key := ToNumber(Str(dataId)).value;
      store.objects.records == old(store.objects.records)[key := Toggled(old(store.objects.records)[key], checked)]
    ensures r.Err? ==> store.objects.records == old(store.objects.records)
  {
    var stored := store.GetRestaurant(openOk, Str(dataId));
    if stored.Err? {
      return Err(stored.error);
    }
    if stored.value.None? {
      return Err(TypeError);
    }
    var restaurant := stored.value.value;
    restaurant := restaurant.(isFavorite := FavoriteString(if checked then "true" else "false"));
    restaurant := restaurant.(sync := Some((if restaurant.sync.Some? then restaurant.sync.value else map[])["favorite" := true]));
    // The handle was just read, so this write goes through.
    var written := store.PutRestaurant(openOk, restaurant);
    r := Ok(());
  }

  /** The checkbox of a stored record finds that record again. */
  lemma ToggleFindsItsRecord(records: map<int, Restaurant>, r: Restaurant)
    requires KeyedById(records) && exists k :: k in records && records[k] == r
    ensures ToNumber(Str(DataId(r))) == Some(r.id)
    ensures r.id in records && records[r.id] == r
  {
    var k :| k in records && records[k] == r;
  }
}
