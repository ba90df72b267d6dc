/** The local key-value store: the IndexedDB database "mws-restaurants" with
    its single object store "restaurants" keyed by `id`, and the `storage`
    module of src/js/storage.js that opens it once and reads and writes
    whole records through it. */
module Storage {
  import opened Wrappers
  import opened Records

  /** An object store the upgrade callback creates. */
  datatype StoreSchema = StoreSchema(name: string, keyPath: string)

  /** The upgrade callback of `idb.open('mws-restaurants', 1, ...)`: from a
      fresh database (version 0) it creates the one store "restaurants" with
      key path "id"; from any other version it creates nothing. */
  function UpgradeSchema(oldVersion: nat): (created: seq<StoreSchema>)
    ensures |created| <= 1
    ensures created != [] <==> oldVersion == 0
    ensures forall s :: s in created ==> s == StoreSchema("restaurants", "id")
  {
    match oldVersion
    case 0 => [StoreSchema("restaurants", "id")]
    case _ => []
  }

  lemma {:induction false} MinExists(s: set<int>)
    requires s != {}
    ensures exists m :: m in s && forall y :: y in s ==> m <= y
    decreases |s|
  {
    var x := PickOne(s);
    if s != {x} {
      var rest := s - {x};
      MinExists(rest);
      var m :| m in rest && forall y :: y in rest ==> m <= y;
      var least := if x < m then x else m;
      forall y | y in s ensures least <= y {
        if y != x {
          assert y in rest;
        }
      }
    } else {
      assert forall y :: y in s ==> x <= y;
    }
  }

  lemma PickOne(s: set<int>) returns (x: int)
    requires s != {}
    ensures x in s
  {
    if forall y :: y !in s {
      assert false;
    }
    x :| x in s;
  }

  function SetMin(s: set<int>): (m: int)
    requires s != {}
    ensures m in s && forall y :: y in s ==> m <= y
  {
    MinExists(s);
    var m :| m in s && forall y :: y in s ==> m <= y;
    m
  }

  predicate Increasing(ks: seq<int>) {
    forall a, b :: 0 <= a < b < |ks| ==> ks[a] < ks[b]
  }

  /** The keys of a store in ascending order, the order in which IndexedDB
      enumerates them. */
  function SortedKeys(s: set<int>): (ks: seq<int>)
    ensures Increasing(ks)
    ensures forall k :: k in ks <==> k in s
    ensures |ks| == |s|
    decreases |s|
  {
    if s == {} then []
    else
      var m := SetMin(s);
      [m] + SortedKeys(s - {m})
  }

  /** `getAll()`: every stored record, in ascending key order. */
  function ValuesInKeyOrder(m: map<int, Restaurant>): (rs: seq<Restaurant>)
    ensures |rs| == |m|
  {
    var ks := SortedKeys(m.Keys);
    seq(|ks|, i requires 0 <= i < |ks| => m[ks[i]])
  }

  /** A store whose records sit under their own ids. */
  ghost predicate KeyedById(m: map<int, Restaurant>) {
    forall k :: k in m ==> m[k].id == k
  }

  /** `getAll()` returns each stored record exactly once: every stored
      record appears, only stored records appear, and no two positions hold
      records with the same id. */
  lemma GetAllExactlyOnce(m: map<int, Restaurant>)
    requires KeyedById(m)
    ensures forall k :: k in m ==> m[k] in ValuesInKeyOrder(m)
    ensures forall r :: r in ValuesInKeyOrder(m) ==> r.id in m && m[r.id] == r
    ensures forall a, b :: 0 <= a < b < |ValuesInKeyOrder(m)| ==> ValuesInKeyOrder(m)[a].id < ValuesInKeyOrder(m)[b].id
  {
    var ks := SortedKeys(m.Keys);
    var rs := ValuesInKeyOrder(m);
    forall k | k in m ensures m[k] in rs {
      var i := PositionOf(ks, k);
      assert rs[i] == m[k];
    }
    forall r | r in rs ensures r.id in m && m[r.id] == r {
      var i := PositionOf(rs, r);
      assert rs[i] == m[ks[i]];
    }
    forall a, b | 0 <= a < b < |rs| ensures rs[a].id < rs[b].id {
      assert rs[a] == m[ks[a]];
      assert rs[b] == m[ks[b]];
    }
  }

  lemma PositionOf<T>(s: seq<T>, x: T) returns (i: nat)
    requires x in s
    ensures i < |s| && s[i] == x
  {
    i :| 0 <= i < |s| && s[i] == x;
  }

  /** A sequence of `store.put` calls, one per record in order. */
  function PutAll(m: map<int, Restaurant>, rs: seq<Restaurant>): map<int, Restaurant>
    decreases |rs|
  {
    if rs == [] then m
    else
      var last := rs[|rs| - 1];
      PutAll(m, rs[..|rs| - 1])[last.id := last]
  }

  /** The position of the last record of `rs` with this id, or -1. */
  function LastIndexWithId(rs: seq<Restaurant>, k: int): (i: int)
    ensures -1 <= i < |rs|
    ensures i == -1 ==> forall j :: 0 <= j < |rs| ==> rs[j].id != k
    ensures 0 <= i ==> rs[i].id == k && forall j :: i < j < |rs| ==> rs[j].id != k
    decreases |rs|
  {
    if rs == [] then -1
    else if rs[|rs| - 1].id == k then |rs| - 1
    else LastIndexWithId(rs[..|rs| - 1], k)
  }

  /** After the puts, an id of the list holds the last record of the list
      with that id; every other key is as it was. */
  lemma {:induction false} PutAllAt(m: map<int, Restaurant>, rs: seq<Restaurant>, k: int)
    ensures var i := LastIndexWithId(rs, k);
      if 0 <= i then k in PutAll(m, rs) && PutAll(m, rs)[k] == rs[i]
      else (k in PutAll(m, rs) <==> k in m) && (k in m ==> PutAll(m, rs)[k] == m[k])
    decreases |rs|
  {
    if rs != [] {
      var init := rs[..|rs| - 1];
      PutAllAt(m, init, k);
      if rs[|rs| - 1].id != k {
        var i := LastIndexWithId(init, k);
        assert LastIndexWithId(rs, k) == i;
        if 0 <= i {
          assert rs[i] == init[i];
        }
      }
    }
  }

  /** Writing the same list twice leaves the store as writing it once. */
  lemma PutAllIdempotent(m: map<int, Restaurant>, rs: seq<Restaurant>)
    ensures PutAll(PutAll(m, rs), rs) == PutAll(m, rs)
  {
    var once := PutAll(m, rs);
    var twice := PutAll(once, rs);
    forall k ensures (k in twice <==> k in once) && (k in twice ==> twice[k] == once[k]) {
      PutAllAt(m, rs, k);
      PutAllAt(once, rs, k);
    }
  }

  /** Writing records keeps every record under its own id. */
  lemma {:induction false} PutAllKeyedById(m: map<int, Restaurant>, rs: seq<Restaurant>)
    requires KeyedById(m)
    ensures KeyedById(PutAll(m, rs))
    decreases |rs|
  {
    if rs != [] {
      PutAllKeyedById(m, rs[..|rs| - 1]);
    }
  }

  /** The IndexedDB object store "restaurants" (key path "id"). */
  class ObjectStore {
    var records: map<int, Restaurant>

    ghost predicate Valid()
      reads this
    {
      KeyedById(records)
    }

    constructor ()
      ensures Valid() && records == map[]
    {
      records := map[];
    }

    /** `store.get(key)`. */
    function Get(key: int): (r: Option<Restaurant>)
      reads this
      ensures r.Some? <==> key in records
      ensures r.Some? ==> r.value == records[key]
    {
      if key in records then Some(records[key]) else None
    }

    /** `store.getAll()`. */
    function GetAll(): seq<Restaurant>
      reads this
    {
      ValuesInKeyOrder(records)
    }

    /** `store.put(restaurant)`: a whole-record upsert under `restaurant.id`. */
    method Put(restaurant: Restaurant)
      requires Valid()
      modifies this
      ensures Valid()
      ensures records == old(records)[restaurant.id := restaurant]
    {
      records := records[restaurant.id := restaurant];
    }
  }

  /** The `storage` object of src/js/storage.js: the memoised handle `db`
      and the four operations. `hasOpened` records that `getDB` has run
      `idb.open`; `available` that the open resolved to a database (a failed
      open is caught and memoised as a handle resolving to undefined). Once
      `hasOpened` is set it stays set and `available` never changes again,
      so the database is opened at most once. */
  class Store {
    const objects: ObjectStore
    var hasOpened: bool
    var available: bool

    ghost predicate Valid()
      reads this, objects
    {
      && objects.Valid()
      && (!hasOpened ==> !available)
    }

    /** Will the handle resolve to a database, given the outcome `openOk`
        that `idb.open` would have if it ran now? */
    predicate HandleReady(openOk: bool)
      reads this
    {
      if hasOpened then available else openOk
    }

    constructor (objects: ObjectStore)
      requires objects.Valid()
      ensures Valid() && this.objects == objects && !hasOpened
    {
      this.objects := objects;
      hasOpened, available := false, false;
    }

    /** `getDB()`: opens the database on the first call only (with outcome
        `openOk`) and otherwise returns the memoised handle. */
    method GetDB(openOk: bool) returns (db: Option<ObjectStore>)
      requires Valid()
      modifies this
      ensures Valid() && hasOpened
      ensures available == old(HandleReady(openOk))
      ensures old(hasOpened) ==> available == old(available)
      ensures db == if available then Some(objects) else None
    {
      if !hasOpened {
        hasOpened := true;
        available := openOk;
      }
      db := if available then Some(objects) else None;
    }

    /** `getAllRestaurants()`: the stored records in key order; it rejects
        with a TypeError when there is no database. */
    method GetAllRestaurants(openOk: bool) returns (r: Result<seq<Restaurant>, Failure>)
      requires Valid()
      modifies this
      ensures Valid() && hasOpened && available == old(HandleReady(openOk))
      ensures r == if available then Ok(ValuesInKeyOrder(objects.records)) else Err(TypeError)
    {
      var db := GetDB(openOk);
      if db.None? {
        return Err(TypeError);
      }
      r := Ok(db.value.GetAll());
    }

    /** `getRestaurant(id)`: the record under `+id`, or None; the key NaN
        makes IndexedDB throw a DataError. */
    method GetRestaurant(openOk: bool, id: Scalar) returns (r: Result<Option<Restaurant>, Failure>)
      requires Valid()
      modifies this
      ensures Valid() && hasOpened && available == old(HandleReady(openOk))
      ensures !available ==> r == Err(TypeError)
      ensures available && ToNumber(id).None? ==> r == Err(DataError)
      ensures available && ToNumber(id).Some? ==> r == Ok(objects.Get(ToNumber(id).value))
    {
      var db := GetDB(openOk);
      if db.None? {
        return Err(TypeError);
      }
      var key := ToNumber(id);
      if key.None? {
        return Err(DataError);
      }
      r := Ok(db.value.Get(key.value));
    }

    /** `putAllRestaurants(restaurants)`: one read-write transaction with a
        `put` per record, in list order. */
    method PutAllRestaurants(openOk: bool, restaurants: seq<Restaurant>) returns (r: Result<(), Failure>)
      requires Valid()
      modifies this, objects
      ensures Valid() && hasOpened && available == old(HandleReady(openOk))
      ensures r.Ok? == available
      ensures objects.records == if available then PutAll(old(objects.records), restaurants) else old(objects.records)
    {
      var db := GetDB(openOk);
      if db.None? {
        return Err(TypeError);
      }
      var store := db.value;
      for i := 0 to |restaurants|
        invariant Valid() && available
        invariant store.records == PutAll(old(objects.records), restaurants[..i])
      {
        assert restaurants[..i + 1][..i] == restaurants[..i];
        store.Put(restaurants[i]);
      }
      assert restaurants[..|restaurants|] == restaurants;
      r := Ok(());
    }

    /** `putRestaurant(restaurant)`: one whole-record upsert. */
    method PutRestaurant(openOk: bool, restaurant: Restaurant) returns (r: Result<(), Failure>)
      requires Valid()
      modifies this, objects
      ensures Valid() && hasOpened && available == old(HandleReady(openOk))
      ensures r.Ok? == available
      ensures objects.records == if available then old(objects.records)[restaurant.id := restaurant] else old(objects.records)
    {
      var db := GetDB(openOk);
      if db.None? {
        return Err(TypeError);
      }
      db.value.Put(restaurant);
      r := Ok(());
    }
  }
}
