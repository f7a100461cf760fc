/** The listing catalogue kept by lib/properties.ts: an array of property
    records serialised as one blob under the storage key
    `featured_properties`, read with a fallback to six seeded listings, and
    rewritten as a whole (followed by a `propertiesUpdated` event) on every
    change. */
module Properties {
  import opened Wrappers

  const StorageKey: string := "featured_properties"

  datatype PropertyType = Sale | Rental

  /** One listing card. */
  datatype Property = Property(
    id: int,
    title: string,
    location: string,
    price: string,
    areaM2: string,
    areaSqft: string,
    bedrooms: int,
    images: seq<string>,
    kind: PropertyType)

  /** `Omit<Property, 'id'>`: what a caller hands to `addProperty`. */
  datatype Draft = Draft(
    title: string,
    location: string,
    price: string,
    areaM2: string,
    areaSqft: string,
    bedrooms: int,
    images: seq<string>,
    kind: PropertyType)

  /** `Partial<Property>`: every key may be absent (`None`). Used both for the
      `updates` of `updateProperty` and for the admin panel's form. */
  datatype PartialProperty = PartialProperty(
    id: Option<int>,
    title: Option<string>,
    location: Option<string>,
    price: Option<string>,
    areaM2: Option<string>,
    areaSqft: Option<string>,
    bedrooms: Option<int>,
    images: Option<seq<string>>,
    kind: Option<PropertyType>)

  /** The JavaScript object `{}`. */
  const EmptyPartial: PartialProperty :=
    PartialProperty(None, None, None, None, None, None, None, None, None)

  /** A record viewed as a partial record with every key present. */
  function Whole(p: Property): PartialProperty {
    PartialProperty(Some(p.id), Some(p.title), Some(p.location), Some(p.price), Some(p.areaM2),
                    Some(p.areaSqft), Some(p.bedrooms), Some(p.images), Some(p.kind))
  }

  /** `{ ...property, id }`. */
  function WithId(d: Draft, id: int): Property {
    Property(id, d.title, d.location, d.price, d.areaM2, d.areaSqft, d.bedrooms, d.images, d.kind)
  }

  /** `{ ...p, ...u }`: a shallow merge in which every key present in `u` wins. */
  function Merge(p: Property, u: PartialProperty): Property {
    Property(u.id.GetOr(p.id), u.title.GetOr(p.title), u.location.GetOr(p.location),
             u.price.GetOr(p.price), u.areaM2.GetOr(p.areaM2), u.areaSqft.GetOr(p.areaSqft),
             u.bedrooms.GetOr(p.bedrooms), u.images.GetOr(p.images), u.kind.GetOr(p.kind))
  }

  /** Merging the empty object changes nothing, and merging a whole record
      replaces everything. */
  lemma MergeUnits(p: Property, q: Property)
    ensures Merge(p, EmptyPartial) == p
    ensures Merge(p, Whole(q)) == q
  {
  }

  predicate HasId(ps: seq<Property>, id: int) {
    exists i :: 0 <= i < |ps| && ps[i].id == id
  }

  predicate UniqueIds(ps: seq<Property>) {
    forall i, j :: 0 <= i < j < |ps| ==> ps[i].id != ps[j].id
  }

  /** What the storage slot holds: nothing (or the empty string, which is
      falsy), text that `JSON.parse` rejects, or a serialised array. */
  datatype Slot = Missing | Unparsable | Holds(records: seq<Property>)

  /** The photographs of the seeded listings. */
  const Photo1: string := "https://images.unsplash.com/photo-1600607687939-ce8a6c25118c?q=80&w=2053"
  const Photo2: string := "https://images.unsplash.com/photo-1600607687644-c7171b42498b?q=80&w=2027"
  const Photo3: string := "https://images.unsplash.com/photo-1600585154340-be6161a56a0c?q=80&w=2070"
  const Photo4: string := "https://images.unsplash.com/photo-1600596542815-ffad4c1539a9?q=80&w=2075"
  const Photo5: string := "https://images.unsplash.com/photo-1600566753190-17f0baa2a6c3?q=80&w=2070"
  const Photo6: string := "https://images.unsplash.com/photo-1497366216548-37526070297c?q=80&w=2069"

  /** The six seeded listings shown until the first write. */
  function DefaultProperties(): seq<Property> {
    [ Property(1, "Пентхаус с видом на Burj Khalifa", "Downtown Dubai", "AED 15,000,000", "450", "4844", 4,
               [Photo1, Photo2, Photo3], Sale),
      Property(2, "Вилла на Palm Jumeirah", "Palm Jumeirah", "AED 25,000/мес", "800", "8611", 6,
               [Photo3, Photo4, Photo5], Rental),
      Property(3, "Апартаменты в Dubai Marina", "Dubai Marina", "AED 8,500,000", "180", "1938", 2,
               [Photo2, Photo1, Photo3], Sale),
      Property(4, "Офис в Business Bay", "Business Bay", "AED 120,000/мес", "500", "5382", 0,
               [Photo6, Photo1], Rental),
      Property(5, "Таунхаус в Arabian Ranches", "Arabian Ranches", "AED 4,200,000", "320", "3444", 3,
               [Photo4, Photo5, Photo3], Sale),
      Property(6, "Пентхаус в Jumeirah", "Jumeirah", "AED 18,000/мес", "280", "3014", 3,
               [Photo5, Photo1, Photo4], Rental) ]
  }

  /** `getProperties` as a function of where it runs and of the slot: nothing
      on the server, the stored array when the slot parses, and the six
      seeded listings (ids 1 to 6, in order) otherwise. */
  function Load(onClient: bool, slot: Slot): (r: seq<Property>)
    ensures !onClient ==> r == []
    ensures onClient && slot.Holds? ==> r == slot.records
    ensures onClient && !slot.Holds? ==>
              |r| == 6 && UniqueIds(r) && forall i :: 0 <= i < 6 ==> r[i].id == i + 1
  {
    if !onClient then []
    else match slot
      case Holds(records) => records
      case _ => DefaultProperties()
  }

  /** `Math.max(...ps.map(p => p.id))` on a non-empty array: an id of some
      record, and no record has a larger one. */
  function MaxId(ps: seq<Property>): (m: int)
    requires ps != []
    ensures forall i :: 0 <= i < |ps| ==> ps[i].id <= m
    ensures exists i :: 0 <= i < |ps| && ps[i].id == m
  {
    if |ps| == 1 then ps[0].id
    else
      var rest := MaxId(ps[1..]);
      assert forall i :: 1 <= i < |ps| ==> ps[i] == ps[1..][i - 1];
      if ps[0].id >= rest then ps[0].id else rest
  }

  /** The id `addProperty` assigns: 1 for an empty collection, otherwise one
      more than an existing id, and larger than every existing id. */
  function NextId(ps: seq<Property>): (r: int)
    ensures ps == [] ==> r == 1
    ensures ps != [] ==> exists i :: 0 <= i < |ps| && r == ps[i].id + 1
    ensures forall i :: 0 <= i < |ps| ==> ps[i].id < r
  {
    if |ps| > 0 then MaxId(ps) + 1 else 1
  }

  /** `Number.MAX_SAFE_INTEGER`, 2^53 - 1: every integer up to it in size
      is exact as a JavaScript number. */
  const MaxSafeInteger: int := 0x1F_FFFF_FFFF_FFFF

  /** While every id is an integer below `Number.MAX_SAFE_INTEGER`, the id
      `addProperty` computes is at most that bound, so `Math.max(...) + 1`
      on doubles is exact and equals `NextId`. */
  lemma NextIdStaysSafe(ps: seq<Property>)
    requires forall i :: 0 <= i < |ps| ==> -MaxSafeInteger <= ps[i].id < MaxSafeInteger
    ensures -MaxSafeInteger < NextId(ps) <= MaxSafeInteger
  {
  }

  /** The new id never collides, so appending the new record keeps ids unique. */
  lemma AddKeepsIdsUnique(ps: seq<Property>, d: Draft)
    requires UniqueIds(ps)
    ensures !HasId(ps, NextId(ps))
    ensures UniqueIds(ps + [WithId(d, NextId(ps))])
  {
    var qs := ps + [WithId(d, NextId(ps))];
    forall i, j | 0 <= i < j < |qs| ensures qs[i].id != qs[j].id {
      if j < |ps| {
        assert qs[i] == ps[i] && qs[j] == ps[j];
      } else {
        assert qs[i] == ps[i];
      }
    }
  }

  /** On an unwritten slot the first new listing gets id 7. */
  lemma FirstNewIdIsSeven()
    ensures NextId(DefaultProperties()) == 7
  {
    var ds := Load(true, Missing);
    assert forall j :: 0 <= j < |ds| ==> ds[j].id <= 6;
    assert ds[5].id == 6;
  }

  /** `findIndex(p => p.id === id)`: the position of the first record with
      that id, or -1 when there is none. */
  function FindIndex(ps: seq<Property>, id: int): (r: int)
    ensures -1 <= r < |ps|
    ensures r == -1 <==> !HasId(ps, id)
    ensures r >= 0 ==> ps[r].id == id && forall j :: 0 <= j < r ==> ps[j].id != id
  {
    if ps == [] then -1
    else if ps[0].id == id then 0
    else
      var k := FindIndex(ps[1..], id);
      assert forall j :: 1 <= j < |ps| ==> ps[j] == ps[1..][j - 1];
      if k == -1 then -1 else k + 1
  }

  /** `find(p => p.id === id) || null`, the lookup behind `getPropertyById`. */
  function FindById(ps: seq<Property>, id: int): (r: Option<Property>)
    ensures r.None? <==> !HasId(ps, id)
    ensures r.Some? ==> r.value.id == id
    ensures r.Some? ==> exists i :: 0 <= i < |ps| && ps[i] == r.value && forall j :: 0 <= j < i ==> ps[j].id != id
  {
    if ps == [] then None
    else if ps[0].id == id then Some(ps[0])
    else
      var r := FindById(ps[1..], id);
      assert forall j :: 1 <= j < |ps| ==> ps[j] == ps[1..][j - 1];
      assert r.Some? ==> exists i :: 1 <= i < |ps| && ps[i] == r.value && forall j :: 0 <= j < i ==> ps[j].id != id by {
        if r.Some? {
          var i :| 0 <= i < |ps[1..]| && ps[1..][i] == r.value && forall j :: 0 <= j < i ==> ps[1..][j].id != id;
          assert ps[i + 1] == r.value;
        }
      }
      r
  }

  /** The lookup and the index search agree. */
  lemma FindByIdAtIndex(ps: seq<Property>, id: int)
    ensures FindById(ps, id) == if FindIndex(ps, id) == -1 then None else Some(ps[FindIndex(ps, id)])
  {
    if FindById(ps, id).Some? {
      var i :| 0 <= i < |ps| && ps[i] == FindById(ps, id).value && forall j :: 0 <= j < i ==> ps[j].id != id;
      var k := FindIndex(ps, id);
      assert !(k < i) && !(i < k);
    }
  }

  /** `filter(p => p.id !== id)`: exactly the records with another id. It is
      as long as the input exactly when no record has the id. */
  function Without(ps: seq<Property>, id: int): (r: seq<Property>)
    ensures |r| <= |ps|
    ensures |r| == |ps| <==> !HasId(ps, id)
    ensures !HasId(ps, id) ==> r == ps
    ensures forall q :: q in r <==> q in ps && q.id != id
  {
    if ps == [] then []
    else
      var rest := Without(ps[1..], id);
      assert forall j :: 1 <= j < |ps| ==> ps[j] == ps[1..][j - 1];
      assert HasId(ps[1..], id) ==> HasId(ps, id) by {
        if HasId(ps[1..], id) {
          var j :| 0 <= j < |ps[1..]| && ps[1..][j].id == id;
          assert ps[j + 1].id == id;
        }
      }
      assert forall q :: q in ps <==> q == ps[0] || q in ps[1..];
      if ps[0].id != id then [ps[0]] + rest else rest
  }

  /** The filter keeps the order of what it keeps: it distributes over
      concatenation. */
  lemma {:induction false} WithoutConcat(a: seq<Property>, b: seq<Property>, id: int)
    ensures Without(a + b, id) == Without(a, id) + Without(b, id)
  {
    if a == [] {
      assert a + b == b;
    } else {
      assert (a + b)[1..] == a[1..] + b;
      WithoutConcat(a[1..], b, id);
    }
  }

  /** Removing an id also keeps the remaining ids unique. */
  lemma {:induction false} WithoutKeepsIdsUnique(ps: seq<Property>, id: int)
    requires UniqueIds(ps)
    ensures UniqueIds(Without(ps, id))
    ensures !HasId(Without(ps, id), id)
  {
    if ps != [] {
      assert UniqueIds(ps[1..]) by {
        forall i, j | 0 <= i < j < |ps[1..]| ensures ps[1..][i].id != ps[1..][j].id {
          assert ps[1..][i] == ps[i + 1] && ps[1..][j] == ps[j + 1];
        }
      }
      WithoutKeepsIdsUnique(ps[1..], id);
      var rest := Without(ps[1..], id);
      forall q | q in rest ensures q.id != ps[0].id {
        var k :| 0 <= k < |ps[1..]| && ps[1..][k] == q;
        assert ps[k + 1] == q;
      }
    }
    var r := Without(ps, id);
    assert forall i :: 0 <= i < |r| ==> r[i] in r;
  }

  /** The record `updateProperty` writes at the found index, and the effect
      on uniqueness: ids stay unique exactly when `updates` carries no id, or
      an id that no other record has. */
  lemma UpdateKeepsOthers(ps: seq<Property>, i: nat, u: PartialProperty)
    requires i < |ps| && UniqueIds(ps)
    ensures var qs := ps[i := Merge(ps[i], u)];
      |qs| == |ps| && (forall j :: 0 <= j < |ps| && j != i ==> qs[j] == ps[j]) &&
      (UniqueIds(qs) <==> (u.id.None? || forall j :: 0 <= j < |ps| && j != i ==> ps[j].id != u.id.value))
  {
    var qs := ps[i := Merge(ps[i], u)];
    if u.id.None? {
      forall a, b | 0 <= a < b < |qs| ensures qs[a].id != qs[b].id {
        assert qs[a].id == ps[a].id && qs[b].id == ps[b].id;
      }
    } else if forall j :: 0 <= j < |ps| && j != i ==> ps[j].id != u.id.value {
      forall a, b | 0 <= a < b < |qs| ensures qs[a].id != qs[b].id {
        if a != i && b != i {
          assert qs[a] == ps[a] && qs[b] == ps[b];
        }
      }
    } else {
      var j :| 0 <= j < |ps| && j != i && ps[j].id == u.id.value;
      assert qs[j].id == qs[i].id;
      if j < i {
        assert !UniqueIds(qs);
      } else {
        assert !UniqueIds(qs);
      }
    }
  }

  /** The storage slot and the event channel of one browser tab. */
  class PropertyStore {
    /** `typeof window !== 'undefined'`. */
    const onClient: bool
    /** `localStorage.getItem('featured_properties')`. */
    var slot: Slot
    /** How many `propertiesUpdated` events have been dispatched. */
    var events: nat

    constructor (onClient: bool, slot: Slot)
      ensures this.onClient == onClient && this.slot == slot && events == 0
    {
      this.onClient := onClient;
      this.slot := slot;
      events := 0;
    }

    /** `getProperties()`: reads the slot and never writes it. */
    function Properties(): seq<Property>
      reads this
    {
      Load(onClient, slot)
    }

    /** `saveProperties(ps)`: on the client the slot is overwritten and one
        event fires, so the next read returns exactly `ps`; on the server
        nothing happens. */
    method SaveProperties(ps: seq<Property>)
      modifies this
      ensures onClient ==> slot == Holds(ps) && Properties() == ps && events == old(events) + 1
      ensures !onClient ==> slot == old(slot) && events == old(events)
    {
      if onClient {
        slot := Holds(ps);
        events := events + 1;
      }
    }

    /** `addProperty(d)`: the new record is `d` with the next id and goes at
        the end; earlier records are untouched. */
    method AddProperty(d: Draft) returns (p: Property)
      modifies this
      ensures p == WithId(d, NextId(old(Properties())))
      ensures onClient ==> Properties() == old(Properties()) + [p] && events == old(events) + 1
      ensures !onClient ==> p.id == 1 && slot == old(slot) && events == old(events)
    {
      var ps := Properties();
      var newId := NextId(ps);
      p := WithId(d, newId);
      ps := ps + [p];
      SaveProperties(ps);
    }

    /** `updateProperty(id, u)`: false and no write when no record has the id;
        otherwise the first such record is merged with `u`, the whole array is
        saved and the result is true. */
    method UpdateProperty(id: int, u: PartialProperty) returns (ok: bool)
      modifies this
      ensures ok <==> HasId(old(Properties()), id)
      ensures ok ==> var ps := old(Properties()); var i := FindIndex(ps, id);
                     Properties() == ps[i := Merge(ps[i], u)] && events == old(events) + 1
      ensures !ok ==> slot == old(slot) && events == old(events)
    {
      var ps := Properties();
      var index := FindIndex(ps, id);
      if index == -1 {
        return false;
      }
      ps := ps[index := Merge(ps[index], u)];
      SaveProperties(ps);
      ok := true;
    }

    /** `deleteProperty(id)`: false and no write when no record has the id;
        otherwise every record with it is dropped and the rest saved. */
    method DeleteProperty(id: int) returns (ok: bool)
      modifies this
      ensures ok <==> HasId(old(Properties()), id)
      ensures ok ==> Properties() == Without(old(Properties()), id) && events == old(events) + 1
      ensures !ok ==> slot == old(slot) && events == old(events)
    {
      var ps := Properties();
      var filtered := Without(ps, id);
      if |filtered| == |ps| {
        return false;
      }
      SaveProperties(filtered);
      ok := true;
    }

    /** `getPropertyById(id)`. */
    function GetPropertyById(id: int): (r: Option<Property>)
      reads this
      ensures r.None? <==> !HasId(Properties(), id)
      ensures r.Some? ==> r.value.id == id && r.value in Properties()
    {
      FindById(Properties(), id)
    }
  }

  /** The first `addProperty` in a fresh tab: the six seeded listings are
      persisted together with the new one, which gets id 7. */
  method FirstAddOnEmptySlot(d: Draft) returns (p: Property, saved: Slot)
    ensures p == WithId(d, 7)
    ensures saved == Holds(DefaultProperties() + [p])
  {
    var store := new PropertyStore(true, Missing);
    FirstNewIdIsSeven();
    p := store.AddProperty(d);
    saved := store.slot;
  }
}
