/** The editing logic of components/AdminPanel.tsx: the admin page's state
    (`editingId`, `isAdding`, `formData`, `newImageUrl`, `notification` and
    the list of listings it shows) and the handlers that change it and call
    the stores. The markup is not modelled. */
module AdminPanel {
  import opened Wrappers
  import opened Text
  import opened Properties
  import Contacts

  datatype NoticeKind = Success | Failure

  /** The messages the panel shows (their Russian wording is not modelled). */
  datatype Message =
    | FillRequiredFields | PropertyAdded | PropertyUpdated | PropertyDeleted
    | InvalidImageUrl | ContactsSaved

  datatype Notice = Notice(message: Message, kind: NoticeKind)

  /** The blank form installed by `handleAdd` and by the initial state. */
  const BlankForm: PartialProperty :=
    PartialProperty(None, Some(""), Some(""), Some(""), Some(""), Some(""), Some(0), Some([]), Some(Sale))

  /** JavaScript truthiness of an optional string: present and non-empty. */
  predicate Truthy(s: Option<string>) {
    s.Some? && s.value != ""
  }

  /** JavaScript truthiness of an optional number: present and non-zero. */
  predicate TruthyId(n: Option<int>) {
    n.Some? && n.value != 0
  }

  /** The required-field check at the top of `handleSave`. */
  predicate HasRequiredFields(f: PartialProperty) {
    Truthy(f.title) && Truthy(f.location) && Truthy(f.price)
  }

  /** `s || fallback` for an optional string. */
  function OrElse(s: Option<string>, fallback: string): string {
    if Truthy(s) then s.value else fallback
  }

  /** The record `handleSave` hands to `addProperty`: the required fields as
      typed; an empty or missing area becomes "0", missing (or zero) bedrooms
      0, missing images the empty list and a missing type `sale`; anything
      given is kept. */
  function DraftFromForm(f: PartialProperty): (d: Draft)
    requires HasRequiredFields(f)
    ensures d.title == f.title.value && d.location == f.location.value && d.price == f.price.value
    ensures d.areaM2 == (if Truthy(f.areaM2) then f.areaM2.value else "0")
    ensures d.areaSqft == (if Truthy(f.areaSqft) then f.areaSqft.value else "0")
    ensures f.bedrooms.None? ==> d.bedrooms == 0
    ensures f.images.None? ==> d.images == []
    ensures f.kind.None? ==> d.kind == Sale
    ensures f.bedrooms.Some? ==> d.bedrooms == f.bedrooms.value
    ensures f.images.Some? ==> d.images == f.images.value
    ensures f.kind.Some? ==> d.kind == f.kind.value
  {
    Draft(f.title.value, f.location.value, f.price.value, OrElse(f.areaM2, "0"), OrElse(f.areaSqft, "0"),
          f.bedrooms.GetOr(0), f.images.GetOr([]), f.kind.GetOr(Sale))
  }

  /** `images.filter((_, i) => i !== index)`: exactly the element at `index`
      is removed and the others keep their order; an index outside the list
      removes nothing. */
  function RemoveAt(s: seq<string>, index: int): (r: seq<string>)
    ensures 0 <= index < |s| ==> r == s[..index] + s[index + 1..]
    ensures !(0 <= index < |s|) ==> r == s
  {
    if s == [] then []
    else
      var rest := RemoveAt(s[1..], index - 1);
      if index == 0 then rest
      else
        assert 0 < index < |s| ==> s[1..][..index - 1] == s[1..index];
        assert 0 < index < |s| ==> s[1..][index..] == s[index + 1..];
        [s[0]] + rest
  }

  /** The form with `url` appended to its images (a missing list counts as empty). */
  function WithImage(f: PartialProperty, url: string): (g: PartialProperty)
    ensures g.images == Some(f.images.GetOr([]) + [url])
    ensures g.(images := f.images) == f
  {
    f.(images := Some(f.images.GetOr([]) + [url]))
  }

  function SaleCount(ps: seq<Property>): nat {
    if ps == [] then 0 else (if ps[0].kind == Sale then 1 else 0) + SaleCount(ps[1..])
  }

  function RentalCount(ps: seq<Property>): nat {
    if ps == [] then 0 else (if ps[0].kind == Rental then 1 else 0) + RentalCount(ps[1..])
  }

  /** `ps.reduce((sum, p) => sum + p.images.length, 0)`. */
  function PhotoCount(ps: seq<Property>): nat {
    if ps == [] then 0 else |ps[0].images| + PhotoCount(ps[1..])
  }

  /** Every listing is either for sale or for rent, so the two counters add
      up to the total. */
  lemma {:induction false} SaleRentalPartition(ps: seq<Property>)
    ensures SaleCount(ps) + RentalCount(ps) == |ps|
  {
    if ps != [] {
      SaleRentalPartition(ps[1..]);
    }
  }

  /** The photo total is additive over the list, and zero exactly when no
      listing has a photo. */
  lemma {:induction false} PhotoCountConcat(a: seq<Property>, b: seq<Property>)
    ensures PhotoCount(a + b) == PhotoCount(a) + PhotoCount(b)
  {
    if a == [] {
      assert a + b == b;
    } else {
      assert (a + b)[1..] == a[1..] + b;
      PhotoCountConcat(a[1..], b);
    }
  }

  lemma {:induction false} PhotoCountZero(ps: seq<Property>)
    ensures PhotoCount(ps) == 0 <==> forall i :: 0 <= i < |ps| ==> ps[i].images == []
  {
    if ps != [] {
      PhotoCountZero(ps[1..]);
      assert forall i :: 1 <= i < |ps| ==> ps[i] == ps[1..][i - 1];
    }
  }

  /** The four counters of the statistics row. */
  datatype Stats = Stats(total: nat, sale: nat, rental: nat, photos: nat)

  function StatsOf(ps: seq<Property>): (s: Stats)
    ensures s.total == |ps| && s.sale + s.rental == s.total
  {
    SaleRentalPartition(ps);
    Stats(|ps|, SaleCount(ps), RentalCount(ps), PhotoCount(ps))
  }

  /** The admin page. `store` and `contactStore` are the tab's two storage
      slots; `properties` and `contacts` are the page's copies of them. */
  class Panel {
    const store: PropertyStore
    const contactStore: Contacts.ContactStore
    var properties: seq<Property>
    var contacts: Contacts.ContactInfo
    var editingId: Option<int>
    var isAdding: bool
    var formData: PartialProperty
    var newImageUrl: string
    var notification: Option<Notice>

    /** The editing state is coherent: adding and editing exclude each other,
        the form of a new listing carries no id, and the form of an edited
        listing carries that listing's id. */
    ghost predicate Valid()
      reads this
    {
      && (isAdding ==> editingId.None? && formData.id.None?)
      && (editingId.Some? ==> !isAdding && formData.id == editingId)
    }

    /** The initial state plus the mount effect, which loads both stores. */
    constructor (store: PropertyStore, contactStore: Contacts.ContactStore)
      ensures this.store == store && this.contactStore == contactStore
      ensures properties == store.Properties() && contacts == contactStore.Contacts()
      ensures editingId.None? && !isAdding && formData == BlankForm && newImageUrl == "" && notification.None?
      ensures Valid()
    {
      this.store := store;
      this.contactStore := contactStore;
      properties := store.Properties();
      contacts := contactStore.Contacts();
      editingId := None;
      isAdding := false;
      formData := BlankForm;
      newImageUrl := "";
      notification := None;
    }

    /** The statistics row: the sale and rental counters add up to the total. */
    function CurrentStats(): (s: Stats)
      reads this
      ensures s.total == |properties| && s.sale + s.rental == s.total
    {
      StatsOf(properties)
    }

    method LoadProperties()
      modifies this
      ensures properties == store.Properties()
      ensures editingId == old(editingId) && isAdding == old(isAdding) && formData == old(formData)
      ensures newImageUrl == old(newImageUrl) && notification == old(notification) && contacts == old(contacts)
    {
      properties := store.Properties();
    }

    /** `handleEdit(p)`: edit `p`, with its record in the form. */
    method HandleEdit(p: Property)
      modifies this
      ensures editingId == Some(p.id) && !isAdding && formData == Whole(p)
      ensures properties == old(properties) && newImageUrl == old(newImageUrl)
      ensures notification == old(notification) && contacts == old(contacts)
      ensures Valid()
    {
      editingId := Some(p.id);
      formData := Whole(p);
      isAdding := false;
    }

    /** `handleAdd()`: start a new listing on a blank `sale` form. */
    method HandleAdd()
      modifies this
      ensures isAdding && editingId.None? && formData == BlankForm
      ensures properties == old(properties) && newImageUrl == old(newImageUrl)
      ensures notification == old(notification) && contacts == old(contacts)
      ensures Valid()
    {
      isAdding := true;
      editingId := None;
      formData := BlankForm;
    }

    /** `handleCancel()`: leave editing and clear the form and the URL input. */
    method HandleCancel()
      modifies this
      ensures editingId.None? && !isAdding && formData == EmptyPartial && newImageUrl == ""
      ensures properties == old(properties) && notification == old(notification) && contacts == old(contacts)
      ensures Valid()
    {
      editingId := None;
      isAdding := false;
      formData := EmptyPartial;
      newImageUrl := "";
    }

    /** `handleSave()`. Without a title, location or price: an error notice
        and no store call. Otherwise: when adding, the defaulted record is
        appended with the next id; when editing a truthy id, that listing is
        merged with the form; with neither, no store call. After either the
        list is reloaded and editing ends. Ids that were unique stay unique. */
    method HandleSave()
      requires Valid()
      modifies this, store
      ensures Valid()
      ensures !HasRequiredFields(old(formData)) ==>
                && notification == Some(Notice(FillRequiredFields, Failure))
                && store.slot == old(store.slot) && store.events == old(store.events)
                && editingId == old(editingId) && isAdding == old(isAdding) && formData == old(formData)
                && properties == old(properties) && newImageUrl == old(newImageUrl)
      ensures HasRequiredFields(old(formData)) ==>
                && editingId.None? && !isAdding && formData == EmptyPartial && newImageUrl == ""
                && properties == store.Properties()
      ensures HasRequiredFields(old(formData)) && old(isAdding) ==>
                && notification == Some(Notice(PropertyAdded, Success))
                && var added := WithId(DraftFromForm(old(formData)), NextId(old(store.Properties())));
                   && (store.onClient ==> store.Properties() == old(store.Properties()) + [added])
                   && store.events == old(store.events) + (if store.onClient then 1 else 0)
      ensures HasRequiredFields(old(formData)) && !old(isAdding) && TruthyId(old(editingId)) ==>
                && notification == Some(Notice(PropertyUpdated, Success))
                && var ps := old(store.Properties()); var i := FindIndex(ps, old(editingId).value);
                   && store.Properties() == (if i == -1 then ps else ps[i := Merge(ps[i], old(formData))])
                   && store.events == old(store.events) + (if HasId(ps, old(editingId).value) then 1 else 0)
      ensures HasRequiredFields(old(formData)) && !old(isAdding) && !TruthyId(old(editingId)) ==>
                && notification == old(notification)
                && store.slot == old(store.slot) && store.events == old(store.events)
      ensures UniqueIds(old(store.Properties())) ==> UniqueIds(store.Properties())
      ensures contacts == old(contacts)
    {
      if !HasRequiredFields(formData) {
        notification := Some(Notice(FillRequiredFields, Failure));
        return;
      }
      ghost var before := store.Properties();
      if isAdding {
        var d := DraftFromForm(formData);
        if UniqueIds(before) {
          AddKeepsIdsUnique(before, d);
        }
        var p := store.AddProperty(d);
        notification := Some(Notice(PropertyAdded, Success));
      } else if TruthyId(editingId) {
        var i := FindIndex(before, editingId.value);
        if i != -1 && UniqueIds(before) {
          UpdateKeepsOthers(before, i, formData);
        }
        var ok := store.UpdateProperty(editingId.value, formData);
        notification := Some(Notice(PropertyUpdated, Success));
      }
      LoadProperties();
      HandleCancel();
    }

    /** `handleDelete(id)` given the answer to the confirmation dialog: on
        "yes" the listing is deleted (or nothing, if it is gone already), the
        list reloaded and a success notice shown; on "no" nothing changes. */
    method HandleDelete(id: int, confirmed: bool)
      modifies this, store
      ensures !confirmed ==> store.slot == old(store.slot) && store.events == old(store.events) &&
                             properties == old(properties) && notification == old(notification)
      ensures confirmed ==>
                && store.Properties() == Without(old(store.Properties()), id)
                && properties == store.Properties()
                && notification == Some(Notice(PropertyDeleted, Success))
                && store.events == old(store.events) + (if HasId(old(store.Properties()), id) then 1 else 0)
      ensures editingId == old(editingId) && isAdding == old(isAdding) && formData == old(formData)
      ensures newImageUrl == old(newImageUrl) && contacts == old(contacts)
    {
      if confirmed {
        var ok := store.DeleteProperty(id);
        LoadProperties();
        notification := Some(Notice(PropertyDeleted, Success));
      }
    }

    /** `handleSaveContacts()`: the page's contact record is saved as a whole. */
    method HandleSaveContacts()
      modifies this, contactStore
      ensures contactStore.onClient ==> contactStore.Contacts() == contacts
      ensures contactStore.events == old(contactStore.events) + (if contactStore.onClient then 1 else 0)
      ensures notification == Some(Notice(ContactsSaved, Success))
      ensures contacts == old(contacts) && properties == old(properties) && formData == old(formData)
      ensures editingId == old(editingId) && isAdding == old(isAdding) && newImageUrl == old(newImageUrl)
    {
      contactStore.SaveContacts(contacts);
      notification := Some(Notice(ContactsSaved, Success));
    }

    /** `addImage()`, given what `new URL(...)` accepts: a blank input is
        ignored; a URL that parses goes at the end of the images and clears
        the input; one that does not leaves the images alone and raises an
        error notice. */
    method AddImage(parsesAsUrl: string -> bool)
      requires Valid()
      modifies this
      ensures Valid()
      ensures Trim(old(newImageUrl)) == [] ==>
                formData == old(formData) && newImageUrl == old(newImageUrl) && notification == old(notification)
      ensures var url := Trim(old(newImageUrl)); url != [] && parsesAsUrl(url) ==>
                && formData == WithImage(old(formData), url)
                && newImageUrl == "" && notification == old(notification)
      ensures var url := Trim(old(newImageUrl)); url != [] && !parsesAsUrl(url) ==>
                && formData == old(formData) && newImageUrl == old(newImageUrl)
                && notification == Some(Notice(InvalidImageUrl, Failure))
      ensures editingId == old(editingId) && isAdding == old(isAdding)
      ensures properties == old(properties) && contacts == old(contacts)
    {
      var url := Trim(newImageUrl);
      if url == [] {
      } else if parsesAsUrl(url) {
        formData := WithImage(formData, url);
        newImageUrl := "";
      } else {
        notification := Some(Notice(InvalidImageUrl, Failure));
      }
    }

    /** `removeImage(index)`: the images without the one at `index`. */
    method RemoveImage(index: int)
      requires Valid()
      modifies this
      ensures Valid()
      ensures formData == old(formData).(images := Some(RemoveAt(old(formData).images.GetOr([]), index)))
      ensures editingId == old(editingId) && isAdding == old(isAdding) && newImageUrl == old(newImageUrl)
      ensures properties == old(properties) && notification == old(notification) && contacts == old(contacts)
    {
      var images := formData.images.GetOr([]);
      formData := formData.(images := Some(RemoveAt(images, index)));
    }
  }
}
