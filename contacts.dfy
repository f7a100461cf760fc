/** The footer contact block kept by lib/contacts.ts: one record stored
    under `footer_contacts`, read with a fallback to a fixed default and
    overwritten as a whole (followed by a `contactsUpdated` event) on save. */
module Contacts {

  const StorageKey: string := "footer_contacts"

  datatype ContactInfo = ContactInfo(
    phone: string,
    whatsapp: string,
    email: string,
    address: string,
    facebook: string,
    instagram: string,
    twitter: string,
    copyright: string)

  /** What the storage slot holds: nothing (or the falsy empty string), text
      that `JSON.parse` rejects, or a serialised record. */
  datatype Slot = Missing | Unparsable | Holds(record: ContactInfo)

  /** `getDefaultContacts()`: the social links are the placeholder `#`. */
  function DefaultContacts(): (c: ContactInfo)
    ensures c.facebook == "#" && c.instagram == "#" && c.twitter == "#"
  {
    ContactInfo("+971 50 123 45 67", "+971 55 230 7377", "info@crownlineproperty.com",
                "Dubai, Boulevard Plaza, tower 1, 20 floor, office 2003",
                "#", "#", "#", "© 2020 CROWN LINE PROPERTY.")
  }

  /** `getContacts()` as a function of where it runs and of the slot: the
      stored record when running in the browser and the slot parses, the
      default record otherwise (on the server, or a missing or unparsable
      slot). */
  function Load(onClient: bool, slot: Slot): (c: ContactInfo)
    ensures c == DefaultContacts() || (onClient && slot.Holds? && c == slot.record)
    ensures onClient && slot.Holds? ==> c == slot.record
    ensures !onClient || !slot.Holds? ==> c.facebook == "#" && c.instagram == "#" && c.twitter == "#"
  {
    if !onClient then DefaultContacts()
    else match slot
      case Holds(record) => record
      case _ => DefaultContacts()
  }

  /** The storage slot and the event channel of one browser tab. */
  class ContactStore {
    /** `typeof window !== 'undefined'`. */
    const onClient: bool
    /** `localStorage.getItem('footer_contacts')`. */
    var slot: Slot
    /** How many `contactsUpdated` events have been dispatched. */
    var events: nat

    constructor (onClient: bool, slot: Slot)
      ensures this.onClient == onClient && this.slot == slot && events == 0
    {
      this.onClient := onClient;
      this.slot := slot;
      events := 0;
    }

    /** `getContacts()`: reads the slot and never writes it, so reading the
        default does not persist it. */
    function Contacts(): ContactInfo
      reads this
    {
      Load(onClient, slot)
    }

    /** `saveContacts(c)`: in the browser a full overwrite with no merge and
        no field check, after which a read returns `c`, and exactly one
        event; on the server nothing is written and nothing fires. */
    method SaveContacts(c: ContactInfo)
      modifies this
      ensures onClient ==> slot == Holds(c) && Contacts() == c && events == old(events) + 1
      ensures !onClient ==> slot == old(slot) && events == old(events)
    {
      if onClient {
        slot := Holds(c);
        events := events + 1;
      }
    }
  }
}
