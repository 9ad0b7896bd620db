/**
 * The chats page's contact list: a reply updates the contact's preview, and
 * the selected contact is always read back from the list.
 */
module ChatsPage {
  import opened Wrappers

  datatype Contact = Contact(id: int, name: string, avatar: string, online: bool, lastMessage: string, timestamp: string)

  /** The position of the first contact with the id. */
  function FindIndex(cs: seq<Contact>, id: int): (r: Option<nat>)
    ensures r.Some? ==> r.value < |cs| && cs[r.value].id == id && forall j :: 0 <= j < r.value ==> cs[j].id != id
    ensures r.None? <==> forall i :: 0 <= i < |cs| ==> cs[i].id != id
  {
    if cs == [] then None
    else if cs[0].id == id then Some(0)
    else
      match FindIndex(cs[1..], id)
      case None => None
      case Some(k) => Some(k + 1)
  }

  /** `contacts.find(c => c.id === id)`: the first contact with the id. */
  function FindContact(cs: seq<Contact>, id: int): (r: Option<Contact>)
    ensures r.Some? ==> r.value in cs && r.value.id == id
    ensures r.None? <==> forall i :: 0 <= i < |cs| ==> cs[i].id != id
    ensures r.Some? ==> r.value == cs[FindIndex(cs, id).value]
  {
    match FindIndex(cs, id)
    case None => None
    case Some(k) => Some(cs[k])
  }

  /** handleUpdateContact: the contacts with the id get the new preview and time; nothing else changes. */
  function HandleUpdateContact(cs: seq<Contact>, id: int, lastMessage: string, timestamp: string): (r: seq<Contact>)
    ensures |r| == |cs|
    ensures forall i :: 0 <= i < |cs| && cs[i].id == id ==> r[i] == cs[i].(lastMessage := lastMessage, timestamp := timestamp)
    ensures forall i :: 0 <= i < |cs| && cs[i].id != id ==> r[i] == cs[i]
  {
    seq(|cs|, i requires 0 <= i < |cs| =>
      if cs[i].id == id then cs[i].(lastMessage := lastMessage, timestamp := timestamp) else cs[i])
  }

  /** handleSelectContact: the list's copy of the contact, else the contact as given. */
  function HandleSelectContact(cs: seq<Contact>, contact: Contact): (r: Contact)
    ensures r.id == contact.id
    ensures FindContact(cs, contact.id).Some? ==> r in cs
    ensures FindContact(cs, contact.id).None? ==> r == contact
  {
    FindContact(cs, contact.id).GetOr(contact)
  }

  /** `currentContact`: the list's copy of the selection, else the selection itself (possibly none). */
  function CurrentContact(cs: seq<Contact>, selected: Option<Contact>): (r: Option<Contact>)
    ensures r.None? <==> selected.None?
    ensures r.Some? ==> r.value.id == selected.value.id
    ensures selected.Some? ==> r == Some(HandleSelectContact(cs, selected.value))
  {
    match selected
    case None => None
    case Some(s) => Some(HandleSelectContact(cs, s))
  }

  /** The contact a reply updated is shown with the new preview, whichever copy was selected. */
  lemma {:induction false} UpdatedContactIsCurrent(cs: seq<Contact>, selected: Contact, lastMessage: string, timestamp: string)
    requires exists i :: 0 <= i < |cs| && cs[i].id == selected.id
    ensures var after := CurrentContact(HandleUpdateContact(cs, selected.id, lastMessage, timestamp), Some(selected));
      after.Some? && after.value.lastMessage == lastMessage && after.value.timestamp == timestamp && after.value.id == selected.id
  {
    var updated := HandleUpdateContact(cs, selected.id, lastMessage, timestamp);
    var i :| 0 <= i < |cs| && cs[i].id == selected.id;
    assert updated[i].id == selected.id;
    var k := FindIndex(updated, selected.id).value;
    assert cs[k].id == selected.id;
  }

  /** Selecting a contact and reading the current contact give the same copy. */
  lemma SelectIsCurrent(cs: seq<Contact>, contact: Contact)
    ensures CurrentContact(cs, Some(HandleSelectContact(cs, contact))) == Some(HandleSelectContact(cs, contact))
  {
    var sel := HandleSelectContact(cs, contact);
    var found := FindContact(cs, contact.id);
    if found.Some? {
      assert FindContact(cs, sel.id) == found;
    }
  }
}
