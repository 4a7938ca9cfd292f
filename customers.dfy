/** The customers page: the account list it edits (the application's `contacts`), an
    edit mode, a sort direction and a search box, and the list it shows. */
module Customers {
  import opened Wrappers
  import opened Text
  import opened Lists
  import opened Records

  /** The search reads `accountNumber` only of accounts whose name does not match; those
      must have one, or the filter throws. */
  predicate SearchDefined(accounts: seq<Account>, search: string)
  {
    forall a :: a in accounts ==> NameMatches(a, search) || a.accountNumber.Some?
  }

  /** `sortedContacts`: the accounts whose name or number matches the search, sorted by
      name, A to Z when `sortAZ` and Z to A otherwise. */
  function SortedContacts(accounts: seq<Account>, search: string, sortAZ: bool): (r: seq<Account>)
    requires SearchDefined(accounts, search)
    ensures forall a :: a in r <==> a in accounts && CustomerMatches(a, search)
    ensures multiset(r) == multiset(Filter(accounts, (a: Account) => CustomerMatches(a, search)))
    ensures forall name :: WithKey(r, NameOf, name) == WithKey(Filter(accounts, (a: Account) => CustomerMatches(a, search)), NameOf, name)
    ensures forall i, j :: 0 <= i < j < |r| ==>
      if sortAZ then LexLe(r[i].name, r[j].name) else LexLe(r[j].name, r[i].name)
  {
    var kept := Filter(accounts, (a: Account) => CustomerMatches(a, search));
    var r := SortByName(kept, sortAZ);
    r
  }

  /** An empty search shows every account. */
  lemma EmptySearchShowsAll(accounts: seq<Account>, sortAZ: bool)
    ensures SearchDefined(accounts, "")
    ensures multiset(SortedContacts(accounts, "", sortAZ)) == multiset(accounts)
  {
    forall a | a in accounts
      ensures NameMatches(a, "")
    {
      ContainsEmpty(ToLower(a.name));
    }
    FilterAll(accounts, (a: Account) => CustomerMatches(a, ""));
  }

  /** The account "Add Account" creates has an empty name and number, so it is listed only
      while the search box is empty. */
  lemma NewCustomerShown(now: int, search: string)
    ensures CustomerMatches(NewCustomer(now), search) <==> search == ""
  {
    if search != "" {
      assert !StartsWith("", ToLower(search));
      assert !StartsWith("", search);
    }
  }

  class CustomersPage {
    /** The application's customer list, which the page edits through `setContacts`. */
    var contacts: seq<Account>
    var editMode: bool
    var sortAZ: bool
    var search: string

    constructor(contacts: seq<Account>)
      ensures this.contacts == contacts && !editMode && sortAZ && search == ""
    {
      this.contacts := contacts;
      editMode := false;
      sortAZ := true;
      search := "";
    }

    /** `handleInputChange(id, field, value)`. */
    method HandleInputChange(id: int, f: AccountField, value: string)
      modifies this
      ensures contacts == UpdateAccountField(old(contacts), id, f, value)
      ensures editMode == old(editMode) && sortAZ == old(sortAZ) && search == old(search)
    {
      contacts := UpdateAccountField(contacts, id, f, value);
    }

    /** `handleContactChange(accountId, index, field, value)`: the form only passes the
        index of a contact it shows. */
    method HandleContactChange(id: int, index: nat, f: ContactField, value: string)
      requires ContactIndexValid(contacts, id, index)
      modifies this
      ensures contacts == UpdateContactField(old(contacts), id, index, f, value)
      ensures editMode == old(editMode) && sortAZ == old(sortAZ) && search == old(search)
    {
      contacts := UpdateContactField(contacts, id, index, f, value);
    }

    /** `handleAddContact(accountId)`. */
    method HandleAddContact(id: int)
      modifies this
      ensures contacts == AddEmptyContact(old(contacts), id)
      ensures editMode == old(editMode) && sortAZ == old(sortAZ) && search == old(search)
    {
      contacts := AddEmptyContact(contacts, id);
    }

    /** `toggleDay(accountId, day)`: ignored outside edit mode. */
    method ToggleDay(id: int, day: string)
      modifies this
      ensures contacts == if old(editMode) then ToggleDayOf(old(contacts), id, day) else old(contacts)
      ensures editMode == old(editMode) && sortAZ == old(sortAZ) && search == old(search)
    {
      if !editMode {
        return;
      }
      contacts := ToggleDayOf(contacts, id, day);
    }

    /** `handleAddAccount`, with `Date.now()` as `now`: a blank account at the end, and the
        page switches to edit mode. */
    method HandleAddAccount(now: int)
      modifies this
      ensures contacts == old(contacts) + [NewCustomer(now)]
      ensures editMode && sortAZ == old(sortAZ) && search == old(search)
    {
      contacts := contacts + [NewCustomer(now)];
      editMode := true;
    }

    /** `handleDeleteAccount(accountId)`; `confirmed` is the answer to the confirmation
        dialog. */
    method HandleDeleteAccount(id: int, confirmed: bool)
      modifies this
      ensures contacts == if confirmed then DeleteAccount(old(contacts), id) else old(contacts)
      ensures editMode == old(editMode) && sortAZ == old(sortAZ) && search == old(search)
    {
      if confirmed {
        contacts := DeleteAccount(contacts, id);
      }
    }

    /** The "Enter/Exit Edit Mode" button. */
    method ToggleEditMode()
      modifies this
      ensures editMode == !old(editMode)
      ensures contacts == old(contacts) && sortAZ == old(sortAZ) && search == old(search)
    {
      editMode := !editMode;
    }

    /** The sort button. */
    method ToggleSortOrder()
      modifies this
      ensures sortAZ == !old(sortAZ)
      ensures contacts == old(contacts) && editMode == old(editMode) && search == old(search)
    {
      sortAZ := !sortAZ;
    }

    /** The search box. */
    method SetSearch(text: string)
      modifies this
      ensures search == text
      ensures contacts == old(contacts) && editMode == old(editMode) && sortAZ == old(sortAZ)
    {
      search := text;
    }
  }
}
