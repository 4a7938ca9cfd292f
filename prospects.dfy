/** The prospects page: the prospect list it edits (the application's `prospects`), an
    edit mode, a sort direction and a search box, and the list it shows. It is the
    customers page with a name-only search and new records that have no account number. */
module Prospects {
  import opened Text
  import opened Lists
  import opened Records

  /** `sortedProspects`: the prospects whose name matches the search, sorted by name, A to Z
      when `sortAZ` and Z to A otherwise. */
  function SortedProspects(prospects: seq<Account>, search: string, sortAZ: bool): (r: seq<Account>)
    ensures forall a :: a in r <==> a in prospects && NameMatches(a, search)
    ensures multiset(r) == multiset(Filter(prospects, (a: Account) => NameMatches(a, search)))
    ensures forall name :: WithKey(r, NameOf, name) == WithKey(Filter(prospects, (a: Account) => NameMatches(a, search)), NameOf, name)
    ensures forall i, j :: 0 <= i < j < |r| ==>
      if sortAZ then LexLe(r[i].name, r[j].name) else LexLe(r[j].name, r[i].name)
  {
    var kept := Filter(prospects, (a: Account) => NameMatches(a, search));
    var r := SortByName(kept, sortAZ);
    r
  }

  /** An empty search shows every prospect. */
  lemma EmptySearchShowsAll(prospects: seq<Account>, sortAZ: bool)
    ensures multiset(SortedProspects(prospects, "", sortAZ)) == multiset(prospects)
  {
    forall a | a in prospects
      ensures NameMatches(a, "")
    {
      ContainsEmpty(ToLower(a.name));
    }
    FilterAll(prospects, (a: Account) => NameMatches(a, ""));
  }

  /** The prospect "Add Prospect" creates has an empty name, so it is listed only while the
      search box is empty. */
  lemma NewProspectShown(now: int, search: string)
    ensures NameMatches(NewProspect(now), search) <==> search == ""
  {
    if search != "" {
      assert !StartsWith("", ToLower(search));
    }
  }

  class ProspectsPage {
    /** The application's prospect list, which the page edits through `setProspects`. */
    var prospects: seq<Account>
    var editMode: bool
    var sortAZ: bool
    var search: string

    constructor(prospects: seq<Account>)
      ensures this.prospects == prospects && !editMode && sortAZ && search == ""
    {
      this.prospects := prospects;
      editMode := false;
      sortAZ := true;
      search := "";
    }

    /** `handleInputChange(id, field, value)`. */
    method HandleInputChange(id: int, f: AccountField, value: string)
      modifies this
      ensures prospects == UpdateAccountField(old(prospects), id, f, value)
      ensures editMode == old(editMode) && sortAZ == old(sortAZ) && search == old(search)
    {
      prospects := UpdateAccountField(prospects, id, f, value);
    }

    /** `handleContactChange(prospectId, index, field, value)`: the form only passes the
        index of a contact it shows. */
    method HandleContactChange(id: int, index: nat, f: ContactField, value: string)
      requires ContactIndexValid(prospects, id, index)
      modifies this
      ensures prospects == UpdateContactField(old(prospects), id, index, f, value)
      ensures editMode == old(editMode) && sortAZ == old(sortAZ) && search == old(search)
    {
      prospects := UpdateContactField(prospects, id, index, f, value);
    }

    /** `handleAddContact(prospectId)`. */
    method HandleAddContact(id: int)
      modifies this
      ensures prospects == AddEmptyContact(old(prospects), id)
      ensures editMode == old(editMode) && sortAZ == old(sortAZ) && search == old(search)
    {
      prospects := AddEmptyContact(prospects, id);
    }

    /** `toggleDay(prospectId, day)`: ignored outside edit mode. */
    method ToggleDay(id: int, day: string)
      modifies this
      ensures prospects == if old(editMode) then ToggleDayOf(old(prospects), id, day) else old(prospects)
      ensures editMode == old(editMode) && sortAZ == old(sortAZ) && search == old(search)
    {
      if !editMode {
        return;
      }
      prospects := ToggleDayOf(prospects, id, day);
    }

    /** `handleAddProspect`, with `Date.now()` as `now`: a blank prospect at the end, and the
        page switches to edit mode. */
    method HandleAddProspect(now: int)
      modifies this
      ensures prospects == old(prospects) + [NewProspect(now)]
      ensures editMode && sortAZ == old(sortAZ) && search == old(search)
    {
      prospects := prospects + [NewProspect(now)];
      editMode := true;
    }

    /** `handleDeleteProspect(prospectId)`; `confirmed` is the answer to the confirmation
        dialog. */
    method HandleDeleteProspect(id: int, confirmed: bool)
      modifies this
      ensures prospects == if confirmed then DeleteAccount(old(prospects), id) else old(prospects)
      ensures editMode == old(editMode) && sortAZ == old(sortAZ) && search == old(search)
    {
      if confirmed {
        prospects := DeleteAccount(prospects, id);
      }
    }

    /** The "Enter/Exit Edit Mode" button. */
    method ToggleEditMode()
      modifies this
      ensures editMode == !old(editMode)
      ensures prospects == old(prospects) && sortAZ == old(sortAZ) && search == old(search)
    {
      editMode := !editMode;
    }

    /** The sort button. */
    method ToggleSortOrder()
      modifies this
      ensures sortAZ == !old(sortAZ)
      ensures prospects == old(prospects) && editMode == old(editMode) && search == old(search)
    {
      sortAZ := !sortAZ;
    }

    /** The search box. */
    method SetSearch(text: string)
      modifies this
      ensures search == text
      ensures prospects == old(prospects) && editMode == old(editMode) && sortAZ == old(sortAZ)
    {
      search := text;
    }
  }
}
