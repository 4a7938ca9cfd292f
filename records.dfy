/** The records the pages keep in their lists: customer and prospect accounts
    with their contacts, delivery days and notes, and itinerary visits; and the
    list updates that CustomersPage and ProspectsPage share line for line. */
module Records {
  import opened Wrappers
  import opened Text
  import opened Lists

  /** A person at an account: `{ title, name, phone, email }`. */
  datatype Contact = Contact(title: string, name: string, phone: string, email: string)

  /** The contact keys the edit form writes through `handleContactChange`. */
  datatype ContactField = Title | PersonName | Phone | Email

  function ContactGet(c: Contact, f: ContactField): string
  {
    match f
    case Title => c.title
    case PersonName => c.name
    case Phone => c.phone
    case Email => c.email
  }

  /** `contact[field] = value`. */
  function ContactSet(c: Contact, f: ContactField, v: string): (r: Contact)
    ensures ContactGet(r, f) == v
    ensures forall g :: g != f ==> ContactGet(r, g) == ContactGet(c, g)
  {
    match f
    case Title => c.(title := v)
    case PersonName => c.(name := v)
    case Phone => c.(phone := v)
    case Email => c.(email := v)
  }

  /** The contact `handleAddContact` appends. */
  const EmptyContact := Contact("", "", "", "")

  datatype Note = Note(text: string, category: string, timestamp: string)

  /** A customer or prospect account. Prospects are created without an
      `accountNumber` key, which `None` stands for. */
  datatype Account = Account(
    id: int,
    accountNumber: Option<string>,
    name: string,
    address: string,
    contacts: seq<Contact>,
    deliveryDays: seq<string>,
    notes: seq<Note>)

  /** The account keys the edit form writes through `handleInputChange`. */
  datatype AccountField = AccountName | AccountNumber | Address

  function AccountGet(a: Account, f: AccountField): Option<string>
  {
    match f
    case AccountName => Some(a.name)
    case AccountNumber => a.accountNumber
    case Address => Some(a.address)
  }

  function AccountSet(a: Account, f: AccountField, v: string): (r: Account)
    ensures AccountGet(r, f) == Some(v)
    ensures forall g :: g != f ==> AccountGet(r, g) == AccountGet(a, g)
    ensures r.id == a.id && r.contacts == a.contacts && r.deliveryDays == a.deliveryDays && r.notes == a.notes
  {
    match f
    case AccountName => a.(name := v)
    case AccountNumber => a.(accountNumber := Some(v))
    case Address => a.(address := v)
  }

  /** Everything but the contact list is the same in `a` and `b`. */
  predicate SameButContacts(a: Account, b: Account)
  {
    a.id == b.id && a.accountNumber == b.accountNumber && a.name == b.name && a.address == b.address
    && a.deliveryDays == b.deliveryDays && a.notes == b.notes
  }

  /** `prev.map(a => a.id === id ? { ...a, [field]: value } : a)`. */
  function UpdateAccountField(accounts: seq<Account>, id: int, f: AccountField, v: string): (r: seq<Account>)
    ensures |r| == |accounts|
    ensures forall i :: 0 <= i < |r| && accounts[i].id != id ==> r[i] == accounts[i]
    ensures forall i :: 0 <= i < |r| && accounts[i].id == id ==>
      && AccountGet(r[i], f) == Some(v)
      && (forall g :: g != f ==> AccountGet(r[i], g) == AccountGet(accounts[i], g))
      && r[i].id == id && r[i].contacts == accounts[i].contacts
      && r[i].deliveryDays == accounts[i].deliveryDays && r[i].notes == accounts[i].notes
  {
    seq(|accounts|, i requires 0 <= i < |accounts| =>
      if accounts[i].id == id then AccountSet(accounts[i], f, v) else accounts[i])
  }

  /** Every account with this id has a contact at `index`: the handler indexes it unchecked. */
  predicate ContactIndexValid(accounts: seq<Account>, id: int, index: nat)
  {
    forall a :: a in accounts && a.id == id ==> index < |a.contacts|
  }

  /** `handleContactChange`: `updatedContacts[index][field] = value` inside the account with that id. */
  function UpdateContactField(accounts: seq<Account>, id: int, index: nat, f: ContactField, v: string): (r: seq<Account>)
    requires ContactIndexValid(accounts, id, index)
    ensures |r| == |accounts|
    ensures forall i :: 0 <= i < |r| && accounts[i].id != id ==> r[i] == accounts[i]
    ensures forall i :: 0 <= i < |r| && accounts[i].id == id ==>
      && SameButContacts(r[i], accounts[i])
      && |r[i].contacts| == |accounts[i].contacts|
      && ContactGet(r[i].contacts[index], f) == v
      && (forall g :: g != f ==> ContactGet(r[i].contacts[index], g) == ContactGet(accounts[i].contacts[index], g))
      && (forall k :: 0 <= k < |r[i].contacts| && k != index ==> r[i].contacts[k] == accounts[i].contacts[k])
  {
    seq(|accounts|, i requires 0 <= i < |accounts| =>
      var a := accounts[i];
      if a.id == id then
        assert a in accounts;
        a.(contacts := a.contacts[index := ContactSet(a.contacts[index], f, v)])
      else a)
  }

  /** `handleAddContact`: one empty contact appended to the account with that id. */
  function AddEmptyContact(accounts: seq<Account>, id: int): (r: seq<Account>)
    ensures |r| == |accounts|
    ensures forall i :: 0 <= i < |r| && accounts[i].id != id ==> r[i] == accounts[i]
    ensures forall i :: 0 <= i < |r| && accounts[i].id == id ==>
      SameButContacts(r[i], accounts[i]) && r[i].contacts == accounts[i].contacts + [EmptyContact]
  {
    seq(|accounts|, i requires 0 <= i < |accounts| =>
      var a := accounts[i];
      if a.id == id then a.(contacts := a.contacts + [EmptyContact]) else a)
  }

  /** `days.includes(day) ? days.filter(d => d !== day) : [...days, day]`. */
  function ToggledDays(days: seq<string>, day: string): (r: seq<string>)
    ensures day in r <==> day !in days
    ensures forall x :: x != day ==> (x in r <==> x in days)
    ensures day in days ==> IsSubsequence(r, days)
    ensures day !in days ==> r == days + [day]
  {
    if day in days then Filter(days, d => d != day) else days + [day]
  }

  /** Toggling a day twice gives back the same set of delivery days. */
  lemma ToggleTwice(days: seq<string>, day: string)
    ensures forall x :: x in ToggledDays(ToggledDays(days, day), day) <==> x in days
  {
  }

  /** The map in `toggleDay`: only the account with that id has its delivery days toggled. */
  function ToggleDayOf(accounts: seq<Account>, id: int, day: string): (r: seq<Account>)
    ensures |r| == |accounts|
    ensures forall i :: 0 <= i < |r| && accounts[i].id != id ==> r[i] == accounts[i]
    ensures forall i :: 0 <= i < |r| && accounts[i].id == id ==>
      r[i] == accounts[i].(deliveryDays := ToggledDays(accounts[i].deliveryDays, day))
  {
    seq(|accounts|, i requires 0 <= i < |accounts| =>
      var a := accounts[i];
      if a.id == id then a.(deliveryDays := ToggledDays(a.deliveryDays, day)) else a)
  }

  /** `prev.filter(a => a.id !== id)`: every account with that id goes, the rest stay in
      order, each as many times as it was there. */
  function DeleteAccount(accounts: seq<Account>, id: int): (r: seq<Account>)
    ensures forall a :: a in r ==> a.id != id
    ensures forall a :: a in accounts && a.id != id ==> a in r
    ensures forall a :: multiset(r)[a] == if a.id != id then multiset(accounts)[a] else 0
    ensures IsSubsequence(r, accounts)
  {
    Filter(accounts, (a: Account) => a.id != id)
  }

  /** Deleting an id no account has leaves the list as it was. */
  lemma DeleteAbsentId(accounts: seq<Account>, id: int)
    requires forall a :: a in accounts ==> a.id != id
    ensures DeleteAccount(accounts, id) == accounts
  {
    FilterAll(accounts, (a: Account) => a.id != id);
  }

  /** `a.name.toLowerCase().includes(search.toLowerCase())`. */
  predicate NameMatches(a: Account, search: string)
  {
    Contains(ToLower(a.name), ToLower(search))
  }

  /** The sort key of both pages. */
  function NameOf(a: Account): string { a.name }

  /** Sorting by name in the direction `sortAZ` gives: the kept accounts, ordered, none lost,
      and accounts with the same name in the order they were kept. */
  function SortByName(kept: seq<Account>, sortAZ: bool): (r: seq<Account>)
    ensures multiset(r) == multiset(kept)
    ensures forall a :: a in r <==> a in kept
    ensures forall name :: WithKey(r, NameOf, name) == WithKey(kept, NameOf, name)
    ensures forall i, j :: 0 <= i < j < |r| ==>
      if sortAZ then LexLe(r[i].name, r[j].name) else LexLe(r[j].name, r[i].name)
  {
    var r := SortBy(kept, NameOf, sortAZ);
    SameMembers(r, kept);
    assert forall i, j :: 0 <= i < j < |r| ==> Before(NameOf, sortAZ, r[i], r[j]);
    r
  }

  /** A new customer as `handleAddAccount` builds it: everything empty, id from the clock. */
  function NewCustomer(now: int): (a: Account)
    ensures a.id == now && a.accountNumber == Some("") && a.name == "" && a.address == ""
    ensures a.contacts == [] && a.deliveryDays == [] && a.notes == []
  {
    Account(now, Some(""), "", "", [], [], [])
  }

  /** A new prospect as `handleAddProspect` builds it: no `accountNumber` key at all. */
  function NewProspect(now: int): (a: Account)
    ensures a.id == now && a.accountNumber.None? && a.name == "" && a.address == ""
    ensures a.contacts == [] && a.deliveryDays == [] && a.notes == []
  {
    Account(now, None, "", "", [], [], [])
  }

  /** The customer search: name containment, or else the account number containing the
      search as typed. The second test is only reached when the name does not match; an
      account without a number would make it throw, which customer lists never hold. */
  predicate CustomerMatches(a: Account, search: string)
  {
    NameMatches(a, search) || (a.accountNumber.Some? && Contains(a.accountNumber.value, search))
  }

  /** A visit of the itinerary. `kind` is the `type` key. ItineraryPage writes `name`, `time`,
      `date`, `done`, `recurrence` and `type`; `repeat`, `prospect` and `accountNumber` are
      keys WeekView reads, absent on those visits ("", false, None). A date is a day number. */
  datatype Visit = Visit(
    name: string,
    time: string,
    date: int,
    done: bool,
    recurrence: string,
    kind: string,
    repeat: string,
    prospect: bool,
    accountNumber: Option<string>)

  /** One entry of the date-keyed itinerary object: a date and its visits in input order. */
  datatype Bucket = Bucket(date: int, visits: seq<Visit>)

  /** `Object.values(itinerary).flat()`: the buckets' visits in bucket order. */
  function Flatten(buckets: seq<Bucket>): (r: seq<Visit>)
    ensures forall b, v :: b in buckets && v in b.visits ==> v in r
    ensures forall v :: v in r ==> exists b :: b in buckets && v in b.visits
  {
    if buckets == [] then [] else buckets[0].visits + Flatten(buckets[1..])
  }

  /** `visits.filter(v => v.date === date)`. */
  function OnDate(visits: seq<Visit>, date: int): (r: seq<Visit>)
    ensures forall v :: v in r <==> v in visits && v.date == date
    ensures IsSubsequence(r, visits)
  {
    Filter(visits, (v: Visit) => v.date == date)
  }

  lemma {:induction false} OnDateSnoc(visits: seq<Visit>, v: Visit, date: int)
    ensures OnDate(visits + [v], date) == OnDate(visits, date) + (if v.date == date then [v] else [])
  {
    if visits == [] {
      assert visits + [v] == [v];
    } else {
      var w := visits + [v];
      var head := if visits[0].date == date then [visits[0]] else [];
      var tail := if v.date == date then [v] else [];
      calc {
        OnDate(w, date);
      == { assert w[0] == visits[0]; OnDateCons(w, date); }
        head + OnDate(w[1..], date);
      == { assert w[1..] == visits[1..] + [v]; OnDateSnoc(visits[1..], v, date); }
        head + (OnDate(visits[1..], date) + tail);
      ==
        (head + OnDate(visits[1..], date)) + tail;
      == { OnDateCons(visits, date); }
        OnDate(visits, date) + tail;
      }
    }
  }

  /** The filter of a non-empty list: its first visit if it has the date, then the rest. */
  lemma OnDateCons(visits: seq<Visit>, date: int)
    requires visits != []
    ensures OnDate(visits, date) == (if visits[0].date == date then [visits[0]] else []) + OnDate(visits[1..], date)
  {
  }

  /** A date no visit has selects nothing. */
  lemma {:induction false} OnDateEmpty(visits: seq<Visit>, date: int)
    requires forall v :: v in visits ==> v.date != date
    ensures OnDate(visits, date) == []
  {
    if visits != [] {
      OnDateEmpty(visits[1..], date);
    }
  }
}
