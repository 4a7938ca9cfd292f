/** The application shell: the note handlers of the customer and prospect note pages,
    the lookup of a record by the id in the route, and the itinerary grouped by date
    from the stored visits. */
module App {
  import opened Wrappers
  import opened Text
  import opened Lists
  import opened Records

  /** Every record with this id has a note at `index`: the edit form only passes the
      index of a note it shows. */
  predicate NoteIndexValid(records: seq<Account>, id: int, index: Option<nat>)
  {
    index.Some? ==> forall a :: a in records && a.id == id ==> index.value < |a.notes|
  }

  /** Everything but the note list is the same in `a` and `b`. */
  predicate SameButNotes(a: Account, b: Account)
  {
    a.id == b.id && a.accountNumber == b.accountNumber && a.name == b.name && a.address == b.address
    && a.contacts == b.contacts && a.deliveryDays == b.deliveryDays
  }

  /** `NotesWrapper.handleAddNote(id, note, index)`: without an index the note is appended
      to the record with that id; with one, the note at that index is replaced. Other
      records are left alone. */
  function AddNote(records: seq<Account>, id: int, note: Note, index: Option<nat>): (r: seq<Account>)
    requires NoteIndexValid(records, id, index)
    ensures |r| == |records|
    ensures forall i :: 0 <= i < |r| && records[i].id != id ==> r[i] == records[i]
    ensures forall i :: 0 <= i < |r| && records[i].id == id ==>
      && SameButNotes(r[i], records[i])
      && (index.None? ==>
            |r[i].notes| == |records[i].notes| + 1 && r[i].notes[..|records[i].notes|] == records[i].notes
            && r[i].notes[|records[i].notes|] == note)
      && (index.Some? ==>
            |r[i].notes| == |records[i].notes| && r[i].notes[index.value] == note
            && forall k :: 0 <= k < |r[i].notes| && k != index.value ==> r[i].notes[k] == records[i].notes[k])
  {
    seq(|records|, i requires 0 <= i < |records| =>
      var a := records[i];
      if a.id == id then
        assert a in records;
        a.(notes := match index case None => a.notes + [note] case Some(k) => a.notes[k := note])
      else a)
  }

  /** `ProspectNotesWrapper.handleAddNote(id, note)`. */
  function AppendNote(records: seq<Account>, id: int, note: Note): (r: seq<Account>)
    ensures |r| == |records|
    ensures forall i :: 0 <= i < |r| && records[i].id != id ==> r[i] == records[i]
    ensures forall i :: 0 <= i < |r| && records[i].id == id ==>
      SameButNotes(r[i], records[i]) && r[i].notes == records[i].notes + [note]
  {
    seq(|records|, i requires 0 <= i < |records| =>
      var a := records[i];
      if a.id == id then a.(notes := a.notes + [note]) else a)
  }

  /** The prospect handler always appends: it is the customer handler without an index. */
  lemma AppendNoteIsAddNote(records: seq<Account>, id: int, note: Note)
    ensures AppendNote(records, id, note) == AddNote(records, id, note, None)
  {
  }

  /** `handleDeleteNote(noteIndex)` of both wrappers: `splice(noteIndex, 1)` on the notes of
      the record with that id; other records are left alone. */
  function DeleteNote(records: seq<Account>, id: int, noteIndex: int): (r: seq<Account>)
    ensures |r| == |records|
    ensures forall i :: 0 <= i < |r| && records[i].id != id ==> r[i] == records[i]
    ensures forall i :: 0 <= i < |r| && records[i].id == id ==>
      SameButNotes(r[i], records[i]) && r[i].notes == Splice1(records[i].notes, noteIndex)
  {
    seq(|records|, i requires 0 <= i < |records| =>
      var a := records[i];
      if a.id == id then a.(notes := Splice1(a.notes, noteIndex)) else a)
  }

  /** Deleting note `k` in range takes out exactly that note: one fewer, the others in order. */
  lemma DeleteNoteInRange(notes: seq<Note>, k: int)
    requires 0 <= k < |notes|
    ensures |Splice1(notes, k)| == |notes| - 1
    ensures Splice1(notes, k) == notes[..k] + notes[k + 1..]
  {
    var r := Splice1(notes, k);
    assert forall j :: 0 <= j < |r| ==> r[j] == (notes[..k] + notes[k + 1..])[j];
  }

  /** Appending a note and deleting the last one (`splice(-1, 1)`) gives the records back. */
  lemma AppendThenDeleteLast(records: seq<Account>, id: int, note: Note)
    ensures DeleteNote(AddNote(records, id, note, None), id, -1) == records
  {
    var added := AddNote(records, id, note, None);
    var back := DeleteNote(added, id, -1);
    forall i | 0 <= i < |records|
      ensures back[i] == records[i]
    {
      if records[i].id == id {
        var ns := added[i].notes;
        assert SpliceStart(|ns|, -1) == |records[i].notes|;
        assert back[i].notes == records[i].notes;
      }
    }
  }

  /** The `find` test of the note pages: the record's id, as text, is the route parameter. */
  predicate IdIs(a: Account, param: string)
  {
    IntToString(a.id) == param
  }

  /** `records.find(c => String(c.id) === param)`: the first record whose id reads as the
      route parameter. */
  function FindById(records: seq<Account>, param: string): (r: Option<Account>)
    ensures r.Some? ==> r.value in records && IdIs(r.value, param)
    ensures r.None? <==> forall a :: a in records ==> !IdIs(a, param)
  {
    if records == [] then None
    else if IdIs(records[0], param) then Some(records[0])
    else FindById(records[1..], param)
  }

  /** What `find` returns is the FIRST match: the record at the lowest index whose id reads
      as the parameter. */
  lemma {:induction false} FindByIdFirst(records: seq<Account>, param: string, k: nat)
    requires k < |records| && IdIs(records[k], param)
    requires forall j :: 0 <= j < k ==> !IdIs(records[j], param)
    ensures FindById(records, param) == Some(records[k])
  {
    if k > 0 {
      assert !IdIs(records[0], param);
      FindByIdFirst(records[1..], param, k - 1);
    }
  }

  /** A route built from a number finds a record exactly when one has that id, and then
      one with that id, since `String` tells different numbers apart. */
  lemma FindByNumber(records: seq<Account>, n: int)
    ensures FindById(records, IntToString(n)).Some? <==> exists a :: a in records && a.id == n
    ensures FindById(records, IntToString(n)).Some? ==> FindById(records, IntToString(n)).value.id == n
  {
    var r := FindById(records, IntToString(n));
    if r.Some? {
      IntToStringInjective(r.value.id, n);
    }
    if exists a :: a in records && a.id == n {
      var a :| a in records && a.id == n;
      assert IntToString(a.id) == IntToString(n);
    }
  }

  /** `acc[date]`: where the bucket of that date is, if there is one. */
  function BucketOf(buckets: seq<Bucket>, date: int): (r: Option<nat>)
    ensures r.None? <==> forall b :: b in buckets ==> b.date != date
    ensures r.Some? ==> r.value < |buckets| && buckets[r.value].date == date
  {
    if buckets == [] then None
    else if buckets[0].date == date then Some(0)
    else match BucketOf(buckets[1..], date)
      case None => None
      case Some(k) => Some(k + 1)
  }

  /** One step of the `reduce`: the visit goes at the end of its date's bucket, which is
      opened at the end when the date is new. */
  function AddToBucket(buckets: seq<Bucket>, v: Visit): (r: seq<Bucket>)
    ensures |r| == |buckets| + (if BucketOf(buckets, v.date).None? then 1 else 0)
    ensures forall k :: 0 <= k < |buckets| ==> r[k].date == buckets[k].date
    ensures BucketOf(r, v.date).Some?
  {
    match BucketOf(buckets, v.date)
    case None =>
      var r := buckets + [Bucket(v.date, [v])];
      assert r[|buckets|] in r;
      r
    case Some(k) =>
      var r := buckets[k := Bucket(buckets[k].date, buckets[k].visits + [v])];
      assert r[k] in r;
      r
  }

  /** The object the `reduce` builds from the visits, as its entries in key order: at
      most one key per visit, and a key as soon as there is a visit. */
  function Group(visits: seq<Visit>): (r: seq<Bucket>)
    ensures |r| <= |visits|
    ensures r == [] <==> visits == []
  {
    if visits == [] then [] else AddToBucket(Group(visits[..|visits| - 1]), visits[|visits| - 1])
  }

  /** The `itinerary` memo: nothing saved gives the empty object; otherwise every visit is
      pushed into the bucket of its date. */
  method GroupByDate(saved: Option<seq<Visit>>) returns (itinerary: seq<Bucket>)
    ensures saved.None? ==> itinerary == []
    ensures saved.Some? ==> itinerary == Group(saved.value)
  {
    itinerary := [];
    if saved.None? {
      return;
    }
    var visits := saved.value;
    for i := 0 to |visits|
      invariant itinerary == Group(visits[..i])
    {
      var v := visits[i];
      assert visits[..i + 1][..i] == visits[..i];
      var k := BucketOf(itinerary, v.date);
      if k.None? {
        itinerary := itinerary + [Bucket(v.date, [v])];
      } else {
        var b := itinerary[k.value];
        itinerary := itinerary[k.value := Bucket(b.date, b.visits + [v])];
      }
    }
    assert visits[..|visits|] == visits;
  }

  /** No two buckets have the same date. */
  lemma {:induction false} GroupKeysDistinct(visits: seq<Visit>)
    ensures forall i, j :: 0 <= i < j < |Group(visits)| ==> Group(visits)[i].date != Group(visits)[j].date
    decreases |visits|
  {
    if visits != [] {
      var front := visits[..|visits| - 1];
      GroupKeysDistinct(front);
    }
  }

  /** Every visit's date has a bucket. */
  lemma {:induction false} GroupCoversDates(visits: seq<Visit>)
    ensures forall v :: v in visits ==> BucketOf(Group(visits), v.date).Some?
    decreases |visits|
  {
    if visits != [] {
      var front := visits[..|visits| - 1];
      var v := visits[|visits| - 1];
      assert visits == front + [v];
      GroupCoversDates(front);
      var g := Group(front);
      var g' := Group(visits);
      forall x | x in visits
        ensures BucketOf(g', x.date).Some?
      {
        if x in front {
          var k := BucketOf(g, x.date).value;
          assert g'[k].date == x.date;
          assert g'[k] in g';
        } else {
          match BucketOf(g, v.date)
          case None =>
            assert g'[|g|] in g';
          case Some(k) =>
            assert g'[k] in g';
        }
      }
    }
  }

  /** Where date `date` first occurs among the visits; `|visits|` when it does not. */
  function FirstDateIndex(visits: seq<Visit>, date: int): (k: nat)
    ensures k <= |visits|
    ensures k < |visits| ==> visits[k].date == date
    ensures forall j :: 0 <= j < k && j < |visits| ==> visits[j].date != date
  {
    if visits == [] then 0
    else if visits[0].date == date then 0
    else 1 + FirstDateIndex(visits[1..], date)
  }

  /** A date no visit has is found at `|visits|`. */
  lemma {:induction false} FirstDateIndexAbsent(visits: seq<Visit>, date: int)
    requires forall x :: x in visits ==> x.date != date
    ensures FirstDateIndex(visits, date) == |visits|
  {
    if visits != [] {
      assert visits[0] in visits;
      FirstDateIndexAbsent(visits[1..], date);
    }
  }

  /** A visit at the end moves no first occurrence that is already there. */
  lemma {:induction false} FirstDateIndexSnoc(front: seq<Visit>, v: Visit, date: int)
    ensures FirstDateIndex(front + [v], date)
      == if FirstDateIndex(front, date) < |front| then FirstDateIndex(front, date)
         else if v.date == date then |front| else |front| + 1
  {
    if front != [] {
      assert (front + [v])[1..] == front[1..] + [v];
      FirstDateIndexSnoc(front[1..], v, date);
    } else {
      assert [v][1..] == [];
    }
  }

  /** The keys of the object, in order, are the visits' dates in order of first occurrence
      (keys such as "2025-06-02" are not array indices, so `Object.values` keeps insertion
      order); in particular every bucket's date is the date of some visit. */
  lemma {:induction false} GroupKeyOrder(visits: seq<Visit>)
    ensures forall k :: 0 <= k < |Group(visits)| ==> FirstDateIndex(visits, Group(visits)[k].date) < |visits|
    ensures forall i, j :: 0 <= i < j < |Group(visits)| ==>
      FirstDateIndex(visits, Group(visits)[i].date) < FirstDateIndex(visits, Group(visits)[j].date)
    decreases |visits|
  {
    if visits != [] {
      var front := visits[..|visits| - 1];
      var v := visits[|visits| - 1];
      assert visits == front + [v];
      GroupKeyOrder(front);
      GroupCoversDates(front);
      if BucketOf(Group(front), v.date).None? {
        NewBucketOrder(Group(front), front, v);
      } else {
        OldBucketOrder(Group(front), front, v, BucketOf(Group(front), v.date).value);
      }
    }
  }

  /** A new bucket comes last, and its date first occurs at the new visit. */
  lemma {:induction false} NewBucketOrder(g: seq<Bucket>, front: seq<Visit>, v: Visit)
    requires forall k :: 0 <= k < |g| ==> FirstDateIndex(front, g[k].date) < |front|
    requires forall i, j :: 0 <= i < j < |g| ==> FirstDateIndex(front, g[i].date) < FirstDateIndex(front, g[j].date)
    requires forall x :: x in front ==> BucketOf(g, x.date).Some?
    requires BucketOf(g, v.date).None?
    ensures var g' := g + [Bucket(v.date, [v])];
      && (forall k :: 0 <= k < |g'| ==> FirstDateIndex(front + [v], g'[k].date) < |front + [v]|)
      && (forall i, j :: 0 <= i < j < |g'| ==> FirstDateIndex(front + [v], g'[i].date) < FirstDateIndex(front + [v], g'[j].date))
  {
    var g' := g + [Bucket(v.date, [v])];
    FirstDateIndexAbsent(front, v.date);
    forall k | 0 <= k < |g'|
      ensures FirstDateIndex(front + [v], g'[k].date) == if k < |g| then FirstDateIndex(front, g[k].date) else |front|
    {
      FirstDateIndexSnoc(front, v, g'[k].date);
    }
  }

  /** Adding to an existing bucket changes no date. */
  lemma {:induction false} OldBucketOrder(g: seq<Bucket>, front: seq<Visit>, v: Visit, m: nat)
    requires forall k :: 0 <= k < |g| ==> FirstDateIndex(front, g[k].date) < |front|
    requires forall i, j :: 0 <= i < j < |g| ==> FirstDateIndex(front, g[i].date) < FirstDateIndex(front, g[j].date)
    requires m < |g|
    ensures var g' := g[m := Bucket(g[m].date, g[m].visits + [v])];
      && (forall k :: 0 <= k < |g'| ==> FirstDateIndex(front + [v], g'[k].date) < |front + [v]|)
      && (forall i, j :: 0 <= i < j < |g'| ==> FirstDateIndex(front + [v], g'[i].date) < FirstDateIndex(front + [v], g'[j].date))
  {
    var g' := g[m := Bucket(g[m].date, g[m].visits + [v])];
    forall k | 0 <= k < |g'|
      ensures FirstDateIndex(front + [v], g'[k].date) == FirstDateIndex(front, g[k].date)
    {
      assert g'[k].date == g[k].date;
      FirstDateIndexSnoc(front, v, g'[k].date);
    }
  }

  /** Every bucket's date is the date of one of the visits: no empty key is made. */
  lemma GroupDatesFromVisits(visits: seq<Visit>)
    ensures forall b :: b in Group(visits) ==> exists v :: v in visits && v.date == b.date
  {
    GroupKeyOrder(visits);
    forall b | b in Group(visits)
      ensures exists v :: v in visits && v.date == b.date
    {
      var k :| 0 <= k < |Group(visits)| && Group(visits)[k] == b;
      assert visits[FirstDateIndex(visits, b.date)] in visits;
    }
  }

  /** Each bucket of `buckets` holds exactly the visits of its date, in input order. */
  ghost predicate BucketsAreFilters(buckets: seq<Bucket>, visits: seq<Visit>)
  {
    forall k :: 0 <= k < |buckets| ==> buckets[k].visits == OnDate(visits, buckets[k].date)
  }

  /** One step of the `reduce` keeps every bucket equal to the filter of its date. */
  lemma AddToBucketFilters(g: seq<Bucket>, front: seq<Visit>, v: Visit)
    requires BucketsAreFilters(g, front)
    requires forall x :: x in front ==> BucketOf(g, x.date).Some?
    requires forall i, j :: 0 <= i < j < |g| ==> g[i].date != g[j].date
    ensures BucketsAreFilters(AddToBucket(g, v), front + [v])
  {
    if BucketOf(g, v.date).None? {
      NewBucketFilters(g, front, v);
    } else {
      OldBucketFilters(g, front, v, BucketOf(g, v.date).value);
    }
  }

  lemma NewBucketFilters(g: seq<Bucket>, front: seq<Visit>, v: Visit)
    requires BucketsAreFilters(g, front)
    requires forall x :: x in front ==> BucketOf(g, x.date).Some?
    requires BucketOf(g, v.date).None?
    ensures BucketsAreFilters(g + [Bucket(v.date, [v])], front + [v])
  {
    var g' := g + [Bucket(v.date, [v])];
    OnDateEmpty(front, v.date);
    forall k | 0 <= k < |g'|
      ensures g'[k].visits == OnDate(front + [v], g'[k].date)
    {
      OnDateSnoc(front, v, g'[k].date);
    }
  }

  lemma OldBucketFilters(g: seq<Bucket>, front: seq<Visit>, v: Visit, j: nat)
    requires BucketsAreFilters(g, front)
    requires forall i, i' :: 0 <= i < i' < |g| ==> g[i].date != g[i'].date
    requires j < |g| && g[j].date == v.date
    ensures BucketsAreFilters(g[j := Bucket(g[j].date, g[j].visits + [v])], front + [v])
  {
    var g' := g[j := Bucket(g[j].date, g[j].visits + [v])];
    forall k | 0 <= k < |g'|
      ensures g'[k].visits == OnDate(front + [v], g'[k].date)
    {
      OnDateSnoc(front, v, g'[k].date);
      if k != j {
        assert g'[k] == g[k] && g[k].date != g[j].date;
      }
    }
  }

  /** Each bucket holds exactly the visits of its date, in input order. */
  lemma {:induction false} GroupBucketsAreFilters(visits: seq<Visit>)
    ensures forall k :: 0 <= k < |Group(visits)| ==> Group(visits)[k].visits == OnDate(visits, Group(visits)[k].date)
    decreases |visits|
  {
    if visits != [] {
      var front := visits[..|visits| - 1];
      var v := visits[|visits| - 1];
      assert visits == front + [v];
      GroupBucketsAreFilters(front);
      GroupCoversDates(front);
      GroupKeysDistinct(front);
      AddToBucketFilters(Group(front), front, v);
    }
  }

  /** The buckets hold the visits and nothing else, so their sizes add up to the number of
      visits. */
  lemma {:induction false} GroupKeepsVisits(visits: seq<Visit>)
    ensures multiset(Flatten(Group(visits))) == multiset(visits)
    ensures |Flatten(Group(visits))| == |visits|
    decreases |visits|
  {
    if visits != [] {
      var front := visits[..|visits| - 1];
      var v := visits[|visits| - 1];
      assert visits == front + [v];
      GroupKeepsVisits(front);
      var g := Group(front);
      match BucketOf(g, v.date)
      case None =>
        FlattenSnoc(g, Bucket(v.date, [v]));
      case Some(k) =>
        FlattenPush(g, k, v);
    }
    assert |multiset(Flatten(Group(visits)))| == |Flatten(Group(visits))|;
  }

  lemma {:induction false} FlattenSnoc(bs: seq<Bucket>, b: Bucket)
    ensures Flatten(bs + [b]) == Flatten(bs) + b.visits
  {
    if bs == [] {
      assert [b][1..] == [];
      assert [] + [b] == [b];
    } else {
      assert (bs + [b])[1..] == bs[1..] + [b];
      FlattenSnoc(bs[1..], b);
    }
  }

  lemma {:induction false} FlattenPush(bs: seq<Bucket>, k: nat, v: Visit)
    requires k < |bs|
    ensures multiset(Flatten(bs[k := Bucket(bs[k].date, bs[k].visits + [v])])) == multiset(Flatten(bs)) + multiset{v}
  {
    var bs' := bs[k := Bucket(bs[k].date, bs[k].visits + [v])];
    assert Flatten(bs) == bs[0].visits + Flatten(bs[1..]);
    assert Flatten(bs') == bs'[0].visits + Flatten(bs'[1..]);
    if k == 0 {
      assert bs'[1..] == bs[1..];
      assert multiset(bs'[0].visits) == multiset(bs[0].visits) + multiset{v};
    } else {
      assert bs'[0] == bs[0];
      assert bs'[1..] == bs[1..][k - 1 := Bucket(bs[k].date, bs[k].visits + [v])];
      FlattenPush(bs[1..], k - 1, v);
    }
  }
}
