/** People marked on photos: a record without an id is first matched with those its photo already has. */
module PeopleStore {
  import opened Common

  datatype Rect = Rect(x: int, y: int, width: int, height: int)

  /** A person may be known without a place on the photo, and a place without a person. */
  datatype PersonInfo = PersonInfo(id: Option<int>, person: Option<int>, photo: int, fingerprint: Option<int>, rect: Option<Rect>)

  /** Records kept in the order of their ids, and the id the next new record gets. */
  datatype People = People(records: seq<PersonInfo>, next: int)

  predicate Identified(records: seq<PersonInfo>) {
    forall i :: 0 <= i < |records| ==> records[i].id.Some?
  }

  /** One record for each id, in ascending order. */
  ghost predicate Sorted(records: seq<PersonInfo>) {
    Identified(records) && forall i, j :: 0 <= i < j < |records| ==> records[i].id.value < records[j].id.value
  }

  /** What storing asserts: something to remember, or the id of a record to remove. */
  predicate Storable(fd: PersonInfo) {
    fd.rect.Some? || fd.person.Some? || fd.id.Some?
  }

  // ---------------------------------------------------------------------------
  // The set of records
  // ---------------------------------------------------------------------------

  /** Replaces the record with this id, or inserts it in its place. */
  function Put(records: seq<PersonInfo>, info: PersonInfo): (r: seq<PersonInfo>)
    requires Identified(records) && info.id.Some?
    ensures Identified(r)
  {
    if records == [] then [info]
    else if records[0].id == info.id then [info] + records[1..]
    else if info.id.value < records[0].id.value then [info] + records
    else [records[0]] + Put(records[1..], info)
  }

  function Drop(records: seq<PersonInfo>, id: Option<int>): (r: seq<PersonInfo>)
    requires Identified(records)
    ensures Identified(r)
  {
    if records == [] then []
    else if records[0].id == id then records[1..]
    else [records[0]] + Drop(records[1..], id)
  }

  function StorePerson(st: People, pi: PersonInfo): (r: (People, int))
    requires Identified(st.records)
    ensures Identified(r.0.records)
  {
    match pi.id
    case Some(id) => (People(Put(st.records, pi), st.next), id)
    case None => (People(Put(st.records, pi.(id := Some(st.next))), st.next + 1), st.next)
  }

  // ---------------------------------------------------------------------------
  // Resolving and storing
  // ---------------------------------------------------------------------------

  /** The same valid place, or the same valid person on a record that has no place. */
  predicate Matches(record: PersonInfo, fd: PersonInfo) {
    || (fd.rect.Some? && record.rect == fd.rect)
    || (record.person.Some? && record.person == fd.person && record.rect.None?)
  }

  function Resolve(records: seq<PersonInfo>, fd: PersonInfo): (id: Option<int>) {
    if records == [] then None
    else if records[0].photo == fd.photo && Matches(records[0], fd) then records[0].id
    else Resolve(records[1..], fd)
  }

  function ToStore(st: People, fd: PersonInfo): PersonInfo {
    if fd.id.Some? then fd else fd.(id := Resolve(st.records, fd))
  }

  predicate Removes(fd: PersonInfo) {
    fd.id.Some? && fd.rect.None? && fd.person.None?
  }

  function Store(st: People, fd: PersonInfo): (People, Option<int>)
    requires Identified(st.records)
  {
    if Removes(fd) then (st.(records := Drop(st.records, fd.id)), fd.id)
    else if Removes(ToStore(st, fd)) then (st.(records := Drop(st.records, fd.id)), fd.id)
    else
      var (after, id) := StorePerson(st, ToStore(st, fd));
      (after, Some(id))
  }

  /** The second test for removal never succeeds. */
  lemma InnerDropNeverTaken(st: People, fd: PersonInfo)
    requires Storable(fd) && !Removes(fd)
    ensures !Removes(ToStore(st, fd))
  {
  }

  // ---------------------------------------------------------------------------
  // Sets of records
  // ---------------------------------------------------------------------------

  lemma {:induction false} PutMeans(records: seq<PersonInfo>, info: PersonInfo)
    requires Sorted(records) && info.id.Some?
    ensures Sorted(Put(records, info))
    ensures forall x :: x in Put(records, info) <==> x == info || (x in records && x.id != info.id)
  {
    if records != [] && records[0].id != info.id && records[0].id.value < info.id.value {
      PutMeans(records[1..], info);
    }
  }

  lemma {:induction false} DropMeans(records: seq<PersonInfo>, id: Option<int>)
    requires Sorted(records)
    ensures Sorted(Drop(records, id))
    ensures forall x :: x in Drop(records, id) <==> x in records && x.id != id
  {
    if records != [] && records[0].id != id {
      DropMeans(records[1..], id);
    }
  }

  lemma FirstIsLeast(records: seq<PersonInfo>, info: PersonInfo)
    requires Sorted(records) && info in records && records[0] != info
    ensures info in records[1..] && Sorted(records[1..]) && records[0].id.value < info.id.value
  {
    var i :| 0 <= i < |records| && records[i] == info;
    assert records[1..][i - 1] == info;
  }

  lemma PutLater(records: seq<PersonInfo>, info: PersonInfo)
    requires Identified(records) && records != [] && info.id.Some? && records[0].id.value < info.id.value
    ensures Identified(records[1..]) && Put(records, info) == [records[0]] + Put(records[1..], info)
  {
  }

  lemma PutFirst(records: seq<PersonInfo>)
    requires Identified(records) && records != []
    ensures Put(records, records[0]) == records
  {
    assert records == [records[0]] + records[1..];
  }

  lemma {:induction false} PutAgain(records: seq<PersonInfo>, info: PersonInfo)
    requires Sorted(records) && info.id.Some? && info in records
    ensures Put(records, info) == records
  {
    if records[0] == info {
      PutFirst(records);
    } else {
      FirstIsLeast(records, info);
      PutAgain(records[1..], info);
      PutLater(records, info);
      assert records == [records[0]] + records[1..];
    }
  }

  /** What was resolved is the first record of the photo that matches. */
  lemma {:induction false} ResolveMeans(records: seq<PersonInfo>, fd: PersonInfo)
    requires Identified(records)
    ensures Resolve(records, fd).None? <==> forall r :: r in records && r.photo == fd.photo ==> !Matches(r, fd)
    ensures Resolve(records, fd).Some? ==>
      exists i :: 0 <= i < |records| && records[i].id == Resolve(records, fd) && IsFirstMatch(records, fd, i)
  {
    if records != [] {
      if records[0].photo == fd.photo && Matches(records[0], fd) {
        assert IsFirstMatch(records, fd, 0);
      } else {
        ResolveMeans(records[1..], fd);
        if Resolve(records[1..], fd).Some? {
          var i :| 0 <= i < |records[1..]| && records[1..][i].id == Resolve(records[1..], fd) && IsFirstMatch(records[1..], fd, i);
          assert records[i + 1] == records[1..][i];
          forall j | 0 <= j < i + 1
            ensures records[j].photo == fd.photo ==> !Matches(records[j], fd)
          {
            if j > 0 {
              assert records[j] == records[1..][j - 1];
            }
          }
          assert IsFirstMatch(records, fd, i + 1);
        }
      }
    }
  }

  ghost predicate IsFirstMatch(records: seq<PersonInfo>, fd: PersonInfo, i: int)
    requires 0 <= i < |records|
  {
    && records[i].photo == fd.photo && Matches(records[i], fd)
    && forall j :: 0 <= j < i && records[j].photo == fd.photo ==> !Matches(records[j], fd)
  }

  lemma {:induction false} ResolvesTo(records: seq<PersonInfo>, fd: PersonInfo, stored: PersonInfo)
    requires Sorted(records) && stored in records && stored.photo == fd.photo && Matches(stored, fd)
    requires forall r :: r in records && r.id.value < stored.id.value && r.photo == fd.photo ==> !Matches(r, fd)
    ensures Resolve(records, fd) == stored.id
  {
    if records[0] != stored {
      assert stored in records[1..];
      assert records[0] in records && records[0].id.value < stored.id.value;
      ResolvesTo(records[1..], fd, stored);
    }
  }

  // ---------------------------------------------------------------------------
  // Storing twice
  // ---------------------------------------------------------------------------

  /** No record before the one that was resolved matches. */
  lemma EarlierDoNotMatch(records: seq<PersonInfo>, fd: PersonInfo, r: PersonInfo)
    requires Sorted(records) && r in records && r.photo == fd.photo
    requires Resolve(records, fd).Some? ==> r.id.value < Resolve(records, fd).value
    ensures !Matches(r, fd)
  {
    ResolveMeans(records, fd);
    if Resolve(records, fd).Some? {
      var i :| 0 <= i < |records| && records[i].id == Resolve(records, fd) && IsFirstMatch(records, fd, i);
      var j :| 0 <= j < |records| && records[j] == r;
      assert j < i;
    }
  }

  /** A record without id resolves to itself once it is stored. */
  lemma ResolvesToStored(st: People, fd: PersonInfo)
    requires Sorted(st.records) && fd.id.None? && (fd.rect.Some? || fd.person.Some?)
    ensures var (after, id) := Store(st, fd);
            id.Some? && Sorted(after.records) && fd.(id := id) in after.records && Resolve(after.records, fd) == id
  {
    var (after, id) := Store(st, fd);
    var stored := fd.(id := id);
    PutMeans(st.records, stored);
    forall r | r in after.records && r.id.value < stored.id.value && r.photo == fd.photo
      ensures !Matches(r, fd)
    {
      EarlierDoNotMatch(st.records, fd, r);
    }
    ResolvesTo(after.records, fd, stored);
  }

  /** Storing the same record without id again returns the same id and changes nothing. */
  lemma StoringTwiceIsStoringOnce(st: People, fd: PersonInfo)
    requires Sorted(st.records) && fd.id.None? && (fd.rect.Some? || fd.person.Some?)
    ensures var (after, id) := Store(st, fd); Store(after, fd) == (after, id)
  {
    var (after, id) := Store(st, fd);
    ResolvesToStored(st, fd);
    PutAgain(after.records, fd.(id := id));
  }

  /** Storing changes no record but the one it answers with. */
  lemma StoreChangesOneRecord(st: People, fd: PersonInfo)
    requires Sorted(st.records) && Storable(fd)
    ensures var (after, id) := Store(st, fd);
            && id.Some? && Sorted(after.records)
            && (forall x: PersonInfo :: x.id != id ==> (x in after.records <==> x in st.records))
            && (if fd.rect == None && fd.person == None then id == fd.id && forall x :: x in after.records ==> x.id != id
                else fd.(id := id) in after.records)
  {
    var (after, id) := Store(st, fd);
    if Removes(fd) {
      DropMeans(st.records, fd.id);
    } else {
      InnerDropNeverTaken(st, fd);
      PutMeans(st.records, fd.(id := id));
    }
  }

  // ---------------------------------------------------------------------------
  // What a record without id may replace
  // ---------------------------------------------------------------------------

  /** On the same photo, with the place that is being stored. */
  predicate AtItsPlace(x: PersonInfo, fd: PersonInfo) {
    x.photo == fd.photo && fd.rect.Some? && x.rect.Some? && x.rect.value == fd.rect.value
  }

  /** On the same photo, the person that is being stored, with no place yet. */
  predicate SamePersonUnplaced(x: PersonInfo, fd: PersonInfo) {
    x.photo == fd.photo && fd.person.Some? && x.person.Some? && x.person.value == fd.person.value && x.rect == None
  }

  predicate Replaceable(x: PersonInfo, fd: PersonInfo) {
    AtItsPlace(x, fd) || SamePersonUnplaced(x, fd)
  }

  lemma MatchingMeans(x: PersonInfo, fd: PersonInfo)
    ensures x.photo == fd.photo && Matches(x, fd) <==> Replaceable(x, fd)
  {
  }

  lemma SameIdSameRecord(records: seq<PersonInfo>, x: PersonInfo, y: PersonInfo)
    requires Sorted(records) && x in records && y in records && x.id == y.id
    ensures x == y
  {
  }

  /** Main result: a record without id replaces at most one stored record, and that one has its place, or is its person
      without a place; a new id is given out exactly when there is no such record. */
  lemma StoredWithoutId(st: People, fd: PersonInfo)
    requires Sorted(st.records) && IdsBelowNext(st) && fd.id.None? && Storable(fd)
    ensures var (after, id) := Store(st, fd);
            && fd.(id := id) in after.records
            && (forall x :: x in st.records && x !in after.records ==> Replaceable(x, fd) && x.id == id)
            && ((exists x :: x in st.records && Replaceable(x, fd)) <==> after.next == st.next)
            && (after.next == st.next ==> exists x :: x in st.records && Replaceable(x, fd) && x.id == id)
            && (after.next != st.next ==> id == Some(st.next) && after.next == st.next + 1)
  {
    var (after, id) := Store(st, fd);
    PutMeans(st.records, fd.(id := id));
    ResolveMeans(st.records, fd);
    forall x | x in st.records
      ensures x.photo == fd.photo && Matches(x, fd) <==> Replaceable(x, fd)
    {
      MatchingMeans(x, fd);
    }
    if Resolve(st.records, fd).Some? {
      var i :| 0 <= i < |st.records| && st.records[i].id == id && IsFirstMatch(st.records, fd, i);
      var found := st.records[i];
      assert found in st.records && Replaceable(found, fd);
      forall x | x in st.records && x !in after.records
        ensures x == found
      {
        SameIdSameRecord(st.records, x, found);
      }
    }
  }

  /** So no place of a photo is ever lost, and no person but one at the very place that is stored. */
  lemma NothingElseIsLost(st: People, fd: PersonInfo, x: PersonInfo)
    requires Sorted(st.records) && IdsBelowNext(st) && fd.id.None? && Storable(fd) && x in st.records
    ensures x.rect.Some? ==> exists y :: y in Store(st, fd).0.records && y.photo == x.photo && y.rect == x.rect
    ensures x.person.Some? && !AtItsPlace(x, fd) ==>
            exists y :: y in Store(st, fd).0.records && y.photo == x.photo && y.person == x.person
  {
    var (after, id) := Store(st, fd);
    StoredWithoutId(st, fd);
    if x in after.records {
    } else {
      assert fd.(id := id) in after.records;
    }
  }

  // ---------------------------------------------------------------------------
  // New ids
  // ---------------------------------------------------------------------------

  ghost predicate IdsBelowNext(st: People) {
    forall r :: r in st.records && r.id.Some? ==> r.id.value < st.next
  }

  /** A new record replaces none exactly when its id is not in use. */
  lemma NewRecordReplacesNoneExactly(st: People, fd: PersonInfo)
    requires Sorted(st.records) && fd.id.None? && Storable(fd) && Resolve(st.records, fd).None?
    ensures var (after, id) := Store(st, fd);
            && id == Some(st.next)
            && ((forall x :: x in st.records ==> x in after.records) <==> (forall x :: x in st.records ==> x.id != Some(st.next)))
  {
    var (after, id) := Store(st, fd);
    var stored := fd.(id := id);
    PutMeans(st.records, stored);
    ResolveMeans(st.records, fd);
    assert Matches(stored, fd);
  }

  /** Ids stay below the counter exactly when no record is stored under an id that was never given out. */
  lemma CounterStaysAheadExactly(st: People, fd: PersonInfo)
    requires Sorted(st.records) && Storable(fd) && IdsBelowNext(st)
    ensures IdsBelowNext(Store(st, fd).0) <==> Removes(fd) || fd.id.None? || fd.id.value < st.next
  {
    var (after, id) := Store(st, fd);
    if Removes(fd) {
      DropMeans(st.records, fd.id);
    } else {
      InnerDropNeverTaken(st, fd);
      var stored := fd.(id := id);
      PutMeans(st.records, stored);
      assert stored in after.records;
      if fd.id.None? && Resolve(st.records, fd).Some? {
        ResolveMeans(st.records, fd);
        var i :| 0 <= i < |st.records| && st.records[i].id == id && IsFirstMatch(st.records, fd, i);
        assert st.records[i] in st.records;
      }
    }
  }

  // ---------------------------------------------------------------------------
  // The records as they are kept
  // ---------------------------------------------------------------------------

  class Accessor {
    var records: seq<PersonInfo>
    var next: int

    constructor ()
      ensures State() == People([], 0)
    {
      records, next := [], 0;
    }

    ghost function State(): People
      reads this
    {
      People(records, next)
    }

    method DropPersonInfo(id: Option<int>)
      requires Identified(records)
      modifies this`records
      ensures records == Drop(old(records), id)
    {
      records := Drop(records, id);
    }

    method StorePersonInfo(pi: PersonInfo) returns (id: int)
      requires Identified(records)
      modifies this
      ensures (State(), id) == StorePerson(old(State()), pi)
    {
      var mpi := pi;
      if mpi.id.None? {
        mpi := mpi.(id := Some(next));
        next := next + 1;
      }
      records := Put(records, mpi);
      id := mpi.id.value;
    }

    /** The search stops at the first record that matches. */
    method FindExisting(fd: PersonInfo) returns (id: Option<int>)
      ensures id == Resolve(records, fd)
    {
      var rest := records;
      id := None;
      while rest != []
        invariant Resolve(rest, fd) == Resolve(records, fd)
        decreases |rest|
      {
        if rest[0].photo == fd.photo && Matches(rest[0], fd) {
          return rest[0].id;
        }
        rest := rest[1..];
      }
    }

    method StoreInfo(fd: PersonInfo) returns (result: Option<int>)
      requires Identified(records) && Storable(fd)
      modifies this
      ensures (State(), result) == Store(old(State()), fd)
    {
      result := fd.id;
      if Removes(fd) {
        DropPersonInfo(fd.id);
      } else {
        var toStore := fd;
        if fd.id.None? {
          var existing := FindExisting(fd);
          toStore := toStore.(id := existing);
        }
        InnerDropNeverTaken(State(), fd);
        var id := StorePersonInfo(toStore);
        result := Some(id);
      }
    }
  }
}
