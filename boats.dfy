/** The boat model functions of boats.js: create, overwrite, the name check,
    the boat-to-load link, delete, and the owner's page of boats. */
module Boats {
  import opened Records
  import opened Store
  import opened Paging
  import Loads

  /** Boats are listed five to a page. */
  const PageSize: nat := 5

  /** The boat's owner reference names this user. */
  predicate Owns(b: Boat, name: string) {
    b.owner.Some? && b.owner.value.name == name
  }

  /** post_boat: store a new boat under a fresh id. */
  method PostBoat(store: Datastore, name: string, boatType: string, length: int, loads: IdList, owner: Option<Ref>)
    returns (id: Id)
    requires store.Valid()
    modifies store
    ensures store.Valid()
    ensures id !in old(store.boats.rows) && id == FreshId(old(store.boats))
    ensures store.Performed([SaveBoat(id, Boat(name, boatType, length, loads, owner))])
  {
    id := FreshId(store.boats);
    store.Commit(SaveBoat(id, Boat(name, boatType, length, loads, owner)));
  }

  /** update_boat: overwrite the whole record under id. A null or missing
      owner is stored as null (both are None here). */
  method UpdateBoat(store: Datastore, id: Id, name: string, boatType: string, length: int, loads: IdList, owner: Option<Ref>)
    requires store.Valid()
    modifies store
    ensures store.Valid()
    ensures store.Performed([SaveBoat(id, Boat(name, boatType, length, loads, owner))])
  {
    store.Commit(SaveBoat(id, Boat(name, boatType, length, loads, owner)));
  }

  /** The names of the queried boats, in query order. */
  function Names(q: seq<Entry<Boat>>): (names: seq<string>)
    ensures |names| == |q|
    ensures forall i :: 0 <= i < |q| ==> names[i] == q[i].record.name
  {
    seq(|q|, i requires 0 <= i < |q| => q[i].record.name)
  }

  /** boat_update_name_constraint: a missing name is refused, and so is a
      name any stored boat already has (the renamed boat's own included);
      every other name is accepted. */
  function NameAvailable(name: Option<string>, t: Table<Boat>): (ok: bool)
    requires WellFormed(t)
    ensures ok <==> name.Some? && forall id :: id in t.rows ==> t.rows[id].name != name.value
  {
    var q := Query(t);
    var names := Names(q);
    assert forall id :: id in t.rows ==> t.rows[id].name in names by {
      forall id | id in t.rows ensures t.rows[id].name in names {
        var i :| 0 <= i < |t.order| && t.order[i] == id;
        assert names[i] == t.rows[id].name;
      }
    }
    name.Some? && name.value !in names
  }

  /** boat_update_name_constraint as written: it calls `.map` on the object
      `{items}` that get_all_boats_helper resolves to; objects have no `map`,
      so every non-null name makes it throw (None). */
  function NameConstraintAsWritten(name: Option<string>): (r: Option<bool>)
    ensures name.None? ==> r == Some(false)
    ensures name.Some? ==> r.None?
  {
    if name.None? then Some(false)
    else None                                         // allBoats.map: `{items}` has no method map
  }

  /** put_reservation, as a sequence of writes: the boat's list (an absent
      list is first replaced by []) gets lid pushed and the boat is saved;
      then the load is re-saved with carrier {id: bid, name: boat name} and
      its other three fields as they were. A missing boat or a null list
      makes it throw before any write; a missing load, after the boat write. */
  function Reserve(db: Db, bid: Id, lid: Id): (r: Run)
    ensures r.writes == [] <==> bid !in db.boats.rows || db.boats.rows[bid].loads.Null?
    ensures r.thrown <==> r.writes == [] || lid !in db.loads.rows
    ensures |r.writes| <= 2
    ensures r.writes != [] ==>
              var b := db.boats.rows[bid];
              r.writes[0] == SaveBoat(bid, b.(loads := Ids(Elements(b.loads) + [lid])))
    ensures !r.thrown ==>
              var l := db.loads.rows[lid];
              |r.writes| == 2 &&
              r.writes[1] == SaveLoad(lid, l.(carrier := Some(Ref(bid, db.boats.rows[bid].name))))
  {
    if bid !in db.boats.rows then Run([], true)
    else
      var b := db.boats.rows[bid];
      if b.loads.Null? then Run([], true)
      else
        var saved := SaveBoat(bid, b.(loads := Ids(Elements(b.loads) + [lid])));
        if lid !in db.loads.rows then Run([saved], true)
        else
          var l := db.loads.rows[lid];
          Run([saved, SaveLoad(lid, Load(l.volume, l.item, l.creationDate, Some(Ref(bid, b.name))))], false)
  }

  /** After a completed reservation the boat lists the load (at the end of
      its list) and the load names the boat as its carrier; nothing else
      in the store changed. */
  lemma ReserveLinks(db: Db, bid: Id, lid: Id)
    requires !Reserve(db, bid, lid).thrown
    ensures var after := ApplyAll(db, Reserve(db, bid, lid).writes);
            var b := db.boats.rows[bid];
            var l := db.loads.rows[lid];
            && after.boats.rows == db.boats.rows[bid := b.(loads := Ids(Elements(b.loads) + [lid]))]
            && after.loads.rows == db.loads.rows[lid := l.(carrier := Some(Ref(bid, b.name)))]
            && after.users == db.users
            && Elements(after.boats.rows[bid].loads)[..|Elements(b.loads)|] == Elements(b.loads)
            && Elements(after.boats.rows[bid].loads)[|Elements(b.loads)|] == lid
  {
    var r := Reserve(db, bid, lid);
    ApplyTwo(db, r.writes[0], r.writes[1]);
  }

  /** put_reservation: the imperative version, pushing onto the fetched boat's list in place. */
  method PutReservation(store: Datastore, bid: Id, lid: Id) returns (ok: bool)
    requires store.Valid()
    modifies store
    ensures store.Valid()
    ensures var r := Reserve(old(store.State()), bid, lid);
            store.Performed(r.writes) && ok == !r.thrown
  {
    if bid !in store.boats.rows {
      return false;                                   // boat[0].name of a missing boat
    }
    var boat := store.boats.rows[bid];
    var boatName := boat.name;
    if boat.loads.Null? {
      return false;                                   // typeof null is 'object': null.push throws
    }
    var list := if boat.loads.Undefined? then [] else boat.loads.ids;
    list := list + [lid];
    boat := boat.(loads := Ids(list));
    assert list == Elements(old(store.boats.rows[bid]).loads) + [lid];
    ghost var s0 := store.State();
    store.Commit(SaveBoat(bid, boat));
    var got := Lookup(store.loads, lid);              // get_load(lid)
    if got.None? {
      return false;                                   // loadObject[0].volume of a missing load
    }
    var l := got.value.record;
    ghost var s1 := store.State();
    Loads.UpdateLoad(store, lid, l.volume, l.item, l.creationDate, Some(Ref(bid, boatName)));
    Chain(s0, s1, store.State(), [SaveBoat(bid, boat)],
          [SaveLoad(lid, Load(l.volume, l.item, l.creationDate, Some(Ref(bid, boatName))))]);
    ok := true;
  }

  /** delete_boat: remove the record under id. */
  method DeleteBoat(store: Datastore, id: Id)
    requires store.Valid()
    modifies store
    ensures store.Valid()
    ensures store.Performed([Write.DeleteBoat(id)])
  {
    store.Commit(Write.DeleteBoat(id));
  }

  /** `filter(item => item.owner === owner)`: the entries whose boat this
      user owns, each as often as in q and in their original order. */
  function OwnedBy(q: seq<Entry<Boat>>, owner: string): (r: seq<Entry<Boat>>)
    ensures forall e :: e in r ==> e in q && Owns(e.record, owner)
    ensures forall e :: e in q && Owns(e.record, owner) ==> e in r
    ensures |r| <= |q|
  {
    if q == [] then []
    else
      var rest := OwnedBy(q[1..], owner);
      assert forall e :: e in q ==> e == q[0] || e in q[1..];
      if Owns(q[0].record, owner) then [q[0]] + rest else rest
  }

  /** The filter is exact: every owned entry as often as in q, no other
      entry, and in q's order. */
  lemma {:induction false} OwnedByFilters(q: seq<Entry<Boat>>, owner: string)
    ensures var r := OwnedBy(q, owner);
            && (forall e :: multiset(r)[e] == if Owns(e.record, owner) then multiset(q)[e] else 0)
            && Subsequence(r, q)
  {
    if q != [] {
      OwnedByFilters(q[1..], owner);
      assert q == [q[0]] + q[1..];
      var rest := OwnedBy(q[1..], owner);
      if Owns(q[0].record, owner) {
        assert ([q[0]] + rest)[1..] == rest;
      }
    }
  }

  /** Each entry of the page from c is a stored record. */
  lemma PageEntriesStored(t: Table<Boat>, c: nat, page: Page<Entry<Boat>>)
    requires WellFormed(t) && page == PageAt(Query(t), c, PageSize)
    ensures forall e :: e in page.items ==> e.id in t.rows && t.rows[e.id] == e.record
  {
    var q := Query(t);
    forall e | e in page.items ensures e.id in t.rows && t.rows[e.id] == e.record {
      var k :| 0 <= k < |page.items| && page.items[k] == e;
      assert e == q[c + k];
    }
  }

  /** Each entry of the page from c comes from one of the PageSize positions from c on. */
  lemma PageEntriesInWindow(t: Table<Boat>, c: nat, page: Page<Entry<Boat>>)
    requires WellFormed(t) && page == PageAt(Query(t), c, PageSize)
    ensures forall e :: e in page.items ==> exists i :: c <= i < |t.order| && i < c + PageSize && t.order[i] == e.id
  {
    var q := Query(t);
    forall e | e in page.items ensures exists i :: c <= i < |t.order| && i < c + PageSize && t.order[i] == e.id {
      var k :| 0 <= k < |page.items| && page.items[k] == e;
      assert e == q[c + k];
      assert t.order[c + k] == e.id;
    }
  }

  /** Every record at one of the PageSize positions from c is on the page. */
  lemma PageEntriesCover(t: Table<Boat>, c: nat, page: Page<Entry<Boat>>)
    requires WellFormed(t) && page == PageAt(Query(t), c, PageSize)
    ensures forall i :: c <= i < |t.order| && i < c + PageSize ==> Entry(t.order[i], t.rows[t.order[i]]) in page.items
  {
    var q := Query(t);
    forall i | c <= i < |t.order| && i < c + PageSize ensures Entry(t.order[i], t.rows[t.order[i]]) in page.items {
      assert |page.items| == Min(PageSize, |q| - c);
      assert page.items[i - c] == q[i];
    }
  }

  /** The owner filter of the page from c: owned, stored, from the window, and complete on it. */
  lemma OwnerPage(t: Table<Boat>, c: nat, owner: string)
    requires WellFormed(t)
    ensures var items := OwnedBy(PageAt(Query(t), c, PageSize).items, owner);
            && (forall e :: e in items ==> Owns(e.record, owner) && e.id in t.rows && t.rows[e.id] == e.record)
            && (forall e :: e in items ==> exists i :: c <= i < |t.order| && i < c + PageSize && t.order[i] == e.id)
            && (forall i :: c <= i < |t.order| && i < c + PageSize && Owns(t.rows[t.order[i]], owner) ==>
                  Entry(t.order[i], t.rows[t.order[i]]) in items)
            && |items| <= PageSize
  {
    var page := PageAt(Query(t), c, PageSize);
    var items := OwnedBy(page.items, owner);
    PageEntriesStored(t, c, page);
    PageEntriesInWindow(t, c, page);
    PageEntriesCover(t, c, page);
    assert |items| <= |page.items| <= PageSize;
  }

  /** get_owner_boats: one page of five boats from the cursor on, narrowed
      to those the user owns; the cursor for the next page is present
      exactly when boats remain after the five, so a page can hold fewer
      than five of the user's boats and still have a next page. */
  function GetOwnerBoats(t: Table<Boat>, cursor: Option<nat>, owner: string): (p: Page<Entry<Boat>>)
    requires WellFormed(t)
    ensures var c := if cursor.Some? then cursor.value else 0;
            && p.items == OwnedBy(PageAt(Query(t), c, PageSize).items, owner)
            && (forall e :: e in p.items ==> Owns(e.record, owner) && e.id in t.rows && t.rows[e.id] == e.record)
            && (forall e :: e in p.items ==> exists i :: c <= i < |t.order| && i < c + PageSize && t.order[i] == e.id)
            && (forall i :: c <= i < |t.order| && i < c + PageSize && Owns(t.rows[t.order[i]], owner) ==>
                  Entry(t.order[i], t.rows[t.order[i]]) in p.items)
            && |p.items| <= PageSize
            && (p.next.Some? <==> c + PageSize < |t.order|)
            && (p.next.Some? ==> p.next.value == c + PageSize)
  {
    var c := if cursor.Some? then cursor.value else 0;
    var page := PageAt(Query(t), c, PageSize);
    OwnerPage(t, c, owner);
    Page(OwnedBy(page.items, owner), page.next)
  }
}
