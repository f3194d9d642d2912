/** helpers.js: the two unlink operations the boat and load services use.
    Each fetches one record, splices the other's id out of its list in
    place, saves it, and then rewrites the other record with its back
    reference set to null. */
module Helpers {
  import opened Records
  import opened Store
  import Loads
  import Boats

  /** delete_relationship_boat_load(bid, lid) as a sequence of writes. A
      missing boat, or a null loads list (typeof null is not 'undefined', so
      findIndex is called on null), throws before any write; a missing list
      is saved back as it was. A missing load throws after the boat write. */
  function UnlinkBoatLoad(db: Db, bid: Id, lid: Id): (r: Run)
    ensures r.writes == [] <==> bid !in db.boats.rows || db.boats.rows[bid].loads.Null?
    ensures r.thrown <==> r.writes == [] || lid !in db.loads.rows
    ensures |r.writes| <= 2
    ensures r.writes != [] ==> r.writes[0] == SaveBoat(bid, WithoutLoad(db.boats.rows[bid], lid))
    ensures !r.thrown ==> |r.writes| == 2 && r.writes[1] == SaveLoad(lid, db.loads.rows[lid].(carrier := None))
    ensures forall w :: w in r.writes ==> (w.SaveBoat? && w.id == bid) || (w.SaveLoad? && w.id == lid)
  {
    if bid !in db.boats.rows then Run([], true)
    else
      var b := db.boats.rows[bid];
      if b.loads.Null? then Run([], true)
      else
        var saved := SaveBoat(bid, WithoutLoad(b, lid));
        if lid !in db.loads.rows then Run([saved], true)
        else
          var l := db.loads.rows[lid];
          Run([saved, SaveLoad(lid, Load(l.volume, l.item, l.creationDate, None))], false)
  }

  /** What a completed unlink leaves: the boat's list lost its first lid
      (a missing list stays missing) and nothing else of the boat changed;
      the load lost its carrier and kept volume, item and creation date;
      no other record changed. */
  lemma UnlinkBoatLoadEffect(db: Db, bid: Id, lid: Id)
    requires !UnlinkBoatLoad(db, bid, lid).thrown
    ensures var after := ApplyAll(db, UnlinkBoatLoad(db, bid, lid).writes);
            var b := db.boats.rows[bid];
            var l := db.loads.rows[lid];
            && after.boats.rows == db.boats.rows[bid := WithoutLoad(b, lid)]
            && after.loads.rows == db.loads.rows[lid := l.(carrier := None)]
            && after.users == db.users
            && (b.loads.Undefined? ==> after.boats.rows[bid] == b)
            && (b.loads.Ids? ==> after.boats.rows[bid].loads == Ids(RemoveFirst(b.loads.ids, lid)))
            && after.boats.rows[bid].owner == b.owner
            && after.boats.rows[bid].name == b.name
  {
    var r := UnlinkBoatLoad(db, bid, lid);
    ApplyTwo(db, r.writes[0], r.writes[1]);
  }

  /** When lid is listed at most once, unlinking a second time finds nothing
      left to remove and rewrites every record as the first call left it. */
  lemma UnlinkBoatLoadTwice(db: Db, bid: Id, lid: Id)
    requires !UnlinkBoatLoad(db, bid, lid).thrown
    requires Count(lid, Elements(db.boats.rows[bid].loads)) <= 1
    ensures var once := ApplyAll(db, UnlinkBoatLoad(db, bid, lid).writes);
            var again := UnlinkBoatLoad(once, bid, lid);
            !again.thrown && ApplyAll(once, again.writes) == once
  {
    var r := UnlinkBoatLoad(db, bid, lid);
    UnlinkBoatLoadEffect(db, bid, lid);
    var once := ApplyAll(db, r.writes);
    var b := db.boats.rows[bid];
    if b.loads.Ids? {
      CountMember(lid, RemoveFirst(b.loads.ids, lid));
    }
    assert WithoutLoad(once.boats.rows[bid], lid) == once.boats.rows[bid];
    var again := UnlinkBoatLoad(once, bid, lid);
    ApplyTwo(once, again.writes[0], again.writes[1]);
    assert once.boats.rows[bid := once.boats.rows[bid]] == once.boats.rows;
    assert once.loads.rows[lid := once.loads.rows[lid]] == once.loads.rows;
  }

  /** delete_relationship_boat_load: the imperative version. */
  method DeleteRelationshipBoatLoad(store: Datastore, bid: Id, lid: Id) returns (ok: bool)
    requires store.Valid()
    modifies store
    ensures store.Valid()
    ensures var r := UnlinkBoatLoad(old(store.State()), bid, lid);
            store.Performed(r.writes) && ok == !r.thrown
  {
    if bid !in store.boats.rows {
      return false;                                   // boat[0].loads of a missing boat
    }
    var boat := store.boats.rows[bid];
    if boat.loads.Null? {
      return false;                                   // null.findIndex
    }
    ghost var s0 := store.State();
    SaveWithoutLoad(store, bid, boat, lid);
    var got := Lookup(store.loads, lid);              // get_load_func(lid)
    if got.None? {
      return false;                                   // loadObject[0].volume of a missing load
    }
    var l := got.value.record;
    ghost var s1 := store.State();
    Loads.UpdateLoad(store, lid, l.volume, l.item, l.creationDate, None);
    Chain(s0, s1, store.State(), [SaveBoat(bid, WithoutLoad(boat, lid))], [SaveLoad(lid, Load(l.volume, l.item, l.creationDate, None))]);
    ok := true;
  }

  /** Splice lid's first occurrence out of the fetched boat's list in place,
      when the list is an array, and save the boat. */
  method SaveWithoutLoad(store: Datastore, bid: Id, boat: Boat, lid: Id)
    requires store.Valid()
    modifies store
    ensures store.Valid()
    ensures store.Performed([SaveBoat(bid, WithoutLoad(boat, lid))])
    ensures store.State() == Apply(old(store.State()), SaveBoat(bid, WithoutLoad(boat, lid)))
  {
    var saved := boat;
    if saved.loads.Ids? {
      var list := saved.loads.ids;
      var i := FindIndex(list, lid);
      if i > -1 {
        list := list[..i] + list[i + 1..];            // splice(loadIndex, 1)
      }
      SpliceRemovesFirst(boat.loads.ids, lid);
      saved := saved.(loads := Ids(list));
    }
    store.Commit(SaveBoat(bid, saved));
  }

  /** The first half of delete_relationship_user_boat(uid, bid): fetch the
      user, splice bid out of its boats (a missing list is skipped, a null
      one throws) and save the user. A missing user throws before any write. */
  function UserSide(db: Db, uid: Id, bid: Id): (r: Run)
    ensures r.writes == [] <==> r.thrown
    ensures r.thrown <==> uid !in db.users.rows || db.users.rows[uid].boats.Null?
    ensures !r.thrown ==> r.writes == [SaveUser(uid, WithoutBoat(db.users.rows[uid], bid))]
  {
    if uid !in db.users.rows then Run([], true)
    else
      var u := db.users.rows[uid];
      if u.boats.Null? then Run([], true)
      else Run([SaveUser(uid, WithoutBoat(u, bid))], false)
  }

  /** delete_relationship_user_boat(uid, bid) as a sequence of writes: the
      user side, then the boat is fetched again and rewritten through
      update_boat with owner null and name, type, length and loads as they
      were. A missing boat throws after the user write. */
  function UnlinkUserBoat(db: Db, uid: Id, bid: Id): (r: Run)
    ensures r.writes == [] <==> uid !in db.users.rows || db.users.rows[uid].boats.Null?
    ensures r.thrown <==> r.writes == [] || bid !in db.boats.rows
    ensures |r.writes| <= 2
    ensures r.writes != [] ==> r.writes[0] == SaveUser(uid, WithoutBoat(db.users.rows[uid], bid))
    ensures !r.thrown ==> |r.writes| == 2 && r.writes[1] == SaveBoat(bid, db.boats.rows[bid].(owner := None))
    ensures forall w :: w in r.writes ==> (w.SaveUser? && w.id == uid) || (w.SaveBoat? && w.id == bid)
  {
    var u := UserSide(db, uid, bid);
    if u.thrown then u
    else if bid !in db.boats.rows then Run(u.writes, true)
    else
      var b := db.boats.rows[bid];
      Run(u.writes + [SaveBoat(bid, Boat(b.name, b.boatType, b.length, b.loads, None))], false)
  }

  /** What a completed user unlink leaves: the user's list lost its first
      bid, the boat has no owner and kept name, type, length and loads, and
      no other record changed. */
  lemma UnlinkUserBoatEffect(db: Db, uid: Id, bid: Id)
    requires !UnlinkUserBoat(db, uid, bid).thrown
    ensures var after := ApplyAll(db, UnlinkUserBoat(db, uid, bid).writes);
            var u := db.users.rows[uid];
            var b := db.boats.rows[bid];
            && after.users.rows == db.users.rows[uid := WithoutBoat(u, bid)]
            && (u.boats.Undefined? ==> after.users.rows[uid] == u)
            && (u.boats.Ids? ==> after.users.rows[uid].boats == Ids(RemoveFirst(u.boats.ids, bid)))
            && after.boats.rows == db.boats.rows[bid := b.(owner := None)]
            && after.boats.rows[bid].loads == b.loads
            && after.loads == db.loads
  {
    var r := UnlinkUserBoat(db, uid, bid);
    ApplyTwo(db, r.writes[0], r.writes[1]);
  }

  /** delete_relationship_user_boat: the imperative version. */
  method DeleteRelationshipUserBoat(store: Datastore, uid: Id, bid: Id) returns (ok: bool)
    requires store.Valid()
    modifies store
    ensures store.Valid()
    ensures var r := UnlinkUserBoat(old(store.State()), uid, bid);
            store.Performed(r.writes) && ok == !r.thrown
  {
    if uid !in store.users.rows {
      return false;                                   // user[0].boats of a missing user
    }
    var user := store.users.rows[uid];
    if user.boats.Null? {
      return false;                                   // null.findIndex
    }
    ghost var s0 := store.State();
    SaveWithoutBoat(store, uid, user, bid);
    var got := Lookup(store.boats, bid);              // get_boat_func(bid)
    if got.None? {
      return false;                                   // boatObject[0].name of a missing boat
    }
    var b := got.value.record;
    ghost var s1 := store.State();
    Boats.UpdateBoat(store, bid, b.name, b.boatType, b.length, b.loads, None);
    Chain(s0, s1, store.State(), [SaveUser(uid, WithoutBoat(user, bid))], [SaveBoat(bid, Boat(b.name, b.boatType, b.length, b.loads, None))]);
    ok := true;
  }

  /** Splice bid's first occurrence out of the fetched user's list in place,
      when the list is an array, and save the user. */
  method SaveWithoutBoat(store: Datastore, uid: Id, user: User, bid: Id)
    requires store.Valid()
    modifies store
    ensures store.Valid()
    ensures store.Performed([SaveUser(uid, WithoutBoat(user, bid))])
    ensures store.State() == Apply(old(store.State()), SaveUser(uid, WithoutBoat(user, bid)))
  {
    var saved := user;
    if saved.boats.Ids? {
      var list := saved.boats.ids;
      var i := FindIndex(list, bid);
      if i > -1 {
        list := list[..i] + list[i + 1..];            // splice(boatIndex, 1)
      }
      SpliceRemovesFirst(user.boats.ids, bid);
      saved := saved.(boats := Ids(list));
    }
    store.Commit(SaveUser(uid, saved));
  }
}
