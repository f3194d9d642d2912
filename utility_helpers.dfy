/** src/API/utility/helpers.js: the second copy of the two unlink
    operations. Its boat-load unlink also skips a null list; its user-boat
    unlink takes (bid, uid), fetches the user first, rewrites the boat and
    then the user. */
module UtilityHelpers {
  import opened Records
  import opened Store
  import Helpers
  import Loads
  import Users

  /** delete_relationship_boat_load with the null guard: a missing or null
      loads list is left as it was; an array loses its first lid. A missing
      boat throws before any write, a missing load after the boat write. */
  function UnlinkBoatLoad(db: Db, bid: Id, lid: Id): (r: Run)
    ensures r.writes == [] <==> bid !in db.boats.rows
    ensures r.thrown <==> r.writes == [] || lid !in db.loads.rows
    ensures |r.writes| <= 2
    ensures r.writes != [] ==> r.writes[0] == SaveBoat(bid, WithoutLoad(db.boats.rows[bid], lid))
    ensures !r.thrown ==> |r.writes| == 2 && r.writes[1] == SaveLoad(lid, db.loads.rows[lid].(carrier := None))
  {
    if bid !in db.boats.rows then Run([], true)
    else
      var b := db.boats.rows[bid];
      var saved := SaveBoat(bid, WithoutLoad(b, lid));
      if lid !in db.loads.rows then Run([saved], true)
      else
        var l := db.loads.rows[lid];
        Run([saved, SaveLoad(lid, Load(l.volume, l.item, l.creationDate, None))], false)
  }

  /** The two copies agree except on a boat whose list is null: there the
      root copy throws before writing, and this one saves the boat back
      unchanged and goes on to clear the carrier. */
  lemma UnlinkBoatLoadVariants(db: Db, bid: Id, lid: Id)
    ensures bid in db.boats.rows && db.boats.rows[bid].loads.Null? ==>
              && Helpers.UnlinkBoatLoad(db, bid, lid) == Run([], true)
              && UnlinkBoatLoad(db, bid, lid).writes[0] == SaveBoat(bid, db.boats.rows[bid])
    ensures !(bid in db.boats.rows && db.boats.rows[bid].loads.Null?) ==>
              UnlinkBoatLoad(db, bid, lid) == Helpers.UnlinkBoatLoad(db, bid, lid)
  {
  }

  /** What a completed unlink leaves: the boat lost the first lid of its list
      (a missing or null list stays as it was), the load lost its carrier and
      kept its other three fields, and no other record changed. */
  lemma UnlinkBoatLoadEffect(db: Db, bid: Id, lid: Id)
    requires !UnlinkBoatLoad(db, bid, lid).thrown
    ensures var after := ApplyAll(db, UnlinkBoatLoad(db, bid, lid).writes);
            var b := db.boats.rows[bid];
            var l := db.loads.rows[lid];
            && after.boats.rows == db.boats.rows[bid := WithoutLoad(b, lid)]
            && after.loads.rows == db.loads.rows[lid := l.(carrier := None)]
            && after.users == db.users
            && (!b.loads.Ids? ==> after.boats.rows[bid] == b)
            && (b.loads.Ids? ==> after.boats.rows[bid].loads == Ids(RemoveFirst(b.loads.ids, lid)))
  {
    var r := UnlinkBoatLoad(db, bid, lid);
    ApplyTwo(db, r.writes[0], r.writes[1]);
  }

  /** delete_relationship_boat_load (null-guarded copy): the imperative version. */
  method DeleteRelationshipBoatLoad(store: Datastore, bid: Id, lid: Id) returns (ok: bool)
    requires store.Valid()
    modifies store
    ensures store.Valid()
    ensures var r := UnlinkBoatLoad(old(store.State()), bid, lid);
            store.Performed(r.writes) && ok == !r.thrown
  {
    if bid !in store.boats.rows {
      return false;                                   // boat[0].loads of a missing boat
    }
    var boat := store.boats.rows[bid];
    ghost var s0 := store.State();
    Helpers.SaveWithoutLoad(store, bid, boat, lid);   // the null guard: only an array is spliced
    var got := Lookup(store.loads, lid);              // get_load_func(lid)
    if got.None? {
      return false;                                   // loadObject[0].volume of a missing load
    }
    var l := got.value.record;
    ghost var s1 := store.State();
    Loads.UpdateLoad(store, lid, l.volume, l.item, l.creationDate, None);
    Chain(s0, s1, store.State(), [SaveBoat(bid, WithoutLoad(boat, lid))], [SaveLoad(lid, Load(l.volume, l.item, l.creationDate, None))]);
    ok := true;
  }

  /** `typeof` of a stored owner. The model does not tell a null owner from a
      missing one and takes both as null, whose typeof is "object"; an
      owner object is "object" too. */
  function TypeOf(owner: Option<Ref>): string {
    "object"
  }

  /** delete_relationship_user_boat(bid, uid) as written: the owner is
      deleted only when `typeof owner` equals the user's name, the boat is
      saved, and then bid's first occurrence is spliced out of the user's
      boats and the user is saved through update_user with its own name. A
      missing boat or user throws before any write; a user whose boats list
      is missing or null throws after the boat write. */
  function UnlinkUserBoat(db: Db, bid: Id, uid: Id): (r: Run)
    ensures r.writes == [] <==> bid !in db.boats.rows || uid !in db.users.rows
    ensures r.thrown <==> r.writes == [] || !db.users.rows[uid].boats.Ids?
    ensures |r.writes| <= 2
    ensures r.writes != [] ==>
              var b := db.boats.rows[bid];
              && r.writes[0].SaveBoat? && r.writes[0].id == bid
              && r.writes[0].boat == b.(owner := r.writes[0].boat.owner)
              && (r.writes[0].boat.owner == b.owner || r.writes[0].boat.owner == None)
    ensures !r.thrown ==>
              var u := db.users.rows[uid];
              |r.writes| == 2 && r.writes[1] == SaveUser(uid, User(u.name, Ids(RemoveFirst(u.boats.ids, bid))))
  {
    if bid !in db.boats.rows || uid !in db.users.rows then Run([], true)
    else
      var b := db.boats.rows[bid];
      var u := db.users.rows[uid];
      var saved := SaveBoat(bid, if TypeOf(b.owner) == u.name then b.(owner := None) else b);
      if !u.boats.Ids? then Run([saved], true)
      else Run([saved, SaveUser(uid, User(u.name, Ids(RemoveFirst(u.boats.ids, bid))))], false)
  }

  /** The boat is re-saved exactly as it was for every user whose name is not
      "object": the owner test compares a type name with a user name. */
  lemma UnlinkUserBoatKeepsOwner(db: Db, bid: Id, uid: Id)
    requires bid in db.boats.rows && uid in db.users.rows
    requires db.users.rows[uid].name != "object"
    ensures UnlinkUserBoat(db, bid, uid).writes[0] == SaveBoat(bid, db.boats.rows[bid])
  {
  }

  /** A boat owned by "alice" and a user "alice" who lists it: after a
      completed unlink the user no longer lists the boat, yet the boat still
      names alice as its owner. */
  lemma UnlinkUserBoatLeavesOwner()
    ensures var alice := Ref(1, "alice");
            var db := Db(Table(map[7 := Boat("Sea", "sloop", 20, Ids([]), Some(alice))], [7]),
                         Table(map[], []),
                         Table(map[1 := User("alice", Ids([7]))], [1]));
            var r := UnlinkUserBoat(db, 7, 1);
            var after := ApplyAll(db, r.writes);
            && !r.thrown
            && after.users.rows == map[1 := User("alice", Ids([]))]
            && after.boats.rows == db.boats.rows
            && db.boats.rows[7].owner == Some(alice)
  {
    var alice := Ref(1, "alice");
    var db := Db(Table(map[7 := Boat("Sea", "sloop", 20, Ids([]), Some(alice))], [7]),
                 Table(map[], []),
                 Table(map[1 := User("alice", Ids([7]))], [1]));
    var r := UnlinkUserBoat(db, 7, 1);
    ApplyTwo(db, r.writes[0], r.writes[1]);
  }

  /** The evidently intended delete_relationship_user_boat(bid, uid): as
      written, except that the boat's owner is removed, as the comments
      beside the test and the root copy of the helper both say. */
  function UnlinkUserBoatIntended(db: Db, bid: Id, uid: Id): (r: Run)
    ensures r.writes == [] <==> bid !in db.boats.rows || uid !in db.users.rows
    ensures r.thrown <==> r.writes == [] || !db.users.rows[uid].boats.Ids?
    ensures |r.writes| <= 2
    ensures r.writes != [] ==> r.writes[0] == SaveBoat(bid, db.boats.rows[bid].(owner := None))
    ensures !r.thrown ==>
              var u := db.users.rows[uid];
              |r.writes| == 2 && r.writes[1] == SaveUser(uid, User(u.name, Ids(RemoveFirst(u.boats.ids, bid))))
  {
    if bid !in db.boats.rows || uid !in db.users.rows then Run([], true)
    else
      var b := db.boats.rows[bid];
      var u := db.users.rows[uid];
      var saved := SaveBoat(bid, Boat(b.name, b.boatType, b.length, b.loads, None));
      if !u.boats.Ids? then Run([saved], true)
      else Run([saved, SaveUser(uid, User(u.name, Ids(RemoveFirst(u.boats.ids, bid))))], false)
  }

  /** After the intended unlink completes the boat has no owner and kept
      everything else, the user kept its name and lists bid once less, and
      the loads are untouched. */
  lemma UnlinkUserBoatIntendedEffect(db: Db, bid: Id, uid: Id)
    requires !UnlinkUserBoatIntended(db, bid, uid).thrown
    ensures var after := ApplyAll(db, UnlinkUserBoatIntended(db, bid, uid).writes);
            var b := db.boats.rows[bid];
            var u := db.users.rows[uid];
            && after.boats.rows == db.boats.rows[bid := b.(owner := None)]
            && after.users.rows == db.users.rows[uid := User(u.name, Ids(RemoveFirst(u.boats.ids, bid)))]
            && after.loads == db.loads
  {
    var r := UnlinkUserBoatIntended(db, bid, uid);
    ApplyTwo(db, r.writes[0], r.writes[1]);
  }

  /** The second callback of delete_relationship_user_boat(bid, uid): splice
      bid's first occurrence out of the user's list in place and save the
      user through update_user under its own name. */
  method PutUserWithout(store: Datastore, uid: Id, name: string, boats: seq<Id>, bid: Id)
    requires store.Valid()
    modifies store
    ensures store.Valid()
    ensures store.Performed([SaveUser(uid, User(name, Ids(RemoveFirst(boats, bid))))])
  {
    var list := boats;
    var i := FindIndex(list, bid);
    if i > -1 {
      list := list[..i] + list[i + 1..];              // splice(boatIndex, 1)
    }
    SpliceRemovesFirst(boats, bid);
    Users.UpdateUser(store, uid, name, Ids(list));
  }

  /** delete_relationship_user_boat(bid, uid): the imperative version of the
      code as written. The user is fetched before the boat. */
  method DeleteRelationshipUserBoat(store: Datastore, bid: Id, uid: Id) returns (ok: bool)
    requires store.Valid()
    modifies store
    ensures store.Valid()
    ensures var r := UnlinkUserBoat(old(store.State()), bid, uid);
            store.Performed(r.writes) && ok == !r.thrown
  {
    ghost var s0 := store.State();
    ghost var r := UnlinkUserBoat(s0, bid, uid);
    var gotUser := Lookup(store.users, uid);          // get_user_func(uid)
    if bid !in store.boats.rows || gotUser.None? {
      return false;                                   // boat[0].owner, userObject[0].name
    }
    var user := gotUser.value.record;
    var boat := store.boats.rows[bid];
    if TypeOf(boat.owner) == user.name {
      boat := boat.(owner := None);                   // delete boat[0].owner
    }
    if !user.boats.Ids? {
      assert r.writes == [SaveBoat(bid, boat)];
      store.Commit(SaveBoat(bid, boat));
      return false;                                   // findIndex on a missing or null list
    }
    ghost var saved := SaveUser(uid, User(user.name, Ids(RemoveFirst(user.boats.ids, bid))));
    assert r.writes == [SaveBoat(bid, boat), saved];
    store.Commit(SaveBoat(bid, boat));
    ghost var s1 := store.State();
    PutUserWithout(store, uid, user.name, user.boats.ids, bid);
    Chain(s0, s1, store.State(), [SaveBoat(bid, boat)], [saved]);
    ok := true;
  }
}
