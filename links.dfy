/** The cross-record invariants of the relationship engine: a load's carrier
    and the boat's loads list agree, and a boat's owner and the user's boats
    list agree. The lemmas show which requests keep them. */
module Links {
  import opened Records
  import opened Store
  import Boats
  import Helpers
  import LoadRoutes
  import BoatRoutes

  /** A load that names a carrier is listed exactly once by that boat. */
  ghost predicate CarriersListed(db: Db) {
    forall lid :: lid in db.loads.rows && db.loads.rows[lid].carrier.Some? ==>
      var bid := db.loads.rows[lid].carrier.value.id;
      bid in db.boats.rows && Count(lid, Elements(db.boats.rows[bid].loads)) == 1
  }

  /** A load a boat lists exists and names that boat as its carrier. */
  ghost predicate ListedCarried(db: Db) {
    forall bid, lid :: bid in db.boats.rows && lid in Elements(db.boats.rows[bid].loads) ==>
      lid in db.loads.rows && db.loads.rows[lid].carrier.Some? && db.loads.rows[lid].carrier.value.id == bid
  }

  ghost predicate Linked(db: Db) {
    CarriersListed(db) && ListedCarried(db)
  }

  /** A boat that names an owner is listed exactly once by that user. */
  ghost predicate OwnersListed(db: Db) {
    forall bid :: bid in db.boats.rows && db.boats.rows[bid].owner.Some? ==>
      var uid := db.boats.rows[bid].owner.value.id;
      uid in db.users.rows && Count(bid, Elements(db.users.rows[uid].boats)) == 1
  }

  /** A boat a user lists exists and names that user as its owner. */
  ghost predicate ListedOwned(db: Db) {
    forall uid, bid :: uid in db.users.rows && bid in Elements(db.users.rows[uid].boats) ==>
      bid in db.boats.rows && db.boats.rows[bid].owner.Some? && db.boats.rows[bid].owner.value.id == uid
  }

  ghost predicate Owned(db: Db) {
    OwnersListed(db) && ListedOwned(db)
  }

  ghost predicate Consistent(db: Db) {
    Linked(db) && Owned(db)
  }

  /** Under the invariant, a load with no carrier is listed by no boat. */
  lemma UncarriedUnlisted(db: Db, lid: Id, bid: Id)
    requires ListedCarried(db)
    requires lid !in db.loads.rows || db.loads.rows[lid].carrier.None?
    requires bid in db.boats.rows
    ensures Count(lid, Elements(db.boats.rows[bid].loads)) == 0
  {
    CountMember(lid, Elements(db.boats.rows[bid].loads));
  }

  /** Writes that keep every boat's key and owner and every user keep the
      ownership invariant. */
  lemma SameOwnersKeepOwned(db: Db, after: Db)
    requires Owned(db)
    requires forall bid :: bid in after.boats.rows <==> bid in db.boats.rows
    requires forall bid :: bid in db.boats.rows ==> after.boats.rows[bid].owner == db.boats.rows[bid].owner
    requires after.users == db.users
    ensures Owned(after)
  {
  }

  /** A completed link keeps both invariants: the load was listed nowhere
      (it had no carrier), so the boat now lists it exactly once. */
  lemma LinkKeepsConsistent(db: Db, principal: Option<string>, bid: Id, lid: Id)
    requires Consistent(db)
    requires BoatRoutes.OnLink(db, principal, bid, lid).reply == NoContent
    ensures Consistent(ApplyAll(db, BoatRoutes.OnLink(db, principal, bid, lid).writes))
  {
    var after := ApplyAll(db, BoatRoutes.OnLink(db, principal, bid, lid).writes);
    Boats.ReserveLinks(db, bid, lid);
    ReservedCarriersListed(db, after, bid, lid);
    ReservedListedCarried(db, after, bid, lid);
    SameOwnersKeepOwned(db, after);
  }

  /** After a reservation of an uncarried load every carrier still lists its
      loads exactly once. */
  lemma ReservedCarriersListed(db: Db, after: Db, bid: Id, lid: Id)
    requires Linked(db) && bid in db.boats.rows && lid in db.loads.rows && db.loads.rows[lid].carrier.None?
    requires var b := db.boats.rows[bid];
             var l := db.loads.rows[lid];
             && after.boats.rows == db.boats.rows[bid := b.(loads := Ids(Elements(b.loads) + [lid]))]
             && after.loads.rows == db.loads.rows[lid := l.(carrier := Some(Ref(bid, b.name)))]
    ensures CarriersListed(after)
  {
    var old_ := Elements(db.boats.rows[bid].loads);
    assert Elements(after.boats.rows[bid].loads) == old_ + [lid];
    UncarriedUnlisted(db, lid, bid);
    CountAppend(lid, old_, [lid]);
    forall l | l in after.loads.rows && after.loads.rows[l].carrier.Some?
      ensures var c := after.loads.rows[l].carrier.value.id;
              c in after.boats.rows && Count(l, Elements(after.boats.rows[c].loads)) == 1
    {
      if l != lid && db.loads.rows[l].carrier.value.id == bid {
        CountAppend(l, old_, [lid]);
      }
    }
  }

  /** After a reservation of an uncarried load every listed load still
      names the boat that lists it. */
  lemma ReservedListedCarried(db: Db, after: Db, bid: Id, lid: Id)
    requires Linked(db) && bid in db.boats.rows && lid in db.loads.rows && db.loads.rows[lid].carrier.None?
    requires var b := db.boats.rows[bid];
             var l := db.loads.rows[lid];
             && after.boats.rows == db.boats.rows[bid := b.(loads := Ids(Elements(b.loads) + [lid]))]
             && after.loads.rows == db.loads.rows[lid := l.(carrier := Some(Ref(bid, b.name)))]
    ensures ListedCarried(after)
  {
    var old_ := Elements(db.boats.rows[bid].loads);
    assert Elements(after.boats.rows[bid].loads) == old_ + [lid];
    forall c, l | c in after.boats.rows && l in Elements(after.boats.rows[c].loads)
      ensures l in after.loads.rows && after.loads.rows[l].carrier.Some? && after.loads.rows[l].carrier.value.id == c
    {
      if c != bid && l == lid {
        UncarriedUnlisted(db, lid, c);
        CountMember(lid, Elements(db.boats.rows[c].loads));
      } else if c == bid && l != lid {
        assert l in old_;
      }
    }
  }

  /** A completed boat-load unlink of a linked pair keeps both invariants and
      leaves no back reference: the boat no longer lists the load and the
      load has no carrier. */
  lemma UnlinkKeepsConsistent(db: Db, bid: Id, lid: Id)
    requires Consistent(db)
    requires lid in db.loads.rows && db.loads.rows[lid].carrier.Some? && db.loads.rows[lid].carrier.value.id == bid
    requires !Helpers.UnlinkBoatLoad(db, bid, lid).thrown
    ensures var after := ApplyAll(db, Helpers.UnlinkBoatLoad(db, bid, lid).writes);
            && Consistent(after)
            && bid in after.boats.rows && lid !in Elements(after.boats.rows[bid].loads)
            && lid in after.loads.rows && after.loads.rows[lid].carrier.None?
  {
    var after := ApplyAll(db, Helpers.UnlinkBoatLoad(db, bid, lid).writes);
    Helpers.UnlinkBoatLoadEffect(db, bid, lid);
    var list := Elements(db.boats.rows[bid].loads);
    assert Count(lid, list) == 1;
    assert db.boats.rows[bid].loads.Ids?;
    var rest := RemoveFirst(list, lid);
    CountMember(lid, list);
    CountMember(lid, rest);
    assert Elements(after.boats.rows[bid].loads) == rest;
    forall l | l in after.loads.rows && after.loads.rows[l].carrier.Some?
      ensures var c := after.loads.rows[l].carrier.value.id;
              c in after.boats.rows && Count(l, Elements(after.boats.rows[c].loads)) == 1
    {
    }
    forall c, l | c in after.boats.rows && l in Elements(after.boats.rows[c].loads)
      ensures l in after.loads.rows && after.loads.rows[l].carrier.Some? && after.loads.rows[l].carrier.value.id == c
    {
      if c == bid {
        assert l in list && l != lid;
      }
    }
    SameOwnersKeepOwned(db, after);
  }

  /** The unlink request keeps the invariants. */
  lemma UnlinkRequestKeepsConsistent(db: Db, bid: Id, lid: Id)
    requires Consistent(db)
    requires BoatRoutes.OnUnlink(db, bid, lid).reply == NoContent
    ensures Consistent(ApplyAll(db, BoatRoutes.OnUnlink(db, bid, lid).writes))
  {
    UnlinkKeepsConsistent(db, bid, lid);
  }

  /** Deleting a load no boat lists keeps the invariants. */
  lemma DeleteUncarriedKeepsConsistent(db: Db, lid: Id)
    requires Consistent(db)
    requires lid in db.loads.rows && db.loads.rows[lid].carrier.None?
    ensures Consistent(Apply(db, Write.DeleteLoad(lid)))
  {
    var after := Apply(db, Write.DeleteLoad(lid));
    forall c, l | c in after.boats.rows && l in Elements(after.boats.rows[c].loads)
      ensures l in after.loads.rows && after.loads.rows[l].carrier.Some? && after.loads.rows[l].carrier.value.id == c
    {
      UncarriedUnlisted(db, lid, c);
      CountMember(lid, Elements(db.boats.rows[c].loads));
    }
  }

  /** An answered load delete keeps the invariants, whether the load was
      carried (unlinked first) or not. */
  lemma LoadDeleteKeepsConsistent(db: Db, id: Id)
    requires Consistent(db)
    requires LoadRoutes.OnDelete(db, id).reply == NoContent
    ensures Consistent(ApplyAll(db, LoadRoutes.OnDelete(db, id).writes))
  {
    var l := db.loads.rows[id];
    if l.carrier.None? {
      ApplyOne(db, Write.DeleteLoad(id));
      DeleteUncarriedKeepsConsistent(db, id);
    } else {
      var bid := l.carrier.value.id;
      var u := Helpers.UnlinkBoatLoad(db, bid, id);
      UnlinkKeepsConsistent(db, bid, id);
      var mid := ApplyAll(db, u.writes);
      DeleteUncarriedKeepsConsistent(mid, id);
      ApplyAllAppend(db, u.writes, [Write.DeleteLoad(id)]);
      ApplyOne(mid, Write.DeleteLoad(id));
    }
  }

  /** A load posted without a carrier keeps the invariants: its fresh id is
      listed by no boat. */
  lemma PostUncarriedKeepsConsistent(db: Db, body: LoadRoutes.LoadBody)
    requires Consistent(db) && WellFormed(db.loads)
    requires body.carrier.None?
    ensures Consistent(ApplyAll(db, LoadRoutes.OnPost(db, body).writes))
  {
    if LoadRoutes.Complete(body) {
      var id := FreshId(db.loads);
      ApplyOne(db, SaveLoad(id, LoadRoutes.FromBody(body)));
      var after := ApplyAll(db, LoadRoutes.OnPost(db, body).writes);
      forall c | c in db.boats.rows
        ensures Count(id, Elements(db.boats.rows[c].loads)) == 0
      {
        UncarriedUnlisted(db, id, c);
      }
    }
  }

  /** An answered boat delete keeps both invariants: the loads it carried
      are all listed by it and so were all released, and its owner no longer
      lists it. */
  lemma BoatDeleteKeepsConsistent(db: Db, principal: Option<string>, id: Id)
    requires Consistent(db)
    requires BoatRoutes.OnDelete(db, principal, id).reply == NoContent
    ensures Consistent(ApplyAll(db, BoatRoutes.OnDelete(db, principal, id).writes))
  {
    var after := ApplyAll(db, BoatRoutes.OnDelete(db, principal, id).writes);
    BoatRoutes.DeleteCascades(db, principal, id);
    LoadsReleased(db, after, id);
    if db.boats.rows[id].owner.Some? {
      OwnerReleased(db, after, id);
    } else {
      SameOwnersKeepOwnedWithout(db, after, id);
    }
  }

  /** The load half of the boat delete: every load the boat listed lost its
      carrier, and every other load and boat is as it was. */
  lemma LoadsReleased(db: Db, after: Db, id: Id)
    requires Linked(db) && id in db.boats.rows
    requires id !in after.boats.rows
    requires forall other :: other != id && other in db.boats.rows ==>
               other in after.boats.rows && after.boats.rows[other] == db.boats.rows[other]
    requires forall other :: other in after.boats.rows ==> other in db.boats.rows
    requires forall lid :: lid in Elements(db.boats.rows[id].loads) ==> lid in after.loads.rows && after.loads.rows[lid].carrier.None?
    requires forall lid :: lid !in Elements(db.boats.rows[id].loads) && lid in db.loads.rows ==>
               lid in after.loads.rows && after.loads.rows[lid] == db.loads.rows[lid]
    requires forall lid :: lid in after.loads.rows ==> lid in db.loads.rows
    ensures Linked(after)
  {
    var listed := Elements(db.boats.rows[id].loads);
    forall l | l in after.loads.rows && after.loads.rows[l].carrier.Some?
      ensures var c := after.loads.rows[l].carrier.value.id;
              c in after.boats.rows && Count(l, Elements(after.boats.rows[c].loads)) == 1
    {
      assert l !in listed;
      CountMember(l, listed);
    }
    forall c, l | c in after.boats.rows && l in Elements(after.boats.rows[c].loads)
      ensures l in after.loads.rows && after.loads.rows[l].carrier.Some? && after.loads.rows[l].carrier.value.id == c
    {
      assert c != id;
      assert l !in listed;
    }
  }

  /** The ownership half of the boat delete: the owner lost its one listing
      of the boat, and every other boat and listing is as it was. */
  lemma OwnerReleased(db: Db, after: Db, id: Id)
    requires Owned(db) && id in db.boats.rows && db.boats.rows[id].owner.Some?
    requires id !in after.boats.rows
    requires forall other :: other != id && other in db.boats.rows ==>
               other in after.boats.rows && after.boats.rows[other] == db.boats.rows[other]
    requires forall other :: other in after.boats.rows ==> other in db.boats.rows
    requires var uid := db.boats.rows[id].owner.value.id;
             uid in db.users.rows && after.users.rows == db.users.rows[uid := WithoutBoat(db.users.rows[uid], id)]
    ensures Owned(after)
  {
    var uid := db.boats.rows[id].owner.value.id;
    var list := Elements(db.users.rows[uid].boats);
    assert Count(id, list) == 1;
    CountMember(id, list);
    assert db.users.rows[uid].boats.Ids?;
    assert Elements(after.users.rows[uid].boats) == RemoveFirst(list, id);
    OwnersStillListed(db, after, id);
    ListingsStillOwned(db, after, id);
  }

  /** After the owner release every remaining boat's owner still lists it once. */
  lemma OwnersStillListed(db: Db, after: Db, id: Id)
    requires OwnersListed(db) && id in db.boats.rows && db.boats.rows[id].owner.Some?
    requires forall other :: other != id && other in db.boats.rows ==>
               other in after.boats.rows && after.boats.rows[other] == db.boats.rows[other]
    requires forall other :: other in after.boats.rows ==> other in db.boats.rows
    requires id !in after.boats.rows
    requires var uid := db.boats.rows[id].owner.value.id;
             && uid in db.users.rows && db.users.rows[uid].boats.Ids?
             && after.users.rows == db.users.rows[uid := WithoutBoat(db.users.rows[uid], id)]
    ensures OwnersListed(after)
  {
    var uid := db.boats.rows[id].owner.value.id;
    forall c | c in after.boats.rows && after.boats.rows[c].owner.Some?
      ensures var u := after.boats.rows[c].owner.value.id;
              u in after.users.rows && Count(c, Elements(after.users.rows[u].boats)) == 1
    {
      assert c != id;
      var u := after.boats.rows[c].owner.value.id;
      assert u == db.boats.rows[c].owner.value.id;
      if u == uid {
        assert Elements(after.users.rows[u].boats) == RemoveFirst(Elements(db.users.rows[uid].boats), id);
      }
    }
  }

  /** After the owner release every remaining listing names an existing
      boat owned by the listing user. */
  lemma ListingsStillOwned(db: Db, after: Db, id: Id)
    requires ListedOwned(db) && id in db.boats.rows && db.boats.rows[id].owner.Some?
    requires forall other :: other != id && other in db.boats.rows ==>
               other in after.boats.rows && after.boats.rows[other] == db.boats.rows[other]
    requires var uid := db.boats.rows[id].owner.value.id;
             && uid in db.users.rows && db.users.rows[uid].boats.Ids?
             && Count(id, Elements(db.users.rows[uid].boats)) == 1
             && after.users.rows == db.users.rows[uid := WithoutBoat(db.users.rows[uid], id)]
    ensures ListedOwned(after)
  {
    var uid := db.boats.rows[id].owner.value.id;
    var list := Elements(db.users.rows[uid].boats);
    var rest := RemoveFirst(list, id);
    CountMember(id, rest);
    assert Elements(after.users.rows[uid].boats) == rest;
    forall u, c | u in after.users.rows && c in Elements(after.users.rows[u].boats)
      ensures c in after.boats.rows && after.boats.rows[c].owner.Some? && after.boats.rows[c].owner.value.id == u
    {
      if u == uid {
        assert c in list && c != id;
      } else {
        assert c != id;
      }
    }
  }

  /** The ownership half of the boat delete for a boat without an owner. */
  lemma SameOwnersKeepOwnedWithout(db: Db, after: Db, id: Id)
    requires Owned(db) && id in db.boats.rows && db.boats.rows[id].owner.None?
    requires id !in after.boats.rows
    requires forall other :: other != id && other in db.boats.rows ==>
               other in after.boats.rows && after.boats.rows[other] == db.boats.rows[other]
    requires forall other :: other in after.boats.rows ==> other in db.boats.rows
    requires after.users == db.users
    ensures Owned(after)
  {
    forall u, c | u in after.users.rows && c in Elements(after.users.rows[u].boats)
      ensures c in after.boats.rows && after.boats.rows[c].owner.Some? && after.boats.rows[c].owner.value.id == u
    {
      assert c != id;
    }
  }

  /** A PATCH that supplies no loads list keeps the load links: the merge
      keeps the stored list. */
  lemma PatchWithoutLoadsKeepsLinked(db: Db, principal: Option<string>, id: Id, body: BoatRoutes.BoatBody)
    requires Linked(db) && WellFormed(db.boats)
    requires !body.loads.Ids?
    ensures Linked(ApplyAll(db, BoatRoutes.OnPatch(db, principal, id, body).writes))
  {
    var r := BoatRoutes.OnPatch(db, principal, id, body);
    if r.writes != [] {
      ApplyOne(db, r.writes[0]);
      var after := ApplyAll(db, r.writes);
      assert after.boats.rows[id].loads == db.boats.rows[id].loads;
      assert forall c :: c in after.boats.rows ==> after.boats.rows[c].loads == db.boats.rows[c].loads;
    }
  }

  /** Boat 1, owned by alice (user 9), carries load 2. */
  function CarriedExample(): Db {
    Db(Table(map[1 := Boat("Sea", "sloop", 20, Ids([2]), Some(Ref(9, "alice")))], [1]),
       Table(map[2 := Load(5, "rope", "2024-01-01", Some(Ref(1, "Sea")))], [2]),
       Table(map[9 := User("alice", Ids([1]))], [9]))
  }

  lemma CarriedExampleConsistent()
    ensures Consistent(CarriedExample())
  {
    assert Count(2, [2]) == 1;
    assert Count(1, [1]) == 1;
  }

  /** A PUT that leaves out loads stores the boat without a list, although
      the loads it carried still name it: boat 1 carrying load 2 is a
      consistent store, and the accepted PUT breaks it. */
  lemma PutWithoutLoadsOrphans()
    ensures var db := CarriedExample();
            var body := BoatRoutes.BoatBody(Some("Sky"), Some("sloop"), Some(20), Undefined, Some(Ref(9, "alice")));
            var r := BoatRoutes.OnPut(db, Some("alice"), 1, body);
            && Consistent(db)
            && r.reply == SeeOther(1)
            && !CarriersListed(ApplyAll(db, r.writes))
  {
    var db := CarriedExample();
    var body := BoatRoutes.BoatBody(Some("Sky"), Some("sloop"), Some(20), Undefined, Some(Ref(9, "alice")));
    CarriedExampleConsistent();
    assert Boats.NameAvailable(Some("Sky"), db.boats);
    var r := BoatRoutes.OnPut(db, Some("alice"), 1, body);
    ApplyOne(db, r.writes[0]);
    var after := ApplyAll(db, r.writes);
    assert after.loads == db.loads;
    assert after.boats.rows[1].loads == Undefined;
    assert after.loads.rows[2].carrier == Some(Ref(1, "Sea"));
    assert Count(2, Elements(after.boats.rows[1].loads)) == 0;
  }
}
