/** The request handlers of boats.js: create, overwrite, merge, link a load,
    unlink a load, and delete a boat. The principal is the name the verified
    token carries, None when there is no usable token. Each handler is a pure
    function of the store giving the writes and the answer, and a method that
    makes those writes on the store. */
module BoatRoutes {
  import opened Records
  import opened Store
  import Boats
  import Helpers

  /** The attributes of a request body; None (and Undefined for loads) stands
      for a missing or null attribute. */
  datatype BoatBody = BoatBody(name: Option<string>, boatType: Option<string>, length: Option<int>, loads: IdList, owner: Option<Ref>)

  /** All three required attributes are truthy. */
  predicate Complete(body: BoatBody) {
    Given(body.name) && Given(body.boatType) && GivenNumber(body.length)
  }

  /** None of the three required attributes is truthy. */
  predicate NoneGiven(body: BoatBody) {
    !Given(body.name) && !Given(body.boatType) && !GivenNumber(body.length)
  }

  /** `req.body.loads || []`: an array is kept (even an empty one), anything else becomes []. */
  function DefaultLoads(loads: IdList): (l: IdList)
    ensures l.Ids?
    ensures loads.Ids? ==> l == loads
    ensures !loads.Ids? ==> l == Ids([])
  {
    if loads.Ids? then loads else Ids([])
  }

  /** The 404 and 403 checks on the fetched boat: absent, not owned by the
      principal, or (None) neither. */
  function Guard(t: Table<Boat>, id: Id, principal: string): (r: Option<Reply>)
    ensures r.None? <==> id in t.rows && Boats.Owns(t.rows[id], principal)
    ensures r == Some(NotFound) <==> id !in t.rows
    ensures r.Some? ==> r.value in {NotFound, Forbidden}
  {
    if id !in t.rows then Some(NotFound)
    else if !Boats.Owns(t.rows[id], principal) then Some(Forbidden)
    else None
  }

  /** The same checks as written, on the array that get_boat_helper
      resolves to ([record], or [undefined] for a missing id) instead of on
      its element: an array is neither undefined nor null and has no owner
      property, so every request is answered 403. */
  function GuardAsWritten(t: Table<Boat>, id: Id, principal: string): (r: Option<Reply>)
    ensures r == Some(Forbidden)
  {
    // `boat === undefined || boat === null` is false for an array, and
    // `boat.owner !== req.user.name` is `undefined !== name`, which is true
    Some(Forbidden)
  }

  /** The owner of a stored boat is refused by the checks as written and let
      through by the intended ones. */
  lemma GuardLocksOutOwner(t: Table<Boat>, id: Id, principal: string)
    requires id in t.rows && Boats.Owns(t.rows[id], principal)
    ensures Guard(t, id, principal).None?
    ensures GuardAsWritten(t, id, principal) == Some(Forbidden)
  {
  }

  /** POST /boats: 400 with no write unless name, type and length are all
      truthy; otherwise the boat is stored under a fresh id with loads
      defaulting to [] and owner to null, and answered with 201. */
  function OnPost(db: Db, body: BoatBody): (r: Response)
    requires WellFormed(db.boats)
    ensures r.writes != [] <==> Complete(body)
    ensures !Complete(body) ==> r.reply == MissingAttributes
    ensures Complete(body) ==>
              var id := FreshId(db.boats);
              && id !in db.boats.rows
              && r.reply == Created(id)
              && r.writes == [SaveBoat(id, Boat(body.name.value, body.boatType.value, body.length.value, DefaultLoads(body.loads), body.owner))]
  {
    if !Complete(body) then Response([], MissingAttributes)
    else
      var id := FreshId(db.boats);
      Response([SaveBoat(id, Boat(body.name.value, body.boatType.value, body.length.value, DefaultLoads(body.loads), body.owner))], Created(id))
  }

  /** PUT /boats/:id: 401, then 404/403, then 400 for an incomplete body,
      then 400 when the name check refuses the name, each with no write;
      otherwise the whole record is overwritten from the body (loads and
      owner as given, a missing owner stored as null) and answered with 303. */
  function OnPut(db: Db, principal: Option<string>, id: Id, body: BoatBody): (r: Response)
    requires WellFormed(db.boats)
    ensures !Given(principal) ==> r == Response([], Unauthorized)
    ensures Given(principal) && Guard(db.boats, id, principal.value).Some? ==>
              r == Response([], Guard(db.boats, id, principal.value).value)
    ensures Given(principal) && Guard(db.boats, id, principal.value).None? && !Complete(body) ==>
              r == Response([], MissingAttributes)
    ensures Given(principal) && Guard(db.boats, id, principal.value).None? && Complete(body) && !Boats.NameAvailable(body.name, db.boats) ==>
              r == Response([], NameInUse)
    ensures r.writes != [] <==>
              Given(principal) && Guard(db.boats, id, principal.value).None? && Complete(body) && Boats.NameAvailable(body.name, db.boats)
    ensures r.writes != [] ==>
              && r.reply == SeeOther(id)
              && r.writes == [SaveBoat(id, Boat(body.name.value, body.boatType.value, body.length.value, body.loads, body.owner))]
  {
    if !Given(principal) then Response([], Unauthorized)
    else
      var g := Guard(db.boats, id, principal.value);
      if g.Some? then Response([], g.value)
      else if !Complete(body) then Response([], MissingAttributes)
      else if !Boats.NameAvailable(body.name, db.boats) then Response([], NameInUse)
      else Response([SaveBoat(id, Boat(body.name.value, body.boatType.value, body.length.value, body.loads, body.owner))], SeeOther(id))
  }

  /** A PUT that keeps the boat's own name is refused: the name check counts
      the boat itself among the boats that already have the name. */
  lemma PutKeepingNameRefused(db: Db, principal: Option<string>, id: Id, body: BoatBody)
    requires WellFormed(db.boats)
    requires id in db.boats.rows && body.name == Some(db.boats.rows[id].name)
    ensures OnPut(db, principal, id, body).writes == []
  {
    assert !Boats.NameAvailable(body.name, db.boats);
  }

  /** The PATCH merge: each attribute present and not null replaces the
      stored one; every other attribute keeps its stored value. */
  function Merged(b: Boat, body: BoatBody): Boat {
    Boat(if body.name.Some? then body.name.value else b.name,
         if body.boatType.Some? then body.boatType.value else b.boatType,
         if body.length.Some? then body.length.value else b.length,
         if body.loads.Ids? then body.loads else b.loads,
         if body.owner.Some? then body.owner else b.owner)
  }

  /** Merging a body that supplies nothing keeps the boat as it was. */
  lemma MergeNothing(b: Boat)
    ensures Merged(b, BoatBody(None, None, None, Undefined, None)) == b
    ensures Merged(b, BoatBody(None, None, None, Null, None)) == b
  {
  }

  /** Merging the same body twice is merging it once. */
  lemma MergeIdempotent(b: Boat, body: BoatBody)
    ensures Merged(Merged(b, body), body) == Merged(b, body)
  {
  }

  /** PATCH /boats/:id: 401, then 404/403, then 400 when none of the three
      attributes is truthy, then 400 when the name check refuses the
      body's name, each with no write; otherwise the merge of the body into
      the stored boat is written and answered with 204. */
  function OnPatch(db: Db, principal: Option<string>, id: Id, body: BoatBody): (r: Response)
    requires WellFormed(db.boats)
    ensures !Given(principal) ==> r == Response([], Unauthorized)
    ensures Given(principal) && Guard(db.boats, id, principal.value).Some? ==>
              r == Response([], Guard(db.boats, id, principal.value).value)
    ensures Given(principal) && Guard(db.boats, id, principal.value).None? && NoneGiven(body) ==>
              r == Response([], MissingAttributes)
    ensures Given(principal) && Guard(db.boats, id, principal.value).None? && !NoneGiven(body) && !Boats.NameAvailable(body.name, db.boats) ==>
              r == Response([], NameInUse)
    ensures r.writes != [] <==>
              Given(principal) && Guard(db.boats, id, principal.value).None? && !NoneGiven(body) && Boats.NameAvailable(body.name, db.boats)
    ensures r.writes != [] ==> r.reply == NoContent && r.writes == [SaveBoat(id, Merged(db.boats.rows[id], body))]
  {
    if !Given(principal) then Response([], Unauthorized)
    else
      var g := Guard(db.boats, id, principal.value);
      if g.Some? then Response([], g.value)
      else if NoneGiven(body) then Response([], MissingAttributes)
      else if !Boats.NameAvailable(body.name, db.boats) then Response([], NameInUse)
      else Response([SaveBoat(id, Merged(db.boats.rows[id], body))], NoContent)
  }

  /** A PATCH without a name never writes: the name check refuses a missing
      name, so only the name-taking PATCH can change a boat. */
  lemma PatchNeedsName(db: Db, principal: Option<string>, id: Id, body: BoatBody)
    requires WellFormed(db.boats) && body.name.None?
    ensures OnPatch(db, principal, id, body).writes == []
    ensures OnPatch(db, principal, id, body).reply in {Unauthorized, NotFound, Forbidden, MissingAttributes, NameInUse}
  {
  }

  /** PUT /boats/:bid/loads/:lid: 401, then 404 unless both records exist,
      then 403 unless the principal owns the boat, then 403 when the load
      already has a carrier, each with no write; otherwise put_reservation
      runs and the answer is 204, or 500 when it threw. */
  function OnLink(db: Db, principal: Option<string>, bid: Id, lid: Id): (r: Response)
    ensures !Given(principal) ==> r == Response([], Unauthorized)
    ensures Given(principal) && (bid !in db.boats.rows || lid !in db.loads.rows) ==> r == Response([], NotFound)
    ensures r.writes != [] ==>
              && Given(principal) && bid in db.boats.rows && lid in db.loads.rows
              && Boats.Owns(db.boats.rows[bid], principal.value)
              && db.loads.rows[lid].carrier.None?
    ensures Given(principal) && bid in db.boats.rows && lid in db.loads.rows && !Boats.Owns(db.boats.rows[bid], principal.value) ==>
              r == Response([], Forbidden)
    ensures Given(principal) && bid in db.boats.rows && lid in db.loads.rows && db.loads.rows[lid].carrier.Some? ==>
              r == Response([], Forbidden)
    ensures r.reply == NoContent <==>
              && Given(principal) && bid in db.boats.rows && lid in db.loads.rows
              && Boats.Owns(db.boats.rows[bid], principal.value)
              && db.loads.rows[lid].carrier.None?
              && !db.boats.rows[bid].loads.Null?
    ensures r.reply == NoContent ==> r.writes == Boats.Reserve(db, bid, lid).writes
    ensures r.reply != NoContent ==> r.writes == []
    ensures Given(principal) && bid in db.boats.rows && lid in db.loads.rows
            && Boats.Owns(db.boats.rows[bid], principal.value) && db.loads.rows[lid].carrier.None? ==>
              var res := Boats.Reserve(db, bid, lid);
              r.reply == (if res.thrown then ServerError else NoContent)
    ensures Given(principal) && bid in db.boats.rows && lid in db.loads.rows
            && Boats.Owns(db.boats.rows[bid], principal.value) && db.loads.rows[lid].carrier.None?
            && db.boats.rows[bid].loads.Null? ==>
              r == Response([], ServerError)
  {
    if !Given(principal) then Response([], Unauthorized)
    else if bid !in db.boats.rows || lid !in db.loads.rows then Response([], NotFound)
    else if !Boats.Owns(db.boats.rows[bid], principal.value) then Response([], Forbidden)
    else if db.loads.rows[lid].carrier.Some? then Response([], Forbidden)
    else
      var r := Boats.Reserve(db, bid, lid);
      Response(r.writes, if r.thrown then ServerError else NoContent)
  }

  /** DELETE /boats/:bid/loads/:lid (no token needed): 404 with no write
      unless both records exist, the load has a carrier and that carrier is
      this boat; otherwise the unlink runs and the answer is 204, or a
      rejected promise (ServerError) when it threw. */
  function OnUnlink(db: Db, bid: Id, lid: Id): (r: Response)
    ensures r.reply == NotFound <==>
              !(bid in db.boats.rows && lid in db.loads.rows && db.loads.rows[lid].carrier.Some? && db.loads.rows[lid].carrier.value.id == bid)
    ensures r.reply == NotFound ==> r.writes == []
    ensures r.reply != NotFound ==>
              var u := Helpers.UnlinkBoatLoad(db, bid, lid);
              r.writes == u.writes && r.reply == (if u.thrown then ServerError else NoContent)
  {
    if bid !in db.boats.rows || lid !in db.loads.rows then Response([], NotFound)
    else if db.loads.rows[lid].carrier.None? then Response([], NotFound)
    else if db.loads.rows[lid].carrier.value.id != bid then Response([], NotFound)
    else
      var u := Helpers.UnlinkBoatLoad(db, bid, lid);
      Response(u.writes, if u.thrown then ServerError else NoContent)
  }

  /** The load unlinks of the boat delete, one after the other over the ids
      the boat listed when it was fetched. Every unlink runs, whether or not
      an earlier one threw (each is its own promise); the cascade threw when
      any of them did. */
  function UnlinkEach(db: Db, bid: Id, lids: seq<Id>): (r: Run)
    ensures lids == [] ==> r == Run([], false)
    ensures NoBoatDeleted(r.writes)
    ensures forall w :: w in r.writes ==> (w.SaveBoat? && w.id == bid) || (w.SaveLoad? && w.id in lids)
    decreases |lids|
  {
    if lids == [] then Run([], false)
    else
      var prev := UnlinkEach(db, bid, lids[..|lids| - 1]);
      var step := Helpers.UnlinkBoatLoad(ApplyAll(db, prev.writes), bid, lids[|lids| - 1]);
      assert forall lid :: lid in lids[..|lids| - 1] ==> lid in lids;
      Run(prev.writes + step.writes, prev.thrown || step.thrown)
  }

  /** What a cascade that did not throw leaves: every listed load still
      exists and has no carrier, every other load is as it was, no boat but
      bid changed, no user changed, and bid kept everything but its list. */
  lemma {:induction false} UnlinkEachEffect(db: Db, bid: Id, lids: seq<Id>)
    requires !UnlinkEach(db, bid, lids).thrown
    ensures var after := ApplyAll(db, UnlinkEach(db, bid, lids).writes);
            && (forall lid :: lid in lids ==> lid in after.loads.rows && after.loads.rows[lid].carrier.None?)
            && (forall lid :: lid in after.loads.rows <==> lid in db.loads.rows)
            && (forall lid :: lid !in lids && lid in db.loads.rows ==> after.loads.rows[lid] == db.loads.rows[lid])
            && (forall b :: b in after.boats.rows <==> b in db.boats.rows)
            && (forall b :: b != bid && b in db.boats.rows ==> after.boats.rows[b] == db.boats.rows[b])
            && (bid in db.boats.rows ==>
                  bid in after.boats.rows && after.boats.rows[bid] == db.boats.rows[bid].(loads := after.boats.rows[bid].loads))
            && after.users == db.users
    decreases |lids|
  {
    if lids != [] {
      var init := lids[..|lids| - 1];
      var last := lids[|lids| - 1];
      assert forall lid :: lid in lids <==> lid in init || lid == last by {
        assert lids == init + [last];
      }
      var prev := UnlinkEach(db, bid, init);
      var mid := ApplyAll(db, prev.writes);
      var step := Helpers.UnlinkBoatLoad(mid, bid, last);
      UnlinkEachEffect(db, bid, init);
      Helpers.UnlinkBoatLoadEffect(mid, bid, last);
      ApplyAllAppend(db, prev.writes, step.writes);
    }
  }

  /** Everything the boat delete does before deleting the record: the load
      cascade, then the owner unlink when the boat has an owner. */
  function UnlinkAll(db: Db, id: Id): (r: Run)
    requires id in db.boats.rows
    ensures NoBoatDeleted(r.writes)
    ensures var cascade := UnlinkEach(db, id, Elements(db.boats.rows[id].loads));
            |cascade.writes| <= |r.writes| && r.writes[..|cascade.writes|] == cascade.writes && (cascade.thrown ==> r.thrown)
    ensures var cascade := UnlinkEach(db, id, Elements(db.boats.rows[id].loads));
            var owner := db.boats.rows[id].owner;
            forall k :: |cascade.writes| <= k < |r.writes| ==>
              (r.writes[k].SaveBoat? && r.writes[k].id == id) ||
              (r.writes[k].SaveUser? && owner.Some? && r.writes[k].id == owner.value.id)
  {
    var b := db.boats.rows[id];
    var cascade := UnlinkEach(db, id, Elements(b.loads));
    var owner := if b.owner.Some? then Helpers.UnlinkUserBoat(ApplyAll(db, cascade.writes), b.owner.value.id, id) else Run([], false);
    assert NoBoatDeleted(owner.writes);
    var ws := cascade.writes + owner.writes;
    assert ws[..|cascade.writes|] == cascade.writes;
    forall k | |cascade.writes| <= k < |ws|
      ensures (ws[k].SaveBoat? && ws[k].id == id) || (ws[k].SaveUser? && b.owner.Some? && ws[k].id == b.owner.value.id)
    {
      assert ws[k] == owner.writes[k - |cascade.writes|];
    }
    Run(cascade.writes + owner.writes, cascade.thrown || owner.thrown)
  }

  /** What the unlinks leave of the loads when none threw: every load the
      boat listed has no carrier, every other load is as it was, and no load
      was added or removed. */
  lemma UnlinkAllLoadsEffect(db: Db, id: Id)
    requires id in db.boats.rows && !UnlinkAll(db, id).thrown
    ensures var after := ApplyAll(db, UnlinkAll(db, id).writes);
            var b := db.boats.rows[id];
            && (forall lid :: lid in Elements(b.loads) ==> lid in after.loads.rows && after.loads.rows[lid].carrier.None?)
            && (forall lid :: lid !in Elements(b.loads) && lid in db.loads.rows ==>
                  lid in after.loads.rows && after.loads.rows[lid] == db.loads.rows[lid])
            && (forall lid :: lid in after.loads.rows ==> lid in db.loads.rows)
  {
    var b := db.boats.rows[id];
    var cascade := UnlinkEach(db, id, Elements(b.loads));
    var mid := ApplyAll(db, cascade.writes);
    UnlinkEachEffect(db, id, Elements(b.loads));
    if b.owner.Some? {
      var owner := Helpers.UnlinkUserBoat(mid, b.owner.value.id, id);
      assert UnlinkAll(db, id).writes == cascade.writes + owner.writes && !owner.thrown;
      Helpers.UnlinkUserBoatEffect(mid, b.owner.value.id, id);
      ApplyAllAppend(db, cascade.writes, owner.writes);
      assert ApplyAll(mid, owner.writes).loads == mid.loads;
    } else {
      assert UnlinkAll(db, id).writes == cascade.writes + [];
      assert cascade.writes + [] == cascade.writes;
    }
  }

  /** What the unlinks leave of the boats when none threw: no boat but id
      changed and none was added or removed. */
  lemma UnlinkAllBoatsEffect(db: Db, id: Id)
    requires id in db.boats.rows && !UnlinkAll(db, id).thrown
    ensures var after := ApplyAll(db, UnlinkAll(db, id).writes);
            && (forall other :: other != id && other in db.boats.rows ==>
                  other in after.boats.rows && after.boats.rows[other] == db.boats.rows[other])
            && (forall other :: other in after.boats.rows <==> other in db.boats.rows)
  {
    var b := db.boats.rows[id];
    if b.owner.Some? {
      OwnerUnlinkBoatsEffect(db, id);
    } else {
      var cascade := UnlinkEach(db, id, Elements(b.loads));
      UnlinkEachEffect(db, id, Elements(b.loads));
      assert UnlinkAll(db, id).writes == cascade.writes + [];
      assert cascade.writes + [] == cascade.writes;
    }
  }

  /** UnlinkAllBoatsEffect for a boat with an owner: the cascade changed only
      the boat's list, and the owner unlink only the boat's owner. */
  lemma OwnerUnlinkBoatsEffect(db: Db, id: Id)
    requires id in db.boats.rows && db.boats.rows[id].owner.Some? && !UnlinkAll(db, id).thrown
    ensures var after := ApplyAll(db, UnlinkAll(db, id).writes);
            && (forall other :: other != id && other in db.boats.rows ==>
                  other in after.boats.rows && after.boats.rows[other] == db.boats.rows[other])
            && (forall other :: other in after.boats.rows <==> other in db.boats.rows)
  {
    var b := db.boats.rows[id];
    var cascade := UnlinkEach(db, id, Elements(b.loads));
    var mid := ApplyAll(db, cascade.writes);
    var owner := Helpers.UnlinkUserBoat(mid, b.owner.value.id, id);
    assert UnlinkAll(db, id).writes == cascade.writes + owner.writes && !owner.thrown;
    ApplyAllAppend(db, cascade.writes, owner.writes);
    UnlinkEachEffect(db, id, Elements(b.loads));
    OwnerStepKeepsBoats(mid, b.owner.value.id, id);
  }

  /** The owner unlink rewrites only boat id, which exists. */
  lemma OwnerStepKeepsBoats(mid: Db, uid: Id, id: Id)
    requires !Helpers.UnlinkUserBoat(mid, uid, id).thrown
    ensures var after := ApplyAll(mid, Helpers.UnlinkUserBoat(mid, uid, id).writes);
            && (forall other :: other != id && other in mid.boats.rows ==>
                  other in after.boats.rows && after.boats.rows[other] == mid.boats.rows[other])
            && (forall other :: other in after.boats.rows <==> other in mid.boats.rows)
  {
    Helpers.UnlinkUserBoatEffect(mid, uid, id);
  }

  /** What the unlinks leave of the users when none threw: the owner (if
      any) lists the boat once less and every other user is as it was. */
  lemma UnlinkAllUsersEffect(db: Db, id: Id)
    requires id in db.boats.rows && !UnlinkAll(db, id).thrown
    ensures var after := ApplyAll(db, UnlinkAll(db, id).writes);
            var b := db.boats.rows[id];
            && (b.owner.Some? ==>
                  var uid := b.owner.value.id;
                  uid in db.users.rows && after.users.rows == db.users.rows[uid := WithoutBoat(db.users.rows[uid], id)])
            && (b.owner.None? ==> after.users == db.users)
  {
    var b := db.boats.rows[id];
    var cascade := UnlinkEach(db, id, Elements(b.loads));
    var mid := ApplyAll(db, cascade.writes);
    UnlinkEachEffect(db, id, Elements(b.loads));
    if b.owner.Some? {
      var owner := Helpers.UnlinkUserBoat(mid, b.owner.value.id, id);
      assert UnlinkAll(db, id).writes == cascade.writes + owner.writes && !owner.thrown;
      Helpers.UnlinkUserBoatEffect(mid, b.owner.value.id, id);
      ApplyAllAppend(db, cascade.writes, owner.writes);
    } else {
      assert UnlinkAll(db, id).writes == cascade.writes + [];
      assert cascade.writes + [] == cascade.writes;
    }
  }

  /** DELETE /boats/:id: 401, 404 and 403 with no write; otherwise every load
      the boat lists is unlinked, then the owner (when there is one) is
      unlinked from the boat, and only when none of these threw is the boat
      deleted and the request answered 204; otherwise 500 and the boat stays. */
  function OnDelete(db: Db, principal: Option<string>, id: Id): (r: Response)
    ensures !Given(principal) ==> r == Response([], Unauthorized)
    ensures Given(principal) && Guard(db.boats, id, principal.value).Some? ==>
              r == Response([], Guard(db.boats, id, principal.value).value)
    ensures r.reply in {Unauthorized, NotFound, Forbidden, ServerError, NoContent}
    ensures r.reply == NoContent ==>
              && Given(principal) && Guard(db.boats, id, principal.value).None?
              && r.writes != [] && r.writes[|r.writes| - 1] == Write.DeleteBoat(id)
              && NoBoatDeleted(r.writes[..|r.writes| - 1])
    ensures r.reply == ServerError ==> NoBoatDeleted(r.writes)
    ensures r.reply == ServerError ==>
              && Given(principal) && id in db.boats.rows && Guard(db.boats, id, principal.value).None?
              && r.writes == UnlinkAll(db, id).writes
    ensures Given(principal) && Guard(db.boats, id, principal.value).None? && UnlinkAll(db, id).thrown ==>
              r == Response(UnlinkAll(db, id).writes, ServerError)
    ensures Given(principal) && Guard(db.boats, id, principal.value).None? ==>
              (r.reply == NoContent <==> !UnlinkAll(db, id).thrown)
    ensures Given(principal) && Guard(db.boats, id, principal.value).None? && !UnlinkAll(db, id).thrown ==>
              r == Response(UnlinkAll(db, id).writes + [Write.DeleteBoat(id)], NoContent)
    ensures Given(principal) && Guard(db.boats, id, principal.value).None? ==>
              var cascade := UnlinkEach(db, id, Elements(db.boats.rows[id].loads));
              && |cascade.writes| <= |r.writes|
              && r.writes[..|cascade.writes|] == cascade.writes
              && (cascade.thrown ==> r.reply == ServerError)
  {
    if !Given(principal) then Response([], Unauthorized)
    else
      var g := Guard(db.boats, id, principal.value);
      if g.Some? then Response([], g.value)
      else
        var u := UnlinkAll(db, id);
        if u.thrown then Response(u.writes, ServerError)
        else
          var ws := u.writes + [Write.DeleteBoat(id)];
          assert ws[..|ws| - 1] == u.writes;
          assert ws[..|UnlinkEach(db, id, Elements(db.boats.rows[id].loads)).writes|] == u.writes[..|UnlinkEach(db, id, Elements(db.boats.rows[id].loads)).writes|];
          Response(ws, NoContent)
  }

  /** What an answered boat delete leaves: the boat is gone, every load it
      listed still exists and has no carrier, the other loads and boats are
      as they were, and its owner (if any) lists the boat once less. */
  lemma DeleteCascades(db: Db, principal: Option<string>, id: Id)
    requires OnDelete(db, principal, id).reply == NoContent
    ensures var after := ApplyAll(db, OnDelete(db, principal, id).writes);
            var b := db.boats.rows[id];
            && id !in after.boats.rows
            && (forall lid :: lid in Elements(b.loads) ==> lid in after.loads.rows && after.loads.rows[lid].carrier.None?)
            && (forall lid :: lid !in Elements(b.loads) && lid in db.loads.rows ==>
                  lid in after.loads.rows && after.loads.rows[lid] == db.loads.rows[lid])
            && (forall other :: other != id && other in db.boats.rows ==>
                  other in after.boats.rows && after.boats.rows[other] == db.boats.rows[other])
            && (forall other :: other in after.boats.rows ==> other in db.boats.rows)
            && (forall lid :: lid in after.loads.rows ==> lid in db.loads.rows)
            && (b.owner.Some? ==>
                  var uid := b.owner.value.id;
                  uid in db.users.rows && after.users.rows == db.users.rows[uid := WithoutBoat(db.users.rows[uid], id)])
            && (b.owner.None? ==> after.users == db.users)
  {
    var u := UnlinkAll(db, id);
    assert OnDelete(db, principal, id).writes == u.writes + [Write.DeleteBoat(id)];
    DeleteBoatStep(db, u.writes, id);
    UnlinkAllLoadsEffect(db, id);
    UnlinkAllBoatsEffect(db, id);
    UnlinkAllUsersEffect(db, id);
  }

  /** The owner unlink as boats.js calls it: with the owner record where the
      user id belongs and without the two callbacks. Whatever user the
      resulting key finds (resolved; None when no user), the user side runs
      and the call then throws, because get_boat_func is undefined. */
  function OwnerUnlinkAsWritten(db: Db, resolved: Option<Id>, bid: Id): (r: Run)
    ensures r.thrown
    ensures |r.writes| <= 1
    ensures NoBoatDeleted(r.writes)
  {
    if resolved.None? then Run([], true)
    else Run(Helpers.UserSide(db, resolved.value, bid).writes, true)
  }

  /** DELETE /boats/:id as written: the missing-boat test reads `length` of
      the array [undefined], which is 1, so a missing boat reaches
      `boat[0].owner` and the thrown TypeError is answered 500; the owner
      unlink always throws, so an owned boat is never deleted. */
  function OnDeleteAsWritten(db: Db, principal: Option<string>, id: Id, resolved: Option<Id>): (r: Response)
    ensures r.reply != NoContent
    ensures NoBoatDeleted(r.writes)
  {
    if !Given(principal) then Response([], Unauthorized)
    else if id !in db.boats.rows then Response([], ServerError)
    else
      var b := db.boats.rows[id];
      if !Boats.Owns(b, principal.value) then Response([], Forbidden)
      else
        var cascade := UnlinkEach(db, id, Elements(b.loads));
        var owner := OwnerUnlinkAsWritten(ApplyAll(db, cascade.writes), resolved, id);
        if cascade.thrown || owner.thrown then Response(cascade.writes + owner.writes, ServerError)
        else Response(cascade.writes + owner.writes + [Write.DeleteBoat(id)], NoContent)
  }

  /** As written, a boat survives every DELETE request, while the intended
      handler deletes an owned boat whose unlinks complete. */
  lemma DeleteAsWrittenKeepsBoat(db: Db, principal: Option<string>, id: Id, resolved: Option<Id>)
    requires id in db.boats.rows
    ensures id in ApplyAll(db, OnDeleteAsWritten(db, principal, id, resolved).writes).boats.rows
    ensures OnDeleteAsWritten(db, principal, id, resolved).reply != NoContent
    ensures Given(principal) && Boats.Owns(db.boats.rows[id], principal.value) && !UnlinkAll(db, id).thrown ==>
              && OnDelete(db, principal, id).reply == NoContent
              && id !in ApplyAll(db, OnDelete(db, principal, id).writes).boats.rows
  {
    NoDeleteKeepsBoat(db, OnDeleteAsWritten(db, principal, id, resolved).writes, id);
    if Given(principal) && Boats.Owns(db.boats.rows[id], principal.value) && !UnlinkAll(db, id).thrown {
      DeleteCascades(db, principal, id);
    }
  }

  /** Boat 1, owned by alice (user 9), carries nothing; alice lists it. */
  function OwnedExample(): Db {
    Db(Table(map[1 := Boat("Sea", "sloop", 20, Ids([]), Some(Ref(9, "alice")))], [1]),
       Table(map[], []),
       Table(map[9 := User("alice", Ids([1]))], [9]))
  }

  /** On that store alice's DELETE /boats/1 is answered 204 and removes the
      boat, and alice no longer lists it; as written, the same request is
      answered 500 whatever user the owner key finds, and the boat stays. */
  lemma DeleteOwnedExample(resolved: Option<Id>)
    ensures var db := OwnedExample();
            var r := OnDelete(db, Some("alice"), 1);
            var after := ApplyAll(db, r.writes);
            var w := OnDeleteAsWritten(db, Some("alice"), 1, resolved);
            && r.reply == NoContent
            && 1 !in after.boats.rows
            && after.users.rows == map[9 := User("alice", Ids([]))]
            && w.reply == ServerError
            && 1 in ApplyAll(db, w.writes).boats.rows
  {
    var db := OwnedExample();
    var u := UnlinkAll(db, 1);
    assert UnlinkEach(db, 1, []) == Run([], false);
    assert Helpers.UnlinkUserBoat(db, 9, 1).writes ==
           [SaveUser(9, User("alice", Ids([]))), SaveBoat(1, db.boats.rows[1].(owner := None))];
    assert u.writes == [] + Helpers.UnlinkUserBoat(db, 9, 1).writes && !u.thrown;
    DeleteCascades(db, Some("alice"), 1);
    assert map[9 := User("alice", Ids([1]))][9 := User("alice", Ids([]))] == map[9 := User("alice", Ids([]))];
    DeleteAsWrittenKeepsBoat(db, Some("alice"), 1, resolved);
  }

  /** When the owner key names no user, only the owner unlink throws: the
      load cascade has nothing to do, and alice's DELETE /boats/1 is
      answered 500 with no write, so the boat stays. */
  lemma DeleteMissingOwnerExample()
    ensures var db := OwnedExample().(users := Table(map[], []));
            && !UnlinkEach(db, 1, Elements(db.boats.rows[1].loads)).thrown
            && UnlinkAll(db, 1).thrown
            && OnDelete(db, Some("alice"), 1) == Response([], ServerError)
  {
    var db := OwnedExample().(users := Table(map[], []));
    assert Elements(db.boats.rows[1].loads) == [];
    assert UnlinkEach(db, 1, []) == Run([], false);
    assert Helpers.UnlinkUserBoat(db, 9, 1) == Run([], true);
  }

  method Post(store: Datastore, body: BoatBody) returns (reply: Reply)
    requires store.Valid()
    modifies store
    ensures store.Valid()
    ensures var r := OnPost(old(store.State()), body);
            store.Performed(r.writes) && reply == r.reply
  {
    var loads := if body.loads.Ids? then body.loads else Ids([]);
    if !Given(body.name) || !Given(body.boatType) || !GivenNumber(body.length) {
      return MissingAttributes;
    }
    var id := Boats.PostBoat(store, body.name.value, body.boatType.value, body.length.value, loads, body.owner);
    reply := Created(id);
  }

  method Put(store: Datastore, principal: Option<string>, id: Id, body: BoatBody) returns (reply: Reply)
    requires store.Valid()
    modifies store
    ensures store.Valid()
    ensures var r := OnPut(old(store.State()), principal, id, body);
            store.Performed(r.writes) && reply == r.reply
  {
    if !Given(principal) {
      return Unauthorized;
    }
    var got := Lookup(store.boats, id);
    if got.None? {
      return NotFound;
    }
    if !Boats.Owns(got.value.record, principal.value) {
      return Forbidden;
    }
    if !Given(body.name) || !Given(body.boatType) || !GivenNumber(body.length) {
      return MissingAttributes;
    }
    if !Boats.NameAvailable(body.name, store.boats) {
      return NameInUse;
    }
    Boats.UpdateBoat(store, id, body.name.value, body.boatType.value, body.length.value, body.loads, body.owner);
    reply := SeeOther(id);
  }

  method Patch(store: Datastore, principal: Option<string>, id: Id, body: BoatBody) returns (reply: Reply)
    requires store.Valid()
    modifies store
    ensures store.Valid()
    ensures var r := OnPatch(old(store.State()), principal, id, body);
            store.Performed(r.writes) && reply == r.reply
  {
    if !Given(principal) {
      return Unauthorized;
    }
    var got := Lookup(store.boats, id);
    if got.None? {
      return NotFound;
    }
    var boat := got.value.record;
    if !Boats.Owns(boat, principal.value) {
      return Forbidden;
    }
    if !Given(body.name) && !Given(body.boatType) && !GivenNumber(body.length) {
      return MissingAttributes;
    }
    if !Boats.NameAvailable(body.name, store.boats) {
      return NameInUse;
    }
    var name := if body.name.Some? then body.name.value else boat.name;
    var boatType := if body.boatType.Some? then body.boatType.value else boat.boatType;
    var length := if body.length.Some? then body.length.value else boat.length;
    var loads := if body.loads.Ids? then body.loads else boat.loads;
    var owner := if body.owner.Some? then body.owner else boat.owner;
    Boats.UpdateBoat(store, id, name, boatType, length, loads, owner);
    reply := NoContent;
  }

  method Link(store: Datastore, principal: Option<string>, bid: Id, lid: Id) returns (reply: Reply)
    requires store.Valid()
    modifies store
    ensures store.Valid()
    ensures var r := OnLink(old(store.State()), principal, bid, lid);
            store.Performed(r.writes) && reply == r.reply
  {
    if !Given(principal) {
      return Unauthorized;
    }
    var boat := Lookup(store.boats, bid);
    var load := Lookup(store.loads, lid);
    if boat.None? || load.None? {
      return NotFound;
    }
    if !Boats.Owns(boat.value.record, principal.value) {
      return Forbidden;
    }
    if load.value.record.carrier.Some? {
      return Forbidden;
    }
    var ok := Boats.PutReservation(store, bid, lid);
    reply := if ok then NoContent else ServerError;
  }

  method Unlink(store: Datastore, bid: Id, lid: Id) returns (reply: Reply)
    requires store.Valid()
    modifies store
    ensures store.Valid()
    ensures var r := OnUnlink(old(store.State()), bid, lid);
            store.Performed(r.writes) && reply == r.reply
  {
    var boat := Lookup(store.boats, bid);
    var load := Lookup(store.loads, lid);
    if boat.None? || load.None? {
      return NotFound;
    }
    var carrier := load.value.record.carrier;
    if carrier.None? || carrier.value.id != bid {
      return NotFound;
    }
    var ok := Helpers.DeleteRelationshipBoatLoad(store, bid, lid);
    reply := if ok then NoContent else ServerError;
  }

  /** One more load of the cascade: the next unlink runs on the store the
      earlier ones left. */
  lemma UnlinkEachStep(db: Db, bid: Id, lids: seq<Id>, i: nat)
    requires i < |lids|
    ensures var prev := UnlinkEach(db, bid, lids[..i]);
            var step := Helpers.UnlinkBoatLoad(ApplyAll(db, prev.writes), bid, lids[i]);
            UnlinkEach(db, bid, lids[..i + 1]) == Run(prev.writes + step.writes, prev.thrown || step.thrown)
  {
    assert lids[..i + 1][..i] == lids[..i];
  }

  /** The `Promise.all` over the boat's loads, run one unlink after the other. */
  method UnlinkLoads(store: Datastore, id: Id, lids: seq<Id>) returns (failed: bool)
    requires store.Valid()
    modifies store
    ensures store.Valid()
    ensures var r := UnlinkEach(old(store.State()), id, lids);
            store.Performed(r.writes) && failed == r.thrown
  {
    ghost var s0 := store.State();
    failed := false;
    for i := 0 to |lids|
      invariant store.Valid()
      invariant store.log == old(store.log) + UnlinkEach(s0, id, lids[..i]).writes
      invariant store.State() == ApplyAll(s0, UnlinkEach(s0, id, lids[..i]).writes)
      invariant failed == UnlinkEach(s0, id, lids[..i]).thrown
    {
      ghost var prev := UnlinkEach(s0, id, lids[..i]);
      ghost var s1 := store.State();
      var ok := Helpers.DeleteRelationshipBoatLoad(store, id, lids[i]);
      ghost var step := Helpers.UnlinkBoatLoad(s1, id, lids[i]);
      Chain(s0, s1, store.State(), prev.writes, step.writes);
      AppendAssoc(old(store.log), prev.writes, step.writes);
      UnlinkEachStep(s0, id, lids, i);
      failed := failed || !ok;
    }
    assert lids[..|lids|] == lids;
  }

  /** Both unlink steps of the boat delete, on the boat as it was fetched. */
  method UnlinkAllOf(store: Datastore, id: Id, boat: Boat) returns (failed: bool)
    requires store.Valid() && id in store.boats.rows && store.boats.rows[id] == boat
    modifies store
    ensures store.Valid()
    ensures var r := UnlinkAll(old(store.State()), id);
            store.Performed(r.writes) && failed == r.thrown
  {
    ghost var s0 := store.State();
    var lids := if boat.loads.Ids? then boat.loads.ids else [];
    failed := false;
    if lids != [] {                                   // boat[0].loads && boat[0].loads.length > 0
      failed := UnlinkLoads(store, id, lids);
    }
    ghost var cascade := UnlinkEach(s0, id, lids);
    ghost var s1 := store.State();
    ghost var owner := if boat.owner.Some? then Helpers.UnlinkUserBoat(s1, boat.owner.value.id, id) else Run([], false);
    var ok := UnlinkOwnerOf(store, id, boat);
    failed := failed || !ok;
    assert lids == Elements(boat.loads);
    assert UnlinkAll(s0, id) == Run(cascade.writes + owner.writes, cascade.thrown || owner.thrown);
    Chain(s0, s1, store.State(), cascade.writes, owner.writes);
    AppendAssoc(old(store.log), cascade.writes, owner.writes);
  }

  /** The owner step of the boat delete: when the fetched boat names an
      owner, unlink that user from the boat. */
  method UnlinkOwnerOf(store: Datastore, id: Id, boat: Boat) returns (ok: bool)
    requires store.Valid()
    modifies store
    ensures store.Valid()
    ensures var r := if boat.owner.Some? then Helpers.UnlinkUserBoat(old(store.State()), boat.owner.value.id, id) else Run([], false);
            store.Performed(r.writes) && ok == !r.thrown
  {
    ok := true;
    if boat.owner.Some? {                             // boat[0].owner
      ok := Helpers.DeleteRelationshipUserBoat(store, boat.owner.value.id, id);
    }
  }

  method Delete(store: Datastore, principal: Option<string>, id: Id) returns (reply: Reply)
    requires store.Valid()
    modifies store
    ensures store.Valid()
    ensures var r := OnDelete(old(store.State()), principal, id);
            store.Performed(r.writes) && reply == r.reply
  {
    if !Given(principal) {
      return Unauthorized;
    }
    var got := Lookup(store.boats, id);
    if got.None? {
      return NotFound;
    }
    var boat := got.value.record;
    if !Boats.Owns(boat, principal.value) {
      return Forbidden;
    }
    ghost var s0 := store.State();
    var failed := UnlinkAllOf(store, id, boat);
    if failed {
      return ServerError;
    }
    ghost var s1 := store.State();
    ghost var u := UnlinkAll(s0, id);
    assert OnDelete(s0, principal, id) == Response(u.writes + [Write.DeleteBoat(id)], NoContent);
    Boats.DeleteBoat(store, id);
    Chain(s0, s1, store.State(), u.writes, [Write.DeleteBoat(id)]);
    AppendAssoc(old(store.log), u.writes, [Write.DeleteBoat(id)]);
    reply := NoContent;
  }
}
