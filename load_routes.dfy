/** The request handlers of loads.js: create, overwrite, merge and delete a
    load. Each is a pure function of the store that says which writes the
    request makes and how it is answered, and a method that makes those
    writes on the store. */
module LoadRoutes {
  import opened Records
  import opened Store
  import Loads
  import Helpers

  /** The attributes of a request body; None stands for a missing or null
      attribute. */
  datatype LoadBody = LoadBody(volume: Option<int>, item: Option<string>, creationDate: Option<string>, carrier: Option<Ref>)

  /** All three required attributes are truthy. */
  predicate Complete(body: LoadBody) {
    GivenNumber(body.volume) && Given(body.item) && Given(body.creationDate)
  }

  /** None of the three required attributes is truthy. */
  predicate NoneGiven(body: LoadBody) {
    !GivenNumber(body.volume) && !Given(body.item) && !Given(body.creationDate)
  }

  /** The load a complete body describes (`carrier || null`). */
  function FromBody(body: LoadBody): Load
    requires Complete(body)
  {
    Load(body.volume.value, body.item.value, body.creationDate.value, body.carrier)
  }

  /** The PATCH merge: each attribute that is present and not null replaces
      the stored one, every other attribute keeps its stored value. */
  function Merged(l: Load, body: LoadBody): Load {
    Load(if body.volume.Some? then body.volume.value else l.volume,
         if body.item.Some? then body.item.value else l.item,
         if body.creationDate.Some? then body.creationDate.value else l.creationDate,
         if body.carrier.Some? then body.carrier else l.carrier)
  }

  /** Merging a body that supplies nothing keeps the load as it was. */
  lemma MergeNothing(l: Load)
    ensures Merged(l, LoadBody(None, None, None, None)) == l
  {
  }

  /** Merging the same body twice is merging it once. */
  lemma MergeIdempotent(l: Load, body: LoadBody)
    ensures Merged(Merged(l, body), body) == Merged(l, body)
  {
  }

  /** A body that supplies every attribute replaces the whole load, whatever was stored. */
  lemma MergeEverything(l: Load, body: LoadBody)
    requires body.volume.Some? && body.item.Some? && body.creationDate.Some? && body.carrier.Some?
    ensures Merged(l, body) == Load(body.volume.value, body.item.value, body.creationDate.value, body.carrier)
  {
  }

  /** POST /loads: 400 with no write unless volume, item and creation_date are
      all truthy; otherwise the load (carrier null when not supplied) is
      stored under a fresh id and answered with 201 and that id. */
  function OnPost(db: Db, body: LoadBody): (r: Response)
    requires WellFormed(db.loads)
    ensures r.writes != [] <==> Complete(body)
    ensures !Complete(body) ==> r.reply == MissingAttributes
    ensures Complete(body) ==>
              && r.reply == Created(FreshId(db.loads))
              && FreshId(db.loads) !in db.loads.rows
              && r.writes == [SaveLoad(FreshId(db.loads), FromBody(body))]
  {
    if !Complete(body) then Response([], MissingAttributes)
    else
      var id := FreshId(db.loads);
      Response([SaveLoad(id, FromBody(body))], Created(id))
  }

  /** After a created load, reading the new id gives back what was posted,
      and no other load changed. */
  lemma PostThenGet(db: Db, body: LoadBody)
    requires WellFormed(db.loads) && Complete(body)
    ensures var r := OnPost(db, body);
            var after := ApplyAll(db, r.writes);
            && r.reply.Created?
            && Lookup(db.loads, r.reply.id).None?
            && Lookup(after.loads, r.reply.id) == Some(Entry(r.reply.id, FromBody(body)))
            && (forall id :: id != r.reply.id ==> Lookup(after.loads, id) == Lookup(db.loads, id))
  {
    var r := OnPost(db, body);
    ApplyOne(db, r.writes[0]);
  }

  /** PUT /loads/:id: 404 for a missing load and 400 for an incomplete body,
      both with no write; otherwise the whole record is overwritten from the
      body (a missing carrier becomes null) and answered with 303. */
  function OnPut(db: Db, id: Id, body: LoadBody): (r: Response)
    ensures r.writes != [] <==> id in db.loads.rows && Complete(body)
    ensures r.reply == NotFound <==> id !in db.loads.rows
    ensures r.reply == MissingAttributes <==> id in db.loads.rows && !Complete(body)
    ensures r.writes != [] ==> r.reply == SeeOther(id) && r.writes == [SaveLoad(id, FromBody(body))]
  {
    if id !in db.loads.rows then Response([], NotFound)
    else if !Complete(body) then Response([], MissingAttributes)
    else Response([SaveLoad(id, FromBody(body))], SeeOther(id))
  }

  /** After an accepted PUT the stored load is exactly the body's: nothing of
      the old record survives, its carrier included. */
  lemma PutThenGet(db: Db, id: Id, body: LoadBody)
    requires OnPut(db, id, body).reply.SeeOther?
    ensures var after := ApplyAll(db, OnPut(db, id, body).writes);
            && after.loads.rows == db.loads.rows[id := Load(body.volume.value, body.item.value, body.creationDate.value, body.carrier)]
            && after.boats == db.boats && after.users == db.users
  {
    ApplyOne(db, OnPut(db, id, body).writes[0]);
  }

  /** PATCH /loads/:id: 404 for a missing load and 400 when none of the three
      attributes is truthy, both with no write; otherwise the merge of the
      body into the stored load is written and answered with 204. */
  function OnPatch(db: Db, id: Id, body: LoadBody): (r: Response)
    ensures r.writes != [] <==> id in db.loads.rows && !NoneGiven(body)
    ensures r.reply == NotFound <==> id !in db.loads.rows
    ensures r.reply == MissingAttributes <==> id in db.loads.rows && NoneGiven(body)
    ensures r.writes != [] ==> r.reply == NoContent && r.writes == [SaveLoad(id, Merged(db.loads.rows[id], body))]
  {
    if id !in db.loads.rows then Response([], NotFound)
    else if NoneGiven(body) then Response([], MissingAttributes)
    else Response([SaveLoad(id, Merged(db.loads.rows[id], body))], NoContent)
  }

  /** DELETE /loads/:id: 404 with no write for a missing load. A load without
      a carrier is deleted. A carried load is first unlinked from the boat its
      carrier names and then deleted; when the unlink throws, the load stays
      (the promise rejects, which the model answers with ServerError). */
  function OnDelete(db: Db, id: Id): (r: Response)
    ensures r.reply == NotFound <==> id !in db.loads.rows
    ensures r.reply == NotFound ==> r.writes == []
    ensures r.reply == NoContent <==> r.writes != [] && r.writes[|r.writes| - 1] == Write.DeleteLoad(id)
    ensures r.reply in {NotFound, NoContent, ServerError}
    ensures id in db.loads.rows && db.loads.rows[id].carrier.None? ==> r == Response([Write.DeleteLoad(id)], NoContent)
    ensures id in db.loads.rows && db.loads.rows[id].carrier.Some? ==>
              var u := Helpers.UnlinkBoatLoad(db, db.loads.rows[id].carrier.value.id, id);
              && (u.thrown ==> r == Response(u.writes, ServerError))
              && (!u.thrown ==> r == Response(u.writes + [Write.DeleteLoad(id)], NoContent))
  {
    if id !in db.loads.rows then Response([], NotFound)
    else
      var l := db.loads.rows[id];
      if l.carrier.None? then Response([Write.DeleteLoad(id)], NoContent)
      else
        var u := Helpers.UnlinkBoatLoad(db, l.carrier.value.id, id);
        if u.thrown then Response(u.writes, ServerError)
        else Response(u.writes + [Write.DeleteLoad(id)], NoContent)
  }

  /** After an answered DELETE the load is gone and no other load changed,
      its carrier (if any) lists it once less and no other boat changed, and
      users are untouched. */
  lemma DeleteRemovesLoad(db: Db, id: Id)
    requires OnDelete(db, id).reply == NoContent
    ensures var after := ApplyAll(db, OnDelete(db, id).writes);
            var l := db.loads.rows[id];
            && after.loads.rows == db.loads.rows - {id}
            && (l.carrier.Some? ==>
                  var bid := l.carrier.value.id;
                  after.boats.rows == db.boats.rows[bid := WithoutLoad(db.boats.rows[bid], id)])
            && (l.carrier.None? ==> after.boats == db.boats)
            && after.users == db.users
  {
    var r := OnDelete(db, id);
    var l := db.loads.rows[id];
    if l.carrier.None? {
      ApplyOne(db, r.writes[0]);
    } else {
      var bid := l.carrier.value.id;
      var u := Helpers.UnlinkBoatLoad(db, bid, id);
      Helpers.UnlinkBoatLoadEffect(db, bid, id);
      ApplyAllAppend(db, u.writes, [Write.DeleteLoad(id)]);
      ApplyOne(ApplyAll(db, u.writes), Write.DeleteLoad(id));
      assert db.loads.rows[id := db.loads.rows[id].(carrier := None)] - {id} == db.loads.rows - {id};
    }
  }

  method Post(store: Datastore, body: LoadBody) returns (reply: Reply)
    requires store.Valid()
    modifies store
    ensures store.Valid()
    ensures var r := OnPost(old(store.State()), body);
            store.Performed(r.writes) && reply == r.reply
  {
    if !GivenNumber(body.volume) || !Given(body.item) || !Given(body.creationDate) {
      return MissingAttributes;
    }
    var id := Loads.PostLoad(store, body.volume.value, body.item.value, body.creationDate.value, body.carrier);
    reply := Created(id);
  }

  method Put(store: Datastore, id: Id, body: LoadBody) returns (reply: Reply)
    requires store.Valid()
    modifies store
    ensures store.Valid()
    ensures var r := OnPut(old(store.State()), id, body);
            store.Performed(r.writes) && reply == r.reply
  {
    var got := Lookup(store.loads, id);
    if got.None? {
      return NotFound;
    }
    if !GivenNumber(body.volume) || !Given(body.item) || !Given(body.creationDate) {
      return MissingAttributes;
    }
    Loads.UpdateLoad(store, id, body.volume.value, body.item.value, body.creationDate.value, body.carrier);
    reply := SeeOther(id);
  }

  method Patch(store: Datastore, id: Id, body: LoadBody) returns (reply: Reply)
    requires store.Valid()
    modifies store
    ensures store.Valid()
    ensures var r := OnPatch(old(store.State()), id, body);
            store.Performed(r.writes) && reply == r.reply
  {
    var got := Lookup(store.loads, id);
    if got.None? {
      return NotFound;
    }
    if !GivenNumber(body.volume) && !Given(body.item) && !Given(body.creationDate) {
      return MissingAttributes;
    }
    var l := got.value.record;
    var volume := if body.volume.Some? then body.volume.value else l.volume;
    var item := if body.item.Some? then body.item.value else l.item;
    var creationDate := if body.creationDate.Some? then body.creationDate.value else l.creationDate;
    var carrier := if body.carrier.Some? then body.carrier else l.carrier;
    Loads.UpdateLoad(store, id, volume, item, creationDate, carrier);
    reply := NoContent;
  }

  method Delete(store: Datastore, id: Id) returns (reply: Reply)
    requires store.Valid()
    modifies store
    ensures store.Valid()
    ensures var r := OnDelete(old(store.State()), id);
            store.Performed(r.writes) && reply == r.reply
  {
    var got := Lookup(store.loads, id);
    if got.None? {
      return NotFound;
    }
    var l := got.value.record;
    if l.carrier.None? {
      Loads.DeleteLoad(store, id);
      return NoContent;
    }
    ghost var s0 := store.State();
    var ok := Helpers.DeleteRelationshipBoatLoad(store, l.carrier.value.id, id);
    if !ok {
      return ServerError;
    }
    ghost var s1 := store.State();
    ghost var u := Helpers.UnlinkBoatLoad(s0, l.carrier.value.id, id);
    Loads.DeleteLoad(store, id);
    Chain(s0, s1, store.State(), u.writes, [Write.DeleteLoad(id)]);
    reply := NoContent;
  }
}
