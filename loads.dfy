/** The load model functions of loads.js: create, read one, read a page,
    overwrite, delete. */
module Loads {
  import opened Records
  import opened Store
  import opened Paging

  /** Loads are listed three to a page. */
  const PageSize: nat := 3

  /** post_load: store a new load under a fresh id, carrier as supplied. */
  method PostLoad(store: Datastore, volume: int, item: string, creationDate: string, carrier: Option<Ref>)
    returns (id: Id)
    requires store.Valid()
    modifies store
    ensures store.Valid()
    ensures id !in old(store.loads.rows) && id == FreshId(old(store.loads))
    ensures store.Performed([SaveLoad(id, Load(volume, item, creationDate, carrier))])
  {
    id := FreshId(store.loads);
    store.Commit(SaveLoad(id, Load(volume, item, creationDate, carrier)));
  }

  /** get_loads: at most three loads from the cursor on (from the first load
      when no cursor is supplied), and a cursor for the next page exactly
      when loads remain after this page. */
  function GetLoads(t: Table<Load>, cursor: Option<nat>): (p: Page<Entry<Load>>)
    requires WellFormed(t)
    ensures var c := if cursor.Some? then cursor.value else 0;
            && |p.items| <= PageSize
            && (forall i :: 0 <= i < |p.items| ==>
                  c + i < |t.order| && p.items[i].id == t.order[c + i] && p.items[i].record == t.rows[t.order[c + i]])
            && (p.next.Some? <==> c + PageSize < |t.order|)
            && (p.next.Some? ==> p.next.value == c + PageSize)
  {
    PageAt(Query(t), if cursor.Some? then cursor.value else 0, PageSize)
  }

  /** update_load: overwrite the whole record under id. A null or missing
      carrier is stored as null (both are None here). */
  method UpdateLoad(store: Datastore, id: Id, volume: int, item: string, creationDate: string, carrier: Option<Ref>)
    requires store.Valid()
    modifies store
    ensures store.Valid()
    ensures store.Performed([SaveLoad(id, Load(volume, item, creationDate, carrier))])
  {
    store.Commit(SaveLoad(id, Load(volume, item, creationDate, carrier)));
  }

  /** delete_load: remove the record under id. */
  method DeleteLoad(store: Datastore, id: Id)
    requires store.Valid()
    modifies store
    ensures store.Valid()
    ensures store.Performed([Write.DeleteLoad(id)])
  {
    store.Commit(Write.DeleteLoad(id));
  }
}
