/** The user model functions of users.js: create, list, read one, overwrite. */
module Users {
  import opened Records
  import opened Store

  /** The boats list post_user stores: the parameter defaults to null when it is not passed. */
  function InitialBoats(boats: IdList): (b: IdList)
    ensures b != Undefined
    ensures boats != Undefined ==> b == boats
  {
    if boats.Undefined? then Null else boats
  }

  /** The boats list update_user stores: null when the argument is null or
      missing, the argument itself otherwise. */
  function StoredBoats(boats: IdList): (b: IdList)
    ensures b.Ids? <==> boats.Ids?
    ensures b.Ids? ==> b == boats
    ensures !b.Ids? ==> b == Null
  {
    if boats.Ids? then boats else Null
  }

  /** post_user: store {name, boats} under a fresh id. */
  method PostUser(store: Datastore, name: string, boats: IdList) returns (id: Id)
    requires store.Valid()
    modifies store
    ensures store.Valid()
    ensures id !in old(store.users.rows) && id == FreshId(old(store.users))
    ensures store.Performed([SaveUser(id, User(name, InitialBoats(boats)))])
  {
    id := FreshId(store.users);
    store.Commit(SaveUser(id, User(name, InitialBoats(boats))));
  }

  /** get_users: every stored user, each exactly once, tagged with its id. */
  function GetUsers(t: Table<User>): (q: seq<Entry<User>>)
    requires WellFormed(t)
    ensures forall i :: 0 <= i < |q| ==> q[i].id in t.rows && q[i].record == t.rows[q[i].id]
    ensures forall id :: id in t.rows ==> exists i :: 0 <= i < |q| && q[i].id == id
    ensures forall i, j :: 0 <= i < j < |q| ==> q[i].id != q[j].id
  {
    var q := Query(t);
    assert forall id :: id in t.rows ==> exists i :: 0 <= i < |t.order| && t.order[i] == id;
    q
  }

  /** update_user: overwrite the whole record under id. */
  method UpdateUser(store: Datastore, id: Id, name: string, boats: IdList)
    requires store.Valid()
    modifies store
    ensures store.Valid()
    ensures store.Performed([SaveUser(id, User(name, StoredBoats(boats)))])
  {
    if boats.Null? || boats.Undefined? {
      store.Commit(SaveUser(id, User(name, Null)));
    } else {
      store.Commit(SaveUser(id, User(name, boats)));
    }
  }
}
