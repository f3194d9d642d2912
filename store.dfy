/** The document store: one table per kind (boats, loads, users), each a map
    from key id to record plus the kind's fixed iteration order, and the
    single-record writes (`save` overwrites a whole record, `delete` removes
    it) that every operation is made of. */
module Store {
  import opened Records

  /** The records of one kind and the order in which a query returns them. */
  datatype Table<T> = Table(rows: map<Id, T>, order: seq<Id>)

  predicate Distinct(s: seq<Id>) {
    forall i, j :: 0 <= i < j < |s| ==> s[i] != s[j]
  }

  /** The order lists every stored id exactly once. */
  ghost predicate WellFormed<T>(t: Table<T>) {
    && Distinct(t.order)
    && forall id :: id in t.rows <==> id in t.order
  }

  /** `save`: overwrite (or create) the record under id; a new id joins the end of the order. */
  function Put<T>(t: Table<T>, id: Id, v: T): Table<T> {
    Table(t.rows[id := v], if id in t.rows then t.order else t.order + [id])
  }

  /** s with every occurrence of x left out. */
  function Without(s: seq<Id>, x: Id): (r: seq<Id>)
    ensures forall y :: y in r <==> y in s && y != x
    ensures Distinct(s) ==> Distinct(r)
    ensures x !in s ==> r == s
  {
    if s == [] then []
    else
      var rest := Without(s[1..], x);
      if s[0] == x then rest
      else
        var r := [s[0]] + rest;
        assert Distinct(s) ==> Distinct(r) by {
          if Distinct(s) {
            forall i, j | 0 <= i < j < |r| ensures r[i] != r[j] {
              if i == 0 {
                assert r[j] == rest[j - 1] && rest[j - 1] in rest;
              } else {
                assert r[i] == rest[i - 1] && r[j] == rest[j - 1];
              }
            }
          }
        }
        r
  }

  /** `delete`: remove the record under id (nothing happens if there is none). */
  function Remove<T>(t: Table<T>, id: Id): Table<T> {
    Table(t.rows - {id}, Without(t.order, id))
  }

  lemma PutWellFormed<T>(t: Table<T>, id: Id, v: T)
    requires WellFormed(t)
    ensures WellFormed(Put(t, id, v))
  {
    if id !in t.rows {
      var o := t.order + [id];
      forall i, j | 0 <= i < j < |o| ensures o[i] != o[j] {
        if j == |t.order| {
          assert o[i] == t.order[i] && t.order[i] in t.order;
        }
      }
    }
  }

  /** A number larger than every id in s. */
  function NextId(s: seq<Id>): (r: Id)
    ensures forall i :: 0 <= i < |s| ==> s[i] < r
  {
    if s == [] then 1
    else
      var m := NextId(s[1..]);
      assert forall i :: 1 <= i < |s| ==> s[i] == s[1..][i - 1];
      if s[0] < m then m else s[0] + 1
  }

  /** The id the store allocates for a new record of this kind. */
  function FreshId<T>(t: Table<T>): (r: Id)
    requires WellFormed(t)
    ensures r !in t.rows
  {
    NextId(t.order)
  }

  /** A query over the whole kind: every record with its id, in the kind's order. */
  function Query<T>(t: Table<T>): (q: seq<Entry<T>>)
    requires WellFormed(t)
    ensures |q| == |t.order|
    ensures forall i :: 0 <= i < |q| ==> q[i].id == t.order[i] && q[i].id in t.rows && q[i].record == t.rows[q[i].id]
  {
    seq(|t.order|, i requires 0 <= i < |t.order| => Entry(t.order[i], t.rows[t.order[i]]))
  }

  /** `get` by key: the record tagged with its id, or nothing for an absent id. */
  function Lookup<T>(t: Table<T>, id: Id): (r: Option<Entry<T>>)
    ensures r.None? <==> id !in t.rows
    ensures r.Some? ==> r.value.id == id && r.value.record == t.rows[id]
  {
    if id in t.rows then Some(Entry(id, t.rows[id])) else None
  }

  /** The state of the store: one table per kind. */
  datatype Db = Db(boats: Table<Boat>, loads: Table<Load>, users: Table<User>)

  ghost predicate WellFormedDb(db: Db) {
    WellFormed(db.boats) && WellFormed(db.loads) && WellFormed(db.users)
  }

  const Empty: Db := Db(Table(map[], []), Table(map[], []), Table(map[], []))

  /** One committed single-record write. */
  datatype Write =
    | SaveBoat(id: Id, boat: Boat)
    | SaveLoad(id: Id, load: Load)
    | SaveUser(id: Id, user: User)
    | DeleteBoat(id: Id)
    | DeleteLoad(id: Id)

  function Apply(db: Db, w: Write): Db {
    match w
    case SaveBoat(id, b) => db.(boats := Put(db.boats, id, b))
    case SaveLoad(id, l) => db.(loads := Put(db.loads, id, l))
    case SaveUser(id, u) => db.(users := Put(db.users, id, u))
    case DeleteBoat(id) => db.(boats := Remove(db.boats, id))
    case DeleteLoad(id) => db.(loads := Remove(db.loads, id))
  }

  /** The store after the writes, in order. */
  function ApplyAll(db: Db, ws: seq<Write>): Db
    decreases |ws|
  {
    if ws == [] then db else ApplyAll(Apply(db, ws[0]), ws[1..])
  }

  lemma ApplyWellFormed(db: Db, w: Write)
    requires WellFormedDb(db)
    ensures WellFormedDb(Apply(db, w))
  {
    match w
    case SaveBoat(id, b) => PutWellFormed(db.boats, id, b);
    case SaveLoad(id, l) => PutWellFormed(db.loads, id, l);
    case SaveUser(id, u) => PutWellFormed(db.users, id, u);
    case DeleteBoat(id) =>
    case DeleteLoad(id) =>
  }

  /** Writes never break the key/order correspondence of any table. */
  lemma {:induction false} ApplyAllWellFormed(db: Db, ws: seq<Write>)
    requires WellFormedDb(db)
    ensures WellFormedDb(ApplyAll(db, ws))
    decreases |ws|
  {
    if ws != [] {
      ApplyWellFormed(db, ws[0]);
      ApplyAllWellFormed(Apply(db, ws[0]), ws[1..]);
    }
  }

  /** Running two batches of writes one after the other is running their concatenation. */
  lemma {:induction false} ApplyAllAppend(db: Db, a: seq<Write>, b: seq<Write>)
    ensures ApplyAll(db, a + b) == ApplyAll(ApplyAll(db, a), b)
    decreases |a|
  {
    if a == [] {
      assert a + b == b;
    } else {
      assert (a + b)[1..] == a[1..] + b;
      ApplyAllAppend(Apply(db, a[0]), a[1..], b);
    }
  }

  lemma ApplyOne(db: Db, w: Write)
    ensures ApplyAll(db, [w]) == Apply(db, w)
  {
    assert [w][1..] == [];
  }

  lemma ApplyTwo(db: Db, v: Write, w: Write)
    ensures ApplyAll(db, [v, w]) == Apply(Apply(db, v), w)
  {
    assert [v, w][1..] == [w];
    ApplyOne(Apply(db, v), w);
  }

  /** None of the writes deletes a boat. */
  predicate NoBoatDeleted(ws: seq<Write>) {
    forall w :: w in ws ==> !w.DeleteBoat?
  }

  /** Writes that delete no boat keep every stored boat stored. */
  lemma {:induction false} NoDeleteKeepsBoat(db: Db, ws: seq<Write>, id: Id)
    requires id in db.boats.rows && NoBoatDeleted(ws)
    ensures id in ApplyAll(db, ws).boats.rows
    decreases |ws|
  {
    if ws != [] {
      assert ws[0] in ws;
      assert forall w :: w in ws[1..] ==> w in ws;
      NoDeleteKeepsBoat(Apply(db, ws[0]), ws[1..], id);
    }
  }

  /** The writes a model function made, and whether it then threw (a
      TypeError from reading a property of a missing record or of null). */
  datatype Run = Run(writes: seq<Write>, thrown: bool)

  /** The writes a request handler made, and its answer. */
  datatype Response = Response(writes: seq<Write>, reply: Reply)

  /** The store as an object that the services update in place. The ghost log
      records every committed write, so that an operation's contract can say
      which writes it made and in which order. */
  class Datastore {
    var boats: Table<Boat>
    var loads: Table<Load>
    var users: Table<User>
    ghost var log: seq<Write>

    function State(): Db
      reads this
    {
      Db(boats, loads, users)
    }

    ghost predicate Valid()
      reads this
    {
      WellFormedDb(State())
    }

    /** Since the pre-state, exactly the writes ws were committed, in this order. */
    twostate predicate Performed(ws: seq<Write>)
      reads this
    {
      log == old(log) + ws && State() == ApplyAll(old(State()), ws)
    }

    constructor ()
      ensures Valid() && State() == Empty && log == []
    {
      boats, loads, users := Table(map[], []), Table(map[], []), Table(map[], []);
      log := [];
    }

    /** Commit one write to the store. */
    method Commit(w: Write)
      requires Valid()
      modifies this
      ensures Valid() && Performed([w]) && State() == Apply(old(State()), w)
    {
      ApplyWellFormed(State(), w);
      ApplyOne(State(), w);
      var after := Apply(State(), w);
      boats, loads, users := after.boats, after.loads, after.users;
      log := log + [w];
    }
  }

  /** Deleting a boat removes that key and nothing else. */
  lemma DeleteBoatStep(db: Db, ws: seq<Write>, id: Id)
    ensures var mid := ApplyAll(db, ws);
            var after := ApplyAll(db, ws + [Write.DeleteBoat(id)]);
            && id !in after.boats.rows
            && (forall o :: o in after.boats.rows <==> o in mid.boats.rows && o != id)
            && (forall o :: o in after.boats.rows ==> after.boats.rows[o] == mid.boats.rows[o])
            && after.loads == mid.loads && after.users == mid.users
  {
    ApplyAllAppend(db, ws, [Write.DeleteBoat(id)]);
    ApplyOne(ApplyAll(db, ws), Write.DeleteBoat(id));
  }

  /** Appending two batches to a log one after the other appends their concatenation. */
  lemma AppendAssoc(log: seq<Write>, a: seq<Write>, b: seq<Write>)
    ensures (log + a) + b == log + (a + b)
  {
  }

  /** Two consecutive commit batches make one. */
  lemma Chain(s0: Db, s1: Db, s2: Db, a: seq<Write>, b: seq<Write>)
    requires s1 == ApplyAll(s0, a) && s2 == ApplyAll(s1, b)
    ensures s2 == ApplyAll(s0, a + b)
  {
    ApplyAllAppend(s0, a, b);
  }
}
