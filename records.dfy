/** The records kept in the document store, the request bodies that carry them,
    and the list operations the services apply to their id lists. */
module Records {

  /** A numeric datastore key id (path ids are parsed with parseInt before use). */
  type Id = nat

  datatype Option<T> = None | Some(value: T)

  /** A denormalised reference to another record: a load's carrier {id, name}
      and a boat's owner {id, name}. */
  datatype Ref = Ref(id: Id, name: string)

  /** A list-valued property of a stored record: it may be missing, null, or an
      array of ids. The services treat the three differently. */
  datatype IdList = Undefined | Null | Ids(ids: seq<Id>)

  datatype Boat = Boat(name: string, boatType: string, length: int, loads: IdList, owner: Option<Ref>)

  datatype Load = Load(volume: int, item: string, creationDate: string, carrier: Option<Ref>)

  datatype User = User(name: string, boats: IdList)

  /** A record together with the id of its key (what `fromDatastore` produces). */
  datatype Entry<T> = Entry(id: Id, record: T)

  /** The outcome of a request handler, one constructor per kind of answer. */
  datatype Reply =
    | Created(id: Id)        // 201
    | SeeOther(id: Id)       // 303 to the updated record
    | NoContent              // 204
    | MissingAttributes      // 400, a required attribute is absent
    | NameInUse              // 400, the name check refused the name
    | Unauthorized           // 401
    | Forbidden              // 403
    | NotFound               // 404
    | ServerError            // 500, or a rejected promise that leaves the request unanswered

  /** JavaScript truthiness of an optional string attribute: absent, null and "" are falsy. */
  predicate Given(f: Option<string>) {
    f.Some? && f.value != ""
  }

  /** JavaScript truthiness of an optional number attribute: absent, null and 0 are falsy. */
  predicate GivenNumber(f: Option<int>) {
    f.Some? && f.value != 0
  }

  /** The ids an IdList holds; a missing or null list holds none. */
  function Elements(l: IdList): seq<Id> {
    if l.Ids? then l.ids else []
  }

  /** Number of occurrences of x in s. */
  function Count(x: Id, s: seq<Id>): nat {
    if s == [] then 0 else (if s[0] == x then 1 else 0) + Count(x, s[1..])
  }

  lemma {:induction false} CountAppend(x: Id, a: seq<Id>, b: seq<Id>)
    ensures Count(x, a + b) == Count(x, a) + Count(x, b)
  {
    if a == [] {
      assert a + b == b;
    } else {
      assert (a + b)[1..] == a[1..] + b;
      CountAppend(x, a[1..], b);
    }
  }

  lemma {:induction false} CountMember(x: Id, s: seq<Id>)
    ensures Count(x, s) > 0 <==> x in s
  {
    if s != [] {
      CountMember(x, s[1..]);
      assert s == [s[0]] + s[1..];
    }
  }

  /** a is b with some elements left out, the rest kept in their order. */
  predicate Subsequence<T(==)>(a: seq<T>, b: seq<T>)
    decreases |b|
  {
    a == [] || (b != [] && ((a[0] == b[0] && Subsequence(a[1..], b[1..])) || Subsequence(a, b[1..])))
  }

  /** `findIndex(element => element == x)`: the first index holding x, or -1. */
  function FindIndex(s: seq<Id>, x: Id): (i: int)
    ensures -1 <= i < |s|
    ensures i == -1 <==> x !in s
    ensures 0 <= i ==> s[i] == x && x !in s[..i]
  {
    if s == [] then -1
    else if s[0] == x then 0
    else
      var j := FindIndex(s[1..], x);
      assert j >= 0 ==> s[..j + 1] == [s[0]] + s[1..][..j];
      if j == -1 then -1 else j + 1
  }

  /** Reference definition of "remove the first occurrence of x". */
  function RemoveFirst(s: seq<Id>, x: Id): (r: seq<Id>)
    ensures x !in s ==> r == s
    ensures x in s ==> |r| == |s| - 1 && Count(x, r) == Count(x, s) - 1
    ensures forall y :: y != x ==> Count(y, r) == Count(y, s)
    ensures forall y :: y in r ==> y in s
  {
    if s == [] then []
    else if s[0] == x then s[1..]
    else
      var r := [s[0]] + RemoveFirst(s[1..], x);
      assert r[1..] == RemoveFirst(s[1..], x);
      r
  }

  /** The boat with the first occurrence of lid spliced out of its loads,
      when that list is an array; otherwise the boat as it was. */
  function WithoutLoad(b: Boat, lid: Id): Boat {
    if b.loads.Ids? then b.(loads := Ids(RemoveFirst(b.loads.ids, lid))) else b
  }

  /** The user with the first occurrence of bid spliced out of its boats,
      when that list is an array; otherwise the user as it was. */
  function WithoutBoat(u: User, bid: Id): User {
    if u.boats.Ids? then u.(boats := Ids(RemoveFirst(u.boats.ids, bid))) else u
  }

  /** What the services do in place: find the first matching index and, if
      there is one, `splice(index, 1)`. */
  function SpliceOut(s: seq<Id>, x: Id): seq<Id> {
    var i := FindIndex(s, x);
    if i > -1 then s[..i] + s[i + 1..] else s
  }

  /** The in-place removal is the reference removal. */
  lemma {:induction false} SpliceRemovesFirst(s: seq<Id>, x: Id)
    ensures SpliceOut(s, x) == RemoveFirst(s, x)
  {
    if s != [] && s[0] != x {
      SpliceRemovesFirst(s[1..], x);
      SpliceCons(s, x);
    }
  }

  lemma SpliceCons(s: seq<Id>, x: Id)
    requires s != [] && s[0] != x
    ensures SpliceOut(s, x) == [s[0]] + SpliceOut(s[1..], x)
  {
    var t := s[1..];
    var j := FindIndex(t, x);
    if j > -1 {
      assert s[..j + 1] + s[j + 2..] == [s[0]] + (t[..j] + t[j + 1..]);
    }
  }
}
