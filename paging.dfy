/** Cursor pagination. A query over a kind yields that kind's records in the
    store's fixed iteration order; a cursor is modelled as the position in
    that order where the next page starts. A page holds at most `size`
    records from the cursor on, and carries a cursor for the next page
    exactly when records remain after it. */
module Paging {
  import opened Records

  datatype Page<T> = Page(items: seq<T>, next: Option<nat>)

  function Min(a: nat, b: nat): nat {
    if a <= b then a else b
  }

  /** The page a limit-`size` query started at `cursor` returns. */
  function PageAt<T>(s: seq<T>, cursor: nat, size: nat): (p: Page<T>)
    ensures |p.items| <= size
    ensures |p.items| == if |s| <= cursor then 0 else Min(size, |s| - cursor)
    ensures forall i :: 0 <= i < |p.items| ==> cursor + i < |s| && p.items[i] == s[cursor + i]
    ensures p.next.Some? <==> cursor + size < |s|
    ensures p.next.Some? ==> p.next.value == cursor + |p.items| && |p.items| == size
  {
    var lo := Min(cursor, |s|);
    var hi := Min(cursor + size, |s|);
    Page(s[lo..hi], if cursor + size < |s| then Some(cursor + size) else None)
  }

  /** Every page obtained by starting at `cursor` and following `next` until it is absent. */
  function Pages<T>(s: seq<T>, cursor: nat, size: nat): seq<Page<T>>
    requires size > 0
    decreases |s| - cursor
  {
    var p := PageAt(s, cursor, size);
    if p.next.Some? then [p] + Pages(s, p.next.value, size) else [p]
  }

  function Flatten<T>(ps: seq<Page<T>>): seq<T> {
    if ps == [] then [] else ps[0].items + Flatten(ps[1..])
  }

  /** Following the cursors from `cursor` yields the rest of the query, in order.
      From cursor 0 that is every record exactly once. */
  lemma {:induction false} PagesCover<T>(s: seq<T>, cursor: nat, size: nat)
    requires size > 0 && cursor <= |s|
    ensures Flatten(Pages(s, cursor, size)) == s[cursor..]
    decreases |s| - cursor
  {
    var p := PageAt(s, cursor, size);
    var ps := Pages(s, cursor, size);
    if p.next.Some? {
      PagesCover(s, cursor + size, size);
      assert ps[1..] == Pages(s, cursor + size, size);
      assert p.items == s[cursor..cursor + size];
      assert s[cursor..] == s[cursor..cursor + size] + s[cursor + size..];
    } else {
      assert ps == [p] && ps[1..] == [];
      assert p.items == s[cursor..];
    }
  }

  /** Every page but the last is full and carries a cursor; the last carries none. */
  lemma {:induction false} PagesShape<T>(s: seq<T>, cursor: nat, size: nat)
    requires size > 0
    ensures var ps := Pages(s, cursor, size);
            && |ps| > 0
            && ps[|ps| - 1].next.None?
            && forall k :: 0 <= k < |ps| - 1 ==> ps[k].next.Some? && |ps[k].items| == size
    decreases |s| - cursor
  {
    var p := PageAt(s, cursor, size);
    if p.next.Some? {
      PagesShape(s, cursor + size, size);
    }
  }

  /** The pages of a query over 7 records with page size 3 hold 3, 3 and 1
      records, and the third carries no cursor. */
  lemma SevenByThree<T>(s: seq<T>)
    requires |s| == 7
    ensures var ps := Pages(s, 0, 3);
            |ps| == 3 && |ps[0].items| == 3 && |ps[1].items| == 3 && |ps[2].items| == 1 && ps[2].next == None
  {
    assert Pages(s, 6, 3) == [PageAt(s, 6, 3)];
    assert Pages(s, 3, 3) == [PageAt(s, 3, 3)] + Pages(s, 6, 3);
  }
}
