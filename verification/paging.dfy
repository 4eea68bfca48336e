/** Keyset paging over a mailbox: newest first, ties broken by the lower message id. */
module Paging {
  import opened Ordered

  datatype Row = Row(id: int, at: int)

  datatype Cursor = Cursor(at: int, id: int)

  const MAX_INT64: int := 0x7FFF_FFFF_FFFF_FFFF
  const ZERO := Cursor(0, 0)

  /** a is listed before b. */
  predicate Before(a: Row, b: Row) { a.at > b.at || (a.at == b.at && a.id < b.id) }

  predicate Sorted(rows: seq<Row>) { forall i, j | 0 <= i < j < |rows| :: Before(rows[i], rows[j]) }

  function Insert(rows: seq<Row>, r: Row): seq<Row> {
    if rows == [] then [r]
    else if Before(r, rows[0]) then [r] + rows
    else [rows[0]] + Insert(rows[1..], r)
  }

  function Sort(rows: seq<Row>): seq<Row> {
    if rows == [] then [] else Insert(Sort(rows[1..]), rows[0])
  }

  lemma {:induction false} InsertSorts(rows: seq<Row>, r: Row)
    requires Sorted(rows) && forall i | 0 <= i < |rows| :: rows[i].id != r.id
    ensures Sorted(Insert(rows, r)) && multiset(Insert(rows, r)) == multiset(rows) + multiset{r}
  {
    if rows != [] && !Before(r, rows[0]) {
      InsertSorts(rows[1..], r);
      var rest := Insert(rows[1..], r);
      assert rows == [rows[0]] + rows[1..];
      forall j | 0 <= j < |rest| ensures Before(rows[0], rest[j]) {
        assert rest[j] in multiset(rest);
        assert rest[j] in rows[1..] || rest[j] == r;
      }
    }
  }

  /** The mailbox's membership rows, one for each message, as the database holds them. */
  predicate Distinct(rows: seq<Row>) { forall i, j | 0 <= i < j < |rows| :: rows[i].id != rows[j].id }

  predicate Storable(rows: seq<Row>) {
    Distinct(rows) && forall i | 0 <= i < |rows| :: rows[i].id >= 1 && rows[i].at <= MAX_INT64
  }

  lemma {:induction false} SortSorts(rows: seq<Row>)
    requires Distinct(rows)
    ensures Sorted(Sort(rows)) && multiset(Sort(rows)) == multiset(rows) && |Sort(rows)| == |rows|
  {
    if rows != [] {
      SortSorts(rows[1..]);
      assert rows == [rows[0]] + rows[1..];
      forall i | 0 <= i < |Sort(rows[1..])| ensures Sort(rows[1..])[i].id != rows[0].id {
        assert Sort(rows[1..])[i] in multiset(rows[1..]);
        assert Sort(rows[1..])[i] in rows[1..];
      }
      InsertSorts(Sort(rows[1..]), rows[0]);
      assert |multiset(Sort(rows))| == |multiset(rows)|;
    }
  }

  // ---------------------------------------------------------------- the two queries

  function Filter(rows: seq<Row>, keep: Row -> bool): seq<Row> {
    if rows == [] then [] else (if keep(rows[0]) then [rows[0]] else []) + Filter(rows[1..], keep)
  }

  lemma {:induction false} FilterAll(rows: seq<Row>, keep: Row -> bool)
    requires forall i | 0 <= i < |rows| :: keep(rows[i])
    ensures Filter(rows, keep) == rows
  {
    if rows != [] { FilterAll(rows[1..], keep); }
  }

  lemma {:induction false} FilterTail(rows: seq<Row>, keep: Row -> bool, k: nat)
    requires k <= |rows| && forall i | 0 <= i < |rows| :: keep(rows[i]) <==> i >= k
    ensures Filter(rows, keep) == rows[k..]
  {
    if k == 0 {
      FilterAll(rows, keep);
    } else {
      FilterTail(rows[1..], keep, k - 1);
    }
  }

  function Reversed(rows: seq<Row>): (r: seq<Row>)
    ensures |r| == |rows| && forall i | 0 <= i < |rows| :: r[i] == rows[|rows| - 1 - i]
  {
    if rows == [] then [] else Reversed(rows[1..]) + [rows[0]]
  }

  /** The forward query: rows past the cursor, newest first. */
  function ForwardQuery(rows: seq<Row>, at: int, id: int, limit: nat): seq<Row> {
    Limit(Filter(Sort(rows), (r: Row) => r.at <= at && (r.at < at || r.id > id)), limit)
  }

  /** The backward query: rows before the cursor, the nearest first. */
  function BackwardQuery(rows: seq<Row>, at: int, id: int, limit: nat): seq<Row> {
    Limit(Filter(Reversed(Sort(rows)), (r: Row) => r.at >= at && (r.at > at || r.id < id)), limit)
  }

  function RowOf(c: Cursor): Row { Row(c.id, c.at) }

  /** How many rows of a list in order stand at a place or before it. */
  function Passed(d: seq<Row>, c: Row): (k: nat)
    ensures k <= |d|
  {
    if d == [] || Before(c, d[0]) then 0 else 1 + Passed(d[1..], c)
  }

  /** How many stand before it. */
  function Ahead(d: seq<Row>, c: Row): (k: nat)
    ensures k <= |d|
  {
    if d == [] || !Before(d[0], c) then 0 else 1 + Ahead(d[1..], c)
  }

  /** Where the rows after a cursor start: the row it was taken from need not be there any more. */
  function Start(rows: seq<Row>, c: Cursor): nat { if c == ZERO then 0 else Passed(Sort(rows), RowOf(c)) }

  lemma {:induction false} PlacesSplit(d: seq<Row>, c: Row)
    requires Sorted(d)
    ensures forall i | 0 <= i < |d| :: Before(c, d[i]) <==> i >= Passed(d, c)
    ensures forall i | 0 <= i < |d| :: Before(d[i], c) <==> i < Ahead(d, c)
  {
    if d != [] {
      PlacesSplit(d[1..], c);
      forall i | 0 < i < |d| ensures Before(d[0], d[i]) && d[i] == d[1..][i - 1] {}
    }
  }

  /** A row of the list stands right where it is. */
  lemma PlaceOfARow(d: seq<Row>, j: nat)
    requires Sorted(d) && j < |d|
    ensures Passed(d, d[j]) == j + 1 && Ahead(d, d[j]) == j
  {
    PlacesSplit(d, d[j]);
    if j + 1 < |d| { assert Before(d[j], d[j + 1]); }
    if j > 0 { assert Before(d[j - 1], d[j]); }
  }

  /** The forward query keeps exactly the rows after the cursor. */
  lemma ForwardIsTheRest(rows: seq<Row>, c: Cursor)
    requires Storable(rows)
    ensures var at := if c == ZERO then MAX_INT64 else c.at;
            Filter(Sort(rows), (r: Row) => r.at <= at && (r.at < at || r.id > c.id)) == Sort(rows)[Start(rows, c)..]
  {
    SortSorts(rows);
    var d := Sort(rows);
    var at := if c == ZERO then MAX_INT64 else c.at;
    var keep := (r: Row) => r.at <= at && (r.at < at || r.id > c.id);
    forall i | 0 <= i < |d| ensures d[i].id >= 1 && d[i].at <= MAX_INT64 {
      assert d[i] in multiset(rows);
      assert d[i] in rows;
    }
    PlacesSplit(d, RowOf(c));
    forall i | 0 <= i < |d| ensures keep(d[i]) <==> i >= Start(rows, c) {
      assert Before(RowOf(c), d[i]) <==> i >= Passed(d, RowOf(c));
    }
    FilterTail(d, keep, Start(rows, c));
  }

  /** ListMailboxForward: the rows right after the cursor, or the newest from the zero cursor. */
  method ListMailboxForward(rows: seq<Row>, cursor: Cursor, limit: nat) returns (page: seq<Row>)
    requires Storable(rows)
    ensures page == Limit(Sort(rows)[Start(rows, cursor)..], limit)
  {
    var at := cursor.at;
    if cursor == ZERO { at := MAX_INT64; }
    ForwardIsTheRest(rows, cursor);
    page := ForwardQuery(rows, at, cursor.id, limit);
  }

  method ReverseInPlace(a: array<Row>)
    modifies a
    ensures a[..] == Reversed(old(a[..]))
  {
    var lo, hi := 0, a.Length;
    while lo + 1 < hi
      invariant 0 <= lo <= hi <= a.Length && lo + hi == a.Length
      invariant forall i | 0 <= i < lo :: a[i] == old(a[a.Length - 1 - i])
      invariant forall i | lo <= i < hi :: a[i] == old(a[i])
      invariant forall i | hi <= i < a.Length :: a[i] == old(a[a.Length - 1 - i])
    {
      hi := hi - 1;
      a[lo], a[hi] := a[hi], a[lo];
      lo := lo + 1;
    }
  }

  /** The backward query keeps exactly the rows before the cursor. */
  lemma BackwardIsTheFront(rows: seq<Row>, c: Cursor)
    requires Storable(rows)
    ensures var d := Sort(rows);
            Filter(Reversed(d), (r: Row) => r.at >= c.at && (r.at > c.at || r.id < c.id))
              == Reversed(d)[|d| - Ahead(d, RowOf(c))..]
  {
    SortSorts(rows);
    var d := Sort(rows);
    var keep := (r: Row) => r.at >= c.at && (r.at > c.at || r.id < c.id);
    var back := Reversed(d);
    PlacesSplit(d, RowOf(c));
    forall i | 0 <= i < |back| ensures keep(back[i]) <==> i >= |d| - Ahead(d, RowOf(c)) {
      assert Before(d[|d| - 1 - i], RowOf(c)) <==> |d| - 1 - i < Ahead(d, RowOf(c));
    }
    FilterTail(back, keep, |d| - Ahead(d, RowOf(c)));
  }

  /** The nearest rows before position p, reversed, are the stretch that ends there. */
  lemma NearestReversed(d: seq<Row>, p: nat, limit: nat)
    requires p <= |d|
    ensures Reversed(Limit(Reversed(d)[|d| - p..], limit)) == d[if p <= limit then 0 else p - limit..p]
  {
    var back := Reversed(d);
    var page := Limit(back[|d| - p..], limit);
    var from := if p <= limit then 0 else p - limit;
    assert |page| == p - from;
    hide Limit, Reversed;
    forall j | 0 <= j < |page| ensures Reversed(page)[j] == d[from + j] {
      var i := |page| - 1 - j;
      assert page[i] == back[|d| - p + i];
    }
    assert |Reversed(page)| == |d[from..p]|;
    assert Reversed(page) == d[from..p];
  }

  lemma BackwardPage(rows: seq<Row>, cursor: Cursor, limit: nat)
    requires Storable(rows)
    ensures var p := Ahead(Sort(rows), RowOf(cursor));
            Reversed(Limit(Filter(Reversed(Sort(rows)),
                                  (r: Row) => r.at >= cursor.at && (r.at > cursor.at || r.id < cursor.id)), limit))
              == Sort(rows)[if p <= limit then 0 else p - limit..p]
  {
    hide Sort, Filter, Reversed, Limit, Ahead, Storable;
    BackwardIsTheFront(rows, cursor);
    NearestReversed(Sort(rows), Ahead(Sort(rows), RowOf(cursor)), limit);
  }

  /** ListMailboxBackward: the rows immediately before the cursor, in the list's own order. */
  method ListMailboxBackward(rows: seq<Row>, cursor: Cursor, limit: nat) returns (page: seq<Row>)
    requires Storable(rows)
    ensures var p := Ahead(Sort(rows), RowOf(cursor)); page == Sort(rows)[if p <= limit then 0 else p - limit..p]
  {
    BackwardPage(rows, cursor, limit);
    var found := BackwardQuery(rows, cursor.at, cursor.id, limit);
    hide *;
    var a := new Row[|found|](i requires 0 <= i < |found| => found[i]);
    assert a[..] == found;
    ReverseInPlace(a);
    page := a[..];
  }

  /** A page taken at row n of the list extends the first n rows, and its last row is where the next begins. */
  lemma NextPage(rows: seq<Row>, n: nat, page: seq<Row>)
    requires Storable(rows) && n <= |Sort(rows)| && page != [] && page <= Sort(rows)[n..]
    ensures n + |page| <= |Sort(rows)| && Sort(rows)[..n] + page == Sort(rows)[..n + |page|]
    ensures Start(rows, Cursor(page[|page| - 1].at, page[|page| - 1].id)) == n + |page|
  {
    SortSorts(rows);
    hide Sort, Passed, Ahead, Before;
    var d := Sort(rows);
    assert page == d[n..n + |page|];
    var last := d[n + |page| - 1];
    assert last in multiset(rows) && last in rows;
    PlaceOfARow(d, n + |page| - 1);
  }

  lemma FirstPage(rows: seq<Row>)
    ensures Start(rows, ZERO) == 0
  {
  }

  /** Following the last row of each forward page from the zero cursor lists every row of an unchanged
      mailbox once, newest first. */
  method ListAll(rows: seq<Row>, limit: nat) returns (all: seq<Row>)
    requires Storable(rows) && limit >= 1
    ensures all == Sort(rows) && Sorted(all) && multiset(all) == multiset(rows)
  {
    SortSorts(rows);
    hide *;
    ghost var d := Sort(rows);
    FirstPage(rows);
    all := [];
    var cursor := ZERO;
    while true
      invariant |all| <= |d| && all == d[..|all|] && Start(rows, cursor) == |all|
      decreases |d| - |all|
    {
      var page := ListMailboxForward(rows, cursor, limit);
      if page == [] { return; }
      NextPage(rows, |all|, page);
      all := all + page;
      var last := page[|page| - 1];
      cursor := Cursor(last.at, last.id);
    }
  }
}
