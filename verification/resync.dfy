/** The full resync: a baseline pull over a still server, then a paged delete of what it did not list. */
module FullResync {
  import opened Common
  import opened Ordered
  import opened SyncTypes

  /** One row of the kind's table. `local` is a draft's origin; a mailbox row never has it. */
  datatype Row = Row(account: int, serverId: Option<string>, local: bool, fields: Fields)

  type Table = map<int, Row>

  const STALE_SCAN_PAGE: nat := 500

  predicate Unique(rows: Table) {
    forall x, y | x in rows && y in rows && rows[x].account == rows[y].account && rows[x].serverId.Some?
                  && rows[x].serverId == rows[y].serverId :: x == y
  }

  predicate RowIs(rows: Table, account: int, serverId: string, id: int) {
    id in rows && rows[id].account == account && rows[id].serverId == Some(serverId)
  }

  /** The rows a resync of the account may delete: of messages only those of the server's making. */
  predicate Deletable(kind: Kind, account: int, r: Row) { r.account == account && !(kind == MessageKind && r.local) }

  /** A deletable row whose server id the baseline did not list, or that has none. */
  predicate Stale(kind: Kind, account: int, keep: set<string>, r: Row) {
    Deletable(kind, account, r) && !(r.serverId.Some? && r.serverId.value in keep)
  }

  // ---------------------------------------------------------------- what a resync leaves alone

  /** Row id of `before` is no business of the resync: another account's, or a local draft the
      baseline says nothing of. */
  predicate Untouchable(kind: Kind, account: int, truth: Truth, r: Row) {
    r.account != account || (kind == MessageKind && r.local && !(r.serverId.Some? && r.serverId.value in truth))
  }

  predicate LeftAlone(kind: Kind, account: int, truth: Truth, before: Table, after: Table, id: int) {
    id in before && Untouchable(kind, account, truth, before[id]) ==> id in after && after[id] == before[id]
  }

  /** A local draft the baseline lists is refreshed in place and stays local. */
  predicate DraftKept(kind: Kind, account: int, before: Table, after: Table, id: int) {
    id in before && before[id].account == account && kind == MessageKind && before[id].local ==>
      id in after && after[id].local && after[id].account == account && after[id].serverId == before[id].serverId
  }

  /** A row the baseline lists is never lost: it stays under its id, whoever made it. */
  predicate ListedStays(account: int, truth: Truth, before: Table, after: Table, id: int) {
    id in before && before[id].account == account && before[id].serverId.Some? && before[id].serverId.value in truth ==>
      id in after && after[id].account == account && after[id].serverId == before[id].serverId
      && after[id].local == before[id].local
  }

  /** A row that was not there before belongs to the account. */
  predicate NewIsOurs(account: int, before: Table, after: Table, id: int) {
    id in after && id !in before ==> after[id].account == account && !after[id].local
  }

  predicate Careful(kind: Kind, account: int, truth: Truth, before: Table, after: Table, id: int) {
    LeftAlone(kind, account, truth, before, after, id) && DraftKept(kind, account, before, after, id)
        && NewIsOurs(account, before, after, id)
    && (id in before && id in after ==>
        after[id].account == before[id].account && after[id].serverId == before[id].serverId
                                        && after[id].local == before[id].local)
  }

  // ---------------------------------------------------------------- what a resync achieves

  /** The account's row under a listed server id holds the server's fields. */
  predicate Has(rows: Table, account: int, truth: Truth, serverId: string) {
    exists id | id in rows ::
        RowIs(rows, account, serverId, id) && serverId in truth && rows[id].fields == truth[serverId]
  }

  /** A row of the account, unless it is a local draft, is under a listed id and holds its fields. */
  predicate IsListed(kind: Kind, account: int, truth: Truth, r: Row) {
    r.account == account && !(kind == MessageKind && r.local) ==>
      r.serverId.Some? && r.serverId.value in truth && r.fields == truth[r.serverId.value]
  }

  /** The account's server rows are the baseline's: each listed id has its one row with its fields,
      and no row but a local draft is under any other id or holds anything else. */
  ghost predicate Exact(kind: Kind, rows: Table, account: int, truth: Truth) {
    && Unique(rows)
    && (forall serverId | serverId in truth :: Has(rows, account, truth, serverId))
    && (forall id | id in rows :: IsListed(kind, account, truth, rows[id]))
  }

  lemma ListedHolds(kind: Kind, rows: Table, account: int, truth: Truth, id: int)
    requires Unique(rows) && id in rows && !Stale(kind, account, truth.Keys, rows[id])
    requires forall serverId | serverId in truth :: Has(rows, account, truth, serverId)
    ensures IsListed(kind, account, truth, rows[id])
  {
    var r := rows[id];
    if Deletable(kind, account, r) {
      assert Has(rows, account, truth, r.serverId.value);
      var x :| x in rows && RowIs(rows, account, r.serverId.value, x) && rows[x].fields == truth[r.serverId.value];
      assert x == id;
    }
  }

  /** One record written: the row under its server id updated, or a new row. */
  function Put(rows: Table, account: int, rec: Rec): Table {
    if Present(rows, account, rec.id) then
      map id | id in rows :: if RowIs(rows, account, rec.id, id) then rows[id].(fields := rec.fields) else rows[id]
    else rows[NextId(rows.Keys) := Row(account, Some(rec.id), false, rec.fields)]
  }

  predicate Present(rows: Table, account: int, serverId: string) {
    exists id | id in rows :: RowIs(rows, account, serverId, id)
  }

  lemma PutKeepsUnique(rows: Table, account: int, rec: Rec, truth: Truth)
    requires Unique(rows) && rec.id in truth && truth[rec.id] == rec.fields
    ensures Unique(Put(rows, account, rec)) && Has(Put(rows, account, rec), account, truth, rec.id)
  {
    var after := Put(rows, account, rec);
    if Present(rows, account, rec.id) {
      var id :| id in rows && RowIs(rows, account, rec.id, id);
      assert id in after && RowIs(after, account, rec.id, id);
    } else {
      PutNew(rows, account, rec);
      assert RowIs(after, account, rec.id, NextId(rows.Keys));
    }
  }

  lemma PutKeepsRow(kind: Kind, rows: Table, account: int, rec: Rec, truth: Truth, id: int)
    requires rec.id in truth
    ensures Careful(kind, account, truth, rows, Put(rows, account, rec), id)
    ensures id in rows ==> id in Put(rows, account, rec)
                           && Put(rows, account, rec)[id]
                               == if RowIs(rows, account, rec.id, id) then rows[id].(fields := rec.fields) else rows[id]
  {
    if !Present(rows, account, rec.id) { assert NextId(rows.Keys) !in rows.Keys; }
  }

  lemma PutKeepsHas(rows: Table, account: int, rec: Rec, truth: Truth, s: string)
    requires rec.id in truth && truth[rec.id] == rec.fields && Has(rows, account, truth, s)
    ensures Has(Put(rows, account, rec), account, truth, s)
  {
    var id :| id in rows && RowIs(rows, account, s, id) && s in truth && rows[id].fields == truth[s];
    PutKeepsRow(MessageKind, rows, account, rec, truth, id);
    assert RowIs(Put(rows, account, rec), account, s, id);
  }

  lemma PutNew(rows: Table, account: int, rec: Rec)
    requires Unique(rows) && forall id | id in rows :: !RowIs(rows, account, rec.id, id)
    ensures Unique(rows[NextId(rows.Keys) := Row(account, Some(rec.id), false, rec.fields)])
  {
    var n := NextId(rows.Keys);
    var after := rows[n := Row(account, Some(rec.id), false, rec.fields)];
    forall x, y | x in after && y in after && after[x].account == after[y].account && after[x].serverId.Some?
        && after[x].serverId == after[y].serverId
      ensures x == y
    {
      assert x != n && x in rows ==> !RowIs(rows, account, rec.id, x);
      assert y != n && y in rows ==> !RowIs(rows, account, rec.id, y);
    }
  }

  // ---------------------------------------------------------------- the stale scan

  lemma StaleIff(kind: Kind, account: int, keep: set<string>, r: Row)
    ensures Stale(kind, account, keep, r) <==>
              && r.account == account && (kind != MessageKind || !r.local)
              && (r.serverId.None? || r.serverId.value !in keep)
  {
  }

  /** One page of the scan: the stale ids among the rows it examined, and the last it examined. */
  method StaleIds(kind: Kind, rows: Table, account: int, keep: set<string>, after: int, limit: nat)
    returns (stale: seq<int>, cursor: int)
    requires forall id | id in rows :: id >= 1
    requires limit >= 1 && after >= 0
    ensures forall id :: id in stale <==> id in rows && after < id <= cursor && Stale(kind, account, keep, rows[id])
    ensures forall id :: id in stale <==>
              && id in rows && after < id <= cursor && rows[id].account == account
              && (kind != MessageKind || !rows[id].local)
              && (rows[id].serverId.None? || rows[id].serverId.value !in keep)
    ensures cursor == 0 <==> forall id | id in rows :: id <= after
    ensures cursor != 0 ==> cursor > after && cursor in rows
  {
    hide Stale;
    var all := Ascending(set id | id in rows && id > after);
    var page := Limit(all, limit);
    forall i | 0 <= i < |page| ensures page[i] in rows && page[i] > after {
      var id := page[i];
      assert all[i] == id && id in all;
    }
    stale, cursor := ScanPage(kind, rows, account, keep, page);
    PageIsAllUpTo(rows, after, all, page);
    forall id | id in rows { StaleIff(kind, account, keep, rows[id]); }
    if page != [] { var last := page[|page| - 1]; assert last in rows; }
  }

  /** The rows of one page, in order. */
  method ScanPage(kind: Kind, rows: Table, account: int, keep: set<string>, page: seq<int>)
    returns (stale: seq<int>, cursor: int)
    requires forall i | 0 <= i < |page| :: page[i] in rows
    ensures forall id :: id in stale <==> id in page && id in rows && Stale(kind, account, keep, rows[id])
    ensures cursor == if page == [] then 0 else page[|page| - 1]
  {
    stale, cursor := [], 0;
    for i := 0 to |page|
      invariant cursor == if i == 0 then 0 else page[i - 1]
      invariant forall id: int :: id in stale <==> id in page[..i] && id in rows && Stale(kind, account, keep, rows[id])
    {
      assert page[..i + 1] == page[..i] + [page[i]];
      var id := page[i];
      cursor := id;
      if Stale(kind, account, keep, rows[id]) { stale := stale + [id]; }
    }
    assert page[..|page|] == page;
  }

  /** A page examines every row up to its last. */
  lemma PageIsAllUpTo(rows: Table, after: int, all: seq<int>, page: seq<int>)
    requires page <= all && (all != [] ==> page != [])
    requires forall i, j | 0 <= i < j < |all| :: all[i] < all[j]
    requires forall id :: id in all <==> id in rows && id > after
    ensures page != [] ==> forall id: int :: id in page <==> id in rows && after < id <= page[|page| - 1]
    ensures page == [] ==> forall id | id in rows :: id <= after
  {
    if page != [] {
      forall id: int ensures id in page <==> id in rows && after < id <= page[|page| - 1] {
        if id in page {
          var i :| 0 <= i < |page| && page[i] == id;
          assert all[i] == id && id in all;
        }
        if id in rows && after < id <= page[|page| - 1] {
          assert id in all;
          var i :| 0 <= i < |all| && all[i] == id;
          assert all[|page| - 1] == page[|page| - 1];
          assert i < |page| && page[i] == id;
        }
      }
    } else {
      assert all == [];
      forall id | id in rows ensures id <= after { assert id in all <==> id > after; }
    }
  }

  // ---------------------------------------------------------------- the resync

  /** What upserting the baseline has done so far: nothing lost, nothing spoilt. */
  ghost predicate Progress(kind: Kind, account: int, truth: Truth, before: Table, now: Table) {
    && Unique(now)
    && (forall id :: Careful(kind, account, truth, before, now, id) && (id in before ==> id in now))
    && (forall s | Has(before, account, truth, s) :: Has(now, account, truth, s))
    && (forall id | id in now :: id >= 1)
  }

  lemma ProgressPut(kind: Kind, account: int, truth: Truth, before: Table, now: Table, rec: Rec)
    requires Progress(kind, account, truth, before, now) && rec.id in truth && truth[rec.id] == rec.fields
    ensures Progress(kind, account, truth, before, Put(now, account, rec))
        && Has(Put(now, account, rec), account, truth, rec.id)
    ensures forall s | Has(now, account, truth, s) :: Has(Put(now, account, rec), account, truth, s)
  {
    var after := Put(now, account, rec);
    PutKeepsUnique(now, account, rec, truth);
    forall id: int ensures Careful(kind, account, truth, before, after, id) && (id in before ==> id in after) {
      assert Careful(kind, account, truth, before, now, id) && (id in before ==> id in now);
      PutKeepsRow(kind, now, account, rec, truth, id);
    }
    forall s | Has(now, account, truth, s) ensures Has(after, account, truth, s) {
      PutKeepsHas(now, account, rec, truth, s);
    }
    forall id | id in after ensures id >= 1 { PutIds(now, account, rec, id); }
  }

  lemma PutIds(rows: Table, account: int, rec: Rec, id: int)
    requires (forall x | x in rows :: x >= 1) && id in Put(rows, account, rec)
    ensures id >= 1
  {
    forall x | x in rows.Keys ensures x >= 1 {}
  }

  /** Rows only went, and only stale ones. */
  predicate PrunedAt(kind: Kind, account: int, keep: set<string>, before: Table, now: Table, id: int) {
    && (id in now ==> id in before && now[id] == before[id])
    && (id in before && id !in now ==> Stale(kind, account, keep, before[id]))
  }

  ghost predicate Pruned(kind: Kind, account: int, keep: set<string>, before: Table, now: Table) {
    forall id :: PrunedAt(kind, account, keep, before, now, id)
  }

  /** What is gone was the account's, no local draft, and not listed. */
  lemma PrunedRows(kind: Kind, account: int, keep: set<string>, before: Table, now: Table)
    requires Pruned(kind, account, keep, before, now)
    ensures forall id | id in before && id !in now ::
              && before[id].account == account && (kind != MessageKind || !before[id].local)
              && (before[id].serverId.None? || before[id].serverId.value !in keep)
  {
    forall id | id in before && id !in now
      ensures before[id].account == account && (kind != MessageKind || !before[id].local)
      ensures before[id].serverId.None? || before[id].serverId.value !in keep
    {
      assert PrunedAt(kind, account, keep, before, now, id);
    }
  }

  /** What no resync, finished or not, does to a row. */
  predicate Spared(kind: Kind, account: int, truth: Truth, before: Table, after: Table, id: int) {
    LeftAlone(kind, account, truth, before, after, id) && DraftKept(kind, account, before, after, id)
        && NewIsOurs(account, before, after, id) && ListedStays(account, truth, before, after, id)
  }

  lemma PrunedIsSpared(kind: Kind, account: int, truth: Truth, before: Table, mid: Table, after: Table)
    requires Progress(kind, account, truth, before, mid) && Pruned(kind, account, truth.Keys, mid, after)
    ensures forall id :: Spared(kind, account, truth, before, after, id)
  {
    forall id: int ensures Spared(kind, account, truth, before, after, id) {
      assert Careful(kind, account, truth, before, mid, id) && (id in before ==> id in mid);
      assert PrunedAt(kind, account, truth.Keys, mid, after, id);
    }
  }

  /** Once nothing stale is left, what the upserts put is exactly what is there. */
  lemma PrunedIsExact(kind: Kind, account: int, truth: Truth, mid: Table, after: Table)
    requires Unique(mid) && (forall s | s in truth :: Has(mid, account, truth, s))
        && Pruned(kind, account, truth.Keys, mid, after)
    requires forall id | id in after :: !Stale(kind, account, truth.Keys, after[id])
    ensures Exact(kind, after, account, truth)
  {
    forall x, y | x in after && y in after && after[x].account == after[y].account && after[x].serverId.Some?
        && after[x].serverId == after[y].serverId
      ensures x == y
    {
      assert PrunedAt(kind, account, truth.Keys, mid, after, x) && PrunedAt(kind, account, truth.Keys, mid, after, y);
    }
    forall s | s in truth ensures Has(after, account, truth, s) {
      assert Has(mid, account, truth, s);
      var id :| id in mid && RowIs(mid, account, s, id) && s in truth && mid[id].fields == truth[s];
      assert PrunedAt(kind, account, truth.Keys, mid, after, id);
      assert s in truth.Keys;
      assert id in after && RowIs(after, account, s, id);
    }
    forall id | id in after ensures IsListed(kind, account, truth, after[id]) {
      ListedHolds(kind, after, account, truth, id);
    }
  }

  class Worker {
    const kind: Kind
    const account: int
    var rows: Table
    /** The state token the watermark holds. */
    var mark: Option<string>
    /** How many transactions and requests have failed so far. */
    ghost var faults: nat

    constructor (kind: Kind, account: int, rows: Table, mark: Option<string>)
      ensures this.kind == kind && this.account == account && this.rows == rows && this.mark == mark
    {
      this.kind, this.account, this.rows, this.mark, this.faults := kind, account, rows, mark, 0;
    }

    /** A transaction or a request: it succeeds, or the failure is on record. */
    method Attempt() returns (ok: bool)
      modifies this`faults
      ensures faults == old(faults) + if ok then 0 else 1
    {
      ok := *;
      if !ok { faults := faults + 1; }
    }

    /** applyChunked over a page's upserts. */
    method UpsertChunked(recs: seq<Rec>, ghost truth: Truth, ghost before: Table) returns (ok: bool)
      requires Progress(kind, account, truth, before, rows)
      requires forall k | 0 <= k < |recs| :: recs[k].id in truth && truth[recs[k].id] == recs[k].fields
      modifies this`rows, this`faults
      ensures faults == old(faults) + if ok then 0 else 1
      ensures Progress(kind, account, truth, before, rows)
      ensures forall s | Has(old(rows), account, truth, s) :: Has(rows, account, truth, s)
      ensures ok ==> forall k | 0 <= k < |recs| :: Has(rows, account, truth, recs[k].id)
    {
      hide Progress;
      var n := 0;
      while n < |recs|
        invariant n <= |recs| && Progress(kind, account, truth, before, rows)
        invariant forall s | Has(old(rows), account, truth, s) :: Has(rows, account, truth, s)
        invariant forall k | 0 <= k < n :: Has(rows, account, truth, recs[k].id)
        invariant faults == old(faults)
      {
        var more := Attempt();
        if !more { return false; }
        var upTo := if |recs| - n <= BULK_CHUNK then |recs| else n + BULK_CHUNK;
        var after := rows;
        for k := n to upTo
          invariant Progress(kind, account, truth, before, after)
          invariant forall s | Has(rows, account, truth, s) :: Has(after, account, truth, s)
          invariant forall j | 0 <= j < k :: Has(after, account, truth, recs[j].id)
          modifies {}
        {
          ProgressPut(kind, account, truth, before, after, recs[k]);
          after := Put(after, account, recs[k]);
        }
        rows := after;
        n := upTo;
      }
      return true;
    }

    /** applyChunked over one page's stale rows. */
    method DeleteChunked(ids: seq<int>, ghost keep: set<string>, ghost mid: Table) returns (ok: bool)
      requires Pruned(kind, account, keep, mid, rows)
      requires forall k | 0 <= k < |ids| :: ids[k] in rows && Stale(kind, account, keep, rows[ids[k]])
      modifies this`rows, this`faults
      ensures Pruned(kind, account, keep, mid, rows)
      ensures faults == old(faults) + if ok then 0 else 1
      ensures forall id :: id in rows ==> id in old(rows) && rows[id] == old(rows)[id]
      ensures forall id :: id in old(rows) && id !in ids ==> id in rows
      ensures ok ==> forall id :: id in rows ==> id !in ids
    {
      var n := 0;
      while n < |ids|
        invariant n <= |ids|
        invariant faults == old(faults) && forall id :: DeletedAt(old(rows), rows, ids, n, id)
        decreases |ids| - n
      {
        var more := Attempt();
        if !more { PrunedFurther(mid, old(rows), keep, ids, n); return false; }
        var upTo := if |ids| - n <= BULK_CHUNK then |ids| else n + BULK_CHUNK;
        var after := rows;
        for k := n to upTo
          invariant forall id :: DeletedAt(old(rows), after, ids, k, id)
          modifies {}
        {
          ghost var was, next := after, k + 1;
          after := after - {ids[k]};
          assert ids[..k + 1] == ids[..k] + [ids[k]];
          forall id: int ensures DeletedAt(old(rows), after, ids, next, id) {
            assert DeletedAt(old(rows), was, ids, k, id);
          }
        }
        rows := after;
        n := upTo;
      }
      PrunedFurther(mid, old(rows), keep, ids, n);
      assert ids[..|ids|] == ids;
      forall id: int ensures id in rows ==> id !in ids { assert DeletedAt(old(rows), rows, ids, n, id); }
      return true;
    }

    /** The first n of the stale ids are gone, and nothing else. */
    predicate DeletedAt(before: Table, now: Table, ids: seq<int>, n: int, id: int)
      requires 0 <= n <= |ids|
    {
      (id in now <==> id in before && id !in ids[..n]) && (id in now ==> now[id] == before[id])
    }

    lemma PrunedFurther(mid: Table, before: Table, keep: set<string>, ids: seq<int>, n: int)
      requires 0 <= n <= |ids| && Pruned(kind, account, keep, mid, before)
      requires forall k | 0 <= k < |ids| :: ids[k] in before && Stale(kind, account, keep, before[ids[k]])
      requires forall id :: DeletedAt(before, rows, ids, n, id)
      ensures Pruned(kind, account, keep, mid, rows)
      ensures forall id :: id in rows ==> id in before && rows[id] == before[id]
      ensures forall id :: id in before && id !in ids ==> id in rows
    {
      forall id: int ensures PrunedAt(kind, account, keep, mid, rows, id) {
        assert PrunedAt(kind, account, keep, mid, before, id) && DeletedAt(before, rows, ids, n, id);
        if id in ids[..n] {
          var k :| 0 <= k < n && ids[..n][k] == id;
          assert ids[k] == id;
        }
      }
      forall id: int ensures id in rows ==> id in before && rows[id] == before[id] {
        assert DeletedAt(before, rows, ids, n, id);
      }
      forall id: int ensures id in before && id !in ids ==> id in rows { assert DeletedAt(before, rows, ids, n, id); }
    }

    /** deleteStale: each page's deletes lie behind the scan's cursor. */
    method DeleteStale(keep: set<string>) returns (ok: bool)
      requires forall id | id in rows :: id >= 1
      modifies this`rows, this`faults
      ensures faults == old(faults) + if ok then 0 else 1
      ensures Pruned(kind, account, keep, old(rows), rows)
      ensures forall id | id in old(rows) && id !in rows ::
                && old(rows)[id].account == account && (kind != MessageKind || !old(rows)[id].local)
                && (old(rows)[id].serverId.None? || old(rows)[id].serverId.value !in keep)
      ensures ok ==> forall id | id in rows :: !Stale(kind, account, keep, rows[id])
      ensures ok ==>
                forall id | id in rows && rows[id].account == account && (kind != MessageKind || !rows[id].local) ::
                rows[id].serverId.Some? && rows[id].serverId.value in keep
    {
      var after := 0;
      while true
        invariant after >= 0 && (forall id | id in rows :: id >= 1)
        invariant faults == old(faults) && Pruned(kind, account, keep, old(rows), rows)
        invariant forall id | id in rows && id <= after :: !Stale(kind, account, keep, rows[id])
        decreases |Beyond(rows.Keys, after)|
      {
        PrunedRows(kind, account, keep, old(rows), rows);
        var readOk := Attempt();
        if !readOk { return false; }
        var stale, cursor := StaleIds(kind, rows, account, keep, after, STALE_SCAN_PAGE);
        if cursor == 0 { return true; }
        ghost var was := rows;
        forall k | 0 <= k < |stale| ensures stale[k] in rows && Stale(kind, account, keep, rows[stale[k]]) {
          var id := stale[k];
          assert id in stale;
        }
        ok := DeleteChunked(stale, keep, old(rows));
        if !ok { PrunedRows(kind, account, keep, old(rows), rows); return; }
        ScanMovesOn(was, rows, after, cursor);
        forall id | id in rows && id <= cursor ensures !Stale(kind, account, keep, rows[id]) {
          assert id in was && rows[id] == was[id];
          assert id !in stale;
        }
        after := cursor;
      }
    }

    /** Changes with a token: the page the source has for it, or a failed request. */
    method Fetch(source: map<string, Page>, token: string) returns (page: Option<Page>)
      requires token in source
      modifies this`faults
      ensures page.Some? ==> page.value == source[token]
      ensures faults == old(faults) + if page.Some? then 0 else 1
    {
      var ok := Attempt();
      page := if ok then Some(source[token]) else None;
    }

    /** fullResync over a still server: the baseline's pages from the empty token on, then the stale
        delete, then the watermark. However it ends, no other account's row and no local draft is lost;
        and if it runs to the end the account's server rows are exactly the baseline's, under the last
        page's token. A server that has more but does not advance its token ends it. */
    method FullResync(source: map<string, Page>, ghost chain: seq<Page>, ghost truth: Truth) returns (ok: bool)
      requires Unique(rows) && (forall id | id in rows :: id >= 1)
      requires Chained(source, chain) && Tells(chain, truth)
      modifies this
      ensures forall id :: Spared(kind, account, truth, old(rows), rows, id)
      ensures ok ==> Exact(kind, rows, account, truth)
      ensures ok ==> mark == Some(chain[|chain| - 1].newToken) && !chain[|chain| - 1].hasMore
      ensures !ok ==> mark == old(mark)
      ensures ok <==> faults == old(faults) && !chain[|chain| - 1].hasMore
    {
      var keep: set<string> := {};
      ghost var before := rows;
      Begins(kind, account, truth, rows);
      hide Progress, Spared, Exact, Chained, Tells, Listed, ListedIn, TokenOf;
      NothingListed(chain);
      var token, more := "", true;
      ghost var p := 0;
      while more
        invariant p <= |chain| && mark == old(mark)
        invariant token == TokenOf(chain, p) && (more <==> p < |chain|)
        invariant !more ==> !chain[|chain| - 1].hasMore
        invariant faults == old(faults)
        invariant Progress(kind, account, truth, before, rows)
        invariant forall s :: s in keep <==> Listed(chain, p, s)
        invariant forall s | Listed(chain, p, s) :: Has(rows, account, truth, s)
        decreases |chain| - p
      {
        PageFacts(source, chain, truth, p);
        var page := Fetch(source, token);
        if page.None? || (page.value.hasMore && page.value.newToken == token) {
          if page.Some? { StuckStays(source, chain, p); }
          Unfinished(kind, account, truth, before, rows);
          return false;
        }
        var created := page.value.created;
        keep := KeepAll(keep, created);
        ok := UpsertChunked(created, truth, before);
        if !ok { Unfinished(kind, account, truth, before, rows); return; }
        forall s: string ensures Listed(chain, p + 1, s) <==> Listed(chain, p, s) || ListedIn(created, |created|, s) {
          ListedMore(chain, p, s);
        }
        forall s | Listed(chain, p + 1, s) ensures Has(rows, account, truth, s) {
          if ListedIn(created, |created|, s) { var k := ListedAt(created, s); }
        }
        token, more, p := page.value.newToken, page.value.hasMore, p + 1;
      }
      AllListed(chain, truth);
      forall s: string ensures s in keep <==> s in truth.Keys {
        if Listed(chain, |chain|, s) { assert Has(rows, account, truth, s); }
      }
      SameIds(keep, truth.Keys);
      ghost var mid := rows;
      ok := DeleteStale(keep);
      PrunedIsSpared(kind, account, truth, before, mid, rows);
      if !ok { return; }
      PrunedIsExact(kind, account, truth, mid, rows);
      ok := Attempt();
      if ok { mark := Some(token); }
    }

    method KeepAll(keep: set<string>, recs: seq<Rec>) returns (all: set<string>)
      ensures forall s :: s in all <==> s in keep || ListedIn(recs, |recs|, s)
    {
      all := keep;
      for k := 0 to |recs|
        invariant forall s :: s in all <==> s in keep || ListedIn(recs, k, s)
      {
        all := all + {recs[k].id};
      }
    }
  }

  // ---------------------------------------------------------------- the baseline's pages

  /** The server's answer to one request: the page, the token to ask with next, and whether to. */
  datatype Page = Page(created: seq<Rec>, newToken: string, hasMore: bool)

  /** The token page p is asked for with. */
  function TokenOf(chain: seq<Page>, p: int): string
    requires 0 <= p <= |chain|
  {
    if p == 0 then "" else chain[p - 1].newToken
  }

  /** The chain is what a still server's pages are from the empty token on: each one asked for with the
      token before it, up to one that says there is no more, or that does not advance. */
  predicate Chained(source: map<string, Page>, chain: seq<Page>) {
    && chain != []
    && (forall p | 0 <= p < |chain| :: TokenOf(chain, p) in source && chain[p] == source[TokenOf(chain, p)])
    && (forall p | 0 <= p < |chain| - 1 :: chain[p].hasMore)
    && (chain[|chain| - 1].hasMore ==> chain[|chain| - 1].newToken == TokenOf(chain, |chain| - 1))
  }

  /** The pages hold what the server holds, and a baseline that ends lists all of it. */
  predicate Tells(chain: seq<Page>, truth: Truth) {
    && (forall p, k | 0 <= p < |chain| && 0 <= k < |chain[p].created| ::
          chain[p].created[k].id in truth && truth[chain[p].created[k].id] == chain[p].created[k].fields)
    && (chain != [] && !chain[|chain| - 1].hasMore ==> forall s | s in truth :: Listed(chain, |chain|, s))
  }

  lemma PageFacts(source: map<string, Page>, chain: seq<Page>, truth: Truth, p: int)
    requires Chained(source, chain) && Tells(chain, truth) && 0 <= p < |chain|
    ensures TokenOf(chain, p) in source && source[TokenOf(chain, p)] == chain[p]
    ensures TokenOf(chain, p + 1) == chain[p].newToken
    ensures chain[p].hasMore && chain[p].newToken != TokenOf(chain, p) ==> p + 1 < |chain|
    ensures !chain[p].hasMore ==> p + 1 == |chain|
    ensures forall k | 0 <= k < |chain[p].created| ::
              chain[p].created[k].id in truth && truth[chain[p].created[k].id] == chain[p].created[k].fields
  {
  }

  lemma Answered(source: map<string, Page>, chain: seq<Page>, p: int)
    requires Chained(source, chain) && 0 <= p < |chain|
    ensures TokenOf(chain, p) in source && chain[p] == source[TokenOf(chain, p)]
  {
  }

  /** A page that has more under the token it was asked with is all the server ever answers from there on. */
  lemma {:induction false} StuckStays(source: map<string, Page>, chain: seq<Page>, p: int)
    requires Chained(source, chain) && 0 <= p < |chain|
    requires chain[p].hasMore && chain[p].newToken == TokenOf(chain, p)
    ensures chain[|chain| - 1].hasMore
    decreases |chain| - p
  {
    hide Chained;
    if p + 1 < |chain| {
      Answered(source, chain, p);
      Answered(source, chain, p + 1);
      assert TokenOf(chain, p + 1) == TokenOf(chain, p);
      StuckStays(source, chain, p + 1);
    }
  }

  lemma NothingListed(chain: seq<Page>)
    ensures TokenOf(chain, 0) == "" && forall s :: !Listed(chain, 0, s)
  {
  }

  lemma ListedAt(page: seq<Rec>, s: string) returns (k: int)
    requires ListedIn(page, |page|, s)
    ensures 0 <= k < |page| && page[k].id == s
  {
    k :| 0 <= k < |page| && page[k].id == s;
  }

  lemma AllListed(chain: seq<Page>, truth: Truth)
    requires Tells(chain, truth) && chain != [] && !chain[|chain| - 1].hasMore
    ensures forall s | s in truth :: Listed(chain, |chain|, s)
  {
  }

  predicate ListedIn(page: seq<Rec>, n: int, s: string)
    requires 0 <= n <= |page|
  {
    exists k | 0 <= k < n :: page[k].id == s
  }

  /** One of the first n pages lists s. */
  predicate Listed(chain: seq<Page>, n: int, s: string)
    requires 0 <= n <= |chain|
  {
    exists p | 0 <= p < n :: ListedIn(chain[p].created, |chain[p].created|, s)
  }

  lemma ListedMore(chain: seq<Page>, p: int, s: string)
    requires 0 <= p < |chain|
    ensures Listed(chain, p + 1, s) <==> Listed(chain, p, s) || ListedIn(chain[p].created, |chain[p].created|, s)
  {
  }

  predicate Member(s: string, a: set<string>) { s in a }

  lemma SameIds(a: set<string>, b: set<string>)
    requires forall s :: s in a <==> s in b
    ensures a == b
  {
    forall s: string ensures Member(s, a) <==> Member(s, b) {}
    SameMembers(a, b);
  }

  lemma SameMembers(a: set<string>, b: set<string>)
    requires forall s :: Member(s, a) <==> Member(s, b)
    ensures a == b
  {
    forall s: string | s in a ensures s in b { assert Member(s, a); }
    forall s: string | s in b ensures s in a { assert Member(s, b); }
  }

  lemma Begins(kind: Kind, account: int, truth: Truth, rows: Table)
    requires Unique(rows) && forall id | id in rows :: id >= 1
    ensures Progress(kind, account, truth, rows, rows)
  {
    forall id: int ensures Careful(kind, account, truth, rows, rows, id) {}
  }

  lemma Unfinished(kind: Kind, account: int, truth: Truth, before: Table, now: Table)
    requires Progress(kind, account, truth, before, now)
    ensures forall id :: Spared(kind, account, truth, before, now, id)
  {
    forall id: int ensures Spared(kind, account, truth, before, now, id) {
      assert Careful(kind, account, truth, before, now, id);
    }
  }

  lemma ScanMovesOn(was: Table, rows: Table, after: int, cursor: int)
    requires (forall id :: id in rows ==> id in was) && cursor in was && cursor > after
    ensures |Beyond(rows.Keys, cursor)| < |Beyond(was.Keys, after)|
  {
    var rest, all := Beyond(rows.Keys, cursor), Beyond(was.Keys, after);
    assert cursor in all;
    forall k: int | k in rest ensures k in all - {cursor} {}
    Fewer(rest, all - {cursor});
  }
}
