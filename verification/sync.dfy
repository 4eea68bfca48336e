/** The delta feed and its local replica: pages applied a chunk at a time, the watermark saved on its
    own, and a server that moves on meanwhile. */
module DeltaSync {
  import opened MailWrites
  import opened RecordWrites
  import opened SyncTypes
  import BaselinePull

  /** No watermark, the middle of a baseline pull over the query state numbered `query`, or a server state. */
  datatype Token = Start | Paging(position: nat, query: nat) | At(state: nat)

  datatype Failure = BackendFailed | StateNotAdvancing | StoreFailed

  datatype Reply = Failed | StateReset
                 | Page(created: seq<Rec>, updated: seq<Rec>, destroyed: seq<string>, next: Token, hasMore: bool)

  // ---------------------------------------------------------------- the server's history

  /** Record id has not changed from state t to now. */
  predicate Still(snaps: seq<Truth>, t: nat, id: string)
    requires t < |snaps|
  {
    forall i | t <= i < |snaps| :: Same(snaps[t], snaps[i], id)
  }

  /** The server has held id in some state up to t. */
  predicate Known(snaps: seq<Truth>, t: nat, id: string)
    requires t < |snaps|
  {
    exists i | 0 <= i <= t :: id in snaps[i]
  }

  /** RFC 8620 section 1.2: an id is never used again for another record. */
  predicate NoReuseOf(snaps: seq<Truth>, id: string) {
    forall i, j, k | 0 <= i < j < k < |snaps| && id in snaps[i] && id !in snaps[j] :: id !in snaps[k]
  }

  ghost predicate NoReuse(snaps: seq<Truth>) { forall id :: NoReuseOf(snaps, id) }

  function Now(snaps: seq<Truth>): Truth
    requires snaps != []
  {
    snaps[|snaps| - 1]
  }

  // ---------------------------------------------------------------- the replica

  /** At watermark t the local rows equal the server's on every record that has not changed since:
      whatever else they hold is still to be mentioned by the feed. */
  predicate FaithfulAt(snaps: seq<Truth>, local: Truth, t: nat, id: string)
    requires t < |snaps|
  {
    Still(snaps, t, id) ==> Same(local, Now(snaps), id)
  }

  ghost predicate Faithful(snaps: seq<Truth>, local: Truth, t: nat)
    requires t < |snaps|
  {
    forall id :: FaithfulAt(snaps, local, t, id)
  }

  /** Every local row is a record the server had by state t, but for those an unfinished page left. */
  predicate Accounted(snaps: seq<Truth>, local: Truth, t: nat, touched: set<string>)
    requires t < |snaps|
  {
    forall id | id in local :: id in touched || Known(snaps, t, id)
  }

  predicate Lists(recs: seq<Rec>, id: string) { exists k | 0 <= k < |recs| :: recs[k].id == id }

  /** The records were hydrated at state h. */
  predicate Hydrated(recs: seq<Rec>, truth: Truth) {
    forall k | 0 <= k < |recs| :: recs[k].id in truth && truth[recs[k].id] == recs[k].fields
  }

  /** A created or updated id the hydration no longer found is in no list at all. */
  predicate Mentions(snaps: seq<Truth>, h: nat, t2: nat, r: Reply, id: string)
    requires t2 <= h < |snaps| && r.Page?
  {
    if id in snaps[t2] then id in snaps[h] ==> Lists(r.created, id) || Lists(r.updated, id)
    else id in r.destroyed
  }

  /** Record id changed between states t and t2. */
  predicate Moved(snaps: seq<Truth>, t: nat, t2: nat, id: string)
    requires t <= t2 < |snaps|
  {
    exists i | t <= i <= t2 :: !Same(snaps[t], snaps[i], id)
  }

  /** Created after t and gone again by t2: section 5.2 lets a server leave such an id out. */
  predicate Fleeting(snaps: seq<Truth>, t: nat, t2: nat, id: string)
    requires t <= t2 < |snaps|
  {
    id !in snaps[t] && id !in snaps[t2] && Moved(snaps, t, t2, id)
  }

  /** What section 5.2 promises of a page from state t, hydrated at state h: every record that moved
      by the page's new state is mentioned, a fleeting one perhaps not; created and updated records
      were known by the new state; destroyed ones are not there any more. */
  ghost predicate Promised(snaps: seq<Truth>, t: nat, h: nat, r: Reply)
    requires t < |snaps| && h < |snaps|
  {
    && r.Page? && r.next.At? && t <= r.next.state <= h
    && Hydrated(r.created, snaps[h]) && Hydrated(r.updated, snaps[h])
    && (forall id | Lists(r.created, id) || Lists(r.updated, id) :: Known(snaps, r.next.state, id))
    && (forall id | id in r.destroyed :: id !in snaps[r.next.state])
    && (forall id :: Moved(snaps, t, r.next.state, id) ==>
        Mentions(snaps, h, r.next.state, r, id) || Fleeting(snaps, t, r.next.state, id))
    && (!r.hasMore ==> r.next.state == h)
  }

  // ---------------------------------------------------------------- applying a page

  lemma {:induction false} PutAllHolds(local: Truth, recs: seq<Rec>, truth: Truth, id: string)
    requires Hydrated(recs, truth)
    ensures Lists(recs, id) ==> id in PutAll(local, recs) && id in truth && PutAll(local, recs)[id] == truth[id]
    ensures !Lists(recs, id) ==> Same(PutAll(local, recs), local, id)
  {
    if recs != [] {
      var n := |recs| - 1;
      PutAllHolds(local, recs[..n], truth, id);
      if Lists(recs[..n], id) {
        var k :| 0 <= k < n && recs[..n][k].id == id;
        assert recs[k].id == id;
      }
      if Lists(recs, id) && recs[n].id != id {
        var k :| 0 <= k < |recs| && recs[k].id == id;
        assert recs[..n][k].id == id;
      }
      if recs[n].id == id { assert Lists(recs, id); }
    }
  }

  /** A record written or dropped on a page's word leaves the replica faithful to its old watermark:
      what has not changed since is written as it is, and never dropped. */
  lemma PageIsHarmless(snaps: seq<Truth>, local: Truth, t: nat, t2: nat, h: nat, created: seq<Rec>, updated: seq<Rec>,
      destroyed: seq<string>)
    requires t <= t2 <= h < |snaps| && Faithful(snaps, local, t)
    requires Hydrated(created, snaps[h]) && Hydrated(updated, snaps[h]) && forall id | id in destroyed ::
        id !in snaps[t2]
    ensures Faithful(snaps, DropAll(PutAll(PutAll(local, created), updated), destroyed), t)
  {
    var after := DropAll(PutAll(PutAll(local, created), updated), destroyed);
    forall id: string ensures FaithfulAt(snaps, after, t, id) {
      assert FaithfulAt(snaps, local, t, id);
      PutAllHolds(local, created, snaps[h], id);
      PutAllHolds(PutAll(local, created), updated, snaps[h], id);
      if Still(snaps, t, id) {
        assert Same(snaps[t], snaps[t2], id) && Same(snaps[t], snaps[h], id) && Same(snaps[t], Now(snaps), id);
      }
    }
  }

  /** Whether a page applied whole brings the replica to the page's state, record by record: it does,
      but for a fleeting record the page left out and the replica holds. */
  lemma PageArrivesAt(snaps: seq<Truth>, local: Truth, t: nat, h: nat, r: Reply, id: string)
    requires t < |snaps| && h < |snaps| && Faithful(snaps, local, t) && Promised(snaps, t, h, r)
    ensures var after := DropAll(PutAll(PutAll(local, r.created), r.updated), r.destroyed);
            var t2 := r.next.state;
            (FaithfulAt(snaps, after, t2, id)
             <==> !(Still(snaps, t2, id) && Fleeting(snaps, t, t2, id) && id !in r.destroyed && id in local
                    && !Lists(r.created, id) && !Lists(r.updated, id)))
  {
    var t2 := r.next.state;
    PutAllHolds(local, r.created, snaps[h], id);
    PutAllHolds(PutAll(local, r.created), r.updated, snaps[h], id);
    assert FaithfulAt(snaps, local, t, id);
    if Still(snaps, t2, id) {
      assert Same(snaps[t2], snaps[h], id) && Same(snaps[t2], Now(snaps), id);
      if !Moved(snaps, t, t2, id) {
        assert Same(snaps[t], snaps[t2], id);
        assert Still(snaps, t, id) by {
          forall i | t <= i < |snaps| ensures Same(snaps[t], snaps[i], id) {
            if i >= t2 { assert Same(snaps[t2], snaps[i], id); }
          }
        }
      }
    }
  }

  // ---------------------------------------------------------------- the server moves on

  lemma FaithfulWhileServerMoves(snaps: seq<Truth>, more: seq<Truth>, local: Truth, t: nat)
    requires t < |snaps| && snaps <= more && Faithful(snaps, local, t)
    ensures Faithful(more, local, t)
  {
    forall id: string ensures FaithfulAt(more, local, t, id) {
      assert FaithfulAt(snaps, local, t, id);
      if Still(more, t, id) {
        forall i | t <= i < |snaps| ensures Same(snaps[t], snaps[i], id) { assert Same(more[t], more[i], id); }
        assert Same(more[t], more[|snaps| - 1], id) && Same(more[t], Now(more), id);
      }
    }
  }

  lemma KnownStays(snaps: seq<Truth>, more: seq<Truth>, t: nat, id: string)
    requires t < |snaps| && snaps <= more
    ensures Known(more, t, id) <==> Known(snaps, t, id)
  {
    if Known(snaps, t, id) {
      var i :| 0 <= i <= t && id in snaps[i];
      assert id in more[i];
    }
    if Known(more, t, id) {
      var i :| 0 <= i <= t && id in more[i];
      assert id in snaps[i];
    }
  }

  lemma AccountedWhileServerMoves(snaps: seq<Truth>, more: seq<Truth>, local: Truth, t: nat, touched: set<string>)
    requires t < |snaps| && snaps <= more && Accounted(snaps, local, t, touched)
    ensures Accounted(more, local, t, touched)
  {
    forall id | id in local ensures id in touched || Known(more, t, id) { KnownStays(snaps, more, t, id); }
  }

  lemma MovedStays(snaps: seq<Truth>, more: seq<Truth>, t: nat, t2: nat, id: string)
    requires t <= t2 < |snaps| && snaps <= more
    ensures Moved(more, t, t2, id) <==> Moved(snaps, t, t2, id)
    ensures Fleeting(more, t, t2, id) <==> Fleeting(snaps, t, t2, id)
  {
    if Moved(snaps, t, t2, id) {
      var i :| t <= i <= t2 && !Same(snaps[t], snaps[i], id);
      assert !Same(more[t], more[i], id);
    }
    if Moved(more, t, t2, id) {
      var i :| t <= i <= t2 && !Same(more[t], more[i], id);
      assert !Same(snaps[t], snaps[i], id);
    }
  }

  lemma PromiseStands(snaps: seq<Truth>, more: seq<Truth>, t: nat, h: nat, r: Reply, touched: set<string>)
    requires t < |snaps| && h < |snaps| && snaps <= more && Promised(snaps, t, h, r)
        && RepeatsItself(snaps, t, r, touched)
    ensures Promised(more, t, h, r) && RepeatsItself(more, t, r, touched)
  {
    var t2 := r.next.state;
    forall id | Lists(r.created, id) || Lists(r.updated, id) ensures Known(more, t2, id) {
      KnownStays(snaps, more, t2, id);
    }
    forall id: string ensures Moved(more, t, t2, id) ==> Mentions(more, h, t2, r, id) || Fleeting(more, t, t2, id) {
      MovedStays(snaps, more, t, t2, id);
    }
    forall id | id in touched && Fleeting(more, t, t2, id)
      ensures id in r.destroyed || Lists(r.created, id) || Lists(r.updated, id) {
      MovedStays(snaps, more, t, t2, id);
    }
  }

  // ---------------------------------------------------------------- a page completed

  /** The server repeats what it has said: a record an unfinished attempt at this page wrote is
      mentioned again, if only to say it is gone. */
  predicate RepeatsItself(snaps: seq<Truth>, t: nat, r: Reply, touched: set<string>)
    requires t < |snaps| && r.Page? && r.next.At? && t <= r.next.state < |snaps|
  {
    forall id | id in touched && Fleeting(snaps, t, r.next.state, id) ::
        id in r.destroyed || Lists(r.created, id) || Lists(r.updated, id)
  }

  /** A row the replica holds without an unfinished page's doing was known by the watermark, so it
      cannot be fleeting: that would be its id's second life. */
  lemma HeldIsNotFleeting(snaps: seq<Truth>, local: Truth, t: nat, t2: nat, touched: set<string>, id: string)
    requires t <= t2 < |snaps| && NoReuse(snaps) && Accounted(snaps, local, t, touched)
    requires id in local && id !in touched
    ensures !Fleeting(snaps, t, t2, id)
  {
    var i :| 0 <= i <= t && id in snaps[i];
    assert NoReuseOf(snaps, id);
    if id !in snaps[t] {
      assert forall j | t < j < |snaps| :: id !in snaps[j];
    }
  }

  /** The page's records, applied whole, bring a faithful replica to the page's state. */
  lemma PageArrives(snaps: seq<Truth>, local: Truth, t: nat, h: nat, r: Reply, touched: set<string>)
    requires t < |snaps| && h < |snaps| && NoReuse(snaps)
    requires Faithful(snaps, local, t) && Accounted(snaps, local, t, touched)
    requires Promised(snaps, t, h, r) && RepeatsItself(snaps, t, r, touched)
    ensures Faithful(snaps, DropAll(PutAll(PutAll(local, r.created), r.updated), r.destroyed), r.next.state)
  {
    forall id: string
      ensures FaithfulAt(snaps, DropAll(PutAll(PutAll(local, r.created), r.updated), r.destroyed), r.next.state, id)
    {
      PageArrivesAt(snaps, local, t, h, r, id);
      if id in local && id !in touched { HeldIsNotFleeting(snaps, local, t, r.next.state, touched, id); }
    }
  }

  /** What an unfinished page may have left once a page has been completed. */
  function StillTouched(snaps: seq<Truth>, touched: set<string>, t: nat): set<string>
    requires t < |snaps|
  {
    set id | id in touched && !Known(snaps, t, id)
  }

  lemma AccountedAfterAPage(snaps: seq<Truth>, local: Truth, t: nat, t2: nat, touched: set<string>)
    requires t <= t2 < |snaps| && Accounted(snaps, local, t, touched)
    ensures Accounted(snaps, local, t2, StillTouched(snaps, touched, t2))
  {
    forall id | id in local ensures id in StillTouched(snaps, touched, t2) || Known(snaps, t2, id) {
      if id !in touched { var i :| 0 <= i <= t && id in snaps[i]; }
    }
  }

  /** A replica faithful to the server's present state is the server's present state. */
  lemma FaithfulNow(snaps: seq<Truth>, local: Truth)
    requires snaps != [] && Faithful(snaps, local, |snaps| - 1)
    ensures local == Now(snaps)
  {
    forall id: string ensures Same(local, Now(snaps), id) { assert FaithfulAt(snaps, local, |snaps| - 1, id); }
    SameTruth(local, Now(snaps));
  }

  /** The hypothesis is needed: a page attempted once, stopped after its first record and asked for
      again leaves that record behind for good, if it was created and destroyed meanwhile and the
      server, as section 5.2 lets it, says nothing of it. */
  lemma SilenceLeavesAGhost() returns (snaps: seq<Truth>, local: Truth, r: Reply)
    ensures |snaps| == 3 && NoReuse(snaps) && Faithful(snaps, local, 0) && Promised(snaps, 0, 2, r)
    ensures exists draft ::
              && local == PutAll(map[], [Rec("m1", draft)])
              && Promised(snaps[..2], 0, 1, Page([Rec("m1", draft)], [], [], At(1), false))
    ensures !Faithful(snaps, DropAll(PutAll(PutAll(local, r.created), r.updated), r.destroyed), 2)
  {
    var draft := MessageFields(0, 8, ["drafts"], "");
    snaps := [map[], map["m1" := draft], map[]];
    local := map["m1" := draft];
    r := Page([], [], [], At(2), false);
    var first := Page([Rec("m1", draft)], [], [], At(1), false);
    var rec := [Rec("m1", draft)];
    assert rec[..0] == [] && PutAll(map[], rec) == Put(map[], rec[0]);
    assert !Same(snaps[0], snaps[1], "m1");
    forall id: string ensures FaithfulAt(snaps, local, 0, id) {}
    forall id: string ensures Moved(snaps, 0, 2, id) ==> Fleeting(snaps, 0, 2, id) {}
    forall id: string ensures NoReuseOf(snaps, id) {}
    var early := snaps[..2];
    assert early == [map[], map["m1" := draft]];
    assert Lists(first.created, "m1") by { assert first.created[0].id == "m1"; }
    assert Known(early, 1, "m1") by { assert "m1" in early[1]; }
    forall id: string ensures Moved(early, 0, 1, id) ==> Mentions(early, 1, 1, first, id) {}
    assert PutAll(PutAll(local, r.created), r.updated) == local;
    assert !FaithfulAt(snaps, DropAll(local, []), 2, "m1");
  }

  // ---------------------------------------------------------------- the worker

  /** The query result a baseline pages through: every record of the state once. */
  ghost predicate Covers(order: seq<string>, truth: Truth) { forall id :: id in order <==> id in truth }

  function IdsOf(recs: seq<Rec>): (ids: seq<string>)
    ensures |ids| == |recs| && forall k | 0 <= k < |recs| :: ids[k] == recs[k].id
  {
    seq(|recs|, k requires 0 <= k < |recs| => recs[k].id)
  }

  /** Where the next page of a baseline pull at the state numbered `now` begins: at the token's
      position, or at the start again when the query has moved since the token was given. */
  function PageFrom(now: nat, token: Token): (from: nat)
    ensures token.Paging? && token.query == now ==> from == token.position
    ensures token.Paging? && token.query != now ==> from == 0
  {
    if token.Paging? && token.query == now then token.position else 0
  }

  /** The page a baseline pull gets of a server at the state numbered `now`. */
  predicate BaselinePage(order: seq<string>, truth: Truth, now: nat, token: Token, r: Reply) {
    && r.Page? && r.updated == [] && r.destroyed == [] && Hydrated(r.created, truth)
    && BaselinePull.PageOf(order, PageFrom(now, token), BaselinePull.DEFAULT_PAGE_SIZE, IdsOf(r.created), r.hasMore)
    && r.next == if r.hasMore then Paging(PageFrom(now, token) + |r.created|, now) else At(now)
  }

  datatype Outcome = Done | Resync | Stopped(failure: Failure)

  /** The rows a still baseline pull has brought so far: nothing but the server's, and the first
      `position` of the query. */
  predicate Pulled(order: seq<string>, truth: Truth, local: Truth, position: nat) {
    && position <= |order| && (forall id | id in local :: id in truth && local[id] == truth[id])
    && forall i | 0 <= i < position :: order[i] in local
  }

  lemma {:induction false} PulledMore(order: seq<string>, truth: Truth, local: Truth, from: nat, upTo: nat,
      recs: seq<Rec>)
    requires Pulled(order, truth, local, from) && from <= upTo <= |order|
    requires Hydrated(recs, truth) && forall i | from <= i < upTo :: Lists(recs, order[i])
    ensures Pulled(order, truth, PutAll(local, recs), upTo)
  {
    var after := PutAll(local, recs);
    forall id | id in after ensures id in truth && after[id] == truth[id] { PutAllHolds(local, recs, truth, id); }
    forall i | 0 <= i < upTo ensures order[i] in after { PutAllHolds(local, recs, truth, order[i]); }
  }

  lemma PulledSome(order: seq<string>, truth: Truth, local: Truth, position: nat, recs: seq<Rec>)
    requires Pulled(order, truth, local, position) && Hydrated(recs, truth)
    ensures Pulled(order, truth, PutAll(local, recs), position)
  {
    PulledMore(order, truth, local, position, position, recs);
    forall i | 0 <= i < position ensures order[i] in PutAll(local, recs) { PutAllHolds(local, recs, truth, order[i]); }
  }

  /** A pull that ends over a server that has not moved holds exactly what the server does. */
  lemma PulledAll(order: seq<string>, truth: Truth, local: Truth)
    requires Covers(order, truth) && Pulled(order, truth, local, |order|)
    ensures local == truth
  {
    forall id: string ensures Same(local, truth, id) {
      if id in truth {
        assert id in order;
        var i :| 0 <= i < |order| && order[i] == id;
      }
    }
    SameTruth(local, truth);
  }

  function Ids(recs: seq<Rec>): (ids: set<string>)
    ensures forall id :: id in ids <==> Lists(recs, id)
  {
    set k | 0 <= k < |recs| :: recs[k].id
  }

  /** What the replica and its watermark owe to the server's history. */
  ghost predicate Holds(snaps: seq<Truth>, order: seq<string>, local: Truth, mark: Token, touched: set<string>)
    requires snaps != []
  {
    match mark
    case Start => Pulled(order, Now(snaps), local, 0)
    case Paging(position, query) => query == |snaps| - 1 && Pulled(order, Now(snaps), local, position)
    case At(t) => t < |snaps| && Faithful(snaps, local, t) && Accounted(snaps, local, t, touched)
  }

  /** A page in hand fits the replica: its records were hydrated at a state the server had, not
      before the watermark, and its destroyed ids are gone by a state in between. */
  ghost predicate Fits(snaps: seq<Truth>, mark: Token, recs: seq<Rec>, destroyed: seq<string>, h: nat, t2: nat) {
    && t2 <= h < |snaps| && Hydrated(recs, snaps[h])
    && (if mark.At? then mark.state <= t2 && forall id | id in destroyed ::
        id !in snaps[t2] else h == |snaps| - 1 && destroyed == [])
  }

  /** Writing a page's records keeps what the replica owes. */
  lemma UpsertKeeps(snaps: seq<Truth>, order: seq<string>, local: Truth, mark: Token, touched: set<string>,
      recs: seq<Rec>, h: nat, t2: nat)
    requires snaps != [] && Holds(snaps, order, local, mark, touched) && Fits(snaps, mark, recs, [], h, t2)
        && Ids(recs) <= touched
    ensures Holds(snaps, order, PutAll(local, recs), mark, touched)
  {
    match mark
    case Start => PulledSome(order, Now(snaps), local, 0, recs);
    case Paging(position, _) => PulledSome(order, Now(snaps), local, position, recs);
    case At(t) =>
      var none: seq<Rec> := [];
      PageIsHarmless(snaps, local, t, t2, h, recs, none, []);
      assert DropAll(PutAll(PutAll(local, recs), none), []) == PutAll(local, recs) by {
        forall id: string ensures Same(DropAll(PutAll(local, recs), []), PutAll(local, recs), id) {}
        SameTruth(DropAll(PutAll(local, recs), []), PutAll(local, recs));
      }
      forall id | id in PutAll(local, recs) ensures id in touched || Known(snaps, t, id) {
        PutAllHolds(local, recs, snaps[h], id);
        assert Lists(recs, id) ==> id in Ids(recs);
      }
  }

  /** Dropping a page's destroyed records keeps what the replica owes. */
  lemma DropKeeps(snaps: seq<Truth>, order: seq<string>, local: Truth, mark: Token, touched: set<string>,
      ids: seq<string>, h: nat, t2: nat)
    requires snaps != [] && Holds(snaps, order, local, mark, touched) && Fits(snaps, mark, [], ids, h, t2)
    ensures Holds(snaps, order, DropAll(local, ids), mark, touched)
  {
    if mark.At? {
      PageIsHarmless(snaps, local, mark.state, t2, h, [], [], ids);
    } else {
      assert DropAll(local, []) == local by {
        forall id: string ensures Same(DropAll(local, []), local, id) {}
        SameTruth(DropAll(local, []), local);
      }
    }
  }

  lemma HoldsAt(snaps: seq<Truth>, order: seq<string>, local: Truth, mark: Token, touched: set<string>)
    requires snaps != [] && mark.At? && Holds(snaps, order, local, mark, touched)
    ensures mark.state < |snaps| && Faithful(snaps, local, mark.state)
    ensures mark.state == |snaps| - 1 ==> local == Now(snaps)
  {
    if mark.state == |snaps| - 1 { FaithfulNow(snaps, local); }
  }

  class Worker {
    const kind: Kind
    const account: int
    const store: Store
    /** The server's states, oldest first, and the query result of the last. */
    ghost var snaps: seq<Truth>
    ghost var order: seq<string>
    /** How many more pages the server will say are to come. Every run holds finitely many. */
    var patience: nat
    /** The replica: what the store holds of this kind, record by record. */
    ghost var local: Truth
    var mark: Token
    /** The ids an unfinished page may have left. */
    ghost var touched: set<string>
    /** Whether what the proof rests on has held so far: each reply kept section 5.2's promise and
        repeated what an unfinished page had touched, and a baseline pull saw a still server. */
    ghost var sound: bool
    /** How many of the store's transactions have failed so far. */
    ghost var faults: nat

    ghost predicate ServerOK()
      reads this
    {
      snaps != [] && NoReuse(snaps) && Covers(order, Now(snaps))
    }

    /** What holds at every moment, between any two transactions and after any failure. */
    ghost predicate Valid()
      reads this, store
    {
      && ServerOK() && (sound ==> Holds(snaps, order, local, mark, touched))
      && store.Valid() && Mirrors(kind, account, store.boxes, store.writes, local)
    }

    constructor (kind: Kind, account: int, store: Store, truth: Truth, order: seq<string>, patience: nat)
      requires Covers(order, truth) && store.Valid() && Mirrors(kind, account, store.boxes, store.writes, map[])
      ensures Valid() && sound && mark == Start && local == map[]
      ensures this.kind == kind && this.account == account && this.store == store
    {
      this.kind, this.account, this.store := kind, account, store;
      snaps, this.order, this.patience := [truth], order, patience;
      local, mark, touched, sound, faults := map[], Start, {}, true, 0;
    }

    /** A transaction of the store: it commits, or the failure is on record. */
    method Attempt() returns (ok: bool)
      modifies this`faults
      ensures faults == old(faults) + if ok then 0 else 1
    {
      ok := *;
      if !ok { faults := faults + 1; }
    }

    /** The server moves on, any number of times. A baseline pull under way is then no longer one of
        a still server; before its first page it is. */
    method Interfere(ghost pulling: bool)
      requires Valid()
      modifies this`snaps, this`order, this`sound
      ensures Valid() && old(snaps) <= snaps
      ensures sound ==>
                && old(sound)
                && (!mark.At? && (pulling || mark.Paging? || local != map[]) ==>
                      snaps == old(snaps) && order == old(order))
      ensures mark.At? ==> sound == old(sound)
      ensures snaps == old(snaps) ==> sound == old(sound) && order == old(order)
    {
      ghost var more: seq<Truth> := *;
      ghost var query: seq<string> := *;
      if more != [] && NoReuse(snaps + more) && Covers(query, Now(snaps + more)) {
        ghost var was := snaps;
        snaps, order := snaps + more, query;
        if mark.At? {
          if sound {
            FaithfulWhileServerMoves(was, snaps, local, mark.state);
            AccountedWhileServerMoves(was, snaps, local, mark.state, touched);
          }
        } else if pulling || mark.Paging? || local != map[] {
          sound := false;
        }
      }
    }

    /** The Changes request for the watermark: any reply at all, of which `sound` remembers whether it
        kept its promise. */
    method Changes() returns (r: Reply, ghost h: nat)
      requires Valid()
      modifies this`snaps, this`order, this`sound, this`patience
      ensures Valid() && old(snaps) <= snaps && h == |snaps| - 1
      ensures sound ==> old(sound) && (r.Page? ==> KeptBy(snaps, order, touched, mark, r, h))
      ensures old(sound) && (mark.At? || snaps == old(snaps)) && !sound ==>
                r.Page? && !KeptBy(snaps, old(order), touched, mark, r, h)
      ensures snaps == old(snaps) ==> order == old(order)
      ensures r.Page? && r.hasMore ==> patience < old(patience)
      ensures patience <= old(patience)
    {
      Interfere(false);
      h := |snaps| - 1;
      r := *;
      if r.Page? && r.hasMore {
        if patience == 0 { r := Failed; } else { patience := patience - 1; }
      }
      if r.Page? && !KeptBy(snaps, order, touched, mark, r, h) { sound := false; }
    }

    /** One chunk's transaction, once the server has perhaps moved on: all of it written, or none. */
    method UpsertChunk(chunk: seq<Rec>, ghost h: nat, ghost t2: nat) returns (ok: bool)
      requires Valid() && (sound ==> Fits(snaps, mark, chunk, [], h, t2)) && Ids(chunk) <= touched
      modifies this`snaps, this`order, this`sound, this`local, this`faults, store
      ensures Valid() && old(snaps) <= snaps && (sound ==> old(sound)) && (mark.At? ==> sound == old(sound))
      ensures sound && !mark.At? ==> snaps == old(snaps) && order == old(order)
      ensures snaps == old(snaps) ==> sound == old(sound) && order == old(order)
      ensures local == if ok then PutAll(old(local), chunk) else old(local)
      ensures ok ==> AllOf(kind, chunk) && faults == old(faults)
      ensures !ok ==> faults > old(faults) || !AllOf(kind, chunk)
      ensures Undisturbed(kind, account, old(store.boxes), old(store.writes), store.boxes, store.writes)
    {
      hide Holds, Fits, NoReuse, Covers, Mirrors, Undisturbed, PutAll, Ids, AllOf;
      ghost var was := snaps;
      NothingWritten(kind, account, store.boxes, store.writes);
      Interfere(true);
      var more := Attempt();
      if !more { return false; }
      ok := UpsertAll(store, account, kind, chunk, local);
      if !ok { return; }
      if sound {
        FitsStays(was, snaps, mark, chunk, [], h, t2);
        UpsertKeeps(snaps, order, local, mark, touched, chunk, h, t2);
      }
      local := PutAll(local, chunk);
    }

    /** applyChunked over upserts: a chunk that fails leaves the chunks before it written. */
    method UpsertChunked(recs: seq<Rec>, ghost h: nat, ghost t2: nat) returns (ok: bool)
      requires Valid() && (sound ==> Fits(snaps, mark, recs, [], h, t2)) && Ids(recs) <= touched
      modifies this`snaps, this`order, this`sound, this`local, this`faults, store
      ensures Valid() && old(snaps) <= snaps && (sound ==> old(sound)) && (mark.At? ==> sound == old(sound))
      ensures sound && !mark.At? ==> snaps == old(snaps) && order == old(order)
      ensures snaps == old(snaps) ==> sound == old(sound) && order == old(order)
      ensures ok ==> local == PutAll(old(local), recs) && AllOf(kind, recs) && faults == old(faults)
      ensures !ok ==> faults > old(faults) || !AllOf(kind, recs)
      ensures Undisturbed(kind, account, old(store.boxes), old(store.writes), store.boxes, store.writes)
    {
      var n := 0;
      assert recs[..0] == [] && PutAll(local, []) == local;
      NothingWritten(kind, account, store.boxes, store.writes);
      hide Holds, Fits, NoReuse, Covers, Mirrors, Undisturbed, PutAll, Ids, KindOf;
      while n < |recs|
        invariant n <= |recs| && local == PutAll(old(local), recs[..n]) && AllOf(kind, recs[..n])
        invariant faults == old(faults)
        invariant Valid() && old(snaps) <= snaps && (sound ==> old(sound)) && (mark.At? ==> sound == old(sound))
        invariant sound ==> Fits(snaps, mark, recs, [], h, t2)
        invariant sound && !mark.At? ==> snaps == old(snaps) && order == old(order)
        invariant snaps == old(snaps) ==> sound == old(sound) && order == old(order)
        invariant Undisturbed(kind, account, old(store.boxes), old(store.writes), store.boxes, store.writes)
        decreases |recs| - n
      {
        ghost var was, boxes, writes := snaps, store.boxes, store.writes;
        var upTo := if |recs| - n <= BULK_CHUNK then |recs| else n + BULK_CHUNK;
        SliceIds(recs, n, upTo);
        if sound { FitsSlice(snaps, mark, recs, n, upTo, h, t2); }
        ok := UpsertChunk(recs[n..upTo], h, t2);
        UndisturbedTwice(kind, account, old(store.boxes), old(store.writes), boxes, writes, store.boxes, store.writes);
        if !ok && AllOf(kind, recs) { AllOfPart(kind, recs, n, upTo); }
        if !ok { return; }
        if sound { FitsStays(was, snaps, mark, recs, [], h, t2); }
        PutAllSplits(old(local), recs, n, upTo);
        AllOfMore(kind, recs, n, upTo);
        n := upTo;
      }
      assert recs[..|recs|] == recs;
      return true;
    }

    /** applyChunked over destroys. */
    method DestroyChunked(ids: seq<string>, ghost h: nat, ghost t2: nat) returns (ok: bool)
      requires Valid() && (sound ==> Fits(snaps, mark, [], ids, h, t2))
      modifies this`snaps, this`order, this`sound, this`local, this`faults, store
      ensures Valid() && old(snaps) <= snaps && (sound ==> old(sound)) && (mark.At? ==> sound == old(sound))
      ensures sound && !mark.At? ==> snaps == old(snaps) && order == old(order)
      ensures snaps == old(snaps) ==> sound == old(sound) && order == old(order)
      ensures ok ==> local == DropAll(old(local), ids)
      ensures faults == old(faults) + if ok then 0 else 1
      ensures Undisturbed(kind, account, old(store.boxes), old(store.writes), store.boxes, store.writes)
    {
      hide Holds, Fits, NoReuse, Covers, Mirrors, Undisturbed, DropAll;
      var n := 0;
      DropNone(local);
      NothingWritten(kind, account, store.boxes, store.writes);
      while n < |ids|
        invariant n <= |ids| && local == DropAll(old(local), ids[..n]) && faults == old(faults)
        invariant Valid() && old(snaps) <= snaps && (sound ==> old(sound)) && (mark.At? ==> sound == old(sound))
        invariant sound ==> Fits(snaps, mark, [], ids, h, t2)
        invariant sound && !mark.At? ==> snaps == old(snaps) && order == old(order)
        invariant snaps == old(snaps) ==> sound == old(sound) && order == old(order)
        invariant Undisturbed(kind, account, old(store.boxes), old(store.writes), store.boxes, store.writes)
        decreases |ids| - n
      {
        ghost var was, boxes, writes := snaps, store.boxes, store.writes;
        Interfere(true);
        if sound { FitsStays(was, snaps, mark, [], ids, h, t2); }
        var more := Attempt();
        if !more { return false; }
        var upTo := if |ids| - n <= BULK_CHUNK then |ids| else n + BULK_CHUNK;
        if sound {
          FitsPart(snaps, mark, ids, n, upTo, h, t2);
          DropKeeps(snaps, order, local, mark, touched, ids[n..upTo], h, t2);
        }
        DestroyAll(store, account, kind, ids[n..upTo], local);
        UndisturbedTwice(kind, account, old(store.boxes), old(store.writes), boxes, writes, store.boxes, store.writes);
        DropSplits(old(local), ids, n, upTo);
        local := DropAll(local, ids[n..upTo]);
        n := upTo;
      }
      assert ids[..|ids|] == ids;
      return true;
    }

    /** applyChangeSet: created, updated, destroyed, each in chunks of its own. */
    method ApplyChangeSet(r: Reply, ghost h: nat) returns (ok: bool)
      requires Valid() && r.Page? && (sound ==> KeptBy(snaps, order, touched, mark, r, h))
      modifies this`snaps, this`order, this`sound, this`local, this`touched, this`faults, store
      ensures Valid() && old(snaps) <= snaps && (sound ==> old(sound)) && (mark.At? ==> sound == old(sound))
      ensures sound && !mark.At? ==> snaps == old(snaps) && order == old(order)
      ensures snaps == old(snaps) ==> sound == old(sound) && order == old(order)
      ensures ok ==> local == DropAll(PutAll(PutAll(old(local), r.created), r.updated), r.destroyed)
      ensures ok ==> AllOf(kind, r.created) && AllOf(kind, r.updated) && faults == old(faults)
      ensures !ok ==> faults > old(faults) || !AllOf(kind, r.created) || !AllOf(kind, r.updated)
      ensures Undisturbed(kind, account, old(store.boxes), old(store.writes), store.boxes, store.writes)
    {
      hide Holds, NoReuse, Covers, Mirrors, Undisturbed, PutAll, DropAll, AllOf;
      ghost var t2 := if r.next.At? then r.next.state else h;
      ghost var first, boxes, writes := snaps, store.boxes, store.writes;
      touched := touched + Ids(r.created) + Ids(r.updated);
      WiderTouched(snaps, order, local, mark, old(touched), touched);
      if sound { KeptFits(snaps, order, old(touched), mark, r, h, t2); }
      ok := UpsertChunked(r.created, h, t2);
      if !ok { return; }
      ghost var boxes2, writes2 := store.boxes, store.writes;
      if sound { FitsStays(first, snaps, mark, r.updated, [], h, t2); }
      ok := UpsertChunked(r.updated, h, t2);
      UndisturbedTwice(kind, account, boxes, writes, boxes2, writes2, store.boxes, store.writes);
      if !ok { return; }
      boxes2, writes2 := store.boxes, store.writes;
      if sound { FitsStays(first, snaps, mark, [], r.destroyed, h, t2); }
      ok := DestroyChunked(r.destroyed, h, t2);
      UndisturbedTwice(kind, account, boxes, writes, boxes2, writes2, store.boxes, store.writes);
    }

    /** saveWatermark: the page's token, in a transaction of its own after the page's records. */
    method SaveWatermark(next: Token) returns (ok: bool)
      modifies this`mark, this`faults
      ensures mark == if ok then next else old(mark)
      ensures faults == old(faults) + if ok then 0 else 1
    {
      ok := Attempt();
      if ok { mark := next; }
    }

    /** A page in hand: applied, and its token saved once its every record is written. */
    method FinishPage(reply: Reply, ghost h: nat) returns (ok: bool)
      requires Valid() && reply.Page? && (sound ==> KeptBy(snaps, order, touched, mark, reply, h))
      modifies this`snaps, this`order, this`sound, this`local, this`touched, this`faults, this`mark, store
      ensures Valid() && old(snaps) <= snaps && (sound ==> old(sound)) && (old(mark).At? ==> sound == old(sound))
      ensures snaps == old(snaps) ==> sound == old(sound) && order == old(order)
      ensures ok ==>
                && mark == reply.next && faults == old(faults)
                && local == DropAll(PutAll(PutAll(old(local), reply.created), reply.updated), reply.destroyed)
                && AllOf(kind, reply.created) && AllOf(kind, reply.updated)
                && (sound && !reply.hasMore ==> mark.At?)
      ensures !ok ==>
                && mark == old(mark)
                && (faults > old(faults) || !AllOf(kind, reply.created) || !AllOf(kind, reply.updated))
      ensures Undisturbed(kind, account, old(store.boxes), old(store.writes), store.boxes, store.writes)
    {
      hide Holds, KeptBy, NoReuse, Covers, PutAll, DropAll, StillTouched, Mirrors, Undisturbed, AllOf;
      ghost var first, query, before, was := snaps, order, local, touched;
      ok := ApplyChangeSet(reply, h);
      if !ok { return; }
      Interfere(true);
      if sound { PageEnds(first, query, snaps, order, before, local, mark, was, touched, reply, h); }
      ok := SaveWatermark(reply.next);
      if !ok { return; }
      if reply.next.At? && reply.next.state < |snaps| { touched := StillTouched(snaps, touched, reply.next.state); }
    }

    /** One page: fetched, applied, and its token saved. The watermark moves only to the token of a
        page whose every record is written, and a page that offers more under the token it was asked
        for with ends the cycle before anything is. */
    method SyncPage() returns (ended: bool, o: Outcome, ghost r: Reply, ghost seen: seq<Truth>)
      requires Valid()
      modifies this, store
      ensures Valid() && old(snaps) <= snaps && (sound ==> old(sound))
      ensures !ended ==> patience < old(patience)
      ensures ended && o.Done? && sound ==> mark.At?
      ensures seen != [] && old(snaps) <= seen <= snaps && (snaps == old(snaps) ==> order == old(order))
      ensures old(sound) && (old(mark).At? || snaps == old(snaps)) && !sound ==>
                !Kept(Exchange(seen, old(touched), old(mark), r), old(order))
      ensures o == Resync <==> r.StateReset?
      ensures o == Stopped(BackendFailed) <==> r.Failed?
      ensures o == Stopped(StateNotAdvancing) <==> r.Page? && r.hasMore && r.next == old(mark)
      ensures o.Done? ==>
                && r.Page? && mark == r.next && (ended <==> !r.hasMore)
                && local == DropAll(PutAll(PutAll(old(local), r.created), r.updated), r.destroyed)
      ensures !o.Done? ==> ended && mark == old(mark)
      ensures o == Stopped(StoreFailed) ==>
                r.Page? && (faults > old(faults) || !AllOf(kind, r.created) || !AllOf(kind, r.updated))
      ensures o != Stopped(StoreFailed) ==> faults == old(faults)
      ensures o.Done? ==> AllOf(kind, r.created) && AllOf(kind, r.updated)
      ensures Undisturbed(kind, account, old(store.boxes), old(store.writes), store.boxes, store.writes)
    {
      hide Holds, KeptBy, NoReuse, Covers, PutAll, DropAll, StillTouched, Mirrors, Undisturbed, AllOf;
      NothingWritten(kind, account, store.boxes, store.writes);
      var reply;
      ghost var h;
      reply, h := Changes();
      r, seen := reply, snaps;
      if reply.Failed? { return true, Stopped(BackendFailed), r, seen; }
      if reply.StateReset? { return true, Resync, r, seen; }
      if reply.hasMore && reply.next == mark { return true, Stopped(StateNotAdvancing), r, seen; }
      var ok := FinishPage(reply, h);
      ended, o := !ok || !reply.hasMore, if ok then Done else Stopped(StoreFailed);
    }

    /** SyncKind: pages until the feed has no more. Whatever stops it, the replica is faithful to the
        watermark it is left with; and if it ran to the end over a server that has stood still since,
        the replica is the server's state, as it is when the server stood still and kept its promise in
        every reply. A state reset is handed to the full resync. */
    method SyncKind() returns (o: Outcome, ghost pages: seq<Exchange>)
      requires Valid()
      modifies this, store
      ensures Valid() && old(snaps) <= snaps && (sound ==> old(sound))
      ensures o.Done? && sound ==> mark.At? && mark.state < |snaps| && Faithful(snaps, local, mark.state)
      ensures o.Done? && sound && mark == At(|snaps| - 1) ==> local == Now(snaps)
      ensures pages != [] && EndsAs(pages[|pages| - 1], kind, o, faults > old(faults))
      ensures forall i | 0 <= i < |pages| :: pages[i].seen != [] && old(snaps) <= pages[i].seen <= snaps
      ensures old(sound) && (old(mark).At? || snaps == old(snaps)) && AllKept(pages, old(order)) ==> sound
      ensures o.Done? && old(sound) && snaps == old(snaps) && AllKept(pages, old(order)) ==> local == Now(snaps)
      ensures Undisturbed(kind, account, old(store.boxes), old(store.writes), store.boxes, store.writes)
    {
      hide Holds, NoReuse, Covers, Mirrors, Undisturbed;
      NothingWritten(kind, account, store.boxes, store.writes);
      var ended := false;
      o, pages := Done, [];
      while !ended
        invariant forall i | 0 <= i < |pages| :: pages[i].seen != [] && old(snaps) <= pages[i].seen <= snaps
        invariant if ended then pages != [] && EndsAs(pages[|pages| - 1], kind, o, faults > old(faults))
                  else o == Done && faults == old(faults)
        invariant snaps == old(snaps) ==> order == old(order)
        invariant AllKept(pages, old(order)) && old(mark).At? ==> mark.At?
        invariant old(sound) && (old(mark).At? || snaps == old(snaps)) && AllKept(pages, old(order)) ==> sound
        invariant ended && o.Done? && AllKept(pages, old(order)) ==>
            pages != [] && mark == At(|pages[|pages| - 1].seen| - 1)
        invariant Valid() && old(snaps) <= snaps && (sound ==> old(sound))
        invariant ended && o.Done? && sound ==> mark.At?
        invariant Undisturbed(kind, account, old(store.boxes), old(store.writes), store.boxes, store.writes)
        decreases !ended, patience
      {
        ghost var boxes, writes, was, query, before := store.boxes, store.writes, touched, order, mark;
        ghost var r, seen;
        ended, o, r, seen := SyncPage();
        KeptOnward(Exchange(seen, was, before, r), old(order), query);
        ghost var earlier := pages;
        pages := pages + [Exchange(seen, was, before, r)];
        KeptMore(earlier, pages[|earlier|], old(order));
        UndisturbedTwice(kind, account, old(store.boxes), old(store.writes), boxes, writes, store.boxes, store.writes);
      }
      if o.Done? && sound { HoldsAt(snaps, order, local, mark, touched); }
    }
  }

  /** One request of a cycle: the server's states by then, the ids an unfinished page had left, the token sent,
      and the reply. */
  datatype Exchange = Exchange(seen: seq<Truth>, touched: set<string>, mark: Token, reply: Reply)

  /** What a cycle comes to by its last reply: done at a page with no more to come, stopped at a failed request or
      at more under the token asked with, and at the store only by a failed transaction or a payload of the
      other kind. */
  predicate EndsAs(x: Exchange, kind: Kind, o: Outcome, faulty: bool) {
    match o
    case Done => x.reply.Page? && !x.reply.hasMore && !faulty
    case Resync => x.reply.StateReset? && !faulty
    case Stopped(BackendFailed) => x.reply.Failed? && !faulty
    case Stopped(StateNotAdvancing) => x.reply.Page? && x.reply.hasMore && x.reply.next == x.mark && !faulty
    case Stopped(StoreFailed) =>
      x.reply.Page? && (faulty || !AllOf(kind, x.reply.created) || !AllOf(kind, x.reply.updated))
  }

  /** The reply kept its promise; only a page of a baseline pull is held against the query. */
  ghost predicate Kept(x: Exchange, order: seq<string>)
    requires x.seen != []
  {
    x.reply.Page? ==> KeptBy(x.seen, order, x.touched, x.mark, x.reply, |x.seen| - 1)
  }

  ghost predicate AllKept(pages: seq<Exchange>, order: seq<string>)
    requires forall i | 0 <= i < |pages| :: pages[i].seen != []
  {
    forall i | 0 <= i < |pages| :: Kept(pages[i], order)
  }

  lemma KeptMore(pages: seq<Exchange>, x: Exchange, order: seq<string>)
    requires x.seen != [] && forall i | 0 <= i < |pages| :: pages[i].seen != []
    ensures AllKept(pages + [x], order) <==> AllKept(pages, order) && Kept(x, order)
  {
    var after := pages + [x];
    assert after[|pages|] == x;
    if AllKept(after, order) {
      forall i | 0 <= i < |pages| ensures Kept(pages[i], order) { assert after[i] == pages[i]; }
    }
  }

  /** A page asked for with a state token leads to one, and the last page of a kept cycle to the state then. */
  lemma KeptOnward(x: Exchange, order: seq<string>, query: seq<string>)
    requires x.seen != []
    ensures x.mark.At? ==> (Kept(x, order) <==> Kept(x, query))
    ensures x.reply.Page? && Kept(x, order) && x.mark.At? ==> x.reply.next.At?
    ensures x.reply.Page? && Kept(x, order) && !x.reply.hasMore ==> x.reply.next == At(|x.seen| - 1)
  {
  }

  /** What a reply must be for the claims made here: for a state token section 5.2's page, repeating
      what an unfinished page touched; for a baseline token the next page of the query. */
  ghost predicate KeptBy(snaps: seq<Truth>, order: seq<string>, touched: set<string>, mark: Token, r: Reply, h: nat)
    requires snaps != []
  {
    match mark
    case At(t) => t < |snaps| && h < |snaps| && Promised(snaps, t, h, r) && RepeatsItself(snaps, t, r, touched)
    case _ => h == |snaps| - 1 && BaselinePage(order, Now(snaps), h, mark, r)
  }

  /** A page of the query lists each id it covers. */
  lemma PageLists(order: seq<string>, truth: Truth, now: nat, token: Token, r: Reply)
    requires BaselinePage(order, truth, now, token, r) && PageFrom(now, token) <= |order|
    ensures var from := PageFrom(now, token);
            from + |r.created| <= |order| && (r.hasMore <==> from + |r.created| < |order|)
            && forall i | from <= i < from + |r.created| :: Lists(r.created, order[i])
  {
    var from := PageFrom(now, token);
    forall i | from <= i < from + |r.created| ensures Lists(r.created, order[i]) {
      assert IdsOf(r.created)[i - from] == r.created[i - from].id;
    }
  }

  /** A promised page fits the replica it was asked for. */
  lemma KeptFits(snaps: seq<Truth>, order: seq<string>, touched: set<string>, mark: Token, r: Reply, h: nat, t2: nat)
    requires snaps != [] && r.Page? && KeptBy(snaps, order, touched, mark, r, h)
        && t2 == if r.next.At? then r.next.state else h
    ensures Fits(snaps, mark, r.created, [], h, t2) && Fits(snaps, mark, r.updated, [], h, t2)
        && Fits(snaps, mark, [], r.destroyed, h, t2)
  {
  }

  /** A page applied whole: what the replica then owes under the page's own token. */
  lemma PageEnds(first: seq<Truth>, query: seq<string>, snaps: seq<Truth>, order: seq<string>, before: Truth,
      after: Truth, mark: Token,
                 was: set<string>, touched: set<string>, r: Reply, h: nat)
    requires first != [] && first <= snaps && (mark.At? || (snaps == first && order == query))
    requires NoReuse(snaps) && Covers(order, Now(snaps))
    requires r.Page? && Holds(first, query, before, mark, was) && KeptBy(first, query, was, mark, r, h)
    requires Holds(snaps, order, after, mark, touched)
    requires after == DropAll(PutAll(PutAll(before, r.created), r.updated), r.destroyed)
    ensures r.next.At? ==> r.next.state < |snaps|
    ensures Holds(snaps, order, after, r.next,
        if r.next.At? then StillTouched(snaps, touched, r.next.state) else touched)
    ensures !r.hasMore ==> r.next.At?
  {
    if mark.At? {
      var t := mark.state;
      FaithfulWhileServerMoves(first, snaps, before, t);
      AccountedWhileServerMoves(first, snaps, before, t, was);
      PromiseStands(first, snaps, t, h, r, was);
      PageArrives(snaps, before, t, h, r, was);
      AccountedAfterAPage(snaps, after, t, r.next.state, touched);
    } else {
      BaselinePageEnds(snaps, order, before, after, mark, touched, r, h);
    }
  }

  lemma BaselinePageEnds(snaps: seq<Truth>, order: seq<string>, before: Truth, after: Truth, mark: Token,
      touched: set<string>, r: Reply, h: nat)
    requires snaps != [] && !mark.At? && r.Page? && Covers(order, Now(snaps))
    requires Holds(snaps, order, before, mark, touched) && KeptBy(snaps, order, touched, mark, r, h)
    requires after == DropAll(PutAll(PutAll(before, r.created), r.updated), r.destroyed)
    ensures r.next.At? ==> r.next.state < |snaps|
    ensures Holds(snaps, order, after, r.next,
        if r.next.At? then StillTouched(snaps, touched, r.next.state) else touched)
    ensures !r.hasMore ==> r.next.At?
  {
    var truth := Now(snaps);
    var from := PageFrom(h, mark);
    var upTo := from + |r.created|;
    DropNone(PutAll(before, r.created));
    assert r.updated == [] && r.destroyed == [] && Pulled(order, truth, before, from);
    PageLists(order, truth, h, mark, r);
    hide PutAll, Covers, BaselinePage;
    PulledMore(order, truth, before, from, upTo, r.created);
    if upTo == |order| { PullIsWhole(snaps, order, after, touched); }
  }

  lemma PullIsWhole(snaps: seq<Truth>, order: seq<string>, local: Truth, touched: set<string>)
    requires snaps != [] && Covers(order, Now(snaps)) && Pulled(order, Now(snaps), local, |order|)
    ensures Faithful(snaps, local, |snaps| - 1) && Accounted(snaps, local, |snaps| - 1, touched)
  {
    PulledAll(order, Now(snaps), local);
    var now := |snaps| - 1;
    forall id: string ensures FaithfulAt(snaps, local, now, id) {}
    forall id | id in local ensures Known(snaps, now, id) { assert id in snaps[now]; }
  }

  lemma SliceIds(recs: seq<Rec>, n: nat, m: nat)
    requires n <= m <= |recs|
    ensures Ids(recs[n..m]) <= Ids(recs)
  {
    var part := recs[n..m];
    forall id | id in Ids(part) ensures id in Ids(recs) {
      var k :| 0 <= k < |part| && part[k].id == id;
      assert recs[n + k].id == id;
    }
  }

  lemma FitsSlice(snaps: seq<Truth>, mark: Token, recs: seq<Rec>, n: nat, m: nat, h: nat, t2: nat)
    requires n <= m <= |recs| && Fits(snaps, mark, recs, [], h, t2)
    ensures Fits(snaps, mark, recs[n..m], [], h, t2)
  {
    var part := recs[n..m];
    forall k | 0 <= k < |part| ensures part[k].id in snaps[h] && snaps[h][part[k].id] == part[k].fields {
      assert part[k] == recs[n + k];
    }
  }

  lemma FitsPart(snaps: seq<Truth>, mark: Token, ids: seq<string>, n: nat, m: nat, h: nat, t2: nat)
    requires n <= m <= |ids| && Fits(snaps, mark, [], ids, h, t2)
    ensures Fits(snaps, mark, [], ids[n..m], h, t2)
  {
  }

  /** More records an unfinished page may leave account for no fewer rows. */
  lemma WiderTouched(snaps: seq<Truth>, order: seq<string>, local: Truth, mark: Token, touched: set<string>,
      more: set<string>)
    requires snaps != [] && touched <= more
    ensures Holds(snaps, order, local, mark, touched) ==> Holds(snaps, order, local, mark, more)
  {
  }

  lemma FitsStays(snaps: seq<Truth>, more: seq<Truth>, mark: Token, recs: seq<Rec>, destroyed: seq<string>,
      h: nat, t2: nat)
    requires snaps <= more && Fits(snaps, mark, recs, destroyed, h, t2) && (mark.At? || more == snaps)
    ensures Fits(more, mark, recs, destroyed, h, t2)
  {
  }
}
