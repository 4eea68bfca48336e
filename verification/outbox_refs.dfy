/** References between intents: which rows still name a create once its walk is over, and what becomes
    of a reference that names none. */
module OutboxRefs {
  import opened Common
  import opened Ordered
  import opened OutboxRows
  import opened OutboxMachine
  import opened OutboxInvariant
  import opened OutboxSteps
  import opened OutboxTheorems

  // ---------------------------------------------------------------- what the walks have examined

  predicate Walked(walked: map<int, set<int>>, a: int, n: int) { a in walked && n in walked[a] }

  /** p, intent n's payload, names a create of the queue exactly when no page has examined it. */
  predicate NamesUnlessWalked(log: seq<Intent>, walked: map<int, set<int>>, n: int, p: Payload)
    requires 0 <= n < |log|
  {
    log[n].ref >= 0 ==> (p.Ref() != 0 <==> !Walked(walked, log[n].ref, n))
  }

  predicate RowsWalked(me: int, rows: Table, log: seq<Intent>, walked: map<int, set<int>>) {
    forall id | id in rows && rows[id].account == me ::
      0 <= rows[id].serial < |log| && NamesUnlessWalked(log, walked, rows[id].serial, rows[id].payload)
  }

  /** A claimed copy that names nothing any more was claimed from a row that did not. */
  predicate ClaimsWalked(l: Live, log: seq<Intent>, walked: map<int, set<int>>) {
    forall id | id in l.claimed ::
      var n := l.claimed[id].serial;
      0 <= n < |log| && (log[n].ref >= 0 && l.claimed[id].payload.Ref() == 0 ==> Walked(walked, log[n].ref, n))
  }

  ghost predicate Past(log: seq<Intent>, walked: map<int, set<int>>) {
    forall a, n | Walked(walked, a, n) :: 0 <= n < |log|
  }

  ghost predicate WalkedOK(s: Sys) {
    && Past(s.hist.log, s.walked) && RowsWalked(s.me, s.rows, s.hist.log, s.walked)
    && (s.pass.Running? ==> ClaimsWalked(s.pass.live, s.hist.log, s.walked))
  }

  lemma EnqueueWalked(s: Sys, p: Payload, at: int)
    requires Inv(s) && WalkedOK(s) && Enabled(s, Enqueue(p, at))
    ensures WalkedOK(After(s, Enqueue(p, at)))
  {
    var t := After(s, Enqueue(p, at));
    forall n | 0 <= n < |s.hist.log| ensures t.hist.log[n] == s.hist.log[n] {}
    assert !Walked(s.walked, t.hist.log[|s.hist.log|].ref, |s.hist.log|);
  }

  /** A page strikes the reference off exactly the rows it examines that have it. */
  lemma PageWalksRow(s: Sys, id: int, page: seq<int>, k: int)
    requires Inv(s) && WalkedOK(s) && Enabled(s, Page(id)) && k in s.rows && s.rows[k].account == s.me
    requires 0 <= s.rows[k].serial < |s.hist.log|
    ensures var a := s.rows[id].serial;
            var after := s.walked[a := WalkedOf(s, a) + Examined(s, page, id)];
            var rows := PatchPage(s.rows, page, s.me, id, s.rows[id].payload.resolved);
            NamesUnlessWalked(s.hist.log, after, s.rows[k].serial, rows[k].payload)
  {
    hide SettledOK, WalkOK, FiledOK, CarriedOut, MayDeliver, BoundOK, HeldOK;
    var n := s.rows[k].serial;
    var i := s.hist.log[n];
    assert ClaimedOK(s.me, s.rows, s.server, s.hist, id, s.pass.live.claimed[id]);
    assert NamesUnlessWalked(s.hist.log, s.walked, n, s.rows[k].payload);
    assert RefOK(s.me, s.rows, k, i.payload.Ref(), i.ref);
    assert Follows(s.server, s.hist.log, s.hist.bound, n, s.rows[k].payload);
    assert n in Examined(s, page, id) <==> k in page && k != id by {
      forall j | j in page && j in s.rows && s.rows[j].account == s.me && s.rows[j].serial == n ensures j == k {
        assert s.hist.log[n].id == j && s.hist.log[n].id == k;
      }
    }
  }

  lemma PagePast(s: Sys, page: seq<int>, id: int, a: int)
    requires Inv(s) && Past(s.hist.log, s.walked)
    ensures Past(s.hist.log, s.walked[a := WalkedOf(s, a) + Examined(s, page, id)])
  {
    hide LiveOK, SettledOK, RowsFollow, BoundOK, RefsOK, LogOK, HeldOK;
    var after := s.walked[a := WalkedOf(s, a) + Examined(s, page, id)];
    forall b: int, n: int | Walked(after, b, n) ensures 0 <= n < |s.hist.log| {
      if b != a || n in WalkedOf(s, a) { assert Walked(s.walked, b, n); }
    }
  }

  lemma PageWalked(s: Sys, id: int)
    requires Inv(s) && WalkedOK(s) && Enabled(s, Page(id))
    ensures WalkedOK(After(s, Page(id)))
  {
    hide LiveOK, SettledOK, RowsFollow, BoundOK, RefsOK, LogOK, HeldOK, Placed, PageAfter, NamesUnlessWalked, Past;
    var l := s.pass.live;
    var walk := if id in l.walks then l.walks[id] else Walk(0, |s.hist.log|, false);
    var page := PageAfter(s.rows, walk.after, DEPENDENT_REF_PAGE);
    PageOwners(s, id);
    if page != [] {
      forall k | k in s.rows && s.rows[k].account == s.me
        ensures 0 <= s.rows[k].serial < |s.hist.log|
        ensures NamesUnlessWalked(s.hist.log, AfterPage(s, id).walked, s.rows[k].serial,
            AfterPage(s, id).rows[k].payload)
      {
        PageWalksRow(s, id, page, k);
      }
      PagePast(s, page, id, s.rows[id].serial);
      PageClaims(s, page, id, s.rows[id].serial);
    }
  }

  lemma PageOwners(s: Sys, id: int)
    requires Enabled(s, Page(id))
    ensures var t := AfterPage(s, id);
            && t.me == s.me && t.hist == s.hist && t.pass.Running? && t.pass.live.claimed == s.pass.live.claimed
            && forall k | k in t.rows ::
                k in s.rows && t.rows[k].account == s.rows[k].account && t.rows[k].serial == s.rows[k].serial
  {
  }

  lemma PageClaims(s: Sys, page: seq<int>, id: int, a: int)
    requires s.pass.Running? && ClaimsWalked(s.pass.live, s.hist.log, s.walked)
    ensures ClaimsWalked(s.pass.live, s.hist.log, s.walked[a := WalkedOf(s, a) + Examined(s, page, id)])
  {
  }

  lemma PersistWalked(s: Sys, id: int)
    requires Inv(s) && WalkedOK(s) && Enabled(s, Persist(id))
    ensures WalkedOK(After(s, Persist(id)))
  {
    var t := After(s, Persist(id));
    var l := s.pass.live;
    var c := l.claimed[id];
    assert ClaimedOK(s.me, s.rows, s.server, s.hist, id, c);
    assert LearnedOK(s.server, s.hist, c, l.learned[id]);
    forall k | k in l.claimed ensures l.claimed[k].serial == c.serial ==> k == id {
      assert ClaimedOK(s.me, s.rows, s.server, s.hist, k, l.claimed[k]);
    }
    forall k | k in s.rows && s.rows[k].account == s.me ensures s.rows[k].serial == c.serial ==> k == id {
      assert s.hist.log[s.rows[k].serial].id == k;
    }
    hide Inv;
    PersistUnwalks(s, t, id, c);
  }

  /** Writing a claimed payload back makes the row name what the claim named, whatever a page did since. */
  lemma PersistUnwalks(s: Sys, t: Sys, id: int, c: Claimed)
    requires WalkedOK(s) && s.pass.Running? && id in s.pass.live.claimed && s.pass.live.claimed[id] == c
    requires id in s.rows && s.rows[id].serial == c.serial && id in t.rows
    requires forall k | k in s.pass.live.claimed :: s.pass.live.claimed[k].serial == c.serial ==> k == id
    requires forall k | k in s.rows && s.rows[k].account == s.me :: s.rows[k].serial == c.serial ==> k == id
    requires t.me == s.me && t.hist.log == s.hist.log && t.pass == s.pass
    requires t.rows == s.rows[id := t.rows[id]] && t.rows[id].serial == c.serial
        && t.rows[id].payload.Ref() == c.payload.Ref()
    requires t.walked == if c.payload.Ref() == 0 then s.walked else map a | a in s.walked :: s.walked[a] - {c.serial}
    ensures WalkedOK(t)
  {
    var log := s.hist.log;
    forall a: int, n: int
      ensures Walked(t.walked, a, n) <==> Walked(s.walked, a, n) && (c.payload.Ref() == 0 || n != c.serial) {}
    forall a: int, n: int | Walked(t.walked, a, n) ensures 0 <= n < |log| { assert Walked(s.walked, a, n); }
    forall k | k in t.rows && t.rows[k].account == t.me
      ensures 0 <= t.rows[k].serial < |log| && NamesUnlessWalked(log, t.walked, t.rows[k].serial, t.rows[k].payload)
    {
      if k != id { assert NamesUnlessWalked(log, s.walked, s.rows[k].serial, s.rows[k].payload); }
    }
  }

  lemma QuietWalked(s: Sys, t: Sys)
    requires WalkedOK(s) && t.me == s.me && t.hist.log == s.hist.log && t.walked == s.walked
    requires forall id | id in t.rows && t.rows[id].account == t.me ::
               id in s.rows && s.rows[id].account == s.me && t.rows[id].serial == s.rows[id].serial
               && t.rows[id].payload == s.rows[id].payload
    requires t.pass.Running? ==>
               ClaimsWalked(t.pass.live, s.hist.log, s.walked)
               || (s.pass.Running? && t.pass.live.claimed == s.pass.live.claimed)
    ensures WalkedOK(t)
  {
  }

  /** An event that writes no payload leaves the account's rows as they were, less those that go. */
  lemma QuietRows(s: Sys, e: Event)
    requires Enabled(s, e) && !e.Enqueue? && !e.Page? && !e.Persist?
    ensures var t := After(s, e);
            && t.me == s.me && t.hist.log == s.hist.log && t.walked == s.walked
            && forall id | id in t.rows && t.rows[id].account == t.me ::
                 id in s.rows && s.rows[id].account == s.me && t.rows[id].serial == s.rows[id].serial
                 && t.rows[id].payload == s.rows[id].payload
  {
  }

  lemma QuietClaims(s: Sys, e: Event)
    requires Enabled(s, e) && !e.Enqueue? && !e.Page? && !e.Persist? && !e.Claim?
    ensures After(s, e).pass.Running? ==> s.pass.Running? && After(s, e).pass.live.claimed == s.pass.live.claimed
  {
  }

  lemma ClaimWalked(s: Sys, ids: seq<int>, mailboxes: map<int, string>, messages: map<int, string>)
    requires WalkedOK(s) && Enabled(s, Claim(ids, mailboxes, messages))
    ensures var t := After(s, Claim(ids, mailboxes, messages));
            t.pass.Running? && ClaimsWalked(t.pass.live, s.hist.log, s.walked)
  {
    forall id | id in ids && id in s.rows
      ensures ResolveClaim(id, s.rows[id], mailboxes, messages).serial == s.rows[id].serial
      ensures ResolveClaim(id, s.rows[id], mailboxes, messages).payload == s.rows[id].payload
      ensures 0 <= s.rows[id].serial < |s.hist.log|
      ensures NamesUnlessWalked(s.hist.log, s.walked, s.rows[id].serial, s.rows[id].payload)
    {
    }
  }

  lemma StepKeepsWalked(s: Sys, e: Event)
    requires Inv(s) && WalkedOK(s) && Enabled(s, e)
    ensures WalkedOK(After(s, e))
  {
    hide *;
    if e.Enqueue? {
      EnqueueWalked(s, e.payload, e.at);
    } else if e.Page? {
      PageWalked(s, e.id);
    } else if e.Persist? {
      PersistWalked(s, e.id);
    } else {
      QuietRows(s, e);
      if e.Claim? { ClaimWalked(s, e.ids, e.mailboxes, e.messages); } else { QuietClaims(s, e); }
      QuietWalked(s, After(s, e));
    }
  }

  lemma {:induction false} RunKeepsWalked(s: Sys, es: seq<Event>, t: Sys)
    requires Inv(s) && WalkedOK(s) && Runs(s, es, t)
    ensures WalkedOK(t)
    decreases |es|
  {
    if es != [] {
      StepKeepsWalked(s, es[0]);
      StepKeeps(s, es[0]);
      RunKeepsWalked(After(s, es[0]), es[1..], t);
    }
  }

  /** In every state, an intent that named a queued create names it still exactly when no page of that
      create's walks has examined its row since the reference was last written there. */
  lemma NamedUntilWalked(s: Sys, id: int)
    requires Reachable(s) && id in s.rows && s.rows[id].account == s.me
    ensures 0 <= s.rows[id].serial < |s.hist.log|
    ensures var a := s.hist.log[s.rows[id].serial].ref;
            a >= 0 ==>
              && a < |s.hist.log|
              && (s.rows[id].payload.Ref() == s.hist.log[a].id <==> !Walked(s.walked, a, s.rows[id].serial))
              && (s.rows[id].payload.Ref() != s.hist.log[a].id <==> s.rows[id].payload.Ref() == 0)
  {
    var s0, es :| Initial(s0) && Runs(s0, es, s);
    RunKeepsWalked(s0, es, s);
    ReachableInv(s);
    assert Follows(s.server, s.hist.log, s.hist.bound, s.rows[id].serial, s.rows[id].payload);
    assert NamesUnlessWalked(s.hist.log, s.walked, s.rows[id].serial, s.rows[id].payload);
  }

  // ---------------------------------------------------------------- rows a walk leaves behind

  /** A claimed move whose reference names a row that is gone can be filed nowhere: with its destination
      unknown to the store and to the pass, it is never delivered. */
  lemma CutOffMoveIsNeverFiled(s: Sys, id: int, dest: string)
    requires Reachable(s) && s.pass.Running? && id in s.pass.live.claimed
    requires var c := s.pass.live.claimed[id];
             c.payload.MoveMessages? && c.payload.destRef != 0 && c.payload.destRef !in s.rows
    ensures !Enabled(s, File(id, dest))
  {
    hide Core, LearnedOK, WalkOK, FiledOK, Answers, CarriedOut, MayDeliver;
    ReachableInv(s);
    var l := s.pass.live;
    var c := l.claimed[id];
    var k := c.payload.destRef;
    assert ClaimedOK(s.me, s.rows, s.server, s.hist, id, c);
    assert forall x :: x in l.claimed ==> x in s.rows;
  }

  lemma IdsAfter(rows: Table, after: int, ids: set<int>)
    requires forall id :: id in ids <==> id in rows.Keys && id > after
    ensures (set id | id in rows && id > after) == ids
  {
    var past := set id | id in rows && id > after;
    forall id: int ensures Within(id, past) <==> Within(id, ids) {}
    SameSet(past, ids);
  }

  lemma OneRowPages(rows: Table)
    requires rows.Keys == {1}
    ensures PageAfter(rows, 0, DEPENDENT_REF_PAGE) == [1] && PageAfter(rows, 1, DEPENDENT_REF_PAGE) == []
  {
    OneAscending(1);
    IdsAfter(rows, 0, {1});
    IdsAfter(rows, 1, {});
  }

  lemma ClaimedCreate(me: int) returns (s: Sys)
    ensures Reachable(s) && s.me == me && s.pass.Running? && s.rows.Keys == {1} && |s.hist.log| == 1
        && s.hist.log[0].id == 1
    ensures s.rows[1].account == me && s.rows[1].serial == 0 && s.hist.fate == map[] && CallsCreate(s, 1)
    ensures s.pass.live.claimed == map[1 := Claimed(1, 0, WORK, 0, None, map[], "", "", "", false)]
    ensures s.pass.live == Live(s.pass.live.claimed, map[], map[], map[], map[], {}, map[], map[], s.pass.live.read)
    ensures s.server == MailServer(map[], {}, {}, {}, {})
  {
    hide Reachable;
    var s1 := FirstCreate(me);
    var claim := Event.Claim([1], map[], map[]);
    assert 1 in [1];
    ReachableOn(s1, claim);
    s := After(s1, claim);
    assert s.rows.Keys == {1};
    assert s.pass.live.claimed.Keys == {1};
  }

  lemma MadeMailbox(me: int) returns (s: Sys)
    ensures Reachable(s) && s.me == me && s.pass.Running? && s.rows.Keys == {1} && |s.hist.log| == 1
        && s.hist.log[0].id == 1
    ensures s.rows[1].account == me && s.rows[1].serial == 0 && s.hist.fate == map[]
    ensures s.pass.live.claimed == map[1 := Claimed(1, 0, WORK, 0, None, map[], "", "", "", false)]
    ensures var l := s.pass.live;
            l == Live(l.claimed, map[1 := Bound("box", "")], map[], map[], map[], {}, map[], map[], l.read)
  {
    hide Reachable;
    var s1 := ClaimedCreate(me);
    assert Matches(s1.server, AskedBox(s1, 1)) == {};
    ReachableOn(s1, Create(1, "box"));
    s := After(s1, Create(1, "box"));
  }

  /** A pass that made the mailbox of a lone create and recorded it. */
  lemma RecordedCreate(me: int) returns (s: Sys)
    ensures Reachable(s) && s.me == me && s.pass.Running? && s.rows.Keys == {1} && |s.hist.log| == 1
        && s.hist.log[0].id == 1
    ensures s.rows[1].account == me && s.rows[1].serial == 0 && HoldsId(s.rows[1].payload) && s.hist.fate == map[]
    ensures s.pass.live.claimed == map[1 := Claimed(1, 0, WORK, 0, None, map[], "", "", "", false)]
    ensures var l := s.pass.live;
            l == Live(l.claimed, map[1 := Bound("box", "")], map[], map[], map[], {}, map[], map[], l.read)
  {
    hide Reachable;
    var s1 := MadeMailbox(me);
    assert 1 in s1.rows.Keys;
    ReachableOn(s1, Persist(1));
    s := After(s1, Persist(1));
    assert s.rows.Keys == {1};
  }

  /** One page of the lone create's walk. */
  lemma LonePage(s: Sys) returns (t: Sys)
    requires Reachable(s) && s.pass.Running? && s.rows.Keys == {1} && s.rows[1].account == s.me
        && HoldsId(s.rows[1].payload)
    requires s.pass.live.claimed == map[1 := Claimed(1, 0, WORK, 0, None, map[], "", "", "", false)]
        && s.pass.live.decided == map[]
    requires s.pass.live.walks == map[] || s.pass.live.walks == map[1 := Walk(1, 1, false)]
    requires |s.hist.log| == 1
    ensures Reachable(t) && t.me == s.me && t.hist == s.hist && t.rows.Keys == {1}
    ensures t.rows[1].account == s.me && t.rows[1].serial == s.rows[1].serial && HoldsId(t.rows[1].payload)
    ensures t.pass == Running(s.pass.live.(walks := map[1 := Walk(1, 1, s.pass.live.walks != map[])]))
  {
    hide Reachable;
    OneRowPages(s.rows);
    assert 1 in s.rows.Keys;
    ReachableOn(s, Page(1));
    hide PageAfter;
    t := After(s, Page(1));
    assert t.rows.Keys == {1};
  }

  /** The same pass, its walk over. */
  lemma WalkedCreate(me: int) returns (s: Sys)
    ensures Reachable(s) && s.me == me && s.pass.Running? && s.rows.Keys == {1} && |s.hist.log| == 1
        && s.hist.log[0].id == 1
    ensures s.rows[1].account == me && s.rows[1].serial == 0 && s.rows[1].payload.CreateMailbox? && s.hist.fate == map[]
    ensures s.pass.live.claimed == map[1 := Claimed(1, 0, WORK, 0, None, map[], "", "", "", false)]
        && s.pass.live.decided == map[]
    ensures s.pass.live.walks == map[1 := Walk(1, 1, true)]
  {
    hide Reachable;
    var s1 := RecordedCreate(me);
    var s2 := LonePage(s1);
    s := LonePage(s2);
  }

  const LATE := MoveMessages([7], 0, 1, "", map[7 := 2])

  /** A move enqueued when its create's walk is already over. */
  lemma EnqueuedLate(me: int) returns (s: Sys)
    ensures Reachable(s) && s.me == me && s.pass.Running? && s.rows.Keys == {1, 2} && |s.hist.log| == 2
    ensures s.hist.log[0].id == 1 && s.hist.log[1] == Intent(2, LATE, 0)
    ensures s.rows[2] == Row(me, LATE, Queued, 0, 0, None, "", 1)
    ensures s.pass.live.claimed == map[1 := Claimed(1, 0, WORK, 0, None, map[], "", "", "", false)]
    ensures s.pass.live.walks == map[1 := Walk(1, 1, true)] && s.pass.live.decided == map[] && s.hist.fate == map[]
  {
    hide Reachable, Inv;
    var s1 := WalkedCreate(me);
    assert NextId({1}) == 2 by { OneAscending(1); }
    assert 1 in s1.rows.Keys;
    ReachableOn(s1, Enqueue(LATE, 0));
    s := After(s1, Enqueue(LATE, 0));
    assert s.rows.Keys == {1, 2};
  }

  lemma DecidedLate(me: int) returns (s: Sys)
    ensures Reachable(s) && s.me == me && s.pass.Running? && s.rows.Keys == {1, 2} && |s.hist.log| == 2
    ensures s.hist.log[0].id == 1 && s.hist.log[1] == Intent(2, LATE, 0)
    ensures s.rows[2] == Row(me, LATE, Queued, 0, 0, None, "", 1)
    ensures s.pass.live.claimed == map[1 := Claimed(1, 0, WORK, 0, None, map[], "", "", "", false)]
    ensures s.pass.live.decided == map[1 := Deliver] && s.hist.fate == map[]
  {
    hide Reachable, Inv;
    var s1 := EnqueuedLate(me);
    ReachableOn(s1, Decide(1, Deliver));
    s := After(s1, Decide(1, Deliver));
  }

  /** A row enqueued after the walk has seen its last page is left naming a create that is delivered and
      gone. */
  lemma LateRowIsLeftBehind(me: int) returns (s: Sys)
    ensures Reachable(s) && |s.hist.log| == 2 && s.hist.log[1].ref == 0 && 0 in s.hist.fate
        && s.hist.fate[0] == Delivered
    ensures 2 in s.rows && s.rows[2].account == s.me && s.rows[2].serial == 1 && s.rows[2].payload == LATE
    ensures !Walked(s.walked, 0, 1) && 1 !in s.rows
  {
    hide Reachable, Inv, Settle;
    var s1 := DecidedLate(me);
    var l := s1.pass.live;
    assert l.decided.Keys == l.claimed.Keys;
    ReachableOn(s1, Event.Finalize(0));
    s := After(s1, Event.Finalize(0));
    ParentSettles(s1.hist, l);
    assert 2 in s1.rows.Keys && s.rows[2] == s1.rows[2];
    NamedUntilWalked(s, 2);
  }

  // ---------------------------------------------------------------- a reference written back

  /** What the pass over a create and one nested in it has come to. */
  predicate Together(s: Sys, l: Live) {
    && s.pass == Running(l) && s.rows.Keys == {1, 2} && l.claimed.Keys == {1, 2} && l.decided == map[]
    && s.rows[1].account == s.me && s.rows[2].account == s.me && s.rows[1].serial == 0 && s.rows[2].serial == 1
    && s.rows[1].payload.CreateMailbox? && s.rows[2].payload.CreateMailbox?
    && |s.hist.log| == 2 && s.hist.log[0].id == 1 && s.hist.log[1].ref == 0 && s.hist.fate == map[]
    && l.claimed[1] == Claimed(1, 0, WORK, 0, None, map[], "", "", "", false)
    && l.claimed[2] == Claimed(2, 1, NESTED, 0, None, map[], "", "", "", false)
  }

  lemma BothQueued(me: int) returns (s: Sys)
    ensures Reachable(s) && s.me == me && s.pass == Idle && s.rows.Keys == {1, 2}
    ensures s.rows[1] == Row(me, WORK, Queued, 0, 0, None, "", 0)
        && s.rows[2] == Row(me, NESTED, Queued, 0, 0, None, "", 1)
    ensures |s.hist.log| == 2 && s.hist.log[0].id == 1 && s.hist.log[1].ref == 0 && s.hist.fate == map[]
    ensures s.server.boxes == map[] && s.server.ever == {}
  {
    hide Reachable, Inv;
    var s1 := FirstCreate(me);
    forall k: int ensures Within(k, s1.rows.Keys) <==> Within(k, {1}) {}
    SameSet(s1.rows.Keys, {1});
    assert NextId({1}) == 2 by { OneAscending(1); }
    assert 1 in s1.rows.Keys;
    ReachableOn(s1, Enqueue(NESTED, 0));
    s := After(s1, Enqueue(NESTED, 0));
    forall k: int ensures Within(k, s.rows.Keys) <==> Within(k, {1, 2}) {
      assert Within(k, s1.rows.Keys) <==> Within(k, {1});
    }
    SameSet(s.rows.Keys, {1, 2});
  }

  lemma BothClaimed(me: int) returns (s: Sys, l: Live)
    ensures Reachable(s) && s.me == me && Together(s, l) && l.learned == map[] && l.walks == map[]
        && l.resolved == map[]
    ensures s.server.boxes == map[] && s.server.ever == {} && s.rows[2].payload == NESTED
  {
    hide Reachable, Inv;
    var s1 := BothQueued(me);
    var claim := Event.Claim([1, 2], map[], map[]);
    assert 1 in s1.rows.Keys && 2 in s1.rows.Keys;
    assert 1 in [1, 2] && 2 in [1, 2];
    ReachableOn(s1, claim);
    s := After(s1, claim);
    l := s.pass.live;
    assert s.rows.Keys == {1, 2} && l.claimed.Keys == {1, 2};
  }

  lemma ParentMade(me: int) returns (s: Sys, l: Live)
    ensures Reachable(s) && s.me == me && Together(s, l) && l.learned == map[1 := Bound("box", "")] && l.walks == map[]
    ensures l.resolved == map[] && s.server.boxes == map["box" := Box("Work", "")] && s.server.ever == {"box"}
    ensures HoldsId(s.rows[1].payload) && s.rows[2].payload == NESTED
  {
    hide Reachable, Inv;
    var s1, l1 := BothClaimed(me);
    assert Matches(s1.server, AskedBox(s1, 1)) == {};
    ReachableOn(s1, Create(1, "box"));
    var s2 := After(s1, Create(1, "box"));
    ReachableOn(s2, Persist(1));
    s := After(s2, Persist(1));
    l := s.pass.live;
    assert s.rows.Keys == {1, 2};
  }

  lemma TwoRowPages(rows: Table)
    requires rows.Keys == {1, 2}
    ensures PageAfter(rows, 0, DEPENDENT_REF_PAGE) == [1, 2] && PageAfter(rows, 2, DEPENDENT_REF_PAGE) == []
  {
    TwoAscending(1, 2);
    IdsAfter(rows, 0, {1, 2});
    IdsAfter(rows, 2, {});
  }

  /** One page of the parent's walk over the two rows. */
  lemma PageOfTwo(s: Sys, l: Live) returns (t: Sys, m: Live)
    requires Reachable(s) && Together(s, l) && HoldsId(s.rows[1].payload)
    requires l.walks == map[] || l.walks == map[1 := Walk(2, 2, false)]
    ensures Reachable(t) && t.me == s.me && Together(t, m) && t.server == s.server && HoldsId(t.rows[1].payload)
    ensures m == l.(walks := map[1 := Walk(2, 2, l.walks != map[])])
  {
    hide Reachable, Inv;
    TwoRowPages(s.rows);
    assert 1 in s.rows.Keys && 1 in l.claimed.Keys;
    ReachableOn(s, Page(1));
    hide PageAfter;
    t := After(s, Page(1));
    m := t.pass.live;
    assert t.rows.Keys == {1, 2};
  }

  lemma ParentWalked(me: int) returns (s: Sys, l: Live)
    ensures Reachable(s) && s.me == me && Together(s, l) && l.learned == map[1 := Bound("box", "")]
    ensures l.walks == map[1 := Walk(2, 2, true)] && l.resolved == map[]
    ensures s.server.boxes == map["box" := Box("Work", "")] && s.server.ever == {"box"}
  {
    hide Reachable, Inv, Together;
    var s1, l1 := ParentMade(me);
    var s2, l2 := PageOfTwo(s1, l1);
    s, l := PageOfTwo(s2, l2);
  }

  lemma ChildMade(me: int) returns (s: Sys, l: Live)
    ensures Reachable(s) && s.me == me && Together(s, l)
        && l.learned == map[1 := Bound("box", ""), 2 := Bound("sub", "box")]
    ensures l.walks == map[1 := Walk(2, 2, true)]
  {
    hide Reachable, Inv;
    var s1, l1 := ParentWalked(me);
    assert 1 in l1.claimed.Keys && 2 in l1.claimed.Keys;
    ReachableOn(s1, Note(1));
    var s2 := After(s1, Note(1));
    assert AskedBox(s2, 2) == Box("Invoices", "box");
    assert Matches(s2.server, AskedBox(s2, 2)) == {};
    ReachableOn(s2, Create(2, "sub"));
    s := After(s2, Create(2, "sub"));
    l := s.pass.live;
  }

  lemma ChildRecorded(me: int) returns (s: Sys, l: Live)
    ensures Reachable(s) && s.me == me && Together(s, l) && l.walks == map[1 := Walk(2, 2, true)]
    ensures s.rows[2].payload == CreateMailbox("Invoices", 0, 1, "", "sub")
  {
    hide Reachable, Inv;
    var s1, l1 := ChildMade(me);
    assert 2 in s1.rows.Keys && 2 in l1.claimed.Keys;
    ReachableOn(s1, Persist(2));
    s := After(s1, Persist(2));
    l := s.pass.live;
    assert s.rows.Keys == {1, 2};
  }

  lemma BothDecided(me: int) returns (s: Sys, l: Live)
    ensures Reachable(s) && s.me == me && s.pass == Running(l) && s.rows.Keys == {1, 2} && l.claimed.Keys == {1, 2}
    ensures s.rows[2].account == me && s.rows[2].serial == 1
        && s.rows[2].payload == CreateMailbox("Invoices", 0, 1, "", "sub")
    ensures l.decided == map[1 := Deliver, 2 := Retry(StoreLocal, "")] && l.claimed[1].serial == 0
    ensures |s.hist.log| == 2 && s.hist.log[0].id == 1 && s.hist.log[1].ref == 0 && s.hist.fate == map[]
  {
    hide Reachable, Inv;
    var s1, l1 := ChildRecorded(me);
    assert 1 in l1.claimed.Keys && 2 in l1.claimed.Keys;
    ReachableOn(s1, Decide(1, Deliver));
    var s2 := After(s1, Decide(1, Deliver));
    ReachableOn(s2, Decide(2, Retry(StoreLocal, "")));
    s := After(s2, Decide(2, Retry(StoreLocal, "")));
    l := s.pass.live;
  }

  lemma ParentSettles(h: Hist, l: Live)
    requires |h.log| == 2 && h.log[0].id == 1 && h.fate == map[] && 1 in l.claimed && l.claimed[1].serial == 0
    requires 1 in l.decided && l.decided[1] == Deliver
    ensures 0 in Settle(h, l).fate && Settle(h, l).fate[0] == Delivered && Settle(h, l).log == h.log
  {
    SettleFacts(h, l);
    assert Settles(h.log, l, 0) && Delivers(h.log, l, 0);
  }

  /** A create that records its id writes back the payload it was claimed with: a reference its parent's
      walk had struck off is there again, naming a create that is delivered and gone. */
  lemma RecordingRestoresAReference(me: int) returns (s: Sys)
    ensures Reachable(s) && |s.hist.log| == 2 && s.hist.log[1].ref == 0 && 0 in s.hist.fate
        && s.hist.fate[0] == Delivered
    ensures 2 in s.rows && s.rows[2].account == s.me && s.rows[2].serial == 1 && s.rows[2].payload.Ref() == 1
    ensures HoldsId(s.rows[2].payload) && 1 !in s.rows
  {
    hide Reachable, Inv, Settle;
    var s1, l := BothDecided(me);
    assert 1 in l.claimed.Keys && 2 in l.claimed.Keys && 2 in s1.rows.Keys;
    assert l.decided.Keys == l.claimed.Keys;
    ReachableOn(s1, Event.Finalize(0));
    s := After(s1, Event.Finalize(0));
    ParentSettles(s1.hist, l);
  }

  // ---------------------------------------------------------------- a captured reference

  const OTHER := CreateMailbox("Other", 0, 0, "", "")
  const STRAY := MoveMessages([7], 0, 2, "", map[7 := 2])
  const NEWS := CreateMailbox("News", 0, 0, "", "")

  /** Two creates came and went. */
  lemma CameAndWent(me: int) returns (s: Sys)
    ensures Reachable(s) && s.me == me && s.pass == Idle && s.rows.Keys == {} && |s.hist.log| == 2
    ensures s.server == MailServer(map[], {}, {}, {}, {}) && s.hist.log[1].id == 2 && s.hist.log[1].payload == OTHER
  {
    hide Reachable, Inv;
    var s1 := FirstCreate(me);
    forall k: int ensures Within(k, s1.rows.Keys) <==> Within(k, {1}) {}
    SameSet(s1.rows.Keys, {1});
    assert NextId({1}) == 2 by { OneAscending(1); }
    ReachableOn(s1, Enqueue(OTHER, 0));
    var s2 := After(s1, Enqueue(OTHER, 0));
    assert 1 in [1, 2] && 2 in [1, 2];
    ReachableOn(s2, UndoIds([1, 2]));
    s := After(s2, UndoIds([1, 2]));
    forall k: int ensures Within(k, s.rows.Keys) <==> Within(k, {}) {
      assert Within(k, s1.rows.Keys) <==> Within(k, {1});
    }
    SameSet(s.rows.Keys, {});
  }

  lemma StrayQueued(me: int) returns (s: Sys)
    ensures Reachable(s) && s.me == me && s.pass == Idle && s.rows.Keys == {1} && |s.hist.log| == 3
    ensures s.server == MailServer(map[], {}, {}, {}, {}) && s.rows[1] == Row(me, STRAY, Queued, 0, 0, None, "", 2)
    ensures s.hist.log[2] == Intent(1, STRAY, -1)
  {
    hide Reachable, Inv;
    var s1 := CameAndWent(me);
    assert 2 !in s1.rows.Keys;
    ReachableOn(s1, Enqueue(STRAY, 0));
    s := After(s1, Enqueue(STRAY, 0));
    assert !Anchors(s1, STRAY) && s.hist.log[2].ref < 0 by { EnqueueAnchors(s1, STRAY, 0); }
    assert s.rows.Keys == {1};
  }

  /** A move is enqueued into a folder whose create has just left the table; the row ids start over, and a
      later create comes to the id it names. */
  lemma CapturedMove(me: int) returns (s: Sys)
    ensures Reachable(s) && s.me == me && s.pass == Idle && s.rows.Keys == {1, 2} && |s.hist.log| == 4
    ensures s.server == MailServer(map[], {}, {}, {}, {}) && s.rows[1] == Row(me, STRAY, Queued, 0, 0, None, "", 2)
    ensures s.rows[2] == Row(me, NEWS, Queued, 0, 0, None, "", 3) && Captured(s, 1)
  {
    hide Reachable, Inv;
    var s1 := StrayQueued(me);
    assert NextId({1}) == 2 by { OneAscending(1); }
    assert 1 in s1.rows.Keys;
    ReachableOn(s1, Enqueue(NEWS, 0));
    s := After(s1, Enqueue(NEWS, 0));
    forall k: int ensures Within(k, s.rows.Keys) <==> Within(k, {1, 2}) {
      assert Within(k, s1.rows.Keys) <==> Within(k, {1});
    }
    SameSet(s.rows.Keys, {1, 2});
  }

  lemma CapturedClaim(me: int) returns (s: Sys, l: Live)
    ensures Reachable(s) && s.me == me && s.pass == Running(l) && l.claimed.Keys == {1, 2} && l.decided == map[]
        && l.learned == map[]
    ensures s.server == MailServer(map[], {}, {}, {}, {}) && l.resolved == map[] && l.again == map[]
    ensures l.claimed[1].payload == STRAY && l.claimed[1].messageIds == map[7 := "m"]
    ensures !l.claimed[1].preFailed && l.claimed[1].dest == "" && l.claimed[1].serial == 2 && l.claimed[1].id == 1
    ensures l.claimed[2].payload == NEWS && l.claimed[2].parent == "" && !l.claimed[2].preFailed
  {
    hide Reachable, Inv;
    var s1 := CapturedMove(me);
    var claim := Event.Claim([1, 2], map[], map[7 := "m"]);
    assert 1 in s1.rows.Keys && 2 in s1.rows.Keys;
    assert 1 in [1, 2] && 2 in [1, 2];
    ReachableOn(s1, claim);
    s := After(s1, claim);
    l := s.pass.live;
    assert l.claimed.Keys == {1, 2};
    assert 7 in [7];
  }

  lemma CapturedBatch(me: int) returns (s: Sys, l: Live)
    ensures Reachable(s) && s.me == me && s.pass == Running(l) && l.claimed.Keys == {1, 2}
    ensures l.decided == map[1 := GiveUp(NotFound, "")] && l.learned == map[2 := Bound("news", "")] && l.again == map[]
    ensures "news" in s.server.boxes && s.server.boxes["news"] == Box("News", "")
    ensures l.claimed[1].payload == STRAY && l.claimed[1].messageIds == map[7 := "m"]
    ensures !l.claimed[1].preFailed && l.claimed[1].dest == "" && l.claimed[1].serial == 2 && l.claimed[1].id == 1
  {
    hide Reachable, Inv;
    var s1, l1 := CapturedClaim(me);
    assert 1 in l1.claimed.Keys && 2 in l1.claimed.Keys;
    ReachableOn(s1, Decide(1, GiveUp(NotFound, "")));
    var s2 := After(s1, Decide(1, GiveUp(NotFound, "")));
    assert AskedBox(s2, 2) == Box("News", "");
    assert Matches(s2.server, AskedBox(s2, 2)) == {};
    ReachableOn(s2, Create(2, "news"));
    s := After(s2, Create(2, "news"));
    l := s.pass.live;
  }

  /** Captured, a move is dispatched twice: it is given up at its own turn, for its reference has no answer
      yet, and then rides in the batch of the create it never named, which files its messages there and
      reports it delivered. */
  lemma CapturedMoveIsFiledThoughGivenUp(me: int) returns (s: Sys)
    ensures Reachable(s) && s.pass.Running? && 1 in s.pass.live.claimed && s.pass.live.claimed[1].payload == STRAY
    ensures 1 in s.pass.live.decided && s.pass.live.decided[1] == GiveUp(NotFound, "")
    ensures 1 in s.pass.live.again && s.pass.live.again[1] == Deliver
    ensures "news" in s.server.boxes && s.server.boxes["news"] == Box("News", "") && ("m", "news") in s.server.filings
  {
    hide Reachable, Inv;
    var s1, l := CapturedBatch(me);
    assert 1 in l.claimed.Keys && 2 in l.claimed.Keys;
    ReachableOn(s1, File(1, "news"));
    var s2 := After(s1, File(1, "news"));
    ReachableOn(s2, Redo(1, Deliver));
    s := After(s2, Redo(1, Deliver));
    assert 7 in [7] && ("m", "news") in FilingsOf(l.claimed[1], "news");
  }
}
