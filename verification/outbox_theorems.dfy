/** What holds in every state the outbox can reach, whatever crashes, failed transactions, sweeps,
    undos and other clients the run contains. */
module OutboxTheorems {
  import opened Common
  import opened Ordered
  import opened OutboxRows
  import opened OutboxMachine
  import opened OutboxInvariant
  import opened OutboxSteps
  import opened OutboxClaims

  lemma {:induction false} RunKeeps(s: Sys, es: seq<Event>, t: Sys)
    requires Inv(s) && Runs(s, es, t)
    ensures Inv(t) && t.me == s.me
    decreases |es|
  {
    if es != [] {
      StepKeeps(s, es[0]);
      RunKeeps(After(s, es[0]), es[1..], t);
    }
  }

  lemma ReachableInv(t: Sys)
    requires Reachable(t)
    ensures Inv(t)
  {
    var s, es :| Initial(s) && Runs(s, es, t);
    RunKeeps(s, es, t);
  }

  lemma {:induction false} RunKeepsReads(s: Sys, es: seq<Event>, t: Sys)
    requires Inv(s) && ReadsOK(s) && Runs(s, es, t)
    ensures ReadsOK(t)
    decreases |es|
  {
    if es != [] {
      StepKeeps(s, es[0]);
      StepKeepsReads(s, es[0]);
      RunKeepsReads(After(s, es[0]), es[1..], t);
    }
  }

  lemma ReachableReads(t: Sys)
    requires Reachable(t)
    ensures ReadsOK(t)
  {
    var s, es :| Initial(s) && Runs(s, es, t);
    RunKeepsReads(s, es, t);
  }

  lemma {:induction false} RunsOn(s: Sys, es: seq<Event>, t: Sys, e: Event)
    requires Runs(s, es, t) && Enabled(t, e)
    ensures Runs(s, es + [e], After(t, e))
    decreases |es|
  {
    if es == [] {
      assert [e][1..] == [];
      assert es + [e] == [e];
      assert Runs(After(s, e), [], After(t, e));
    } else {
      assert (es + [e])[0] == es[0] && (es + [e])[1..] == es[1..] + [e];
      RunsOn(After(s, es[0]), es[1..], t, e);
    }
  }

  lemma ReachableOn(t: Sys, e: Event)
    requires Reachable(t) && Enabled(t, e)
    ensures Reachable(After(t, e))
  {
    var s, es :| Initial(s) && Runs(s, es, t);
    RunsOn(s, es, t, e);
    assert Runs(s, es + [e], After(t, e));
  }

  // ---------------------------------------------------------------- conservation

  /** Intent n sits in the table, under its own row id. */
  predicate InTable(s: Sys, n: int)
    requires 0 <= n < |s.hist.log|
  {
    var id := s.hist.log[n].id;
    id in s.rows && s.rows[id].account == s.me && s.rows[id].serial == n
  }

  /** Every intent ever enqueued is in exactly one of queued, dispatching, annihilated, delivered
      and failed, and no two rows of the account stand for one intent. */
  lemma IntentsAreConserved(s: Sys, n: int)
    requires Reachable(s) && 0 <= n < |s.hist.log|
    ensures InTable(s, n) <==> n !in s.hist.fate
    ensures forall id | id in s.rows && s.rows[id].account == s.me && s.rows[id].serial == n :: id == s.hist.log[n].id
  {
    ReachableInv(s);
  }

  lemma StepKeepsFates(s: Sys, e: Event, n: int)
    requires Inv(s) && Enabled(s, e) && n in s.hist.fate
    ensures n in After(s, e).hist.fate && After(s, e).hist.fate[n] == s.hist.fate[n]
  {
    if e.Finalize? {
      SettleFacts(s.hist, s.pass.live);
      if Settles(s.hist.log, s.pass.live, n) { SettlesClaimed(s, n); }
    }
    if e.UndoIds? {
      assert !CaughtSerial(s, e.ids, n);
    }
  }

  /** A fate is final: what Undo caught is never reported delivered, on any continuation. */
  lemma {:induction false} FatesAreFinal(s: Sys, es: seq<Event>, t: Sys, n: int)
    requires Reachable(s) && Runs(s, es, t) && n in s.hist.fate
    ensures n in t.hist.fate && t.hist.fate[n] == s.hist.fate[n]
    decreases |es|
  {
    if es != [] {
      ReachableInv(s);
      StepKeepsFates(s, es[0], n);
      ReachableOn(s, es[0]);
      FatesAreFinal(After(s, es[0]), es[1..], t, n);
    }
  }

  predicate NoStrand(es: seq<Event>) { forall i | 0 <= i < |es| :: !es[i].Strand? }

  lemma {:induction false} NothingStranded(s: Sys, es: seq<Event>, t: Sys)
    requires Runs(s, es, t) && s.stranded == {} && NoStrand(es)
    ensures t.stranded == {}
    decreases |es|
  {
    if es != [] {
      assert NoStrand(es[1..]) by { forall i | 0 <= i < |es[1..]|
        ensures !es[1..][i].Strand? { assert es[1..][i] == es[i + 1]; } }
      NothingStranded(After(s, es[0]), es[1..], t);
    }
  }

  /** Between passes no row of the account is in dispatching, unless some finalize failed together
      with its recovery since the last startup; and a startup leaves no row in dispatching. */
  lemma DispatchingIsEmptyBetweenPasses(s: Sys, es: seq<Event>, t: Sys)
    requires Reachable(s) && s.stranded == {} && Runs(s, es, t) && NoStrand(es) && t.pass == Idle
    ensures forall id | id in t.rows && t.rows[id].account == t.me :: t.rows[id].state == Queued
  {
    ReachableInv(s);
    RunKeeps(s, es, t);
    NothingStranded(s, es, t);
  }

  lemma StartupSweepsEverything(s: Sys)
    requires Reachable(s) && s.pass == Down
    ensures var t := After(s, Startup); Reachable(t) && t.stranded == {} && t.rows.Keys == s.rows.Keys
                                        && forall id | id in t.rows :: t.rows[id].state == Queued
  {
    ReachableOn(s, Startup);
  }

  // ---------------------------------------------------------------- creates

  /** x is the one mailbox on the server that is box. */
  predicate TheOne(v: MailServer, x: string, box: Box) { Matches(v, box) == {x} }

  lemma StandsIsTheOne(v: MailServer, x: string, box: Box)
    requires UniqueSiblings(v.boxes) && Stands(v, x, box) && x !in v.touched
    ensures TheOne(v, x, box)
  {
    assert forall y :: y in Matches(v, box) ==> y == x;
  }

  /** A create that holds a resolved id, in the table or delivered out of it, names a mailbox that
      is the only one of its name under the parent its call used, until somebody renames, moves
      or deletes that mailbox; and a root create's parent was the root. */
  lemma CreatesNameOneMailbox(s: Sys, n: int)
    requires Reachable(s) && 0 <= n < |s.hist.log| && s.hist.log[n].payload.CreateMailbox?
    requires (InTable(s, n) && HoldsId(s.rows[s.hist.log[n].id].payload))
             || (n in s.hist.fate && s.hist.fate[n] == Delivered)
    ensures n in s.hist.bound && s.hist.bound[n].id != ""
    ensures InTable(s, n) && HoldsId(s.rows[s.hist.log[n].id].payload) ==>
              s.rows[s.hist.log[n].id].payload.resolved == s.hist.bound[n].id
    ensures s.hist.bound[n].id !in s.server.touched ==>
              TheOne(s.server, s.hist.bound[n].id, Box(s.hist.log[n].payload.name, s.hist.bound[n].parent))
    ensures AtRoot(s.hist.log[n].payload) ==> s.hist.bound[n].parent == ""
  {
    ReachableInv(s);
    if InTable(s, n) {
      assert Follows(s.server, s.hist.log, s.hist.bound, n, s.rows[s.hist.log[n].id].payload);
    }
    if n in s.hist.fate && s.hist.fate[n] == Delivered {
      assert CreateSettled(s.me, s.rows, s.hist, n);
    }
    if s.hist.bound[n].id !in s.server.touched {
      StandsIsTheOne(s.server, s.hist.bound[n].id, Box(s.hist.log[n].payload.name, s.hist.bound[n].parent));
    }
  }

  /** Two root creates of one name converge: however often either was replayed, both end on the
      same mailbox. */
  lemma RootCreatesConverge(s: Sys, m: int, n: int)
    requires Reachable(s) && 0 <= m < |s.hist.log| && 0 <= n < |s.hist.log|
    requires AtRoot(s.hist.log[m].payload) && AtRoot(s.hist.log[n].payload)
    requires s.hist.log[m].payload.name == s.hist.log[n].payload.name
    requires m in s.hist.fate && s.hist.fate[m] == Delivered && n in s.hist.fate && s.hist.fate[n] == Delivered
    ensures m in s.hist.bound && n in s.hist.bound
    ensures s.hist.bound[m].id !in s.server.touched && s.hist.bound[n].id !in s.server.touched ==>
              s.hist.bound[m].id == s.hist.bound[n].id
  {
    CreatesNameOneMailbox(s, m);
    CreatesNameOneMailbox(s, n);
    if s.hist.bound[m].id !in s.server.touched && s.hist.bound[n].id !in s.server.touched {
      assert s.hist.bound[m].id in Matches(s.server, Box(s.hist.log[n].payload.name, ""));
    }
  }

  /** Once a create is delivered, no row enqueued before its reference walk began still waits for
      it: the only rows left naming it are creates that already hold a mailbox of their own. */
  lemma NobodyWaitsForADeliveredCreate(s: Sys, n: int, id: int)
    requires Reachable(s) && 0 <= n < |s.hist.log| && s.hist.log[n].payload.CreateMailbox?
    requires n in s.hist.fate && s.hist.fate[n] == Delivered
    requires id in s.rows && s.rows[id].account == s.me
    ensures n in s.hist.since && 0 <= s.rows[id].serial < |s.hist.log|
    ensures (s.rows[id].serial < s.hist.since[n] && s.hist.log[s.rows[id].serial].ref == n
        && s.rows[id].payload.Ref() != 0)
              ==> HoldsId(s.rows[id].payload)
  {
    ReachableInv(s);
    assert CreateSettled(s.me, s.rows, s.hist, n);
  }

  /** Row id's reference is to a create other than the one it named when it was enqueued. */
  predicate Captured(s: Sys, id: int)
    requires id in s.rows && 0 <= s.rows[id].serial < |s.hist.log|
  {
    var k := s.rows[id].payload.Ref();
    k != 0 && k != id && IsCreate(s.me, s.rows, k) && s.rows[k].serial != s.hist.log[s.rows[id].serial].ref
  }

  /** Row ids are reused, and still a reference that named a queued create when it was enqueued is
      never captured: any row that has the id is that create. A reference is captured exactly when
      it named none then and a create was born above the row that holds it. */
  lemma ReferencesAreCapturedIff(s: Sys, id: int)
    requires Reachable(s) && id in s.rows && s.rows[id].account == s.me
    requires s.rows[id].payload.Ref() != 0 && s.rows[id].payload.Ref() in s.rows
    ensures 0 <= s.rows[id].serial < |s.hist.log|
    ensures var k := s.rows[id].payload.Ref();
            var ref := s.hist.log[s.rows[id].serial].ref;
            && (ref >= 0 ==> s.rows[k].serial == ref)
            && (ref >= 0 <==> k < id && IsCreate(s.me, s.rows, k))
            && (Captured(s, id) <==> ref < 0 && k > id && IsCreate(s.me, s.rows, k))
  {
    ReachableInv(s);
    var i := s.hist.log[s.rows[id].serial];
    var k := s.rows[id].payload.Ref();
    assert Follows(s.server, s.hist.log, s.hist.bound, s.rows[id].serial, s.rows[id].payload);
    assert RefOK(s.me, s.rows, id, i.payload.Ref(), i.ref);
    if i.ref >= 0 { assert Follows(s.server, s.hist.log, s.hist.bound, s.rows[k].serial, s.rows[k].payload); }
  }

  /** What the log keeps of an enqueue: whether its reference named a queued create. */
  lemma EnqueueAnchors(s: Sys, p: Payload, at: int)
    requires Reachable(s) && Enabled(s, Enqueue(p, at))
    ensures var i := After(s, Enqueue(p, at)).hist.log[|s.hist.log|];
            i.payload == p && (p.Ref() != 0 ==> (i.ref >= 0 <==> Anchors(s, p)))
  {
    ReachableInv(s);
  }

  // ---------------------------------------------------------------- moves

  /** A delivered move filed every one of its messages, under the server id its row had, into one mailbox.
      Enqueued into a mailbox of the store, it is the one whose row the move names; and enqueued into a
      folder whose create was queued, that mailbox carries the folder's name, and is the very mailbox a
      root create of it was bound to. */
  lemma DeliveredMovesFiledWhereTheyShould(s: Sys, n: int)
    requires Reachable(s) && 0 <= n < |s.hist.log| && s.hist.log[n].payload.MoveMessages?
    requires n in s.hist.fate && s.hist.fate[n] == Delivered
    ensures n in s.hist.sent && s.hist.sent[n].dest != ""
    ensures forall m | m in s.hist.log[n].payload.messages ::
              var ids := s.hist.sent[n].read.messages;
              m in ids && ids[m] != "" && (ids[m], s.hist.sent[n].dest) in s.server.filings
    ensures s.hist.log[n].payload.destMailbox != 0 ==>
              && s.hist.log[n].payload.destMailbox in s.hist.sent[n].read.mailboxes
              && s.hist.sent[n].dest == s.hist.sent[n].read.mailboxes[s.hist.log[n].payload.destMailbox]
    ensures var a := s.hist.log[n].ref;
            a >= 0 ==>
              && a < n && s.hist.log[a].payload.CreateMailbox?
              && (s.hist.sent[n].dest !in s.server.touched ==>
                    && s.hist.sent[n].dest in s.server.boxes
                    && s.server.boxes[s.hist.sent[n].dest].name == s.hist.log[a].payload.name)
              && (AtRoot(s.hist.log[a].payload) && a in s.hist.bound
                  && s.hist.sent[n].dest !in s.server.touched && s.hist.bound[a].id !in s.server.touched ==>
                    s.hist.sent[n].dest == s.hist.bound[a].id)
  {
    ReachableInv(s);
    ReachableReads(s);
    assert MoveSettled(s.server, s.hist, n) && SentAsRead(s.hist.log[n].payload, s.hist.sent[n]);
    var a := s.hist.log[n].ref;
    var d := s.hist.sent[n].dest;
    if a >= 0 {
      assert Answers(s.server, s.hist.log, a, d);
      if AtRoot(s.hist.log[a].payload) && a in s.hist.bound && d !in s.server.touched
          && s.hist.bound[a].id !in s.server.touched {
        assert s.server.boxes[d] == s.server.boxes[s.hist.bound[a].id];
      }
    }
  }

  /** A delivered rename gave the mailbox whose row it names that name, and a delivered delete left no
      mailbox of the id its row had, then or ever since. */
  lemma DeliveredChangesWereMade(s: Sys, n: int)
    requires Reachable(s) && 0 <= n < |s.hist.log| && IsChange(s.hist.log[n].payload)
    requires n in s.hist.fate && s.hist.fate[n] == Delivered
    ensures n in s.hist.sent
    ensures var x := s.hist.sent[n].dest;
            var ids := s.hist.sent[n].read.mailboxes;
            match s.hist.log[n].payload
            case RenameMailbox(mailbox, newName) =>
              mailbox in ids && x == ids[mailbox] != "" && (x, newName) in s.server.renames && x in s.server.touched
            case DeleteMailbox(mailbox) => mailbox in ids && x == ids[mailbox] != "" && x !in s.server.boxes
            case _ => true
  {
    ReachableInv(s);
    ReachableReads(s);
    assert ChangeSettled(s.server, s.hist, n) && SentAsRead(s.hist.log[n].payload, s.hist.sent[n]);
  }

  // ---------------------------------------------------------------- a nested create

  /** The claim or this pass has the id of the mailbox create c names as its parent. */
  predicate KnowsParent(l: Live, c: Claimed)
    requires c.payload.CreateMailbox?
  {
    c.payload.parentServer != "" || c.payload.parentRef in l.resolved
  }

  /** Where a create nested in another lands: under a mailbox its parent create asked for exactly when
      the claim or this pass has the parent's id, and at the root otherwise. */
  lemma NestedCreateLandsUnderItsParentIff(s: Sys, id: int)
    requires Reachable(s) && OpenCreate(s, id) && s.pass.live.claimed[id].payload.parentMailbox == 0
    ensures 0 <= s.pass.live.claimed[id].serial < |s.hist.log|
    ensures var c := s.pass.live.claimed[id];
            && (s.hist.log[c.serial].ref >= 0 ==>
                  (KnowsParent(s.pass.live, c)
                   <==> Answers(s.server, s.hist.log, s.hist.log[c.serial].ref, AskedBox(s, id).parent)))
            && (s.hist.log[c.serial].payload.Ref() != 0 ==>
                  (!KnowsParent(s.pass.live, c) <==> AskedBox(s, id).parent == ""))
  {
    ReachableInv(s);
    var l := s.pass.live;
    var c := l.claimed[id];
    assert ClaimedOK(s.me, s.rows, s.server, s.hist, id, c);
    var k := c.payload.parentRef;
    if c.payload.parentServer == "" && k in l.resolved {
      assert ClaimedOK(s.me, s.rows, s.server, s.hist, k, l.claimed[k]);
      assert RefOK(s.me, s.rows, id, s.hist.log[c.serial].payload.Ref(), s.hist.log[c.serial].ref);
    }
  }

  /** Filing a move puts each of its messages, under the server id its row had when the pass claimed it, into
      the one mailbox, and changes nothing else on the server and no row. */
  lemma FilingIsExact(s: Sys, id: int, dest: string)
    requires Reachable(s) && Enabled(s, File(id, dest))
    ensures var t := After(s, File(id, dest)); var p := s.pass.live.claimed[id].payload;
            && t == s.(server := t.server, pass := t.pass) && t.server == s.server.(filings := t.server.filings)
            && (forall x, y :: (x, y) in t.server.filings <==>
                  (x, y) in s.server.filings
                  || (y == dest && exists m | m in p.messages :: m in s.pass.live.read.messages
                                                                && x == s.pass.live.read.messages[m]))
  {
    ReachableInv(s);
    ReachableReads(s);
    var c, read := s.pass.live.claimed[id], s.pass.live.read;
    assert Reads(c, read);
    var t := After(s, File(id, dest));
    forall x, y
      ensures (x, y) in t.server.filings <==>
                (x, y) in s.server.filings
                || (y == dest && exists m | m in c.payload.messages :: m in read.messages && x == read.messages[m])
    {
      if (x, y) in FilingsOf(c, dest) {
        var m :| m in c.payload.messages && m in c.messageIds && (x, y) == (c.messageIds[m], dest);
        assert m in c.payload.messages && m in read.messages && x == read.messages[m];
      }
      if m :| y == dest && m in c.payload.messages && m in read.messages && x == read.messages[m] {
        assert (c.messageIds[m], dest) in FilingsOf(c, dest);
      }
    }
  }

  /** A create under a mailbox of the store asks for its name under exactly the server id that mailbox's
      row had when the pass claimed it. */
  lemma CreateLandsUnderItsStoredParent(s: Sys, id: int)
    requires Reachable(s) && CallsCreate(s, id)
    requires var p := s.pass.live.claimed[id].payload; p.parentMailbox != 0 && p.parentServer == ""
    ensures var c := s.pass.live.claimed[id];
            && c.payload.parentMailbox in s.pass.live.read.mailboxes
            && AskedBox(s, id) == Box(c.payload.name, s.pass.live.read.mailboxes[c.payload.parentMailbox])
            && AskedBox(s, id).parent != ""
  {
    ReachableReads(s);
    assert Reads(s.pass.live.claimed[id], s.pass.live.read);
  }

  const WORK := CreateMailbox("Work", 0, 0, "", "")

  lemma FirstCreate(me: int) returns (s: Sys)
    ensures Reachable(s) && s.me == me && s.pass == Idle && s.server == MailServer(map[], {}, {}, {}, {})
    ensures s.rows == map[1 := Row(me, WORK, Queued, 0, 0, None, "", 0)] && |s.hist.log| == 1
    ensures s.hist.log[0].id == 1 && s.hist.fate == map[]
  {
    var s0 := Sys(me, map[], MailServer(map[], {}, {}, {}, {}), Idle, {}, Hist([], map[], map[], map[], map[]), map[]);
    assert Initial(s0) && Runs(s0, [], s0);
    s := After(s0, Enqueue(WORK, 0));
    ReachableOn(s0, Enqueue(WORK, 0));
    assert NextId({}) == 1;
    assert s0.rows.Keys == {};
  }

  const NESTED := CreateMailbox("Invoices", 0, 1, "", "")

  /** A create and a create nested in it, queued. */
  lemma QueuedTogether(me: int) returns (s: Sys, b: int)
    ensures Reachable(s) && s.me == me && s.pass == Idle && s.server == MailServer(map[], {}, {}, {}, {}) && b != 1
    ensures s.rows.Keys == {1, b} && s.rows[1] == Row(me, WORK, Queued, 0, 0, None, "", 0)
    ensures s.rows[b] == Row(me, NESTED, Queued, 0, 0, None, "", 1)
  {
    hide Reachable, Inv;
    var s1 := FirstCreate(me);
    b := NextId(s1.rows.Keys);
    assert 1 in s1.rows.Keys;
    s := After(s1, Enqueue(NESTED, 0));
    ReachableOn(s1, Enqueue(NESTED, 0));
    assert s.rows.Keys == {1, b};
  }

  /** The two claimed by one pass. */
  lemma ClaimedTogether(me: int) returns (s: Sys, b: int)
    ensures Reachable(s) && s.pass.Running? && s.server == MailServer(map[], {}, {}, {}, {})
    ensures b != 1 && s.rows.Keys == {1, b} && s.rows[b].payload == NESTED
    ensures Open(s, 1) && CallsCreate(s, b) && s.pass.live.resolved == map[]
    ensures s.pass.live.claimed[b].payload == s.rows[b].payload && s.pass.live.claimed[b].parent == ""
  {
    hide Reachable, Inv;
    var s2, b2 := QueuedTogether(me);
    b := b2;
    var e := Claim([1, b], map[], map[]);
    assert 1 in s2.rows.Keys && b in s2.rows.Keys;
    ReachableOn(s2, e);
    s := After(s2, e);
    assert s.rows.Keys == s2.rows.Keys;
  }

  /** The failing case is real: a parent create throttled earlier in the pass leaves its nested
      create to be made at the root. */
  lemma NestedCreateAtRoot(me: int) returns (s: Sys, b: int)
    ensures Reachable(s) && b in s.rows && s.rows[b].payload == NESTED
    ensures 1 in s.rows && s.pass.Running? && b in s.pass.live.learned && s.pass.live.learned[b].id == "sub"
    ensures "sub" in s.server.boxes && s.server.boxes["sub"] == Box("Invoices", "")
  {
    var s3, b3 := ClaimedTogether(me);
    b := b3;
    var throttle := Decide(1, Retry(Throttled, ""));
    ReachableOn(s3, throttle);
    var s4 := After(s3, throttle);
    assert CallsCreate(s4, b) && AskedBox(s4, b) == Box("Invoices", "");
    assert Matches(s4.server, AskedBox(s4, b)) == {};
    ReachableOn(s4, Create(b, "sub"));
    s := After(s4, Create(b, "sub"));
  }

  // ---------------------------------------------------------------- row ids are reused

  /** A row id kept past its intent's end may name another intent: the table reuses ids. */
  lemma RowIdsAreReused(me: int) returns (s: Sys)
    ensures Reachable(s) && |s.hist.log| == 2 && s.hist.log[0].id == s.hist.log[1].id
    ensures 0 in s.hist.fate && s.hist.fate[0] == Annihilated && InTable(s, 1)
  {
    hide Reachable, Inv;
    var s1 := FirstCreate(me);
    var s2 := After(s1, UndoIds([1]));
    ReachableOn(s1, UndoIds([1]));
    assert CaughtSerial(s1, [1], 0);
    assert s2.rows.Keys == {};
    s := After(s2, Enqueue(WORK, 0));
    ReachableOn(s2, Enqueue(WORK, 0));
    assert NextId(s2.rows.Keys) == 1;
    assert InTable(s, 1);
  }

  /** An Undo of row id `id` deletes a row that does not stand for intent n. */
  predicate UndoHitsAnother(s: Sys, id: int, n: int) {
    id in s.rows && id !in After(s, UndoIds([id])).rows && !CaughtSerial(s, [id], n)
  }

  /** What an Undo of one kept row id does: it catches the intent it was kept for exactly when that
      intent has no fate yet and is queued, and deletes a row of something else, this account's or
      another's, exactly when the intent is over and a queued row has its id by now. */
  lemma UndoOfAKeptId(s: Sys, n: int)
    requires Reachable(s) && 0 <= n < |s.hist.log|
    ensures var id := s.hist.log[n].id;
            && (CaughtSerial(s, [id], n) <==> n !in s.hist.fate && id in s.rows && s.rows[id].state == Queued)
            && (UndoHitsAnother(s, id, n) <==> n in s.hist.fate && id in s.rows && s.rows[id].state == Queued)
  {
    ReachableInv(s);
    var id := s.hist.log[n].id;
    assert id in s.rows && s.rows[id].state == Queued ==> id in Caught(s.rows, [id]);
  }

  /** The failing case is real across accounts: the kept id has come to a queued row of another
      account, which the Undo deletes. */
  lemma UndoReachesAnotherAccount(me: int) returns (s: Sys)
    ensures Reachable(s) && s.me == me && |s.hist.log| == 1 && s.hist.log[0].id == 1
    ensures 0 in s.hist.fate && s.hist.fate[0] == Annihilated
    ensures 1 in s.rows && s.rows[1].account == me + 1 && 1 !in After(s, UndoIds([1])).rows
    ensures UndoHitsAnother(s, 1, 0)
  {
    hide Reachable, Inv;
    var s1 := FirstCreate(me);
    var s2 := After(s1, UndoIds([1]));
    ReachableOn(s1, UndoIds([1]));
    assert CaughtSerial(s1, [1], 0);
    assert s2.rows.Keys == {};
    var theirs := map[1 := Row(me + 1, WORK, Queued, 0, 0, None, "", 0)];
    assert NextId(s2.rows.Keys) == 1;
    s := After(s2, Others(theirs));
    ReachableOn(s2, Others(theirs));
    UndoOfAKeptId(s, 0);
  }
}
