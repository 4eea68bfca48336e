/** Each event of the outbox machine keeps the invariant. */
module OutboxSteps {
  import opened Ordered
  import opened OutboxRows
  import opened OutboxMachine
  import opened OutboxInvariant

  // ---------------------------------------------------------------- a new intent

  lemma LogGrows(v: MailServer, log: seq<Intent>, i: Intent, bound: map<int, Bound>, n: int, p: Payload)
    requires 0 <= n < |log| && LogOK(log) && Follows(v, log, bound, n, p)
    ensures Follows(v, log + [i], bound, n, p)
  {
    assert (log + [i])[n] == log[n];
    var r := log[n].ref;
    if r >= 0 { assert (log + [i])[r] == log[r]; }
  }

  lemma EnqueueLog(s: Sys, p: Payload, at: int)
    requires Inv(s) && Enabled(s, Enqueue(p, at))
    ensures LogOK(After(s, Enqueue(p, at)).hist.log)
  {
    var log := s.hist.log;
    var log2 := After(s, Enqueue(p, at)).hist.log;
    forall n | 0 <= n < |log| ensures log2[n] == log[n] {}
    if Anchors(s, p) && p.Ref() != 0 {
      var k := p.Ref();
      assert Follows(s.server, log, s.hist.bound, s.rows[k].serial, s.rows[k].payload);
      assert log2[|log|].ref == s.rows[k].serial;
      assert k in s.rows.Keys;
    }
  }

  lemma GrownPlaces(me: int, rows: Table, id: int, r: Row, log: seq<Intent>, i: Intent, fate: map<int, Fate>)
    requires Placed(me, rows, log, fate) && id !in rows && id >= 1 && i.id == id && r.account == me && r.serial == |log|
    ensures Placed(me, rows[id := r], log + [i], fate)
  {
    assert forall n :: 0 <= n < |log| ==> (log + [i])[n] == log[n];
  }

  /** A new row gets an id above every other's, so no reference that was good comes to name it. */
  lemma GrownRefs(me: int, rows: Table, id: int, r: Row, log: seq<Intent>, i: Intent, fate: map<int, Fate>)
    requires LogOK(log) && Placed(me, rows, log, fate) && RefsOK(me, rows, log)
    requires r.account == me && r.serial == |log| && forall x | x in rows :: x < id
    requires i.ref == if i.payload.Ref() != 0
        && IsCreate(me, rows, i.payload.Ref()) then rows[i.payload.Ref()].serial else -1
    requires Placed(me, rows[id := r], log + [i], fate)
    ensures RefsOK(me, rows[id := r], log + [i])
  {
    var rows2 := rows[id := r];
    forall x | x in rows2 && rows2[x].account == me
      ensures RefOK(me, rows2, x, (log + [i])[rows2[x].serial].payload.Ref(), (log + [i])[rows2[x].serial].ref)
    {
      if x != id {
        var j := log[rows[x].serial];
        assert (log + [i])[rows2[x].serial] == j;
        assert RefOK(me, rows, x, j.payload.Ref(), j.ref);
        assert j.ref >= 0 ==> j.payload.Ref() < j.id == x;
      }
    }
  }

  lemma EnqueueRows(s: Sys, p: Payload, at: int)
    requires Inv(s) && Enabled(s, Enqueue(p, at))
    ensures var t := After(s, Enqueue(p, at));
            Placed(t.me, t.rows, t.hist.log, t.hist.fate) && RefsOK(t.me, t.rows, t.hist.log)
  {
    hide LiveOK, SettledOK, BoundOK, RowsFollow, HeldOK, RefsOK, LogOK;
    var t := After(s, Enqueue(p, at));
    var id := NextId(s.rows.Keys);
    assert forall x :: x in s.rows ==> x in s.rows.Keys && x < id;
    assert forall x :: x in s.rows.Keys ==> x >= 1;
    GrownPlaces(s.me, s.rows, id, t.rows[id], s.hist.log, t.hist.log[|s.hist.log|], s.hist.fate);
    GrownRefs(s.me, s.rows, id, t.rows[id], s.hist.log, t.hist.log[|s.hist.log|], s.hist.fate);
  }

  lemma EnqueueFollows(s: Sys, p: Payload, at: int)
    requires Inv(s) && Enabled(s, Enqueue(p, at))
    requires var t := After(s, Enqueue(p, at)); Placed(t.me, t.rows, t.hist.log, t.hist.fate)
    ensures var t := After(s, Enqueue(p, at));
            RowsFollow(t.me, t.rows, t.server, t.hist) && BoundOK(t.server, t.hist.log, t.hist.bound)
  {
    var t := After(s, Enqueue(p, at));
    var i := t.hist.log[|s.hist.log|];
    assert t.hist.log == s.hist.log + [i];
    forall x | x in t.rows && t.rows[x].account == t.me
      ensures Follows(t.server, t.hist.log, t.hist.bound, t.rows[x].serial, t.rows[x].payload)
    {
      if x in s.rows && t.rows[x] == s.rows[x] {
        LogGrows(s.server, s.hist.log, i, s.hist.bound, s.rows[x].serial, s.rows[x].payload);
      }
    }
    forall n | n in t.hist.bound ensures t.hist.log[n] == s.hist.log[n] {}
  }

  lemma EnqueueSettled(s: Sys, p: Payload, at: int)
    requires Inv(s) && Enabled(s, Enqueue(p, at))
    requires var t := After(s, Enqueue(p, at)); Placed(t.me, t.rows, t.hist.log, t.hist.fate)
    ensures var t := After(s, Enqueue(p, at)); SettledOK(t.me, t.rows, t.server, t.hist)
  {
    var t := After(s, Enqueue(p, at));
    forall n | 0 <= n < |s.hist.log| ensures t.hist.log[n] == s.hist.log[n] {}
    forall n | n in t.hist.fate && 0 <= n < |t.hist.log| && t.hist.fate[n] == Delivered
      ensures t.hist.log[n].payload.CreateMailbox? ==> CreateSettled(t.me, t.rows, t.hist, n)
      ensures t.hist.log[n].payload.MoveMessages? ==> MoveSettled(t.server, t.hist, n)
      ensures IsChange(t.hist.log[n].payload) ==> ChangeSettled(t.server, t.hist, n)
    {
      assert n in s.hist.fate && n < |s.hist.log|;
      if t.hist.log[n].payload.CreateMailbox? { assert CreateSettled(s.me, s.rows, s.hist, n); }
      if t.hist.log[n].payload.MoveMessages? {
        assert MoveSettled(s.server, s.hist, n);
        if t.hist.log[n].ref >= 0 { assert t.hist.log[t.hist.log[n].ref] == s.hist.log[s.hist.log[n].ref]; }
      }
    }
  }

  lemma GrownClaim(me: int, rows: Table, rows2: Table, v: MailServer, h: Hist, h2: Hist, i: Intent, id: int, c: Claimed)
    requires ClaimedOK(me, rows, v, h, id, c) && LogOK(h.log) && h2.log == h.log + [i] && h2.bound == h.bound
    requires id in rows2 && rows2[id] == rows[id]
    ensures ClaimedOK(me, rows2, v, h2, id, c)
  {
    LogGrows(v, h.log, i, h.bound, c.serial, c.payload);
    assert h2.log[c.serial] == h.log[c.serial];
  }

  lemma GrownWalk(me: int, rows: Table, id2: int, r: Row, h: Hist, h2: Hist, id: int, w: Walk)
    requires WalkOK(me, rows, h, id, w) && |h.log| <= |h2.log| && id2 !in rows && r.serial >= |h.log|
    ensures WalkOK(me, rows[id2 := r], h2, id, w)
  {
  }

  lemma GrownFiled(v: MailServer, h: Hist, h2: Hist, i: Intent, c: Claimed, dest: string)
    requires FiledOK(v, h, c, dest) && LogOK(h.log) && h2.log == h.log + [i]
    ensures FiledOK(v, h2, c, dest)
  {
    var n := c.serial;
    assert h2.log[n] == h.log[n];
    if h.log[n].ref >= 0 { assert h2.log[h.log[n].ref] == h.log[h.log[n].ref]; }
  }

  lemma GrownAnswers(v: MailServer, log: seq<Intent>, i: Intent, a: int, x: string)
    requires Answers(v, log, a, x)
    ensures Answers(v, log + [i], a, x)
  {
    assert (log + [i])[a] == log[a];
  }

  lemma EnqueueLive(s: Sys, p: Payload, at: int)
    requires Inv(s) && Enabled(s, Enqueue(p, at)) && s.pass.Running?
    ensures var t := After(s, Enqueue(p, at)); LiveOK(t.me, t.rows, t.server, t.hist, t.pass.live)
  {
    var t := After(s, Enqueue(p, at));
    var i := t.hist.log[|s.hist.log|];
    var id2 := NextId(s.rows.Keys);
    assert id2 !in s.rows.Keys;
    GrowLive(s.me, s.rows, s.server, s.hist, t.hist, i, id2, t.rows[id2], s.pass.live);
  }

  lemma GrowLive(me: int, rows: Table, v: MailServer, h: Hist, h2: Hist, i: Intent, id2: int, r: Row, l: Live)
    requires LiveOK(me, rows, v, h, l) && LogOK(h.log) && h2.log == h.log + [i] && h2.bound == h.bound
    requires id2 !in rows && r.serial == |h.log|
    ensures LiveOK(me, rows[id2 := r], v, h2, l)
  {
    var rows2 := rows[id2 := r];
    forall id | id in l.claimed ensures ClaimedOK(me, rows2, v, h2, id, l.claimed[id]) {
      GrownClaim(me, rows, rows2, v, h, h2, i, id, l.claimed[id]);
    }
    forall id | id in l.walks ensures WalkOK(me, rows2, h2, id, l.walks[id]) {
      GrownWalk(me, rows, id2, r, h, h2, id, l.walks[id]);
    }
    forall id | id in l.filed ensures FiledOK(v, h2, l.claimed[id], l.filed[id]) {
      GrownFiled(v, h, h2, i, l.claimed[id], l.filed[id]);
    }
    forall id | id in l.learned ensures LearnedOK(v, h2, l.claimed[id], l.learned[id]) {
      assert LearnedOK(v, h, l.claimed[id], l.learned[id]);
      assert h2.log[l.claimed[id].serial] == h.log[l.claimed[id].serial];
    }
    forall id | id in l.resolved ensures Answers(v, h2.log, l.claimed[id].serial, l.resolved[id]) {
      GrownAnswers(v, h.log, i, l.claimed[id].serial, l.resolved[id]);
    }
  }

  lemma EnqueueKeeps(s: Sys, p: Payload, at: int)
    requires Inv(s) && Enabled(s, Enqueue(p, at))
    ensures Inv(After(s, Enqueue(p, at)))
  {
    EnqueueLog(s, p, at);
    EnqueueRows(s, p, at);
    EnqueueFollows(s, p, at);
    EnqueueSettled(s, p, at);
    assert NextId(s.rows.Keys) !in s.rows.Keys;
    if s.pass.Running? { EnqueueLive(s, p, at); }
  }

  // ---------------------------------------------------------------- rows go away or change state

  /** Rows may have gone and states changed: payloads, owners and births are as they were. */
  predicate Thins(rows: Table, rows2: Table) {
    forall id | id in rows2 :: id in rows && rows2[id].account == rows[id].account
                 && rows2[id].serial == rows[id].serial && rows2[id].payload == rows[id].payload
  }

  lemma ThinnedRows(me: int, rows: Table, rows2: Table, v: MailServer, h: Hist)
    requires Core(me, rows, v, h) && Thins(rows, rows2)
    ensures RefsOK(me, rows2, h.log) && RowsFollow(me, rows2, v, h)
  {
    forall x | x in rows2 && rows2[x].account == me
      ensures RefOK(me, rows2, x, h.log[rows2[x].serial].payload.Ref(), h.log[rows2[x].serial].ref)
    {
      assert RefOK(me, rows, x, h.log[rows[x].serial].payload.Ref(), h.log[rows[x].serial].ref);
    }
  }

  /** The deliveries settled before stay settled. */
  lemma ThinnedSettled(me: int, rows: Table, rows2: Table, v: MailServer, h: Hist, n: int)
    requires Thins(rows, rows2) && 0 <= n < |h.log| && h.log[n].payload.CreateMailbox? && CreateSettled(me, rows, h, n)
    ensures CreateSettled(me, rows2, h, n)
  {
  }

  lemma ThinnedWalk(me: int, rows: Table, rows2: Table, h: Hist, id: int, w: Walk)
    requires WalkOK(me, rows, h, id, w) && Thins(rows, rows2) && id in rows2
    ensures WalkOK(me, rows2, h, id, w)
  {
  }

  lemma ThinnedLive(me: int, rows: Table, rows2: Table, v: MailServer, h: Hist, l: Live)
    requires LiveOK(me, rows, v, h, l) && Thins(rows, rows2)
    requires forall id | id in l.claimed :: id in rows2 && rows2[id].state == Dispatching
    ensures LiveOK(me, rows2, v, h, l)
  {
    forall id | id in l.claimed ensures ClaimedOK(me, rows2, v, h, id, l.claimed[id]) {
      assert ClaimedOK(me, rows, v, h, id, l.claimed[id]);
    }
    forall id | id in l.walks ensures WalkOK(me, rows2, h, id, l.walks[id]) {
      assert id in l.claimed;
      ThinnedWalk(me, rows, rows2, h, id, l.walks[id]);
    }
  }

  /** Core over rows that only thinned and changed state, with no fate moved. */
  lemma ThinnedCore(me: int, rows: Table, rows2: Table, v: MailServer, h: Hist)
    requires Core(me, rows, v, h) && Thins(rows, rows2) && rows.Keys <= rows2.Keys
    ensures Core(me, rows2, v, h)
  {
    assert forall id :: id in rows ==> id in rows2.Keys;
    ThinnedRows(me, rows, rows2, v, h);
    forall n | n in h.fate && 0 <= n < |h.log| && h.fate[n] == Delivered
      ensures h.log[n].payload.CreateMailbox? ==> CreateSettled(me, rows2, h, n)
    {
      if h.log[n].payload.CreateMailbox? { ThinnedSettled(me, rows, rows2, v, h, n); }
    }
  }

  lemma UndoPlaces(s: Sys, ids: seq<int>)
    requires Inv(s)
    ensures var t := After(s, UndoIds(ids)); Placed(t.me, t.rows, t.hist.log, t.hist.fate)
  {
    var t := After(s, UndoIds(ids));
    forall id | id in t.rows && t.rows[id].account == t.me ensures t.rows[id].serial !in t.hist.fate {
      assert s.hist.log[s.rows[id].serial].id == id;
    }
  }

  /** A fate map that gains no delivery keeps what was settled. */
  lemma UndoSettles(s: Sys, ids: seq<int>)
    requires Inv(s)
    ensures var t := After(s, UndoIds(ids)); SettledOK(t.me, t.rows, t.server, t.hist)
  {
    var t := After(s, UndoIds(ids));
    forall n | n in t.hist.fate && 0 <= n < |t.hist.log| && t.hist.fate[n] == Delivered
      ensures t.hist.log[n].payload.CreateMailbox? ==> CreateSettled(t.me, t.rows, t.hist, n)
      ensures t.hist.log[n].payload.MoveMessages? ==> MoveSettled(t.server, t.hist, n)
      ensures IsChange(t.hist.log[n].payload) ==> ChangeSettled(t.server, t.hist, n)
    {
      assert n in s.hist.fate && s.hist.fate[n] == Delivered;
      if t.hist.log[n].payload.CreateMailbox? { ThinnedSettled(s.me, s.rows, t.rows, s.server, s.hist, n); }
      if t.hist.log[n].payload.MoveMessages? { assert MoveSettled(s.server, s.hist, n); }
      if IsChange(t.hist.log[n].payload) { assert ChangeSettled(s.server, s.hist, n); }
    }
  }

  lemma UndoLive(s: Sys, ids: seq<int>)
    requires Inv(s) && s.pass.Running?
    ensures var t := After(s, UndoIds(ids)); LiveOK(t.me, t.rows, t.server, t.hist, t.pass.live)
  {
    var t := After(s, UndoIds(ids));
    forall id | id in s.pass.live.claimed ensures id in t.rows && t.rows[id].state == Dispatching {
      assert ClaimedOK(s.me, s.rows, s.server, s.hist, id, s.pass.live.claimed[id]);
    }
    ThinnedLive(s.me, s.rows, t.rows, s.server, s.hist, s.pass.live);
    LiveFates(t.me, t.rows, t.server, s.hist, t.hist, s.pass.live);
  }

  /** Fates are nothing to a running pass. */
  lemma LiveFates(me: int, rows: Table, v: MailServer, h: Hist, h2: Hist, l: Live)
    requires LiveOK(me, rows, v, h, l) && h2.log == h.log && h2.bound == h.bound
    ensures LiveOK(me, rows, v, h2, l)
  {
    forall id | id in l.claimed ensures ClaimedOK(me, rows, v, h2, id, l.claimed[id]) {
      assert ClaimedOK(me, rows, v, h, id, l.claimed[id]);
    }
  }

  lemma UndoKeeps(s: Sys, ids: seq<int>)
    requires Inv(s)
    ensures Inv(After(s, UndoIds(ids)))
  {
    var t := After(s, UndoIds(ids));
    UndoPlaces(s, ids);
    ThinnedRows(s.me, s.rows, t.rows, s.server, s.hist);
    UndoSettles(s, ids);
    if s.pass.Running? { UndoLive(s, ids); }
  }

  lemma OthersKeep(s: Sys, rows: Table)
    requires Inv(s) && Enabled(s, Others(rows))
    ensures Inv(After(s, Others(rows)))
  {
    var t := After(s, Others(rows));
    assert forall id :: id in s.rows ==> id in s.rows.Keys;
    assert RefsOK(t.me, t.rows, t.hist.log) by {
      forall x | x in t.rows && t.rows[x].account == t.me
        ensures RefOK(t.me, t.rows, x, t.hist.log[t.rows[x].serial].payload.Ref(), t.hist.log[t.rows[x].serial].ref)
      {
        var i := s.hist.log[s.rows[x].serial];
        assert RefOK(s.me, s.rows, x, i.payload.Ref(), i.ref);
        assert i.ref >= 0 ==> i.payload.Ref() < x;
      }
    }
    forall n | n in t.hist.fate && 0 <= n < |t.hist.log| && t.hist.fate[n] == Delivered
      ensures t.hist.log[n].payload.CreateMailbox? ==> CreateSettled(t.me, t.rows, t.hist, n)
    {
      if t.hist.log[n].payload.CreateMailbox? { assert CreateSettled(s.me, s.rows, s.hist, n); }
    }
    if s.pass.Running? {
      var l := s.pass.live;
      forall id | id in l.claimed ensures ClaimedOK(t.me, t.rows, t.server, t.hist, id, l.claimed[id]) {
        assert ClaimedOK(s.me, s.rows, s.server, s.hist, id, l.claimed[id]);
      }
      forall id | id in l.walks ensures WalkOK(t.me, t.rows, t.hist, id, l.walks[id]) {
        assert WalkOK(s.me, s.rows, s.hist, id, l.walks[id]);
      }
    }
  }

  lemma StartupKeeps(s: Sys)
    requires Inv(s) && Enabled(s, Startup)
    ensures Inv(After(s, Startup))
  {
    ThinnedCore(s.me, s.rows, Swept(s.rows), s.server, s.hist);
  }

  // ---------------------------------------------------------------- claim

  lemma ResolvedOK(s: Sys, id: int, mailboxes: map<int, string>, messages: map<int, string>)
    requires Inv(s) && id in s.rows && s.rows[id].account == s.me
    ensures var c := ResolveClaim(id, s.rows[id], mailboxes, messages);
            && c.id == id && c.serial == s.rows[id].serial && c.payload == s.rows[id].payload
            && (c.payload.CreateMailbox? && AtRoot(s.hist.log[c.serial].payload) ==> c.parent == "")
            && (c.payload.CreateMailbox? && c.payload.parentMailbox == 0 ==> c.parent == c.payload.parentServer)
            && (c.payload.MoveMessages? && !c.preFailed && s.hist.log[c.serial].payload.Ref() != 0 ==>
                  c.dest == c.payload.destServer)
            && (c.payload.MoveMessages? && !c.preFailed ==> forall m | m in c.payload.messages :: m in c.messageIds)
  {
    assert Follows(s.server, s.hist.log, s.hist.bound, s.rows[id].serial, s.rows[id].payload);
  }

  lemma ClaimKeeps(s: Sys, ids: seq<int>, mailboxes: map<int, string>, messages: map<int, string>)
    requires Inv(s) && Enabled(s, Claim(ids, mailboxes, messages))
    ensures Inv(After(s, Claim(ids, mailboxes, messages)))
  {
    var t := After(s, Claim(ids, mailboxes, messages));
    ThinnedCore(s.me, s.rows, t.rows, s.server, s.hist);
    var l := t.pass.live;
    forall id | id in l.claimed ensures ClaimedOK(t.me, t.rows, t.server, t.hist, id, l.claimed[id]) {
      ResolvedOK(s, id, mailboxes, messages);
    }
    assert forall id :: id in l.claimed <==> id in ids;
  }

  // ---------------------------------------------------------------- the pass learns

  lemma OutsideKeeps(s: Sys, server: MailServer)
    requires Inv(s) && Drift(s.server, server)
    ensures Inv(s.(server := server))
  {
    CoreDrifts(s.me, s.rows, s.server, server, s.hist);
    if s.pass.Running? { LiveDrifts(s.me, s.rows, s.server, server, s.hist, s.pass.live); }
  }

  /** The parent of a root create is the root at every attempt. */
  lemma RootAsksRoot(s: Sys, id: int)
    requires Inv(s) && OpenCreate(s, id)
    requires AtRoot(s.hist.log[s.pass.live.claimed[id].serial].payload)
    ensures AskedBox(s, id).parent == ""
  {
    var c := s.pass.live.claimed[id];
    assert ClaimedOK(s.me, s.rows, s.server, s.hist, id, c);
  }

  lemma LiveLearns(me: int, rows: Table, v: MailServer, h: Hist, l: Live, id: int, b: Bound)
    requires LiveOK(me, rows, v, h, l) && id in l.claimed && LearnedOK(v, h, l.claimed[id], b)
    ensures LiveOK(me, rows, v, h, l.(learned := l.learned[id := b]))
  {
    var l2 := l.(learned := l.learned[id := b]);
    forall k | k in l2.decided ensures l2.decided[k].Deliver? ==> MayDeliver(l2, l2.claimed[k]) {
      assert l.decided[k].Deliver? ==> MayDeliver(l, l.claimed[k]);
    }
  }

  lemma LearnKeeps(s: Sys, id: int, b: Bound)
    requires Inv(s) && OpenCreate(s, id) && LearnedOK(s.server, s.hist, s.pass.live.claimed[id], b)
    ensures Inv(WithLive(s, s.pass.live.(learned := s.pass.live.learned[id := b])))
  {
    LiveLearns(s.me, s.rows, s.server, s.hist, s.pass.live, id, b);
  }

  lemma CreateKeeps(s: Sys, id: int, box: string)
    requires Inv(s) && Enabled(s, Create(id, box))
    ensures Inv(After(s, Create(id, box)))
  {
    var asked := AskedBox(s, id);
    var w := s.server.(boxes := s.server.boxes[box := asked], ever := s.server.ever + {box});
    assert Drift(s.server, w) by {
      assert forall y :: y in s.server.boxes && s.server.boxes[y] == asked ==> y in Matches(s.server, asked);
      assert box !in s.server.boxes.Keys;
    }
    OutsideKeeps(s, w);
    var m := s.(server := w);
    var c := s.pass.live.claimed[id];
    assert ClaimedOK(s.me, s.rows, s.server, s.hist, id, c);
    if AtRoot(s.hist.log[c.serial].payload) { RootAsksRoot(s, id); }
    LearnKeeps(m, id, Bound(box, asked.parent));
  }

  lemma AdoptKeeps(s: Sys, id: int, box: string)
    requires Inv(s) && Enabled(s, Adopt(id, box))
    ensures Inv(After(s, Adopt(id, box)))
  {
    var c := s.pass.live.claimed[id];
    assert box in Matches(s.server, AskedBox(s, id));
    assert box in s.server.boxes.Keys;
    assert ClaimedOK(s.me, s.rows, s.server, s.hist, id, c);
    if AtRoot(s.hist.log[c.serial].payload) { RootAsksRoot(s, id); }
    LearnKeeps(s, id, Bound(box, AskedBox(s, id).parent));
  }

  lemma LiveNotes(me: int, rows: Table, v: MailServer, h: Hist, l: Live, id: int, x: string)
    requires LiveOK(me, rows, v, h, l) && id in l.claimed && Answers(v, h.log, l.claimed[id].serial, x)
    ensures LiveOK(me, rows, v, h, l.(resolved := l.resolved[id := x]))
  {
    var l2 := l.(resolved := l.resolved[id := x]);
    forall k | k in l2.decided ensures l2.decided[k].Deliver? ==> MayDeliver(l2, l2.claimed[k]) {
      assert l.decided[k].Deliver? ==> MayDeliver(l, l.claimed[k]);
    }
  }

  /** The id a create is known by is that of a mailbox it asked for. */
  lemma KnownAnswers(s: Sys, id: int)
    requires Inv(s) && Enabled(s, Note(id))
    ensures Answers(s.server, s.hist.log, s.pass.live.claimed[id].serial, Known(s.pass.live, id))
  {
    var l := s.pass.live;
    assert ClaimedOK(s.me, s.rows, s.server, s.hist, id, l.claimed[id]);
    if id in l.learned {
      assert LearnedOK(s.server, s.hist, l.claimed[id], l.learned[id]);
    } else {
      assert l.claimed[id].serial in s.hist.bound;
    }
  }

  lemma NoteKeeps(s: Sys, id: int)
    requires Inv(s) && Enabled(s, Note(id))
    ensures Inv(After(s, Note(id)))
  {
    KnownAnswers(s, id);
    LiveNotes(s.me, s.rows, s.server, s.hist, s.pass.live, id, Known(s.pass.live, id));
  }

  /** Wherever a move that names a create may file, that mailbox is one its create asked for. */
  lemma FilesWhereItsCreateAsked(s: Sys, id: int, dest: string)
    requires Inv(s) && Enabled(s, File(id, dest))
    ensures Suits(s.server, s.hist.log, s.pass.live.claimed[id].serial, dest)
  {
    var l := s.pass.live;
    var c := l.claimed[id];
    assert ClaimedOK(s.me, s.rows, s.server, s.hist, id, c);
    if s.hist.log[c.serial].ref >= 0 && dest != c.dest {
      assert RefOK(s.me, s.rows, id, s.hist.log[c.serial].payload.Ref(), s.hist.log[c.serial].ref);
      var k := c.payload.Ref();
      assert k == s.hist.log[c.serial].payload.Ref();
      assert k in l.claimed;
      assert ClaimedOK(s.me, s.rows, s.server, s.hist, k, l.claimed[k]);
      assert s.rows[k].serial == s.hist.log[s.rows[id].serial].ref;
      if !(k in l.resolved && dest == l.resolved[k]) {
        assert LearnedOK(s.server, s.hist, l.claimed[k], l.learned[k]);
        assert Follows(s.server, s.hist.log, s.hist.bound, l.claimed[k].serial, l.claimed[k].payload);
      }
    }
  }

  lemma LiveFiles(me: int, rows: Table, v: MailServer, h: Hist, l: Live, id: int, dest: string)
    requires LiveOK(me, rows, v, h, l) && id in l.claimed && FiledOK(v, h, l.claimed[id], dest)
    ensures LiveOK(me, rows, v, h, l.(filed := l.filed[id := dest]))
  {
    var l2 := l.(filed := l.filed[id := dest]);
    forall k | k in l2.decided ensures l2.decided[k].Deliver? ==> MayDeliver(l2, l2.claimed[k]) {
      assert l.decided[k].Deliver? ==> MayDeliver(l, l.claimed[k]);
    }
  }

  lemma FiledFresh(s: Sys, id: int, dest: string)
    requires Inv(s) && Enabled(s, File(id, dest))
    ensures var c := s.pass.live.claimed[id];
            c.payload.MoveMessages?
                && FiledOK(s.server.(filings := s.server.filings + FilingsOf(c, dest)), s.hist, c, dest)
  {
    var c := s.pass.live.claimed[id];
    assert ClaimedOK(s.me, s.rows, s.server, s.hist, id, c);
    FilesWhereItsCreateAsked(s, id, dest);
  }

  lemma FileKeeps(s: Sys, id: int, dest: string)
    requires Inv(s) && Enabled(s, File(id, dest))
    ensures Inv(After(s, File(id, dest)))
  {
    var c := s.pass.live.claimed[id];
    var w := s.server.(filings := s.server.filings + FilingsOf(c, dest));
    FiledFresh(s, id, dest);
    OutsideKeeps(s, w);
    LiveFiles(s.me, s.rows, w, s.hist, s.pass.live, id, dest);
  }

  /** A rename or delete the server carries out is something the server may do. */
  lemma ChangeDrifts(v: MailServer, c: Claimed)
    requires ServerOK(v) && Allows(v, c)
    ensures Drift(v, Changed(v, c)) && CarriedOut(Changed(v, c), c.payload, c.mailbox)
  {
    var w := Changed(v, c);
    assert forall x :: x in w.boxes ==> x in w.boxes.Keys;
    assert forall x :: x in v.boxes ==> x in v.boxes.Keys;
  }

  lemma LiveAcks(me: int, rows: Table, v: MailServer, h: Hist, l: Live, id: int)
    requires LiveOK(me, rows, v, h, l) && id in l.claimed
    requires CarriedOut(v, l.claimed[id].payload, l.claimed[id].mailbox)
    ensures LiveOK(me, rows, v, h, l.(acked := l.acked + {id}))
  {
    var l2 := l.(acked := l.acked + {id});
    forall k | k in l2.decided ensures l2.decided[k].Deliver? ==> MayDeliver(l2, l2.claimed[k]) {
      assert l.decided[k].Deliver? ==> MayDeliver(l, l.claimed[k]);
    }
  }

  lemma AckKeeps(s: Sys, id: int)
    requires Inv(s) && Enabled(s, Ack(id))
    ensures Inv(After(s, Ack(id)))
  {
    var c := s.pass.live.claimed[id];
    ChangeDrifts(s.server, c);
    OutsideKeeps(s, Changed(s.server, c));
    LiveAcks(s.me, s.rows, Changed(s.server, c), s.hist, s.pass.live, id);
  }

  lemma DecideKeeps(s: Sys, id: int, d: Decision)
    requires Inv(s) && Enabled(s, Decide(id, d))
    ensures Inv(After(s, Decide(id, d)))
  {
    hide Core, ClaimedOK, LearnedOK, WalkOK, FiledOK, Answers, CarriedOut;
    var l := s.pass.live;
    assert LiveOK(s.me, s.rows, s.server, s.hist, l.(decided := l.decided[id := d]));
  }

  lemma RedoKeeps(s: Sys, id: int, d: Decision)
    requires Inv(s) && Enabled(s, Redo(id, d))
    ensures Inv(After(s, Redo(id, d)))
  {
    hide Core, ClaimedOK, LearnedOK, WalkOK, FiledOK, Answers, CarriedOut;
    var l := s.pass.live;
    assert LiveOK(s.me, s.rows, s.server, s.hist, l.(again := l.again[id := d]));
  }

  // ---------------------------------------------------------------- a create records its id

  /** A new binding for intent n changes nothing about the others. */
  lemma RebindFollows(v: MailServer, log: seq<Intent>, bound: map<int, Bound>, n: int, b: Bound, m: int, p: Payload)
    requires 0 <= m < |log| && Follows(v, log, bound, m, p) && (m == n ==> !HoldsId(p))
    ensures Follows(v, log, bound[n := b], m, p)
  {
  }

  lemma PersistBinds(s: Sys, id: int)
    requires Inv(s) && Enabled(s, Persist(id))
    ensures var t := After(s, Persist(id)); BoundOK(t.server, t.hist.log, t.hist.bound)
  {
    hide SettledOK, WalkOK, FiledOK, CarriedOut, MayDeliver, Placed, RefsOK;
    var c := s.pass.live.claimed[id];
    assert ClaimedOK(s.me, s.rows, s.server, s.hist, id, c);
    assert LearnedOK(s.server, s.hist, c, s.pass.live.learned[id]);
    assert Follows(s.server, s.hist.log, s.hist.bound, c.serial, c.payload);
  }

  lemma PersistStays(s: Sys, id: int)
    requires Inv(s) && Enabled(s, Persist(id))
    ensures var t := After(s, Persist(id)); Placed(t.me, t.rows, t.hist.log, t.hist.fate)
  {
    hide SettledOK, WalkOK, FiledOK, CarriedOut, MayDeliver, BoundOK, RefsOK, LearnedOK;
    assert ClaimedOK(s.me, s.rows, s.server, s.hist, id, s.pass.live.claimed[id]);
  }

  lemma PersistPlaces(s: Sys, id: int)
    requires Inv(s) && Enabled(s, Persist(id))
    ensures var t := After(s, Persist(id));
            && Placed(t.me, t.rows, t.hist.log, t.hist.fate) && RefsOK(t.me, t.rows, t.hist.log)
            && BoundOK(t.server, t.hist.log, t.hist.bound)
  {
    hide SettledOK, WalkOK, FiledOK, CarriedOut, MayDeliver, BoundOK;
    PersistBinds(s, id);
    PersistStays(s, id);
    var c := s.pass.live.claimed[id];
    assert ClaimedOK(s.me, s.rows, s.server, s.hist, id, c);
    assert LearnedOK(s.server, s.hist, c, s.pass.live.learned[id]);
    assert Follows(s.server, s.hist.log, s.hist.bound, c.serial, c.payload);
  }

  lemma PersistRows(s: Sys, id: int)
    requires Inv(s) && Enabled(s, Persist(id))
    ensures var t := After(s, Persist(id));
            && Placed(t.me, t.rows, t.hist.log, t.hist.fate) && RefsOK(t.me, t.rows, t.hist.log)
            && BoundOK(t.server, t.hist.log, t.hist.bound) && RowsFollow(t.me, t.rows, t.server, t.hist)
  {
    PersistPlaces(s, id);
    hide SettledOK, WalkOK, FiledOK, CarriedOut, MayDeliver, BoundOK, RefsOK;
    var t := After(s, Persist(id));
    var c := s.pass.live.claimed[id];
    var b := s.pass.live.learned[id];
    assert ClaimedOK(s.me, s.rows, s.server, s.hist, id, c);
    assert LearnedOK(s.server, s.hist, c, b);
    assert Follows(s.server, s.hist.log, s.hist.bound, c.serial, c.payload);
    forall k | k in t.rows && t.rows[k].account == t.me
      ensures Follows(t.server, t.hist.log, t.hist.bound, t.rows[k].serial, t.rows[k].payload)
    {
      if k != id {
        assert s.hist.log[s.rows[k].serial].id == k;
        RebindFollows(s.server, s.hist.log, s.hist.bound, c.serial, b, s.rows[k].serial, s.rows[k].payload);
      }
    }
  }

  lemma PersistSettles(s: Sys, id: int)
    requires Inv(s) && Enabled(s, Persist(id))
    ensures var t := After(s, Persist(id)); SettledOK(t.me, t.rows, t.server, t.hist)
  {
    var t := After(s, Persist(id));
    assert LearnedOK(s.server, s.hist, s.pass.live.claimed[id], s.pass.live.learned[id]);
    forall n | n in t.hist.fate && 0 <= n < |t.hist.log| && t.hist.fate[n] == Delivered
      ensures t.hist.log[n].payload.CreateMailbox? ==> CreateSettled(t.me, t.rows, t.hist, n)
      ensures t.hist.log[n].payload.MoveMessages? ==> MoveSettled(t.server, t.hist, n)
      ensures IsChange(t.hist.log[n].payload) ==> ChangeSettled(t.server, t.hist, n)
    {
      if t.hist.log[n].payload.CreateMailbox? { assert CreateSettled(s.me, s.rows, s.hist, n); }
      if t.hist.log[n].payload.MoveMessages? { assert MoveSettled(s.server, s.hist, n); }
      if IsChange(t.hist.log[n].payload) { assert ChangeSettled(s.server, s.hist, n); }
    }
  }

  lemma PersistedClaim(s: Sys, id: int, k: int)
    requires Inv(s) && Enabled(s, Persist(id)) && k in s.pass.live.claimed
    ensures var t := After(s, Persist(id)); ClaimedOK(t.me, t.rows, t.server, t.hist, k, s.pass.live.claimed[k])
  {
    var l := s.pass.live;
    var c := l.claimed[id];
    assert LearnedOK(s.server, s.hist, c, l.learned[id]);
    assert ClaimedOK(s.me, s.rows, s.server, s.hist, k, l.claimed[k]);
    assert ClaimedOK(s.me, s.rows, s.server, s.hist, id, c);
    RebindFollows(s.server, s.hist.log, s.hist.bound, c.serial, l.learned[id], l.claimed[k].serial,
        l.claimed[k].payload);
  }

  lemma HeldWalk(me: int, rows: Table, rows2: Table, h: Hist, h2: Hist, id: int, k: int, w: Walk)
    requires WalkOK(me, rows, h, k, w) && h2.log == h.log && id in rows && rows2.Keys == rows.Keys
    requires forall x | x in rows && x != id :: rows2[x] == rows[x]
    requires HoldsId(rows2[id].payload)
    ensures WalkOK(me, rows2, h2, k, w)
  {
    assert forall x :: x in rows2 ==> x in rows.Keys;
    assert k in rows2.Keys;
  }

  lemma PersistLive(s: Sys, id: int)
    requires Inv(s) && Enabled(s, Persist(id))
    ensures var t := After(s, Persist(id)); LiveOK(t.me, t.rows, t.server, t.hist, t.pass.live)
  {
    hide Core, Follows;
    var t := After(s, Persist(id));
    var l := s.pass.live;
    forall k | k in l.claimed ensures ClaimedOK(t.me, t.rows, t.server, t.hist, k, l.claimed[k]) {
      PersistedClaim(s, id, k);
    }
    forall k | k in l.walks ensures WalkOK(t.me, t.rows, t.hist, k, l.walks[k]) {
      assert LearnedOK(s.server, s.hist, l.claimed[id], l.learned[id]);
      HeldWalk(s.me, s.rows, t.rows, s.hist, t.hist, id, k, l.walks[k]);
    }
    LiveKeepsRest(l, s.server, s.hist, t.hist);
  }

  /** What a pass learned about the server does not depend on the bindings. */
  lemma LiveKeepsRest(l: Live, v: MailServer, h: Hist, h2: Hist)
    requires h2.log == h.log
    requires forall id | id in l.learned :: id in l.claimed && LearnedOK(v, h, l.claimed[id], l.learned[id])
    requires forall id | id in l.filed :: id in l.claimed && FiledOK(v, h, l.claimed[id], l.filed[id])
    ensures forall id | id in l.learned :: LearnedOK(v, h2, l.claimed[id], l.learned[id])
    ensures forall id | id in l.filed :: FiledOK(v, h2, l.claimed[id], l.filed[id])
  {
    forall id | id in l.filed ensures FiledOK(v, h2, l.claimed[id], l.filed[id]) {
      assert FiledOK(v, h, l.claimed[id], l.filed[id]);
    }
  }

  lemma PersistKeeps(s: Sys, id: int)
    requires Inv(s) && Enabled(s, Persist(id))
    ensures Inv(After(s, Persist(id)))
  {
    hide LiveOK, SettledOK, RowsFollow, BoundOK, RefsOK, Placed;
    PersistRows(s, id);
    PersistSettles(s, id);
    PersistLive(s, id);
  }

  // ---------------------------------------------------------------- the reference walk

  /** A page holds every row between the cursor it started from and the one it ends on. */
  lemma PageCovers(rows: Table, after: int, limit: nat)
    ensures var page := PageAfter(rows, after, limit);
            && (page != [] ==> page[|page| - 1] > after)
            && (page != [] ==> forall k | k in rows && after < k <= page[|page| - 1] :: k in page)
            && (page == [] && limit > 0 ==> forall k | k in rows :: k <= after)
  {
    hide Ascending;
    var ids := set id | id in rows && id > after;
    var all := Ascending(ids);
    var page := Limit(all, limit);
    if page != [] {
      var last := page[|page| - 1];
      assert last in all;
      forall k | k in rows && after < k <= last ensures k in page {
        assert k in all;
        var i :| 0 <= i < |all| && all[i] == k;
        assert all[|page| - 1] == last;
        assert i < |page|;
        assert page[i] == k;
      }
    } else if limit > 0 {
      assert all == [];
      assert forall k :: k in rows && k > after ==> k in ids;
    }
  }

  /** A row that names the create takes a mailbox that create asked for. */
  lemma PatchFollows(s: Sys, id: int, k: int)
    requires Inv(s) && Enabled(s, Page(id)) && k in s.rows && s.rows[k].account == s.me
    ensures var r := PatchedRow(s.rows[k], s.me, k, id, s.rows[id].payload.resolved);
            Follows(s.server, s.hist.log, s.hist.bound, r.serial, r.payload)
  {
    assert ClaimedOK(s.me, s.rows, s.server, s.hist, id, s.pass.live.claimed[id]);
    var n := s.rows[k].serial;
    assert Follows(s.server, s.hist.log, s.hist.bound, n, s.rows[k].payload);
    assert Follows(s.server, s.hist.log, s.hist.bound, s.rows[id].serial, s.rows[id].payload);
    assert id >= 1;
  }

  /** A page moves no row, changes no owner and turns no payload into one of another kind. */
  lemma PagePlaces(s: Sys, id: int, page: seq<int>)
    requires Inv(s) && Enabled(s, Page(id))
    ensures var rows := PatchPage(s.rows, page, s.me, id, s.rows[id].payload.resolved);
            Placed(s.me, rows, s.hist.log, s.hist.fate) && RefsOK(s.me, rows, s.hist.log)
  {
    hide LiveOK, SettledOK, RowsFollow, BoundOK, LogOK;
    var rows := PatchPage(s.rows, page, s.me, id, s.rows[id].payload.resolved);
    assert forall k :: k in s.rows <==> k in rows;
  }

  lemma PageRows(s: Sys, id: int, page: seq<int>)
    requires Inv(s) && Enabled(s, Page(id))
    ensures var rows := PatchPage(s.rows, page, s.me, id, s.rows[id].payload.resolved);
            Core(s.me, rows, s.server, s.hist)
  {
    var rows := PatchPage(s.rows, page, s.me, id, s.rows[id].payload.resolved);
    PagePlaces(s, id, page);
    hide RefsOK, Follows, BoundOK, LogOK;
    forall k | k in rows && rows[k].account == s.me
      ensures Follows(s.server, s.hist.log, s.hist.bound, rows[k].serial, rows[k].payload)
    {
      PatchFollows(s, id, k);
    }
    forall n | n in s.hist.fate && 0 <= n < |s.hist.log| && s.hist.fate[n] == Delivered
      ensures s.hist.log[n].payload.CreateMailbox? ==> CreateSettled(s.me, rows, s.hist, n)
    {
      if s.hist.log[n].payload.CreateMailbox? { assert CreateSettled(s.me, s.rows, s.hist, n); }
    }
  }

  lemma PatchedClaim(s: Sys, id: int, page: seq<int>, k: int)
    requires Inv(s) && Enabled(s, Page(id)) && k in s.pass.live.claimed
    ensures var rows := PatchPage(s.rows, page, s.me, id, s.rows[id].payload.resolved);
            ClaimedOK(s.me, rows, s.server, s.hist, k, s.pass.live.claimed[k])
  {
    assert ClaimedOK(s.me, s.rows, s.server, s.hist, k, s.pass.live.claimed[k]);
  }

  /** Patching rows that name another create leaves a walk's promise standing. */
  lemma PatchedWalk(me: int, rows: Table, page: seq<int>, h: Hist, id: int, box: string, k: int, w: Walk)
    requires WalkOK(me, rows, h, k, w) && k >= 1
    ensures WalkOK(me, PatchPage(rows, page, me, id, box), h, k, w)
  {
  }

  /** The page just patched extends its own walk's promise to the new cursor. */
  lemma WalkAdvances(me: int, rows: Table, page: seq<int>, h: Hist, id: int, box: string, w: Walk)
    requires WalkOK(me, rows, h, id, w) && id >= 1 && page != []
    requires forall k | k in rows && w.after < k <= page[|page| - 1] :: k in page
    ensures WalkOK(me, PatchPage(rows, page, me, id, box), h, id, w.(after := page[|page| - 1], done := false))
  {
  }

  /** A walk begins with nothing promised: every row lies past cursor 0. */
  lemma WalkBegins(s: Sys, id: int)
    requires Inv(s) && Enabled(s, Page(id)) && id !in s.pass.live.walks
    ensures WalkOK(s.me, s.rows, s.hist, id, Walk(0, |s.hist.log|, false))
  {
  }

  lemma WalkedDecisions(l: Live, id: int, w: Walk)
    requires forall k | k in l.decided ::
        k in l.claimed && l.claimed[k].id == k && (l.decided[k].Deliver? ==> MayDeliver(l, l.claimed[k]))
    requires id in l.walks && l.walks[id].done ==> w.done
    ensures forall k | k in l.decided && l.decided[k].Deliver? ::
        MayDeliver(l.(walks := l.walks[id := w]), l.claimed[k])
  {
    forall k | k in l.decided && l.decided[k].Deliver? ensures MayDeliver(l.(walks := l.walks[id := w]), l.claimed[k]) {
      assert MayDeliver(l, l.claimed[k]);
    }
  }

  lemma AdvancedLive(me: int, rows0: Table, rows: Table, v: MailServer, h: Hist, l: Live, id: int, w: Walk)
    requires LiveOK(me, rows0, v, h, l) && id in l.claimed && WalkOK(me, rows, h, id, w)
    requires id in l.walks && l.walks[id].done ==> w.done
    requires forall k | k in l.claimed :: ClaimedOK(me, rows, v, h, k, l.claimed[k])
    requires forall k | k in l.walks && k != id :: WalkOK(me, rows, h, k, l.walks[k])
    ensures LiveOK(me, rows, v, h, l.(walks := l.walks[id := w]))
  {
    hide WalkOK, LearnedOK, FiledOK, CarriedOut, Answers, MayDeliver;
    assert forall k | k in l.decided :: k in l.claimed && l.claimed[k].id == k;
    WalkedDecisions(l, id, w);
  }

  lemma PatchedLive(s: Sys, id: int, page: seq<int>, w: Walk)
    requires Inv(s) && Enabled(s, Page(id)) && page != []
    requires WalkOK(s.me, s.rows, s.hist, id, w) && (id in s.pass.live.walks ==> s.pass.live.walks[id] == w) && !w.done
    requires forall k | k in s.rows && w.after < k <= page[|page| - 1] :: k in page
    ensures LiveOK(s.me, PatchPage(s.rows, page, s.me, id, s.rows[id].payload.resolved), s.server, s.hist,
                   s.pass.live.(walks := s.pass.live.walks[id := w.(after := page[|page| - 1])]))
  {
    var l := s.pass.live;
    var box := s.rows[id].payload.resolved;
    var rows := PatchPage(s.rows, page, s.me, id, box);
    assert id >= 1 && forall k | k in l.walks :: k >= 1;
    forall k | k in l.claimed ensures ClaimedOK(s.me, rows, s.server, s.hist, k, l.claimed[k]) {
      PatchedClaim(s, id, page, k);
    }
    hide PatchPage, ClaimedOK, Core;
    forall k | k in l.walks && k != id ensures WalkOK(s.me, rows, s.hist, k, l.walks[k]) {
      PatchedWalk(s.me, s.rows, page, s.hist, id, box, k, l.walks[k]);
    }
    WalkAdvances(s.me, s.rows, page, s.hist, id, box, w);
    AdvancedLive(s.me, s.rows, rows, s.server, s.hist, l, id, w.(after := page[|page| - 1]));
  }

  lemma PageLive(s: Sys, id: int)
    requires Inv(s) && Enabled(s, Page(id))
    ensures var t := AfterPage(s, id); LiveOK(t.me, t.rows, t.server, t.hist, t.pass.live)
  {
    hide PageAfter, LiveOK, WalkOK, Core, PatchPage;
    var l := s.pass.live;
    var walk := if id in l.walks then l.walks[id] else Walk(0, |s.hist.log|, false);
    var page := PageAfter(s.rows, walk.after, DEPENDENT_REF_PAGE);
    PageCovers(s.rows, walk.after, DEPENDENT_REF_PAGE);
    WalkSoFar(s, id);
    if page == [] {
      WalkEnds(s, id, walk);
    } else {
      PatchedLive(s, id, page, walk);
    }
  }

  lemma WalkSoFar(s: Sys, id: int)
    requires Inv(s) && Enabled(s, Page(id))
    ensures WalkOK(s.me, s.rows, s.hist, id,
                   if id in s.pass.live.walks then s.pass.live.walks[id] else Walk(0, |s.hist.log|, false))
  {
    if id !in s.pass.live.walks { WalkBegins(s, id); }
  }

  /** The page past the last row ends the walk: nothing lies beyond its cursor. */
  lemma WalkEnds(s: Sys, id: int, w: Walk)
    requires Inv(s) && Enabled(s, Page(id)) && WalkOK(s.me, s.rows, s.hist, id, w)
    requires forall k | k in s.rows :: k <= w.after
    ensures LiveOK(s.me, s.rows, s.server, s.hist, s.pass.live.(walks := s.pass.live.walks[id := w.(done := true)]))
  {
    AdvancedLive(s.me, s.rows, s.rows, s.server, s.hist, s.pass.live, id, w.(done := true));
  }

  lemma PageKeeps(s: Sys, id: int)
    requires Inv(s) && Enabled(s, Page(id))
    ensures Inv(After(s, Page(id)))
  {
    hide Core, LiveOK;
    var t := AfterPage(s, id);
    var l := s.pass.live;
    var walk := if id in l.walks then l.walks[id] else Walk(0, |s.hist.log|, false);
    var page := PageAfter(s.rows, walk.after, DEPENDENT_REF_PAGE);
    PageRows(s, id, page);
    PageLive(s, id);
    assert HeldOK(t);
  }

  // ---------------------------------------------------------------- finalize

  lemma SettlesClaimed(s: Sys, n: int)
    requires Inv(s) && s.pass.Running? && Settles(s.hist.log, s.pass.live, n)
    ensures n !in s.hist.fate
    ensures s.hist.log[n].id in s.rows && s.rows[s.hist.log[n].id].serial == n
    ensures ClaimedOK(s.me, s.rows, s.server, s.hist, s.hist.log[n].id, s.pass.live.claimed[s.hist.log[n].id])
  {
    var id := s.hist.log[n].id;
    assert ClaimedOK(s.me, s.rows, s.server, s.hist, id, s.pass.live.claimed[id]);
  }

  /** The rows a finalize leaves: exactly those without a final decision. */
  predicate Leaves(rows: Table, rows2: Table, l: Live) {
    && Thins(rows, rows2)
    && forall id | id in rows :: id in rows2 <==> !(id in l.decided && l.decided[id].Terminal())
  }

  predicate ClaimsMatch(me: int, rows: Table, log: seq<Intent>, l: Live) {
    && (forall id | id in l.decided :: id in l.claimed)
    && (forall id | id in l.claimed :: id in rows && rows[id].account == me && rows[id].serial == l.claimed[id].serial)
  }

  lemma SettledPlaces(me: int, rows: Table, rows2: Table, log: seq<Intent>, fate: map<int, Fate>,
      fate2: map<int, Fate>, l: Live)
    requires Placed(me, rows, log, fate) && ClaimsMatch(me, rows, log, l) && Leaves(rows, rows2, l)
    requires forall n :: n in fate2 <==> n in fate || Settles(log, l, n)
    ensures Placed(me, rows2, log, fate2)
  {
    forall id | id in rows2 && rows2[id].account == me
      ensures 0 <= rows2[id].serial < |log| && log[rows2[id].serial].id == id && rows2[id].serial !in fate2
    {
      assert log[rows[id].serial].id == id;
      assert !Settles(log, l, rows[id].serial);
    }
    forall n | n in fate2 ensures 0 <= n < |log| { assert n in fate || Settles(log, l, n); }
    forall n | 0 <= n < |log| && n !in fate2
      ensures log[n].id in rows2 && rows2[log[n].id].account == me && rows2[log[n].id].serial == n
    {
      assert log[n].id in rows && rows[log[n].id].serial == n;
      assert !Settles(log, l, n);
    }
  }

  lemma SettleFates(h: Hist, l: Live)
    ensures var h2 := Settle(h, l);
            && h2.log == h.log && h2.bound == h.bound
            && (forall n :: n in h2.fate <==> n in h.fate || Settles(h.log, l, n))
            && (forall n | n in h.fate && !Settles(h.log, l, n) :: h2.fate[n] == h.fate[n])
            && (forall n | Settles(h.log, l, n) :: h2.fate[n] == if Delivers(h.log, l, n) then Delivered else Failed)
  {
  }

  lemma SettleMarks(h: Hist, l: Live)
    ensures var h2 := Settle(h, l);
            && (forall n | n in h.since && !Settles(h.log, l, n) :: n in h2.since && h2.since[n] == h.since[n])
            && (forall n | n in h.sent && !Settles(h.log, l, n) :: n in h2.sent && h2.sent[n] == h.sent[n])
            && (forall n | Delivers(h.log, l, n) && h.log[n].id in l.walks ::
                  n in h2.since && h2.since[n] == l.walks[h.log[n].id].since)
            && (forall n | Delivers(h.log, l, n) && Sends(l, h.log[n].id) ::
                  n in h2.sent && h2.sent[n] == SentBy(l, h.log[n].id))
  {
  }

  /** What finalize makes of the history, entry by entry. */
  lemma SettleFacts(h: Hist, l: Live)
    ensures var h2 := Settle(h, l);
            && h2.log == h.log && h2.bound == h.bound
            && (forall n :: n in h2.fate <==> n in h.fate || Settles(h.log, l, n))
            && (forall n | n in h.fate && !Settles(h.log, l, n) :: h2.fate[n] == h.fate[n])
            && (forall n | Settles(h.log, l, n) :: h2.fate[n] == if Delivers(h.log, l, n) then Delivered else Failed)
            && (forall n | n in h.since && !Settles(h.log, l, n) :: n in h2.since && h2.since[n] == h.since[n])
            && (forall n | n in h.sent && !Settles(h.log, l, n) :: n in h2.sent && h2.sent[n] == h.sent[n])
            && (forall n | Delivers(h.log, l, n) && h.log[n].id in l.walks ::
                  n in h2.since && h2.since[n] == l.walks[h.log[n].id].since)
            && (forall n | Delivers(h.log, l, n) && Sends(l, h.log[n].id) ::
                  n in h2.sent && h2.sent[n] == SentBy(l, h.log[n].id))
  {
    hide Settle, Settles, Delivers, Sends, SentBy;
    SettleFates(h, l);
    SettleMarks(h, l);
  }

  lemma FinalizeLeaves(s: Sys, now: int)
    requires Inv(s) && Enabled(s, Finalize(now))
    ensures Leaves(s.rows, FinalizeRows(s.rows, s.pass.live, now), s.pass.live)
    ensures ClaimsMatch(s.me, s.rows, s.hist.log, s.pass.live)
  {
    var l := s.pass.live;
    assert forall id :: id in l.decided ==> id in l.claimed;
    forall id | id in l.claimed
      ensures id in s.rows && s.rows[id].account == s.me && s.rows[id].serial == l.claimed[id].serial {
      assert ClaimedOK(s.me, s.rows, s.server, s.hist, id, l.claimed[id]);
    }
  }

  /** A create delivered by a finalize has its id, and left nobody behind. */
  lemma CreateSettles(me: int, rows: Table, rows2: Table, v: MailServer, h: Hist, h2: Hist, l: Live, n: int)
    requires Core(me, rows, v, h) && LiveOK(me, rows, v, h, l) && Delivers(h.log, l, n)
        && h.log[n].payload.CreateMailbox?
    requires Leaves(rows, rows2, l) && h2.log == h.log && h2.bound == h.bound
    requires h.log[n].id in l.walks ==> n in h2.since && h2.since[n] == l.walks[h.log[n].id].since
    ensures CreateSettled(me, rows2, h2, n)
  {
    var id := h.log[n].id;
    var c := l.claimed[id];
    assert ClaimedOK(me, rows, v, h, id, c);
    assert MayDeliver(l, c);
    assert WalkOK(me, rows, h, id, l.walks[id]);
    assert Follows(v, h.log, h.bound, n, rows[id].payload);
    forall k | k in rows2 && rows2[k].account == me && rows2[k].serial < h2.since[n] && rows2[k].payload.Ref() != 0
                 && 0 <= rows2[k].serial < |h2.log| && h2.log[rows2[k].serial].ref == n
      ensures HoldsId(rows2[k].payload)
    {
      assert Follows(v, h.log, h.bound, rows[k].serial, rows[k].payload);
      assert rows[k].payload.Ref() == id;
    }
  }

  /** A move delivered by a finalize filed every message, where its create asked if it names one. */
  lemma MoveSettles(me: int, rows: Table, v: MailServer, h: Hist, h2: Hist, l: Live, n: int)
    requires Core(me, rows, v, h) && LiveOK(me, rows, v, h, l) && Delivers(h.log, l, n)
        && h.log[n].payload.MoveMessages?
    requires h2.log == h.log
    requires Sends(l, h.log[n].id) ==> n in h2.sent && h2.sent[n] == SentBy(l, h.log[n].id)
    ensures MoveSettled(v, h2, n)
  {
    var id := h.log[n].id;
    var c := l.claimed[id];
    assert ClaimedOK(me, rows, v, h, id, c);
    assert MayDeliver(l, c);
    assert FiledOK(v, h, c, l.filed[id]);
    forall m | m in h.log[n].payload.messages
      ensures m in c.messageIds && (c.messageIds[m], l.filed[id]) in v.filings
    {
      assert (c.messageIds[m], l.filed[id]) in FilingsOf(c, l.filed[id]);
    }
  }

  lemma ChangeSettles(me: int, rows: Table, v: MailServer, h: Hist, h2: Hist, l: Live, n: int)
    requires Core(me, rows, v, h) && LiveOK(me, rows, v, h, l) && Delivers(h.log, l, n) && IsChange(h.log[n].payload)
    requires h2.log == h.log
    requires Sends(l, h.log[n].id) ==> n in h2.sent && h2.sent[n] == SentBy(l, h.log[n].id)
    ensures ChangeSettled(v, h2, n)
  {
    var c := l.claimed[h.log[n].id];
    assert ClaimedOK(me, rows, v, h, h.log[n].id, c);
    assert MayDeliver(l, c);
  }

  lemma FinalizeSettles(s: Sys, now: int)
    requires Inv(s) && Enabled(s, Finalize(now)) && Leaves(s.rows, FinalizeRows(s.rows, s.pass.live, now), s.pass.live)
    ensures SettledOK(s.me, FinalizeRows(s.rows, s.pass.live, now), s.server, Settle(s.hist, s.pass.live))
  {
    var l := s.pass.live;
    var rows2 := FinalizeRows(s.rows, l, now);
    var h2 := Settle(s.hist, l);
    SettleFacts(s.hist, l);
    forall n | n in h2.fate && 0 <= n < |h2.log| && h2.fate[n] == Delivered
      ensures h2.log[n].payload.CreateMailbox? ==> CreateSettled(s.me, rows2, h2, n)
      ensures h2.log[n].payload.MoveMessages? ==> MoveSettled(s.server, h2, n)
      ensures IsChange(h2.log[n].payload) ==> ChangeSettled(s.server, h2, n)
    {
      if Settles(s.hist.log, l, n) {
        if s.hist.log[n].payload.CreateMailbox? { CreateSettles(s.me, s.rows, rows2, s.server, s.hist, h2, l, n); }
        if s.hist.log[n].payload.MoveMessages? { MoveSettles(s.me, s.rows, s.server, s.hist, h2, l, n); }
        if IsChange(s.hist.log[n].payload) { ChangeSettles(s.me, s.rows, s.server, s.hist, h2, l, n); }
      } else {
        StaysSettled(s.me, s.rows, rows2, s.server, s.hist, h2, n);
      }
    }
  }

  lemma StaysSettled(me: int, rows: Table, rows2: Table, v: MailServer, h: Hist, h2: Hist, n: int)
    requires SettledOK(me, rows, v, h) && Thins(rows, rows2) && h2.log == h.log && h2.bound == h.bound
    requires n in h.fate && h.fate[n] == Delivered && 0 <= n < |h.log|
    requires n in h.since ==> n in h2.since && h2.since[n] == h.since[n]
    requires n in h.sent ==> n in h2.sent && h2.sent[n] == h.sent[n]
    ensures h.log[n].payload.CreateMailbox? ==> CreateSettled(me, rows2, h2, n)
    ensures h.log[n].payload.MoveMessages? ==> MoveSettled(v, h2, n)
    ensures IsChange(h.log[n].payload) ==> ChangeSettled(v, h2, n)
  {
    if h.log[n].payload.CreateMailbox? { assert CreateSettled(me, rows, h, n); }
    if h.log[n].payload.MoveMessages? { assert MoveSettled(v, h, n); }
    if IsChange(h.log[n].payload) { assert ChangeSettled(v, h, n); }
  }

  lemma FinalizeStates(rows: Table, l: Live, now: int)
    requires l.decided.Keys == l.claimed.Keys
    ensures var rows2 := FinalizeRows(rows, l, now);
            forall id | id in rows ::
              if id in l.claimed then (id in rows2 ==> rows2[id].state == Queued)
              else id in rows2 && rows2[id] == rows[id]
  {
    assert forall id :: id in l.decided <==> id in l.claimed;
  }

  lemma FinalizeHeld(s: Sys, rows2: Table, h2: Hist)
    requires Inv(s) && s.pass.Running? && Thins(s.rows, rows2)
    requires forall id | id in s.rows ::
               if id in s.pass.live.claimed then (id in rows2 ==> rows2[id].state == Queued)
               else id in rows2 && rows2[id] == s.rows[id]
    ensures HeldOK(s.(rows := rows2, pass := Idle, hist := h2))
  {
  }

  lemma FinalizeKeeps(s: Sys, now: int)
    requires Inv(s) && Enabled(s, Finalize(now))
    ensures Inv(After(s, Finalize(now)))
  {
    var t := After(s, Finalize(now));
    FinalizeLeaves(s, now);
    SettleFacts(s.hist, s.pass.live);
    SettledPlaces(s.me, s.rows, t.rows, s.hist.log, s.hist.fate, t.hist.fate, s.pass.live);
    ThinnedRows(s.me, s.rows, t.rows, s.server, s.hist);
    FinalizeSettles(s, now);
    FinalizeStates(s.rows, s.pass.live, now);
    FinalizeHeld(s, t.rows, t.hist);
  }

  /** A recovery keeps every row, and leaves the claimed ones queued. */
  lemma RecoverStates(rows: Table, l: Live, now: int)
    requires l.decided.Keys == l.claimed.Keys
    ensures var rows2 := RecoverRows(rows, l, now);
            && rows2.Keys == rows.Keys && Thins(rows, rows2)
            && forall id | id in rows :: if id in l.claimed then rows2[id].state == Queued else rows2[id] == rows[id]
  {
    assert forall id :: id in l.decided <==> id in l.claimed;
  }

  lemma RecoverHeld(s: Sys, rows2: Table)
    requires Inv(s) && s.pass.Running? && rows2.Keys == s.rows.Keys && Thins(s.rows, rows2)
    requires forall id | id in s.rows ::
               if id in s.pass.live.claimed then rows2[id].state == Queued else rows2[id] == s.rows[id]
    ensures HeldOK(s.(rows := rows2, pass := Idle))
  {
    assert forall id :: id in rows2 ==> id in s.rows.Keys;
  }

  lemma RecoverKeeps(s: Sys, now: int)
    requires Inv(s) && Enabled(s, Recover(now))
    ensures Inv(After(s, Recover(now)))
  {
    var rows := RecoverRows(s.rows, s.pass.live, now);
    RecoverStates(s.rows, s.pass.live, now);
    RecoverHeld(s, rows);
    ThinnedCore(s.me, s.rows, rows, s.server, s.hist);
  }

  lemma StrandKeeps(s: Sys)
    requires Inv(s) && Enabled(s, Strand)
    ensures Inv(After(s, Strand))
  {
    forall id | id in s.pass.live.claimed ensures id in s.rows && s.rows[id].account == s.me {
      assert ClaimedOK(s.me, s.rows, s.server, s.hist, id, s.pass.live.claimed[id]);
    }
  }

  // ---------------------------------------------------------------- every event

  lemma CrashKeeps(s: Sys)
    requires Inv(s)
    ensures Inv(After(s, Crash))
  {
  }

  lemma StepKeepsAccount(s: Sys, e: Event)
    requires Enabled(s, e)
    ensures After(s, e).me == s.me
  {
  }

  lemma OutsideStep(s: Sys, server: MailServer)
    requires Inv(s) && Enabled(s, Outside(server))
    ensures Inv(After(s, Outside(server)))
  {
    OutsideKeeps(s, server);
  }

  lemma StepKeeps(s: Sys, e: Event)
    requires Inv(s) && Enabled(s, e)
    ensures Inv(After(s, e)) && After(s, e).me == s.me
  {
    hide *;
    StepKeepsAccount(s, e);
    match e
    case Enqueue(p, at) => EnqueueKeeps(s, p, at);
    case UndoIds(ids) => UndoKeeps(s, ids);
    case Others(rows) => OthersKeep(s, rows);
    case Outside(server) => OutsideStep(s, server);
    case Claim(ids, mailboxes, messages) => ClaimKeeps(s, ids, mailboxes, messages);
    case Create(id, box) => CreateKeeps(s, id, box);
    case Adopt(id, box) => AdoptKeeps(s, id, box);
    case Persist(id) => PersistKeeps(s, id);
    case Page(id) => PageKeeps(s, id);
    case Note(id) => NoteKeeps(s, id);
    case File(id, dest) => FileKeeps(s, id, dest);
    case Ack(id) => AckKeeps(s, id);
    case Decide(id, d) => DecideKeeps(s, id, d);
    case Redo(id, d) => RedoKeeps(s, id, d);
    case Finalize(now) => FinalizeKeeps(s, now);
    case Recover(now) => RecoverKeeps(s, now);
    case Strand => StrandKeeps(s);
    case Crash => CrashKeeps(s);
    case Startup => StartupKeeps(s);
  }
}
