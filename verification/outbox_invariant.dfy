/** What every reachable state of the outbox machine satisfies. */
module OutboxInvariant {
  import opened OutboxRows
  import opened OutboxMachine

  /** A create whose every attempt names the root as the parent. */
  predicate AtRoot(p: Payload) { p.CreateMailbox? && p.parentRef == 0 && p.parentMailbox == 0 }

  predicate IsChange(p: Payload) { p.RenameMailbox? || p.DeleteMailbox? }

  predicate HoldsId(p: Payload) { p.CreateMailbox? && p.resolved != "" }

  /** Mailbox x still is box, unless somebody renamed, moved or deleted it. */
  predicate Stands(v: MailServer, x: string, box: Box) {
    x in v.touched || (x in v.boxes && v.boxes[x] == box)
  }

  /** x is a mailbox create intent a asked for: it bears a's name, and a root create's is at the root. */
  predicate Answers(v: MailServer, log: seq<Intent>, a: int, x: string) {
    && x != "" && 0 <= a < |log| && log[a].payload.CreateMailbox?
    && (x in v.touched
        || (x in v.boxes && v.boxes[x].name == log[a].payload.name
            && (AtRoot(log[a].payload) ==> v.boxes[x].parent == "")))
  }

  predicate LogOK(log: seq<Intent>) {
    forall n | 0 <= n < |log| ::
      && log[n].id >= 1
      && log[n].payload.Patched() == ""
      && (log[n].payload.CreateMailbox? ==> log[n].payload.resolved == "")
      && (log[n].payload.MoveMessages? ==> (log[n].payload.destMailbox == 0) != (log[n].payload.destRef == 0))
      && (log[n].ref >= 0 ==>
            && log[n].payload.Ref() != 0 && log[n].ref < n && log[log[n].ref].payload.CreateMailbox?
            && log[log[n].ref].id == log[n].payload.Ref() < log[n].id)
  }

  /** Every intent is in exactly one place: a row of its own, or a fate. */
  predicate Placed(me: int, rows: Table, log: seq<Intent>, fate: map<int, Fate>) {
    && (forall id | id in rows :: id >= 1)
    && (forall n | n in fate :: 0 <= n < |log|)
    && (forall id | id in rows && rows[id].account == me ::
          0 <= rows[id].serial < |log| && log[rows[id].serial].id == id && rows[id].serial !in fate)
    && (forall n | 0 <= n < |log| && n !in fate ::
          log[n].id in rows && rows[log[n].id].account == me && rows[log[n].id].serial == n)
  }

  /** Row id's reference, as it was enqueued. If it named a queued create, any row that has the id by
      now is that create. If it dangled, no create of the account has the id, unless it is above
      row id's own: only a row born later can have captured it. */
  predicate RefOK(me: int, rows: Table, id: int, k: int, ref: int) {
    k != 0 && k in rows ==>
      if ref >= 0 then rows[k].account == me && rows[k].serial == ref else k < id ==> !IsCreate(me, rows, k)
  }

  predicate RefsOK(me: int, rows: Table, log: seq<Intent>)
    requires forall id | id in rows && rows[id].account == me :: 0 <= rows[id].serial < |log|
  {
    forall id | id in rows && rows[id].account == me ::
      RefOK(me, rows, id, log[rows[id].serial].payload.Ref(), log[rows[id].serial].ref)
  }

  /** x is a mailbox intent n's create asked for, if n named one when it was enqueued. */
  predicate Suits(v: MailServer, log: seq<Intent>, n: int, x: string)
    requires 0 <= n < |log|
  {
    log[n].ref >= 0 ==> Answers(v, log, log[n].ref, x)
  }

  /** A reference is as it was enqueued, or replaced by a mailbox its create asked for. */
  predicate Repointed(v: MailServer, log: seq<Intent>, n: int, ref: int, server: string)
    requires 0 <= n < |log|
  {
    if server == "" then ref == log[n].payload.Ref()
    else ref == 0 && log[n].payload.Ref() != 0 && Suits(v, log, n, server)
  }

  /** p is what intent n's payload may have become. */
  predicate Follows(v: MailServer, log: seq<Intent>, bound: map<int, Bound>, n: int, p: Payload)
    requires 0 <= n < |log|
  {
    var b := log[n].payload;
    match p
    case CreateMailbox(name, parentMailbox, parentRef, parentServer, resolved) =>
      && b.CreateMailbox? && name == b.name && parentMailbox == b.parentMailbox
      && Repointed(v, log, n, parentRef, parentServer)
      && (resolved != "" ==> n in bound && bound[n].id == resolved)
    case MoveMessages(messages, destMailbox, destRef, destServer, prior) =>
      && b.MoveMessages? && messages == b.messages && destMailbox == b.destMailbox && prior == b.prior
      && Repointed(v, log, n, destRef, destServer)
    case _ => p == b
  }

  predicate RowsFollow(me: int, rows: Table, v: MailServer, h: Hist)
    requires forall id | id in rows && rows[id].account == me :: 0 <= rows[id].serial < |h.log|
  {
    forall id | id in rows && rows[id].account == me :: Follows(v, h.log, h.bound, rows[id].serial, rows[id].payload)
  }

  /** Every recorded binding names the mailbox it was made for. */
  predicate BoundOK(v: MailServer, log: seq<Intent>, bound: map<int, Bound>) {
    forall n | n in bound ::
      && 0 <= n < |log| && log[n].payload.CreateMailbox? && bound[n].id != ""
      && Stands(v, bound[n].id, Box(log[n].payload.name, bound[n].parent))
      && (AtRoot(log[n].payload) ==> bound[n].parent == "")
  }

  /** No row born before `since` still waits for intent a, whose id is `id`. */
  predicate NoneWaits(me: int, rows: Table, id: int, upTo: int, all: bool, since: int) {
    forall k | k in rows && rows[k].account == me && k != id && rows[k].serial < since
                 && (all || k <= upTo) && rows[k].payload.Ref() == id :: HoldsId(rows[k].payload)
  }

  predicate ClaimedOK(me: int, rows: Table, v: MailServer, h: Hist, id: int, c: Claimed) {
    && c.id == id && id in rows && rows[id].account == me && rows[id].state == Dispatching
    && rows[id].serial == c.serial && 0 <= c.serial < |h.log| && h.log[c.serial].id == id
    && Follows(v, h.log, h.bound, c.serial, c.payload)
    && (HoldsId(c.payload) ==> HoldsId(rows[id].payload))
    && (c.payload.CreateMailbox? && AtRoot(h.log[c.serial].payload) ==> c.parent == "")
    && (c.payload.CreateMailbox? && c.payload.parentMailbox == 0 ==> c.parent == c.payload.parentServer)
    && (c.payload.MoveMessages? && !c.preFailed && h.log[c.serial].payload.Ref() != 0 ==>
        c.dest == c.payload.destServer)
    && (c.payload.MoveMessages? && !c.preFailed ==> forall m | m in c.payload.messages :: m in c.messageIds)
  }

  predicate LearnedOK(v: MailServer, h: Hist, c: Claimed, b: Bound) {
    && 0 <= c.serial < |h.log| && c.payload.CreateMailbox? && c.payload.resolved == "" && b.id != ""
    && Stands(v, b.id, Box(c.payload.name, b.parent))
    && (AtRoot(h.log[c.serial].payload) ==> b.parent == "")
  }

  predicate WalkOK(me: int, rows: Table, h: Hist, id: int, w: Walk) {
    && id in rows && HoldsId(rows[id].payload) && w.since <= |h.log|
    && NoneWaits(me, rows, id, w.after, w.done, w.since)
  }

  predicate FiledOK(v: MailServer, h: Hist, c: Claimed, dest: string) {
    && 0 <= c.serial < |h.log| && c.payload.MoveMessages? && !c.preFailed && dest != ""
    && FilingsOf(c, dest) <= v.filings && Suits(v, h.log, c.serial, dest)
  }

  /** The server carried out rename or delete p of mailbox x. A deleted mailbox never comes back. */
  predicate CarriedOut(v: MailServer, p: Payload, x: string) {
    match p
    case RenameMailbox(_, newName) => (x, newName) in v.renames && x in v.touched
    case DeleteMailbox(_) => x !in v.boxes && x in v.ever
    case _ => false
  }

  predicate LiveOK(me: int, rows: Table, v: MailServer, h: Hist, l: Live) {
    && (forall id | id in l.claimed :: ClaimedOK(me, rows, v, h, id, l.claimed[id]))
    && (forall id | id in l.learned :: id in l.claimed && LearnedOK(v, h, l.claimed[id], l.learned[id]))
    && (forall id | id in l.resolved :: id in l.claimed && Answers(v, h.log, l.claimed[id].serial, l.resolved[id]))
    && (forall id | id in l.walks :: id in l.claimed && WalkOK(me, rows, h, id, l.walks[id]))
    && (forall id | id in l.filed :: id in l.claimed && FiledOK(v, h, l.claimed[id], l.filed[id]))
    && (forall id | id in l.acked :: id in l.claimed && CarriedOut(v, l.claimed[id].payload, l.claimed[id].mailbox))
    && (forall id | id in l.decided :: id in l.claimed
          && (l.decided[id].Deliver? ==> MayDeliver(l, l.claimed[id])))
    && (forall id | id in l.again :: id in l.decided && l.decided[id].GiveUp? && !l.again[id].Revert?)
  }

  predicate CreateSettled(me: int, rows: Table, h: Hist, n: int) {
    && n in h.bound && n in h.since && h.since[n] <= |h.log|
    && forall k | k in rows && rows[k].account == me && rows[k].serial < h.since[n] && rows[k].payload.Ref() != 0
                    && 0 <= rows[k].serial < |h.log| && h.log[rows[k].serial].ref == n :: HoldsId(rows[k].payload)
  }

  predicate MoveSettled(v: MailServer, h: Hist, n: int)
    requires 0 <= n < |h.log| && h.log[n].payload.MoveMessages?
  {
    && n in h.sent && h.sent[n].dest != ""
    && (forall m | m in h.log[n].payload.messages ::
          m in h.sent[n].messageIds && (h.sent[n].messageIds[m], h.sent[n].dest) in v.filings)
    && Suits(v, h.log, n, h.sent[n].dest)
  }

  predicate ChangeSettled(v: MailServer, h: Hist, n: int)
    requires 0 <= n < |h.log|
  {
    n in h.sent && CarriedOut(v, h.log[n].payload, h.sent[n].dest)
  }

  predicate SettledOK(me: int, rows: Table, v: MailServer, h: Hist) {
    forall n | n in h.fate && 0 <= n < |h.log| && h.fate[n] == Delivered ::
      && (h.log[n].payload.CreateMailbox? ==> CreateSettled(me, rows, h, n))
      && (h.log[n].payload.MoveMessages? ==> MoveSettled(v, h, n))
      && (IsChange(h.log[n].payload) ==> ChangeSettled(v, h, n))
  }

  function ClaimedIds(p: Pass): set<int> { if p.Running? then p.live.claimed.Keys else {} }

  /** Rows sit in dispatching only under a running pass, or stranded by a failed recovery. */
  predicate HeldOK(s: Sys) {
    s.pass != Down ==>
      && s.stranded !! ClaimedIds(s.pass)
      && (forall id | id in s.stranded :: id in s.rows && s.rows[id].account == s.me)
      && (forall id | id in s.rows && s.rows[id].account == s.me ::
            s.rows[id].state == Dispatching <==> (id in s.stranded || id in ClaimedIds(s.pass)))
  }

  predicate Core(me: int, rows: Table, v: MailServer, h: Hist) {
    && LogOK(h.log) && Placed(me, rows, h.log, h.fate) && RefsOK(me, rows, h.log)
    && ServerOK(v) && BoundOK(v, h.log, h.bound) && RowsFollow(me, rows, v, h)
    && SettledOK(me, rows, v, h)
  }

  predicate Inv(s: Sys) {
    && Core(s.me, s.rows, s.server, s.hist)
    && HeldOK(s)
    && (s.pass.Running? ==> LiveOK(s.me, s.rows, s.server, s.hist, s.pass.live))
  }

  // ---------------------------------------------------------------- the server moves

  lemma FollowsStays(v: MailServer, w: MailServer, log: seq<Intent>, bound: map<int, Bound>, n: int, p: Payload)
    requires Drift(v, w) && 0 <= n < |log| && Follows(v, log, bound, n, p)
    ensures Follows(w, log, bound, n, p)
  {
  }

  lemma CoreDrifts(me: int, rows: Table, v: MailServer, w: MailServer, h: Hist)
    requires Core(me, rows, v, h) && Drift(v, w)
    ensures Core(me, rows, w, h)
  {
    assert BoundOK(w, h.log, h.bound);
    assert RowsFollow(me, rows, w, h);
    assert SettledOK(me, rows, w, h);
  }

  lemma LiveDrifts(me: int, rows: Table, v: MailServer, w: MailServer, h: Hist, l: Live)
    requires LiveOK(me, rows, v, h, l) && Drift(v, w)
    ensures LiveOK(me, rows, w, h, l)
  {
    forall id | id in l.claimed ensures ClaimedOK(me, rows, w, h, id, l.claimed[id]) {
      FollowsStays(v, w, h.log, h.bound, l.claimed[id].serial, l.claimed[id].payload);
    }
    forall id | id in l.learned ensures LearnedOK(w, h, l.claimed[id], l.learned[id]) {}
    forall id | id in l.filed ensures FiledOK(w, h, l.claimed[id], l.filed[id]) {}
    forall id | id in l.acked ensures CarriedOut(w, l.claimed[id].payload, l.claimed[id].mailbox) {}
  }
}
