/** What a claim reads of the store, and how it stays with an intent to its end: the server ids it acts on
    are those of the very rows its payload names. */
module OutboxClaims {
  import opened OutboxRows
  import opened OutboxMachine
  import opened OutboxInvariant
  import opened OutboxSteps

  /** Row `id` of a table is there and has a server id. */
  predicate HasId(table: map<int, string>, id: int) { id in table && table[id] != "" }

  /** Every store row payload p has to be resolved by has a server id. A destination or a parent named by a
      queued create, or replaced by a server id already, needs none. */
  predicate Resolvable(p: Payload, read: StoreIds) {
    match p
    case CreateMailbox(_, parentMailbox, _, parentServer, _) =>
      parentServer != "" || parentMailbox == 0 || HasId(read.mailboxes, parentMailbox)
    case RenameMailbox(mailbox, _) => HasId(read.mailboxes, mailbox)
    case DeleteMailbox(mailbox) => HasId(read.mailboxes, mailbox)
    case MoveMessages(messages, destMailbox, _, destServer, _) =>
      && (forall m | m in messages :: HasId(read.messages, m))
      && (destServer != "" || destMailbox == 0 || HasId(read.mailboxes, destMailbox))
    case UnknownKind(_) => true
  }

  /** What the tables or the payload itself say about one place a payload names. */
  predicate Place(read: StoreIds, mailbox: int, server: string, got: string) {
    if server != "" then got == server
    else if mailbox == 0 then got == ""
    else mailbox in read.mailboxes && got == read.mailboxes[mailbox]
  }

  /** Claim c is failed in advance exactly when a row it needs has no server id, and otherwise holds the
      server id of each row its payload names. */
  predicate Reads(c: Claimed, read: StoreIds) {
    && (c.preFailed <==> !Resolvable(c.payload, read))
    && (!c.preFailed ==>
          match c.payload
          case CreateMailbox(_, parentMailbox, _, parentServer, _) =>
            Place(read, parentMailbox, parentServer, c.parent)
          case RenameMailbox(mailbox, _) => c.mailbox == read.mailboxes[mailbox]
          case DeleteMailbox(mailbox) => c.mailbox == read.mailboxes[mailbox]
          case MoveMessages(messages, destMailbox, _, destServer, _) =>
            && Place(read, destMailbox, destServer, c.dest)
            && (forall m | m in c.messageIds :: m in messages)
            && (forall m | m in messages ::
                  m in c.messageIds && m in read.messages && c.messageIds[m] == read.messages[m])
          case UnknownKind(_) => true)
  }

  /** Claim c is of row r: nothing of the row is lost or made up on the way. */
  predicate CopiesRow(id: int, r: Row, c: Claimed) {
    && c.id == id && c.serial == r.serial && c.payload == r.payload && c.attempts == r.attempts
    && c.lastClass == r.lastClass
  }

  lemma ClaimReads(id: int, r: Row, read: StoreIds)
    ensures Reads(ResolveClaim(id, r, read.mailboxes, read.messages), read)
    ensures CopiesRow(id, r, ResolveClaim(id, r, read.mailboxes, read.messages))
  {
  }

  // ---------------------------------------------------------------- to the intent's end

  /** A move into a mailbox of the store is filed where its claim resolved that mailbox to. */
  predicate FiledAsRead(c: Claimed, dest: string) {
    c.payload.MoveMessages? && (c.payload.Ref() == 0 ==> dest == c.dest)
  }

  predicate LiveReads(rows: Table, l: Live) {
    && (forall id | id in l.claimed :: Reads(l.claimed[id], l.read))
    && (forall id | id in l.claimed ::
          id in rows && rows[id].attempts == l.claimed[id].attempts && rows[id].lastClass == l.claimed[id].lastClass)
    && (forall id | id in l.filed :: id in l.claimed && FiledAsRead(l.claimed[id], l.filed[id]))
    && (forall id | id in l.acked :: id in l.claimed && !l.claimed[id].preFailed)
  }

  /** A delivered intent acted on the mailbox, and filed the messages, whose rows its payload names. */
  predicate SentAsRead(p: Payload, s: Sent) {
    match p
    case MoveMessages(messages, destMailbox, _, _, _) =>
      && (forall m | m in messages ::
            HasId(s.read.messages, m) && m in s.messageIds && s.messageIds[m] == s.read.messages[m])
      && (destMailbox != 0 ==> HasId(s.read.mailboxes, destMailbox) && s.dest == s.read.mailboxes[destMailbox])
    case RenameMailbox(mailbox, _) => HasId(s.read.mailboxes, mailbox) && s.dest == s.read.mailboxes[mailbox]
    case DeleteMailbox(mailbox) => HasId(s.read.mailboxes, mailbox) && s.dest == s.read.mailboxes[mailbox]
    case _ => true
  }

  predicate HistReads(h: Hist) {
    forall n | 0 <= n < |h.log| && n in h.fate && h.fate[n] == Delivered && n in h.sent ::
      SentAsRead(h.log[n].payload, h.sent[n])
  }

  predicate ReadsOK(s: Sys) { HistReads(s.hist) && (s.pass.Running? ==> LiveReads(s.rows, s.pass.live)) }

  lemma ClaimStartsReads(s: Sys, ids: seq<int>, mailboxes: map<int, string>, messages: map<int, string>)
    requires Enabled(s, Event.Claim(ids, mailboxes, messages)) && ReadsOK(s)
    ensures ReadsOK(After(s, Event.Claim(ids, mailboxes, messages)))
  {
    hide ResolveClaim, Reads;
    var t := After(s, Event.Claim(ids, mailboxes, messages));
    forall id | id in t.pass.live.claimed
      ensures Reads(t.pass.live.claimed[id], t.pass.live.read)
      ensures t.rows[id].attempts == t.pass.live.claimed[id].attempts
      ensures t.rows[id].lastClass == t.pass.live.claimed[id].lastClass
    {
      ClaimReads(id, s.rows[id], t.pass.live.read);
    }
  }

  /** The rows a pass claimed keep their attempts through whatever happens under it. */
  lemma HeldRowsKeep(s: Sys, e: Event, id: int)
    requires Inv(s) && Enabled(s, e) && s.pass.Running? && After(s, e).pass.Running? && id in s.pass.live.claimed
    ensures id in s.rows && id in After(s, e).rows
    ensures After(s, e).rows[id].attempts == s.rows[id].attempts
    ensures After(s, e).rows[id].lastClass == s.rows[id].lastClass
  {
    hide Core, LearnedOK, WalkOK, FiledOK, CarriedOut, Answers, Follows;
    assert ClaimedOK(s.me, s.rows, s.server, s.hist, id, s.pass.live.claimed[id]);
  }

  /** Nothing a running pass does changes what it claimed or what its claim read. */
  lemma ClaimStays(s: Sys, e: Event)
    requires Enabled(s, e) && s.pass.Running? && After(s, e).pass.Running?
    ensures After(s, e).pass.live.claimed == s.pass.live.claimed && After(s, e).pass.live.read == s.pass.live.read
    ensures After(s, e).pass.live.filed
              == if e.File? then s.pass.live.filed[e.id := e.dest] else s.pass.live.filed
    ensures After(s, e).pass.live.acked == if e.Ack? then s.pass.live.acked + {e.id} else s.pass.live.acked
    ensures After(s, e).hist.fate == if e.UndoIds? then After(s, e).hist.fate else s.hist.fate
    ensures After(s, e).hist.sent == s.hist.sent
  {
    hide PatchPage, PageAfter;
  }

  lemma LiveKeepsReads(s: Sys, e: Event)
    requires Inv(s) && Enabled(s, e) && s.pass.Running? && After(s, e).pass.Running? && LiveReads(s.rows, s.pass.live)
    ensures LiveReads(After(s, e).rows, After(s, e).pass.live)
  {
    hide After, Enabled, Inv, Reads, FiledAsRead;
    ClaimStays(s, e);
    ActsAsRead(s, e);
    var l2, rows2 := After(s, e).pass.live, After(s, e).rows;
    forall id | id in l2.claimed
      ensures id in rows2 && rows2[id].attempts == l2.claimed[id].attempts
      ensures rows2[id].lastClass == l2.claimed[id].lastClass
    {
      HeldRowsKeep(s, e, id);
    }
  }

  /** A filing goes where the claim resolved its destination to, and only a resolved claim acts. */
  lemma ActsAsRead(s: Sys, e: Event)
    requires Enabled(s, e)
    ensures e.File? ==> s.pass.Running? && e.id in s.pass.live.claimed
                        && FiledAsRead(s.pass.live.claimed[e.id], e.dest)
    ensures e.Ack? ==> s.pass.Running? && e.id in s.pass.live.claimed && !s.pass.live.claimed[e.id].preFailed
  {
  }

  /** What a delivery leaves in the history is what its claim read. */
  lemma SettledAsRead(s: Sys, n: int)
    requires Inv(s) && s.pass.Running? && LiveReads(s.rows, s.pass.live) && Delivers(s.hist.log, s.pass.live, n)
    requires Sends(s.pass.live, s.hist.log[n].id)
    ensures SentAsRead(s.hist.log[n].payload, SentBy(s.pass.live, s.hist.log[n].id))
  {
    hide LearnedOK, WalkOK, CarriedOut, Answers, SettledOK, RowsFollow, BoundOK, RefsOK, Placed;
    var id := s.hist.log[n].id;
    var c := s.pass.live.claimed[id];
    assert ClaimedOK(s.me, s.rows, s.server, s.hist, id, c) && Reads(c, s.pass.live.read);
    assert Follows(s.server, s.hist.log, s.hist.bound, n, c.payload);
    if id in s.pass.live.filed {
      assert FiledOK(s.server, s.hist, c, s.pass.live.filed[id]) && FiledAsRead(c, s.pass.live.filed[id]);
    } else {
      AckedIsChange(s, id);
    }
  }

  lemma AckedIsChange(s: Sys, id: int)
    requires Inv(s) && s.pass.Running? && id in s.pass.live.acked
    ensures id in s.pass.live.claimed && IsChange(s.pass.live.claimed[id].payload)
  {
    assert CarriedOut(s.server, s.pass.live.claimed[id].payload, s.pass.live.claimed[id].mailbox);
  }

  /** Delivered with nothing sent is a create. */
  lemma UnsentIsNeither(s: Sys, n: int)
    requires Inv(s) && s.pass.Running? && Delivers(s.hist.log, s.pass.live, n)
    requires !Sends(s.pass.live, s.hist.log[n].id)
    ensures !s.hist.log[n].payload.MoveMessages? && !IsChange(s.hist.log[n].payload)
  {
    hide LearnedOK, WalkOK, CarriedOut, Answers, SettledOK, RowsFollow, BoundOK, RefsOK, Placed, FiledOK;
    var id := s.hist.log[n].id;
    assert ClaimedOK(s.me, s.rows, s.server, s.hist, id, s.pass.live.claimed[id]);
    assert Follows(s.server, s.hist.log, s.hist.bound, n, s.pass.live.claimed[id].payload);
  }

  lemma FinalizeKeepsReads(s: Sys, now: int)
    requires Inv(s) && Enabled(s, Event.Finalize(now)) && ReadsOK(s)
    ensures ReadsOK(After(s, Event.Finalize(now)))
  {
    hide Settle, Settles, Delivers, Sends, SentBy, LiveReads, Inv;
    var t := After(s, Event.Finalize(now));
    SettleFacts(s.hist, s.pass.live);
    forall n | 0 <= n < |t.hist.log| && n in t.hist.fate && t.hist.fate[n] == Delivered && n in t.hist.sent
      ensures SentAsRead(t.hist.log[n].payload, t.hist.sent[n])
    {
      SettledOrBefore(s.hist, s.pass.live, n);
      if Delivers(s.hist.log, s.pass.live, n) {
        if Sends(s.pass.live, s.hist.log[n].id) { SettledAsRead(s, n); } else { UnsentIsNeither(s, n); }
      }
    }
  }

  /** A delivered intent is delivered now, by what was sent, or was before. */
  lemma SettledOrBefore(h: Hist, l: Live, n: int)
    requires var h2 := Settle(h, l); n in h2.fate && h2.fate[n] == Delivered && n in h2.sent
    ensures var h2 := Settle(h, l);
            if Delivers(h.log, l, n) then Sends(l, h.log[n].id) ==> h2.sent[n] == SentBy(l, h.log[n].id)
            else n in h.fate && h.fate[n] == Delivered && n in h.sent && h2.sent[n] == h.sent[n]
  {
    SettleFacts(h, l);
    if Delivers(h.log, l, n) { assert Settles(h.log, l, n); }
  }

  /** Every event keeps what is said here of claims and of what they led to. */
  lemma StepKeepsReads(s: Sys, e: Event)
    requires Inv(s) && Enabled(s, e) && ReadsOK(s)
    ensures ReadsOK(After(s, e))
  {
    hide Inv, SentAsRead, LiveReads;
    if e.Claim? {
      ClaimStartsReads(s, e.ids, e.mailboxes, e.messages);
    } else if e.Finalize? {
      FinalizeKeepsReads(s, e.now);
    } else {
      if s.pass.Running? && After(s, e).pass.Running? { LiveKeepsReads(s, e); }
      NoDelivery(s, e);
    }
  }

  lemma NoDelivery(s: Sys, e: Event)
    requires Inv(s) && Enabled(s, e) && !e.Finalize? && HistReads(s.hist)
    ensures HistReads(After(s, e).hist)
    ensures After(s, e).pass.Running? ==> s.pass.Running? || e.Claim?
  {
    hide SentAsRead, PatchPage, PageAfter, LiveOK, HeldOK, SettledOK, RowsFollow, RefsOK, BoundOK;
    var h, h2 := s.hist, After(s, e).hist;
    forall n | 0 <= n < |h2.log| && n in h2.fate && h2.fate[n] == Delivered && n in h2.sent
      ensures SentAsRead(h2.log[n].payload, h2.sent[n])
    {
      assert n in h.fate && h.fate[n] == Delivered && n in h.sent && h2.log[n] == h.log[n];
    }
  }
}
