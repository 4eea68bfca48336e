/** The outbox as a protocol: every transaction, every backend answer and every crash is one event
    of a machine whose state is the table, the server, the running pass and a history. */
module OutboxMachine {
  import opened Common
  import opened Ordered
  import opened OutboxRows
  import Backoff

  const CLAIM_MESSAGE_BUDGET: nat := 750
  const CLAIM_ROW_BUDGET: nat := 100
  const DEPENDENT_REF_PAGE: nat := 100

  // ---------------------------------------------------------------- state

  datatype Box = Box(name: string, parent: string)

  /** The account's mailboxes on the server. `ever` holds every mailbox id the server has used,
      `touched` those somebody renamed, moved or deleted, `filings` each (message, mailbox) pair an
      update of this client's put there, and `renames` each (mailbox, name) one gave. */
  datatype MailServer = MailServer(boxes: map<string, Box>, ever: set<string>, touched: set<string>,
                                   filings: set<(string, string)>, renames: set<(string, string)>)

  /** A claimed row, with the server ids its claim transaction could resolve. */
  datatype Claimed = Claimed(id: int, serial: int, payload: Payload, attempts: nat, lastClass: Option<Class>,
                             messageIds: map<int, string>, dest: string, mailbox: string, parent: string,
                             preFailed: bool)

  /** What the pass decided about a claimed row. Revert is the row it never attempted. */
  datatype Decision = Deliver | Retry(failure: Class, detail: string) | GiveUp(failure: Class, detail: string) | Revert
  {
    predicate Terminal() { Deliver? || GiveUp? }
  }

  /** The mailbox id a create call answered or adopted, and the parent the call named. */
  datatype Bound = Bound(id: string, parent: string)

  /** The reference walk of one create: its cursor, the number of intents born before it began,
      and whether it has seen the empty page that ends it. */
  datatype Walk = Walk(after: int, since: nat, done: bool)

  /** The server ids the store's mailbox and message rows have, by row id. */
  datatype StoreIds = StoreIds(mailboxes: map<int, string>, messages: map<int, string>)

  /** A pass between its claim and its finalize: Go's local variables and what they know. `again` holds
      the second outcome of a row whose own turn came before the batch that carries it, and `read` the
      tables the claim read. */
  datatype Live = Live(claimed: map<int, Claimed>, learned: map<int, Bound>, resolved: map<int, string>,
                       walks: map<int, Walk>, filed: map<int, string>, acked: set<int>,
                       decided: map<int, Decision>, again: map<int, Decision>, read: StoreIds)

  datatype Pass = Down | Idle | Running(live: Live)

  datatype Fate = Annihilated | Delivered | Failed

  /** An enqueued intent: the row id it got, its payload, and the serial of the queued create it
      names, or -1 if it names none. */
  datatype Intent = Intent(id: int, payload: Payload, ref: int)

  /** The mailbox a delivered intent acted on, the messages it filed there, and the tables its claim read. */
  datatype Sent = Sent(dest: string, messageIds: map<int, string>, read: StoreIds)

  datatype Hist = Hist(log: seq<Intent>, fate: map<int, Fate>, bound: map<int, Bound>,
                       since: map<int, nat>, sent: map<int, Sent>)

  /** `walked` holds, for each create, the intents whose rows some page of its walks has examined since
      they were last written with a reference. */
  datatype Sys = Sys(me: int, rows: Table, server: MailServer, pass: Pass, stranded: set<int>, hist: Hist,
                     walked: map<int, set<int>>)

  predicate Initial(s: Sys) {
    s.rows == map[] && s.pass == Idle && s.stranded == {} && s.hist == Hist([], map[], map[], map[], map[])
    && s.walked == map[] && ServerOK(s.server)
  }

  // ---------------------------------------------------------------- the server

  /** RFC 8621 section 2: no two siblings share a name. */
  predicate UniqueSiblings(boxes: map<string, Box>) {
    forall x, y | x in boxes && y in boxes && boxes[x] == boxes[y] :: x == y
  }

  predicate ServerOK(v: MailServer) {
    UniqueSiblings(v.boxes) && v.boxes.Keys <= v.ever && "" !in v.ever
  }

  /** What any other client, any rename or delete, and any request whose answer is lost may do:
      the server keeps its own rules, never reuses an id, and only a touched mailbox changes. */
  predicate Drift(v: MailServer, w: MailServer) {
    && ServerOK(w)
    && v.ever <= w.ever && v.touched <= w.touched && v.filings <= w.filings && v.renames <= w.renames
    && (forall x | x in v.boxes && x !in w.touched :: x in w.boxes && w.boxes[x] == v.boxes[x])
    && (forall x | x in w.boxes && x !in v.boxes :: x !in v.ever)
  }

  /** FindMailboxes' answer: the ids of exactly that name under exactly that parent. */
  function Matches(v: MailServer, box: Box): set<string> {
    set x | x in v.boxes && v.boxes[x] == box
  }

  // ---------------------------------------------------------------- claim

  /** The message point queries claiming p runs. */
  function ClaimCost(p: Payload): nat { if p.MoveMessages? then |p.messages| else 1 }

  function TotalCost(rows: Table, ids: seq<int>): nat
    requires forall i | 0 <= i < |ids| :: ids[i] in rows
  {
    if ids == [] then 0
    else TotalCost(rows, ids[..|ids| - 1]) + ClaimCost(rows[ids[|ids| - 1]].payload)
  }

  function Lookup(m: map<int, string>, id: int): string { if id in m then m[id] else "" }

  /** A claim's reading of r's referents in the mailbox and message tables. */
  function ResolveClaim(id: int, r: Row, mailboxes: map<int, string>, messages: map<int, string>): Claimed {
    var c := Claimed(id, r.serial, r.payload, r.attempts, r.lastClass, map[], "", "", "", false);
    match r.payload
    case CreateMailbox(_, parentMailbox, _, parentServer, _) =>
      if parentServer != "" then c.(parent := parentServer)
      else if parentMailbox == 0 then c
      else if Lookup(mailboxes, parentMailbox) == "" then c.(preFailed := true)
      else c.(parent := Lookup(mailboxes, parentMailbox))
    case RenameMailbox(mailbox, _) =>
      if Lookup(mailboxes, mailbox) == "" then c.(preFailed := true) else c.(mailbox := Lookup(mailboxes, mailbox))
    case DeleteMailbox(mailbox) =>
      if Lookup(mailboxes, mailbox) == "" then c.(preFailed := true) else c.(mailbox := Lookup(mailboxes, mailbox))
    case MoveMessages(ids, destMailbox, _, destServer, _) =>
      if exists m | m in ids :: Lookup(messages, m) == "" then c.(preFailed := true)
      else
        var d := c.(messageIds := map m | m in ids :: Lookup(messages, m));
        if destServer != "" then d.(dest := destServer)
        else if destMailbox == 0 then d
        else if Lookup(mailboxes, destMailbox) == "" then d.(preFailed := true)
        else d.(dest := Lookup(mailboxes, destMailbox))
    case UnknownKind(_) => c
  }

  function ClaimRows(rows: Table, ids: set<int>): Table {
    map id | id in rows :: if id in ids then rows[id].(state := Dispatching) else rows[id]
  }

  // ---------------------------------------------------------------- dispatch

  /** The parent a create call names: the claim's, or the one this pass resolved for its
      reference, or the root. */
  function ParentFor(c: Claimed, resolved: map<int, string>): string {
    if c.parent != "" then c.parent
    else if c.payload.Ref() != 0 && c.payload.Ref() in resolved then resolved[c.payload.Ref()]
    else ""
  }

  /** Where a move may file: its own destination, or what this pass knows about its reference,
      whether recorded in resolvedCreates or fresh from the batch that carries the create. */
  predicate MayFileInto(l: Live, c: Claimed, dest: string) {
    && dest != ""
    && (dest == c.dest
        || (c.dest == "" && c.payload.Ref() != 0
            && ((c.payload.Ref() in l.resolved && dest == l.resolved[c.payload.Ref()])
                || (c.payload.Ref() in l.learned && dest == l.learned[c.payload.Ref()].id))))
  }

  /** The server carries out rename or delete c: RFC 8621 section 2.5 refuses a rename onto a sibling's
      name and a delete of a mailbox with children, and a delete of one already gone succeeds. */
  predicate Allows(v: MailServer, c: Claimed) {
    && c.mailbox != ""
    && match c.payload
       case RenameMailbox(_, newName) =>
         && c.mailbox in v.boxes
         && forall y | y in v.boxes && y != c.mailbox :: v.boxes[y] != Box(newName, v.boxes[c.mailbox].parent)
       case DeleteMailbox(_) => forall y | y in v.boxes :: v.boxes[y].parent != c.mailbox
       case _ => false
  }

  /** The server after it. The id came from this server, so it is one of those it has used. */
  function Changed(v: MailServer, c: Claimed): MailServer
    requires Allows(v, c)
  {
    match c.payload
    case RenameMailbox(_, newName) =>
      v.(boxes := v.boxes[c.mailbox := Box(newName, v.boxes[c.mailbox].parent)],
         touched := v.touched + {c.mailbox}, renames := v.renames + {(c.mailbox, newName)})
    case DeleteMailbox(_) =>
      v.(boxes := v.boxes - {c.mailbox}, ever := v.ever + {c.mailbox}, touched := v.touched + {c.mailbox})
  }

  function FilingsOf(c: Claimed, dest: string): set<(string, string)>
    requires c.payload.MoveMessages?
  {
    set m | m in c.payload.messages && m in c.messageIds :: (c.messageIds[m], dest)
  }

  // ---------------------------------------------------------------- finalize

  /** The row a finalize leaves of r, for a decision that keeps it. */
  function Finalized(r: Row, c: Claimed, d: Decision, now: int): Row {
    match d
    case Retry(failure, detail) => Requeued(r, now + Backoff.Delay(c.attempts) / Backoff.SECOND, failure, detail)
    case _ => Reverted(r)
  }

  function FinalizeRows(rows: Table, l: Live, now: int): Table
    requires l.decided.Keys <= l.claimed.Keys
  {
    map id | id in rows && !(id in l.decided && l.decided[id].Terminal()) ::
      if id in l.decided then Finalized(rows[id], l.claimed[id], l.decided[id], now) else rows[id]
  }

  /** The recovery after a failed finalize: every claimed row back to queued, a retry keeping its
      backoff and class but not its detail. A second outcome is replayed after the first. */
  function RecoverRows(rows: Table, l: Live, now: int): Table
    requires l.decided.Keys <= l.claimed.Keys
  {
    map id | id in rows ::
      if id !in l.decided then rows[id]
      else if id in l.again && l.again[id].Retry? then
        Recovered(rows[id], now + Backoff.Delay(l.claimed[id].attempts) / Backoff.SECOND, l.again[id].failure)
      else if l.decided[id].Retry? then
        Recovered(rows[id], now + Backoff.Delay(l.claimed[id].attempts) / Backoff.SECOND, l.decided[id].failure)
      else Reverted(rows[id])
  }

  /** Intent n is claimed by l, and its decision is final. */
  predicate Settles(log: seq<Intent>, l: Live, n: int) {
    && 0 <= n < |log| && log[n].id in l.claimed && l.claimed[log[n].id].serial == n
    && log[n].id in l.decided && l.decided[log[n].id].Terminal()
  }

  predicate Delivers(log: seq<Intent>, l: Live, n: int) {
    Settles(log, l, n) && l.decided[log[n].id].Deliver?
  }

  predicate Sends(l: Live, id: int) { id in l.claimed && (id in l.filed || id in l.acked) }

  function SentBy(l: Live, id: int): Sent
    requires Sends(l, id)
  {
    if id in l.filed then Sent(l.filed[id], l.claimed[id].messageIds, l.read)
    else Sent(l.claimed[id].mailbox, map[], l.read)
  }

  function Settle(h: Hist, l: Live): Hist {
    h.(fate := h.fate + map n | 0 <= n < |h.log| && Settles(h.log, l, n) ::
                          if Delivers(h.log, l, n) then Delivered else Failed,
       since := h.since + map n | 0 <= n < |h.log| && Delivers(h.log, l, n) && h.log[n].id in l.walks ::
                            l.walks[h.log[n].id].since,
       sent := h.sent + map n | 0 <= n < |h.log| && Delivers(h.log, l, n) && Sends(l, h.log[n].id) ::
                          SentBy(l, h.log[n].id))
  }

  // ---------------------------------------------------------------- events

  /** What an Enqueue call hands over: no server id yet, and exactly one destination for a move.
      Nothing checks the reference: it may dangle. */
  predicate Born(p: Payload) {
    && p.Patched() == ""
    && (p.CreateMailbox? ==> p.resolved == "")
    && (p.MoveMessages? ==> (p.destMailbox == 0) != (p.destRef == 0))
  }

  /** Row k is a queued create of this account. */
  predicate IsCreate(me: int, rows: Table, k: int) {
    k in rows && rows[k].account == me && rows[k].payload.CreateMailbox?
  }

  /** p's reference, if it has one, names a create that is in the table now. */
  predicate Anchors(s: Sys, p: Payload) { p.Ref() != 0 ==> IsCreate(s.me, s.rows, p.Ref()) }

  datatype Event =
    | Enqueue(payload: Payload, at: int)
    | UndoIds(ids: seq<int>)
    | Others(rows: Table)
    | Outside(server: MailServer)
    | Claim(ids: seq<int>, mailboxes: map<int, string>, messages: map<int, string>)
    | Create(id: int, box: string)
    | Adopt(id: int, box: string)
    | Persist(id: int)
    | Page(id: int)
    | Note(id: int)
    | File(id: int, dest: string)
    | Ack(id: int)
    | Decide(id: int, decision: Decision)
    | Redo(id: int, decision: Decision)
    | Finalize(now: int)
    | Recover(now: int)
    | Strand
    | Crash
    | Startup

  /** Another account's dispatcher, sync or enqueue: its own rows only, a new row above every id. */
  predicate OthersMay(s: Sys, rows: Table) {
    && (forall id | id in s.rows && s.rows[id].account == s.me :: id in rows && rows[id] == s.rows[id])
    && (forall id | id in rows && rows[id].account == s.me :: id in s.rows && s.rows[id].account == s.me)
    && (forall id | id in rows && id !in s.rows :: id >= NextId(s.rows.Keys))
  }

  /** c is claimed and this pass has not decided it. */
  predicate Open(s: Sys, id: int) {
    s.pass.Running? && id in s.pass.live.claimed && id !in s.pass.live.decided
  }

  /** Row id was given up at its own turn, for the row its reference names comes later; and that row's
      batch may carry it all the same. */
  predicate MayReturn(l: Live, id: int) {
    && id in l.claimed && l.claimed[id].payload.MoveMessages? && l.claimed[id].payload.Ref() > id
    && id in l.decided && l.decided[id].GiveUp? && id !in l.again
  }

  predicate MayCall(s: Sys, id: int) { Open(s, id) || (s.pass.Running? && MayReturn(s.pass.live, id)) }

  /** The server id a create's claimed copy or this pass's own call gives it. */
  function Known(l: Live, id: int): string
    requires id in l.claimed && l.claimed[id].payload.CreateMailbox?
  {
    if id in l.learned then l.learned[id].id else l.claimed[id].payload.resolved
  }

  predicate OpenCreate(s: Sys, id: int) { Open(s, id) && s.pass.live.claimed[id].payload.CreateMailbox? }

  predicate CallsCreate(s: Sys, id: int) {
    OpenCreate(s, id) && !s.pass.live.claimed[id].preFailed
    && s.pass.live.claimed[id].payload.resolved == "" && id !in s.pass.live.learned
  }

  function AskedBox(s: Sys, id: int): Box
    requires OpenCreate(s, id)
  {
    Box(s.pass.live.claimed[id].payload.name, ParentFor(s.pass.live.claimed[id], s.pass.live.resolved))
  }

  predicate MayDeliver(l: Live, c: Claimed) {
    match c.payload
    case CreateMailbox(_, _, _, _, _) => c.id in l.walks && l.walks[c.id].done
    case MoveMessages(_, _, _, _, _) => c.id in l.filed
    case RenameMailbox(_, _) => c.id in l.acked
    case DeleteMailbox(_) => c.id in l.acked
    case UnknownKind(_) => false
  }

  predicate Enabled(s: Sys, e: Event) {
    match e
    case Enqueue(payload, _) => Born(payload)
    case UndoIds(_) => true
    case Others(rows) => OthersMay(s, rows)
    case Outside(server) => Drift(s.server, server)
    case Claim(ids, _, _) =>
      && s.pass == Idle
      && (forall id | id in ids :: id in s.rows && s.rows[id].account == s.me && s.rows[id].state == Queued)
    case Create(id, box) =>
      CallsCreate(s, id) && box != "" && box !in s.server.ever && Matches(s.server, AskedBox(s, id)) == {}
    case Adopt(id, box) => CallsCreate(s, id) && Matches(s.server, AskedBox(s, id)) == {box}
    case Persist(id) => OpenCreate(s, id) && id in s.pass.live.learned && id in s.rows
    case Page(id) =>
      && OpenCreate(s, id) && id in s.rows && s.rows[id].payload.CreateMailbox? && s.rows[id].payload.resolved != ""
      && (id in s.pass.live.walks ==> !s.pass.live.walks[id].done)
    case Note(id) => OpenCreate(s, id) && Known(s.pass.live, id) != ""
    case File(id, dest) =>
      && MayCall(s, id) && s.pass.live.claimed[id].payload.MoveMessages? && !s.pass.live.claimed[id].preFailed
      && MayFileInto(s.pass.live, s.pass.live.claimed[id], dest)
    case Ack(id) => Open(s, id) && !s.pass.live.claimed[id].preFailed && Allows(s.server, s.pass.live.claimed[id])
    case Decide(id, decision) => Open(s, id) && (decision.Deliver? ==> MayDeliver(s.pass.live, s.pass.live.claimed[id]))
    case Redo(id, decision) =>
      && s.pass.Running? && MayReturn(s.pass.live, id) && !decision.Revert?
      && (decision.Deliver? ==> MayDeliver(s.pass.live, s.pass.live.claimed[id]))
    case Finalize(_) => s.pass.Running? && s.pass.live.decided.Keys == s.pass.live.claimed.Keys
    case Recover(_) => s.pass.Running? && s.pass.live.decided.Keys == s.pass.live.claimed.Keys
    case Strand => s.pass.Running? && s.pass.live.decided.Keys == s.pass.live.claimed.Keys
    case Crash => true
    case Startup => s.pass == Down
  }

  function WithLive(s: Sys, l: Live): Sys { s.(pass := Running(l)) }

  function BornRow(s: Sys, p: Payload, at: int): Row {
    Row(s.me, p, Queued, 0, at, None, "", |s.hist.log|)
  }

  function RefSerial(s: Sys, p: Payload): int {
    if p.Ref() != 0 && IsCreate(s.me, s.rows, p.Ref()) then s.rows[p.Ref()].serial else -1
  }

  function AfterPage(s: Sys, id: int): Sys
    requires Enabled(s, Page(id))
  {
    var l := s.pass.live;
    var walk := if id in l.walks then l.walks[id] else Walk(0, |s.hist.log|, false);
    var page := PageAfter(s.rows, walk.after, DEPENDENT_REF_PAGE);
    if page == [] then WithLive(s, l.(walks := l.walks[id := walk.(done := true)]))
    else
      WithLive(s, l.(walks := l.walks[id := walk.(after := page[|page| - 1])]))
        .(rows := PatchPage(s.rows, page, s.me, id, s.rows[id].payload.resolved),
          walked := s.walked[s.rows[id].serial := WalkedOf(s, s.rows[id].serial) + Examined(s, page, id)])
  }

  function WalkedOf(s: Sys, n: int): set<int> { if n in s.walked then s.walked[n] else {} }

  /** The intents a page of create id's walk examines: the account's rows of the page, but its own. */
  function Examined(s: Sys, page: seq<int>, id: int): set<int> {
    set k | k in page && k in s.rows && s.rows[k].account == s.me && k != id :: s.rows[k].serial
  }

  /** Intent n's row is one of those an Undo of ids deletes. */
  predicate CaughtSerial(s: Sys, ids: seq<int>, n: int) {
    && 0 <= n < |s.hist.log| && s.hist.log[n].id in Caught(s.rows, ids)
    && s.rows[s.hist.log[n].id].account == s.me && s.rows[s.hist.log[n].id].serial == n
  }

  /** The state after e. */
  function After(s: Sys, e: Event): Sys
    requires Enabled(s, e)
  {
    match e
    case Enqueue(payload, at) =>
      var id := NextId(s.rows.Keys);
      s.(rows := s.rows[id := BornRow(s, payload, at)],
         hist := s.hist.(log := s.hist.log + [Intent(id, payload, RefSerial(s, payload))]))
    case UndoIds(ids) =>
      s.(rows := s.rows - Caught(s.rows, ids),
         hist := s.hist.(fate := s.hist.fate + map n | 0 <= n < |s.hist.log| && CaughtSerial(s, ids, n) :: Annihilated))
    case Others(rows) => s.(rows := rows)
    case Outside(server) => s.(server := server)
    case Claim(ids, mailboxes, messages) =>
      s.(rows := ClaimRows(s.rows, set id | id in ids),
         pass := Running(Live(map id | id in ids && id in s.rows :: ResolveClaim(id, s.rows[id], mailboxes, messages),
                              map[], map[], map[], map[], {}, map[], map[], StoreIds(mailboxes, messages))))
    case Create(id, box) =>
      var l := s.pass.live;
      var asked := AskedBox(s, id);
      WithLive(s, l.(learned := l.learned[id := Bound(box, asked.parent)]))
        .(server := s.server.(boxes := s.server.boxes[box := asked], ever := s.server.ever + {box}))
    case Adopt(id, box) =>
      var l := s.pass.live;
      WithLive(s, l.(learned := l.learned[id := Bound(box, AskedBox(s, id).parent)]))
    case Persist(id) =>
      var c := s.pass.live.claimed[id];
      var b := s.pass.live.learned[id];
      s.(rows := s.rows[id := s.rows[id].(payload := c.payload.(resolved := b.id))],
         hist := s.hist.(bound := s.hist.bound[c.serial := b]),
         walked := if c.payload.Ref() == 0 then s.walked else map a | a in s.walked :: s.walked[a] - {c.serial})
    case Page(id) => AfterPage(s, id)
    case Note(id) => var l := s.pass.live; WithLive(s, l.(resolved := l.resolved[id := Known(l, id)]))
    case File(id, dest) =>
      var l := s.pass.live;
      WithLive(s, l.(filed := l.filed[id := dest]))
        .(server := s.server.(filings := s.server.filings + FilingsOf(l.claimed[id], dest)))
    case Ack(id) =>
      var l := s.pass.live;
      WithLive(s, l.(acked := l.acked + {id})).(server := Changed(s.server, l.claimed[id]))
    case Decide(id, decision) =>
      var l := s.pass.live; WithLive(s, l.(decided := l.decided[id := decision]))
    case Redo(id, decision) =>
      var l := s.pass.live; WithLive(s, l.(again := l.again[id := decision]))
    case Finalize(now) =>
      s.(rows := FinalizeRows(s.rows, s.pass.live, now), pass := Idle, hist := Settle(s.hist, s.pass.live))
    case Recover(now) => s.(rows := RecoverRows(s.rows, s.pass.live, now), pass := Idle)
    case Strand => s.(pass := Idle, stranded := s.stranded + s.pass.live.claimed.Keys)
    case Crash => s.(pass := Down)
    case Startup => s.(rows := Swept(s.rows), pass := Idle, stranded := {})
  }

  // ---------------------------------------------------------------- runs

  /** s0 can run the events es to the end and stop in t. */
  predicate Runs(s: Sys, es: seq<Event>, t: Sys)
    decreases |es|
  {
    if es == [] then s == t else Enabled(s, es[0]) && Runs(After(s, es[0]), es[1..], t)
  }

  ghost predicate Reachable(t: Sys) {
    exists s, es :: Initial(s) && Runs(s, es, t)
  }
}
