/** The outbox table: its rows, and what each statement over it does. */
module OutboxRows {
  import opened Common
  import opened Ordered

  /** One intent's payload. A mailbox or message is named by its store row id, a queued create by
      its own outbox id (a Ref), and a resolved server id replaces the Ref once it is known. */
  datatype Payload =
    | CreateMailbox(name: string, parentMailbox: int, parentRef: int, parentServer: string, resolved: string)
    | RenameMailbox(mailbox: int, newName: string)
    | DeleteMailbox(mailbox: int)
    | MoveMessages(messages: seq<int>, destMailbox: int, destRef: int, destServer: string, prior: map<int, int>)
    | UnknownKind(kind: string)
  {
    /** The create intent this payload depends on, or 0. */
    function Ref(): int {
      match this
      case CreateMailbox(_, _, parentRef, _, _) => parentRef
      case MoveMessages(_, _, destRef, _, _) => destRef
      case _ => 0
    }

    /** The server id that replaced the reference, or "". */
    function Patched(): string {
      match this
      case CreateMailbox(_, _, _, parentServer, _) => parentServer
      case MoveMessages(_, _, _, destServer, _) => destServer
      case _ => ""
    }
  }

  datatype RowState = Queued | Dispatching

  /** One outbox row. `serial` is the row's birth number. The table has no such column: it exists
      so that a statement about an intent survives the reuse of its row id. */
  datatype Row = Row(account: int, payload: Payload, state: RowState, attempts: nat, nextAt: int,
                     lastClass: Option<Class>, detail: string, serial: int)

  type Table = map<int, Row>

  /** Puts a row back to queued and touches nothing else: revertRow, and the startup sweep. */
  function Reverted(r: Row): Row { r.(state := Queued) }

  function Requeued(r: Row, at: int, failure: Class, detail: string): Row {
    r.(state := Queued, attempts := r.attempts + 1, nextAt := at, lastClass := Some(failure), detail := detail)
  }

  /** requeueRow without the unbounded detail column, replayed after a failed finalize. */
  function Recovered(r: Row, at: int, failure: Class): Row {
    r.(state := Queued, attempts := r.attempts + 1, nextAt := at, lastClass := Some(failure))
  }

  /** The rows of `account` a claim may take: queued, with their hold expired. */
  function Eligible(rows: Table, account: int, now: int): set<int> {
    set id | id in rows && rows[id].account == account && rows[id].state == Queued && rows[id].nextAt <= now
  }

  /** The ids one page of the reference walk examines: at most `limit` after the cursor. */
  function PageAfter(rows: Table, after: int, limit: nat): seq<int> {
    Limit(Ascending(set id | id in rows && id > after), limit)
  }

  /** p with its reference to create replaced by serverId, if it names create at all. */
  function RewriteRef(p: Payload, create: int, serverId: string): Option<Payload> {
    match p
    case MoveMessages(_, _, destRef, _, _) =>
      if destRef != create then None else Some(p.(destRef := 0, destServer := serverId))
    case CreateMailbox(_, _, parentRef, _, _) =>
      if parentRef != create then None else Some(p.(parentRef := 0, parentServer := serverId))
    case _ => None
  }

  function PatchedRow(r: Row, account: int, id: int, create: int, serverId: string): Row {
    if r.account != account || id == create then r else
      match RewriteRef(r.payload, create, serverId)
      case None => r
      case Some(p) => r.(payload := p)
  }

  /** One page of the walk: every row of `page` that belongs to the account and names create. */
  function PatchPage(rows: Table, page: seq<int>, account: int, create: int, serverId: string): Table {
    map id | id in rows ::
      if id in page then PatchedRow(rows[id], account, id, create, serverId) else rows[id]
  }

  /** The rows an Undo of ids deletes: those still queued. */
  function Caught(rows: Table, ids: seq<int>): set<int> {
    set id | id in ids && id in rows && rows[id].state == Queued
  }

  /** Every row left in dispatching goes back to queued, whatever account it belongs to. */
  function Swept(rows: Table): Table {
    map id | id in rows :: if rows[id].state == Dispatching then Reverted(rows[id]) else rows[id]
  }
}
