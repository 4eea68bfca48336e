/** What several components share. */
module Common {
  datatype Option<T> = None | Some(value: T)

  /** The failure classes a backend or the store reports. */
  datatype Class = Auth | AuthRefreshFailed | NotFound | Connection | Server | Throttled
                 | SchemaVersion | StoreLocal | InstanceLocked | LocalIO
}

/** What the two ways of syncing share. */
module SyncTypes {
  import Flags

  datatype Kind = MessageKind | MailboxKind

  /** A record's payload, in the backend's vocabulary. `rest` stands for what nothing here reads. */
  datatype Fields = MessageFields(receivedAt: int, flags: Flags.Bits, mailboxIds: seq<string>, rest: string)
                  | MailboxFields(role: string, name: string, counts: (int, int, int))

  function KindOf(fields: Fields): Kind { if fields.MessageFields? then MessageKind else MailboxKind }

  /** What a server, or the local store, holds: each record under its server id. */
  type Truth = map<string, Fields>

  datatype Rec = Rec(id: string, fields: Fields)

  /** How many records one bulk transaction may write. */
  const BULK_CHUNK: nat := 50
}
