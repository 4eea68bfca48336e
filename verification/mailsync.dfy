/** A flush over both kinds, and what it makes of the store: its rows and its membership table are the
    replicas', and the server's once both feeds are done. */
module MailSync {
  import opened Common
  import opened MailStore
  import opened MailWrites
  import opened RecordWrites
  import opened SyncTypes
  import DeltaSync
  import Flags

  /** By the server's records message s is in mailbox t, with that received time and unread bit. */
  predicate SaysIn(mail: Truth, folders: Truth, s: string, t: string, at: Member) {
    && s in mail && mail[s].MessageFields? && t in folders && folders[t].MailboxFields?
    && t in mail[s].mailboxIds
    && at == Member(mail[s].receivedAt, !Flags.Has(mail[s].flags, Flags.BackendBit(Flags.Seen)))
  }

  /** Message s has its row, holding what its payload says, exactly when it is there. */
  predicate MessageRow(messages: Messages, account: int, mail: Truth, s: string) {
    && (forall m | m in messages && MessageIs(messages, account, s, m) ::
          s in mail && Crosses(mail[s], RecordOf(messages[m])))
    && (s in mail && mail[s].MessageFields? ==> exists m | m in messages :: MessageIs(messages, account, s, m))
  }

  predicate BoxRow(boxes: Boxes, account: int, folders: Truth, t: string) {
    && (forall b | b in boxes && BoxIs(boxes, account, t, b) :: t in folders && BoxSays(boxes[b], folders[t]))
    && (t in folders && folders[t].MailboxFields? ==> exists b | b in boxes :: BoxIs(boxes, account, t, b))
  }

  /** The account's rows under a server id, and the associations of two, are what those records say. */
  ghost predicate Shows(boxes: Boxes, messages: Messages, members: Members, account: int, mail: Truth, folders: Truth) {
    && (forall s :: MessageRow(messages, account, mail, s))
    && (forall t :: BoxRow(boxes, account, folders, t))
    && forall s, t, at :: Associated(boxes, messages, members, account, s, t, at) <==> SaysIn(mail, folders, s, t, at)
  }

  lemma RowsAreTheReplicas(boxes: Boxes, messages: Messages, writes: seq<Write>, account: int, mail: Truth,
      folders: Truth, s: string)
    requires UniqueBoxes(boxes) && UniqueMessages(messages) && AllTrack(boxes, messages, writes)
    requires Mirrors(MessageKind, account, boxes, writes, mail) && Mirrors(MailboxKind, account, boxes, writes, folders)
    ensures MessageRow(messages, account, mail, s) && BoxRow(boxes, account, folders, s)
  {
    assert Tracks(boxes, messages, writes, account, s);
    assert MessageMirrored(writes, account, mail, s) && BoxMirrored(boxes, writes, account, folders, s);
    forall b | b in boxes && BoxIs(boxes, account, s, b) ensures s in folders && BoxSays(boxes[b], folders[s]) {
      var c :| c in boxes && BoxIs(boxes, account, s, c) && BoxSays(boxes[c], folders[s]);
      assert b == c;
    }
    if LastRecord(writes, account, s).Some? {
      var m :| m in messages && MessageIs(messages, account, s, m)
          && RecordOf(messages[m]) == LastRecord(writes, account, s).value;
      forall n | n in messages && MessageIs(messages, account, s, n) ensures n == m {}
    }
  }

  /** The membership table joins what the replicas join, whatever order their records were written in. */
  lemma AssociationsAreTheReplicas(boxes: Boxes, messages: Messages, members: Members, writes: seq<Write>, account: int,
      mail: Truth, folders: Truth, s: string, t: string, at: Member)
    requires UniqueBoxes(boxes) && UniqueMessages(messages)
    requires AllAgree(boxes, messages, members) && AllTrack(boxes, messages, writes)
    requires Mirrors(MessageKind, account, boxes, writes, mail) && Mirrors(MailboxKind, account, boxes, writes, folders)
    ensures Associated(boxes, messages, members, account, s, t, at) <==> SaysIn(mail, folders, s, t, at)
  {
    AssociationIsDetermined(boxes, messages, members, writes, account, s, t, at);
    assert MessageMirrored(writes, account, mail, s) && BoxMirrored(boxes, writes, account, folders, t);
    if s in mail && LastRecord(writes, account, s).Some? {
      var r := LastRecord(writes, account, s).value;
      assert Crosses(mail[s], r);
      assert Unread(r.flags) == !Flags.Has(mail[s].flags, Flags.BackendBit(Flags.Seen));
    }
  }

  lemma ShowsTheReplicas(boxes: Boxes, messages: Messages, members: Members, writes: seq<Write>, account: int,
      mail: Truth, folders: Truth)
    requires UniqueBoxes(boxes) && UniqueMessages(messages)
    requires AllAgree(boxes, messages, members) && AllTrack(boxes, messages, writes)
    requires Mirrors(MessageKind, account, boxes, writes, mail) && Mirrors(MailboxKind, account, boxes, writes, folders)
    ensures Shows(boxes, messages, members, account, mail, folders)
  {
    forall s: string ensures MessageRow(messages, account, mail, s) && BoxRow(boxes, account, folders, s) {
      RowsAreTheReplicas(boxes, messages, writes, account, mail, folders, s);
    }
    forall s: string, t: string, at: Member
      ensures Associated(boxes, messages, members, account, s, t, at) <==> SaysIn(mail, folders, s, t, at) {
      AssociationsAreTheReplicas(boxes, messages, members, writes, account, mail, folders, s, t, at);
    }
  }

  /** flush: one cycle of each kind, mailboxes before messages, the second whatever became of the first.
      The store then shows the two replicas, each faithful to its watermark; and once both cycles ran to
      their end over servers that have stood still since, it shows what the servers hold: so it does
      whenever both servers stood still and kept their promise in every reply. */
  method Flush(folders: DeltaSync.Worker, mail: DeltaSync.Worker)
    returns (first: DeltaSync.Outcome, second: DeltaSync.Outcome, ghost boxPages: seq<DeltaSync.Exchange>,
        ghost mailPages: seq<DeltaSync.Exchange>)
    requires folders != mail && folders.store == mail.store && folders.account == mail.account
    requires folders.kind == MailboxKind && mail.kind == MessageKind && folders.Valid() && mail.Valid()
    modifies folders, mail, mail.store
    ensures folders.Valid() && mail.Valid()
    ensures Shows(mail.store.boxes, mail.store.messages, mail.store.members, mail.account, mail.local, folders.local)
    ensures first.Done? && folders.sound && folders.mark == DeltaSync.At(|folders.snaps| - 1)
            && second.Done? && mail.sound && mail.mark == DeltaSync.At(|mail.snaps| - 1) ==>
              Shows(mail.store.boxes, mail.store.messages, mail.store.members, mail.account,
                    DeltaSync.Now(mail.snaps), DeltaSync.Now(folders.snaps))
    ensures forall i | 0 <= i < |boxPages| :: boxPages[i].seen != []
    ensures forall i | 0 <= i < |mailPages| :: mailPages[i].seen != []
    ensures first.Done? && second.Done? && old(folders.sound) && old(mail.sound)
            && folders.snaps == old(folders.snaps) && DeltaSync.AllKept(boxPages, old(folders.order))
            && mail.snaps == old(mail.snaps) && DeltaSync.AllKept(mailPages, old(mail.order)) ==>
              Shows(mail.store.boxes, mail.store.messages, mail.store.members, mail.account,
                    DeltaSync.Now(mail.snaps), DeltaSync.Now(folders.snaps))
  {
    hide Mirrors, Undisturbed, DeltaSync.Holds, DeltaSync.NoReuse, DeltaSync.Covers, DeltaSync.Faithful, Shows;
    ghost var store, account := mail.store, mail.account;
    ghost var boxes, writes := store.boxes, store.writes;
    first, boxPages := folders.SyncKind();
    MirrorUndisturbed(MailboxKind, account, boxes, writes, store.boxes, store.writes, MessageKind, account, mail.local);
    boxes, writes := store.boxes, store.writes;
    second, mailPages := mail.SyncKind();
    MirrorUndisturbed(MessageKind, account, boxes, writes, store.boxes, store.writes, MailboxKind, account,
        folders.local);
    ShowsTheReplicas(store.boxes, store.messages, store.members, store.writes, account, mail.local, folders.local);
  }
}
