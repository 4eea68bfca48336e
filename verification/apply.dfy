/** Records written into the local store: each chunk of a page is one transaction over its tables. */
module RecordWrites {
  import opened Common
  import opened SyncTypes
  import opened MailStore
  import opened MailWrites
  import Flags

  // ---------------------------------------------------------------- a replica, record by record

  predicate Same(a: Truth, b: Truth, id: string) { (id in a <==> id in b) && (id in a ==> a[id] == b[id]) }

  lemma SameTruth(a: Truth, b: Truth)
    requires forall id :: Same(a, b, id)
    ensures a == b
  {
    forall id: string ensures id in a <==> id in b { assert Same(a, b, id); }
    forall id: string | id in b ensures a[id] == b[id] { assert Same(a, b, id); }
  }

  function Put(local: Truth, rec: Rec): Truth { local[rec.id := rec.fields] }

  function PutAll(local: Truth, recs: seq<Rec>): Truth {
    if recs == [] then local else Put(PutAll(local, recs[..|recs| - 1]), recs[|recs| - 1])
  }

  function DropAll(local: Truth, ids: seq<string>): Truth { local - set id | id in ids }

  lemma DropNone(local: Truth)
    ensures DropAll(local, []) == local
  {
    forall id: string ensures Same(DropAll(local, []), local, id) {}
    SameTruth(DropAll(local, []), local);
  }

  lemma DropOneMore(local: Truth, ids: seq<string>, k: nat)
    requires k < |ids|
    ensures DropAll(local, ids[..k + 1]) == DropAll(local, ids[..k]) - {ids[k]}
  {
    assert ids[..k + 1] == ids[..k] + [ids[k]];
    var a, b := DropAll(local, ids[..k + 1]), DropAll(local, ids[..k]) - {ids[k]};
    forall id: string ensures Same(a, b, id) {}
    SameTruth(a, b);
  }

  lemma DropSplits(local: Truth, ids: seq<string>, n: nat, m: nat)
    requires n <= m <= |ids|
    ensures DropAll(local, ids[..m]) == DropAll(DropAll(local, ids[..n]), ids[n..m])
  {
    assert ids[..m] == ids[..n] + ids[n..m];
    var a, b := DropAll(local, ids[..m]), DropAll(DropAll(local, ids[..n]), ids[n..m]);
    forall id: string ensures Same(a, b, id) {}
    SameTruth(a, b);
  }

  lemma {:induction false} PutAllAppends(local: Truth, a: seq<Rec>, b: seq<Rec>)
    ensures PutAll(local, a + b) == PutAll(PutAll(local, a), b)
    decreases |b|
  {
    if b == [] {
      assert a + b == a;
    } else {
      assert (a + b)[..|a + b| - 1] == a + b[..|b| - 1];
      PutAllAppends(local, a, b[..|b| - 1]);
    }
  }

  lemma PutAllSplits(local: Truth, recs: seq<Rec>, n: nat, m: nat)
    requires n <= m <= |recs|
    ensures PutAll(local, recs[..m]) == PutAll(PutAll(local, recs[..n]), recs[n..m])
  {
    assert recs[..m] == recs[..n] + recs[n..m];
    PutAllAppends(local, recs[..n], recs[n..m]);
  }

  // ---------------------------------------------------------------- what the store mirrors

  /** The stored record says what the payload does. Flags cross by keyword: the two number their bits apart. */
  predicate Crosses(fields: Fields, record: Record) {
    && fields.MessageFields? && record.receivedAt == fields.receivedAt && record.mailboxIds == fields.mailboxIds
    && record.rest == fields.rest
    && forall k :: Flags.Has(record.flags, Flags.StoreBit(k)) <==> Flags.Has(fields.flags, Flags.BackendBit(k))
  }

  predicate BoxSays(box: Mailbox, fields: Fields) {
    fields.MailboxFields? && box.name == fields.name && box.declared == fields.role && box.counts == fields.counts
  }

  predicate MessageMirrored(writes: seq<Write>, account: int, local: Truth, s: string) {
    match LastRecord(writes, account, s)
    case Some(record) => s in local && Crosses(local[s], record)
    case None => !(s in local && local[s].MessageFields?)
  }

  predicate BoxMirrored(boxes: Boxes, writes: seq<Write>, account: int, local: Truth, s: string) {
    if HasBox(writes, account, s) then
      s in local && exists b | b in boxes :: BoxIs(boxes, account, s, b) && BoxSays(boxes[b], local[s])
    else !(s in local && local[s].MailboxFields?)
  }

  /** Under each server id the store holds what the replica of that kind does. */
  ghost predicate Mirrors(kind: Kind, account: int, boxes: Boxes, writes: seq<Write>, local: Truth) {
    match kind
    case MessageKind => forall s :: MessageMirrored(writes, account, local, s)
    case MailboxKind => forall s :: BoxMirrored(boxes, writes, account, local, s)
  }

  /** Writes about one kind of an account's records say nothing of the other kind, nor of another account. */
  ghost predicate Undisturbed(kind: Kind, account: int, boxes: Boxes, writes: seq<Write>, boxes2: Boxes,
      writes2: seq<Write>) {
    && (forall a, s | a != account || kind == MailboxKind :: LastRecord(writes2, a, s) == LastRecord(writes, a, s))
    && (forall a, s | a != account || kind == MessageKind :: HasBox(writes2, a, s) == HasBox(writes, a, s))
    && (forall b | b in boxes && (boxes[b].account != account || kind == MessageKind) ::
          b in boxes2 && boxes2[b] == boxes[b])
  }

  lemma MirrorUndisturbed(kind: Kind, account: int, boxes: Boxes, writes: seq<Write>, boxes2: Boxes,
      writes2: seq<Write>, other: Kind, elsewhere: int, local: Truth)
    requires Undisturbed(kind, account, boxes, writes, boxes2, writes2) && (other != kind || elsewhere != account)
    requires Mirrors(other, elsewhere, boxes, writes, local)
    ensures Mirrors(other, elsewhere, boxes2, writes2, local)
  {
    match other
    case MessageKind =>
      forall s: string ensures MessageMirrored(writes2, elsewhere, local, s) {
        assert MessageMirrored(writes, elsewhere, local, s);
      }
    case MailboxKind =>
      forall s: string ensures BoxMirrored(boxes2, writes2, elsewhere, local, s) {
        assert BoxMirrored(boxes, writes, elsewhere, local, s);
        if HasBox(writes, elsewhere, s) {
          var b :| b in boxes && BoxIs(boxes, elsewhere, s, b) && BoxSays(boxes[b], local[s]);
          assert BoxIs(boxes2, elsewhere, s, b);
        }
      }
  }

  lemma UndisturbedTwice(kind: Kind, account: int, boxes: Boxes, writes: seq<Write>, boxes2: Boxes,
      writes2: seq<Write>, boxes3: Boxes, writes3: seq<Write>)
    requires Undisturbed(kind, account, boxes, writes, boxes2, writes2)
    requires Undisturbed(kind, account, boxes2, writes2, boxes3, writes3)
    ensures Undisturbed(kind, account, boxes, writes, boxes3, writes3)
  {
  }

  lemma MessagePut(boxes: Boxes, writes: seq<Write>, account: int, local: Truth, rec: Rec, record: Record)
    requires Mirrors(MessageKind, account, boxes, writes, local) && Crosses(rec.fields, record)
    ensures var after := writes + [PutMessage(account, rec.id, record)];
            Mirrors(MessageKind, account, boxes, after, Put(local, rec))
            && Undisturbed(MessageKind, account, boxes, writes, boxes, after)
  {
    LastOf(writes, PutMessage(account, rec.id, record));
    forall s: string
      ensures MessageMirrored(writes + [PutMessage(account, rec.id, record)], account, Put(local, rec), s) {
      assert MessageMirrored(writes, account, local, s);
    }
  }

  lemma MessageDropped(boxes: Boxes, writes: seq<Write>, account: int, local: Truth, id: string)
    requires Mirrors(MessageKind, account, boxes, writes, local)
    ensures var after := writes + [DropMessage(account, id)];
            Mirrors(MessageKind, account, boxes, after, local - {id})
            && Undisturbed(MessageKind, account, boxes, writes, boxes, after)
  {
    LastOf(writes, DropMessage(account, id));
    forall s: string ensures MessageMirrored(writes + [DropMessage(account, id)], account, local - {id}, s) {
      assert MessageMirrored(writes, account, local, s);
    }
  }

  /** The mailboxes after one was upserted under its server id, its account's roles perhaps resolved again. */
  lemma BoxPut(boxes: Boxes, writes: seq<Write>, boxes2: Boxes, account: int, local: Truth, rec: Rec)
    requires Mirrors(MailboxKind, account, boxes, writes, local) && rec.fields.MailboxFields?
    requires exists b | b in boxes2 :: BoxIs(boxes2, account, rec.id, b) && BoxSays(boxes2[b], rec.fields)
    requires forall b | b in boxes && !BoxIs(boxes, account, rec.id, b) ::
               b in boxes2 && boxes2[b] == boxes[b].(role := boxes2[b].role)
    requires forall b | b in boxes2 && boxes2[b].account != account :: b in boxes && boxes2[b] == boxes[b]
    ensures var after := writes + [PutBox(account, rec.id)];
            Mirrors(MailboxKind, account, boxes2, after, Put(local, rec))
            && Undisturbed(MailboxKind, account, boxes, writes, boxes2, after)
  {
    var after := writes + [PutBox(account, rec.id)];
    LastOf(writes, PutBox(account, rec.id));
    forall s: string ensures BoxMirrored(boxes2, after, account, Put(local, rec), s) {
      assert BoxMirrored(boxes, writes, account, local, s);
      if s != rec.id && HasBox(writes, account, s) {
        var b :| b in boxes && BoxIs(boxes, account, s, b) && BoxSays(boxes[b], local[s]);
        assert BoxIs(boxes2, account, s, b) && BoxSays(boxes2[b], local[s]);
      }
    }
  }

  lemma BoxDropped(boxes: Boxes, writes: seq<Write>, boxes2: Boxes, account: int, local: Truth, id: string)
    requires Mirrors(MailboxKind, account, boxes, writes, local)
    requires forall b | b in boxes && !BoxIs(boxes, account, id, b) :: b in boxes2 && boxes2[b] == boxes[b]
    ensures var after := writes + [DropBox(account, id)];
            Mirrors(MailboxKind, account, boxes2, after, local - {id})
            && Undisturbed(MailboxKind, account, boxes, writes, boxes2, after)
  {
    var after := writes + [DropBox(account, id)];
    LastOf(writes, DropBox(account, id));
    forall s: string ensures BoxMirrored(boxes2, after, account, local - {id}, s) {
      assert BoxMirrored(boxes, writes, account, local, s);
      if s != id && HasBox(writes, account, s) {
        var b :| b in boxes && BoxIs(boxes, account, s, b) && BoxSays(boxes[b], local[s]);
        assert BoxIs(boxes2, account, s, b);
      }
    }
  }

  // ---------------------------------------------------------------- the writes

  /** upsertRecord: a message or a mailbox row, by the payload; a payload of the wrong kind is an error
      and writes nothing. */
  method UpsertRecord(store: Store, account: int, kind: Kind, rec: Rec, ghost local: Truth) returns (ok: bool)
    requires store.Valid() && Mirrors(kind, account, store.boxes, store.writes, local)
    modifies store
    ensures store.Valid() && (ok <==> KindOf(rec.fields) == kind)
    ensures Undisturbed(kind, account, old(store.boxes), old(store.writes), store.boxes, store.writes)
    ensures Mirrors(kind, account, store.boxes, store.writes, if ok then Put(local, rec) else local)
  {
    hide Mirrors, Undisturbed;
    match rec.fields {
      case MessageFields(receivedAt, flags, mailboxIds, rest) =>
        if kind != MessageKind {
          NothingWritten(kind, account, store.boxes, store.writes);
          return false;
        }
        var bits := Flags.StoreFlags(flags);
        var record := Record(receivedAt, bits, mailboxIds, rest);
        MessagePut(store.boxes, store.writes, account, local, rec, record);
        store.UpsertMessage(account, rec.id, record, !Flags.Has(flags, Flags.BackendBit(Flags.Seen)));
      case MailboxFields(role, name, counts) =>
        if kind != MailboxKind {
          NothingWritten(kind, account, store.boxes, store.writes);
          return false;
        }
        ghost var boxes, writes := store.boxes, store.writes;
        store.UpsertMailbox(account, rec.id, name, role, counts);
        BoxPut(boxes, writes, store.boxes, account, local, rec);
    }
    return true;
  }

  lemma NothingWritten(kind: Kind, account: int, boxes: Boxes, writes: seq<Write>)
    ensures Undisturbed(kind, account, boxes, writes, boxes, writes)
  {
  }

  /** destroyRecord: the kind's row under that server id. */
  method DestroyRecord(store: Store, account: int, kind: Kind, id: string, ghost local: Truth)
    requires store.Valid() && Mirrors(kind, account, store.boxes, store.writes, local)
    modifies store
    ensures store.Valid() && Mirrors(kind, account, store.boxes, store.writes, local - {id})
    ensures Undisturbed(kind, account, old(store.boxes), old(store.writes), store.boxes, store.writes)
  {
    hide Mirrors, Undisturbed;
    ghost var boxes, writes := store.boxes, store.writes;
    match kind {
      case MessageKind =>
        MessageDropped(boxes, writes, account, local, id);
        store.DeleteMessage(account, id);
      case MailboxKind =>
        store.DeleteMailbox(account, id);
        BoxDropped(boxes, writes, store.boxes, account, local, id);
    }
  }

  predicate AllOf(kind: Kind, recs: seq<Rec>) { forall k | 0 <= k < |recs| :: KindOf(recs[k].fields) == kind }

  lemma AllOfMore(kind: Kind, recs: seq<Rec>, n: nat, m: nat)
    requires n <= m <= |recs| && AllOf(kind, recs[..n]) && AllOf(kind, recs[n..m])
    ensures AllOf(kind, recs[..m])
  {
    assert recs[..m] == recs[..n] + recs[n..m];
  }

  lemma AllOfPart(kind: Kind, recs: seq<Rec>, n: nat, m: nat)
    requires n <= m <= |recs| && AllOf(kind, recs)
    ensures AllOf(kind, recs[n..m])
  {
  }

  /** One chunk's upserts, in a transaction: a record of the wrong kind rolls all of them back. */
  method UpsertAll(store: Store, account: int, kind: Kind, recs: seq<Rec>, ghost local: Truth) returns (ok: bool)
    requires store.Valid() && Mirrors(kind, account, store.boxes, store.writes, local)
    modifies store
    ensures store.Valid() && (ok <==> AllOf(kind, recs))
    ensures Undisturbed(kind, account, old(store.boxes), old(store.writes), store.boxes, store.writes)
    ensures Mirrors(kind, account, store.boxes, store.writes, if ok then PutAll(local, recs) else local)
  {
    hide Mirrors, Undisturbed;
    NothingWritten(kind, account, store.boxes, store.writes);
    if !AllOf(kind, recs) { return false; }
    for k := 0 to |recs|
      invariant store.Valid() && Mirrors(kind, account, store.boxes, store.writes, PutAll(local, recs[..k]))
      invariant Undisturbed(kind, account, old(store.boxes), old(store.writes), store.boxes, store.writes)
    {
      assert recs[..k + 1][..k] == recs[..k];
      ghost var boxes, writes := store.boxes, store.writes;
      var written := UpsertRecord(store, account, kind, recs[k], PutAll(local, recs[..k]));
      UndisturbedTwice(kind, account, old(store.boxes), old(store.writes), boxes, writes, store.boxes, store.writes);
    }
    assert recs[..|recs|] == recs;
    return true;
  }

  /** One chunk's destroys, in a transaction. */
  method DestroyAll(store: Store, account: int, kind: Kind, ids: seq<string>, ghost local: Truth)
    requires store.Valid() && Mirrors(kind, account, store.boxes, store.writes, local)
    modifies store
    ensures store.Valid() && Mirrors(kind, account, store.boxes, store.writes, DropAll(local, ids))
    ensures Undisturbed(kind, account, old(store.boxes), old(store.writes), store.boxes, store.writes)
  {
    hide Mirrors, Undisturbed, DropAll;
    NothingWritten(kind, account, store.boxes, store.writes);
    DropNone(local);
    for k := 0 to |ids|
      invariant store.Valid() && Mirrors(kind, account, store.boxes, store.writes, DropAll(local, ids[..k]))
      invariant Undisturbed(kind, account, old(store.boxes), old(store.writes), store.boxes, store.writes)
    {
      DropOneMore(local, ids, k);
      ghost var boxes, writes := store.boxes, store.writes;
      DestroyRecord(store, account, kind, ids[k], DropAll(local, ids[..k]));
      UndisturbedTwice(kind, account, old(store.boxes), old(store.writes), boxes, writes, store.boxes, store.writes);
    }
    assert ids[..|ids|] == ids;
  }
}
