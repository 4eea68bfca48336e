/** The local mail store: mailboxes, messages, and the membership table that joins them. */
module MailStore {
  import opened Common
  import opened Ordered
  import Flags
  import Roles

  /** A mailbox row: `declared` is the role the backend named, `role` the one it resolved to. */
  datatype Mailbox = Mailbox(account: int, serverId: Option<string>, name: string, declared: string, role: string,
      counts: (int, int, int))

  /** A message row: `rest` stands for the scalar columns nothing here reads. */
  datatype Message = Message(account: int, serverId: Option<string>, receivedAt: int, flags: Flags.Bits,
      mailboxIds: seq<string>, rest: string)

  /** A membership row's denormalized columns. */
  datatype Member = Member(receivedAt: int, unread: bool)

  type Boxes = map<int, Mailbox>
  type Messages = map<int, Message>
  type Members = map<(int, int), Member>

  function Unread(flags: Flags.Bits): bool { !Flags.Has(flags, Flags.StoreBit(Flags.Seen)) }

  // ---------------------------------------------------------------- membership

  predicate BoxIs(boxes: Boxes, account: int, serverId: string, b: int) {
    b in boxes && boxes[b].account == account && boxes[b].serverId == Some(serverId)
  }

  predicate MessageIs(messages: Messages, account: int, serverId: string, m: int) {
    m in messages && messages[m].account == account && messages[m].serverId == Some(serverId)
  }

  /** The unique index over (account, server id). */
  predicate UniqueBoxes(boxes: Boxes) {
    forall x, y | x in boxes && y in boxes && boxes[x].account == boxes[y].account && boxes[x].serverId.Some?
                  && boxes[x].serverId == boxes[y].serverId :: x == y
  }

  predicate UniqueMessages(messages: Messages) {
    forall x, y | x in messages && y in messages && messages[x].account == messages[y].account
        && messages[x].serverId.Some?
                  && messages[x].serverId == messages[y].serverId :: x == y
  }

  /** Mailbox b is one of those `serverIds` names in the account. */
  predicate Named(boxes: Boxes, account: int, serverIds: seq<string>, b: int) {
    b in boxes && boxes[b].account == account && boxes[b].serverId.Some? && boxes[b].serverId.value in serverIds
  }

  /** Membership row (m, b) is exactly as message m says: it exists when m's own list names b, with
      m's received time and unread bit. No row outlives its message or its mailbox. */
  predicate Agrees(boxes: Boxes, messages: Messages, members: Members, m: int, b: int) {
    && ((m, b) in members ==> m in messages && b in boxes)
    && (m in messages && messages[m].serverId.Some? ==>
          && ((m, b) in members <==> Named(boxes, messages[m].account, messages[m].mailboxIds, b))
          && ((m, b) in members ==> members[(m, b)] == Member(messages[m].receivedAt, Unread(messages[m].flags))))
  }

  ghost predicate AllAgree(boxes: Boxes, messages: Messages, members: Members) {
    forall m, b :: Agrees(boxes, messages, members, m, b)
  }

  /** What a reconcile leaves at (m, b) for message `message`. */
  predicate Reconciled(boxes: Boxes, before: Members, after: Members, message: int, account: int, at: Member,
      serverIds: seq<string>, m: int, b: int) {
    if m == message then
      ((m, b) in after <==> Named(boxes, account, serverIds, b)) && ((m, b) in after ==> after[(m, b)] == at)
    else
      ((m, b) in after <==> (m, b) in before) && ((m, b) in after ==> after[(m, b)] == before[(m, b)])
  }

  lemma ReconciledAgrees(boxes: Boxes, messages: Messages, before: Members, after: Members, messages0: Messages,
      message: int)
    requires AllAgree(boxes, messages0, before) && message in messages
    requires forall m | m != message ::
        (m in messages <==> m in messages0) && (m in messages ==> messages[m] == messages0[m])
    requires forall m, b :: Reconciled(boxes, before, after, message, messages[message].account,
                                       Member(messages[message].receivedAt, Unread(messages[message].flags)),
                                           messages[message].mailboxIds, m, b)
    ensures AllAgree(boxes, messages, after)
  {
    forall m: int, b: int ensures Agrees(boxes, messages, after, m, b) {
      assert Agrees(boxes, messages0, before, m, b);
      assert Reconciled(boxes, before, after, message, messages[message].account,
                        Member(messages[message].receivedAt, Unread(messages[message].flags)),
                            messages[message].mailboxIds, m, b);
    }
  }

  // ---------------------------------------------------------------- what was written

  /** A message as the server gave it. */
  datatype Record = Record(receivedAt: int, flags: Flags.Bits, mailboxIds: seq<string>, rest: string)

  function RecordOf(m: Message): Record { Record(m.receivedAt, m.flags, m.mailboxIds, m.rest) }

  datatype Write =
    | PutMessage(account: int, serverId: string, record: Record)
    | DropMessage(account: int, serverId: string)
    | PutBox(account: int, serverId: string)
    | DropBox(account: int, serverId: string)
    | DropUnnamed

  /** The record the last write about a message left. */
  function LastRecord(writes: seq<Write>, account: int, serverId: string): Option<Record> {
    if writes == [] then None
    else
      match writes[|writes| - 1]
      case PutMessage(a, s, record) => if a == account
          && s == serverId then Some(record) else LastRecord(writes[..|writes| - 1], account, serverId)
      case DropMessage(a, s) => if a == account
          && s == serverId then None else LastRecord(writes[..|writes| - 1], account, serverId)
      case _ => LastRecord(writes[..|writes| - 1], account, serverId)
  }

  function HasBox(writes: seq<Write>, account: int, serverId: string): bool {
    if writes == [] then false
    else
      match writes[|writes| - 1]
      case PutBox(a, s) => (a == account && s == serverId) || HasBox(writes[..|writes| - 1], account, serverId)
      case DropBox(a, s) => !(a == account && s == serverId) && HasBox(writes[..|writes| - 1], account, serverId)
      case _ => HasBox(writes[..|writes| - 1], account, serverId)
  }

  /** The tables hold, under each server id, what the last write about it left. */
  predicate Tracks(boxes: Boxes, messages: Messages, writes: seq<Write>, account: int, serverId: string) {
    && (match LastRecord(writes, account, serverId)
        case Some(record) => exists m | m in messages ::
            MessageIs(messages, account, serverId, m) && RecordOf(messages[m]) == record
        case None => forall m | m in messages :: !MessageIs(messages, account, serverId, m))
    && (HasBox(writes, account, serverId) <==> exists b | b in boxes :: BoxIs(boxes, account, serverId, b))
  }

  ghost predicate AllTrack(boxes: Boxes, messages: Messages, writes: seq<Write>) {
    forall account, serverId :: Tracks(boxes, messages, writes, account, serverId)
  }

  /** In some account the message with server id s is associated with the mailbox with server id t,
      with that received time and unread bit. */
  predicate Associated(boxes: Boxes, messages: Messages, members: Members, account: int, s: string, t: string,
      at: Member) {
    exists k | k in members :: MessageIs(messages, account, s, k.0) && BoxIs(boxes, account, t, k.1) && members[k] == at
  }

  /** The association of two server ids is read off the writes alone: the message's last record
      names the mailbox, and the mailbox is there. */
  lemma AssociationIsDetermined(boxes: Boxes, messages: Messages, members: Members, writes: seq<Write>, account: int,
      s: string, t: string, at: Member)
    requires UniqueBoxes(boxes) && UniqueMessages(messages)
    requires AllAgree(boxes, messages, members) && AllTrack(boxes, messages, writes)
    ensures Associated(boxes, messages, members, account, s, t, at) <==>
              (LastRecord(writes, account, s).Some? && HasBox(writes, account, t)
               && var r := LastRecord(writes, account, s).value;
                  t in r.mailboxIds && at == Member(r.receivedAt, Unread(r.flags)))
  {
    assert Tracks(boxes, messages, writes, account, s) && Tracks(boxes, messages, writes, account, t);
    if Associated(boxes, messages, members, account, s, t, at) {
      var k :| k in members && MessageIs(messages, account, s, k.0) && BoxIs(boxes, account, t, k.1)
          && members[k] == at;
      assert Agrees(boxes, messages, members, k.0, k.1) && k == (k.0, k.1);
    }
    if LastRecord(writes, account, s).Some? && HasBox(writes, account, t) {
      var m :| m in messages && MessageIs(messages, account, s, m)
          && RecordOf(messages[m]) == LastRecord(writes, account, s).value;
      var b :| b in boxes && BoxIs(boxes, account, t, b);
      assert Agrees(boxes, messages, members, m, b);
      if t in messages[m].mailboxIds {
        assert (m, b) in members;
        assert (m, b).0 == m && (m, b).1 == b;
      }
    }
  }

  /** Two stores brought up by writes that agree on every id hold the same associations. */
  lemma SameWritesSameAssociations(boxes: Boxes, messages: Messages, members: Members, writes: seq<Write>,
                                   boxes2: Boxes, messages2: Messages, members2: Members, writes2: seq<Write>,
                                   account: int, s: string, t: string, at: Member)
    requires UniqueBoxes(boxes) && UniqueMessages(messages) && AllAgree(boxes, messages, members)
        && AllTrack(boxes, messages, writes)
    requires UniqueBoxes(boxes2) && UniqueMessages(messages2) && AllAgree(boxes2, messages2, members2)
        && AllTrack(boxes2, messages2, writes2)
    requires LastRecord(writes, account, s) == LastRecord(writes2, account, s)
        && HasBox(writes, account, t) == HasBox(writes2, account, t)
    ensures Associated(boxes, messages, members, account, s, t, at)
        <==> Associated(boxes2, messages2, members2, account, s, t, at)
  {
    AssociationIsDetermined(boxes, messages, members, writes, account, s, t, at);
    AssociationIsDetermined(boxes2, messages2, members2, writes2, account, s, t, at);
  }

  predicate OnlyPuts(writes: seq<Write>) { forall i | 0 <= i < |writes| :: writes[i].PutMessage? || writes[i].PutBox? }

  /** No two writes put one message. */
  predicate DistinctMessages(writes: seq<Write>) {
    forall i, j | 0 <= i < j < |writes| && writes[i].PutMessage? && writes[j].PutMessage? ::
      !(writes[i].account == writes[j].account && writes[i].serverId == writes[j].serverId)
  }

  lemma {:induction false} PutsAreASet(writes: seq<Write>, account: int, serverId: string, record: Record)
    requires OnlyPuts(writes) && DistinctMessages(writes)
    ensures LastRecord(writes, account, serverId) == Some(record) <==> PutMessage(account, serverId, record) in writes
    ensures HasBox(writes, account, serverId) <==> PutBox(account, serverId) in writes
  {
    if writes != [] {
      var n := |writes| - 1;
      PutsAreASet(writes[..n], account, serverId, record);
      assert writes == writes[..n] + [writes[n]];
    }
  }

  /** Upserting the same records in any other order gives the same associations. */
  lemma OrderDoesNotMatter(boxes: Boxes, messages: Messages, members: Members, writes: seq<Write>,
                           boxes2: Boxes, messages2: Messages, members2: Members, writes2: seq<Write>,
                           account: int, s: string, t: string, at: Member)
    requires UniqueBoxes(boxes) && UniqueMessages(messages) && AllAgree(boxes, messages, members)
        && AllTrack(boxes, messages, writes)
    requires UniqueBoxes(boxes2) && UniqueMessages(messages2) && AllAgree(boxes2, messages2, members2)
        && AllTrack(boxes2, messages2, writes2)
    requires OnlyPuts(writes) && DistinctMessages(writes) && multiset(writes) == multiset(writes2)
        && DistinctMessages(writes2)
    ensures Associated(boxes, messages, members, account, s, t, at)
        <==> Associated(boxes2, messages2, members2, account, s, t, at)
  {
    forall w: Write ensures w in writes <==> w in writes2 { assert w in multiset(writes) <==> w in multiset(writes2); }
    forall i | 0 <= i < |writes2| ensures writes2[i].PutMessage? || writes2[i].PutBox? { assert writes2[i] in writes2; }
    forall record: Record
      ensures LastRecord(writes, account, s) == Some(record) <==> LastRecord(writes2, account, s) == Some(record) {
      PutsAreASet(writes, account, s, record);
      PutsAreASet(writes2, account, s, record);
    }
    if LastRecord(writes, account, s).Some? {
      assert LastRecord(writes2, account, s) == Some(LastRecord(writes, account, s).value);
    }
    if LastRecord(writes2, account, s).Some? {
      assert LastRecord(writes, account, s) == Some(LastRecord(writes2, account, s).value);
    }
    var any := Record(0, 0, [], "");
    PutsAreASet(writes, account, t, any);
    PutsAreASet(writes2, account, t, any);
    SameWritesSameAssociations(boxes, messages, members, writes, boxes2, messages2, members2, writes2,
        account, s, t, at);
  }

  // ---------------------------------------------------------------- roles

  function CandidateOf(boxes: Boxes, b: int): Roles.Candidate
    requires b in boxes
  {
    Roles.Candidate(b, boxes[b].account, boxes[b].declared, boxes[b].name)
  }

  function RoleOf(t: Roles.Tables, box: Mailbox): string { t.Classify(box.declared, box.name) }

  /** No mailbox of b's account has a better claim to the role b classifies to. */
  predicate Prevails(t: Roles.Tables, boxes: Boxes, b: int)
    requires b in boxes
  {
    && RoleOf(t, boxes[b]) != ""
    && forall c | c in boxes && boxes[c].account == boxes[b].account && RoleOf(t, boxes[c]) == RoleOf(t, boxes[b]) ::
         Roles.Before(CandidateOf(boxes, b), CandidateOf(boxes, c))
  }

  predicate FreshAt(t: Roles.Tables, boxes: Boxes, b: int)
    requires b in boxes
  {
    boxes[b].role == if Prevails(t, boxes, b) then RoleOf(t, boxes[b]) else ""
  }

  /** The stored roles of the account are those a resolution of it would give now. */
  predicate Fresh(t: Roles.Tables, boxes: Boxes, account: int) {
    forall b | b in boxes && boxes[b].account == account :: FreshAt(t, boxes, b)
  }

  /** Each stored role has one holder in its account, which classifies to it. */
  predicate Held(t: Roles.Tables, boxes: Boxes) {
    && (forall b | b in boxes && boxes[b].role != "" :: boxes[b].role == RoleOf(t, boxes[b]))
    && (forall b, c | b in boxes && c in boxes && boxes[b].account == boxes[c].account && boxes[b].role != ""
                      && boxes[b].role == boxes[c].role :: b == c)
  }

  lemma FreshIsHeld(t: Roles.Tables, before: Boxes, boxes: Boxes, account: int)
    requires Held(t, before) && Fresh(t, boxes, account)
    requires forall b | b in boxes && boxes[b].account != account :: b in before && before[b] == boxes[b]
    ensures Held(t, boxes)
  {
    forall b, c | b in boxes && c in boxes && boxes[b].account == boxes[c].account && boxes[b].role != ""
        && boxes[b].role == boxes[c].role
      ensures b == c
    {
      if boxes[b].account == account { assert FreshAt(t, boxes, b) && FreshAt(t, boxes, c); }
    }
    forall b | b in boxes && boxes[b].role != "" ensures boxes[b].role == RoleOf(t, boxes[b]) {
      if boxes[b].account == account { assert FreshAt(t, boxes, b); }
    }
  }

  /** Among the mailboxes that classify to a role, one prevails. */
  lemma {:induction false} Heir(t: Roles.Tables, boxes: Boxes, c: int) returns (w: int)
    requires c in boxes && RoleOf(t, boxes[c]) != ""
    ensures w in boxes && boxes[w].account == boxes[c].account && RoleOf(t, boxes[w]) == RoleOf(t, boxes[c])
        && Prevails(t, boxes, w)
  {
    var all := Ascending(boxes.Keys);
    w := c;
    for i := 0 to |all|
      invariant w in boxes && boxes[w].account == boxes[c].account && RoleOf(t, boxes[w]) == RoleOf(t, boxes[c])
      invariant forall j | 0 <= j < i && all[j] in boxes && boxes[all[j]].account == boxes[c].account
          && RoleOf(t, boxes[all[j]]) == RoleOf(t, boxes[c]) ::
                  Roles.Before(CandidateOf(boxes, w), CandidateOf(boxes, all[j]))
    {
      var d := all[i];
      if d in boxes && boxes[d].account == boxes[c].account && RoleOf(t, boxes[d]) == RoleOf(t, boxes[c])
         && !Roles.Before(CandidateOf(boxes, w), CandidateOf(boxes, d)) {
        w := d;
      }
    }
    forall d | d in boxes && boxes[d].account == boxes[c].account && RoleOf(t, boxes[d]) == RoleOf(t, boxes[c])
      ensures Roles.Before(CandidateOf(boxes, w), CandidateOf(boxes, d))
    {
      assert d in boxes.Keys;
      assert d in all;
      var j :| 0 <= j < |all| && all[j] == d;
    }
  }

  /** Taking `gone` away changes whether c prevails only if gone prevailed over c's role. */
  lemma Unaffected(t: Roles.Tables, boxes: Boxes, gone: int, c: int)
    requires gone in boxes && c in boxes && c != gone && boxes[c].account == boxes[gone].account
    requires RoleOf(t, boxes[c]) != RoleOf(t, boxes[gone]) || !Prevails(t, boxes, gone)
    ensures Prevails(t, boxes - {gone}, c) <==> Prevails(t, boxes, c)
  {
    var rest := boxes - {gone};
    if Prevails(t, rest, c) {
      if RoleOf(t, boxes[c]) == RoleOf(t, boxes[gone]) {
        var w := Heir(t, boxes, gone);
        assert w in rest && RoleOf(t, rest[w]) == RoleOf(t, rest[c]);
        assert Roles.Before(CandidateOf(rest, c), CandidateOf(rest, w));
        assert Roles.Before(CandidateOf(boxes, w), CandidateOf(boxes, gone));
      }
      forall d | d in boxes && boxes[d].account == boxes[c].account && RoleOf(t, boxes[d]) == RoleOf(t, boxes[c])
        ensures Roles.Before(CandidateOf(boxes, c), CandidateOf(boxes, d))
      {
        if d != gone { assert d in rest && Roles.Before(CandidateOf(rest, c), CandidateOf(rest, d)); }
      }
    }
  }

  predicate Contested(t: Roles.Tables, boxes: Boxes, gone: int)
    requires gone in boxes
  {
    boxes[gone].role != "" && exists c | c in boxes && c != gone && boxes[c].account == boxes[gone].account ::
        RoleOf(t, boxes[c]) == boxes[gone].role
  }

  lemma StaysFresh(t: Roles.Tables, boxes: Boxes, gone: int)
    requires gone in boxes && Fresh(t, boxes, boxes[gone].account) && !Contested(t, boxes, gone)
    ensures Fresh(t, boxes - {gone}, boxes[gone].account)
  {
    assert FreshAt(t, boxes, gone);
    forall c | c in boxes - {gone} && boxes[c].account == boxes[gone].account ensures FreshAt(t, boxes - {gone}, c) {
      assert FreshAt(t, boxes, c);
      Unaffected(t, boxes, gone, c);
    }
  }

  lemma OnePrevails(t: Roles.Tables, boxes: Boxes, a: int, b: int)
    requires a in boxes && b in boxes && Prevails(t, boxes, a) && Prevails(t, boxes, b)
    requires boxes[a].account == boxes[b].account && RoleOf(t, boxes[a]) == RoleOf(t, boxes[b])
    ensures a == b
  {
    assert Roles.Before(CandidateOf(boxes, a), CandidateOf(boxes, b))
        && Roles.Before(CandidateOf(boxes, b), CandidateOf(boxes, a));
  }

  lemma GoesStale(t: Roles.Tables, boxes: Boxes, gone: int)
    requires gone in boxes && Fresh(t, boxes, boxes[gone].account) && Contested(t, boxes, gone)
    ensures !Fresh(t, boxes - {gone}, boxes[gone].account)
  {
    var rest := boxes - {gone};
    assert FreshAt(t, boxes, gone);
    var c :| c in boxes && c != gone && boxes[c].account == boxes[gone].account
        && RoleOf(t, boxes[c]) == boxes[gone].role;
    assert c in rest;
    var w := Heir(t, rest, c);
    assert FreshAt(t, boxes, w);
    if Prevails(t, boxes, w) { OnePrevails(t, boxes, w, gone); }
    assert !FreshAt(t, rest, w);
  }

  /** After a mailbox is gone the account's roles are still fresh exactly when it held none, or no
      other mailbox of the account classifies to the one it held. */
  lemma RolesAfterADelete(t: Roles.Tables, boxes: Boxes, gone: int)
    requires gone in boxes && Fresh(t, boxes, boxes[gone].account)
    ensures Fresh(t, boxes - {gone}, boxes[gone].account) <==> !Contested(t, boxes, gone)
  {
    if Contested(t, boxes, gone) { GoesStale(t, boxes, gone); } else { StaysFresh(t, boxes, gone); }
  }

  const SENT: Roles.Tables := Roles.Tables(d => d, n => if n == "Sent" || n == "Sent Items" then "sent" else "")

  /** The failing case is real: of two mailboxes that claim one role the holder goes, and the other is
      not promoted. */
  lemma AnHeirIsNotPromoted() returns (boxes: Boxes, gone: int)
    ensures gone in boxes && boxes[gone].account == 1 && boxes[gone].role == "sent"
    ensures Fresh(SENT, boxes, 1) && Held(SENT, boxes) && Contested(SENT, boxes, gone)
    ensures !Fresh(SENT, boxes - {gone}, 1) && forall b | b in boxes - {gone} :: boxes[b].role == ""
  {
    gone := 1;
    boxes := map[1 := Mailbox(1, Some("a"), "Sent", "", "sent", (0, 0, 0)),
                 2 := Mailbox(1, Some("b"), "Sent Items", "", "", (0, 0, 0))];
    assert FreshAt(SENT, boxes, 1);
    assert FreshAt(SENT, boxes, 2);
    assert 2 in boxes && RoleOf(SENT, boxes[2]) == "sent";
    RolesAfterADelete(SENT, boxes, 1);
  }
}
