/** The writers of the local mail store. Each keeps the membership table in step with the messages,
    and each stored role with one holder. */
module MailWrites {
  import opened Common
  import opened Ordered
  import opened MailStore
  import Roles

  predicate SameButRole(a: Boxes, b: Boxes, x: int) {
    (x in a <==> x in b) && (x in a ==> b[x] == a[x].(role := b[x].role))
  }

  ghost predicate SameButRoles(a: Boxes, b: Boxes) { forall x :: SameButRole(a, b, x) }

  lemma RolesAreNothingToMembership(a: Boxes, b: Boxes, messages: Messages, members: Members, writes: seq<Write>)
    requires SameButRoles(a, b) && UniqueBoxes(a) && AllAgree(a, messages, members) && AllTrack(a, messages, writes)
    ensures UniqueBoxes(b) && AllAgree(b, messages, members) && AllTrack(b, messages, writes)
  {
    forall x, y | x in b && y in b && b[x].account == b[y].account && b[x].serverId.Some?
        && b[x].serverId == b[y].serverId ensures x == y {
      assert SameButRole(a, b, x) && SameButRole(a, b, y);
    }
    forall m: int, x: int ensures Agrees(b, messages, members, m, x) {
      assert Agrees(a, messages, members, m, x) && SameButRole(a, b, x);
    }
    forall account: int, serverId: string ensures Tracks(b, messages, writes, account, serverId) {
      assert Tracks(a, messages, writes, account, serverId);
      forall x: int ensures BoxIs(a, account, serverId, x) <==> BoxIs(b, account, serverId, x) {
        assert SameButRole(a, b, x);
      }
      if HasBox(writes, account, serverId) {
        var x :| x in a && BoxIs(a, account, serverId, x);
        assert x in b && BoxIs(b, account, serverId, x);
      }
    }
  }

  lemma LastOf(writes: seq<Write>, w: Write)
    ensures (writes + [w])[..|writes|] == writes && (writes + [w])[|writes|] == w
  {
  }

  /** The tables after a message row was put under its server id. */
  lemma PutTracks(boxes: Boxes, messages: Messages, writes: seq<Write>, id: int, row: Message, account: int,
      serverId: string)
    requires UniqueMessages(messages) && AllTrack(boxes, messages, writes)
    requires row.account == account && row.serverId == Some(serverId)
    requires if id in messages then MessageIs(messages, account, serverId, id) else forall m | m in messages ::
        !MessageIs(messages, account, serverId, m)
    ensures var after := messages[id := row];
            UniqueMessages(after) && AllTrack(boxes, after, writes + [PutMessage(account, serverId, RecordOf(row))])
  {
    var after := messages[id := row];
    var w := PutMessage(account, serverId, RecordOf(row));
    LastOf(writes, w);
    forall x, y | x in after && y in after && after[x].account == after[y].account && after[x].serverId.Some?
        && after[x].serverId == after[y].serverId
      ensures x == y
    {
      assert x != id && x in messages ==>
          (MessageIs(messages, account, serverId, x)
          <==> after[x].account == account && after[x].serverId == Some(serverId));
      assert y != id && y in messages ==>
          (MessageIs(messages, account, serverId, y)
          <==> after[y].account == account && after[y].serverId == Some(serverId));
    }
    forall a: int, s: string ensures Tracks(boxes, after, writes + [w], a, s) {
      assert Tracks(boxes, messages, writes, a, s);
      if a == account && s == serverId {
        assert id in after && MessageIs(after, a, s, id);
      } else {
        match LastRecord(writes, a, s) {
          case Some(record) =>
            var m :| m in messages && MessageIs(messages, a, s, m) && RecordOf(messages[m]) == record;
            assert m in after && MessageIs(after, a, s, m);
          case None =>
        }
      }
    }
  }

  lemma DropTracks(boxes: Boxes, messages: Messages, writes: seq<Write>, account: int, serverId: string, gone: set<int>)
    requires UniqueMessages(messages) && AllTrack(boxes, messages, writes)
    requires forall m | m in messages :: m in gone <==> MessageIs(messages, account, serverId, m)
    ensures UniqueMessages(messages - gone)
        && AllTrack(boxes, messages - gone, writes + [DropMessage(account, serverId)])
  {
    var after := messages - gone;
    LastOf(writes, DropMessage(account, serverId));
    forall a: int, s: string ensures Tracks(boxes, after, writes + [DropMessage(account, serverId)], a, s) {
      assert Tracks(boxes, messages, writes, a, s);
      if !(a == account && s == serverId) && LastRecord(writes, a, s).Some? {
        var m :| m in messages && MessageIs(messages, a, s, m)
            && RecordOf(messages[m]) == LastRecord(writes, a, s).value;
        assert m in after && MessageIs(after, a, s, m);
      }
    }
  }

  lemma PutBoxTracks(boxes: Boxes, messages: Messages, writes: seq<Write>, id: int, row: Mailbox, account: int,
      serverId: string)
    requires UniqueBoxes(boxes) && AllTrack(boxes, messages, writes)
    requires row.account == account && row.serverId == Some(serverId)
    requires if id in boxes then BoxIs(boxes, account, serverId, id)
             else forall b | b in boxes :: !BoxIs(boxes, account, serverId, b)
    ensures var after := boxes[id := row];
            UniqueBoxes(after) && AllTrack(after, messages, writes + [PutBox(account, serverId)])
  {
    var after := boxes[id := row];
    LastOf(writes, PutBox(account, serverId));
    forall x, y | x in after && y in after && after[x].account == after[y].account && after[x].serverId.Some?
        && after[x].serverId == after[y].serverId
      ensures x == y
    {
      assert x != id && x in boxes ==>
          (BoxIs(boxes, account, serverId, x) <==> after[x].account == account && after[x].serverId == Some(serverId));
      assert y != id && y in boxes ==>
          (BoxIs(boxes, account, serverId, y) <==> after[y].account == account && after[y].serverId == Some(serverId));
    }
    forall a: int, s: string ensures Tracks(after, messages, writes + [PutBox(account, serverId)], a, s) {
      assert Tracks(boxes, messages, writes, a, s);
      assert id in after && BoxIs(after, account, serverId, id);
      if HasBox(writes, a, s) {
        var b :| b in boxes && BoxIs(boxes, a, s, b);
        assert b in after && BoxIs(after, a, s, b);
      }
    }
  }

  lemma DropBoxTracks(boxes: Boxes, messages: Messages, writes: seq<Write>, account: int, serverId: string,
      gone: set<int>)
    requires UniqueBoxes(boxes) && AllTrack(boxes, messages, writes)
    requires forall b | b in boxes :: b in gone <==> BoxIs(boxes, account, serverId, b)
    ensures UniqueBoxes(boxes - gone) && AllTrack(boxes - gone, messages, writes + [DropBox(account, serverId)])
  {
    var after := boxes - gone;
    LastOf(writes, DropBox(account, serverId));
    forall a: int, s: string ensures Tracks(after, messages, writes + [DropBox(account, serverId)], a, s) {
      assert Tracks(boxes, messages, writes, a, s);
      if !(a == account && s == serverId) && HasBox(writes, a, s) {
        var b :| b in boxes && BoxIs(boxes, a, s, b);
        assert b in after && BoxIs(after, a, s, b);
      }
    }
  }

  /** Membership rows go with their message or mailbox. */
  function Cascaded(members: Members, messages: set<int>, boxes: set<int>): Members {
    map k | k in members && k.0 !in messages && k.1 !in boxes :: members[k]
  }

  lemma CascadeAgrees(boxes: Boxes, messages: Messages, members: Members, goneBoxes: set<int>, goneMessages: set<int>)
    requires AllAgree(boxes, messages, members)
    ensures AllAgree(boxes - goneBoxes, messages - goneMessages, Cascaded(members, goneMessages, goneBoxes))
  {
    var after := Cascaded(members, goneMessages, goneBoxes);
    forall m: int, b: int ensures Agrees(boxes - goneBoxes, messages - goneMessages, after, m, b) {
      assert Agrees(boxes, messages, members, m, b);
      assert (m, b) in after <==> (m, b) in members && m !in goneMessages && b !in goneBoxes by {
        assert (m, b).0 == m && (m, b).1 == b;
      }
    }
  }

  class Store {
    var boxes: Boxes
    var messages: Messages
    var members: Members
    const roles: Roles.Tables
    /** Every write so far, newest last. */
    ghost var writes: seq<Write>

    ghost predicate Valid()
      reads this
    {
      && UniqueBoxes(boxes) && UniqueMessages(messages)
      && AllAgree(boxes, messages, members) && AllTrack(boxes, messages, writes) && Held(roles, boxes)
    }

    constructor (roles: Roles.Tables)
      ensures Valid() && this.roles == roles && writes == [] && boxes == map[] && messages == map[] && members == map[]
      ensures forall account :: Fresh(roles, boxes, account)
    {
      this.roles := roles;
      boxes, messages, members, writes := map[], map[], map[], [];
    }

    method FindBox(account: int, serverId: string) returns (b: Option<int>)
      ensures b.Some? ==> BoxIs(boxes, account, serverId, b.value)
      ensures b.None? ==> forall x | x in boxes :: !BoxIs(boxes, account, serverId, x)
    {
      if x :| x in boxes && BoxIs(boxes, account, serverId, x) { return Some(x); }
      return None;
    }

    method FindMessage(account: int, serverId: string) returns (m: Option<int>)
      ensures m.Some? ==> MessageIs(messages, account, serverId, m.value)
      ensures m.None? ==> forall x | x in messages :: !MessageIs(messages, account, serverId, x)
    {
      if x :| x in messages && MessageIs(messages, account, serverId, x) { return Some(x); }
      return None;
    }

    /** The local mailboxes a list of server ids names; an id with no row yet is passed over. */
    method WantedBoxes(account: int, serverIds: seq<string>) returns (want: set<int>)
      requires UniqueBoxes(boxes)
      ensures forall b :: b in want <==> Named(boxes, account, serverIds, b)
    {
      want := {};
      for i := 0 to |serverIds|
        invariant forall b: int :: b in want <==> Named(boxes, account, serverIds[..i], b)
      {
        assert serverIds[..i + 1] == serverIds[..i] + [serverIds[i]];
        var b := FindBox(account, serverIds[i]);
        if b.Some? { want := want + {b.value}; }
      }
      assert serverIds[..|serverIds|] == serverIds;
    }

    function CurrentBoxes(message: int): set<int>
      reads this
    {
      set k | k in members && k.0 == message :: k.1
    }

    /** SyncMessageMailboxes: drop the associations the list no longer names, refresh and add the
        ones it does. Afterwards message's rows are exactly those, and every other row is as it was. */
    method SyncMessageMailboxes(account: int, message: int, at: Member, serverIds: seq<string>)
      requires UniqueBoxes(boxes)
      modifies this`members
      ensures forall m, b :: Reconciled(boxes, old(members), members, message, account, at, serverIds, m, b)
    {
      var want := WantedBoxes(account, serverIds);
      var current := Ascending(CurrentBoxes(message));
      for i := 0 to |current|
        invariant forall m, b :: Dropping(old(members), members, message, want, current, i, m, b)
      {
        ghost var before := members;
        if current[i] !in want { members := members - {(message, current[i])}; }
        ghost var n := i + 1;
        forall m: int, b: int ensures Dropping(old(members), members, message, want, current, n, m, b) {
          assert Dropping(old(members), before, message, want, current, i, m, b);
        }
      }
      var adding := Ascending(want);
      ghost var kept := members;
      for i := 0 to |adding|
        invariant forall m, b :: Adding(kept, members, message, at, adding, i, m, b)
      {
        ghost var before := members;
        members := members[(message, adding[i]) := at];
        ghost var n := i + 1;
        forall m: int, b: int ensures Adding(kept, members, message, at, adding, n, m, b) {
          assert Adding(kept, before, message, at, adding, i, m, b);
        }
      }
      forall m: int, b: int ensures Reconciled(boxes, old(members), members, message, account, at, serverIds, m, b) {
        assert Dropping(old(members), kept, message, want, current, |current|, m, b);
        assert Adding(kept, members, message, at, adding, |adding|, m, b);
        assert b in want <==> Named(boxes, account, serverIds, b);
        InCurrent(old(members), message, current, b);
      }
    }

    /** UpsertMessage: the row under that server id, and its memberships with it. */
    method UpsertMessage(account: int, serverId: string, record: Record, unread: bool)
      requires Valid() && unread == Unread(record.flags)
      modifies this`messages, this`members, this`writes
      ensures Valid() && writes == old(writes) + [PutMessage(account, serverId, record)]
      ensures forall m | m in old(messages) && !MessageIs(old(messages), account, serverId, m) ::
          m in messages && messages[m] == old(messages)[m]
    {
      ghost var was, wasMembers := messages, members;
      var row := Message(account, Some(serverId), record.receivedAt, record.flags, record.mailboxIds, record.rest);
      var found := FindMessage(account, serverId);
      var id := match found case Some(m) => m case None => NextId(messages.Keys);
      if found.None? { assert id !in messages.Keys; }
      PutTracks(boxes, messages, writes, id, row, account, serverId);
      messages := messages[id := row];
      ghost var before := members;
      SyncMessageMailboxes(account, id, Member(record.receivedAt, unread), record.mailboxIds);
      assert before == wasMembers;
      forall m: int, b: int
        ensures Reconciled(boxes, wasMembers, members, id, messages[id].account,
                           Member(messages[id].receivedAt, Unread(messages[id].flags)), messages[id].mailboxIds, m, b)
      {
        assert Reconciled(boxes, before, members, id, account, Member(record.receivedAt, unread),
            record.mailboxIds, m, b);
      }
      ReconciledAgrees(boxes, messages, wasMembers, members, was, id);
      writes := writes + [PutMessage(account, serverId, record)];
    }

    /** UpsertMailbox: the row under that server id. A new row repairs the messages that named it
        before it was there, and any change of name or declared role resolves the account's roles
        again; a change of counts alone leaves them where they stand. */
    method UpsertMailbox(account: int, serverId: string, name: string, declared: string, counts: (int, int, int))
      requires Valid()
      modifies this`boxes, this`members, this`writes
      ensures Valid() && writes == old(writes) + [PutBox(account, serverId)]
      ensures old(Fresh(roles, boxes, account)) ==> Fresh(roles, boxes, account)
      ensures forall other | other != account :: old(Fresh(roles, boxes, other)) ==> Fresh(roles, boxes, other)
      ensures exists b ::
                && BoxIs(boxes, account, serverId, b) && boxes[b].name == name && boxes[b].declared == declared
                && boxes[b].counts == counts
      ensures forall b | b in boxes && boxes[b].account != account :: b in old(boxes) && boxes[b] == old(boxes)[b]
      ensures forall b | b in boxes && b !in old(boxes) :: BoxIs(boxes, account, serverId, b)
      ensures forall b | b in old(boxes) && !BoxIs(old(boxes), account, serverId, b) ::
          b in boxes && boxes[b] == old(boxes)[b].(role := boxes[b].role)
    {
      ghost var was := boxes;
      var found := FindBox(account, serverId);
      var resolve := true;
      var id;
      match found {
        case None =>
          id := NextId(boxes.Keys);
          InsertMailbox(account, serverId, id, Mailbox(account, Some(serverId), name, declared, "", counts));
        case Some(b) =>
          id := b;
          resolve := boxes[b].name != name || boxes[b].declared != declared;
          UpdateMailbox(account, serverId, id, boxes[b].(name := name, declared := declared, counts := counts));
      }
      writes := writes + [PutBox(account, serverId)];
      if resolve {
        ghost var before := boxes;
        ResolveAccountMailboxRoles(account);
        assert SameButRole(before, boxes, id);
        RolesAreNothingToMembership(before, boxes, messages, members, writes);
        FreshIsHeld(roles, was, boxes, account);
        forall b | b in was && !BoxIs(was, account, serverId, b)
          ensures b in boxes && boxes[b] == was[b].(role := boxes[b].role) {
          assert SameButRole(before, boxes, b);
        }
        forall b | b in was && was[b].account != account ensures b in boxes && boxes[b] == was[b] {
          assert SameButRole(before, boxes, b);
        }
        forall b | b in boxes && b !in was ensures b == id { assert SameButRole(before, boxes, b); }
      } else {
        HeldThroughARefresh(roles, was, id, boxes[id]);
        if Fresh(roles, was, account) { FreshThroughARefresh(roles, was, id, boxes[id], account); }
      }
      forall other | other != account && Fresh(roles, was, other) ensures Fresh(roles, boxes, other) {
        FreshElsewhere(roles, was, boxes, account, other);
      }
      assert BoxIs(boxes, account, serverId, id);
    }

    /** The insert, and the repair that follows it. */
    method InsertMailbox(account: int, serverId: string, id: int, row: Mailbox)
      requires Valid() && id !in boxes && row.account == account && row.serverId == Some(serverId)
      requires forall b | b in boxes :: !BoxIs(boxes, account, serverId, b)
      modifies this`boxes, this`members
      ensures boxes == old(boxes)[id := row] && UniqueBoxes(boxes)
      ensures AllAgree(boxes, messages, members) && AllTrack(boxes, messages, writes + [PutBox(account, serverId)])
    {
      ghost var was := boxes;
      PutBoxTracks(boxes, messages, writes, id, row, account, serverId);
      boxes := boxes[id := row];
      forall m: int, b: int | b != id ensures Agrees(boxes, messages, members, m, b) {
        NewBoxAgrees(was, messages, members, id, row, m, b);
      }
      forall m: int ensures (m, id) in members ==> Agrees(boxes, messages, members, m, id) {
        assert Agrees(was, messages, members, m, id);
      }
      RepairMailboxAssociations(account, id, serverId);
    }

    method UpdateMailbox(account: int, serverId: string, id: int, row: Mailbox)
      requires Valid() && BoxIs(boxes, account, serverId, id) && row.account == account
          && row.serverId == Some(serverId)
      modifies this`boxes
      ensures boxes == old(boxes)[id := row] && UniqueBoxes(boxes)
      ensures AllAgree(boxes, messages, members) && AllTrack(boxes, messages, writes + [PutBox(account, serverId)])
    {
      ghost var was := boxes;
      PutBoxTracks(boxes, messages, writes, id, row, account, serverId);
      boxes := boxes[id := row];
      forall m: int, b: int ensures Agrees(boxes, messages, members, m, b) {
        NewBoxAgrees(was, messages, members, id, row, m, b);
      }
    }

    /** DeleteMessage, and the memberships that go with the row. */
    method DeleteMessage(account: int, serverId: string)
      requires Valid()
      modifies this`messages, this`members, this`writes
      ensures Valid() && writes == old(writes) + [DropMessage(account, serverId)]
      ensures forall m :: m in messages <==> m in old(messages) && !MessageIs(old(messages), account, serverId, m)
      ensures forall m | m in messages :: messages[m] == old(messages)[m]
    {
      var gone := set m | m in messages && MessageIs(messages, account, serverId, m);
      DropTracks(boxes, messages, writes, account, serverId, gone);
      CascadeAgrees(boxes, messages, members, {}, gone);
      assert boxes - {} == boxes;
      messages, members := messages - gone, Cascaded(members, gone, {});
      writes := writes + [DropMessage(account, serverId)];
    }

    /** DeleteMailbox, and the memberships that go with the row. The roles of the rest stay where
        they are. */
    method DeleteMailbox(account: int, serverId: string)
      requires Valid()
      modifies this`boxes, this`members, this`writes
      ensures Valid() && writes == old(writes) + [DropBox(account, serverId)]
      ensures forall b :: b in boxes <==> b in old(boxes) && !BoxIs(old(boxes), account, serverId, b)
      ensures forall b | b in boxes :: boxes[b] == old(boxes)[b]
    {
      var gone := set b | b in boxes && BoxIs(boxes, account, serverId, b);
      DropBoxTracks(boxes, messages, writes, account, serverId, gone);
      CascadeAgrees(boxes, messages, members, gone, {});
      assert messages - {} == messages;
      boxes, members := boxes - gone, Cascaded(members, {}, gone);
      writes := writes + [DropBox(account, serverId)];
    }

    /** RepairMailboxAssociations: reconcile every message that named a mailbox before its row was
        there. */
    method RepairMailboxAssociations(account: int, mailbox: int, serverId: string)
      requires UniqueBoxes(boxes) && BoxIs(boxes, account, serverId, mailbox)
      requires forall m, b :: b != mailbox ==> Agrees(boxes, messages, members, m, b)
      requires forall m :: (m, mailbox) in members ==> Agrees(boxes, messages, members, m, mailbox)
      modifies this`members
      ensures AllAgree(boxes, messages, members)
    {
      var orphans := Ascending(set m | m in messages && Orphan(messages, members, account, mailbox, serverId, m));
      for i := 0 to |orphans|
        invariant forall m, b ::
            Repairing(boxes, messages, old(members), members, account, mailbox, serverId, orphans, i, m, b)
      {
        ghost var before := members;
        var id := orphans[i];
        assert id in orphans;
        var row := messages[id];
        SyncMessageMailboxes(account, id, Member(row.receivedAt, Unread(row.flags)), row.mailboxIds);
        ghost var n := i + 1;
        forall m: int, b: int
          ensures Repairing(boxes, messages, old(members), members, account, mailbox, serverId, orphans, n, m, b) {
          assert Repairing(boxes, messages, old(members), before, account, mailbox, serverId, orphans, i, m, b);
          assert Reconciled(boxes, before, members, id, account, Member(row.receivedAt, Unread(row.flags)),
              row.mailboxIds, m, b);
        }
      }
      assert orphans[..|orphans|] == orphans;
      forall m: int, b: int ensures Agrees(boxes, messages, members, m, b) {
        assert Repairing(boxes, messages, old(members), members, account, mailbox, serverId, orphans, |orphans|, m, b);
        assert b != mailbox ==> Agrees(boxes, messages, old(members), m, b);
        assert (m, mailbox) in old(members) ==> Agrees(boxes, messages, old(members), m, mailbox);
        assert m in orphans <==> Orphan(messages, old(members), account, mailbox, serverId, m);
      }
    }

    /** The role inputs of the account's mailboxes. */
    method Candidates(account: int, ids: seq<int>) returns (candidates: seq<Roles.Candidate>)
      requires forall b :: b in ids <==> b in boxes && boxes[b].account == account
      requires forall i, j | 0 <= i < j < |ids| :: ids[i] < ids[j]
      ensures |candidates| == |ids| && forall i | 0 <= i < |ids| ::
          ids[i] in boxes && candidates[i] == CandidateOf(boxes, ids[i])
      ensures Roles.DistinctIds(candidates)
    {
      candidates := [];
      for i := 0 to |ids|
        invariant |candidates| == i && forall j | 0 <= j < i ::
            ids[j] in boxes && candidates[j] == CandidateOf(boxes, ids[j])
      {
        var b := ids[i];
        assert b in ids;
        candidates := candidates + [CandidateOf(boxes, b)];
      }
    }

    /** The roles a resolution gives the candidates. */
    method Resolved(candidates: seq<Roles.Candidate>) returns (resolved: map<int, string>)
      requires Roles.DistinctIds(candidates)
      ensures forall c | c in candidates :: Roles.Settled(roles, candidates, resolved, c)
    {
      resolved := Roles.ResolveMailboxRoles(roles, candidates);
    }

    /** resolveAccountMailboxRoles: write each resolved role the row disagrees with. */
    method ResolveAccountMailboxRoles(account: int)
      requires UniqueBoxes(boxes)
      modifies this`boxes
      ensures SameButRoles(old(boxes), boxes) && Fresh(roles, boxes, account)
      ensures forall b | b in boxes && boxes[b].account != account :: b in old(boxes) && boxes[b] == old(boxes)[b]
    {
      hide Ascending, Prevails, FreshAt, Roles.Settled, Roles.DistinctIds, Roles.Claims;
      var ids := Ascending(set b | b in boxes && boxes[b].account == account);
      var candidates := Candidates(account, ids);
      var resolved := Resolved(candidates);
      ghost var was := boxes;
      for i := 0 to |ids|
        invariant forall b :: RolesWritten(was, boxes, resolved, ids, i, b)
      {
        ghost var before := boxes;
        var id := ids[i];
        assert id in ids && RolesWritten(was, boxes, resolved, ids, i, id);
        var role := if id in resolved then resolved[id] else "";
        if boxes[id].role != role { boxes := boxes[id := boxes[id].(role := role)]; }
        ghost var n := i + 1;
        forall b: int ensures RolesWritten(was, boxes, resolved, ids, n, b) {
          assert RolesWritten(was, before, resolved, ids, i, b);
        }
      }
      assert ids[..|ids|] == ids;
      forall b: int ensures SameButRole(was, boxes, b) { assert RolesWritten(was, boxes, resolved, ids, |ids|, b); }
      forall b | b in boxes && boxes[b].account != account ensures b in was && boxes[b] == was[b] {
        assert RolesWritten(was, boxes, resolved, ids, |ids|, b);
      }
      forall b | b in boxes && boxes[b].account == account ensures FreshAt(roles, boxes, b) {
        assert RolesWritten(was, boxes, resolved, ids, |ids|, b);
        assert b in ids;
        ResolvedPrevails(roles, was, boxes, account, ids, candidates, resolved, b);
      }
    }
  }

  /** A mailbox newly put changes nothing about any other's membership. */
  lemma NewBoxAgrees(boxes: Boxes, messages: Messages, members: Members, id: int, row: Mailbox, m: int, b: int)
    requires AllAgree(boxes, messages, members)
        && (b != id || (id in boxes && boxes[id].account == row.account && boxes[id].serverId == row.serverId))
    ensures Agrees(boxes[id := row], messages, members, m, b)
  {
    assert Agrees(boxes, messages, members, m, b);
  }

  /** Counts and sort orders are nothing to roles: with no name or declared role changed, and no row
      come or gone, what was fresh is fresh. */
  lemma FreshThroughARefresh(t: Roles.Tables, boxes: Boxes, id: int, row: Mailbox, account: int)
    requires id in boxes && Fresh(t, boxes, account)
    requires row.account == boxes[id].account && row.name == boxes[id].name && row.declared == boxes[id].declared
        && row.role == boxes[id].role
    ensures Fresh(t, boxes[id := row], account)
  {
    var after := boxes[id := row];
    forall b | b in after && after[b].account == account ensures FreshAt(t, after, b) {
      assert FreshAt(t, boxes, b);
      assert Prevails(t, after, b) <==> Prevails(t, boxes, b) by {
        if Prevails(t, boxes, b) {
          forall c | c in after && after[c].account == after[b].account && RoleOf(t, after[c]) == RoleOf(t, after[b])
            ensures Roles.Before(CandidateOf(after, b), CandidateOf(after, c)) {
            assert Roles.Before(CandidateOf(boxes, b), CandidateOf(boxes, c));
          }
        }
        if Prevails(t, after, b) {
          forall c | c in boxes && boxes[c].account == boxes[b].account && RoleOf(t, boxes[c]) == RoleOf(t, boxes[b])
            ensures Roles.Before(CandidateOf(boxes, b), CandidateOf(boxes, c)) {
            assert Roles.Before(CandidateOf(after, b), CandidateOf(after, c));
          }
        }
      }
    }
  }

  /** Another account's roles do not depend on this one's mailboxes. */
  lemma FreshElsewhere(t: Roles.Tables, a: Boxes, b: Boxes, account: int, other: int)
    requires account != other && Fresh(t, a, other)
    requires forall x | x in a && a[x].account != account :: x in b && b[x] == a[x]
    requires forall x | x in b && b[x].account != account :: x in a && b[x] == a[x]
    ensures Fresh(t, b, other)
  {
    forall x | x in b && b[x].account == other ensures FreshAt(t, b, x) {
      assert FreshAt(t, a, x);
      if Prevails(t, a, x) {
        forall c | c in b && b[c].account == b[x].account && RoleOf(t, b[c]) == RoleOf(t, b[x])
          ensures Roles.Before(CandidateOf(b, x), CandidateOf(b, c)) {
          assert Roles.Before(CandidateOf(a, x), CandidateOf(a, c));
        }
      }
      if Prevails(t, b, x) {
        forall c | c in a && a[c].account == a[x].account && RoleOf(t, a[c]) == RoleOf(t, a[x])
          ensures Roles.Before(CandidateOf(a, x), CandidateOf(a, c)) {
          assert Roles.Before(CandidateOf(b, x), CandidateOf(b, c));
        }
      }
    }
  }

  lemma HeldThroughARefresh(t: Roles.Tables, boxes: Boxes, id: int, row: Mailbox)
    requires id in boxes && Held(t, boxes)
    requires row.account == boxes[id].account && row.name == boxes[id].name && row.declared == boxes[id].declared
        && row.role == boxes[id].role
    ensures Held(t, boxes[id := row])
  {
  }

  predicate Orphan(messages: Messages, members: Members, account: int, mailbox: int, serverId: string, m: int) {
    m in messages && messages[m].account == account && serverId in messages[m].mailboxIds && (m, mailbox) !in members
  }

  predicate Repairing(boxes: Boxes, messages: Messages, before: Members, now: Members, account: int, mailbox: int,
      serverId: string,
                      orphans: seq<int>, n: int, m: int, b: int)
    requires 0 <= n <= |orphans|
  {
    if m in orphans[..n] && m in messages then
      ((m, b) in now <==> Named(boxes, account, messages[m].mailboxIds, b))
      && ((m, b) in now ==> now[(m, b)] == Member(messages[m].receivedAt, Unread(messages[m].flags)))
    else ((m, b) in now <==> (m, b) in before) && ((m, b) in now ==> now[(m, b)] == before[(m, b)])
  }

  predicate RolesWritten(was: Boxes, now: Boxes, resolved: map<int, string>, ids: seq<int>, n: int, b: int)
    requires 0 <= n <= |ids|
  {
    && (b in now <==> b in was)
    && (b in now ==> now[b] == if b in ids[..n] then was[b].(role := if b in resolved then resolved[b] else "")
        else was[b])
  }

  /** Winning among the account's candidates is prevailing over its mailboxes. */
  lemma ResolvedPrevails(t: Roles.Tables, was: Boxes, boxes: Boxes, account: int, ids: seq<int>,
      candidates: seq<Roles.Candidate>,
                         resolved: map<int, string>, b: int)
    requires forall x :: x in ids <==> x in was && was[x].account == account
    requires |candidates| == |ids| && forall i | 0 <= i < |ids| ::
        ids[i] in was && candidates[i] == CandidateOf(was, ids[i])
    requires forall c | c in candidates :: Roles.Settled(t, candidates, resolved, c)
    requires SameButRoles(was, boxes) && b in ids && b in boxes && b in was
    requires boxes[b].role == if b in resolved then resolved[b] else ""
    ensures FreshAt(t, boxes, b)
  {
    var i :| 0 <= i < |ids| && ids[i] == b;
    var c := candidates[i];
    assert c in candidates && Roles.Settled(t, candidates, resolved, c);
    assert SameButRole(was, boxes, b);
    forall x | x in boxes
      ensures x in was && boxes[x].account == was[x].account && RoleOf(t, boxes[x]) == RoleOf(t, was[x])
                                  && CandidateOf(boxes, x) == CandidateOf(was, x) {
      assert SameButRole(was, boxes, x);
    }
    if Roles.Wins(t, candidates, c) {
      forall x | x in boxes && boxes[x].account == account && RoleOf(t, boxes[x]) == RoleOf(t, boxes[b])
        ensures Roles.Before(CandidateOf(boxes, b), CandidateOf(boxes, x))
      {
        assert x in ids;
        var j :| 0 <= j < |ids| && ids[j] == x;
        assert candidates[j] in candidates;
      }
    }
    if Prevails(t, boxes, b) {
      forall d | d in candidates && Roles.Contend(t, c, d) ensures Roles.Before(c, d) {
        var j :| 0 <= j < |candidates| && candidates[j] == d;
        assert SameButRole(was, boxes, ids[j]);
      }
    }
  }

  predicate Dropping(before: Members, now: Members, message: int, want: set<int>, current: seq<int>, n: int,
      m: int, b: int)
    requires 0 <= n <= |current|
  {
    && ((m, b) in now <==> (m, b) in before && !(m == message && b in current[..n] && b !in want))
    && ((m, b) in now ==> now[(m, b)] == before[(m, b)])
  }

  predicate Adding(before: Members, now: Members, message: int, at: Member, adding: seq<int>, n: int, m: int, b: int)
    requires 0 <= n <= |adding|
  {
    if m == message && b in adding[..n] then (m, b) in now && now[(m, b)] == at
    else ((m, b) in now <==> (m, b) in before) && ((m, b) in now ==> now[(m, b)] == before[(m, b)])
  }

  lemma InCurrent(members: Members, message: int, current: seq<int>, b: int)
    requires forall x :: x in current <==> x in set k | k in members && k.0 == message :: k.1
    ensures (message, b) in members ==> b in current && current[..|current|] == current
  {
    if (message, b) in members {
      assert (message, b).0 == message && (message, b).1 == b;
      assert b in set k | k in members && k.0 == message :: k.1;
    }
  }

  /** Of two folders upserted into an empty account one holds the role both classify to. */
  lemma TwoSentFolders(first: Boxes, boxes: Boxes)
    requires UniqueBoxes(boxes) && Fresh(SENT, boxes, 1)
    requires forall b | b in first :: BoxIs(first, 1, "a", b)
    requires forall b | b in boxes && b !in first :: BoxIs(boxes, 1, "b", b)
    requires exists b :: BoxIs(first, 1, "a", b) && first[b].name == "Sent" && first[b].declared == ""
    requires exists b :: BoxIs(boxes, 1, "b", b) && boxes[b].name == "Sent Items" && boxes[b].declared == ""
    requires forall b | b in first && !BoxIs(first, 1, "b", b) ::
               b in boxes && boxes[b] == first[b].(role := boxes[b].role)
    ensures forall x | x in boxes ::
              (BoxIs(boxes, 1, "a", x) || BoxIs(boxes, 1, "b", x)) && RoleOf(SENT, boxes[x]) == "sent"
    ensures exists x :: BoxIs(boxes, 1, "a", x)
    ensures exists y :: BoxIs(boxes, 1, "b", y)
    ensures forall x, y | BoxIs(boxes, 1, "a", x) && BoxIs(boxes, 1, "b", y) ::
              if boxes[x].role != "" then boxes[x].role == "sent" else boxes[y].role == "sent"
  {
    var x :| BoxIs(first, 1, "a", x) && first[x].name == "Sent" && first[x].declared == "";
    var y :| BoxIs(boxes, 1, "b", y) && boxes[y].name == "Sent Items" && boxes[y].declared == "";
    assert BoxIs(boxes, 1, "a", x);
    var w := Heir(SENT, boxes, x);
    assert FreshAt(SENT, boxes, w) && FreshAt(SENT, boxes, x) && FreshAt(SENT, boxes, y);
  }

  /** The store's own writers lead to stale roles: two folders the name heuristic reads as one role, and
      a delete of the one that holds it. */
  method LoseTheHolder() returns (store: Store)
    ensures store.Valid() && store.roles == SENT && !Fresh(store.roles, store.boxes, 1)
  {
    hide Fresh, Held, AllAgree, AllTrack;
    store := new Store(SENT);
    store.UpsertMailbox(1, "a", "Sent", "", (0, 0, 0));
    ghost var first := store.boxes;
    store.UpsertMailbox(1, "b", "Sent Items", "", (0, 0, 0));
    ghost var boxes := store.boxes;
    TwoSentFolders(first, boxes);
    var a := store.FindBox(1, "a");
    var b := store.FindBox(1, "b");
    var holder := if store.boxes[a.value].role != "" then "a" else "b";
    ghost var gone := if holder == "a" then a.value else b.value;
    HolderLost(boxes, gone, if holder == "a" then b.value else a.value);
    store.DeleteMailbox(1, holder);
    SameRest(store.boxes, boxes, gone);
  }

  lemma HolderLost(boxes: Boxes, gone: int, other: int)
    requires gone in boxes && other in boxes && gone != other && boxes[gone].account == 1 && boxes[other].account == 1
    requires Fresh(SENT, boxes, 1) && boxes[gone].role == "sent" && RoleOf(SENT, boxes[other]) == "sent"
    ensures !Fresh(SENT, boxes - {gone}, 1)
  {
    RolesAfterADelete(SENT, boxes, gone);
  }

  lemma SameRest(after: Boxes, boxes: Boxes, gone: int)
    requires forall b :: b in after <==> b in boxes && b != gone
    requires forall b | b in after :: after[b] == boxes[b]
    ensures after == boxes - {gone}
  {
    var rest := boxes - {gone};
    forall b: int ensures SameAt(after, rest, b) {}
    SameEverywhere(after, rest);
  }

  predicate SameAt(a: Boxes, b: Boxes, x: int) { (x in a <==> x in b) && (x in a ==> a[x] == b[x]) }

  lemma SameEverywhere(a: Boxes, b: Boxes)
    requires forall x :: SameAt(a, b, x)
    ensures a == b
  {
    forall x: int ensures x in a <==> x in b { assert SameAt(a, b, x); }
    forall x: int | x in b ensures a[x] == b[x] { assert SameAt(a, b, x); }
  }
}
