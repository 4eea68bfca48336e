/** The reference walk's rewrites: what one changes, and why stopping halfway costs nothing. */
module OutboxWalk {
  import opened Common
  import opened OutboxRows
  import opened OutboxWorld

  /** A rewrite replaces the reference and nothing else: put back, the payload is what it was. */
  lemma RewriteChangesTheReferenceOnly(p: Payload, create: int, serverId: string)
    requires create != 0
    ensures RewriteRef(p, create, serverId).Some? <==> p.Ref() == create
    ensures var r := RewriteRef(p, create, serverId);
            r.Some? ==>
              && r.value.Ref() == 0 && r.value.Patched() == serverId
              && (match p
                  case CreateMailbox(name, mailbox, _, server, resolved) => r.value
                      == CreateMailbox(name, mailbox, 0, serverId, resolved)
                  case MoveMessages(messages, mailbox, _, server, prior) => r.value
                      == MoveMessages(messages, mailbox, 0, serverId, prior)
                  case _ => false)
  {
  }

  /** A patched row keeps its owner, its state and its schedule; another account's row, the create's
      own and one that names no such create stay as they are. */
  lemma PatchedRowFacts(r: Row, account: int, id: int, create: int, serverId: string)
    requires create != 0
    ensures var q := PatchedRow(r, account, id, create, serverId);
            && q == r.(payload := q.payload)
            && (r.account != account || id == create || r.payload.Ref() != create ==> q == r)
            && (r.account == account && id != create ==> q.payload.Ref() != create)
  {
    RewriteChangesTheReferenceOnly(r.payload, create, serverId);
  }

  /** Patching page after page is patching their rows together. */
  lemma PagesCompose(rows: Table, a: seq<int>, b: seq<int>, account: int, create: int, serverId: string)
    requires create != 0
    ensures PatchPage(PatchPage(rows, a, account, create, serverId), b, account, create, serverId)
            == PatchPage(rows, a + b, account, create, serverId)
  {
    var first := PatchPage(rows, a, account, create, serverId);
    var second := PatchPage(first, b, account, create, serverId);
    var whole := PatchPage(rows, a + b, account, create, serverId);
    forall id | id in second ensures second[id] == whole[id] {
      PatchedRowFacts(rows[id], account, id, create, serverId);
      PatchedTwice(rows[id], account, id, create, serverId);
    }
    SameTable(second, whole);
  }

  lemma PatchedTwice(r: Row, account: int, id: int, create: int, serverId: string)
    requires create != 0
    ensures PatchedRow(PatchedRow(r, account, id, create, serverId), account, id, create, serverId)
            == PatchedRow(r, account, id, create, serverId)
  {
    PatchedRowFacts(r, account, id, create, serverId);
  }

  function Flat(pages: seq<seq<int>>): seq<int> { if pages == [] then [] else pages[0] + Flat(pages[1..]) }

  /** A walk over pages, each its own transaction. */
  function Walked(rows: Table, pages: seq<seq<int>>, account: int, create: int, serverId: string): Table
    decreases |pages|
  {
    if pages == [] then rows
        else Walked(PatchPage(rows, pages[0], account, create, serverId), pages[1..], account, create, serverId)
  }

  lemma {:induction false} WalkIsOnePatch(rows: Table, pages: seq<seq<int>>, account: int, create: int,
      serverId: string)
    requires create != 0
    ensures Walked(rows, pages, account, create, serverId) == PatchPage(rows, Flat(pages), account, create, serverId)
    decreases |pages|
  {
    if pages == [] {
      RewriteNothing(rows, account, create, serverId);
    } else {
      WalkIsOnePatch(PatchPage(rows, pages[0], account, create, serverId), pages[1..], account, create, serverId);
      PagesCompose(rows, pages[0], Flat(pages[1..]), account, create, serverId);
    }
  }

  /** A walk that failed after some pages, run again from the start over the same rows and however the
      pages are cut this time, ends as one clean walk does. */
  lemma RerunIsOneCleanWalk(rows: Table, done: seq<seq<int>>, again: seq<seq<int>>, clean: seq<seq<int>>, account: int,
      create: int, serverId: string)
    requires create != 0
    requires forall id | id in rows :: id in Flat(again) && id in Flat(clean)
    ensures Walked(Walked(rows, done, account, create, serverId), again, account, create, serverId)
            == Walked(rows, clean, account, create, serverId)
  {
    WalkIsOnePatch(rows, done, account, create, serverId);
    WalkIsOnePatch(PatchPage(rows, Flat(done), account, create, serverId), again, account, create, serverId);
    WalkIsOnePatch(rows, clean, account, create, serverId);
    PagesCompose(rows, Flat(done), Flat(again), account, create, serverId);
    SameTable(PatchPage(rows, Flat(done) + Flat(again), account, create, serverId),
        PatchPage(rows, Flat(clean), account, create, serverId));
  }
}
