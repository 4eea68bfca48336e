/** The user's side of the outbox: undo, and the bulk move that is all or reported. Anything the
    dispatcher does, crashes included, may happen between two of its transactions. */
module OutboxEnqueue {
  import opened Common
  import opened Ordered
  import opened OutboxRows
  import opened OutboxMachine
  import opened OutboxInvariant
  import opened OutboxSteps
  import opened OutboxTheorems
  import opened OutboxWorld

  const MOVE_CHUNK_MESSAGES: nat := 250
  const DEFAULT_WIRE_BATCH: nat := 50

  /** The most objects one request may carry, of a backend reporting maxObjects. */
  function WireBatchLimit(maxObjects: int): (n: nat)
    ensures n >= 1 && (n == maxObjects || (maxObjects <= 0 && n == DEFAULT_WIRE_BATCH))
  {
    if maxObjects > 0 then maxObjects else DEFAULT_WIRE_BATCH
  }

  /** The most messages of one chunk: what a transaction and what a request may carry both bound it, and one
      of them is spent. */
  function MoveChunkSize(maxObjects: int): (n: nat)
    ensures 1 <= n <= MOVE_CHUNK_MESSAGES && n <= WireBatchLimit(maxObjects)
    ensures n == MOVE_CHUNK_MESSAGES || n == WireBatchLimit(maxObjects)
    ensures maxObjects > 0 ==> n <= maxObjects && (maxObjects <= MOVE_CHUNK_MESSAGES ==> n == maxObjects)
  {
    if WireBatchLimit(maxObjects) < MOVE_CHUNK_MESSAGES then WireBatchLimit(maxObjects) else MOVE_CHUNK_MESSAGES
  }

  function Concat(chunks: seq<seq<int>>): seq<int> {
    if chunks == [] then [] else Concat(chunks[..|chunks| - 1]) + chunks[|chunks| - 1]
  }

  /** Every chunk is non-empty and within size, and all but the last are full. */
  predicate Sized(chunks: seq<seq<int>>, size: nat) {
    forall i | 0 <= i < |chunks| :: 0 < |chunks[i]| <= size && (i < |chunks| - 1 ==> |chunks[i]| == size)
  }

  predicate AllFull(chunks: seq<seq<int>>, size: nat) { forall i | 0 <= i < |chunks| :: |chunks[i]| == size }

  lemma SizedMore(chunks: seq<seq<int>>, size: nat, c: seq<int>)
    requires Sized(chunks, size) && AllFull(chunks, size) && 0 < |c| <= size
    ensures Sized(chunks + [c], size) && (|c| == size ==> AllFull(chunks + [c], size))
  {
  }

  lemma ConcatAppend(chunks: seq<seq<int>>, c: seq<int>)
    ensures Concat(chunks + [c]) == Concat(chunks) + c
  {
    assert (chunks + [c])[..|chunks|] == chunks;
  }

  lemma Regroup(a: seq<int>, rest: seq<int>, n: nat)
    requires n <= |rest|
    ensures (a + rest[..n]) + rest[n..] == a + rest
  {
  }

  method Chunks(ids: seq<int>, size: nat) returns (out: seq<seq<int>>)
    requires size >= 1
    ensures Concat(out) == ids && Sized(out, size)
  {
    out := [];
    var rest := ids;
    assert Concat(out) == [] && Sized(out, size) && AllFull(out, size);
    hide Concat, Sized, AllFull;
    while rest != []
      invariant Concat(out) + rest == ids
      invariant Sized(out, size) && (rest != [] ==> AllFull(out, size))
      decreases |rest|
    {
      var n := if size < |rest| then size else |rest|;
      ConcatAppend(out, rest[..n]);
      Regroup(Concat(out), rest, n);
      SizedMore(out, size, rest[..n]);
      out := out + [rest[..n]];
      rest := rest[n..];
    }
  }

  /** Each of committed, in order, that annihilated does not name. */
  function Escaped(committed: seq<int>, annihilated: seq<int>): seq<int> {
    if committed == [] then []
    else
      var last := committed[|committed| - 1];
      Escaped(committed[..|committed| - 1], annihilated) + if last in annihilated then [] else [last]
  }

  lemma {:induction false} EscapedHolds(committed: seq<int>, annihilated: seq<int>, id: int)
    ensures id in Escaped(committed, annihilated) <==> id in committed && id !in annihilated
  {
    if committed != [] {
      var n := |committed| - 1;
      EscapedHolds(committed[..n], annihilated, id);
      assert committed == committed[..n] + [committed[n]];
    }
  }

  method EscapedIds(committed: seq<int>, annihilated: seq<int>) returns (escaped: seq<int>)
    ensures escaped == Escaped(committed, annihilated)
  {
    var caught: set<int> := {};
    for i := 0 to |annihilated|
      invariant forall x: int :: x in caught <==> x in annihilated[..i]
    {
      assert annihilated[..i + 1] == annihilated[..i] + [annihilated[i]];
      caught := caught + {annihilated[i]};
    }
    assert annihilated[..|annihilated|] == annihilated;
    escaped := [];
    for i := 0 to |committed|
      invariant escaped == Escaped(committed[..i], annihilated)
    {
      assert committed[..i + 1][..i] == committed[..i];
      if committed[i] !in caught { escaped := escaped + [committed[i]]; }
    }
    assert committed[..|committed|] == committed;
  }

  lemma StepKeepsLog(s: Sys, e: Event)
    requires Enabled(s, e)
    ensures s.hist.log <= After(s, e).hist.log && After(s, e).me == s.me
  {
  }

  /** What every step keeps of the past: the intents born so far, and their fates. */
  predicate Later(a: Sys, b: Sys) {
    b.me == a.me && a.hist.log <= b.hist.log && forall n | n in a.hist.fate ::
        n in b.hist.fate && b.hist.fate[n] == a.hist.fate[n]
  }

  lemma StepIsLater(s: Sys, e: Event)
    requires Reachable(s) && Enabled(s, e)
    ensures Later(s, After(s, e))
  {
    ReachableInv(s);
    StepKeepsLog(s, e);
    forall n | n in s.hist.fate ensures n in After(s, e).hist.fate && After(s, e).hist.fate[n] == s.hist.fate[n] {
      StepKeepsFates(s, e, n);
    }
  }

  /** The rows left of `rows` once the first n of ids are annihilated. */
  ghost predicate UndoneSoFar(rows: Table, now: Table, ids: seq<int>, n: nat, caught: seq<int>)
    requires n <= |ids|
  {
    && (forall x :: x in now <==> x in rows && x !in caught)
    && (forall x | x in now :: now[x] == rows[x])
    && (forall x: int :: x in caught <==> x in ids[..n] && x in rows && rows[x].state == Queued)
    && (forall i, j | 0 <= i < j < |caught| :: caught[i] != caught[j])
  }

  /** The intent a chunk becomes: its messages, and each one's mailbox if known. */
  function ChunkPayload(chunk: seq<int>, dest: int, ref: int, mailboxOf: map<int, int>): Payload {
    MoveMessages(chunk, dest, ref, "", map m | m in chunk :: if m in mailboxOf then mailboxOf[m] else 0)
  }

  /** Intent n is the enqueued chunk. */
  predicate IsChunk(s: Sys, n: int, id: int, chunk: seq<int>, dest: int, ref: int) {
    && 0 <= n < |s.hist.log| && s.hist.log[n].id == id && s.hist.log[n].payload.MoveMessages?
    && s.hist.log[n].payload.messages == chunk && s.hist.log[n].payload.destMailbox == dest
        && s.hist.log[n].payload.destRef == ref
  }

  /** The i-th id is that of the i-th chunk's intent, whose birth number is born[i]. */
  predicate Committed(s: Sys, ids: seq<int>, born: seq<int>, chunks: seq<seq<int>>, dest: int, ref: int) {
    && |ids| == |born| <= |chunks|
    && forall i | 0 <= i < |ids| :: IsChunk(s, born[i], ids[i], chunks[i], dest, ref)
  }

  /** The i-th chunk's intent remembers where each of its messages was: what `froms[i]` had of it, or 0. */
  predicate Remembers(s: Sys, born: seq<int>, chunks: seq<seq<int>>, froms: seq<map<int, int>>) {
    && |born| == |froms| <= |chunks|
    && forall i | 0 <= i < |born| :: RemembersChunk(s, born[i], chunks[i], froms[i])
  }

  predicate RemembersChunk(s: Sys, n: int, chunk: seq<int>, from: map<int, int>) {
    && 0 <= n < |s.hist.log| && s.hist.log[n].payload.MoveMessages?
    && var prior := s.hist.log[n].payload.prior;
       && (forall m | m in prior :: m in chunk)
       && (forall m | m in chunk :: m in prior && prior[m] == if m in from then from[m] else 0)
  }

  lemma RemembersLater(a: Sys, b: Sys, born: seq<int>, chunks: seq<seq<int>>, froms: seq<map<int, int>>)
    requires Remembers(a, born, chunks, froms) && Later(a, b)
    ensures Remembers(b, born, chunks, froms)
  {
    forall i | 0 <= i < |born| ensures RemembersChunk(b, born[i], chunks[i], froms[i]) {
      assert RemembersChunk(a, born[i], chunks[i], froms[i]);
    }
  }

  lemma RemembersOne(s: Sys, born: seq<int>, chunks: seq<seq<int>>, froms: seq<map<int, int>>, dest: int, ref: int,
      from: map<int, int>, at: int)
    requires Remembers(s, born, chunks, froms) && |born| < |chunks|
    requires Enabled(s, Enqueue(ChunkPayload(chunks[|born|], dest, ref, from), at))
    ensures Remembers(After(s, Enqueue(ChunkPayload(chunks[|born|], dest, ref, from), at)),
                      born + [|s.hist.log|], chunks, froms + [from])
  {
    var t := After(s, Enqueue(ChunkPayload(chunks[|born|], dest, ref, from), at));
    var born2, froms2 := born + [|s.hist.log|], froms + [from];
    forall i | 0 <= i < |born2| ensures RemembersChunk(t, born2[i], chunks[i], froms2[i]) {
      if i < |born| { assert RemembersChunk(s, born[i], chunks[i], froms[i]); }
    }
  }

  lemma CommittedLater(a: Sys, b: Sys, ids: seq<int>, born: seq<int>, chunks: seq<seq<int>>, dest: int, ref: int)
    requires Committed(a, ids, born, chunks, dest, ref) && Later(a, b)
    ensures Committed(b, ids, born, chunks, dest, ref)
  {
    forall i | 0 <= i < |ids| ensures IsChunk(b, born[i], ids[i], chunks[i], dest, ref) {
      assert IsChunk(a, born[i], ids[i], chunks[i], dest, ref);
    }
  }

  lemma CommitsOne(s: Sys, ids: seq<int>, born: seq<int>, chunks: seq<seq<int>>, dest: int, ref: int,
      p: Payload, at: int)
    requires Committed(s, ids, born, chunks, dest, ref) && |ids| < |chunks| && Enabled(s, Enqueue(p, at))
    requires p.MoveMessages? && p.messages == chunks[|ids|] && p.destMailbox == dest && p.destRef == ref
    ensures Committed(After(s, Enqueue(p, at)), ids + [NextId(s.rows.Keys)], born + [|s.hist.log|], chunks, dest, ref)
  {
    var t := After(s, Enqueue(p, at));
    var ids2, born2 := ids + [NextId(s.rows.Keys)], born + [|s.hist.log|];
    forall i | 0 <= i < |ids2| ensures IsChunk(t, born2[i], ids2[i], chunks[i], dest, ref) {
      if i < |ids| { assert IsChunk(s, born[i], ids[i], chunks[i], dest, ref); }
    }
  }

  /** A bulk move's answer: the ids of every chunk; a bad destination; the committed chunks a failed
      call could not roll back; or all of them, when the rollback itself failed. */
  datatype Bulk = Enqueued(ids: seq<int>) | Invalid | RolledBack(escaped: seq<int>) | NotRolledBack(ids: seq<int>)

  /** What a failed bulk move reports of chunk i, against what became of it: its id is left out
      exactly when the rollback deleted the chunk's own intent, but for one case: the intent was
      over before the rollback, and some queued row had come to its id. */
  lemma ReportIsExactIff(s: Sys, ids: seq<int>, born: seq<int>, chunks: seq<seq<int>>, dest: int, ref: int,
      caught: seq<int>, i: int)
    requires Reachable(s) && Committed(s, ids, born, chunks, dest, ref) && 0 <= i < |ids|
    requires forall x: int :: x in caught <==> x in Caught(s.rows, ids)
    ensures (ids[i] !in Escaped(ids, caught) <==> CaughtSerial(s, ids, born[i]))
            <==> !(born[i] in s.hist.fate && ids[i] in s.rows && s.rows[ids[i]].state == Queued)
  {
    ReachableInv(s);
    var id: int := ids[i];
    assert id in ids;
    EscapedHolds(ids, caught, id);
    assert IsChunk(s, born[i], id, chunks[i], dest, ref);
  }

  // ---------------------------------------------------------------- the hold of an undoable move

  /** The latest next-attempt time of the rows a claim of the first n ids takes, or `before`. */
  function LatestOf(rows: Table, ids: seq<int>, n: nat, before: int): (latest: int)
    requires n <= |ids|
    ensures latest >= before && forall i | 0 <= i < n && ids[i] in rows :: rows[ids[i]].nextAt <= latest
    ensures latest == before || exists i | 0 <= i < n && ids[i] in rows :: rows[ids[i]].nextAt == latest
  {
    if n == 0 then before
    else
      var rest := LatestOf(rows, ids, n - 1, before);
      if ids[n - 1] in rows && rows[ids[n - 1]].nextAt > rest then rows[ids[n - 1]].nextAt else rest
  }

  /** The latest next-attempt time any claim has reached once e is over. */
  function Reached(s: Sys, e: Event, before: int): int {
    if e.Claim? then LatestOf(s.rows, e.ids, |e.ids|, before) else before
  }

  function Named(e: Event): set<int> { if e.UndoIds? then set id | id in e.ids else {} }

  /** The account's queued row `id`, which waits until `at`. */
  predicate Waits(s: Sys, id: int, serial: int, at: int) {
    && id in s.rows && s.rows[id].account == s.me && s.rows[id].state == Queued
    && s.rows[id].serial == serial && s.rows[id].nextAt == at
  }

  /** A queued row stays queued until a claim reaches its time or an Undo names it. */
  predicate Held(a: Sys, b: Sys, latest: int, undone: set<int>, id: int, serial: int, at: int) {
    Waits(a, id, serial, at) && latest < at && id !in undone ==> Waits(b, id, serial, at)
  }

  ghost predicate HoldsAll(a: Sys, b: Sys, latest: int, undone: set<int>) {
    forall id, serial, at :: Held(a, b, latest, undone, id, serial, at)
  }

  lemma QueuedIsUnclaimed(s: Sys, id: int)
    requires Inv(s) && s.pass.Running? && id in s.rows && s.rows[id].state == Queued
    ensures id !in s.pass.live.claimed
  {
    var l := s.pass.live;
    assert forall k | k in l.claimed :: ClaimedOK(s.me, s.rows, s.server, s.hist, k, l.claimed[k]);
  }

  lemma PersistsAClaim(s: Sys, id: int)
    requires Inv(s) && Enabled(s, Persist(id))
    ensures s.rows[id].state == Dispatching
  {
    assert ClaimedOK(s.me, s.rows, s.server, s.hist, id, s.pass.live.claimed[id]);
  }

  lemma ConclusionHolds(s: Sys, e: Event, id: int, serial: int, at: int)
    requires Enabled(s, e) && (e.Finalize? || e.Recover?) && Waits(s, id, serial, at) && id !in s.pass.live.claimed
    ensures Waits(After(s, e), id, serial, at)
  {
    assert forall k :: k in s.pass.live.decided ==> k in s.pass.live.decided.Keys;
    assert id !in s.pass.live.claimed.Keys;
  }

  lemma PageHolds(s: Sys, e: Event, id: int, serial: int, at: int)
    requires Enabled(s, e) && e.Page? && Waits(s, id, serial, at)
    ensures Waits(After(s, e), id, serial, at)
  {
  }

  lemma RestHolds(s: Sys, e: Event, id: int, serial: int, at: int)
    requires Enabled(s, e) && Waits(s, id, serial, at) && !e.Finalize? && !e.Recover? && !e.Page?
    requires e.Claim? ==> id !in e.ids
    requires e.UndoIds? ==> id !in e.ids
    requires e.Persist? ==> e.id != id
    ensures Waits(After(s, e), id, serial, at)
  {
    assert NextId(s.rows.Keys) !in s.rows.Keys;
  }

  lemma StepHolds(s: Sys, e: Event, before: int, id: int, serial: int, at: int)
    requires Inv(s) && Enabled(s, e)
    ensures Held(s, After(s, e), Reached(s, e, before), Named(e), id, serial, at)
  {
    hide Inv, After;
    if Waits(s, id, serial, at) && Reached(s, e, before) < at && id !in Named(e) {
      if e.Finalize? || e.Recover? {
        QueuedIsUnclaimed(s, id);
        ConclusionHolds(s, e, id, serial, at);
      } else if e.Page? {
        PageHolds(s, e, id, serial, at);
      } else {
        if e.Persist? { PersistsAClaim(s, e.id); }
        RestHolds(s, e, id, serial, at);
      }
    }
  }

  lemma HeldTwice(a: Sys, b: Sys, c: Sys, latest: int, latest2: int, undone: set<int>, undone2: set<int>)
    requires HoldsAll(a, b, latest, undone) && HoldsAll(b, c, latest2, undone2)
    requires latest <= latest2 && undone <= undone2
    ensures HoldsAll(a, c, latest2, undone2)
  {
    forall id: int, serial: int, at: int ensures Held(a, c, latest2, undone2, id, serial, at) {
      assert Held(a, b, latest, undone, id, serial, at) && Held(b, c, latest2, undone2, id, serial, at);
    }
  }

  lemma LaterTwice(a: Sys, b: Sys, c: Sys)
    requires Later(a, b) && Later(b, c)
    ensures Later(a, c)
  {
  }

  /** One more step of the rest of the system. */
  lemma YieldOn(a: Sys, s: Sys, e: Event, latest: int, undone: set<int>)
    requires Reachable(s) && Enabled(s, e) && Later(a, s) && HoldsAll(a, s, latest, undone)
    ensures Reachable(After(s, e)) && Later(a, After(s, e)) && latest <= Reached(s, e, latest)
    ensures HoldsAll(a, After(s, e), Reached(s, e, latest), undone + Named(e))
  {
    hide Reachable, Inv, Enabled, After, HoldsAll, Later, Named;
    StepIsLater(s, e);
    LaterTwice(a, s, After(s, e));
    ReachableOn(s, e);
    ReachableInv(s);
    StepHoldsAll(s, e, latest, undone);
    HeldTwice(a, s, After(s, e), latest, Reached(s, e, latest), undone, undone + Named(e));
  }

  lemma StepHoldsAll(s: Sys, e: Event, before: int, undone: set<int>)
    requires Inv(s) && Enabled(s, e)
    ensures HoldsAll(s, After(s, e), Reached(s, e, before), undone + Named(e))
  {
    forall id: int, serial: int, at: int
      ensures Held(s, After(s, e), Reached(s, e, before), undone + Named(e), id, serial, at) {
      StepHolds(s, e, before, id, serial, at);
    }
  }

  lemma NothingHappens(s: Sys, latest: int, undone: set<int>)
    ensures HoldsAll(s, s, latest, undone)
  {
  }

  /** No other Undo named any of ids. */
  predicate Undisturbed(ids: seq<int>, undone: set<int>) { forall i | 0 <= i < |ids| :: ids[i] !in undone }

  /** Each id's row still waits out its hold, unless a claim reached the hold or an Undo named it. */
  predicate AllWait(s: Sys, ids: seq<int>, born: seq<int>, at: int, latest: int, undone: set<int>) {
    && |ids| == |born|
    && forall i | 0 <= i < |ids| && latest < at && ids[i] !in undone :: Waits(s, ids[i], born[i], at)
  }

  lemma NoneCommitted(s: Sys, chunks: seq<seq<int>>, dest: int, ref: int, at: int, latest: int, undone: set<int>)
    ensures Committed(s, [], [], chunks, dest, ref) && Remembers(s, [], chunks, [])
    ensures AllWait(s, [], [], at, latest, undone)
  {
  }

  lemma AllWaitOn(a: Sys, b: Sys, ids: seq<int>, born: seq<int>, at: int, before: int, gone: set<int>, latest: int,
      undone: set<int>)
    requires AllWait(a, ids, born, at, before, gone) && before <= latest && gone <= undone
    requires HoldsAll(a, b, latest, undone)
    ensures AllWait(b, ids, born, at, latest, undone)
  {
    forall i | 0 <= i < |ids| && latest < at && ids[i] !in undone ensures Waits(b, ids[i], born[i], at) {
      assert Held(a, b, latest, undone, ids[i], born[i], at);
    }
  }

  lemma EnqueueWaits(s: Sys, ids: seq<int>, born: seq<int>, p: Payload, at: int, latest: int, undone: set<int>)
    requires AllWait(s, ids, born, at, latest, undone) && Enabled(s, Enqueue(p, at))
    ensures AllWait(After(s, Enqueue(p, at)), ids + [NextId(s.rows.Keys)], born + [|s.hist.log|], at, latest, undone)
  {
    assert NextId(s.rows.Keys) !in s.rows.Keys;
    var t := After(s, Enqueue(p, at));
    var ids2, born2 := ids + [NextId(s.rows.Keys)], born + [|s.hist.log|];
    forall i | 0 <= i < |ids2| && latest < at && ids2[i] !in undone ensures Waits(t, ids2[i], born2[i], at) {
      if i < |ids| { assert Waits(s, ids[i], born[i], at); }
    }
  }

  /** While the hold of an undoable move runs, and no other Undo names its rows, the rollback of a failed
      call catches every chunk: nothing escapes, and the report of none is exact. */
  lemma HeldChunksRollBack(s: Sys, ids: seq<int>, born: seq<int>, chunks: seq<seq<int>>, dest: int, ref: int,
                           at: int, latest: int, undone: set<int>, caught: seq<int>)
    requires Committed(s, ids, born, chunks, dest, ref) && AllWait(s, ids, born, at, latest, undone)
    requires forall x: int :: x in caught <==> x in Caught(s.rows, ids)
    ensures latest < at && Undisturbed(ids, undone) ==>
              Escaped(ids, caught) == [] && forall i | 0 <= i < |ids| :: CaughtSerial(s, ids, born[i])
  {
    if latest < at && Undisturbed(ids, undone) {
      forall i | 0 <= i < |ids| ensures CaughtSerial(s, ids, born[i]) && ids[i] in caught {
        assert Waits(s, ids[i], born[i], at) && IsChunk(s, born[i], ids[i], chunks[i], dest, ref);
        assert ids[i] in ids;
      }
      if Escaped(ids, caught) != [] { EscapedHolds(ids, caught, Escaped(ids, caught)[0]); }
    }
  }

  const MOVE := MoveMessages([7], 3, 0, "", map[7 := 2])

  lemma LoneMove(me: int) returns (s: Sys)
    ensures Reachable(s) && s.me == me && s.pass == Idle
        && s.hist == Hist([Intent(1, MOVE, -1)], map[], map[], map[], map[])
    ensures s.rows == map[1 := Row(me, MOVE, Queued, 0, 0, None, "", 0)]
  {
    var s0 := Sys(me, map[], MailServer(map[], {}, {}, {}, {}), Idle, {}, Hist([], map[], map[], map[], map[]), map[]);
    assert Initial(s0) && Runs(s0, [], s0);
    assert s0.rows.Keys == {} && NextId({}) == 1;
    s := After(s0, Enqueue(MOVE, 0));
    ReachableOn(s0, Enqueue(MOVE, 0));
  }

  /** A pass that claimed a lone move whose message is gone. */
  lemma ClaimedMove(me: int) returns (s: Sys)
    ensures Reachable(s) && s.me == me && s.pass.Running?
        && s.hist == Hist([Intent(1, MOVE, -1)], map[], map[], map[], map[])
    ensures s.rows.Keys == {1} && s.rows[1].account == me && s.rows[1].serial == 0
    ensures s.pass.live.claimed.Keys == {1} && s.pass.live.claimed[1].serial == 0 && s.pass.live.decided == map[]
  {
    hide Reachable, Inv;
    var s1 := LoneMove(me);
    assert 1 in [1];
    ReachableOn(s1, Event.Claim([1], map[], map[]));
    s := After(s1, Event.Claim([1], map[], map[]));
    assert s.pass.live.claimed.Keys == {1};
  }

  lemma GivenUpMove(me: int) returns (s: Sys)
    ensures Reachable(s) && s.me == me && s.pass.Running?
        && s.hist == Hist([Intent(1, MOVE, -1)], map[], map[], map[], map[])
    ensures s.rows.Keys == {1} && s.rows[1].account == me && s.rows[1].serial == 0
    ensures s.pass.live.claimed.Keys == {1} && s.pass.live.claimed[1].serial == 0
    ensures s.pass.live.decided == map[1 := GiveUp(NotFound, "")]
  {
    var s2 := ClaimedMove(me);
    s := After(s2, Decide(1, GiveUp(NotFound, "")));
    assert 1 in s2.pass.live.claimed.Keys;
    ReachableOn(s2, Decide(1, GiveUp(NotFound, "")));
  }

  lemma FinishedMove(me: int) returns (s: Sys)
    ensures Reachable(s) && s.me == me && s.rows.Keys == {} && s.hist.log == [Intent(1, MOVE, -1)]
    ensures 0 in s.hist.fate && s.hist.fate[0] == Failed
  {
    var s3 := GivenUpMove(me);
    assert s3.pass.live.decided.Keys == {1};
    ReachableOn(s3, Event.Finalize(0));
    s := After(s3, Event.Finalize(0));
    assert Settles(s3.hist.log, s3.pass.live, 0);
    SettleFacts(s3.hist, s3.pass.live);
    forall id: int ensures id !in s.rows.Keys {}
  }

  /** The failing case is real: a chunk that is over before the rollback, whose row id a new intent
      took, is reported rolled back, and the new intent is deleted in its place. */
  lemma ReportCanMislead(me: int) returns (s: Sys)
    ensures Reachable(s) && |s.hist.log| == 2 && 0 in s.hist.fate && s.hist.fate[0] == Failed
    ensures s.hist.log[0].id == 1 && s.hist.log[1].id == 1
    ensures 1 in Caught(s.rows, [1]) && CaughtSerial(s, [1], 1) && !CaughtSerial(s, [1], 0)
  {
    var s4 := FinishedMove(me);
    assert s4.rows.Keys == {} && NextId({}) == 1;
    s := After(s4, Enqueue(MOVE, 0));
    ReachableOn(s4, Enqueue(MOVE, 0));
    assert 1 in [1];
  }

  class Desk {
    var sys: Sys
    /** How many outside steps the rest of the run holds. */
    var patience: nat
    /** The latest next-attempt time a claim has reached, and the row ids other Undos named. */
    ghost var latest: int
    ghost var undone: set<int>
    /** How many of this process's own transactions have failed so far. */
    ghost var faults: nat

    constructor (s: Sys, patience: nat, ghost latest: int)
      requires Reachable(s)
      ensures sys == s && this.patience == patience && this.latest == latest && undone == {}
    {
      sys := s;
      this.patience := patience;
      this.latest, undone, faults := latest, {}, 0;
    }

    /** A transaction of this process's own: it commits, or the failure is on record. */
    method Attempt() returns (ok: bool)
      modifies this`faults
      ensures faults == old(faults) + if ok then 0 else 1
    {
      ok := *;
      if !ok { faults := faults + 1; }
    }

    /** Any steps at all of the rest of the system, the dispatcher's and a crash's among them. */
    method Yield()
      requires Reachable(sys)
      modifies this`sys, this`patience, this`latest, this`undone
      ensures Reachable(sys) && Later(old(sys), sys)
      ensures old(latest) <= latest && old(undone) <= undone && HoldsAll(old(sys), sys, latest, undone)
    {
      NothingHappens(sys, latest, undone);
      assert Later(sys, sys);
      hide Reachable, Enabled, After, Later, HoldsAll, Reached, Named;
      var more: bool := *;
      while more && patience > 0
        invariant Reachable(sys) && Later(old(sys), sys)
        invariant old(latest) <= latest && old(undone) <= undone && HoldsAll(old(sys), sys, latest, undone)
        decreases patience
      {
        var e: Event := *;
        if Enabled(sys, e) {
          YieldOn(old(sys), sys, e, latest, undone);
          latest, undone := Reached(sys, e, latest), undone + Named(e);
          sys := After(sys, e);
        }
        patience := patience - 1;
        more := *;
      }
    }

    /** Undo: every id still queued goes, in one transaction, and is reported once. */
    method Undo(ids: seq<int>) returns (ok: bool, caught: seq<int>, ghost at: Sys)
      requires Reachable(sys)
      modifies this
      ensures Reachable(sys) && Reachable(at) && Later(old(sys), at) && Later(at, sys)
      ensures old(latest) <= latest && old(undone) <= undone && HoldsAll(old(sys), at, latest, undone)
      ensures sys == if ok then After(at, UndoIds(ids)) else at
      ensures !ok ==> caught == []
      ensures faults == old(faults) + if ok then 0 else 1
      ensures ok ==> (forall x: int :: x in caught <==> x in ids && x in at.rows && at.rows[x].state == Queued)
      ensures ok ==> (forall x :: x in sys.rows <==> x in at.rows && (x !in ids || at.rows[x].state != Queued))
                     && forall x | x in sys.rows :: sys.rows[x] == at.rows[x]
      ensures ok ==> (forall x: int :: x in caught <==> x in Caught(at.rows, ids))
                     && forall i, j | 0 <= i < j < |caught| :: caught[i] != caught[j]
    {
      Yield();
      at := sys;
      ok := Attempt();
      if !ok { return false, [], at; }
      var rows := sys.rows;
      caught := [];
      for n := 0 to |ids|
        invariant UndoneSoFar(at.rows, rows, ids, n, caught)
      {
        assert ids[..n + 1] == ids[..n] + [ids[n]];
        if ids[n] in rows && rows[ids[n]].state == Queued {
          rows := rows - {ids[n]};
          caught := caught + [ids[n]];
        }
      }
      assert ids[..|ids|] == ids;
      SameTable(rows, at.rows - Caught(at.rows, ids));
      StepIsLater(sys, UndoIds(ids));
      ReachableOn(sys, UndoIds(ids));
      sys := After(sys, UndoIds(ids));
      assert sys.rows == rows;
    }

    /** compensateFailedChunk: undo what this call committed, and report what survived. */
    method CompensateFailedChunk(committed: seq<int>) returns (r: Bulk, ghost caught: seq<int>, ghost at: Sys)
      requires Reachable(sys)
      modifies this
      ensures Reachable(sys) && Reachable(at) && Later(old(sys), at) && Later(at, sys)
      ensures old(latest) <= latest && old(undone) <= undone && HoldsAll(old(sys), at, latest, undone)
      ensures r.RolledBack? || r.NotRolledBack?
      ensures faults == old(faults) + if r.RolledBack? then 0 else 1
      ensures r.NotRolledBack? ==> r.ids == committed && sys == at
      ensures r.RolledBack? ==> r.escaped == Escaped(committed, caught)
                                && (forall x: int :: x in caught <==> x in Caught(at.rows, committed))
                                && sys == After(at, UndoIds(committed))
    {
      if committed == [] {
        r, caught, at := RolledBack([]), [], sys;
        NothingToUndo(sys);
        NothingHappens(sys, latest, undone);
        return;
      }
      var ok, annihilated;
      ok, annihilated, at := Undo(committed);
      caught := annihilated;
      if !ok { return NotRolledBack(committed), caught, at; }
      var escaped := EscapedIds(committed, annihilated);
      r := RolledBack(escaped);
    }

    /** EnqueueMoveMessagesBulk: one transaction per chunk, all of them or a report. */
    method EnqueueMoveMessagesBulk(messages: seq<int>, dest: int, ref: int, maxObjects: int, holdUntil: int)
      returns (r: Bulk, ghost chunks: seq<seq<int>>, ghost ids: seq<int>, ghost born: seq<int>, ghost caught: seq<int>,
          ghost at: Sys, ghost froms: seq<map<int, int>>)
      requires Reachable(sys)
      modifies this
      ensures Reachable(sys)
      ensures r.Invalid? <==> (dest == 0) == (ref == 0)
      ensures r.Invalid? ==> sys == old(sys)
      ensures faults - old(faults) == if r.NotRolledBack? then 2 else if r.RolledBack? then 1 else 0
      ensures !r.Invalid? ==> Concat(chunks) == messages && Sized(chunks, MoveChunkSize(maxObjects))
      ensures !r.Invalid? && maxObjects > 0 ==> forall i | 0 <= i < |chunks| :: |chunks[i]| <= maxObjects
      ensures r.Enqueued? ==> r.ids == ids && |ids| == |chunks| && Committed(sys, ids, born, chunks, dest, ref)
      ensures !r.Invalid? ==> Remembers(sys, born, chunks, froms)
      ensures r.RolledBack? || r.NotRolledBack? ==>
          Reachable(at) && Later(at, sys) && Committed(at, ids, born, chunks, dest, ref)
      ensures r.NotRolledBack? ==> r.ids == ids && sys == at
      ensures r.RolledBack? ==> r.escaped == Escaped(ids, caught) && sys == After(at, UndoIds(ids))
                                && forall x: int :: x in caught <==> x in Caught(at.rows, ids)
      ensures r.RolledBack? && latest < holdUntil && Undisturbed(ids, undone) ==>
                r.escaped == [] && forall i | 0 <= i < |ids| :: CaughtSerial(at, ids, born[i])
    {
      hide Reachable, HoldsAll, Committed, Remembers, AllWait, Later, Escaped;
      undone := {};
      chunks, ids, born, caught, at, froms := [], [], [], [], sys, [];
      if (dest == 0) == (ref == 0) { return Invalid, chunks, ids, born, caught, at, froms; }
      var parts := Chunks(messages, MoveChunkSize(maxObjects));
      assert maxObjects > 0 ==> forall i | 0 <= i < |parts| :: |parts[i]| <= maxObjects;
      chunks := parts;
      var committed := [];
      NoneCommitted(sys, parts, dest, ref, holdUntil, latest, undone);
      for seqNo := 0 to |parts|
        invariant Reachable(sys) && |committed| == seqNo == |born| && ids == committed && chunks == parts
        invariant Committed(sys, ids, born, chunks, dest, ref)
        invariant AllWait(sys, ids, born, holdUntil, latest, undone)
        invariant Remembers(sys, born, chunks, froms) && faults == old(faults)
      {
        ghost var before, reached, gone := sys, latest, undone;
        Yield();
        RemembersLater(before, sys, born, chunks, froms);
        CommittedLater(before, sys, ids, born, chunks, dest, ref);
        AllWaitOn(before, sys, ids, born, holdUntil, reached, gone, latest, undone);
        var mailboxOf: map<int, int> := *;
        var ok := Attempt();
        var p := ChunkPayload(parts[seqNo], dest, ref, mailboxOf);
        if !ok {
          before, reached, gone := sys, latest, undone;
          r, caught, at := CompensateFailedChunk(committed);
          LaterTwice(before, at, sys);
          RemembersLater(before, sys, born, chunks, froms);
          CommittedLater(before, at, ids, born, chunks, dest, ref);
          AllWaitOn(before, at, ids, born, holdUntil, reached, gone, latest, undone);
          if r.RolledBack? { HeldChunksRollBack(at, ids, born, chunks, dest, ref, holdUntil, latest, undone, caught); }
          return;
        }
        CommitsOne(sys, ids, born, chunks, dest, ref, p, holdUntil);
        EnqueueWaits(sys, ids, born, p, holdUntil, latest, undone);
        RemembersOne(sys, born, chunks, froms, dest, ref, mailboxOf, holdUntil);
        froms := froms + [mailboxOf];
        committed := committed + [NextId(sys.rows.Keys)];
        ids, born := committed, born + [|sys.hist.log|];
        ReachableOn(sys, Enqueue(p, holdUntil));
        sys := After(sys, Enqueue(p, holdUntil));
      }
      r := Enqueued(committed);
    }
  }

  lemma NothingToUndo(s: Sys)
    ensures After(s, UndoIds([])) == s
  {
    var t := After(s, UndoIds([]));
    assert Caught(s.rows, []) == {};
    SameTable(t.rows, s.rows);
    forall n ensures !CaughtSerial(s, [], n) {}
    assert t.hist.fate == s.hist.fate;
  }
}
