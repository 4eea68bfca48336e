/** The world a dispatcher runs in: the writer's transactions and the backend's requests, each one
    event of the machine, with anything else allowed to happen in between. */
module OutboxWorld {
  import opened Common
  import opened Ordered
  import opened OutboxRows
  import opened OutboxMachine
  import opened OutboxInvariant
  import opened OutboxClaims
  import opened OutboxTheorems
  import Backoff

  /** The server's answer to one mailbox create. */
  datatype CreateReply = Created(box: string) | NameExists | Refused(failure: Class)

  /** The server's answer to a request of message updates: the class of each refused message. */
  datatype FileReply = CallFailed(failure: Class) | Answered(failed: map<string, Class>)

  /** The server's answer to a create sent with the moves into it. */
  datatype BatchReply = BatchFailed(failure: Class) | BatchAnswered(create: CreateReply, failed: map<string, Class>)

  datatype FindReply = FindFailed(failure: Class) | Found(ids: set<string>)

  /** A request or a transaction of a pass, with its answer. */
  datatype Call = Made(made: CreateReply) | Looked(found: FindReply) | Persisted(ok: bool) | Walked(ok: bool)
                | Filed(filed: FileReply) | Batched(batched: BatchReply) | Acked(failed: Option<Class>)
                | Probed(ok: bool) | ClaimTried(ok: bool) | Applied(ok: bool) | Restored(ok: bool)

  datatype Verb = DeleteRow | RequeueRow(attempt: nat, failure: Class, detail: string) | RevertRow

  /** What finalizing does to a row. */
  datatype Action = Action(id: int, verb: Verb)

  predicate EnvironmentMay(s: Sys, e: Event) {
    (e.Enqueue? || e.UndoIds? || e.Others? || e.Outside?) && Enabled(s, e)
  }

  /** What no outside step changes: the pass, and every row the account has in dispatching. */
  predicate Apart(a: Sys, b: Sys) {
    && b.me == a.me && b.pass == a.pass && b.stranded == a.stranded && b.hist.bound == a.hist.bound
    && a.hist.log <= b.hist.log
    && (forall n | n in a.hist.fate :: n in b.hist.fate && b.hist.fate[n] == a.hist.fate[n])
    && (forall id | id in a.rows && a.rows[id].account == a.me && a.rows[id].state == Dispatching ::
          id in b.rows && b.rows[id] == a.rows[id])
  }

  lemma EnvironmentStaysApart(s: Sys, e: Event)
    requires Inv(s) && EnvironmentMay(s, e)
    ensures Apart(s, After(s, e))
  {
    assert NextId(s.rows.Keys) !in s.rows.Keys;
    forall n | n in s.hist.fate ensures n in After(s, e).hist.fate && After(s, e).hist.fate[n] == s.hist.fate[n] {
      StepKeepsFates(s, e, n);
    }
  }

  /** a's write to the rows: deleteRow, revertRow or requeueRow, each naming its row by id. */
  function ApplyAction(rows: Table, a: Action, now: int): Table {
    if a.id !in rows then rows
    else match a.verb
      case DeleteRow => rows - {a.id}
      case RevertRow => rows[a.id := Reverted(rows[a.id])]
      case RequeueRow(attempt, failure, detail) =>
        rows[a.id := Requeued(rows[a.id], now + Backoff.Delay(attempt) / Backoff.SECOND, failure, detail)]
  }

  /** a's write in the recovery transaction. */
  function RevertAction(rows: Table, a: Action, now: int): Table {
    if a.id !in rows then rows
    else match a.verb
      case RequeueRow(attempt, failure, _) =>
        rows[a.id := Recovered(rows[a.id], now + Backoff.Delay(attempt) / Backoff.SECOND, failure)]
      case _ => rows[a.id := Reverted(rows[a.id])]
  }

  /** The verb the decision d about claim c is owed: a delivered or abandoned row goes, a retried one
      waits behind a backoff, and one never attempted is put back untouched. */
  function VerbOf(c: Claimed, d: Decision): Verb {
    match d
    case Deliver => DeleteRow
    case GiveUp(_, _) => DeleteRow
    case Retry(failure, detail) => RequeueRow(c.attempts, failure, detail)
    case Revert => RevertRow
  }

  /** One of the first n actions is about row id. */
  predicate Lists(actions: seq<Action>, n: nat, id: int)
    requires n <= |actions|
  {
    exists i | 0 <= i < n :: actions[i].id == id
  }

  /** Two of them are. */
  predicate ListsTwice(actions: seq<Action>, n: nat, id: int)
    requires n <= |actions|
  {
    exists i, j | 0 <= i < j < n :: actions[i].id == id && actions[j].id == id
  }

  /** The decision action i carries out: its row's first, or the second when the row was listed before. */
  predicate Owed(actions: seq<Action>, i: nat, l: Live)
    requires i < |actions|
  {
    var a := actions[i];
    && a.id in l.claimed && a.id in l.decided
    && (if Lists(actions, i, a.id) then a.id in l.again && a.verb == VerbOf(l.claimed[a.id], l.again[a.id])
        else a.verb == VerbOf(l.claimed[a.id], l.decided[a.id]))
  }

  /** The actions are one for each decided row, and a second for each that was decided again, in the
      order they were decided, each the one its decision is owed. */
  ghost predicate Records(actions: seq<Action>, l: Live) {
    && (forall i | 0 <= i < |actions| :: Owed(actions, i, l) && !ListsTwice(actions, i, actions[i].id))
    && (forall id | id in l.decided :: Lists(actions, |actions|, id))
    && (forall id | id in l.again :: ListsTwice(actions, |actions|, id))
  }

  /** A row is decided again only after it was given up. */
  predicate AgainOK(l: Live) {
    && l.decided.Keys == l.claimed.Keys
    && forall id | id in l.again :: id in l.decided && l.decided[id].GiveUp? && !l.again[id].Revert?
  }

  /** The actions on every claimed row, in their order, make the finalize the machine makes. */
  method ApplyActions(rows0: Table, actions: seq<Action>, l: Live, now: int) returns (rows: Table)
    requires Records(actions, l) && AgainOK(l)
    ensures rows == FinalizeRows(rows0, l, now)
  {
    hide FinalizeRows, Lists, ListsTwice;
    rows := rows0;
    ghost var goal := FinalizeRows(rows0, l, now);
    FinalizeGoal(rows0, l, now);
    NoneListed(actions);
    for i := 0 to |actions|
      invariant forall id :: id in rows <==> id in rows0 && !(Lists(actions, i, id) && id !in goal)
      invariant forall id | id in rows :: rows[id] == if Lists(actions, i, id) then goal[id] else rows0[id]
    {
      assert Owed(actions, i, l);
      rows := ApplyAction(rows, actions[i], now);
      ListsOneMore(actions, i);
    }
    AllListed(actions, l);
    SameTable(rows, goal);
  }

  predicate AgreeAt(a: Table, b: Table, id: int) { (id in a <==> id in b) && (id in a ==> a[id] == b[id]) }

  lemma SameTable(a: Table, b: Table)
    requires forall id :: id in a <==> id in b
    requires forall id | id in a :: a[id] == b[id]
    ensures a == b
  {
    forall id: int ensures AgreeAt(a, b, id) {}
    SameEverywhere(a, b);
  }

  lemma SameEverywhere(a: Table, b: Table)
    requires forall id :: AgreeAt(a, b, id)
    ensures a == b
  {
    forall id: int ensures id in a <==> id in b { assert AgreeAt(a, b, id); }
    forall id: int | id in b ensures a[id] == b[id] { assert AgreeAt(a, b, id); }
  }

  lemma FinalizeGoal(rows: Table, l: Live, now: int)
    requires l.decided.Keys == l.claimed.Keys
    ensures var goal := FinalizeRows(rows, l, now);
            (forall id | id in goal :: id in rows)
            && forall id | id in rows ::
              && (id in goal <==> !(id in l.decided && l.decided[id].Terminal()))
              && (id in goal && id in l.decided ==> goal[id] == Finalized(rows[id], l.claimed[id], l.decided[id], now))
              && (id !in l.decided ==> goal[id] == rows[id])
  {
  }

  lemma NoneListed(actions: seq<Action>)
    ensures forall id :: !Lists(actions, 0, id)
  {
  }

  lemma ListsOneMore(actions: seq<Action>, i: nat)
    requires i < |actions|
    ensures forall id :: Lists(actions, i + 1, id) <==> Lists(actions, i, id) || id == actions[i].id
  {
  }

  lemma AllListed(actions: seq<Action>, l: Live)
    requires Records(actions, l) && l.decided.Keys == l.claimed.Keys
    ensures forall id :: Lists(actions, |actions|, id) <==> id in l.decided
    ensures forall id :: id in l.decided <==> id in l.claimed
  {
  }

  /** Row id once the first n actions are replayed. */
  function ReplayedRow(rows: Table, actions: seq<Action>, n: nat, l: Live, now: int, id: int): Row
    requires n <= |actions| && l.decided.Keys == l.claimed.Keys && id in rows
  {
    if !Lists(actions, n, id) then rows[id]
    else if id in l.again && !ListsTwice(actions, n, id) then Reverted(rows[id])
    else RecoverRows(rows, l, now)[id]
  }

  lemma ReplayOther(rows: Table, actions: seq<Action>, i: nat, l: Live, now: int, id: int)
    requires i < |actions| && l.decided.Keys == l.claimed.Keys && id in rows && actions[i].id != id
    ensures ReplayedRow(rows, actions, i + 1, l, now, id) == ReplayedRow(rows, actions, i, l, now, id)
  {
    hide Lists, ListsTwice, RecoverRows, Reverted;
    ListsOneMore(actions, i);
    TwiceOneMore(actions, i, id);
  }

  lemma ReplaySame(rows: Table, actions: seq<Action>, i: nat, l: Live, now: int, id: int)
    requires i < |actions| && Owed(actions, i, l) && !ListsTwice(actions, i, id) && AgainOK(l) && id in rows
    requires actions[i].id == id
    ensures ReplayedRow(rows, actions, i + 1, l, now, id)
              == RevertAction(map[id := ReplayedRow(rows, actions, i, l, now, id)], actions[i], now)[id]
  {
    hide Lists, ListsTwice;
    ListsOneMore(actions, i);
    TwiceOneMore(actions, i, id);
    assert id in l.claimed.Keys;
  }

  lemma ReplayStep(rows: Table, actions: seq<Action>, i: nat, l: Live, now: int, id: int)
    requires i < |actions| && Records(actions, l) && AgainOK(l) && id in rows
    ensures actions[i].id != id ==>
              ReplayedRow(rows, actions, i + 1, l, now, id) == ReplayedRow(rows, actions, i, l, now, id)
    ensures actions[i].id == id ==>
              ReplayedRow(rows, actions, i + 1, l, now, id)
                == RevertAction(map[id := ReplayedRow(rows, actions, i, l, now, id)], actions[i], now)[id]
  {
    hide ReplayedRow, RevertAction, ListsTwice, Owed;
    assert Owed(actions, i, l) && !ListsTwice(actions, i, actions[i].id);
    if actions[i].id == id {
      ReplaySame(rows, actions, i, l, now, id);
    } else {
      ReplayOther(rows, actions, i, l, now, id);
    }
  }

  lemma TwiceOneMore(actions: seq<Action>, i: nat, id: int)
    requires i < |actions|
    ensures ListsTwice(actions, i + 1, id) <==>
              ListsTwice(actions, i, id) || (Lists(actions, i, id) && actions[i].id == id)
  {
    if Lists(actions, i, id) && actions[i].id == id {
      var j :| 0 <= j < i && actions[j].id == id;
      assert 0 <= j < i < i + 1 && actions[j].id == id && actions[i].id == id;
    }
  }

  /** The recovery replays every action as the machine's recovery does. */
  method RevertActions(rows0: Table, actions: seq<Action>, l: Live, now: int) returns (rows: Table)
    requires Records(actions, l) && AgainOK(l)
    ensures rows == RecoverRows(rows0, l, now)
  {
    ReplayEnds(rows0, actions, l, now);
    hide RevertAction, ReplayedRow, RecoverRows, Records;
    rows := rows0;
    for i := 0 to |actions|
      invariant forall id :: id in rows <==> id in rows0
      invariant forall id | id in rows :: rows[id] == ReplayedRow(rows0, actions, i, l, now, id)
    {
      ghost var before, n := rows, i + 1;
      RevertTouches(rows, actions[i], now);
      rows := RevertAction(rows, actions[i], now);
      forall id | id in rows ensures rows[id] == ReplayedRow(rows0, actions, n, l, now, id) {
        ReplayStep(rows0, actions, i, l, now, id);
        assert before[id] == ReplayedRow(rows0, actions, i, l, now, id);
      }
    }
    SameTable(rows, RecoverRows(rows0, l, now));
  }

  /** An action writes its own row, and by that row alone. */
  lemma RevertTouches(rows: Table, a: Action, now: int)
    ensures forall id :: id in RevertAction(rows, a, now) <==> id in rows
    ensures forall id | id in rows ::
              RevertAction(rows, a, now)[id] == if id != a.id then rows[id]
                                                else RevertAction(map[id := rows[id]], a, now)[id]
  {
  }

  /** Before the first action no row is replayed, and after the last every row is as recovered. */
  lemma ReplayEnds(rows: Table, actions: seq<Action>, l: Live, now: int)
    requires Records(actions, l) && AgainOK(l)
    ensures forall id | id in rows :: ReplayedRow(rows, actions, 0, l, now, id) == rows[id]
    ensures forall id | id in rows ::
              id in RecoverRows(rows, l, now)
              && ReplayedRow(rows, actions, |actions|, l, now, id) == RecoverRows(rows, l, now)[id]
    ensures forall id :: id in RecoverRows(rows, l, now) <==> id in rows
  {
    AllListed(actions, l);
  }

  predicate Increasing(ids: seq<int>) { forall i, j | 0 <= i < j < |ids| :: ids[i] < ids[j] }

  /** What the claim takes: the longest run of eligible rows, oldest first, within both budgets,
      and the first of them at any cost. */
  ghost predicate TakesWithinBudget(rows: Table, eligible: seq<int>, ids: seq<int>)
    requires forall i | 0 <= i < |eligible| :: eligible[i] in rows
  {
    && ids <= eligible
    && (eligible != [] ==> ids != [])
    && (|ids| > 1 ==> TotalCost(rows, ids) <= CLAIM_MESSAGE_BUDGET)
    && (|ids| < |eligible| ==> TotalCost(rows, eligible[..|ids| + 1]) > CLAIM_MESSAGE_BUDGET)
  }

  /** Row id waits for nobody: it is the account's, queued, and its hold or backoff is over. */
  predicate Due(s: Sys, now: int, id: int) {
    id in s.rows && s.rows[id].account == s.me && s.rows[id].state == Queued && s.rows[id].nextAt <= now
  }

  /** The messages that the moves among rows ids name, one row after another. */
  function MessagesOf(rows: Table, ids: seq<int>): seq<int>
    requires forall i | 0 <= i < |ids| :: ids[i] in rows
  {
    if ids == [] then []
    else
      var p := rows[ids[|ids| - 1]].payload;
      MessagesOf(rows, ids[..|ids| - 1]) + if p.MoveMessages? then p.messages else []
  }

  /** The rows among ids that move nothing. */
  function NotMoves(rows: Table, ids: seq<int>): set<int> {
    set id | id in ids && id in rows && !rows[id].payload.MoveMessages?
  }

  /** The queries claiming rows ids runs: one for each message named, and one for each row that moves none. */
  function Queries(rows: Table, ids: seq<int>): nat
    requires forall i | 0 <= i < |ids| :: ids[i] in rows
  {
    |MessagesOf(rows, ids)| + |NotMoves(rows, ids)|
  }

  lemma {:induction false} CostIsQueries(rows: Table, ids: seq<int>)
    requires (forall i | 0 <= i < |ids| :: ids[i] in rows) && Increasing(ids)
    ensures TotalCost(rows, ids) == Queries(rows, ids)
  {
    if ids == [] {
      SameSet(NotMoves(rows, ids), {});
    } else {
      var front, last := ids[..|ids| - 1], ids[|ids| - 1];
      CostIsQueries(rows, front);
      NotMovesGrow(rows, front, last);
      assert ids == front + [last];
    }
  }

  lemma NotMovesGrow(rows: Table, front: seq<int>, last: int)
    requires last in rows && last !in front
    ensures |NotMoves(rows, front + [last])|
              == |NotMoves(rows, front)| + if rows[last].payload.MoveMessages? then 0 else 1
  {
    var a, b := NotMoves(rows, front), NotMoves(rows, front + [last]);
    if rows[last].payload.MoveMessages? {
      forall id: int ensures Within(id, a) <==> Within(id, b) {}
      SameSet(a, b);
    } else {
      var c := a + {last};
      forall id: int ensures Within(id, b) <==> Within(id, c) {}
      SameSet(b, c);
    }
  }

  /** The rows ids a claim in state s takes: due ones only, the oldest first and none of them passed over,
      and no fewer than both budgets allow. */
  ghost predicate TakesOldest(s: Sys, now: int, ids: seq<int>) {
    && Increasing(ids) && |ids| <= CLAIM_ROW_BUDGET
    && (forall i | 0 <= i < |ids| :: ids[i] in s.rows && Due(s, now, ids[i]))
    && (forall i, id | 0 <= i < |ids| && Due(s, now, id) && id < ids[i] :: id in ids)
    && (|ids| > 1 ==> Queries(s.rows, ids) <= CLAIM_MESSAGE_BUDGET)
    && ((exists id :: Due(s, now, id) && id !in ids) ==>
          ids != [] && (|ids| == CLAIM_ROW_BUDGET || exists next :: NextTooDear(s, now, ids, next)))
  }

  /** The oldest due row not among ids would spend more than the message budget. */
  predicate NextTooDear(s: Sys, now: int, ids: seq<int>, next: int)
    requires forall i | 0 <= i < |ids| :: ids[i] in s.rows
  {
    && Due(s, now, next) && next !in ids && (forall id | id in s.rows && id < next && Due(s, now, id) :: id in ids)
    && Queries(s.rows, ids + [next]) > CLAIM_MESSAGE_BUDGET
  }

  /** The claim's candidates: at most the row budget, oldest first. */
  function Oldest(s: Sys, now: int): (ids: seq<int>)
    ensures forall i | 0 <= i < |ids| :: ids[i] in s.rows
  {
    var all := Ascending(Eligible(s.rows, s.me, now));
    assert forall i | 0 <= i < |all| :: all[i] in Eligible(s.rows, s.me, now);
    Limit(all, CLAIM_ROW_BUDGET)
  }

  lemma OldestEligible(s: Sys, now: int)
    ensures forall i | 0 <= i < |Oldest(s, now)| :: Oldest(s, now)[i] in Eligible(s.rows, s.me, now)
    ensures Increasing(Oldest(s, now))
  {
    var all := Ascending(Eligible(s.rows, s.me, now));
    forall i | 0 <= i < |Oldest(s, now)| ensures Oldest(s, now)[i] in Eligible(s.rows, s.me, now) {
      assert Oldest(s, now)[i] == all[i];
    }
  }

  lemma AnyEligible(rows: Table, account: int, now: int)
    ensures Eligible(rows, account, now) != {} <==> exists id | id in rows ::
              rows[id].account == account && rows[id].state == Queued && rows[id].nextAt <= now
  {
    var due := Eligible(rows, account, now);
    if due != {} {
      HasMember(due);
      var id: int :| id in due;
      assert id in rows && rows[id].account == account && rows[id].state == Queued && rows[id].nextAt <= now;
    }
    if id :| id in rows && rows[id].account == account && rows[id].state == Queued && rows[id].nextAt <= now {
      assert id in due;
    }
  }

  lemma EligibleIsDue(s: Sys, now: int)
    ensures forall id :: id in Eligible(s.rows, s.me, now) <==> Due(s, now, id)
  {
  }

  /** A prefix of the due rows in order passes none of them over. */
  lemma PrefixPassesNone(s: Sys, now: int, ids: seq<int>, all: seq<int>)
    requires ids <= all && Increasing(all) && forall id :: id in all <==> Due(s, now, id)
    ensures Increasing(ids) && (forall i | 0 <= i < |ids| :: ids[i] in s.rows && Due(s, now, ids[i]))
    ensures forall i, id | 0 <= i < |ids| && Due(s, now, id) && id < ids[i] :: id in ids
  {
    forall i | 0 <= i < |ids| ensures ids[i] in s.rows && Due(s, now, ids[i]) {
      assert ids[i] == all[i] && all[i] in all;
    }
    hide Due;
    forall i, id | 0 <= i < |ids| && Due(s, now, id) && id < ids[i] ensures id in ids {
      assert id in all;
      var k :| 0 <= k < |all| && all[k] == id;
      assert ids[i] == all[i];
      assert k < i && ids[k] == all[k];
    }
  }

  /** Taking the candidates within budget takes the oldest due rows. */
  lemma OldestTaken(s: Sys, now: int, ids: seq<int>)
    requires TakesWithinBudget(s.rows, Oldest(s, now), ids)
    ensures TakesOldest(s, now, ids)
  {
    var all, some := Ascending(Eligible(s.rows, s.me, now)), Oldest(s, now);
    EligibleIsDue(s, now);
    assert forall id :: id in all <==> Due(s, now, id);
    hide Ascending, TotalCost, Queries, Eligible, Due, NextTooDear;
    PrefixPassesNone(s, now, ids, all);
    CostIsQueries(s.rows, ids);
    if id :| Due(s, now, id) && id !in ids {
      assert id in all;
      if |ids| < |some| { SomeNext(s, now, ids, all, some); }
    }
  }

  lemma SomeNext(s: Sys, now: int, ids: seq<int>, all: seq<int>, some: seq<int>)
    requires ids <= some <= all && |ids| < |some| && Increasing(all) && forall id :: id in all <==> Due(s, now, id)
    requires forall i | 0 <= i < |ids| :: ids[i] in s.rows
    requires forall i | 0 <= i < |some| :: some[i] in s.rows
    requires TotalCost(s.rows, some[..|ids| + 1]) > CLAIM_MESSAGE_BUDGET
    ensures NextTooDear(s, now, ids, some[|ids|])
  {
    var next := some[|ids|];
    assert all[|ids|] == next && next in all;
    assert some[..|ids| + 1] == ids + [next];
    CostIsQueries(s.rows, ids + [next]);
    forall i | 0 <= i < |ids| ensures ids[i] != next { assert ids[i] == all[i]; }
    forall id | id in s.rows && id < next && Due(s, now, id) ensures id in ids {
      assert id in all;
      var k :| 0 <= k < |all| && all[k] == id;
      assert k < |ids| && ids[k] == all[k];
    }
  }

  /** A pass just claimed: the claims in id order, and nothing known or decided yet. */
  predicate ClaimedSeq(s: Sys, claimed: seq<Claimed>, ids: seq<int>) {
    && s.pass.Running? && Increasing(ids) && |claimed| == |ids|
    && s.pass.live.decided == map[] && s.pass.live.again == map[]
    && s.pass.live.resolved == map[] && s.pass.live.learned == map[]
    && s.pass.live.walks == map[]
    && (forall i | 0 <= i < |ids| ::
        ids[i] in s.pass.live.claimed && claimed[i] == s.pass.live.claimed[ids[i]] && claimed[i].id == ids[i])
    && (forall id | id in s.pass.live.claimed :: id in ids)
  }

  /** The claims are of the rows of s, with everything the rows hold. */
  predicate ClaimedFrom(s: Sys, claimed: seq<Claimed>) {
    forall i | 0 <= i < |claimed| ::
      claimed[i].id in s.rows && CopiesRow(claimed[i].id, s.rows[claimed[i].id], claimed[i])
  }

  /** Between a and b just the rows ids went to dispatching, and nothing else of any row changed. */
  ghost predicate HeldOnly(a: Sys, b: Sys, ids: seq<int>) {
    && (forall id :: id in b.rows <==> id in a.rows)
    && forall id | id in a.rows :: b.rows[id] == if id in ids then a.rows[id].(state := Dispatching) else a.rows[id]
  }

  lemma HeldNone(s: Sys)
    ensures HeldOnly(s, s, [])
  {
  }

  lemma ClaimShape(s: Sys, ids: seq<int>, mailboxes: map<int, string>, messages: map<int, string>,
      claimed: seq<Claimed>)
    requires s.pass == Idle && Increasing(ids)
    requires forall i | 0 <= i < |ids| ::
        ids[i] in s.rows && s.rows[ids[i]].account == s.me && s.rows[ids[i]].state == Queued
    requires |claimed| == |ids| && forall i | 0 <= i < |ids| ::
        claimed[i] == ResolveClaim(ids[i], s.rows[ids[i]], mailboxes, messages)
    ensures Enabled(s, Event.Claim(ids, mailboxes, messages))
    ensures ClaimedSeq(After(s, Event.Claim(ids, mailboxes, messages)), claimed, ids)
  {
    forall i | 0 <= i < |ids| ensures claimed[i].id == ids[i] {}
  }

  method TakeWithinBudget(rows: Table, eligible: seq<int>) returns (ids: seq<int>)
    requires forall i | 0 <= i < |eligible| :: eligible[i] in rows
    ensures TakesWithinBudget(rows, eligible, ids)
  {
    ids := [];
    var spent := 0;
    while |ids| < |eligible|
      invariant ids <= eligible && spent == TotalCost(rows, ids)
      invariant |ids| > 1 ==> spent <= CLAIM_MESSAGE_BUDGET
      decreases |eligible| - |ids|
    {
      var r := eligible[|ids|];
      var cost := ClaimCost(rows[r].payload);
      assert eligible[..|ids| + 1] == ids + [r];
      assert (ids + [r])[..|ids|] == ids;
      if ids != [] && spent + cost > CLAIM_MESSAGE_BUDGET { break; }
      spent := spent + cost;
      ids := ids + [r];
    }
  }

  /** Row id carries the id of the mailbox it made. */
  predicate RowHoldsId(s: Sys, id: int) { id in s.rows && HoldsId(s.rows[id].payload) }

  /** Nothing but one create's walk moved. */
  predicate OnlyWalks(a: Live, b: Live, id: int) {
    && b == a.(walks := b.walks)
    && (forall k | k in a.walks :: k in b.walks && (k != id ==> b.walks[k] == a.walks[k]))
    && (forall k | k in b.walks :: k == id || k in a.walks)
  }

  /** Nothing but filings were added. */
  predicate OnlyFiles(a: Live, b: Live) {
    b == a.(filed := b.filed) && forall id | id in a.filed :: id in b.filed
  }

  /** Of the first n moves of a request those that had every message accepted are filed into dest, and nothing
      else is new. */
  predicate FilesAccepted(a: Live, b: Live, moves: seq<Claimed>, n: int, dest: string, failed: map<string, Class>)
    requires 0 <= n <= |moves|
  {
    && b == a.(filed := b.filed) && (forall id | id in a.filed :: id in b.filed)
    && (forall i | 0 <= i < n && AllAccepted(moves[i], failed) ::
          moves[i].id in b.filed && b.filed[moves[i].id] == dest)
    && NewlyFiled(a.filed, b.filed, moves, n, failed)
  }

  predicate NewlyFiled(was: map<int, string>, now: map<int, string>, moves: seq<Claimed>, n: int,
      failed: map<string, Class>)
    requires 0 <= n <= |moves|
  {
    forall id | id in now :: (id in was && now[id] == was[id]) || AcceptedAmong(moves, n, id, failed)
  }

  /** Row id is one of the first n moves, accepted whole. */
  predicate AcceptedAmong(moves: seq<Claimed>, n: int, id: int, failed: map<string, Class>)
    requires 0 <= n <= |moves|
  {
    exists i | 0 <= i < n :: moves[i].id == id && AllAccepted(moves[i], failed)
  }

  lemma AcceptedGrow(moves: seq<Claimed>, n: int, id: int, failed: map<string, Class>)
    requires 0 <= n < |moves|
    ensures AcceptedAmong(moves, n + 1, id, failed) <==>
              AcceptedAmong(moves, n, id, failed) || (moves[n].id == id && AllAccepted(moves[n], failed))
  {
    hide AllAccepted;
  }

  lemma FilesOneMore(a: Live, b: Live, moves: seq<Claimed>, n: int, dest: string, failed: map<string, Class>)
    requires 0 <= n < |moves| && FilesAccepted(a, b, moves, n, dest, failed)
    ensures var c := if AllAccepted(moves[n], failed) then b.(filed := b.filed[moves[n].id := dest]) else b;
            FilesAccepted(a, c, moves, n + 1, dest, failed)
  {
    hide AllAccepted, AcceptedAmong, NewlyFiled;
    NewOneMore(a.filed, b.filed, moves, n, dest, failed);
  }

  lemma NewOneMore(was: map<int, string>, now: map<int, string>, moves: seq<Claimed>, n: int, dest: string,
      failed: map<string, Class>)
    requires 0 <= n < |moves| && NewlyFiled(was, now, moves, n, failed)
    ensures NewlyFiled(was, if AllAccepted(moves[n], failed) then now[moves[n].id := dest] else now, moves, n + 1,
                       failed)
  {
    hide AllAccepted, AcceptedAmong;
    var next := if AllAccepted(moves[n], failed) then now[moves[n].id := dest] else now;
    forall id | id in next
      ensures (id in was && next[id] == was[id]) || AcceptedAmong(moves, n + 1, id, failed) {
      AcceptedGrow(moves, n, id, failed);
    }
  }

  /** What the dispatch of row id leaves alone: the claim, the decisions taken, what was filed and
      acknowledged, and what is known about every other create. */
  predicate Carries(a: Live, b: Live, id: int) {
    && b.claimed == a.claimed && b.read == a.read && b.decided == a.decided && b.again == a.again && a.acked <= b.acked
    && (forall k | k in b.resolved :: k == id || k in a.resolved)
    && (forall k | k in a.resolved && k != id :: k in b.resolved && b.resolved[k] == a.resolved[k])
    && (forall k | k in b.learned :: k == id || k in a.learned) && (forall k | k in b.walks :: k == id || k in a.walks)
    && (forall k | k in a.filed :: k in b.filed)
    && (forall k | k in a.walks && k != id :: k in b.walks && b.walks[k] == a.walks[k])
  }

  /** The rewrites of one page of the reference walk. */
  method RewriteEach(rows0: Table, page: seq<int>, account: int, create: int, serverId: string) returns (rows: Table)
    requires forall i | 0 <= i < |page| :: page[i] in rows0
    requires forall i, j | 0 <= i < j < |page| :: page[i] != page[j]
    ensures rows == PatchPage(rows0, page, account, create, serverId)
  {
    rows := rows0;
    for n := 0 to |page|
      invariant forall id :: id in rows <==> id in rows0
      invariant forall id | id in rows ::
          rows[id] == if id in page[..n] then PatchedRow(rows0[id], account, id, create, serverId) else rows0[id]
    {
      var id := page[n];
      assert page[..n + 1] == page[..n] + [id];
      assert id !in page[..n];
      if rows[id].account == account && id != create {
        var patched := RewriteRef(rows[id].payload, create, serverId);
        if patched.Some? { rows := rows[id := rows[id].(payload := patched.value)]; }
      }
    }
    assert page[..|page|] == page;
    SameTable(rows, PatchPage(rows0, page, account, create, serverId));
  }

  lemma RewriteNothing(rows: Table, account: int, create: int, serverId: string)
    ensures PatchPage(rows, [], account, create, serverId) == rows
  {
    SameTable(PatchPage(rows, [], account, create, serverId), rows);
  }

  lemma SweptRows(rows: Table)
    ensures forall id :: id in Swept(rows) <==> id in rows
    ensures forall id | id in rows :: Swept(rows)[id] == rows[id].(state := Queued)
  {
  }

  /** The startup sweep's statement, row by row, and how many rows it moved. */
  method SweepEach(rows0: Table) returns (rows: Table, moved: nat)
    ensures rows == Swept(rows0)
    ensures forall id :: id in rows <==> id in rows0
    ensures forall id | id in rows0 :: rows[id] == rows0[id].(state := Queued)
    ensures moved == |set id | id in rows0 && rows0[id].state == Dispatching|
  {
    hide Ascending, Swept;
    var left := Ascending(set id | id in rows0 && rows0[id].state == Dispatching);
    rows, moved := rows0, 0;
    for n := 0 to |left|
      invariant moved == n
      invariant forall id :: id in rows <==> id in rows0
      invariant forall id | id in rows :: rows[id] == if id in left[..n] then Reverted(rows0[id]) else rows0[id]
    {
      var id := left[n];
      assert id in left;
      assert left[..n + 1] == left[..n] + [id];
      assert id !in left[..n];
      rows := rows[id := Reverted(rows[id])];
      moved := moved + 1;
    }
    assert left[..|left|] == left;
    SweptRows(rows0);
    SameTable(rows, Swept(rows0));
    AscendingCounts(set id | id in rows0 && rows0[id].state == Dispatching);
  }

  lemma PageIsRows(rows: Table, after: int, limit: nat)
    ensures var page := PageAfter(rows, after, limit);
            && (forall i | 0 <= i < |page| :: page[i] in rows)
            && (forall i, j | 0 <= i < j < |page| :: page[i] != page[j])
  {
    var all := Ascending(set id | id in rows && id > after);
    var page := PageAfter(rows, after, limit);
    forall i | 0 <= i < |page| ensures page[i] in rows {
      var id: int := all[i];
      assert id in all && page[i] == id;
    }
  }

  /** Recording decision d about row id: its first, or the second of a row carried twice. */
  function Conclusion(l: Live, id: int, d: Decision): Event { if id in l.decided then Redo(id, d) else Decide(id, d) }

  predicate AllDone(s: Sys) { s.pass.Running? && s.pass.live.decided.Keys == s.pass.live.claimed.Keys }

  /** t is s after its finalize. */
  predicate FinalizedFrom(s: Sys, t: Sys, now: int) { AllDone(s) && t == After(s, Event.Finalize(now)) }

  /** t is s after its recovery, or stranded. */
  predicate UndoneFrom(s: Sys, t: Sys, now: int) {
    AllDone(s) && (t == After(s, Recover(now)) || t == After(s, Strand))
  }

  /** The recovery transaction and what it left: the rows put back, or stranded when it failed. */
  predicate Restoring(s: Sys, t: Sys, c: Call, now: int) {
    AllDone(s) && c.Restored? && t == if c.ok then After(s, Recover(now)) else After(s, Strand)
  }

  class World {
    var sys: Sys
    /** How many outside steps the rest of the run holds. Every run holds finitely many, and the
        reference walk ends because of it. */
    var patience: nat
    const limit: int
    /** The calls of the dispatches so far, and their answers. */
    ghost var calls: seq<Call>

    constructor (me: int, server: MailServer, patience: nat, limit: int)
      requires ServerOK(server) && limit >= 1
      ensures Reachable(sys) && sys.pass == Idle && sys.me == me && sys.rows == map[] && this.limit == limit
    {
      var s := Sys(me, map[], server, Idle, {}, Hist([], map[], map[], map[], map[]), map[]);
      this.sys := s;
      this.patience := patience;
      this.limit := limit;
      this.calls := [];
      assert Initial(s) && Runs(s, [], s);
    }

    /** Anything the rest of the world does between two steps of this process. */
    method Interfere()
      requires Reachable(sys)
      modifies this`sys, this`patience
      ensures Reachable(sys) && Apart(old(sys), sys)
      ensures patience <= old(patience) && (patience == old(patience) ==> sys == old(sys))
    {
      var more: bool := *;
      while more && patience > 0
        invariant Reachable(sys) && Apart(old(sys), sys)
        invariant patience <= old(patience) && (patience == old(patience) ==> sys == old(sys))
        decreases patience
      {
        var e: Event := *;
        if EnvironmentMay(sys, e) {
          ReachableInv(sys);
          EnvironmentStaysApart(sys, e);
          ReachableOn(sys, e);
          sys := After(sys, e);
        }
        patience := patience - 1;
        more := *;
      }
    }

    // -------------------------------------------------------------- the dispatcher's transactions

    /** HasEligibleIntents, off a read connection: it writes nothing. */
    method HasEligibleIntents(now: int) returns (ok: bool, eligible: bool, ghost at: Sys)
      requires Reachable(sys)
      modifies this
      ensures Reachable(sys) && Apart(old(sys), sys) && at == sys
      ensures ok ==> (eligible <==> exists id | id in at.rows ::
                at.rows[id].account == at.me && at.rows[id].state == Queued && at.rows[id].nextAt <= now)
      ensures calls == old(calls) + [Probed(ok)]
    {
      Interfere();
      at := sys;
      ok := *;
      calls := calls + [Probed(ok)];
      eligible := Eligible(sys.rows, sys.me, now) != {};
      AnyEligible(sys.rows, sys.me, now);
    }

    /** claim: one transaction, or none. `at` is the state it ran in. */
    method Claim(now: int, mailboxes: map<int, string>, messages: map<int, string>)
      returns (ok: bool, claimed: seq<Claimed>, ghost ids: seq<int>, ghost at: Sys)
      requires Reachable(sys) && sys.pass == Idle
      modifies this
      ensures Reachable(sys) && Reachable(at) && Apart(old(sys), at)
      ensures calls == old(calls) + [ClaimTried(ok)]
      ensures !ok ==> sys == at
      ensures ok ==> TakesOldest(at, now, ids)
      ensures ok && claimed == [] ==> ids == [] && sys == at
      ensures ok && claimed != [] ==> ClaimedSeq(sys, claimed, ids) && ClaimedFrom(at, claimed)
      ensures ok && claimed != [] ==> sys.pass.live.read == StoreIds(mailboxes, messages)
      ensures ok ==> HeldOnly(at, sys, ids)
    {
      Interfere();
      at := sys;
      claimed := [];
      var eligible := Oldest(sys, now);
      var taken := TakeWithinBudget(sys.rows, eligible);
      ids := taken;
      ok := *;
      calls := calls + [ClaimTried(ok)];
      OldestEligible(sys, now);
      OldestTaken(sys, now, taken);
      hide *;
      HeldNone(sys);
      if ok && taken != [] { claimed := ClaimTaken(taken, mailboxes, messages); }
    }

    /** The claim's writes, once it knows which rows it takes. */
    method ClaimTaken(taken: seq<int>, mailboxes: map<int, string>, messages: map<int, string>)
      returns (claimed: seq<Claimed>)
      requires Reachable(sys) && sys.pass == Idle && taken != [] && Increasing(taken)
      requires forall i | 0 <= i < |taken| ::
                 taken[i] in sys.rows && sys.rows[taken[i]].account == sys.me && sys.rows[taken[i]].state == Queued
      modifies this`sys
      ensures Reachable(sys) && claimed != [] && ClaimedSeq(sys, claimed, taken) && ClaimedFrom(old(sys), claimed)
      ensures sys.pass.live.read == StoreIds(mailboxes, messages)
      ensures HeldOnly(old(sys), sys, taken)
    {
      hide Reachable, ResolveClaim, ClaimRows;
      var rows;
      rows, claimed := ClaimEach(taken, mailboxes, messages);
      ClaimShape(sys, taken, mailboxes, messages, claimed);
      ReachableOn(sys, Event.Claim(taken, mailboxes, messages));
      sys := After(sys, Event.Claim(taken, mailboxes, messages));
      assert sys.rows == rows;
    }

    /** The claim transaction's loop: each row taken goes to dispatching, and what it refers to is read. */
    method ClaimEach(ids: seq<int>, mailboxes: map<int, string>, messages: map<int, string>)
      returns (rows: Table, claimed: seq<Claimed>)
      requires forall i | 0 <= i < |ids| :: ids[i] in sys.rows
      ensures rows == ClaimRows(sys.rows, set id | id in ids)
      ensures forall id :: id in rows <==> id in sys.rows
      ensures forall id | id in rows ::
                rows[id] == if id in ids then sys.rows[id].(state := Dispatching) else sys.rows[id]
      ensures |claimed| == |ids|
      ensures forall i | 0 <= i < |ids| :: claimed[i] == ResolveClaim(ids[i], sys.rows[ids[i]], mailboxes, messages)
      ensures forall i | 0 <= i < |ids| ::
                CopiesRow(ids[i], sys.rows[ids[i]], claimed[i]) && Reads(claimed[i], StoreIds(mailboxes, messages))
    {
      rows, claimed := sys.rows, [];
      for n := 0 to |ids|
        invariant |claimed| == n
        invariant forall i | 0 <= i < n :: claimed[i] == ResolveClaim(ids[i], sys.rows[ids[i]], mailboxes, messages)
        invariant forall id :: id in rows <==> id in sys.rows
        invariant forall id | id in rows ::
            rows[id] == if id in ids[..n] then sys.rows[id].(state := Dispatching) else sys.rows[id]
      {
        var id := ids[n];
        assert ids[..n + 1] == ids[..n] + [id];
        rows := rows[id := rows[id].(state := Dispatching)];
        claimed := claimed + [ResolveClaim(id, sys.rows[id], mailboxes, messages)];
      }
      assert ids[..|ids|] == ids;
      SameTable(rows, ClaimRows(sys.rows, set id | id in ids));
      forall i | 0 <= i < |ids|
        ensures CopiesRow(ids[i], sys.rows[ids[i]], claimed[i]) && Reads(claimed[i], StoreIds(mailboxes, messages)) {
        ClaimReads(ids[i], sys.rows[ids[i]], StoreIds(mailboxes, messages));
      }
    }

    /** Records a decision: Go's finalize closure. */
    method Record(id: int, d: Decision)
      requires Reachable(sys) && sys.pass.Running? && Enabled(sys, Conclusion(sys.pass.live, id, d))
      modifies this`sys
      ensures Reachable(sys) && sys == After(old(sys), Conclusion(old(sys.pass.live), id, d))
    {
      ghost var e := Conclusion(sys.pass.live, id, d);
      ReachableOn(sys, e);
      sys := After(sys, Conclusion(sys.pass.live, id, d));
    }

    /** Writes resolvedCreates[id]. */
    method NoteResolved(id: int)
      requires Reachable(sys) && Enabled(sys, Note(id))
      modifies this`sys
      ensures Reachable(sys) && sys == After(old(sys), Note(id))
    {
      ReachableOn(sys, Note(id));
      sys := After(sys, Note(id));
    }

    /** persistPayload: the claimed payload with its new id, in a transaction of its own. */
    method PersistPayload(id: int) returns (ok: bool)
      requires Reachable(sys) && OpenCreate(sys, id) && id in sys.pass.live.learned
      modifies this
      ensures Reachable(sys) && sys.pass == old(sys.pass)
      ensures ok ==> RowHoldsId(sys, id)
      ensures ok ==>
                && id in old(sys.rows) && id in sys.rows
                && sys.rows[id] == old(sys.rows[id]).(payload := old(sys.pass.live.claimed[id].payload)
                                                                   .(resolved := old(sys.pass.live.learned[id].id)))
      ensures calls == old(calls) + [Persisted(ok)]
    {
      ReachableInv(sys);
      assert ClaimedOK(sys.me, sys.rows, sys.server, sys.hist, id, sys.pass.live.claimed[id]);
      Interfere();
      ok := *;
      calls := calls + [Persisted(ok)];
      if ok {
        ReachableInv(sys);
        assert ClaimedOK(sys.me, sys.rows, sys.server, sys.hist, id, sys.pass.live.claimed[id]);
        assert LearnedOK(sys.server, sys.hist, sys.pass.live.claimed[id], sys.pass.live.learned[id]);
        ReachableOn(sys, Persist(id));
        sys := After(sys, Persist(id));
      }
    }

    /** resolveDependentRefs: pages of the outbox, one transaction each, up to a short one. */
    method ResolveDependentRefs(id: int) returns (ok: bool)
      requires Reachable(sys) && OpenCreate(sys, id) && RowHoldsId(sys, id)
      requires id in sys.pass.live.walks ==> !sys.pass.live.walks[id].done
      modifies this
      ensures Reachable(sys) && OpenCreate(sys, id) && OnlyWalks(old(sys.pass.live), sys.pass.live, id)
      ensures ok ==> id in sys.pass.live.walks && sys.pass.live.walks[id].done
      ensures calls == old(calls) + [Walked(ok)]
    {
      var done := false;
      ok := true;
      while !done && ok
        invariant Reachable(sys) && OpenCreate(sys, id) && RowHoldsId(sys, id)
        invariant OnlyWalks(old(sys.pass.live), sys.pass.live, id)
        invariant done <==> id in sys.pass.live.walks && sys.pass.live.walks[id].done
        invariant calls == old(calls)
        decreases !done && ok, patience, |Ahead(sys, id)|
      {
        ok, done := WalkOnePage(id);
      }
      calls := calls + [Walked(ok)];
    }

    /** One page of the walk, or its failure. */
    method WalkOnePage(id: int) returns (ok: bool, done: bool)
      requires Reachable(sys) && OpenCreate(sys, id) && RowHoldsId(sys, id)
      requires id in sys.pass.live.walks ==> !sys.pass.live.walks[id].done
      modifies this`sys, this`patience
      ensures Reachable(sys) && OpenCreate(sys, id) && RowHoldsId(sys, id)
      ensures OnlyWalks(old(sys.pass.live), sys.pass.live, id)
      ensures done <==> id in sys.pass.live.walks && sys.pass.live.walks[id].done
      ensures patience <= old(patience)
      ensures ok && !done && patience == old(patience) ==> |Ahead(sys, id)| < |Ahead(old(sys), id)|
    {
      hide Reachable, PageAfter, PatchPage;
      HoldStill(id);
      done := false;
      ok := *;
      if ok {
        PageIsRows(sys.rows, if id in sys.pass.live.walks then sys.pass.live.walks[id].after else 0,
            DEPENDENT_REF_PAGE);
        var page := PageAfter(sys.rows, if id in sys.pass.live.walks then sys.pass.live.walks[id].after else 0,
            DEPENDENT_REF_PAGE);
        var rows := RewriteEach(sys.rows, page, sys.me, id, sys.rows[id].payload.resolved);
        PageMoves(sys, id);
        RewriteNothing(sys.rows, sys.me, id, sys.rows[id].payload.resolved);
        if !AfterPage(sys, id).pass.live.walks[id].done { PageShrinks(sys, id); }
        ReachableOn(sys, Page(id));
        sys := After(sys, Page(id));
        assert sys.rows == rows;
        done := sys.pass.live.walks[id].done;
      }
    }

    /** ReclaimOrphaned: once at startup, every row the last run left in dispatching goes back to
        queued, whatever account it belongs to. */
    method ReclaimOrphaned() returns (reclaimed: nat, ghost at: Sys)
      requires Reachable(sys) && sys.pass == Down
      modifies this`sys, this`patience
      ensures Reachable(sys) && sys.pass == Idle && sys.stranded == {}
      ensures Apart(old(sys), at) && sys == After(at, Startup)
      ensures forall id :: id in sys.rows <==> id in at.rows
      ensures forall id | id in at.rows :: sys.rows[id] == at.rows[id].(state := Queued)
      ensures reclaimed == |set id | id in at.rows && at.rows[id].state == Dispatching|
    {
      Interfere();
      at := sys;
      var rows;
      rows, reclaimed := SweepEach(sys.rows);
      ReachableOn(sys, Startup);
      sys := After(sys, Startup);
      assert sys.rows == rows;
    }

    /** Interference leaves a claimed create's own row where it is. */
    method HoldStill(id: int)
      requires Reachable(sys) && OpenCreate(sys, id) && RowHoldsId(sys, id)
      modifies this`sys, this`patience
      ensures Reachable(sys) && sys.pass == old(sys.pass) && RowHoldsId(sys, id)
      ensures patience <= old(patience) && (patience == old(patience) ==> sys == old(sys))
    {
      ReachableInv(sys);
      assert ClaimedOK(sys.me, sys.rows, sys.server, sys.hist, id, sys.pass.live.claimed[id]);
      Interfere();
    }

    /** finalize, its recovery, and the stranding when both fail. */
    method Finalize(actions: seq<Action>, now: int) returns (ok: bool, ghost at: Sys)
      requires Reachable(sys) && sys.pass.Running? && sys.pass.live.decided.Keys == sys.pass.live.claimed.Keys
      requires Records(actions, sys.pass.live)
      modifies this
      ensures Reachable(sys) && sys.pass == Idle
      ensures Reachable(at) && at.pass == old(sys.pass) && at.me == old(sys.me)
      ensures ok ==> calls == old(calls) + [Applied(true)]
      ensures !ok ==> exists c | calls == old(calls) + [Applied(false), c] :: Restoring(at, sys, c, now)
      ensures if ok then FinalizedFrom(at, sys, now) else UndoneFrom(at, sys, now)
    {
      hide Reachable, Records, AgainOK;
      AgainHolds(sys);
      Interfere();
      at := sys;
      ok := *;
      calls := calls + [Applied(ok)];
      if !ok {
        ghost var restored;
        at, restored := RecoverOrStrand(actions, now);
        assert calls == old(calls) + [Applied(false), restored];
        return;
      }
      var rows := ApplyActions(sys.rows, actions, sys.pass.live, now);
      ReachableOn(sys, Event.Finalize(now));
      sys := After(sys, Event.Finalize(now));
      assert sys.rows == rows;
    }

    /** The recovery transaction, or its failure. */
    method RecoverOrStrand(actions: seq<Action>, now: int) returns (ghost at: Sys, ghost restored: Call)
      requires Reachable(sys) && sys.pass.Running? && AgainOK(sys.pass.live) && Records(actions, sys.pass.live)
      modifies this
      ensures Reachable(sys) && sys.pass == Idle
      ensures Reachable(at) && at.pass == old(sys.pass) && at.me == old(sys.me)
      ensures UndoneFrom(at, sys, now)
      ensures calls == old(calls) + [restored] && Restoring(at, sys, restored, now)
    {
      hide Reachable, Records;
      Interfere();
      at := sys;
      var recovered: bool := *;
      restored := Restored(recovered);
      calls := calls + [restored];
      if recovered {
        var rows := RevertActions(sys.rows, actions, sys.pass.live, now);
        ReachableOn(sys, Recover(now));
        sys := After(sys, Recover(now));
        assert sys.rows == rows;
      } else {
        ReachableOn(sys, Strand);
        sys := After(sys, Strand);
      }
    }

    // -------------------------------------------------------------- the backend's requests

    /** CreateMailbox. A call that made the mailbox and lost its answer is an outside step. */
    method CreateMailbox(id: int, name: string, parent: string) returns (r: CreateReply)
      requires Reachable(sys) && CallsCreate(sys, id) && Box(name, parent) == AskedBox(sys, id)
      modifies this
      ensures Reachable(sys) && sys.pass.Running?
      ensures r.Created? ==>
          sys.pass.live == old(sys.pass.live).(learned := old(sys.pass.live.learned)[id := Bound(r.box, parent)])
                             && r.box != ""
      ensures r.Created? ==> r.box in sys.server.boxes && sys.server.boxes[r.box] == Box(name, parent)
      ensures !r.Created? ==> sys.pass == old(sys.pass)
      ensures calls == old(calls) + [Made(r)]
    {
      Interfere();
      r := *;
      if r.Created? {
        if Enabled(sys, Create(id, r.box)) {
          ReachableOn(sys, Create(id, r.box));
          sys := After(sys, Create(id, r.box));
        } else {
          r := NameExists;
        }
      }
      calls := calls + [Made(r)];
    }

    /** FindMailboxes, exact on name and parent; one match is what a refused create adopts. */
    method FindMailboxes(id: int, name: string, parent: string) returns (r: FindReply)
      requires Reachable(sys) && CallsCreate(sys, id) && Box(name, parent) == AskedBox(sys, id)
      modifies this
      ensures Reachable(sys) && sys.pass.Running?
      ensures r.Found? && |r.ids| == 1 ==>
                && id in sys.pass.live.learned && sys.pass.live.learned[id].parent == parent
                && sys.pass.live
                     == old(sys.pass.live).(learned := old(sys.pass.live.learned)[id := sys.pass.live.learned[id]])
                && r.ids == {sys.pass.live.learned[id].id}
      ensures !(r.Found? && |r.ids| == 1) ==> sys.pass == old(sys.pass)
      ensures r.Found? ==>
                forall x :: x in r.ids <==> x in sys.server.boxes && sys.server.boxes[x] == Box(name, parent)
      ensures calls == old(calls) + [Looked(r)]
    {
      hide Reachable, Matches;
      Interfere();
      var failed: bool := *;
      if failed {
        var failure: Class := *;
        calls := calls + [Looked(FindFailed(failure))];
        return FindFailed(failure);
      }
      r := Found(Matches(sys.server, Box(name, parent)));
      calls := calls + [Looked(r)];
      MatchIff(sys.server, Box(name, parent));
      if |r.ids| == 1 { AdoptOnly(id, r.ids); }
    }

    /** The one match is what the create learns. */
    method AdoptOnly(id: int, ids: set<string>)
      requires Reachable(sys) && CallsCreate(sys, id) && ids == Matches(sys.server, AskedBox(sys, id)) && |ids| == 1
      modifies this`sys
      ensures Reachable(sys) && sys.pass.Running?
      ensures id in sys.pass.live.learned && ids == {sys.pass.live.learned[id].id}
      ensures sys.pass.live.learned[id].parent == old(AskedBox(sys, id).parent) && sys.server == old(sys.server)
      ensures sys.pass.live
                == old(sys.pass.live).(learned := old(sys.pass.live.learned)[id := sys.pass.live.learned[id]])
    {
      hide Reachable, Matches;
      UniqueHere(sys);
      OnlyMember(sys.server, AskedBox(sys, id));
      var x :| x in ids;
      ReachableOn(sys, Adopt(id, x));
      sys := After(sys, Adopt(id, x));
    }

    /** ApplyBatch with nothing but message updates into dest. */
    method FileMessages(moves: seq<Claimed>, dest: string) returns (r: FileReply)
      requires Reachable(sys) && sys.pass.Running? && Fileable(sys, moves, dest)
      modifies this
      ensures Reachable(sys) && sys.pass.Running? && OnlyFiles(old(sys.pass.live), sys.pass.live)
      ensures r.Answered? ==>
          forall i | 0 <= i < |moves| && AllAccepted(moves[i], r.failed) :: moves[i].id in sys.pass.live.filed
      ensures r.Answered? ==> FilesAccepted(old(sys.pass.live), sys.pass.live, moves, |moves|, dest, r.failed)
      ensures r.CallFailed? ==> sys.pass == old(sys.pass)
      ensures calls == old(calls) + [Filed(r)]
    {
      Interfere();
      r := *;
      calls := calls + [Filed(r)];
      if r.Answered? { RecordFilings(moves, dest, r.failed); }
    }

    /** refile: the moves of a batch whose create was refused, against the mailbox it adopted. */
    method Refile(moves: seq<Claimed>, dest: string) returns (r: FileReply)
      requires Reachable(sys) && sys.pass.Running? && Fileable(sys, moves, dest) && Objects(moves) <= limit
      modifies this
      ensures Reachable(sys) && sys.pass.Running? && OnlyFiles(old(sys.pass.live), sys.pass.live)
      ensures r.Answered? ==>
          forall i | 0 <= i < |moves| && AllAccepted(moves[i], r.failed) :: moves[i].id in sys.pass.live.filed
      ensures r.Answered? ==> FilesAccepted(old(sys.pass.live), sys.pass.live, moves, |moves|, dest, r.failed)
      ensures r.CallFailed? ==> sys.pass == old(sys.pass)
      ensures calls == old(calls) + [Filed(r)]
    {
      r := FileMessages(moves, dest);
    }

    /** The filings an answered request made. */
    method RecordFilings(moves: seq<Claimed>, dest: string, failed: map<string, Class>)
      requires Reachable(sys) && sys.pass.Running? && Fileable(sys, moves, dest)
      modifies this`sys
      ensures Reachable(sys) && sys.pass.Running? && OnlyFiles(old(sys.pass.live), sys.pass.live)
      ensures forall i | 0 <= i < |moves| && AllAccepted(moves[i], failed) :: moves[i].id in sys.pass.live.filed
      ensures FilesAccepted(old(sys.pass.live), sys.pass.live, moves, |moves|, dest, failed)
      ensures sys.server.boxes == old(sys.server.boxes)
    {
      hide Reachable, After, AllAccepted, MayFileInto;
      for i := 0 to |moves|
        invariant Reachable(sys) && sys.pass.Running? && Fileable(sys, moves, dest)
        invariant FilesAccepted(old(sys.pass.live), sys.pass.live, moves, i, dest, failed)
        invariant sys.server.boxes == old(sys.server.boxes)
      {
        FilesOneMore(old(sys.pass.live), sys.pass.live, moves, i, dest, failed);
        if AllAccepted(moves[i], failed) {
          MayFile(sys, moves, dest, failed, i);
          FileStep(sys, moves, dest, moves[i].id);
          ReachableOn(sys, File(moves[i].id, dest));
          sys := After(sys, File(moves[i].id, dest));
        }
      }
    }

    /** ApplyBatch with a create and its riders, which name the mailbox by a back-reference. The request
        never carries more objects than the backend takes. */
    method CreateAndFile(create: Claimed, parent: string, moves: seq<Claimed>) returns (r: BatchReply)
      requires Reachable(sys) && CallsCreate(sys, create.id) && sys.pass.live.claimed[create.id] == create
      requires Box(create.payload.name, parent) == AskedBox(sys, create.id) && InBatch(sys, create.id, moves)
      requires 1 + Objects(moves) <= limit
      modifies this
      ensures Reachable(sys) && sys.pass.Running? && Carries(old(sys.pass.live), sys.pass.live, create.id)
      ensures sys.pass.live.resolved == old(sys.pass.live.resolved) && sys.pass.live.walks == old(sys.pass.live.walks)
      ensures !(r.BatchAnswered? && r.create.Created?) ==> sys.pass == old(sys.pass)
      ensures r.BatchAnswered? && r.create.Created? ==>
                && create.id in sys.pass.live.learned && sys.pass.live.learned[create.id] == Bound(r.create.box, parent)
                && r.create.box != "" && r.create.box in sys.server.boxes
                && sys.server.boxes[r.create.box] == Box(create.payload.name, parent)
                && FilesAccepted(old(sys.pass.live).(learned := sys.pass.live.learned), sys.pass.live, moves, |moves|,
                                 r.create.box, r.failed)
                && forall i | 0 <= i < |moves| && AllAccepted(moves[i], r.failed) :: moves[i].id in sys.pass.live.filed
      ensures calls == old(calls) + [Batched(r)]
    {
      hide Reachable, AllAccepted;
      var reply := CreateMailbox(create.id, create.payload.name, parent);
      var failed: map<string, Class> := *;
      match reply {
        case Created(box) =>
          RecordFilings(moves, box, failed);
          r := BatchAnswered(reply, failed);
        case NameExists => r := BatchAnswered(NameExists, failed);
        case Refused(failure) =>
          var whole: bool := *;
          r := if whole then BatchFailed(failure) else BatchAnswered(reply, failed);
      }
      calls := old(calls) + [Batched(r)];
    }

    /** RenameMailbox and DeleteMailbox: acknowledged, the change is on the server. */
    method ChangeMailbox(id: int) returns (failed: Option<Class>)
      requires Reachable(sys) && Open(sys, id) && !sys.pass.live.claimed[id].preFailed
      requires sys.pass.live.claimed[id].payload.RenameMailbox? || sys.pass.live.claimed[id].payload.DeleteMailbox?
      modifies this
      ensures Reachable(sys) && sys.pass.Running?
      ensures sys.pass.live == old(sys.pass.live).(acked := sys.pass.live.acked)
          && old(sys.pass.live.acked) <= sys.pass.live.acked
      ensures failed.None? ==> sys.pass.live.acked == old(sys.pass.live.acked) + {id}
      ensures failed.None? ==> ChangeMade(sys.server, old(sys.pass.live.claimed[id]))
      ensures failed.Some? ==> sys.pass == old(sys.pass)
      ensures calls == old(calls) + [Acked(failed)]
    {
      Interfere();
      failed := *;
      if failed.None? {
        if Enabled(sys, Ack(id)) {
          ChangeIsMade(sys, id);
          ReachableOn(sys, Ack(id));
          sys := After(sys, Ack(id));
        } else {
          failed := Some(Server);
        }
      }
      calls := calls + [Acked(failed)];
    }
  }

  // ---------------------------------------------------------------- what the requests need

  /** Rename or delete c is what the server now shows. */
  predicate ChangeMade(v: MailServer, c: Claimed) {
    match c.payload
    case RenameMailbox(_, newName) => c.mailbox in v.boxes && v.boxes[c.mailbox].name == newName
    case DeleteMailbox(_) => c.mailbox !in v.boxes
    case _ => false
  }

  lemma ChangeIsMade(s: Sys, id: int)
    requires Enabled(s, Ack(id))
    ensures ChangeMade(After(s, Ack(id)).server, s.pass.live.claimed[id])
    ensures var x := s.pass.live.claimed[id].mailbox; var v := After(s, Ack(id)).server;
            && (forall y | y in s.server.boxes && y != x :: y in v.boxes && v.boxes[y] == s.server.boxes[y])
            && (forall y | y in v.boxes :: y in s.server.boxes && v.boxes[y].parent == s.server.boxes[y].parent)
            && v.filings == s.server.filings && v.touched == s.server.touched + {x}
  {
  }

  /** The objects a request of these moves carries: one update per message. */
  function Objects(moves: seq<Claimed>): nat {
    if moves == [] then 0 else Objects(moves[..|moves| - 1]) + ClaimCost(moves[|moves| - 1].payload)
  }

  /** None of move c's messages is among the refused. */
  predicate AllAccepted(c: Claimed, failed: map<string, Class>) {
    c.payload.MoveMessages? && forall m | m in c.payload.messages && m in c.messageIds :: c.messageIds[m] !in failed
  }

  predicate OpenMove(s: Sys, c: Claimed) {
    MayCall(s, c.id) && s.pass.live.claimed[c.id] == c && c.payload.MoveMessages? && !c.preFailed
  }

  predicate Fileable(s: Sys, moves: seq<Claimed>, dest: string) {
    s.pass.Running? && forall i | 0 <= i < |moves| :: OpenMove(s, moves[i]) && MayFileInto(s.pass.live, moves[i], dest)
  }

  /** The moves a batch may carry beside create: undecided, and waiting for exactly that create. */
  predicate InBatch(s: Sys, create: int, moves: seq<Claimed>) {
    forall i | 0 <= i < |moves| :: RidesWith(s, create, moves[i])
  }

  predicate RidesWith(s: Sys, create: int, c: Claimed) {
    OpenMove(s, c) && c.payload.destRef == create && create != 0 && c.dest == ""
  }

  lemma UniqueHere(s: Sys)
    requires Reachable(s)
    ensures UniqueSiblings(s.server.boxes)
  {
    ReachableInv(s);
  }

  lemma AgainHolds(s: Sys)
    requires Reachable(s) && s.pass.Running? && s.pass.live.decided.Keys == s.pass.live.claimed.Keys
    ensures AgainOK(s.pass.live)
  {
    ReachableInv(s);
  }

  lemma MatchIff(v: MailServer, box: Box)
    ensures forall x :: x in Matches(v, box) <==> x in v.boxes && v.boxes[x] == box
  {
  }

  lemma OnlyMember(v: MailServer, box: Box)
    requires |Matches(v, box)| == 1 && UniqueSiblings(v.boxes)
    ensures exists x :: Matches(v, box) == {x} && x in Matches(v, box)
  {
    var m := Matches(v, box);
    if forall x :: x !in m { assert false; }
    var x :| x in m;
    assert m == {x};
  }

  /** The rows a walk has not examined yet. */
  ghost function Ahead(s: Sys, id: int): set<int> {
    Beyond(s.rows.Keys, if s.pass.Running? && id in s.pass.live.walks then s.pass.live.walks[id].after else 0)
  }

  lemma MayFile(s: Sys, moves: seq<Claimed>, dest: string, failed: map<string, Class>, i: nat)
    requires i < |moves| && Fileable(s, moves, dest) && AllAccepted(moves[i], failed)
    ensures Enabled(s, File(moves[i].id, dest))
  {
    assert OpenMove(s, moves[i]);
  }

  lemma FileStep(s: Sys, moves: seq<Claimed>, dest: string, id: int)
    requires Fileable(s, moves, dest) && Enabled(s, File(id, dest))
    ensures var t := After(s, File(id, dest));
            && Fileable(t, moves, dest) && t.server.boxes == s.server.boxes
            && t.pass.live == s.pass.live.(filed := s.pass.live.filed[id := dest])
  {
    var t := After(s, File(id, dest));
    forall i | 0 <= i < |moves| ensures OpenMove(t, moves[i]) && MayFileInto(t.pass.live, moves[i], dest) {
      assert OpenMove(s, moves[i]) && MayFileInto(s.pass.live, moves[i], dest);
    }
  }

  /** The cursor moves past at least one row of the page. */
  lemma AheadShrinks(rows: Table, after: int)
    requires PageAfter(rows, after, DEPENDENT_REF_PAGE) != []
    ensures var page := PageAfter(rows, after, DEPENDENT_REF_PAGE);
            |Beyond(rows.Keys, page[|page| - 1])| < |Beyond(rows.Keys, after)|
  {
    var page := PageAfter(rows, after, DEPENDENT_REF_PAGE);
    var last := page[|page| - 1];
    var before := Beyond(rows.Keys, after);
    assert last in Ascending(set id | id in rows && id > after);
    var rest := Beyond(rows.Keys, last);
    assert last in before;
    assert rest <= before - {last};
    Fewer(rest, before - {last});
  }

  lemma PageMoves(s: Sys, id: int)
    requires Enabled(s, Page(id))
    ensures var t := After(s, Page(id));
            && RowHoldsId(t, id) && OpenCreate(t, id) && id in t.pass.live.walks
            && OnlyWalks(s.pass.live, t.pass.live, id)
  {
    hide PageAfter;
  }

  lemma PatchKeys(rows: Table, page: seq<int>, me: int, id: int, box: string)
    ensures PatchPage(rows, page, me, id, box).Keys == rows.Keys
  {
    var rows2 := PatchPage(rows, page, me, id, box);
    forall k: int ensures Within(k, rows2.Keys) <==> Within(k, rows.Keys) {}
    SameSet(rows2.Keys, rows.Keys);
  }

  lemma PageShrinks(s: Sys, id: int)
    requires Enabled(s, Page(id)) && !AfterPage(s, id).pass.live.walks[id].done
    ensures |Ahead(AfterPage(s, id), id)| < |Ahead(s, id)|
  {
    var l := s.pass.live;
    var walk := if id in l.walks then l.walks[id] else Walk(0, |s.hist.log|, false);
    var page := PageAfter(s.rows, walk.after, DEPENDENT_REF_PAGE);
    PatchKeys(s.rows, page, s.me, id, s.rows[id].payload.resolved);
    AheadShrinks(s.rows, walk.after);
  }
}
