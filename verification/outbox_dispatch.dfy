/** The dispatcher: one pass claims what is eligible, dispatches it in id order, and finalizes what it
    claimed. Every row is dispatched once, but for a move that rode in a create's batch ahead of its own
    turn. */
module OutboxDispatch {
  import opened Common
  import opened Ordered
  import opened OutboxRows
  import opened OutboxMachine
  import opened OutboxInvariant
  import opened OutboxSteps
  import opened OutboxClaims
  import opened OutboxTheorems
  import opened OutboxWorld

  /** The end a pass made of one claimed intent. */
  datatype Outcome = Outcome(c: Claimed, decision: Decision)

  datatype Failure = Failure(c: Claimed, failure: Class, detail: string, retrying: bool, warn: bool)

  datatype Result = Result(delivered: seq<Claimed>, failures: seq<Failure>)

  predicate IsRetriable(failure: Class) { failure != NotFound }

  /** A failure with nothing against it but its class: only a missing referent is final. */
  function FailedOutcome(failure: Class, detail: string): (d: Decision)
    ensures d.GiveUp? <==> failure == NotFound
    ensures !d.GiveUp? ==> d == Retry(failure, detail)
    ensures d.GiveUp? ==> d == GiveUp(NotFound, detail)
  {
    if IsRetriable(failure) then Retry(failure, detail) else GiveUp(failure, detail)
  }

  /** Every outcome of a batch that failed as a whole. */
  function FailBatch(create: Claimed, moves: seq<Claimed>, d: Decision): (r: seq<Outcome>)
    ensures |r| == |moves| + 1 && r[0].c == create && forall k | 0 <= k < |moves| :: r[k + 1].c == moves[k]
    ensures forall k | 0 <= k < |r| :: r[k].decision == d
  {
    [Outcome(create, d)] + seq(|moves|, i requires 0 <= i < |moves| => Outcome(moves[i], d))
  }

  /** Go's map read: the zero string for a missing key. */
  function Get(m: map<int, string>, k: int): string { if k in m then m[k] else "" }

  // ---------------------------------------------------------------- batches

  /** A create claimed with a mailbox still to make. */
  predicate FreshCreate(c: Claimed) { c.payload.CreateMailbox? && !c.preFailed && c.payload.resolved == "" }

  predicate WaitsFor(c: Claimed, id: int) {
    c.payload.MoveMessages? && !c.preFailed && c.payload.destRef == id && id != 0
  }

  function GroupOf(groups: map<int, seq<Claimed>>, id: int): seq<Claimed> { if id in groups then groups[id] else [] }

  predicate Sorted(rows: seq<Claimed>) { forall i, j | 0 <= i < j < |rows| :: rows[i].id < rows[j].id }

  predicate HasFresh(rows: seq<Claimed>, id: int) {
    exists i | 0 <= i < |rows| :: rows[i].id == id && FreshCreate(rows[i])
  }

  predicate Among(rows: seq<Claimed>, n: int, c: Claimed)
    requires 0 <= n <= |rows|
  {
    exists j | 0 <= j < n :: rows[j] == c
  }

  /** One group: it belongs to a fresh create, holds claimed moves into it in id order, and fits the
      wire limit together with its create. */
  predicate GroupOK(rows: seq<Claimed>, n: int, id: int, g: seq<Claimed>, limit: int)
    requires 0 <= n <= |rows|
  {
    && g != [] && 1 + Objects(g) <= limit && Sorted(g) && HasFresh(rows, id)
    && forall k | 0 <= k < |g| :: WaitsFor(g[k], id) && Among(rows, n, g[k])
  }

  /** A waiting move stays out of its create's batch only when it would not fit beside the rest. */
  predicate LeftOut(id: int, g: seq<Claimed>, c: Claimed, limit: int) {
    WaitsFor(c, id) && c !in g ==> 1 + Objects(g) + |c.payload.messages| > limit
  }

  /** What a plan over the first n rows promises of every group and of every move left alone. */
  predicate Planned(rows: seq<Claimed>, n: int, groups: map<int, seq<Claimed>>, limit: int)
    requires 0 <= n <= |rows|
  {
    && (forall id | id in groups :: GroupOK(rows, n, id, groups[id], limit))
    && (forall i, j | 0 <= i < |rows| && FreshCreate(rows[i]) && 0 <= j < n ::
          LeftOut(rows[i].id, GroupOf(groups, rows[i].id), rows[j], limit))
  }

  lemma ObjectsAppend(moves: seq<Claimed>, c: Claimed)
    ensures Objects(moves + [c]) == Objects(moves) + ClaimCost(c.payload)
  {
    assert (moves + [c])[..|moves|] == moves;
  }

  lemma GroupWaits(rows: seq<Claimed>, n: int, id: int, g: seq<Claimed>, limit: int)
    requires 0 <= n < |rows| && GroupOK(rows, n, id, g, limit)
    ensures GroupOK(rows, n + 1, id, g, limit)
  {
    forall k | 0 <= k < |g| ensures Among(rows, n + 1, g[k]) {
      assert Among(rows, n, g[k]);
    }
  }

  lemma SortedGrows(rows: seq<Claimed>, n: int, g: seq<Claimed>)
    requires 0 <= n < |rows| && Sorted(rows) && Sorted(g) && forall k | 0 <= k < |g| :: Among(rows, n, g[k])
    ensures Sorted(g + [rows[n]])
  {
    var g2 := g + [rows[n]];
    forall i, j | 0 <= i < j < |g2| ensures g2[i].id < g2[j].id {
      assert g2[i] == g[i] && Among(rows, n, g[i]);
    }
  }

  lemma GroupGrows(rows: seq<Claimed>, n: int, id: int, g: seq<Claimed>, limit: int)
    requires 0 <= n < |rows| && Sorted(rows) && (g == [] || GroupOK(rows, n, id, g, limit))
    requires HasFresh(rows, id) && WaitsFor(rows[n], id) && 1 + Objects(g) + |rows[n].payload.messages| <= limit
    ensures GroupOK(rows, n + 1, id, g + [rows[n]], limit)
  {
    ObjectsAppend(g, rows[n]);
    SortedGrows(rows, n, g);
    var g2 := g + [rows[n]];
    forall k | 0 <= k < |g2| ensures WaitsFor(g2[k], id) && Among(rows, n + 1, g2[k]) {
      if k < |g| { assert g2[k] == g[k] && Among(rows, n, g[k]); } else { assert g2[k] == rows[n]; }
    }
  }

  lemma StillLeftOut(id: int, g: seq<Claimed>, more: Claimed, c: Claimed, limit: int)
    requires LeftOut(id, g, c, limit)
    ensures LeftOut(id, g + [more], c, limit)
  {
    ObjectsAppend(g, more);
    forall x | x in g ensures x in g + [more] {}
  }

  /** Row n stays out of every batch: it waits for none, or its own has no room. */
  lemma PlanStays(rows: seq<Claimed>, n: int, groups: map<int, seq<Claimed>>, limit: int)
    requires 0 <= n < |rows| && Planned(rows, n, groups, limit)
    requires forall i | 0 <= i < |rows| && FreshCreate(rows[i]) ::
               LeftOut(rows[i].id, GroupOf(groups, rows[i].id), rows[n], limit)
    ensures Planned(rows, n + 1, groups, limit)
  {
    forall id | id in groups ensures GroupOK(rows, n + 1, id, groups[id], limit) {
      GroupWaits(rows, n, id, groups[id], limit);
    }
  }

  /** A move that joined its batch leaves who stays out of any batch as it was. */
  lemma JoinLeavesOut(rows: seq<Claimed>, n: int, groups: map<int, seq<Claimed>>, limit: int, dest: int, id: int,
      j: int)
    requires 0 <= j <= n < |rows| && WaitsFor(rows[n], dest)
    requires j < n ==> LeftOut(id, GroupOf(groups, id), rows[j], limit)
    ensures LeftOut(id, GroupOf(groups[dest := GroupOf(groups, dest) + [rows[n]]], id), rows[j], limit)
  {
    var g := GroupOf(groups, dest);
    if j < n && id == dest { StillLeftOut(dest, g, rows[n], rows[j], limit); }
    assert rows[n] in g + [rows[n]];
  }

  /** Row n joins the batch of the create it waits for. */
  lemma PlanJoins(rows: seq<Claimed>, n: int, groups: map<int, seq<Claimed>>, limit: int, dest: int)
    requires 0 <= n < |rows| && Sorted(rows) && Planned(rows, n, groups, limit)
    requires HasFresh(rows, dest) && WaitsFor(rows[n], dest)
    requires 1 + Objects(GroupOf(groups, dest)) + |rows[n].payload.messages| <= limit
    ensures Planned(rows, n + 1, groups[dest := GroupOf(groups, dest) + [rows[n]]], limit)
  {
    var g := GroupOf(groups, dest);
    var groups2 := groups[dest := g + [rows[n]]];
    GroupGrows(rows, n, dest, g, limit);
    forall id | id in groups2 ensures GroupOK(rows, n + 1, id, groups2[id], limit) {
      hide GroupOK, LeftOut, Objects;
      if id != dest { GroupWaits(rows, n, id, groups[id], limit); }
    }
    forall i, j | 0 <= i < |rows| && FreshCreate(rows[i]) && 0 <= j < n + 1
      ensures LeftOut(rows[i].id, GroupOf(groups2, rows[i].id), rows[j], limit)
    {
      hide GroupOK, LeftOut, Objects, GroupOf;
      JoinLeavesOut(rows, n, groups, limit, dest, rows[i].id, j);
    }
  }

  /** What is left of each fresh create's budget. */
  ghost predicate Budgeted(rows: seq<Claimed>, groups: map<int, seq<Claimed>>, budget: map<int, int>, limit: int) {
    && (forall id :: id in budget <==> HasFresh(rows, id))
    && (forall id | id in budget :: budget[id] == limit - 1 - Objects(GroupOf(groups, id)))
  }

  /** The create row c waits for in batches: none unless it is a move with a reference. */
  function BatchRef(c: Claimed): int { if c.payload.MoveMessages? && !c.preFailed then c.payload.destRef else 0 }

  predicate Fits(c: Claimed, budget: map<int, int>) {
    var dest := BatchRef(c);
    dest != 0 && dest in budget && |c.payload.messages| <= budget[dest]
  }

  lemma NoFit(rows: seq<Claimed>, n: int, groups: map<int, seq<Claimed>>, budget: map<int, int>, limit: int)
    requires 0 <= n < |rows| && Planned(rows, n, groups, limit) && Budgeted(rows, groups, budget, limit)
    requires !Fits(rows[n], budget)
    ensures Planned(rows, n + 1, groups, limit)
  {
    forall i | 0 <= i < |rows| && FreshCreate(rows[i])
      ensures LeftOut(rows[i].id, GroupOf(groups, rows[i].id), rows[n], limit) {
      assert HasFresh(rows, rows[i].id);
    }
    PlanStays(rows, n, groups, limit);
  }

  lemma Spends(rows: seq<Claimed>, n: int, groups: map<int, seq<Claimed>>, budget: map<int, int>, limit: int)
    requires 0 <= n < |rows| && Budgeted(rows, groups, budget, limit) && Fits(rows[n], budget)
    ensures var dest := BatchRef(rows[n]);
            Budgeted(rows, groups[dest := GroupOf(groups, dest) + [rows[n]]],
                     budget[dest := budget[dest] - |rows[n].payload.messages|], limit)
  {
    ObjectsAppend(GroupOf(groups, BatchRef(rows[n])), rows[n]);
  }

  lemma EmptyPlan(rows: seq<Claimed>, budget: map<int, int>, limit: int)
    requires forall id :: id in budget <==> HasFresh(rows, id)
    requires forall id | id in budget :: budget[id] == limit - 1
    ensures Planned(rows, 0, map[], limit) && Budgeted(rows, map[], budget, limit)
  {
  }

  /** A mailbox still to be made: claimed without the id of one made before. */
  predicate Unmade(c: Claimed, id: int) {
    c.id == id && !c.preFailed && match c.payload
                                  case CreateMailbox(_, _, _, _, resolved) => resolved == ""
                                  case _ => false
  }

  /** A claimed move into the mailbox that row id is to make. */
  predicate MovesInto(c: Claimed, id: int) {
    !c.preFailed && match c.payload
                    case MoveMessages(_, _, destRef, _, _) => destRef == id
                    case _ => false
  }

  /** The batches, row by row: each belongs to a claimed create whose mailbox is still to be made, and holds
      claimed moves into it and nothing else; a claimed move into such a mailbox is in its create's batch, or
      that batch and it together would make more objects than one request carries. */
  ghost predicate Batches(rows: seq<Claimed>, groups: map<int, seq<Claimed>>, limit: int) {
    && (forall id | id in groups :: exists i | 0 <= i < |rows| :: Unmade(rows[i], id))
    && (forall id, k | id in groups && 0 <= k < |groups[id]| :: groups[id][k] in rows && MovesInto(groups[id][k], id))
    && (forall i, j | 0 <= i < |rows| && 0 <= j < |rows| && Unmade(rows[i], rows[i].id) && rows[i].id != 0
          && MovesInto(rows[j], rows[i].id) ::
          if rows[i].id in groups then
            rows[j] in groups[rows[i].id] || 1 + Objects(groups[rows[i].id]) + |rows[j].payload.messages| > limit
          else 1 + |rows[j].payload.messages| > limit)
  }

  lemma PlannedBatches(rows: seq<Claimed>, groups: map<int, seq<Claimed>>, limit: int)
    requires Planned(rows, |rows|, groups, limit)
    ensures Batches(rows, groups, limit)
  {
    forall id | id in groups ensures exists i | 0 <= i < |rows| :: Unmade(rows[i], id) {
      assert HasFresh(rows, id);
      var i :| 0 <= i < |rows| && rows[i].id == id && FreshCreate(rows[i]);
      assert Unmade(rows[i], id);
    }
    forall id, k | id in groups && 0 <= k < |groups[id]|
      ensures groups[id][k] in rows && MovesInto(groups[id][k], id) {
      assert GroupOK(rows, |rows|, id, groups[id], limit) && Among(rows, |rows|, groups[id][k]);
    }
    forall i, j | 0 <= i < |rows| && 0 <= j < |rows| && Unmade(rows[i], rows[i].id) && MovesInto(rows[j], rows[i].id)
      ensures LeftOut(rows[i].id, GroupOf(groups, rows[i].id), rows[j], limit) {
      assert FreshCreate(rows[i]);
    }
  }

  /** Groups each create with the claimed moves into the mailbox it makes. */
  method PlanBatches(rows: seq<Claimed>, limit: int) returns (groups: map<int, seq<Claimed>>)
    requires limit >= 1 && Sorted(rows)
    ensures Planned(rows, |rows|, groups, limit)
    ensures Batches(rows, groups, limit)
  {
    hide Planned, Batches;
    var budget := CreateBudgets(rows, limit);
    groups := map[];
    EmptyPlan(rows, budget, limit);
    for n := 0 to |rows|
      invariant Budgeted(rows, groups, budget, limit) && Planned(rows, n, groups, limit)
    {
      var c := rows[n];
      if Fits(c, budget) {
        var dest := BatchRef(c);
        PlanJoins(rows, n, groups, limit, dest);
        Spends(rows, n, groups, budget, limit);
        budget := budget[dest := budget[dest] - |c.payload.messages|];
        groups := groups[dest := GroupOf(groups, dest) + [c]];
      } else {
        NoFit(rows, n, groups, budget, limit);
      }
    }
    PlannedBatches(rows, groups, limit);
  }

  /** What each fresh create may carry beside itself. */
  method CreateBudgets(rows: seq<Claimed>, limit: int) returns (budget: map<int, int>)
    ensures forall id :: id in budget <==> HasFresh(rows, id)
    ensures forall id | id in budget :: budget[id] == limit - 1
  {
    budget := map[];
    for n := 0 to |rows|
      invariant forall id :: id in budget <==> exists i | 0 <= i < n :: rows[i].id == id && FreshCreate(rows[i])
      invariant forall id | id in budget :: budget[id] == limit - 1
    {
      if FreshCreate(rows[n]) { budget := budget[rows[n].id := limit - 1]; }
    }
  }

  // ---------------------------------------------------------------- one dispatch

  /** Row c is this pass's to dispatch, and nothing is known about it yet. */
  predicate Ready(s: Sys, c: Claimed, resolved: map<int, string>) {
    && Open(s, c.id) && s.pass.live.claimed[c.id] == c && resolved == s.pass.live.resolved
    && c.id !in s.pass.live.learned && c.id !in s.pass.live.walks
  }

  /** A decision never drops work another attempt could do: a row is given up only when a referent
      is gone, its kind is unknown, or no single mailbox answers for a create the server refused. */
  predicate Sound(c: Claimed, d: Decision) {
    && !d.Revert?
    && (d.Retry? ==> d.failure != NotFound)
    && (d.GiveUp? ==> d.failure == NotFound || c.payload.UnknownKind? || (d.failure == Server && NeedsACreate(c)))
  }

  /** c makes a mailbox, or files into one still to be made. */
  predicate NeedsACreate(c: Claimed) { c.payload.CreateMailbox? || (c.payload.MoveMessages? && c.payload.destRef != 0) }

  predicate MayConclude(l: Live, o: Outcome) { Sound(o.c, o.decision) && (o.decision.Deliver? ==> MayDeliver(l, o.c)) }

  predicate Dispatched(a: Live, s: Sys, c: Claimed, resolved: map<int, string>, d: Decision) {
    && s.pass.Running? && Carries(a, s.pass.live, c.id) && resolved == s.pass.live.resolved
    && MayConclude(s.pass.live, Outcome(c, d)) && (c.payload.CreateMailbox? && d.Deliver? ==> c.id in resolved)
  }

  /** The first of c's messages the server refused. */
  predicate FirstRefused(c: Claimed, failed: map<string, Class>, k: int)
    requires c.payload.MoveMessages?
  {
    && 0 <= k < |c.payload.messages|
    && c.payload.messages[k] in c.messageIds && c.messageIds[c.payload.messages[k]] in failed
    && forall j | 0 <= j < k && c.payload.messages[j] in c.messageIds :: c.messageIds[c.payload.messages[j]] !in failed
  }

  function RefusalAt(c: Claimed, failed: map<string, Class>, k: int): (d: Decision)
    requires c.payload.MoveMessages? && FirstRefused(c, failed, k)
    ensures var failure := failed[c.messageIds[c.payload.messages[k]]];
            d == if failure == NotFound then GiveUp(NotFound, "") else Retry(failure, "")
  {
    FailedOutcome(failed[c.messageIds[c.payload.messages[k]]], "")
  }

  /** The claim resolved every message of c. */
  predicate HasItsIds(c: Claimed)
    requires c.payload.MoveMessages?
  {
    forall k | 0 <= k < |c.payload.messages| :: c.payload.messages[k] in c.messageIds
  }

  /** A move is delivered when none of its messages was refused, and fails with the first refusal's class. */
  method MoveOutcome(c: Claimed, failed: map<string, Class>) returns (d: Decision)
    requires c.payload.MoveMessages? && HasItsIds(c)
    ensures d.Deliver? <==> AllAccepted(c, failed)
    ensures MoveDecided(c, failed, d)
  {
    for k := 0 to |c.payload.messages|
      invariant forall j | 0 <= j < k :: c.messageIds[c.payload.messages[j]] !in failed
    {
      var m := c.payload.messages[k];
      if c.messageIds[m] in failed {
        assert FirstRefused(c, failed, k);
        assert m in c.payload.messages;
        return RefusalAt(c, failed, k);
      }
    }
    forall m | m in c.payload.messages && m in c.messageIds ensures c.messageIds[m] !in failed {
      var j :| 0 <= j < |c.payload.messages| && c.payload.messages[j] == m;
    }
    return Deliver;
  }

  lemma ClaimFacts(s: Sys, c: Claimed)
    requires Reachable(s) && s.pass.Running? && c.id in s.pass.live.claimed && s.pass.live.claimed[c.id] == c
    ensures c.id >= 1
    ensures c.payload.CreateMailbox? && c.payload.resolved != "" ==> RowHoldsId(s, c.id)
    ensures c.payload.MoveMessages? && !c.preFailed ==> HasItsIds(c)
    ensures c.payload.MoveMessages? && !c.preFailed && c.payload.destRef != 0 ==> c.dest == ""
    ensures c.id in s.pass.live.learned ==> s.pass.live.learned[c.id].id != ""
  {
    ReachableInv(s);
    assert ClaimedOK(s.me, s.rows, s.server, s.hist, c.id, c);
    if c.id in s.pass.live.learned { assert LearnedOK(s.server, s.hist, c, s.pass.live.learned[c.id]); }
    if c.payload.MoveMessages? && !c.preFailed {
      forall k | 0 <= k < |c.payload.messages| ensures c.payload.messages[k] in c.messageIds {
        var m: int := c.payload.messages[k];
        assert m in c.payload.messages;
        assert m in c.messageIds;
      }
    }
    if c.payload.MoveMessages? && c.payload.destRef != 0 {
      assert s.hist.log[c.serial].payload.Ref() == c.payload.destRef;
    }
  }

  /** The moves of a batch whose failures are all on record in `failed`. */
  predicate FiledUnless(l: Live, moves: seq<Claimed>, failed: map<string, Class>) {
    forall i | 0 <= i < |moves| && AllAccepted(moves[i], failed) :: moves[i].id in l.filed
  }

  /** One outcome for the create, then one for each move, in order. */
  predicate OneEach(create: Claimed, moves: seq<Claimed>, outcomes: seq<Outcome>) {
    && |outcomes| == |moves| + 1 && outcomes[0].c == create
    && forall k | 0 <= k < |moves| :: outcomes[k + 1].c == moves[k]
  }

  predicate AllConclude(l: Live, outcomes: seq<Outcome>) {
    forall k | 0 <= k < |outcomes| :: MayConclude(l, outcomes[k])
  }

  lemma FailBatchConcludes(l: Live, create: Claimed, moves: seq<Claimed>, d: Decision)
    requires !d.Deliver? && NeedsACreate(create) && Sound(create, d) && forall i | 0 <= i < |moves| ::
        NeedsACreate(moves[i])
    ensures OneEach(create, moves, FailBatch(create, moves, d)) && AllConclude(l, FailBatch(create, moves, d))
  {
  }

  /** With the create's id learned, every move of its batch may file into that mailbox. */
  lemma BatchFileable(s: Sys, create: int, moves: seq<Claimed>, dest: string)
    requires InBatch(s, create, moves) && s.pass.Running? && dest != ""
    requires create in s.pass.live.learned && s.pass.live.learned[create].id == dest
    ensures Fileable(s, moves, dest)
  {
    forall i | 0 <= i < |moves| ensures OpenMove(s, moves[i]) && MayFileInto(s.pass.live, moves[i], dest) {
      assert RidesWith(s, create, moves[i]);
    }
  }

  // ---------------------------------------------------------------- what a pass accumulates

  /** What a pass has accumulated: its finalize actions, its report, and the ids already decided. */
  datatype Tally = Tally(actions: seq<Action>, result: Result, finalized: set<int>)

  function FailureOf(c: Claimed, failure: Class, detail: string, retrying: bool): Failure {
    Failure(c, failure, detail, retrying, failure == Throttled)
  }

  /** The report of one outcome: nothing at all for a row that was never attempted. */
  function Reported(r: Result, o: Outcome): Result {
    match o.decision
    case Deliver => r.(delivered := r.delivered + [o.c])
    case Retry(failure, detail) => r.(failures := r.failures + [FailureOf(o.c, failure, detail, true)])
    case GiveUp(failure, detail) => r.(failures := r.failures + [FailureOf(o.c, failure, detail, false)])
    case Revert => r
  }

  function WithAction(actions: seq<Action>, o: Outcome): seq<Action> {
    actions + [Action(o.c.id, VerbOf(o.c, o.decision))]
  }

  function Tallied(t: Tally, o: Outcome): Tally {
    Tally(WithAction(t.actions, o), Reported(t.result, o), t.finalized + {o.c.id})
  }

  predicate DeliveredIn(r: Result, id: int) { exists i | 0 <= i < |r.delivered| :: r.delivered[i].id == id }

  predicate FailedIn(r: Result, id: int) { exists i | 0 <= i < |r.failures| :: r.failures[i].c.id == id }

  /** d is what row id came to, at its own turn or in a batch that carried it again. */
  predicate Ends(l: Live, id: int, d: Decision) {
    (id in l.decided && l.decided[id] == d) || (id in l.again && l.again[id] == d)
  }

  function DecisionOf(f: Failure): Decision {
    if f.retrying then Retry(f.failure, f.detail) else GiveUp(f.failure, f.detail)
  }

  predicate ReportedAs(r: Result, id: int, d: Decision) {
    match d
    case Deliver => DeliveredIn(r, id)
    case Revert => true
    case _ => exists i | 0 <= i < |r.failures| :: r.failures[i].c.id == id && DecisionOf(r.failures[i]) == d
  }

  /** f and g, in this order, are about different rows, or are a row's first outcome and its second. */
  predicate InTheirOrder(l: Live, f: Failure, g: Failure) {
    f.c.id == g.c.id ==>
      && f.c.id in l.decided && f.c.id in l.again
      && DecisionOf(f) == l.decided[f.c.id] && DecisionOf(g) == l.again[f.c.id]
  }

  /** A row is named once, but for one that was carried again: its first failure comes before its second. */
  ghost predicate DistinctReports(r: Result, l: Live) {
    && (forall i, j | 0 <= i < j < |r.delivered| :: r.delivered[i].id != r.delivered[j].id)
    && (forall i, j | 0 <= i < j < |r.failures| :: InTheirOrder(l, r.failures[i], r.failures[j]))
  }

  /** What the report says of a row is something the row came to. */
  predicate NamesWell(r: Result, l: Live) {
    && (forall i | 0 <= i < |r.delivered| ::
          var c := r.delivered[i]; c.id in l.claimed && l.claimed[c.id] == c && Ends(l, c.id, Deliver))
    && (forall i | 0 <= i < |r.failures| :: FailedWell(r.failures[i], l))
  }

  predicate FailedWell(f: Failure, l: Live) {
    && f.c.id in l.claimed && l.claimed[f.c.id] == f.c && f.warn == (f.failure == Throttled)
    && Ends(l, f.c.id, DecisionOf(f))
  }

  /** The report names each row for each thing it came to, and no other row. */
  ghost predicate Reports(r: Result, l: Live) {
    && DistinctReports(r, l) && NamesWell(r, l)
    && (forall id | id in l.decided :: ReportedAs(r, id, l.decided[id]))
    && (forall id | id in l.again :: ReportedAs(r, id, l.again[id]))
  }

  ghost predicate TallyOK(t: Tally, l: Live) {
    && Records(t.actions, l) && Reports(t.result, l)
    && forall id :: id in t.finalized <==> id in l.decided
  }

  /** o may be recorded: its row has no decision yet, or was given up and comes again. */
  predicate MayEnd(l: Live, o: Outcome) {
    && o.c.id in l.claimed && l.claimed[o.c.id] == o.c
    && (o.c.id !in l.decided || (MayReturn(l, o.c.id) && !o.decision.Revert?))
  }

  /** A second decision is only ever about a row that was given up. */
  predicate SecondsOK(l: Live) {
    forall id | id in l.again :: id in l.decided && l.decided[id].GiveUp? && !l.again[id].Revert?
  }

  /** The pass with o recorded. */
  function Ended(l: Live, o: Outcome): Live {
    if o.c.id in l.decided then l.(again := l.again[o.c.id := o.decision])
    else l.(decided := l.decided[o.c.id := o.decision])
  }

  lemma ListsPrefix(actions: seq<Action>, a: Action, n: nat, id: int)
    requires n <= |actions|
    ensures Lists(actions + [a], n, id) <==> Lists(actions, n, id)
    ensures ListsTwice(actions + [a], n, id) <==> ListsTwice(actions, n, id)
  {
    var b := actions + [a];
    if Lists(actions, n, id) {
      var i :| 0 <= i < n && actions[i].id == id;
      assert b[i].id == id;
    }
    if ListsTwice(actions, n, id) {
      var i, j :| 0 <= i < j < n && actions[i].id == id && actions[j].id == id;
      assert b[i].id == id && b[j].id == id;
    }
  }

  /** What has been listed is decided, and listed twice exactly when it is decided again. */
  lemma RecordsList(actions: seq<Action>, l: Live, id: int)
    requires Records(actions, l)
    ensures Lists(actions, |actions|, id) <==> id in l.decided
    ensures ListsTwice(actions, |actions|, id) <==> id in l.again
  {
    if Lists(actions, |actions|, id) {
      var i :| 0 <= i < |actions| && actions[i].id == id;
      assert Owed(actions, i, l);
    }
    if ListsTwice(actions, |actions|, id) {
      var i, j :| 0 <= i < j < |actions| && actions[i].id == id && actions[j].id == id;
      assert Owed(actions, j, l) && Lists(actions, j, id);
    }
  }

  /** Records of what was recorded so far still stand. */
  lemma OwedStays(actions: seq<Action>, l: Live, o: Outcome, i: nat)
    requires Records(actions, l) && MayEnd(l, o) && i < |actions|
    ensures Owed(WithAction(actions, o), i, Ended(l, o))
  {
    var a := Action(o.c.id, VerbOf(o.c, o.decision));
    assert Owed(actions, i, l);
    ListsPrefix(actions, a, i, actions[i].id);
    assert (actions + [a])[i] == actions[i];
    RecordsList(actions, l, o.c.id);
    if actions[i].id == o.c.id { assert Lists(actions, |actions|, o.c.id); }
  }

  lemma OwedNext(actions: seq<Action>, l: Live, o: Outcome)
    requires Records(actions, l) && MayEnd(l, o)
    ensures var b := WithAction(actions, o);
            Owed(b, |actions|, Ended(l, o)) && !ListsTwice(b, |actions|, o.c.id)
  {
    RecordsList(actions, l, o.c.id);
    ListsPrefix(actions, Action(o.c.id, VerbOf(o.c, o.decision)), |actions|, o.c.id);
  }

  lemma OwedAt(actions: seq<Action>, l: Live, o: Outcome, i: nat)
    requires Records(actions, l) && MayEnd(l, o) && i <= |actions|
    ensures var b := WithAction(actions, o); Owed(b, i, Ended(l, o)) && !ListsTwice(b, i, b[i].id)
  {
    if i < |actions| {
      OwedStays(actions, l, o, i);
      ListsPrefix(actions, Action(o.c.id, VerbOf(o.c, o.decision)), i, actions[i].id);
      assert !ListsTwice(actions, i, actions[i].id);
    } else {
      OwedNext(actions, l, o);
    }
  }

  lemma ListedAt(actions: seq<Action>, l: Live, o: Outcome, id: int)
    requires Records(actions, l) && MayEnd(l, o)
    ensures var b := WithAction(actions, o);
            && (id in Ended(l, o).decided ==> Lists(b, |b|, id))
            && (id in Ended(l, o).again ==> ListsTwice(b, |b|, id))
  {
    var b, n := WithAction(actions, o), |actions|;
    RecordsList(actions, l, id);
    ListsPrefix(actions, b[n], n, id);
    hide Records, Lists, ListsTwice;
    ListsOneMore(b, n);
    TwiceOneMore(b, n, id);
  }

  lemma RecordsStep(actions: seq<Action>, l: Live, o: Outcome)
    requires Records(actions, l) && MayEnd(l, o)
    ensures Records(WithAction(actions, o), Ended(l, o))
  {
    var b := WithAction(actions, o);
    forall i | 0 <= i < |b| ensures Owed(b, i, Ended(l, o)) && !ListsTwice(b, i, b[i].id) { OwedAt(actions, l, o, i); }
    forall id | id in Ended(l, o).decided ensures Lists(b, |b|, id) { ListedAt(actions, l, o, id); }
    forall id | id in Ended(l, o).again ensures ListsTwice(b, |b|, id) { ListedAt(actions, l, o, id); }
  }

  lemma ReportedStays(r: Result, o: Outcome, id: int, d: Decision)
    requires ReportedAs(r, id, d)
    ensures ReportedAs(Reported(r, o), id, d)
  {
    var r2 := Reported(r, o);
    if d.Deliver? {
      var i :| 0 <= i < |r.delivered| && r.delivered[i].id == id;
      assert r2.delivered[i] == r.delivered[i];
    } else if !d.Revert? {
      var i :| 0 <= i < |r.failures| && r.failures[i].c.id == id && DecisionOf(r.failures[i]) == d;
      assert r2.failures[i] == r.failures[i];
    }
  }

  lemma NewlyReported(r: Result, o: Outcome)
    ensures ReportedAs(Reported(r, o), o.c.id, o.decision)
  {
    var r2 := Reported(r, o);
    if o.decision.Deliver? { assert r2.delivered[|r.delivered|] == o.c; }
    if o.decision.Retry? || o.decision.GiveUp? {
      assert r2.failures[|r.failures|].c == o.c && DecisionOf(r2.failures[|r.failures|]) == o.decision;
    }
  }

  lemma DeliveredOnce(r: Result, l: Live, o: Outcome)
    requires Reports(r, l) && SecondsOK(l) && MayEnd(l, o)
    ensures var d := Reported(r, o).delivered; forall i, j | 0 <= i < j < |d| :: d[i].id != d[j].id
  {
    var d := Reported(r, o).delivered;
    forall i, j | 0 <= i < j < |d| ensures d[i].id != d[j].id {
      assert Ends(l, r.delivered[i].id, Deliver);
    }
  }

  lemma OrderStays(l: Live, o: Outcome, f: Failure, g: Failure)
    requires MayEnd(l, o) && InTheirOrder(l, f, g)
    ensures InTheirOrder(Ended(l, o), f, g)
  {
  }

  lemma OrderEnds(l: Live, o: Outcome, f: Failure, g: Failure)
    requires SecondsOK(l) && MayEnd(l, o) && Ends(l, f.c.id, DecisionOf(f))
    requires g.c == o.c && DecisionOf(g) == o.decision
    ensures InTheirOrder(Ended(l, o), f, g)
  {
  }

  lemma DistinctStep(r: Result, l: Live, o: Outcome)
    requires Reports(r, l) && SecondsOK(l) && MayEnd(l, o)
    ensures DistinctReports(Reported(r, o), Ended(l, o))
  {
    var r2, l2 := Reported(r, o), Ended(l, o);
    DeliveredOnce(r, l, o);
    hide ReportedAs, InTheirOrder, Ends, SecondsOK, MayEnd, Ended;
    forall i, j | 0 <= i < j < |r2.failures| ensures InTheirOrder(l2, r2.failures[i], r2.failures[j]) {
      if j < |r.failures| {
        OrderStays(l, o, r.failures[i], r.failures[j]);
      } else {
        OrderEnds(l, o, r.failures[i], r2.failures[j]);
      }
    }
  }

  lemma EndsStay(l: Live, o: Outcome, id: int, d: Decision)
    requires MayEnd(l, o) && Ends(l, id, d)
    ensures Ends(Ended(l, o), id, d)
  {
  }

  lemma FirstReported(r: Result, l: Live, o: Outcome, id: int)
    requires id in Ended(l, o).decided && (id in l.decided ==> ReportedAs(r, id, l.decided[id]))
    ensures ReportedAs(Reported(r, o), id, Ended(l, o).decided[id])
  {
    hide ReportedAs, Reported;
    if id in l.decided { ReportedStays(r, o, id, l.decided[id]); } else { NewlyReported(r, o); }
  }

  lemma SecondReported(r: Result, l: Live, o: Outcome, id: int)
    requires id in Ended(l, o).again && (id in l.again ==> ReportedAs(r, id, l.again[id]))
    ensures ReportedAs(Reported(r, o), id, Ended(l, o).again[id])
  {
    hide ReportedAs, Reported;
    if id == o.c.id && id in l.decided { NewlyReported(r, o); } else { ReportedStays(r, o, id, l.again[id]); }
  }

  lemma ReportsCover(r: Result, l: Live, o: Outcome)
    requires Reports(r, l)
    ensures var r2, l2 := Reported(r, o), Ended(l, o);
            && (forall id | id in l2.decided :: ReportedAs(r2, id, l2.decided[id]))
            && (forall id | id in l2.again :: ReportedAs(r2, id, l2.again[id]))
  {
    hide ReportedAs, Reported, DistinctReports, NamesWell, Ended;
    var r2, l2 := Reported(r, o), Ended(l, o);
    forall id | id in l2.decided ensures ReportedAs(r2, id, l2.decided[id]) { FirstReported(r, l, o, id); }
    forall id | id in l2.again ensures ReportedAs(r2, id, l2.again[id]) { SecondReported(r, l, o, id); }
  }

  lemma FailuresName(r: Result, l: Live, o: Outcome)
    requires NamesWell(r, l) && MayEnd(l, o)
    ensures forall i | 0 <= i < |Reported(r, o).failures| :: FailedWell(Reported(r, o).failures[i], Ended(l, o))
  {
    hide FailedWell, Ended, MayEnd;
    var r2, l2 := Reported(r, o), Ended(l, o);
    forall i | 0 <= i < |r2.failures| ensures FailedWell(r2.failures[i], l2) {
      if i < |r.failures| {
        assert r2.failures[i] == r.failures[i] && FailedWell(r.failures[i], l);
        FailedStays(l, o, r.failures[i]);
      } else {
        FailedNewly(l, o, r2.failures[i]);
      }
    }
  }

  lemma FailedStays(l: Live, o: Outcome, f: Failure)
    requires FailedWell(f, l) && MayEnd(l, o)
    ensures FailedWell(f, Ended(l, o))
  {
    EndsStay(l, o, f.c.id, DecisionOf(f));
  }

  lemma FailedNewly(l: Live, o: Outcome, f: Failure)
    requires MayEnd(l, o) && (o.decision.Retry? || o.decision.GiveUp?)
    requires f == FailureOf(o.c, o.decision.failure, o.decision.detail, o.decision.Retry?)
    ensures FailedWell(f, Ended(l, o))
  {
    assert Ends(Ended(l, o), o.c.id, o.decision);
  }

  lemma ReportsName(r: Result, l: Live, o: Outcome)
    requires NamesWell(r, l) && MayEnd(l, o)
    ensures NamesWell(Reported(r, o), Ended(l, o))
  {
    FailuresName(r, l, o);
    hide FailedWell;
    var r2, l2 := Reported(r, o), Ended(l, o);
    assert Ends(l2, o.c.id, o.decision);
    forall i | 0 <= i < |r2.delivered|
      ensures var c := r2.delivered[i]; c.id in l2.claimed && l2.claimed[c.id] == c && Ends(l2, c.id, Deliver)
    {
      if i < |r.delivered| { EndsStay(l, o, r.delivered[i].id, Deliver); }
    }
  }

  lemma ReportsStep(r: Result, l: Live, o: Outcome)
    requires Reports(r, l) && SecondsOK(l) && MayEnd(l, o)
    ensures Reports(Reported(r, o), Ended(l, o))
  {
    DistinctStep(r, l, o);
    ReportsCover(r, l, o);
    ReportsName(r, l, o);
    hide ReportedAs, DistinctReports, NamesWell, Reported, Ended, MayEnd;
  }

  lemma TallyStep(t: Tally, l: Live, o: Outcome)
    requires TallyOK(t, l) && SecondsOK(l) && MayEnd(l, o)
    ensures TallyOK(Tallied(t, o), Ended(l, o)) && SecondsOK(Ended(l, o))
  {
    RecordsStep(t.actions, l, o);
    ReportsStep(t.result, l, o);
  }

  predicate Dead(d: Decision) { (d.Retry? || d.GiveUp?) && d.failure == Connection }

  /** Outcomes ready to be recorded: of different rows, each backed by what the pass did. */
  predicate Recordable(s: Sys, outcomes: seq<Outcome>) {
    && s.pass.Running?
    && (forall k | 0 <= k < |outcomes| ::
          && MayEnd(s.pass.live, outcomes[k])
          && (outcomes[k].decision.Revert? || MayConclude(s.pass.live, outcomes[k])))
    && (forall i, k | 0 <= i < k < |outcomes| :: outcomes[i].c.id != outcomes[k].c.id)
  }

  predicate Concluded(outcomes: seq<Outcome>, n: int, id: int)
    requires 0 <= n <= |outcomes|
  {
    exists k | 0 <= k < n :: outcomes[k].c.id == id
  }

  /** What b has about row id that a had, and what the first n outcomes added. */
  ghost predicate DecidesAt(a: Live, b: Live, outcomes: seq<Outcome>, n: int, id: int)
    requires 0 <= n <= |outcomes|
  {
    && (id in b.decided <==> id in a.decided || Concluded(outcomes, n, id))
    && (id in b.again <==> id in a.again || (Concluded(outcomes, n, id) && id in a.decided))
    && (id in a.decided ==> b.decided[id] == a.decided[id])
    && (id in a.again && !Concluded(outcomes, n, id) ==> b.again[id] == a.again[id])
  }

  /** The decisions of b are those of a and those of the first n outcomes. */
  ghost predicate Decides(a: Live, b: Live, outcomes: seq<Outcome>, n: int)
    requires 0 <= n <= |outcomes|
  {
    && b == a.(decided := b.decided, again := b.again)
    && (forall id :: DecidesAt(a, b, outcomes, n, id))
    && (forall k | 0 <= k < n :: TakenIn(a, b, outcomes[k]))
  }

  /** b has outcome o: as a second decision if a had one of its row. */
  predicate TakenIn(a: Live, b: Live, o: Outcome) {
    if o.c.id in a.decided then o.c.id in b.again && b.again[o.c.id] == o.decision
    else o.c.id in b.decided && b.decided[o.c.id] == o.decision
  }

  lemma DecidesNone(a: Live, outcomes: seq<Outcome>)
    ensures Decides(a, a, outcomes, 0)
  {
    forall id ensures DecidesAt(a, a, outcomes, 0, id) {}
  }

  lemma ConcludedGrows(outcomes: seq<Outcome>, n: int, id: int)
    requires 0 <= n < |outcomes|
    ensures Concluded(outcomes, n + 1, id) <==> Concluded(outcomes, n, id) || id == outcomes[n].c.id
  {
    if Concluded(outcomes, n, id) {
      var k :| 0 <= k < n && outcomes[k].c.id == id;
      assert 0 <= k < n + 1 && outcomes[k].c.id == id;
    }
  }

  lemma NotYetConcluded(outcomes: seq<Outcome>, n: int)
    requires 0 <= n < |outcomes| && forall i, k | 0 <= i < k < |outcomes| :: outcomes[i].c.id != outcomes[k].c.id
    ensures !Concluded(outcomes, n, outcomes[n].c.id)
  {
  }

  lemma DecidesAtStep(a: Live, b: Live, outcomes: seq<Outcome>, n: int, id: int)
    requires 0 <= n < |outcomes| && DecidesAt(a, b, outcomes, n, id) && DecidesAt(a, b, outcomes, n, outcomes[n].c.id)
    requires !Concluded(outcomes, n, outcomes[n].c.id)
    ensures DecidesAt(a, Ended(b, outcomes[n]), outcomes, n + 1, id)
  {
    ConcludedGrows(outcomes, n, id);
  }

  lemma DecidesStep(a: Live, b: Live, outcomes: seq<Outcome>, n: int)
    requires 0 <= n < |outcomes| && Decides(a, b, outcomes, n)
    requires forall i, k | 0 <= i < k < |outcomes| :: outcomes[i].c.id != outcomes[k].c.id
    ensures Decides(a, Ended(b, outcomes[n]), outcomes, n + 1)
    ensures outcomes[n].c.id in b.decided <==> outcomes[n].c.id in a.decided
    ensures outcomes[n].c.id in b.again ==> outcomes[n].c.id in a.again
  {
    var o := outcomes[n];
    var c, next := Ended(b, o), n + 1;
    hide Concluded, TakenIn, DecidesAt;
    NotYetConcluded(outcomes, n);
    assert DecidesAt(a, b, outcomes, n, o.c.id);
    NewlyTaken(a, b, outcomes, n);
    forall id: int ensures DecidesAt(a, c, outcomes, next, id) { DecidesAtStep(a, b, outcomes, n, id); }
    forall k | 0 <= k < next ensures TakenIn(a, c, outcomes[k]) {
      if k < n { StillTaken(a, b, outcomes[k], o); }
    }
  }

  lemma NewlyTaken(a: Live, b: Live, outcomes: seq<Outcome>, n: int)
    requires 0 <= n < |outcomes| && DecidesAt(a, b, outcomes, n, outcomes[n].c.id)
    requires !Concluded(outcomes, n, outcomes[n].c.id)
    ensures TakenIn(a, Ended(b, outcomes[n]), outcomes[n])
    ensures outcomes[n].c.id in b.decided <==> outcomes[n].c.id in a.decided
    ensures outcomes[n].c.id in b.again ==> outcomes[n].c.id in a.again
  {
  }

  lemma StillTaken(a: Live, b: Live, o: Outcome, next: Outcome)
    requires TakenIn(a, b, o) && o.c.id != next.c.id
    ensures TakenIn(a, Ended(b, next), o)
  {
  }

  /** The next outcome may be recorded, and recording it keeps the tally. */
  lemma ConcludeStep(s0: Sys, s: Sys, outcomes: seq<Outcome>, n: int, t: Tally)
    requires Recordable(s0, outcomes) && s.pass.Running? && 0 <= n < |outcomes|
    requires Decides(s0.pass.live, s.pass.live, outcomes, n) && TallyOK(t, s.pass.live) && SecondsOK(s.pass.live)
    ensures Enabled(s, Conclusion(s.pass.live, outcomes[n].c.id, outcomes[n].decision))
    ensures var e := Conclusion(s.pass.live, outcomes[n].c.id, outcomes[n].decision);
            && After(s, e).pass.Running? && Decides(s0.pass.live, After(s, e).pass.live, outcomes, n + 1)
            && TallyOK(Tallied(t, outcomes[n]), After(s, e).pass.live) && SecondsOK(After(s, e).pass.live)
  {
    var o := outcomes[n];
    hide TallyOK, SecondsOK;
    NextMayEnd(s0, s, outcomes, n);
    hide Recordable, MayConclude;
    DecidesStep(s0.pass.live, s.pass.live, outcomes, n);
    TallyStep(t, s.pass.live, o);
    hide Decides, MayEnd;
    ConclusionEnds(s, o);
  }

  lemma NextMayEnd(s0: Sys, s: Sys, outcomes: seq<Outcome>, n: int)
    requires Recordable(s0, outcomes) && s.pass.Running? && 0 <= n < |outcomes|
    requires Decides(s0.pass.live, s.pass.live, outcomes, n)
    ensures MayEnd(s.pass.live, outcomes[n])
    ensures outcomes[n].decision.Deliver? ==> MayDeliver(s.pass.live, outcomes[n].c)
  {
    var o := outcomes[n];
    NotYetConcluded(outcomes, n);
    assert DecidesAt(s0.pass.live, s.pass.live, outcomes, n, o.c.id);
    assert MayEnd(s0.pass.live, o);
  }

  lemma ConclusionEnds(s: Sys, o: Outcome)
    requires s.pass.Running? && MayEnd(s.pass.live, o) && (o.decision.Deliver? ==> MayDeliver(s.pass.live, o.c))
    ensures var e := Conclusion(s.pass.live, o.c.id, o.decision);
            Enabled(s, e) && After(s, e).pass.Running? && After(s, e).pass.live == Ended(s.pass.live, o)
  {
  }

  // ---------------------------------------------------------------- the turns of a pass

  predicate InGroup(groups: map<int, seq<Claimed>>, create: int, id: int) {
    exists k | 0 <= k < |GroupOf(groups, create)| :: GroupOf(groups, create)[k].id == id
  }

  /** Row id was one of the first n, or rode in the batch of one of them. */
  predicate Turn(rows: seq<Claimed>, groups: map<int, seq<Claimed>>, n: int, id: int)
    requires 0 <= n <= |rows|
  {
    exists j | 0 <= j < n :: rows[j].id == id || InGroup(groups, rows[j].id, id)
  }

  /** rows is the claim of the pass, in id order. */
  predicate Claims(l: Live, rows: seq<Claimed>) {
    && Sorted(rows)
    && (forall m | 0 <= m < |rows| :: rows[m].id in l.claimed && l.claimed[rows[m].id] == rows[m])
    && (forall id | id in l.claimed :: exists m | 0 <= m < |rows| :: rows[m].id == id)
  }

  predicate HadTurn(rows: seq<Claimed>, n: int, id: int)
    requires 0 <= n <= |rows|
  {
    exists j | 0 <= j < n :: rows[j].id == id
  }

  /** Where row id stands after n turns of which the first `cut` dispatched: everything that had its
      turn is decided, and what is put back untouched is exactly what no dispatch reached. */
  predicate DecidedAt(decided: map<int, Decision>, rows: seq<Claimed>, groups: map<int, seq<Claimed>>, n: int,
      cut: int, id: int)
    requires 0 <= cut <= n <= |rows|
  {
    && (Turn(rows, groups, cut, id) || HadTurn(rows, n, id) ==> id in decided)
    && (id in decided ==> Turn(rows, groups, n, id) && (decided[id].Revert? <==> !Turn(rows, groups, cut, id)))
  }

  predicate KnownAt(l: Live, rows: seq<Claimed>, n: int, id: int)
    requires 0 <= n <= |rows|
  {
    id in l.learned || id in l.walks || id in l.resolved ==> HadTurn(rows, n, id)
  }

  /** Row id came before one of the first n rows, and rode in its batch nevertheless. */
  predicate RodeLate(rows: seq<Claimed>, groups: map<int, seq<Claimed>>, n: int, id: int)
    requires 0 <= n <= |rows|
  {
    exists j | 0 <= j < n :: id < rows[j].id && InGroup(groups, rows[j].id, id)
  }

  ghost predicate Turned(l: Live, rows: seq<Claimed>, groups: map<int, seq<Claimed>>, n: int, cut: int)
    requires 0 <= cut <= n <= |rows|
  {
    forall id ::
      && DecidedAt(l.decided, rows, groups, n, cut, id) && KnownAt(l, rows, n, id)
      && (id in l.again <==> RodeLate(rows, groups, cut, id))
  }

  /** Of the moves that name a later row, each one decided was given up or put back. */
  predicate EarlyGivenUp(l: Live) {
    forall id | id in l.decided && id in l.claimed && Early(l.claimed[id]) ::
      l.decided[id].GiveUp? || l.decided[id].Revert?
  }

  /** c is a move whose reference names a later row. */
  predicate Early(c: Claimed) { c.payload.MoveMessages? && !c.preFailed && c.payload.destRef > c.id }

  lemma ClaimOf(s: Sys, rows: seq<Claimed>, ids: seq<int>)
    requires ids != [] && ClaimedSeq(s, rows, ids)
    ensures Claims(s.pass.live, rows)
  {
    var l := s.pass.live;
    forall id | id in l.claimed ensures exists m | 0 <= m < |rows| :: rows[m].id == id {
      var m :| 0 <= m < |ids| && ids[m] == id;
      assert rows[m].id == id;
    }
  }

  lemma SameRow(rows: seq<Claimed>, a: int, b: int)
    requires Sorted(rows) && 0 <= a < |rows| && 0 <= b < |rows| && rows[a].id == rows[b].id
    ensures a == b
  {
  }

  lemma FreshOf(rows: seq<Claimed>, groups: map<int, seq<Claimed>>, limit: int, id: int)
    requires Planned(rows, |rows|, groups, limit) && id in groups
    ensures HasFresh(rows, id)
  {
    assert GroupOK(rows, |rows|, id, groups[id], limit);
  }

  /** A row in the batch of row j waits for row j. */
  lemma GroupWaitsFor(rows: seq<Claimed>, groups: map<int, seq<Claimed>>, limit: int, j: int, m: int)
    requires Sorted(rows) && Planned(rows, |rows|, groups, limit) && 0 <= j < |rows| && 0 <= m < |rows|
    requires InGroup(groups, rows[j].id, rows[m].id)
    ensures WaitsFor(rows[m], rows[j].id)
  {
    var g := GroupOf(groups, rows[j].id);
    assert GroupOK(rows, |rows|, rows[j].id, g, limit);
    hide Planned, GroupOK;
    var k :| 0 <= k < |g| && g[k].id == rows[m].id;
    var q := Rider(rows, rows[j].id, g, limit, k);
    SameRow(rows, q, m);
  }

  lemma HeadIsFresh(rows: seq<Claimed>, groups: map<int, seq<Claimed>>, limit: int, i: int)
    requires Sorted(rows) && Planned(rows, |rows|, groups, limit) && 0 <= i < |rows| && rows[i].id in groups
    ensures FreshCreate(rows[i])
  {
    hide Planned;
    FreshOf(rows, groups, limit, rows[i].id);
    var q :| 0 <= q < |rows| && rows[q].id == rows[i].id && FreshCreate(rows[q]);
    SameRow(rows, q, i);
  }

  lemma Rider(rows: seq<Claimed>, id: int, g: seq<Claimed>, limit: int, k: int) returns (m: int)
    requires GroupOK(rows, |rows|, id, g, limit) && 0 <= k < |g|
    ensures 0 <= m < |rows| && rows[m] == g[k] && WaitsFor(rows[m], id)
  {
    assert WaitsFor(g[k], id) && Among(rows, |rows|, g[k]);
    m :| 0 <= m < |rows| && rows[m] == g[k];
  }

  /** A row that had its turn among the first n although it comes later rode in the batch of one. */
  lemma RodeWith(rows: seq<Claimed>, groups: map<int, seq<Claimed>>, limit: int, n: int, m: int) returns (j: int)
    requires Sorted(rows) && Planned(rows, |rows|, groups, limit) && 0 <= n <= m < |rows|
    requires Turn(rows, groups, n, rows[m].id)
    ensures 0 <= j < n && WaitsFor(rows[m], rows[j].id)
  {
    hide Planned, InGroup;
    j :| 0 <= j < n && (rows[j].id == rows[m].id || InGroup(groups, rows[j].id, rows[m].id));
    GroupWaitsFor(rows, groups, limit, j, m);
  }

  /** A row decided before its own turn rode in an earlier batch, and heads no batch itself. */
  lemma RiderHeadsNone(rows: seq<Claimed>, groups: map<int, seq<Claimed>>, limit: int, i: int)
    requires Sorted(rows) && Planned(rows, |rows|, groups, limit) && 0 <= i < |rows|
    requires Turn(rows, groups, i, rows[i].id)
    ensures GroupOf(groups, rows[i].id) == []
  {
    var j := RodeWith(rows, groups, limit, i, i);
    if rows[i].id in groups {
      HeadIsFresh(rows, groups, limit, i);
    }
  }

  lemma CarriedByIts(rows: seq<Claimed>, groups: map<int, seq<Claimed>>, i: int, j: int)
    requires 0 <= j < i < |rows| && rows[i] in GroupOf(groups, rows[j].id)
    ensures Turn(rows, groups, i, rows[i].id)
  {
    var g := GroupOf(groups, rows[j].id);
    var k :| 0 <= k < |g| && g[k] == rows[i];
    assert InGroup(groups, rows[j].id, rows[i].id);
  }

  lemma WaitsForNoLater(rows: seq<Claimed>, groups: map<int, seq<Claimed>>, limit: int, i: int, j: int)
    requires Sorted(rows) && Planned(rows, |rows|, groups, limit) && 0 <= i <= j < |rows|
    requires WaitsFor(rows[i], rows[j].id)
    ensures !Turn(rows, groups, i, rows[i].id)
  {
    if Turn(rows, groups, i, rows[i].id) {
      var q := RodeWith(rows, groups, limit, i, i);
      SameRow(rows, q, j);
    }
  }

  /** A move in the batch of create id is passed over at its own turn exactly when it comes after that
      create. One that comes before it, as only a captured reference can, is dispatched alone at its own
      turn, and again in the batch. */
  lemma RiderIsTakenOnceIff(rows: seq<Claimed>, groups: map<int, seq<Claimed>>, limit: int, i: int, id: int)
    requires Sorted(rows) && Planned(rows, |rows|, groups, limit) && 0 <= i < |rows|
    requires WaitsFor(rows[i], id) && rows[i] in GroupOf(groups, id)
    ensures Turn(rows, groups, i, rows[i].id) <==> id < rows[i].id
    ensures id != rows[i].id
  {
    hide Planned, Turn;
    FreshOf(rows, groups, limit, id);
    var j :| 0 <= j < |rows| && rows[j].id == id && FreshCreate(rows[j]);
    if j < i { CarriedByIts(rows, groups, i, j); } else { WaitsForNoLater(rows, groups, limit, i, j); }
  }

  /** At its turn an undecided create may carry every move of its batch: those that come later have no
      decision yet, and those that came before were given up and have not been carried again. */
  lemma GroupIsOpen(s: Sys, rows: seq<Claimed>, groups: map<int, seq<Claimed>>, limit: int, i: int)
    requires Reachable(s) && s.pass.Running? && Claims(s.pass.live, rows) && Planned(rows, |rows|, groups, limit)
    requires 0 <= i < |rows| && rows[i].id in groups && Turned(s.pass.live, rows, groups, i, i)
    requires EarlyGivenUp(s.pass.live)
    ensures FreshCreate(rows[i]) && InBatch(s, rows[i].id, groups[rows[i].id])
    ensures forall k | 0 <= k < |groups[rows[i].id]| :: CarriedRow(s.pass.live, rows[i], groups[rows[i].id][k])
  {
    HeadIsFresh(rows, groups, limit, i);
    var g := groups[rows[i].id];
    forall k | 0 <= k < |g| ensures RidesWith(s, rows[i].id, g[k]) && CarriedRow(s.pass.live, rows[i], g[k]) {
      var m := Rider(rows, rows[i].id, g, limit, k);
      ClaimFacts(s, rows[m]);
      RiderIsOpen(s.pass.live, rows, groups, limit, i, m);
    }
  }

  /** A move c rides with create: undecided exactly when it comes later, and otherwise given up. */
  predicate CarriedRow(l: Live, create: Claimed, c: Claimed) {
    && c.id != create.id && c.id in l.claimed && l.claimed[c.id] == c
    && (c.id in l.decided <==> c.id < create.id) && (c.id in l.decided ==> MayReturn(l, c.id))
  }

  lemma RiderIsOpen(l: Live, rows: seq<Claimed>, groups: map<int, seq<Claimed>>, limit: int, i: int, m: int)
    requires Claims(l, rows) && Planned(rows, |rows|, groups, limit) && EarlyGivenUp(l)
    requires 0 <= i < |rows| && 0 <= m < |rows| && Turned(l, rows, groups, i, i)
    requires FreshCreate(rows[i]) && WaitsFor(rows[m], rows[i].id)
    ensures CarriedRow(l, rows[i], rows[m])
  {
    var id: int := rows[m].id;
    assert DecidedAt(l.decided, rows, groups, i, i, id);
    if id == rows[i].id { SameRow(rows, m, i); }
    if id > rows[i].id { WaitsLater(rows, groups, limit, i, m); }
    if id < rows[i].id {
      assert m < i;
      assert HadTurn(rows, i, id);
      NotYetCarried(rows, groups, limit, i, m);
    }
  }

  lemma NotYetCarried(rows: seq<Claimed>, groups: map<int, seq<Claimed>>, limit: int, i: int, m: int)
    requires Sorted(rows) && Planned(rows, |rows|, groups, limit) && 0 <= i < |rows| && 0 <= m < |rows|
    requires WaitsFor(rows[m], rows[i].id)
    ensures !RodeLate(rows, groups, i, rows[m].id)
  {
    if RodeLate(rows, groups, i, rows[m].id) {
      hide Planned, InGroup;
      var j :| 0 <= j < i && rows[m].id < rows[j].id && InGroup(groups, rows[j].id, rows[m].id);
      GroupWaitsFor(rows, groups, limit, j, m);
      SameRow(rows, i, j);
    }
  }

  lemma WaitsLater(rows: seq<Claimed>, groups: map<int, seq<Claimed>>, limit: int, i: int, m: int)
    requires Sorted(rows) && Planned(rows, |rows|, groups, limit) && 0 <= i < |rows| && 0 <= m < |rows|
    requires WaitsFor(rows[m], rows[i].id) && rows[i].id < rows[m].id
    ensures !Turn(rows, groups, i, rows[m].id)
  {
    assert i < m;
    if Turn(rows, groups, i, rows[m].id) {
      var j := RodeWith(rows, groups, limit, i, m);
      SameRow(rows, i, j);
    }
  }

  lemma TurnGrows(rows: seq<Claimed>, groups: map<int, seq<Claimed>>, n: int, id: int)
    requires 0 <= n < |rows|
    ensures Turn(rows, groups, n + 1, id)
        <==> Turn(rows, groups, n, id) || rows[n].id == id || InGroup(groups, rows[n].id, id)
  {
    if Turn(rows, groups, n, id) {
      var j :| 0 <= j < n && (rows[j].id == id || InGroup(groups, rows[j].id, id));
      assert 0 <= j < n + 1 && (rows[j].id == id || InGroup(groups, rows[j].id, id));
    }
  }

  lemma RodeLateGrows(rows: seq<Claimed>, groups: map<int, seq<Claimed>>, n: int, id: int)
    requires 0 <= n < |rows|
    ensures RodeLate(rows, groups, n + 1, id) <==>
              RodeLate(rows, groups, n, id) || (id < rows[n].id && InGroup(groups, rows[n].id, id))
  {
    if RodeLate(rows, groups, n, id) {
      var j :| 0 <= j < n && id < rows[j].id && InGroup(groups, rows[j].id, id);
      assert 0 <= j < n + 1 && id < rows[j].id && InGroup(groups, rows[j].id, id);
    }
  }

  lemma HadTurnGrows(rows: seq<Claimed>, n: int, id: int)
    requires 0 <= n < |rows|
    ensures HadTurn(rows, n + 1, id) <==> HadTurn(rows, n, id) || id == rows[n].id
  {
  }

  lemma SkippedAt(decided: map<int, Decision>, rows: seq<Claimed>, groups: map<int, seq<Claimed>>, i: int, cut: int,
      cut2: int, id: int)
    requires 0 <= cut <= i < |rows| && (cut2 == cut || (cut == i && cut2 == i + 1))
    requires rows[i].id in decided && GroupOf(groups, rows[i].id) == []
    requires DecidedAt(decided, rows, groups, i, cut, id) && DecidedAt(decided, rows, groups, i, cut, rows[i].id)
    ensures DecidedAt(decided, rows, groups, i + 1, cut2, id)
  {
    TurnGrows(rows, groups, i, id);
    HadTurnGrows(rows, i, id);
  }

  /** A turn passed over: the row was decided in its create's batch. */
  lemma TurnSkipped(l: Live, rows: seq<Claimed>, groups: map<int, seq<Claimed>>, i: int, cut: int, cut2: int)
    requires 0 <= cut <= i < |rows| && GroupOf(groups, rows[i].id) == []
    requires Turned(l, rows, groups, i, cut) && rows[i].id in l.decided && (cut2 == cut || (cut == i && cut2 == i + 1))
    ensures Turned(l, rows, groups, i + 1, cut2)
  {
    assert DecidedAt(l.decided, rows, groups, i, cut, rows[i].id);
    var n := i + 1;
    forall id: int
      ensures DecidedAt(l.decided, rows, groups, n, cut2, id) && KnownAt(l, rows, n, id)
      ensures id in l.again <==> RodeLate(rows, groups, cut2, id)
    {
      assert DecidedAt(l.decided, rows, groups, i, cut, id) && KnownAt(l, rows, i, id);
      SkippedAt(l.decided, rows, groups, i, cut, cut2, id);
      HadTurnGrows(rows, i, id);
      RodeLateGrows(rows, groups, i, id);
    }
  }

  /** A turn after the stop: the row goes back untouched. */
  lemma TurnReverted(a: Live, b: Live, rows: seq<Claimed>, groups: map<int, seq<Claimed>>, i: int, cut: int)
    requires Claims(a, rows) && 0 <= cut <= i < |rows| && Turned(a, rows, groups, i, cut) && rows[i].id !in a.decided
    requires Decides(a, b, [Outcome(rows[i], Revert)], 1)
    ensures Turned(b, rows, groups, i + 1, cut)
  {
    hide DecidedAt, KnownAt, RodeLate, Claims, Decides;
    var n := i + 1;
    forall id: int
      ensures DecidedAt(b.decided, rows, groups, n, cut, id) && KnownAt(b, rows, n, id)
      ensures id in b.again <==> RodeLate(rows, groups, cut, id)
    {
      assert DecidedAt(a.decided, rows, groups, i, cut, rows[i].id) && KnownAt(a, rows, i, id);
      RevertedRow(a, b, rows, groups, i, cut, id);
    }
  }

  lemma RevertedRow(a: Live, b: Live, rows: seq<Claimed>, groups: map<int, seq<Claimed>>, i: int, cut: int, id: int)
    requires Claims(a, rows) && 0 <= cut <= i < |rows| && rows[i].id !in a.decided
    requires DecidedAt(a.decided, rows, groups, i, cut, rows[i].id)
    requires DecidedAt(a.decided, rows, groups, i, cut, id) && KnownAt(a, rows, i, id)
    requires Decides(a, b, [Outcome(rows[i], Revert)], 1)
    ensures DecidedAt(b.decided, rows, groups, i + 1, cut, id) && KnownAt(b, rows, i + 1, id)
    ensures id in b.again <==> id in a.again
  {
    hide Turn, HadTurn;
    RevertedAt(a, b, rows[i], id);
    TurnGrows(rows, groups, i, id);
    HadTurnGrows(rows, i, id);
  }

  lemma RevertedAt(a: Live, b: Live, c: Claimed, id: int)
    requires c.id !in a.decided && Decides(a, b, [Outcome(c, Revert)], 1)
    ensures id in b.decided <==> id in a.decided || id == c.id
    ensures id in a.decided ==> b.decided[id] == a.decided[id]
    ensures c.id in b.decided && b.decided[c.id] == Revert
    ensures id in b.again <==> id in a.again
    ensures id in a.again && id != c.id ==> b.again[id] == a.again[id]
  {
    var outcomes := [Outcome(c, Revert)];
    assert outcomes[0].c.id == c.id;
    assert DecidesAt(a, b, outcomes, 1, id);
  }

  lemma ConcludedGroup(rows: seq<Claimed>, groups: map<int, seq<Claimed>>, i: int, outcomes: seq<Outcome>, id: int)
    requires 0 <= i < |rows| && OneEach(rows[i], GroupOf(groups, rows[i].id), outcomes)
    ensures Concluded(outcomes, |outcomes|, id) <==> id == rows[i].id || InGroup(groups, rows[i].id, id)
  {
    var g := GroupOf(groups, rows[i].id);
    if id == rows[i].id { assert outcomes[0].c.id == id; }
    if InGroup(groups, rows[i].id, id) {
      var k :| 0 <= k < |g| && g[k].id == id;
      assert outcomes[k + 1].c.id == id;
    }
    if Concluded(outcomes, |outcomes|, id) && id != rows[i].id {
      var k :| 0 <= k < |outcomes| && outcomes[k].c.id == id;
      assert g[k - 1].id == id;
    }
  }

  lemma ConcludedDecision(m: Live, b: Live, outcomes: seq<Outcome>, id: int)
    requires Decides(m, b, outcomes, |outcomes|) && forall k | 0 <= k < |outcomes| :: !outcomes[k].decision.Revert?
    ensures id in b.decided <==> id in m.decided || Concluded(outcomes, |outcomes|, id)
    ensures id in m.decided ==> b.decided[id] == m.decided[id]
    ensures Concluded(outcomes, |outcomes|, id) && id !in m.decided ==> !b.decided[id].Revert?
    ensures id in b.again <==> id in m.again || (Concluded(outcomes, |outcomes|, id) && id in m.decided)
  {
    assert DecidesAt(m, b, outcomes, |outcomes|, id);
    if Concluded(outcomes, |outcomes|, id) && id !in m.decided {
      var k :| 0 <= k < |outcomes| && outcomes[k].c.id == id;
      assert b.decided[outcomes[k].c.id] == outcomes[k].decision;
    }
  }

  /** Every row of a turn's batch but its head is decided before it exactly when it came before. */
  predicate BatchSplits(a: Live, create: Claimed, g: seq<Claimed>) {
    && create.id !in a.decided
    && forall k | 0 <= k < |g| :: g[k].id != create.id && (g[k].id in a.decided <==> g[k].id < create.id)
  }

  lemma InGroupSplits(a: Live, rows: seq<Claimed>, groups: map<int, seq<Claimed>>, i: int, id: int)
    requires 0 <= i < |rows| && BatchSplits(a, rows[i], GroupOf(groups, rows[i].id)) && InGroup(groups, rows[i].id, id)
    ensures id != rows[i].id && (id in a.decided <==> id < rows[i].id)
  {
  }

  lemma DispatchedAt(a: Live, m: Live, b: Live, rows: seq<Claimed>, groups: map<int, seq<Claimed>>, i: int,
      outcomes: seq<Outcome>, id: int)
    requires 0 <= i < |rows| && Turned(a, rows, groups, i, i) && Carries(a, m, rows[i].id)
    requires OneEach(rows[i], GroupOf(groups, rows[i].id), outcomes)
    requires forall k | 0 <= k < |outcomes| :: !outcomes[k].decision.Revert?
    requires Decides(m, b, outcomes, |outcomes|) && BatchSplits(a, rows[i], GroupOf(groups, rows[i].id))
    ensures DecidedAt(b.decided, rows, groups, i + 1, i + 1, id) && KnownAt(b, rows, i + 1, id)
    ensures id in b.again <==> RodeLate(rows, groups, i + 1, id)
  {
    assert DecidedAt(a.decided, rows, groups, i, i, id) && KnownAt(a, rows, i, id);
    assert id in a.again <==> RodeLate(rows, groups, i, id);
    ConcludedDecision(m, b, outcomes, id);
    ConcludedGroup(rows, groups, i, outcomes, id);
    TurnGrows(rows, groups, i, id);
    HadTurnGrows(rows, i, id);
    RodeLateGrows(rows, groups, i, id);
    if InGroup(groups, rows[i].id, id) { InGroupSplits(a, rows, groups, i, id); }
  }

  /** A turn that dispatched: the row, and whatever rode in its batch, is decided for good. */
  lemma TurnDispatched(a: Live, m: Live, b: Live, rows: seq<Claimed>, groups: map<int, seq<Claimed>>, i: int,
      outcomes: seq<Outcome>)
    requires 0 <= i < |rows| && Turned(a, rows, groups, i, i)
    requires OneEach(rows[i], GroupOf(groups, rows[i].id), outcomes)
    requires forall k | 0 <= k < |outcomes| :: !outcomes[k].decision.Revert?
    requires Carries(a, m, rows[i].id) && Decides(m, b, outcomes, |outcomes|)
    requires BatchSplits(a, rows[i], GroupOf(groups, rows[i].id))
    ensures Turned(b, rows, groups, i + 1, i + 1)
  {
    var n := i + 1;
    forall id: int
      ensures DecidedAt(b.decided, rows, groups, n, n, id) && KnownAt(b, rows, n, id)
      ensures id in b.again <==> RodeLate(rows, groups, n, id)
    {
      DispatchedAt(a, m, b, rows, groups, i, outcomes, id);
    }
  }

  /** What a dispatched turn hands over can be recorded. */
  lemma TurnRecordable(a: Live, s: Sys, c: Claimed, g: seq<Claimed>, outcomes: seq<Outcome>)
    requires s.pass.Running? && Carries(a, s.pass.live, c.id) && OneEach(c, g, outcomes)
    requires AllConclude(s.pass.live, outcomes)
    requires c.id in a.claimed && a.claimed[c.id] == c && c.id !in a.decided && Sorted(g)
    requires forall k | 0 <= k < |g| :: CarriedRow(a, c, g[k])
    ensures Recordable(s, outcomes)
    ensures forall k | 0 <= k < |outcomes| :: !outcomes[k].decision.Revert? && MayEnd(s.pass.live, outcomes[k])
  {
    forall k | 0 <= k < |outcomes| ensures MayEnd(s.pass.live, outcomes[k]) && MayConclude(s.pass.live, outcomes[k]) {
      if k > 0 { assert outcomes[k].c == g[k - 1] && CarriedRow(a, c, g[k - 1]); }
    }
    forall i, k | 0 <= i < k < |outcomes| ensures outcomes[i].c.id != outcomes[k].c.id {
      assert outcomes[k].c == g[k - 1] && CarriedRow(a, c, g[k - 1]);
      if i > 0 { assert outcomes[i].c == g[i - 1]; }
    }
  }

  /** Every decision of the pass is one its dispatch may make, or the revert of a row never reached. */
  predicate AllSound(l: Live) {
    && (forall id | id in l.decided && id in l.claimed :: l.decided[id].Revert? || Sound(l.claimed[id], l.decided[id]))
    && (forall id | id in l.again && id in l.claimed :: Sound(l.claimed[id], l.again[id]))
  }

  /** Row id's dispatch, or its second one, found the connection dead. */
  predicate Died(l: Live, id: int) { (id in l.decided && Dead(l.decided[id])) || (id in l.again && Dead(l.again[id])) }

  ghost predicate AnyDead(l: Live) { exists id :: Died(l, id) }

  /** Row id was dispatched in turn `cut - 1`. */
  predicate InTurn(rows: seq<Claimed>, groups: map<int, seq<Claimed>>, cut: int, id: int)
    requires 0 <= cut <= |rows|
  {
    cut >= 1 && (rows[cut - 1].id == id || InGroup(groups, rows[cut - 1].id, id))
  }

  /** Only the last turn that dispatched may have found the connection dead. */
  ghost predicate DiesLast(l: Live, rows: seq<Claimed>, groups: map<int, seq<Claimed>>, cut: int)
    requires 0 <= cut <= |rows|
  {
    forall id | Died(l, id) :: InTurn(rows, groups, cut, id)
  }

  /** A pass after n turns, the first `cut` of which dispatched. */
  ghost predicate MidPass(l: Live, rows: seq<Claimed>, groups: map<int, seq<Claimed>>, t: Tally, n: int, cut: int)
    requires 0 <= cut <= n <= |rows|
  {
    && Claims(l, rows) && TallyOK(t, l) && SecondsOK(l)
    && Turned(l, rows, groups, n, cut) && AllSound(l) && EarlyGivenUp(l)
    && DiesLast(l, rows, groups, cut) && (cut == n || AnyDead(l))
  }

  /** The outcome that is row x's latest decision, when the outcomes brought one. */
  lemma ConcludedAs(m: Live, b: Live, outcomes: seq<Outcome>, x: int) returns (k: int)
    requires Decides(m, b, outcomes, |outcomes|) && Concluded(outcomes, |outcomes|, x)
    ensures 0 <= k < |outcomes| && outcomes[k].c.id == x
    ensures if x in m.decided then x in b.again && b.again[x] == outcomes[k].decision
            else x in b.decided && b.decided[x] == outcomes[k].decision
  {
    k :| 0 <= k < |outcomes| && outcomes[k].c.id == x;
    assert outcomes[k].c.id in m.decided ==> outcomes[k].c.id in b.again;
  }

  lemma SoundAfter(a: Live, m: Live, b: Live, id: int, outcomes: seq<Outcome>)
    requires AllSound(a) && SecondsOK(a) && Carries(a, m, id) && Decides(m, b, outcomes, |outcomes|)
    requires forall k | 0 <= k < |outcomes| ::
               && MayEnd(m, outcomes[k])
               && (outcomes[k].decision.Revert? || Sound(outcomes[k].c, outcomes[k].decision))
    ensures AllSound(b)
  {
    forall x: int
      ensures x in b.decided && x in b.claimed ==> b.decided[x].Revert? || Sound(b.claimed[x], b.decided[x])
      ensures x in b.again && x in b.claimed ==> Sound(b.claimed[x], b.again[x])
    {
      assert DecidesAt(m, b, outcomes, |outcomes|, x);
      if Concluded(outcomes, |outcomes|, x) {
        var k := ConcludedAs(m, b, outcomes, x);
        assert MayEnd(m, outcomes[k]);
      }
    }
  }

  lemma SecondsAfter(a: Live, m: Live, b: Live, id: int, outcomes: seq<Outcome>)
    requires SecondsOK(a) && Carries(a, m, id) && Decides(m, b, outcomes, |outcomes|)
    requires forall k | 0 <= k < |outcomes| :: MayEnd(m, outcomes[k])
    ensures SecondsOK(b)
  {
    forall x | x in b.again ensures x in b.decided && b.decided[x].GiveUp? && !b.again[x].Revert? {
      assert DecidesAt(m, b, outcomes, |outcomes|, x);
      if Concluded(outcomes, |outcomes|, x) {
        var k := ConcludedAs(m, b, outcomes, x);
        assert MayEnd(m, outcomes[k]);
      }
    }
  }

  /** A move that names a later row is newly decided only at its own turn, and then given up or put back. */
  lemma EarlyAfter(a: Live, m: Live, b: Live, c: Claimed, outcomes: seq<Outcome>)
    requires EarlyGivenUp(a) && Carries(a, m, c.id) && Decides(m, b, outcomes, |outcomes|)
    requires forall k | 0 <= k < |outcomes| && outcomes[k].c.id !in a.decided && Early(outcomes[k].c) ::
               outcomes[k].decision.GiveUp? || outcomes[k].decision.Revert?
    requires forall k | 0 <= k < |outcomes| :: MayEnd(m, outcomes[k])
    ensures EarlyGivenUp(b)
  {
    forall x | x in b.decided && x in b.claimed && Early(b.claimed[x])
      ensures b.decided[x].GiveUp? || b.decided[x].Revert?
    {
      assert DecidesAt(m, b, outcomes, |outcomes|, x);
      if Concluded(outcomes, |outcomes|, x) && x !in a.decided {
        var k := ConcludedAs(m, b, outcomes, x);
        assert MayEnd(m, outcomes[k]);
      }
    }
  }

  /** Whether a dead connection turned up, read off the decisions. */
  lemma DeadAfter(a: Live, m: Live, b: Live, id: int, outcomes: seq<Outcome>)
    requires SecondsOK(a) && Carries(a, m, id) && Decides(m, b, outcomes, |outcomes|)
    requires forall k | 0 <= k < |outcomes| :: MayEnd(m, outcomes[k])
    ensures AnyDead(b) <==> AnyDead(a) || exists k | 0 <= k < |outcomes| :: Dead(outcomes[k].decision)
    ensures forall x | Died(b, x) && !Died(a, x) :: Concluded(outcomes, |outcomes|, x)
  {
    forall x: int | Died(b, x) && !Died(a, x)
      ensures Concluded(outcomes, |outcomes|, x) && exists k | 0 <= k < |outcomes| :: Dead(outcomes[k].decision)
    {
      assert DecidesAt(m, b, outcomes, |outcomes|, x);
      if Concluded(outcomes, |outcomes|, x) {
        var k := ConcludedAs(m, b, outcomes, x);
        assert Dead(outcomes[k].decision);
      }
    }
    forall k | 0 <= k < |outcomes| && Dead(outcomes[k].decision) ensures AnyDead(b) {
      assert if outcomes[k].c.id in m.decided then b.again[outcomes[k].c.id] == outcomes[k].decision
             else b.decided[outcomes[k].c.id] == outcomes[k].decision;
      assert Died(b, outcomes[k].c.id);
    }
    forall k | 0 <= k < |outcomes| ensures outcomes[k].c.id !in a.again { assert MayEnd(m, outcomes[k]); }
    forall x | Died(a, x) ensures Died(b, x) { assert DecidesAt(m, b, outcomes, |outcomes|, x); }
  }

  /** At its turn an undecided row is ready to dispatch: nothing is known about it yet. */
  lemma ReadyAt(s: Sys, rows: seq<Claimed>, groups: map<int, seq<Claimed>>, i: int)
    requires s.pass.Running? && Claims(s.pass.live, rows) && 0 <= i < |rows| && Turned(s.pass.live, rows, groups, i, i)
    requires rows[i].id !in s.pass.live.decided
    ensures Ready(s, rows[i], s.pass.live.resolved)
  {
    assert KnownAt(s.pass.live, rows, i, rows[i].id);
    assert !HadTurn(rows, i, rows[i].id);
  }

  lemma FreshDies(a: Live, b: Live, rows: seq<Claimed>, groups: map<int, seq<Claimed>>, i: int, outcomes: seq<Outcome>)
    requires 0 <= i < |rows| && !AnyDead(a) && OneEach(rows[i], GroupOf(groups, rows[i].id), outcomes)
    requires forall x | Died(b, x) && !Died(a, x) :: Concluded(outcomes, |outcomes|, x)
    ensures DiesLast(b, rows, groups, i + 1)
  {
    forall x | Died(b, x) ensures InTurn(rows, groups, i + 1, x) {
      assert !Died(a, x);
      ConcludedGroup(rows, groups, i, outcomes, x);
    }
  }

  /** The pass between its last turn and its finalize: the state it claimed in, the claim, its batches,
      its turns, the number of them that dispatched, and the state the finalize ran in. */
  datatype Record = NoPass | Record(start: Sys, rows: seq<Claimed>, groups: map<int, seq<Claimed>>,
                                    turns: seq<Step>, cut: nat, at: Sys)

  /** The rows are what a claim in state `start` takes: the oldest due, as they are, within both budgets. */
  ghost predicate ClaimedIn(start: Sys, now: int, rows: seq<Claimed>) {
    && ClaimedFrom(start, rows)
    && exists ids :: |ids| == |rows| && (forall i | 0 <= i < |ids| :: ids[i] == rows[i].id)
         && TakesOldest(start, now, ids)
  }

  /** What one pass decided: each claimed row once, soundly, nothing dispatched after the turn that found
      the connection dead. */
  ghost predicate PassDecided(p: Record, now: int, limit: int) {
    && p.Record? && p.at.pass.Running? && Reachable(p.at) && p.cut <= |p.rows| && ClaimedIn(p.start, now, p.rows)
    && Claims(p.at.pass.live, p.rows) && Planned(p.rows, |p.rows|, p.groups, limit)
    && AllDone(p.at)
    && Turned(p.at.pass.live, p.rows, p.groups, |p.rows|, p.cut) && AllSound(p.at.pass.live)
    && EarlyGivenUp(p.at.pass.live)
    && DiesLast(p.at.pass.live, p.rows, p.groups, p.cut) && (p.cut == |p.rows| || AnyDead(p.at.pass.live))
    && |p.turns| == |p.rows| && Told(p.at.pass.live, p.rows, p.groups, p.turns, p.cut)
  }

  /** A row that waits, for its hold or its backoff, until a later time than the pass's is not claimed by it. */
  lemma WaitingIsNotClaimed(p: Record, now: int, limit: int, id: int)
    requires PassDecided(p, now, limit) && id in p.start.rows && now < p.start.rows[id].nextAt
    ensures id !in p.at.pass.live.claimed
  {
    hide Reachable, Turned, Planned, AllSound, EarlyGivenUp, DiesLast, AnyDead, AllDone;
    forall m | 0 <= m < |p.rows| ensures p.rows[m].id != id {}
  }

  /** Row id's dispatch, or its second one, failed for want of a connection. */
  predicate LostConnection(l: Live, id: int) {
    || (id in l.decided && (l.decided[id].Retry? || l.decided[id].GiveUp?) && l.decided[id].failure == Connection)
    || (id in l.again && (l.again[id].Retry? || l.again[id].GiveUp?) && l.again[id].failure == Connection)
  }

  /** A pass stops short of its last row only when a dispatch lost the connection, and then right there: only
      the last turn that dispatched lost it. */
  lemma StopsWhereTheConnectionIsLost(p: Record, now: int, limit: int)
    requires PassDecided(p, now, limit)
    ensures p.cut < |p.rows| ==> exists id :: LostConnection(p.at.pass.live, id)
    ensures forall id | LostConnection(p.at.pass.live, id) ::
              p.cut >= 1 && (p.rows[p.cut - 1].id == id || InGroup(p.groups, p.rows[p.cut - 1].id, id))
  {
    var l := p.at.pass.live;
    assert DiesLast(l, p.rows, p.groups, p.cut) && (p.cut == |p.rows| || AnyDead(l));
    hide Reachable, Turned, Planned, Claims, AllSound, EarlyGivenUp, ClaimedIn, Told, PassDecided;
    forall id | LostConnection(l, id)
      ensures p.cut >= 1 && (p.rows[p.cut - 1].id == id || InGroup(p.groups, p.rows[p.cut - 1].id, id)) {
      assert Died(l, id);
    }
    if p.cut < |p.rows| {
      var id :| Died(l, id);
      assert LostConnection(l, id);
    }
  }

  /** A pass whose decisions were reported and applied in one step. */
  ghost predicate PassDone(p: Record, result: Result, now: int, limit: int, t: Sys) {
    PassDecided(p, now, limit) && Reports(result, p.at.pass.live) && FinalizedFrom(p.at, t, now)
  }

  /** A pass whose finalize failed: recovered, or stranded when the recovery failed as well. */
  ghost predicate PassUndone(p: Record, now: int, limit: int, t: Sys) {
    PassDecided(p, now, limit) && UndoneFrom(p.at, t, now)
  }

  /** What a recovery leaves of a claimed row: queued, and behind its backoff if it was due a retry. */
  predicate PutBackRow(r: Row, after: Row, c: Claimed, d: Decision, now: int) {
    match d
    case Retry(failure, _) =>
      after == r.(state := Queued, attempts := r.attempts + 1, lastClass := Some(failure),
                  nextAt := now + Backoff.Min(Backoff.Pow2(c.attempts), 30))
    case _ => after == r.(state := Queued)
  }

  /** What a recovery replays of row id last. */
  function Replayed(l: Live, id: int): Decision
    requires id in l.decided
  {
    if id in l.again && l.again[id].Retry? then l.again[id] else l.decided[id]
  }

  lemma RecoveredRow(rows: Table, l: Live, now: int, id: int)
    requires l.decided.Keys == l.claimed.Keys && id in rows && id in l.claimed
    ensures var rows2 := RecoverRows(rows, l, now);
            id in l.decided && id in rows2 && PutBackRow(rows[id], rows2[id], l.claimed[id], Replayed(l, id), now)
  {
    assert id in l.decided.Keys;
    Backoff.DelayIsCappedDoubling(l.claimed[id].attempts);
  }

  /** A pass whose finalize failed ends no intent, loses no row and writes none but those it claimed.
      Recovered, every claimed row is queued, the ones due a retry behind their backoff; stranded, they
      stay in dispatching until the next startup. */
  lemma UndonePassLosesNothing(p: Record, now: int, limit: int, t: Sys, id: int)
    requires PassUndone(p, now, limit, t) && id in p.at.rows
    ensures t.hist == p.at.hist && t.server == p.at.server && id in t.rows
    ensures var l := p.at.pass.live;
            if id !in l.claimed then t.rows[id] == p.at.rows[id]
            else (id in l.decided && t.rows[id].state == Queued
                  && PutBackRow(p.at.rows[id], t.rows[id], l.claimed[id], Replayed(l, id), now))
                 || (id in t.stranded && t.rows[id] == p.at.rows[id])
  {
    hide Reachable, Turned, Planned, Claims, AllSound, DiesLast, AnyDead, ClaimedIn, RecoverRows, PutBackRow;
    RecoverStates(p.at.rows, p.at.pass.live, now);
    if id in p.at.pass.live.claimed { RecoveredRow(p.at.rows, p.at.pass.live, now, id); }
    assert id in RecoverRows(p.at.rows, p.at.pass.live, now).Keys;
  }

  /** Which rows a pass carries twice: those that rode in the batch of a create it dispatched although their
      references named no queued create when they were enqueued. */
  lemma CarriedTwiceIff(p: Record, now: int, limit: int, id: int)
    requires PassDecided(p, now, limit) && id in p.at.pass.live.claimed
    ensures 0 <= p.at.pass.live.claimed[id].serial < |p.at.hist.log|
    ensures id in p.at.pass.live.again <==>
              Carried(p.rows, p.groups, p.cut, id) && p.at.hist.log[p.at.pass.live.claimed[id].serial].ref < 0
  {
    var l := p.at.pass.live;
    ClaimIsLogged(p.at, id);
    hide Reachable, Planned, Claims, AllSound, EarlyGivenUp, DiesLast, AnyDead, ClaimedIn, DecidedAt, KnownAt, InGroup;
    forall j | 0 <= j < p.cut && InGroup(p.groups, p.rows[j].id, id)
      ensures id < p.rows[j].id <==> p.at.hist.log[l.claimed[id].serial].ref < 0
    {
      RiderDangles(p.at, p.rows, p.groups, limit, j, id);
    }
    assert id in l.again <==> RodeLate(p.rows, p.groups, p.cut, id);
  }

  lemma ClaimIsLogged(s: Sys, id: int)
    requires Reachable(s) && s.pass.Running? && id in s.pass.live.claimed
    ensures 0 <= s.pass.live.claimed[id].serial < |s.hist.log|
  {
    ReachableInv(s);
    ClaimedRef(s, id);
  }

  /** Row id rode in the batch of one of the first n rows. */
  predicate Carried(rows: seq<Claimed>, groups: map<int, seq<Claimed>>, n: int, id: int)
    requires 0 <= n <= |rows|
  {
    exists j | 0 <= j < n :: InGroup(groups, rows[j].id, id)
  }

  lemma RiderDangles(s: Sys, rows: seq<Claimed>, groups: map<int, seq<Claimed>>, limit: int, j: int, id: int)
    requires Reachable(s) && s.pass.Running? && Claims(s.pass.live, rows) && Planned(rows, |rows|, groups, limit)
    requires 0 <= j < |rows| && id in s.pass.live.claimed && InGroup(groups, rows[j].id, id)
    ensures 0 <= s.pass.live.claimed[id].serial < |s.hist.log|
    ensures id < rows[j].id <==> s.hist.log[s.pass.live.claimed[id].serial].ref < 0
  {
    hide Reachable, Inv, IsCreate, Planned, Claims, InGroup;
    RiderWaits(s.pass.live, rows, groups, limit, j, id);
    ReachableInv(s);
    ClaimedRef(s, id);
    ClaimedCreate(s, rows[j].id);
  }

  /** A row in a batch names that batch's create, another row of the claim. */
  lemma RiderWaits(l: Live, rows: seq<Claimed>, groups: map<int, seq<Claimed>>, limit: int, j: int, id: int)
    requires Claims(l, rows) && Planned(rows, |rows|, groups, limit)
    requires 0 <= j < |rows| && id in l.claimed && InGroup(groups, rows[j].id, id)
    ensures rows[j].id in l.claimed && l.claimed[rows[j].id].payload.CreateMailbox?
    ensures id != rows[j].id && l.claimed[id].payload.Ref() == rows[j].id != 0
  {
    var g := GroupOf(groups, rows[j].id);
    var k :| 0 <= k < |g| && g[k].id == id;
    var m := Rider(rows, rows[j].id, g, limit, k);
    HeadIsFresh(rows, groups, limit, j);
    assert m != j;
    SameRowIsOne(rows, m, j);
  }

  lemma SameRowIsOne(rows: seq<Claimed>, m: int, j: int)
    requires Sorted(rows) && 0 <= m < |rows| && 0 <= j < |rows| && m != j
    ensures rows[m].id != rows[j].id
  {
  }

  lemma ClaimedCreate(s: Sys, id: int)
    requires Inv(s) && s.pass.Running? && id in s.pass.live.claimed && s.pass.live.claimed[id].payload.CreateMailbox?
    ensures IsCreate(s.me, s.rows, id) && id >= 1
  {
    assert ClaimedOK(s.me, s.rows, s.server, s.hist, id, s.pass.live.claimed[id]);
    assert Follows(s.server, s.hist.log, s.hist.bound, s.rows[id].serial, s.rows[id].payload);
  }

  /** A claimed move's reference, where it names a row, is good exactly when it names an earlier create. */
  lemma ClaimedRef(s: Sys, id: int)
    requires Inv(s) && s.pass.Running? && id in s.pass.live.claimed
    ensures var c := s.pass.live.claimed[id];
            && 0 <= c.serial < |s.hist.log|
            && (c.payload.Ref() != 0 && c.payload.Ref() in s.rows ==>
                  (s.hist.log[c.serial].ref >= 0 ==> c.payload.Ref() < id)
                  && (s.hist.log[c.serial].ref < 0 ==>
                        c.payload.Ref() >= id || !IsCreate(s.me, s.rows, c.payload.Ref())))
  {
    var c := s.pass.live.claimed[id];
    assert ClaimedOK(s.me, s.rows, s.server, s.hist, id, c);
    assert RefOK(s.me, s.rows, id, s.hist.log[c.serial].payload.Ref(), s.hist.log[c.serial].ref);
  }

  /** A final decision ends its intent: no earlier fate, its fate from now on, its row gone. */
  lemma FinalDecision(s: Sys, id: int, now: int)
    requires Inv(s) && Enabled(s, Event.Finalize(now)) && id in s.pass.live.decided
        && s.pass.live.decided[id].Terminal()
    ensures id in s.pass.live.claimed
    ensures var n := s.pass.live.claimed[id].serial; var t := After(s, Event.Finalize(now));
            && n !in s.hist.fate && n in t.hist.fate && id !in t.rows
            && t.hist.fate[n] == if s.pass.live.decided[id].Deliver? then Delivered else Failed
  {
    var n := s.pass.live.claimed[id].serial;
    assert ClaimedOK(s.me, s.rows, s.server, s.hist, id, s.pass.live.claimed[id]);
    assert Settles(s.hist.log, s.pass.live, n);
    SettlesClaimed(s, n);
    SettleFacts(s.hist, s.pass.live);
  }

  /** Any other decision leaves the row, finalized, and its intent without a fate. */
  lemma PassingDecision(s: Sys, id: int, now: int)
    requires Inv(s) && Enabled(s, Event.Finalize(now)) && id in s.pass.live.decided
        && !s.pass.live.decided[id].Terminal()
    ensures id in s.pass.live.claimed && id in s.rows
    ensures var c := s.pass.live.claimed[id]; var t := After(s, Event.Finalize(now));
            && c.serial !in s.hist.fate && c.serial !in t.hist.fate && id in t.rows
            && t.rows[id] == Finalized(s.rows[id], c, s.pass.live.decided[id], now)
  {
    var n := s.pass.live.claimed[id].serial;
    assert ClaimedOK(s.me, s.rows, s.server, s.hist, id, s.pass.live.claimed[id]);
    assert !Settles(s.hist.log, s.pass.live, n);
    SettleFacts(s.hist, s.pass.live);
  }

  /** A retry's row: one attempt on, behind min(2^attempts, 30) seconds, its class and detail recorded, and
      nothing else of it changed. */
  lemma RetriedRow(r: Row, c: Claimed, failure: Class, detail: string, now: int)
    ensures Finalized(r, c, Retry(failure, detail), now)
              == r.(state := Queued, attempts := r.attempts + 1, lastClass := Some(failure), detail := detail,
                    nextAt := now + Backoff.Min(Backoff.Pow2(c.attempts), 30))
  {
    Backoff.DelayIsCappedDoubling(c.attempts);
  }

  /** A delivered report is the end of its intent: delivered, unless the row had been given up at its own
      turn before a batch carried it again. */
  lemma DeliveredForGood(s: Sys, result: Result, now: int, i: int)
    requires Reachable(s) && Enabled(s, Event.Finalize(now)) && Reports(result, s.pass.live)
        && 0 <= i < |result.delivered|
    ensures var c := result.delivered[i]; var t := After(s, Event.Finalize(now));
            && c.serial !in s.hist.fate && c.serial in t.hist.fate && c.id !in t.rows
            && t.hist.fate[c.serial] == if c.id in s.pass.live.again then Failed else Delivered
  {
    ReachableInv(s);
    assert Ends(s.pass.live, result.delivered[i].id, Deliver);
    FinalDecision(s, result.delivered[i].id, now);
  }

  /** A failure reported as final is: its row is gone and its intent failed. */
  lemma GivenUpForGood(s: Sys, result: Result, now: int, i: int)
    requires Reachable(s) && Enabled(s, Event.Finalize(now)) && Reports(result, s.pass.live)
        && 0 <= i < |result.failures|
    requires !result.failures[i].retrying
    ensures var c := result.failures[i].c; var t := After(s, Event.Finalize(now));
            && c.serial !in s.hist.fate && c.serial in t.hist.fate && t.hist.fate[c.serial] == Failed
            && c.id !in t.rows
  {
    ReachableInv(s);
    assert Ends(s.pass.live, result.failures[i].c.id, DecisionOf(result.failures[i]));
    FinalDecision(s, result.failures[i].c.id, now);
  }

  /** A failure reported as retrying is back in the queue as a retry with the class and detail reported,
      unless it is the second outcome of a row given up before: that row is gone. */
  lemma RetryingIsQueued(s: Sys, result: Result, now: int, i: int)
    requires Reachable(s) && Enabled(s, Event.Finalize(now)) && Reports(result, s.pass.live)
        && 0 <= i < |result.failures|
    requires result.failures[i].retrying
    ensures var f := result.failures[i]; var t := After(s, Event.Finalize(now));
            if f.c.id in s.pass.live.again then
              f.c.id !in t.rows && f.c.serial in t.hist.fate && t.hist.fate[f.c.serial] == Failed
            else
              && f.c.id in s.rows && f.c.id in t.rows && f.c.serial !in t.hist.fate
              && var r := s.rows[f.c.id];
                 t.rows[f.c.id] == r.(state := Queued, attempts := r.attempts + 1, lastClass := Some(f.failure),
                                      detail := f.detail,
                                      nextAt := now + Backoff.Min(Backoff.Pow2(r.attempts), 30))
  {
    hide Settle, FinalizeRows, Finalized, Reads, Sound;
    var f := result.failures[i];
    ReachableInv(s);
    ReachableReads(s);
    assert f.c.id in s.pass.live.claimed && s.pass.live.claimed[f.c.id] == f.c && FailedWell(f, s.pass.live);
    assert s.rows[f.c.id].attempts == f.c.attempts;
    assert Ends(s.pass.live, f.c.id, DecisionOf(f));
    if f.c.id in s.pass.live.again {
      FinalDecision(s, f.c.id, now);
    } else {
      PassingDecision(s, f.c.id, now);
      RetriedRow(s.rows[f.c.id], f.c, f.failure, f.detail, now);
    }
  }

  /** A finalize writes no row but those its pass claimed, and ends no other intent. */
  lemma FinalizeLeavesTheRest(s: Sys, now: int, id: int)
    requires Reachable(s) && Enabled(s, Event.Finalize(now)) && id in s.rows && id !in s.pass.live.claimed
    ensures var t := After(s, Event.Finalize(now)); id in t.rows && t.rows[id] == s.rows[id]
    ensures s.rows[id].account == s.me ==> s.rows[id].serial !in After(s, Event.Finalize(now)).hist.fate
  {
    hide Settle;
    ReachableInv(s);
    ReachableOn(s, Event.Finalize(now));
    ReachableInv(After(s, Event.Finalize(now)));
    assert id !in s.pass.live.decided;
  }

  /** A claimed row the report does not name was never attempted, and is back exactly as it was. */
  lemma UnreportedIsUntouched(p: Record, result: Result, now: int, limit: int, t: Sys, id: int)
    requires PassDone(p, result, now, limit, t) && id in p.at.pass.live.claimed
    requires !DeliveredIn(result, id) && !FailedIn(result, id)
    ensures id in p.at.rows && id in t.rows && t.rows[id] == p.at.rows[id].(state := Queued)
    ensures !Turn(p.rows, p.groups, p.cut, id) && exists lost :: LostConnection(p.at.pass.live, lost)
  {
    var l := p.at.pass.live;
    StopsWhereTheConnectionIsLost(p, now, limit);
    ReachableInv(p.at);
    assert id in l.decided.Keys && ReportedAs(result, id, l.decided[id]);
    PassingDecision(p.at, id, now);
    assert DecidedAt(l.decided, p.rows, p.groups, |p.rows|, p.cut, id);
    var m :| 0 <= m < |p.rows| && p.rows[m].id == id;
    assert p.cut != |p.rows|;
  }

  /** After the last turn every claimed row has a decision. */
  lemma AllDecided(s: Sys, rows: seq<Claimed>, groups: map<int, seq<Claimed>>, cut: int)
    requires Reachable(s) && s.pass.Running? && Claims(s.pass.live, rows) && 0 <= cut <= |rows|
    requires Turned(s.pass.live, rows, groups, |rows|, cut)
    ensures s.pass.live.decided.Keys == s.pass.live.claimed.Keys
  {
    ReachableInv(s);
    var l := s.pass.live;
    forall id: int ensures Within(id, l.decided.Keys) <==> Within(id, l.claimed.Keys) {
      assert DecidedAt(l.decided, rows, groups, |rows|, cut, id);
      if id in l.claimed {
        var m :| 0 <= m < |rows| && rows[m].id == id;
        assert HadTurn(rows, |rows|, id);
      }
    }
    SameSet(l.decided.Keys, l.claimed.Keys);
  }

  lemma FreshPass(s: Sys, rows: seq<Claimed>, ids: seq<int>, groups: map<int, seq<Claimed>>)
    requires rows != [] && ClaimedSeq(s, rows, ids)
    ensures InTurns(s, rows, groups, Tally([], Result([], []), {}), [], 0, map[], false, s.pass.live.read)
    ensures Sorted(rows)
  {
    ClaimOf(s, rows, ids);
    hide MidPass, AnyDead;
    NoneTurned(s.pass.live, rows, groups);
  }

  lemma NoneTurned(l: Live, rows: seq<Claimed>, groups: map<int, seq<Claimed>>)
    requires Claims(l, rows) && l.decided == map[] && l.again == map[] && l.resolved == map[]
    requires l.learned == map[] && l.walks == map[]
    ensures MidPass(l, rows, groups, Tally([], Result([], []), {}), 0, 0) && !AnyDead(l)
  {
    hide TallyOK, Claims;
    NoneTallied(l);
  }

  lemma NoneTallied(l: Live)
    requires l.decided == map[] && l.again == map[]
    ensures TallyOK(Tally([], Result([], []), {}), l)
  {
  }

  /** The loop between two turns, with Go's own variables. */
  ghost predicate InTurns(s: Sys, rows: seq<Claimed>, groups: map<int, seq<Claimed>>, t: Tally, turns: seq<Step>,
                          cut: int, resolved: map<int, string>, stopped: bool, read: StoreIds)
    requires 0 <= cut <= |turns| <= |rows|
  {
    var n := |turns|;
    && s.pass.Running? && Told(s.pass.live, rows, groups, turns, cut)
    && s.pass.live.read == read && MidPass(s.pass.live, rows, groups, t, n, cut)
    && resolved == s.pass.live.resolved && (stopped <==> AnyDead(s.pass.live)) && (stopped || cut == n)
  }

  lemma PassedOver(l: Live, rows: seq<Claimed>, groups: map<int, seq<Claimed>>, limit: int, t: Tally, i: int,
      cut: int, next: int)
    requires 0 <= cut <= i < |rows| && MidPass(l, rows, groups, t, i, cut) && Planned(rows, |rows|, groups, limit)
    requires rows[i].id in t.finalized && next == if AnyDead(l) then cut else i + 1
    ensures MidPass(l, rows, groups, t, i + 1, next)
  {
    assert DecidedAt(l.decided, rows, groups, i, cut, rows[i].id);
    RiderHeadsNone(rows, groups, limit, i);
    TurnSkipped(l, rows, groups, i, cut, next);
  }

  // ---------------------------------------------------------------- what each sequence of answers leads to

  const STORE_FAILED := Retry(StoreLocal, "")

  /** What a lookup of the mailbox a refusal is about leads to: nothing wrong with exactly one. */
  function Adopted(found: FindReply): Option<Decision> {
    match found
    case FindFailed(failure) => Some(FailedOutcome(failure, ""))
    case Found(ids) => if |ids| == 1 then None else Some(GiveUp(Server, ""))
  }

  predicate PersistScript(calls: seq<Call>, failed: Option<Decision>) {
    |calls| == 1 && calls[0].Persisted? && failed == if calls[0].ok then None else Some(STORE_FAILED)
  }

  /** The calls that make or adopt a mailbox and record its id. */
  predicate MakeScript(calls: seq<Call>, failed: Option<Decision>) {
    && |calls| >= 1 && calls[0].Made?
    && match calls[0].made
       case Refused(failure) => |calls| == 1 && failed == Some(FailedOutcome(failure, ""))
       case Created(_) => PersistScript(calls[1..], failed)
       case NameExists =>
         && |calls| >= 2 && calls[1].Looked?
         && match Adopted(calls[1].found)
            case Some(d) => |calls| == 2 && failed == Some(d)
            case None => PersistScript(calls[2..], failed)
  }

  lemma MakeEnds(reply: CreateReply, answer: FindReply)
    ensures reply.Refused? ==> MakeScript([Made(reply)], Some(FailedOutcome(reply.failure, "")))
    ensures reply.NameExists? && Adopted(answer).Some? ==> MakeScript([Made(reply), Looked(answer)], Adopted(answer))
  {
  }

  lemma MakeRecords(reply: CreateReply, answer: FindReply, ok: bool)
    ensures reply.Created? ==> MakeScript([Made(reply)] + [Persisted(ok)], if ok then None else Some(STORE_FAILED))
    ensures reply.NameExists? && Adopted(answer).None? ==>
              MakeScript([Made(reply), Looked(answer)] + [Persisted(ok)], if ok then None else Some(STORE_FAILED))
  {
    assert ([Made(reply)] + [Persisted(ok)])[1..] == [Persisted(ok)];
    assert ([Made(reply), Looked(answer)] + [Persisted(ok)])[2..] == [Persisted(ok)];
  }

  predicate WalkScript(call: Call, d: Decision) { call.Walked? && d == if call.ok then Deliver else STORE_FAILED }

  /** A create: a replay that knows its id walks the references and no more; any other makes or adopts,
      records, and then walks. */
  predicate CreateScript(c: Claimed, calls: seq<Call>, d: Decision)
    requires c.payload.CreateMailbox?
  {
    if c.payload.resolved != "" then |calls| == 1 && WalkScript(calls[0], d)
    else
      MakeScript(calls, Some(d))
      || (|calls| >= 1 && MakeScript(calls[..|calls| - 1], None) && WalkScript(calls[|calls| - 1], d))
  }

  lemma CreateEnds(c: Claimed, trace: seq<Call>, ok: bool)
    requires c.payload.CreateMailbox?
    ensures c.payload.resolved != "" ==> CreateScript(c, [] + [Walked(ok)], if ok then Deliver else STORE_FAILED)
    ensures c.payload.resolved == "" && MakeScript(trace, None) ==>
              CreateScript(c, trace + [Walked(ok)], if ok then Deliver else STORE_FAILED)
  {
    assert (trace + [Walked(ok)])[..|trace|] == trace;
  }

  lemma CreateFails(c: Claimed, trace: seq<Call>, d: Decision)
    requires c.payload.CreateMailbox? && c.payload.resolved == "" && MakeScript(trace, Some(d))
    ensures CreateScript(c, trace, d)
  {
  }

  /** A move against the server's answer: delivered, or failed as its first refused message was. */
  ghost predicate MoveDecided(c: Claimed, refused: map<string, Class>, d: Decision)
    requires c.payload.MoveMessages?
  {
    if AllAccepted(c, refused) then d == Deliver else exists k ::
        FirstRefused(c, refused, k) && d == RefusalAt(c, refused, k)
  }

  function MoveDest(c: Claimed, resolved: map<int, string>): string
    requires c.payload.MoveMessages?
  {
    if c.payload.destRef != 0 && c.dest == "" then Get(resolved, c.payload.destRef) else c.dest
  }

  ghost predicate MoveScript(c: Claimed, resolved: map<int, string>, calls: seq<Call>, d: Decision)
    requires c.payload.MoveMessages?
  {
    if MoveDest(c, resolved) == "" then calls == [] && d.GiveUp? && d.failure == NotFound
    else
      && |calls| == 1 && calls[0].Filed?
      && match calls[0].filed
         case CallFailed(failure) => d == FailedOutcome(failure, "")
         case Answered(refused) => MoveDecided(c, refused, d)
  }

  /** One intent on its own. */
  ghost predicate OneScript(c: Claimed, resolved: map<int, string>, calls: seq<Call>, d: Decision) {
    match c.payload
    case CreateMailbox(_, _, _, _, _) => CreateScript(c, calls, d)
    case MoveMessages(_, _, _, _, _) => MoveScript(c, resolved, calls, d)
    case UnknownKind(_) => calls == [] && d.GiveUp? && d.failure == StoreLocal
    case _ =>
      |calls| == 1 && calls[0].Acked?
          && d == match calls[0].failed case Some(f) => FailedOutcome(f, "") case None => Deliver
  }

  /** The requests of a batch: what was refused of its moves, or why the whole of it fails. */
  predicate RequestScript(calls: seq<Call>, refused: map<string, Class>, failed: Option<Decision>) {
    && |calls| >= 1 && calls[0].Batched?
    && match calls[0].batched
       case BatchFailed(failure) => |calls| == 1 && failed == Some(FailedOutcome(failure, ""))
       case BatchAnswered(Refused(failure), _) => |calls| == 1 && failed == Some(FailedOutcome(failure, ""))
       case BatchAnswered(Created(_), r) => |calls| == 1 && failed == None && refused == r
       case BatchAnswered(NameExists, _) =>
         && |calls| >= 2 && calls[1].Looked?
         && match Adopted(calls[1].found)
            case Some(d) => |calls| == 2 && failed == Some(d)
            case None =>
              && |calls| == 3 && calls[2].Filed?
              && match calls[2].filed
                 case CallFailed(failure) => failed == Some(FailedOutcome(failure, ""))
                 case Answered(r) => failed == None && refused == r
  }

  lemma RequestEnds(reply: BatchReply)
    ensures reply.BatchFailed? ==> RequestScript([Batched(reply)], map[], Some(FailedOutcome(reply.failure, "")))
    ensures reply.BatchAnswered? && reply.create.Refused? ==>
              RequestScript([Batched(reply)], map[], Some(FailedOutcome(reply.create.failure, "")))
    ensures reply.BatchAnswered? && reply.create.Created? ==> RequestScript([Batched(reply)], reply.failed, None)
  {
  }

  lemma RequestAdopts(reply: BatchReply, answer: FindReply, again: FileReply)
    requires reply.BatchAnswered? && reply.create.NameExists?
    ensures Adopted(answer).Some? ==> RequestScript([Batched(reply), Looked(answer)], map[], Adopted(answer))
    ensures Adopted(answer).None? ==>
              RequestScript([Batched(reply), Looked(answer), Filed(again)],
                  if again.Answered? then again.failed else map[],
                            if again.Answered? then None else Some(FailedOutcome(again.failure, "")))
  {
  }

  /** A batch: its requests, and, unless they failed, the record and the walk. Any failure of those
      fails every intent in it alike; past them a move's outcome is read off its messages' answers. */
  ghost predicate BatchScript(create: Claimed, moves: seq<Claimed>, request: seq<Call>, rest: seq<Call>,
      outcomes: seq<Outcome>) {
    exists refused, failed ::
      && RequestScript(request, refused, failed)
      && (if failed.Some? then rest == [] && outcomes == FailBatch(create, moves, failed.value)
          else Settled(create, moves, refused, rest, outcomes))
  }

  ghost predicate Settled(create: Claimed, moves: seq<Claimed>, refused: map<string, Class>, rest: seq<Call>,
      outcomes: seq<Outcome>) {
    && |rest| >= 1 && rest[0].Persisted?
    && if !rest[0].ok then |rest| == 1 && outcomes == FailBatch(create, moves, STORE_FAILED)
       else
         && |rest| == 2 && rest[1].Walked?
         && if !rest[1].ok then outcomes == FailBatch(create, moves, STORE_FAILED)
            else
              && OneEach(create, moves, outcomes) && outcomes[0].decision == Deliver
              && forall k | 0 <= k < |moves| ::
                  moves[k].payload.MoveMessages? && MoveDecided(moves[k], refused, outcomes[k + 1].decision)
  }

  /** What the answers of one turn lead to: a claim that failed in advance calls nothing, a batch and a
      single intent go by their scripts. */
  ghost predicate TurnScript(c: Claimed, g: seq<Claimed>, known: map<int, string>, trace: seq<Call>,
      outcomes: seq<Outcome>) {
    && OneEach(c, g, outcomes)
    && (if c.preFailed then trace == [] && outcomes[0].decision == GiveUp(NotFound, "")
        else if g == [] then OneScript(c, known, trace, outcomes[0].decision)
        else exists request, rest :: trace == request + rest && BatchScript(c, g, request, rest, outcomes))
  }

  /** One turn of a pass: the mailbox ids earlier turns resolved, its calls with their answers, and the
      outcomes it recorded. */
  datatype Step = Step(known: map<int, string>, trace: seq<Call>, outcomes: seq<Outcome>)

  /** Turn i told: every outcome is what its row came to; a turn passed over, for an earlier batch carried
      its row, has none; one before the cut has those its calls' answers lead to; and one after it calls
      nothing and puts its row back. */
  ghost predicate ToldAt(l: Live, rows: seq<Claimed>, groups: map<int, seq<Claimed>>, turns: seq<Step>, cut: int,
      i: int)
    requires 0 <= i < |turns| <= |rows|
  {
    && (forall k | 0 <= k < |turns[i].outcomes| ::
          Ends(l, turns[i].outcomes[k].c.id, turns[i].outcomes[k].decision))
    && (if turns[i].outcomes == [] then turns[i].trace == [] && Turn(rows, groups, i, rows[i].id)
        else if i < cut then
          TurnScript(rows[i], GroupOf(groups, rows[i].id), turns[i].known, turns[i].trace, turns[i].outcomes)
        else turns[i].trace == [] && turns[i].outcomes == [Outcome(rows[i], Revert)])
  }

  /** Turn i delivered the create of row c. */
  predicate Makes(c: Claimed, turn: Step) {
    c.payload.CreateMailbox? && turn.outcomes != [] && turn.outcomes[0].decision.Deliver?
  }

  /** What turn i knew: the id of every create an earlier turn delivered, and nothing that changed since. */
  predicate KnewAt(l: Live, rows: seq<Claimed>, turns: seq<Step>, i: int)
    requires 0 <= i < |turns| <= |rows|
  {
    && (forall k | k in turns[i].known :: k in l.resolved && l.resolved[k] == turns[i].known[k])
    && (forall j | 0 <= j < i && Makes(rows[j], turns[j]) :: rows[j].id in turns[i].known)
    && (Makes(rows[i], turns[i]) ==> rows[i].id in l.resolved)
  }

  ghost predicate Told(l: Live, rows: seq<Claimed>, groups: map<int, seq<Claimed>>, turns: seq<Step>, cut: int)
    requires |turns| <= |rows|
  {
    forall i | 0 <= i < |turns| :: ToldAt(l, rows, groups, turns, cut, i) && KnewAt(l, rows, turns, i)
  }

  /** The calls of the turns, in order. */
  function CallsOf(turns: seq<Step>): seq<Call> {
    if turns == [] then [] else CallsOf(turns[..|turns| - 1]) + turns[|turns| - 1].trace
  }

  lemma CallsGrow(turns: seq<Step>, turn: Step)
    ensures CallsOf(turns + [turn]) == CallsOf(turns) + turn.trace
  {
    assert (turns + [turn])[..|turns|] == turns;
  }

  /** Between a and b no decision a row came to was lost, and no id a create resolved to. */
  predicate Keeps(a: Live, b: Live) {
    && (forall id | id in a.decided :: id in b.decided && b.decided[id] == a.decided[id])
    && (forall id | id in a.again :: id in b.again && b.again[id] == a.again[id])
    && (forall k | k in a.resolved :: k in b.resolved && b.resolved[k] == a.resolved[k])
  }

  lemma DecidesKeeps(a: Live, m: Live, b: Live, id: int, outcomes: seq<Outcome>)
    requires Carries(a, m, id) && id !in a.resolved && SecondsOK(a) && Decides(m, b, outcomes, |outcomes|)
    requires b.resolved == m.resolved && forall k | 0 <= k < |outcomes| :: MayEnd(m, outcomes[k])
    ensures Keeps(a, b)
  {
    forall x | x in a.decided ensures x in b.decided && b.decided[x] == a.decided[x] {
      assert DecidesAt(m, b, outcomes, |outcomes|, x);
    }
    forall k | 0 <= k < |outcomes| ensures outcomes[k].c.id !in a.again { assert MayEnd(m, outcomes[k]); }
    forall x | x in a.again ensures x in b.again && b.again[x] == a.again[x] {
      assert DecidesAt(m, b, outcomes, |outcomes|, x);
    }
  }

  /** A turn more told: the earlier ones stand, and this one is as it went. */
  lemma ToldStep(a: Live, b: Live, rows: seq<Claimed>, groups: map<int, seq<Claimed>>, turns: seq<Step>, turn: Step,
      cut: int, next: int)
    requires |turns| < |rows| && Told(a, rows, groups, turns, cut) && Keeps(a, b)
    requires next == cut || |turns| <= cut <= next
    requires turn.known == a.resolved
    requires ToldAt(b, rows, groups, turns + [turn], next, |turns|)
    requires Makes(rows[|turns|], turn) ==> rows[|turns|].id in b.resolved
    ensures Told(b, rows, groups, turns + [turn], next)
  {
    hide TurnScript, Turn, Keeps;
    var after := turns + [turn];
    forall i | 0 <= i < |after| ensures ToldAt(b, rows, groups, after, next, i) && KnewAt(b, rows, after, i) {
      KnewStep(a, b, rows, groups, turns, turn, cut, i);
      if i < |turns| {
        assert after[i] == turns[i] && ToldAt(a, rows, groups, turns, cut, i);
        EndsKept(a, b, turns[i].outcomes);
      }
    }
  }

  lemma EndsKept(a: Live, b: Live, outcomes: seq<Outcome>)
    requires Keeps(a, b) && forall k | 0 <= k < |outcomes| :: Ends(a, outcomes[k].c.id, outcomes[k].decision)
    ensures forall k | 0 <= k < |outcomes| :: Ends(b, outcomes[k].c.id, outcomes[k].decision)
  {
  }

  lemma KnewStep(a: Live, b: Live, rows: seq<Claimed>, groups: map<int, seq<Claimed>>, turns: seq<Step>, turn: Step,
      cut: int, i: int)
    requires |turns| < |rows| && Told(a, rows, groups, turns, cut) && Keeps(a, b) && 0 <= i <= |turns|
    requires turn.known == a.resolved && (Makes(rows[|turns|], turn) ==> rows[|turns|].id in b.resolved)
    ensures KnewAt(b, rows, turns + [turn], i)
  {
    var after := turns + [turn];
    if i < |turns| { assert KnewAt(a, rows, turns, i); }
    forall j | 0 <= j < i && Makes(rows[j], after[j]) ensures rows[j].id in after[i].known {
      assert after[j] == turns[j] && KnewAt(a, rows, turns, j);
    }
  }

  /** The outcomes of a turn are what its rows came to. */
  lemma OutcomesEnd(m: Live, b: Live, outcomes: seq<Outcome>)
    requires Decides(m, b, outcomes, |outcomes|)
    ensures forall k | 0 <= k < |outcomes| :: Ends(b, outcomes[k].c.id, outcomes[k].decision)
  {
    forall k | 0 <= k < |outcomes| ensures Ends(b, outcomes[k].c.id, outcomes[k].decision) {
      assert TakenIn(m, b, outcomes[k]);
    }
  }

  lemma BatchStays(s: Sys, t: Sys, create: int, moves: seq<Claimed>, refused: map<string, Class>)
    requires s.pass.Running? && t.pass.Running? && InBatch(s, create, moves) && FiledUnless(s.pass.live, moves, refused)
    requires t.pass.live.claimed == s.pass.live.claimed && t.pass.live.decided == s.pass.live.decided
    requires t.pass.live.again == s.pass.live.again
    requires forall k | k in s.pass.live.filed :: k in t.pass.live.filed
    ensures InBatch(t, create, moves) && FiledUnless(t.pass.live, moves, refused)
  {
    forall i | 0 <= i < |moves| ensures RidesWith(t, create, moves[i]) { assert RidesWith(s, create, moves[i]); }
  }

  /** What a call that changed nothing of the pass leaves as it was. */
  lemma SamePass(s: Sys, t: Sys, create: int, moves: seq<Claimed>)
    requires t.pass == s.pass && InBatch(s, create, moves)
    ensures InBatch(t, create, moves)
    ensures CallsCreate(s, create) ==> CallsCreate(t, create) && AskedBox(t, create) == AskedBox(s, create)
  {
    forall i | 0 <= i < |moves| ensures RidesWith(t, create, moves[i]) { assert RidesWith(s, create, moves[i]); }
  }

  lemma SoundFailure(c: Claimed, failure: Class)
    ensures !FailedOutcome(failure, "").Deliver? && Sound(c, FailedOutcome(failure, ""))
  {
  }

  lemma FiledUnlessRefused(l: Live, moves: seq<Claimed>, failed: map<string, Class>)
    requires forall i | 0 <= i < |moves| && AllAccepted(moves[i], failed) :: moves[i].id in l.filed
    ensures FiledUnless(l, moves, failed)
  {
  }

  lemma SettledBadly(create: Claimed, moves: seq<Claimed>, refused: map<string, Class>)
    ensures Settled(create, moves, refused, [Persisted(false)], FailBatch(create, moves, STORE_FAILED))
    ensures Settled(create, moves, refused, [Persisted(true), Walked(false)], FailBatch(create, moves, STORE_FAILED))
  {
  }

  lemma SettledWell(create: Claimed, moves: seq<Claimed>, refused: map<string, Class>, outcomes: seq<Outcome>)
    requires OneEach(create, moves, outcomes) && outcomes[0].decision == Deliver
    requires forall k | 0 <= k < |moves| ::
        moves[k].payload.MoveMessages? && MoveDecided(moves[k], refused, outcomes[k + 1].decision)
    ensures Settled(create, moves, refused, [Persisted(true), Walked(true)], outcomes)
  {
  }

  /** What a turn about to dispatch finds. */
  lemma TurnOpens(s: Sys, rows: seq<Claimed>, groups: map<int, seq<Claimed>>, limit: int, i: int, t0: Tally)
    requires 0 <= i < |rows| && Planned(rows, |rows|, groups, limit) && Reachable(s) && s.pass.Running?
    requires MidPass(s.pass.live, rows, groups, t0, i, i) && rows[i].id !in t0.finalized
    ensures Ready(s, rows[i], s.pass.live.resolved) && TallyOK(t0, s.pass.live) && SecondsOK(s.pass.live)
    ensures rows[i].id in s.pass.live.claimed && s.pass.live.claimed[rows[i].id] == rows[i]
        && rows[i].id !in s.pass.live.decided && rows[i].id !in s.pass.live.resolved
    ensures var g := GroupOf(groups, rows[i].id);
            && Sorted(g) && (g == [] || (FreshCreate(rows[i]) && InBatch(s, rows[i].id, g) && 1 + Objects(g) <= limit))
            && forall k | 0 <= k < |g| :: CarriedRow(s.pass.live, rows[i], g[k])
  {
    ReadyAt(s, rows, groups, i);
    assert KnownAt(s.pass.live, rows, i, rows[i].id);
    if rows[i].id in groups {
      GroupIsOpen(s, rows, groups, limit, i);
      assert GroupOK(rows, |rows|, rows[i].id, groups[rows[i].id], limit);
    }
  }

  /** At its own turn a move that names a later row finds no destination, and is given up. */
  lemma EarlyFails(s: Sys, rows: seq<Claimed>, groups: map<int, seq<Claimed>>, i: int, trace: seq<Call>, d: Decision)
    requires Reachable(s) && s.pass.Running? && Claims(s.pass.live, rows) && 0 <= i < |rows|
    requires Turned(s.pass.live, rows, groups, i, i) && Early(rows[i])
    requires OneScript(rows[i], s.pass.live.resolved, trace, d)
    ensures d.GiveUp?
  {
    var c := rows[i];
    ClaimFacts(s, c);
    assert KnownAt(s.pass.live, rows, i, c.payload.destRef);
    assert !HadTurn(rows, i, c.payload.destRef);
    assert c.payload.destRef !in s.pass.live.resolved;
  }

  /** A move that names a later row heads no batch. */
  lemma EarlyHeadsNone(rows: seq<Claimed>, groups: map<int, seq<Claimed>>, limit: int, i: int)
    requires Sorted(rows) && Planned(rows, |rows|, groups, limit) && 0 <= i < |rows| && Early(rows[i])
    ensures GroupOf(groups, rows[i].id) == []
  {
    if rows[i].id in groups { HeadIsFresh(rows, groups, limit, i); }
  }

  /** Of the rows of a turn, those newly decided are the row itself and moves that come after it. */
  lemma EarlyInTurn(s: Sys, rows: seq<Claimed>, groups: map<int, seq<Claimed>>, limit: int, i: int, trace: seq<Call>,
      outcomes: seq<Outcome>)
    requires Reachable(s) && s.pass.Running? && Claims(s.pass.live, rows) && 0 <= i < |rows|
    requires Planned(rows, |rows|, groups, limit) && Turned(s.pass.live, rows, groups, i, i)
    requires OneEach(rows[i], GroupOf(groups, rows[i].id), outcomes)
    requires forall k | 0 <= k < |GroupOf(groups, rows[i].id)| ::
               CarriedRow(s.pass.live, rows[i], GroupOf(groups, rows[i].id)[k])
    requires !rows[i].preFailed && GroupOf(groups, rows[i].id) == [] ==>
               OneScript(rows[i], s.pass.live.resolved, trace, outcomes[0].decision)
    ensures forall k | 0 <= k < |outcomes| && outcomes[k].c.id !in s.pass.live.decided && Early(outcomes[k].c) ::
              outcomes[k].decision.GiveUp? || outcomes[k].decision.Revert?
  {
    var g := GroupOf(groups, rows[i].id);
    forall k | 0 <= k < |g| ensures WaitsFor(g[k], rows[i].id) {
      assert GroupOK(rows, |rows|, rows[i].id, groups[rows[i].id], limit);
    }
    forall k | 1 <= k < |outcomes| ensures outcomes[k].c.id !in s.pass.live.decided ==> !Early(outcomes[k].c) {
      assert outcomes[k].c == g[k - 1] && CarriedRow(s.pass.live, rows[i], g[k - 1]);
    }
    if Early(rows[i]) {
      EarlyHeadsNone(rows, groups, limit, i);
      EarlyFails(s, rows, groups, i, trace, outcomes[0].decision);
    }
  }

  /** A dispatch decides nothing itself. */
  lemma TallyCarries(a: Live, m: Live, id: int, t: Tally)
    requires TallyOK(t, a) && SecondsOK(a) && Carries(a, m, id)
    ensures TallyOK(t, m) && SecondsOK(m)
  {
  }

  /** What a turn's outcomes are about, against what the turn found. */
  lemma TurnSplits(s: Sys, rows: seq<Claimed>, groups: map<int, seq<Claimed>>, limit: int, i: int, t0: Tally,
      trace: seq<Call>, outcomes: seq<Outcome>)
    requires 0 <= i < |rows| && Planned(rows, |rows|, groups, limit) && Reachable(s) && s.pass.Running?
    requires MidPass(s.pass.live, rows, groups, t0, i, i) && rows[i].id !in t0.finalized
    requires OneEach(rows[i], GroupOf(groups, rows[i].id), outcomes)
    requires !rows[i].preFailed && GroupOf(groups, rows[i].id) == [] ==>
               OneScript(rows[i], s.pass.live.resolved, trace, outcomes[0].decision)
    ensures BatchSplits(s.pass.live, rows[i], GroupOf(groups, rows[i].id))
    ensures forall k | 0 <= k < |outcomes| && outcomes[k].c.id !in s.pass.live.decided && Early(outcomes[k].c) ::
              outcomes[k].decision.GiveUp? || outcomes[k].decision.Revert?
  {
    TurnOpens(s, rows, groups, limit, i, t0);
    EarlyInTurn(s, rows, groups, limit, i, trace, outcomes);
  }

  lemma TurnTaken(a: Live, m: Live, b: Live, rows: seq<Claimed>, groups: map<int, seq<Claimed>>, i: int,
      outcomes: seq<Outcome>, t0: Tally, t: Tally)
    requires 0 <= i < |rows| && MidPass(a, rows, groups, t0, i, i) && !AnyDead(a) && TallyOK(t, b)
    requires OneEach(rows[i], GroupOf(groups, rows[i].id), outcomes)
    requires Carries(a, m, rows[i].id) && Decides(m, b, outcomes, |outcomes|) && AllConclude(m, outcomes)
    requires BatchSplits(a, rows[i], GroupOf(groups, rows[i].id))
    requires forall k | 0 <= k < |outcomes| :: !outcomes[k].decision.Revert? && MayEnd(m, outcomes[k])
    requires forall k | 0 <= k < |outcomes| && outcomes[k].c.id !in a.decided && Early(outcomes[k].c) ::
               outcomes[k].decision.GiveUp? || outcomes[k].decision.Revert?
    ensures MidPass(b, rows, groups, t, i + 1, i + 1)
    ensures AnyDead(b) <==> exists k | 0 <= k < |outcomes| :: Dead(outcomes[k].decision)
    ensures b.resolved == m.resolved && b.read == a.read
  {
    TurnDispatched(a, m, b, rows, groups, i, outcomes);
    SoundAfter(a, m, b, rows[i].id, outcomes);
    SecondsAfter(a, m, b, rows[i].id, outcomes);
    EarlyAfter(a, m, b, rows[i], outcomes);
    DeadAfter(a, m, b, rows[i].id, outcomes);
    FreshDies(a, b, rows, groups, i, outcomes);
    hide Turned, AllSound, EarlyGivenUp, SecondsOK, DiesLast, TallyOK, AnyDead;
  }

  lemma TurnPutBack(a: Live, b: Live, rows: seq<Claimed>, groups: map<int, seq<Claimed>>, i: int, cut: int,
      t0: Tally, t: Tally)
    requires 0 <= cut <= i < |rows| && MidPass(a, rows, groups, t0, i, cut) && rows[i].id !in t0.finalized && AnyDead(a)
    requires Decides(a, b, [Outcome(rows[i], Revert)], 1) && TallyOK(t, b)
    ensures MidPass(b, rows, groups, t, i + 1, cut) && AnyDead(b)
  {
    hide Turned, DecidedAt, KnownAt, RodeLate, TallyOK, Claims, AllSound, EarlyGivenUp, SecondsOK, Decides, AnyDead;
    hide Died, Early, Sound, MayEnd, Carries, DiesLast, InTurn;
    var outcomes := [Outcome(rows[i], Revert)];
    PutBackEnds(a, rows, groups, i, cut, t0);
    TurnReverted(a, b, rows, groups, i, cut);
    ClaimsKept(a, b, rows, outcomes, 1);
    SoundAfter(a, a, b, rows[i].id, outcomes);
    SecondsAfter(a, a, b, rows[i].id, outcomes);
    EarlyAfter(a, a, b, rows[i], outcomes);
    DeadAfter(a, a, b, rows[i].id, outcomes);
    PutBackDies(a, b, rows, groups, i, cut);
  }

  lemma ClaimsKept(a: Live, b: Live, rows: seq<Claimed>, outcomes: seq<Outcome>, n: int)
    requires Claims(a, rows) && 0 <= n <= |outcomes| && Decides(a, b, outcomes, n)
    ensures Claims(b, rows) && b.resolved == a.resolved && b.claimed == a.claimed && b.read == a.read
  {
  }

  lemma PutBackEnds(a: Live, rows: seq<Claimed>, groups: map<int, seq<Claimed>>, i: int, cut: int, t0: Tally)
    requires 0 <= cut <= i < |rows| && MidPass(a, rows, groups, t0, i, cut) && rows[i].id !in t0.finalized
    ensures rows[i].id !in a.decided && MayEnd(a, Outcome(rows[i], Revert)) && Carries(a, a, rows[i].id)
  {
  }

  lemma BackIsRecordable(s: Sys, rows: seq<Claimed>, groups: map<int, seq<Claimed>>, i: int, cut: int, t0: Tally)
    requires s.pass.Running? && 0 <= cut <= i < |rows| && MidPass(s.pass.live, rows, groups, t0, i, cut)
    requires rows[i].id !in t0.finalized
    ensures Recordable(s, [Outcome(rows[i], Revert)]) && TallyOK(t0, s.pass.live) && SecondsOK(s.pass.live)
    ensures Claims(s.pass.live, rows)
  {
    PutBackEnds(s.pass.live, rows, groups, i, cut, t0);
  }

  lemma PutBackDies(a: Live, b: Live, rows: seq<Claimed>, groups: map<int, seq<Claimed>>, i: int, cut: int)
    requires 0 <= cut <= i < |rows| && DiesLast(a, rows, groups, cut) && rows[i].id !in a.decided && SecondsOK(a)
    requires Decides(a, b, [Outcome(rows[i], Revert)], 1)
    ensures DiesLast(b, rows, groups, cut)
  {
    forall x | Died(b, x) ensures InTurn(rows, groups, cut, x) {
      RevertedAt(a, b, rows[i], x);
      assert Died(a, x);
    }
  }

  lemma NoCalls()
    ensures CallsOf([]) == []
  {
  }

  lemma TurnTold(a: Live, m: Live, b: Live, rows: seq<Claimed>, groups: map<int, seq<Claimed>>, turns: seq<Step>,
      turn: Step)
    requires |turns| < |rows| && Told(a, rows, groups, turns, |turns|) && turn.known == a.resolved
    requires Carries(a, m, rows[|turns|].id) && rows[|turns|].id !in a.resolved && SecondsOK(a)
    requires Decides(m, b, turn.outcomes, |turn.outcomes|) && b.resolved == m.resolved
    requires forall k | 0 <= k < |turn.outcomes| :: MayEnd(m, turn.outcomes[k])
    requires TurnScript(rows[|turns|], GroupOf(groups, rows[|turns|].id), turn.known, turn.trace, turn.outcomes)
    requires Makes(rows[|turns|], turn) ==> rows[|turns|].id in b.resolved
    ensures Told(b, rows, groups, turns + [turn], |turns| + 1)
  {
    hide TurnScript, Told, Decides;
    DecidesKeeps(a, m, b, rows[|turns|].id, turn.outcomes);
    OutcomesEnd(m, b, turn.outcomes);
    TurnHasOutcomes(rows[|turns|], GroupOf(groups, rows[|turns|].id), turn);
    assert (turns + [turn])[|turns|] == turn;
    ToldStep(a, b, rows, groups, turns, turn, |turns|, |turns| + 1);
  }

  lemma TurnHasOutcomes(c: Claimed, g: seq<Claimed>, turn: Step)
    requires TurnScript(c, g, turn.known, turn.trace, turn.outcomes)
    ensures turn.outcomes != []
  {
  }

  lemma PutBackTold(a: Live, b: Live, rows: seq<Claimed>, groups: map<int, seq<Claimed>>, turns: seq<Step>, cut: int,
      t0: Tally)
    requires cut <= |turns| < |rows| && Told(a, rows, groups, turns, cut) && 0 <= cut
    requires MidPass(a, rows, groups, t0, |turns|, cut) && rows[|turns|].id !in t0.finalized
    requires Decides(a, b, [Outcome(rows[|turns|], Revert)], 1)
    ensures Told(b, rows, groups, turns + [Step(a.resolved, [], [Outcome(rows[|turns|], Revert)])], cut)
  {
    var outcomes := [Outcome(rows[|turns|], Revert)];
    var turn := Step(a.resolved, [], outcomes);
    PutBackEnds(a, rows, groups, |turns|, cut, t0);
    RevertKeeps(a, b, rows[|turns|]);
    hide *;
    hide MidPass, Told, Decides, MayEnd;
    OutcomesEnd(a, b, outcomes);
    PutBackStep(a, b, rows, groups, turns, turn, cut);
  }

  lemma PutBackStep(a: Live, b: Live, rows: seq<Claimed>, groups: map<int, seq<Claimed>>, turns: seq<Step>,
      turn: Step, cut: int)
    requires cut <= |turns| < |rows| && Told(a, rows, groups, turns, cut) && Keeps(a, b)
    requires turn == Step(a.resolved, [], [Outcome(rows[|turns|], Revert)])
    requires forall k | 0 <= k < |turn.outcomes| :: Ends(b, turn.outcomes[k].c.id, turn.outcomes[k].decision)
    ensures Told(b, rows, groups, turns + [turn], cut)
  {
    hide Told, Keeps, Ends, TurnScript, Turn;
    assert (turns + [turn])[|turns|] == turn;
    ToldStep(a, b, rows, groups, turns, turn, cut, cut);
  }

  lemma RevertKeeps(a: Live, b: Live, c: Claimed)
    requires c.id !in a.decided && MayEnd(a, Outcome(c, Revert)) && Decides(a, b, [Outcome(c, Revert)], 1)
    requires forall id | id in a.again :: id in a.decided
    ensures Keeps(a, b)
  {
    forall x: int
      ensures x in a.decided ==> x in b.decided && b.decided[x] == a.decided[x]
      ensures x in a.again ==> x in b.again && b.again[x] == a.again[x]
    {
      RevertedAt(a, b, c, x);
    }
  }

  lemma SkipTold(l: Live, rows: seq<Claimed>, groups: map<int, seq<Claimed>>, turns: seq<Step>, t: Tally, cut: int,
      next: int)
    requires 0 <= cut <= |turns| < |rows| && MidPass(l, rows, groups, t, |turns|, cut)
    requires rows[|turns|].id in t.finalized && Told(l, rows, groups, turns, cut)
    requires next == cut || (cut == |turns| && next == cut + 1)
    ensures Told(l, rows, groups, turns + [Step(l.resolved, [], [])], next)
  {
    hide Told, Turn, Keeps;
    var turn := Step(l.resolved, [], []);
    assert DecidedAt(l.decided, rows, groups, |turns|, cut, rows[|turns|].id);
    assert (turns + [turn])[|turns|] == turn;
    KeepsSelf(l);
    ToldStep(l, l, rows, groups, turns, turn, cut, next);
  }

  lemma KeepsSelf(l: Live)
    ensures Keeps(l, l)
  {
  }

  lemma ApartTwice(a: Sys, b: Sys, c: Sys)
    requires Apart(a, b) && Apart(b, c)
    ensures Apart(a, c)
  {
  }

  class Dispatcher {
    const world: World

    constructor (world: World)
      ensures this.world == world
    {
      this.world := world;
    }

    /** adoptMailbox: takes over the mailbox the lookup found, or says why none can be. Anything but a
        single match is final; when it is the lookup that fails, its class decides. */
    method AdoptMailbox(c: Claimed, parent: string)
      returns (newId: string, failed: Option<Decision>, ghost answer: FindReply)
      requires Reachable(world.sys) && CallsCreate(world.sys, c.id) && world.sys.pass.live.claimed[c.id] == c
      requires Box(c.payload.name, parent) == AskedBox(world.sys, c.id)
      modifies world
      ensures Reachable(world.sys) && world.sys.pass.Running?
      ensures failed.Some? ==> world.sys.pass == old(world.sys.pass) && !failed.value.Deliver? && Sound(c, failed.value)
      ensures failed.None? ==>
                && world.sys.pass.live == old(world.sys.pass.live).(learned := world.sys.pass.live.learned)
                && world.sys.pass.live.learned == old(world.sys.pass.live.learned)[c.id := Bound(newId, parent)]
                    && newId != ""
      ensures world.calls == old(world.calls) + [Looked(answer)] && failed == Adopted(answer)
      ensures match answer
              case Found(ids) =>
                if |ids| == 1 then failed.None? && newId in ids else failed == Some(GiveUp(Server, ""))
              case FindFailed(failure) =>
                failed == Some(if failure == NotFound then GiveUp(NotFound, "") else Retry(failure, ""))
    {
      var found := world.FindMailboxes(c.id, c.payload.name, parent);
      answer := found;
      if found.FindFailed? { return "", Some(FailedOutcome(found.failure, "")), found; }
      if |found.ids| != 1 { return "", Some(GiveUp(Server, "")), found; }
      ghost var b := world.sys.pass.live.learned[c.id];
      assert b.id in found.ids;
      ClaimFacts(world.sys, c);
      newId :| newId in found.ids;
      failed := None;
    }

    /** The call that makes the mailbox, or the adoption of the one a refusal is about. */
    method LearnMailbox(c: Claimed, resolved: map<int, string>)
      returns (newId: string, failed: Option<Decision>, ghost trace: seq<Call>)
      requires Reachable(world.sys) && Ready(world.sys, c, resolved) && FreshCreate(c)
      modifies world
      ensures Reachable(world.sys) && world.sys.pass.Running?
      ensures world.sys.pass.live == old(world.sys.pass.live).(learned := world.sys.pass.live.learned)
      ensures failed.Some? ==> world.sys.pass.live == old(world.sys.pass.live)
      ensures failed.Some? ==> !failed.value.Deliver? && Sound(c, failed.value) && MakeScript(trace, failed)
      ensures failed.None? ==>
                && newId != "" && (exists parent ::
                    world.sys.pass.live.learned == old(world.sys.pass.live.learned)[c.id := Bound(newId, parent)])
                && forall ok :: MakeScript(trace + [Persisted(ok)], if ok then None else Some(STORE_FAILED))
      ensures world.calls == old(world.calls) + trace
    {
      var parent := c.parent;
      if c.payload.parentRef != 0 && parent == "" { parent := Get(resolved, c.payload.parentRef); }
      hide MakeScript, PersistScript, Reachable;
      var reply := world.CreateMailbox(c.id, c.payload.name, parent);
      trace := [Made(reply)];
      ghost var answer := FindFailed(Server);
      if reply.Refused? {
        MakeEnds(reply, answer);
        return "", Some(FailedOutcome(reply.failure, "")), trace;
      }
      failed := None;
      if reply.Created? {
        newId := reply.box;
      } else {
        newId, failed, answer := AdoptMailbox(c, parent);
        trace := [Made(reply), Looked(answer)];
        MakeEnds(reply, answer);
      }
      MakeRecords(reply, answer, true);
      MakeRecords(reply, answer, false);
    }

    /** The part of dispatchCreateMailbox a replay with its id skips: make or adopt the mailbox, and
        record its id in the row. */
    method MakeMailbox(c: Claimed, resolved: map<int, string>)
      returns (newId: string, failed: Option<Decision>, ghost trace: seq<Call>)
      requires Reachable(world.sys) && Ready(world.sys, c, resolved) && FreshCreate(c)
      modifies world
      ensures Reachable(world.sys) && world.sys.pass.Running?
      ensures Carries(old(world.sys.pass.live), world.sys.pass.live, c.id)
      ensures world.sys.pass.live.resolved == resolved && world.sys.pass.live.walks == old(world.sys.pass.live.walks)
      ensures failed.Some? ==> !failed.value.Deliver? && Sound(c, failed.value)
      ensures failed.None? ==> RowHoldsId(world.sys, c.id) && newId != ""
                               && c.id in world.sys.pass.live.learned && newId == world.sys.pass.live.learned[c.id].id
      ensures world.calls == old(world.calls) + trace && MakeScript(trace, failed)
    {
      hide MakeScript, Reachable;
      newId, failed, trace := LearnMailbox(c, resolved);
      if failed.Some? { return; }
      var ok := world.PersistPayload(c.id);
      failed := if ok then None else Some(FailedOutcome(StoreLocal, ""));
      trace := trace + [Persisted(ok)];
    }

    /** dispatchCreateMailbox: a payload that already carries its id repeats no call, but walks the
        references again, since an earlier attempt may have stopped before them. */
    method DispatchCreateMailbox(c: Claimed, known: map<int, string>)
      returns (d: Decision, resolved: map<int, string>, ghost trace: seq<Call>)
      requires Reachable(world.sys) && Ready(world.sys, c, known) && c.payload.CreateMailbox? && !c.preFailed
      modifies world
      ensures Reachable(world.sys) && Dispatched(old(world.sys.pass.live), world.sys, c, resolved, d)
      ensures world.calls == old(world.calls) + trace && CreateScript(c, trace, d)
    {
      hide MakeScript, CreateScript, Reachable;
      resolved, trace := known, [];
      var newId := c.payload.resolved;
      ClaimFacts(world.sys, c);
      if newId == "" {
        var made, failed;
        made, failed, trace := MakeMailbox(c, resolved);
        if failed.Some? {
          CreateFails(c, trace, failed.value);
          return failed.value, resolved, trace;
        }
        newId := made;
      }
      var ok;
      ok, resolved := WalkAndNote(c, newId, resolved);
      CreateEnds(c, trace, ok);
      trace := trace + [Walked(ok)];
      d := if ok then Deliver else FailedOutcome(StoreLocal, "");
    }

    /** The end of dispatchCreateMailbox: walk the references, and note the id for later turns. */
    method WalkAndNote(c: Claimed, newId: string, known: map<int, string>)
      returns (ok: bool, resolved: map<int, string>)
      requires Reachable(world.sys) && OpenCreate(world.sys, c.id) && RowHoldsId(world.sys, c.id)
      requires c.id !in world.sys.pass.live.walks && known == world.sys.pass.live.resolved
      requires newId != "" && newId == Known(world.sys.pass.live, c.id)
      modifies world
      ensures Reachable(world.sys) && OpenCreate(world.sys, c.id)
      ensures var a, b := old(world.sys.pass.live), world.sys.pass.live;
              && OnlyWalks(a, b.(resolved := a.resolved), c.id) && resolved == b.resolved
              && resolved == if ok then known[c.id := newId] else known
      ensures ok ==> c.id in world.sys.pass.live.walks && world.sys.pass.live.walks[c.id].done
      ensures world.calls == old(world.calls) + [Walked(ok)]
    {
      ok := world.ResolveDependentRefs(c.id);
      resolved := known;
      if ok {
        world.NoteResolved(c.id);
        resolved := resolved[c.id := newId];
      }
    }

    /** dispatchMoveMessages. */
    method DispatchMoveMessages(c: Claimed, resolved: map<int, string>) returns (d: Decision, ghost trace: seq<Call>)
      requires Reachable(world.sys) && Ready(world.sys, c, resolved) && c.payload.MoveMessages? && !c.preFailed
      modifies world
      ensures Reachable(world.sys) && Dispatched(old(world.sys.pass.live), world.sys, c, resolved, d)
      ensures world.calls == old(world.calls) + trace && MoveScript(c, resolved, trace, d)
      ensures trace == [] ==>
                c.dest == "" && (c.payload.destRef == 0 || c.payload.destRef !in resolved
                                 || resolved[c.payload.destRef] == "")
    {
      hide Reachable;
      trace := [];
      var dest := c.dest;
      if c.payload.destRef != 0 && dest == "" { dest := Get(resolved, c.payload.destRef); }
      if dest == "" { return FailedOutcome(NotFound, "move destination not resolved"), trace; }
      var reply := world.FileMessages([c], dest);
      trace := [Filed(reply)];
      if reply.CallFailed? { return FailedOutcome(reply.failure, ""), trace; }
      ClaimFacts(world.sys, c);
      d := MoveOutcome(c, reply.failed);
      assert [c][0] == c;
    }

    /** The requests of a batch: the create with its moves, and a second one for the moves alone when
        the create was refused for a mailbox already there. */
    method RequestBatch(create: Claimed, moves: seq<Claimed>, resolved: map<int, string>)
      returns (newId: string, refused: map<string, Class>, failed: Option<Decision>, ghost trace: seq<Call>)
      requires Reachable(world.sys) && Ready(world.sys, create, resolved) && FreshCreate(create)
      requires InBatch(world.sys, create.id, moves) && 1 + Objects(moves) <= world.limit
      modifies world
      ensures Reachable(world.sys) && world.sys.pass.Running?
      ensures Carries(old(world.sys.pass.live), world.sys.pass.live, create.id)
      ensures world.sys.pass.live.resolved == resolved && world.sys.pass.live.walks == old(world.sys.pass.live.walks)
      ensures failed.Some? ==> !failed.value.Deliver? && Sound(create, failed.value)
      ensures failed.None? ==> newId != "" && FiledUnless(world.sys.pass.live, moves, refused)
                               && create.id in world.sys.pass.live.learned
                                   && newId == world.sys.pass.live.learned[create.id].id
      ensures world.calls == old(world.calls) + trace && RequestScript(trace, refused, failed)
    {
      hide Reachable, Carries, Sound, RequestScript, FiledUnless;
      var parent := create.parent;
      if create.payload.parentRef != 0 && parent == "" { parent := Get(resolved, create.payload.parentRef); }
      newId, refused, failed := "", map[], None;
      var reply := world.CreateAndFile(create, parent, moves);
      trace := [Batched(reply)];
      RequestEnds(reply);
      if reply.BatchAnswered? && reply.create.NameExists? {
        SamePass(old(world.sys), world.sys, create.id, moves);
        newId, refused, failed, trace := AdoptBatch(create, moves, parent, reply);
        return;
      }
      hide *;
      if reply.BatchFailed? {
        SoundFailure(create, reply.failure);
        failed := Some(FailedOutcome(reply.failure, ""));
      } else if reply.create.Refused? {
        SoundFailure(create, reply.create.failure);
        failed := Some(FailedOutcome(reply.create.failure, ""));
      } else {
        newId, refused := reply.create.box, reply.failed;
        FiledUnlessRefused(world.sys.pass.live, moves, refused);
      }
    }

    /** A batch whose create was refused for a mailbox already there: adopt it, and make the moves
        again against it. */
    method AdoptBatch(create: Claimed, moves: seq<Claimed>, parent: string, ghost reply: BatchReply)
      returns (newId: string, refused: map<string, Class>, failed: Option<Decision>, ghost trace: seq<Call>)
      requires Reachable(world.sys) && CallsCreate(world.sys, create.id)
          && world.sys.pass.live.claimed[create.id] == create
      requires Box(create.payload.name, parent) == AskedBox(world.sys, create.id)
      requires reply.BatchAnswered? && reply.create.NameExists?
      requires InBatch(world.sys, create.id, moves) && Objects(moves) <= world.limit
      modifies world
      ensures Reachable(world.sys) && world.sys.pass.Running?
      ensures Carries(old(world.sys.pass.live), world.sys.pass.live, create.id)
      ensures world.sys.pass.live.resolved == old(world.sys.pass.live.resolved)
          && world.sys.pass.live.walks == old(world.sys.pass.live.walks)
      ensures failed.Some? ==> !failed.value.Deliver? && Sound(create, failed.value)
      ensures failed.None? ==> newId != "" && FiledUnless(world.sys.pass.live, moves, refused)
                               && create.id in world.sys.pass.live.learned
                                   && newId == world.sys.pass.live.learned[create.id].id
      ensures |trace| >= 1 && trace[0] == Batched(reply)
      ensures world.calls == old(world.calls) + trace[1..] && RequestScript(trace, refused, failed)
    {
      hide RequestScript, Reachable;
      refused := map[];
      ghost var answer;
      newId, failed, answer := AdoptMailbox(create, parent);
      trace := [Batched(reply), Looked(answer)];
      RequestAdopts(reply, answer, CallFailed(Server));
      if failed.Some? { return; }
      newId, refused, failed, trace := RefileAdopted(create, moves, newId, reply, answer);
      assert trace[1..] == [Looked(answer)] + trace[2..];
    }

    /** The moves of a batch made again against the mailbox its create adopted. */
    method RefileAdopted(create: Claimed, moves: seq<Claimed>, adopted: string, ghost reply: BatchReply,
        ghost answer: FindReply)
      returns (newId: string, refused: map<string, Class>, failed: Option<Decision>, ghost trace: seq<Call>)
      requires Reachable(world.sys) && OpenCreate(world.sys, create.id)
          && world.sys.pass.live.claimed[create.id] == create
      requires NeedsACreate(create) && create.payload.CreateMailbox?
      requires reply.BatchAnswered? && reply.create.NameExists? && Adopted(answer).None?
      requires InBatch(world.sys, create.id, moves) && Objects(moves) <= world.limit && adopted != ""
      requires create.id in world.sys.pass.live.learned && adopted == world.sys.pass.live.learned[create.id].id
      modifies world
      ensures Reachable(world.sys) && world.sys.pass.Running?
      ensures OnlyFiles(old(world.sys.pass.live), world.sys.pass.live)
      ensures failed.Some? ==> !failed.value.Deliver? && Sound(create, failed.value)
      ensures failed.None? ==> newId == adopted && FiledUnless(world.sys.pass.live, moves, refused)
      ensures |trace| == 3 && trace[..2] == [Batched(reply), Looked(answer)]
      ensures world.calls == old(world.calls) + trace[2..] && RequestScript(trace, refused, failed)
    {
      hide RequestScript, Reachable;
      newId, refused, failed := adopted, map[], None;
      BatchFileable(world.sys, create.id, moves, newId);
      var again := world.Refile(moves, newId);
      trace := [Batched(reply), Looked(answer), Filed(again)];
      RequestAdopts(reply, answer, again);
      if again.CallFailed? { return newId, refused, Some(FailedOutcome(again.failure, "")), trace; }
      refused := again.failed;
    }

    /** dispatchBatch: a create and the claimed moves into the mailbox it makes. */
    method DispatchBatch(create: Claimed, moves: seq<Claimed>, known: map<int, string>)
      returns (outcomes: seq<Outcome>, resolved: map<int, string>, ghost request: seq<Call>, ghost rest: seq<Call>)
      requires Reachable(world.sys) && Ready(world.sys, create, known) && FreshCreate(create)
      requires InBatch(world.sys, create.id, moves) && 1 + Objects(moves) <= world.limit
      modifies world
      ensures Reachable(world.sys) && world.sys.pass.Running?
      ensures Carries(old(world.sys.pass.live), world.sys.pass.live, create.id)
          && resolved == world.sys.pass.live.resolved
      ensures OneEach(create, moves, outcomes) && AllConclude(world.sys.pass.live, outcomes)
      ensures outcomes[0].decision.Deliver? ==> create.id in resolved
      ensures world.calls == old(world.calls) + (request + rest) && BatchScript(create, moves, request, rest, outcomes)
    {
      hide Reachable, Sound, Settled, RequestScript;
      resolved := known;
      var newId, refused, failed;
      newId, refused, failed, request := RequestBatch(create, moves, known);
      rest := [];
      if failed.Some? {
        FailBatchConcludes(world.sys.pass.live, create, moves, failed.value);
        assert request + rest == request;
        return FailBatch(create, moves, failed.value), resolved, request, rest;
      }
      outcomes, resolved, rest := SettleBatch(create, moves, known, newId, refused);
    }

    /** The part of dispatchBatch after the server answered: record the id, walk the references, and
        read each move's outcome. */
    method SettleBatch(create: Claimed, moves: seq<Claimed>, known: map<int, string>, newId: string,
        refused: map<string, Class>)
      returns (outcomes: seq<Outcome>, resolved: map<int, string>, ghost rest: seq<Call>)
      requires Reachable(world.sys) && OpenCreate(world.sys, create.id)
          && world.sys.pass.live.claimed[create.id] == create
      requires known == world.sys.pass.live.resolved && create.id !in world.sys.pass.live.walks
      requires InBatch(world.sys, create.id, moves) && FiledUnless(world.sys.pass.live, moves, refused)
      requires create.id in world.sys.pass.live.learned && newId == world.sys.pass.live.learned[create.id].id
          && newId != ""
      modifies world
      ensures Reachable(world.sys) && world.sys.pass.Running?
      ensures Carries(old(world.sys.pass.live), world.sys.pass.live, create.id)
          && resolved == world.sys.pass.live.resolved
      ensures OneEach(create, moves, outcomes) && AllConclude(world.sys.pass.live, outcomes) && create.id in resolved
      ensures world.calls == old(world.calls) + rest && Settled(create, moves, refused, rest, outcomes)
    {
      hide Settled, FailBatch, FiledUnless, Reachable, MoveDecided, AllConclude;
      SettledBadly(create, moves, refused);
      world.NoteResolved(create.id);
      resolved := known[create.id := newId];
      var ok;
      ok, rest := RecordAndWalk(create);
      FailBatchConcludes(world.sys.pass.live, create, moves, STORE_FAILED);
      if !ok { return FailBatch(create, moves, STORE_FAILED), resolved, rest; }
      BatchStays(old(world.sys), world.sys, create.id, moves, refused);
      outcomes := MoveOutcomes(create, moves, refused);
      SettledWell(create, moves, refused, outcomes);
    }

    /** Record a learned id in the create's row, then walk the references to it. */
    method RecordAndWalk(create: Claimed) returns (ok: bool, ghost rest: seq<Call>)
      requires Reachable(world.sys) && OpenCreate(world.sys, create.id)
          && world.sys.pass.live.claimed[create.id] == create
      requires create.id in world.sys.pass.live.learned && create.id !in world.sys.pass.live.walks
      modifies world
      ensures Reachable(world.sys) && OpenCreate(world.sys, create.id)
          && OnlyWalks(old(world.sys.pass.live), world.sys.pass.live, create.id)
      ensures ok ==> create.id in world.sys.pass.live.walks && world.sys.pass.live.walks[create.id].done
      ensures world.calls == old(world.calls) + rest
      ensures rest == if ok then [Persisted(true), Walked(true)] else if |rest| == 1 then [Persisted(false)]
          else [Persisted(true), Walked(false)]
    {
      ok := world.PersistPayload(create.id);
      rest := [Persisted(ok)];
      if !ok { return; }
      ok := world.ResolveDependentRefs(create.id);
      rest := [Persisted(true), Walked(ok)];
    }

    /** The outcomes of a batch the server answered: the create delivered, each move on its own. */
    method MoveOutcomes(create: Claimed, moves: seq<Claimed>, refused: map<string, Class>)
      returns (outcomes: seq<Outcome>)
      requires Reachable(world.sys) && OpenCreate(world.sys, create.id)
          && world.sys.pass.live.claimed[create.id] == create
      requires MayDeliver(world.sys.pass.live, create)
      requires InBatch(world.sys, create.id, moves) && FiledUnless(world.sys.pass.live, moves, refused)
      ensures OneEach(create, moves, outcomes) && AllConclude(world.sys.pass.live, outcomes)
      ensures outcomes[0].decision == Deliver
      ensures forall k | 0 <= k < |moves| ::
          moves[k].payload.MoveMessages? && MoveDecided(moves[k], refused, outcomes[k + 1].decision)
    {
      outcomes := [Outcome(create, Deliver)];
      for i := 0 to |moves|
        invariant |outcomes| == i + 1 && outcomes[0] == Outcome(create, Deliver)
            && AllConclude(world.sys.pass.live, outcomes)
        invariant forall k | 0 <= k < i :: outcomes[k + 1].c == moves[k] && moves[k].payload.MoveMessages?
                                           && MoveDecided(moves[k], refused, outcomes[k + 1].decision)
      {
        ClaimFacts(world.sys, moves[i]);
        var d := MoveOutcome(moves[i], refused);
        outcomes := outcomes + [Outcome(moves[i], d)];
      }
    }

    /** dispatchRenameMailbox and dispatchDeleteMailbox: delivered, the change is on the server. */
    method DispatchChange(c: Claimed, resolved: map<int, string>) returns (d: Decision, ghost trace: seq<Call>)
      requires Reachable(world.sys) && Ready(world.sys, c, resolved) && !c.preFailed
      requires c.payload.RenameMailbox? || c.payload.DeleteMailbox?
      modifies world
      ensures Reachable(world.sys) && Dispatched(old(world.sys.pass.live), world.sys, c, resolved, d)
      ensures d.Deliver? ==> ChangeMade(world.sys.server, c)
      ensures world.calls == old(world.calls) + trace && OneScript(c, resolved, trace, d)
    {
      var failed := world.ChangeMailbox(c.id);
      trace := [Acked(failed)];
      d := if failed.Some? then FailedOutcome(failed.value, "") else Deliver;
    }

    /** dispatchOne: an unknown kind is given up without a call. */
    method DispatchOne(c: Claimed, known: map<int, string>)
      returns (d: Decision, resolved: map<int, string>, ghost trace: seq<Call>)
      requires Reachable(world.sys) && Ready(world.sys, c, known) && !c.preFailed
      modifies world
      ensures Reachable(world.sys) && Dispatched(old(world.sys.pass.live), world.sys, c, resolved, d)
      ensures world.calls == old(world.calls) + trace && OneScript(c, known, trace, d)
    {
      resolved, trace := known, [];
      match c.payload
      case CreateMailbox(_, _, _, _, _) => d, resolved, trace := DispatchCreateMailbox(c, known);
      case RenameMailbox(_, _) => d, trace := DispatchChange(c, known);
      case DeleteMailbox(_) => d, trace := DispatchChange(c, known);
      case MoveMessages(_, _, _, _, _) => d, trace := DispatchMoveMessages(c, known);
      case UnknownKind(_) => d := GiveUp(StoreLocal, "unknown kind");
    }

    /** Records each outcome: its finalize action, its line in the report, and whether the connection
        turned out dead. */
    method Conclude(outcomes: seq<Outcome>, t0: Tally) returns (t: Tally, dead: bool)
      requires Reachable(world.sys) && world.sys.pass.Running? && Recordable(world.sys, outcomes)
      requires TallyOK(t0, world.sys.pass.live) && SecondsOK(world.sys.pass.live)
      modifies world
      ensures Reachable(world.sys) && world.sys.pass.Running?
      ensures Decides(old(world.sys.pass.live), world.sys.pass.live, outcomes, |outcomes|)
      ensures TallyOK(t, world.sys.pass.live)
      ensures dead <==> exists k | 0 <= k < |outcomes| :: Dead(outcomes[k].decision)
      ensures world.calls == old(world.calls)
    {
      hide TallyOK, Decides, Recordable, Enabled, After, SecondsOK, Conclusion;
      t, dead := t0, false;
      DecidesNone(world.sys.pass.live, outcomes);
      for k := 0 to |outcomes|
        invariant Reachable(world.sys) && world.sys.pass.Running? && TallyOK(t, world.sys.pass.live)
        invariant SecondsOK(world.sys.pass.live) && world.calls == old(world.calls)
        invariant Decides(old(world.sys.pass.live), world.sys.pass.live, outcomes, k)
        invariant dead <==> exists i | 0 <= i < k :: Dead(outcomes[i].decision)
      {
        var o := outcomes[k];
        ConcludeStep(old(world.sys), world.sys, outcomes, k, t);
        world.Record(o.c.id, o.decision);
        t := Tallied(t, o);
        dead := dead || Dead(o.decision);
      }
    }

    /** One turn of the pass: a claim that already failed, which calls nothing; a batch; or a single
        intent. */
    method DispatchTurn(c: Claimed, g: seq<Claimed>, known: map<int, string>)
      returns (outcomes: seq<Outcome>, resolved: map<int, string>, ghost trace: seq<Call>)
      requires Reachable(world.sys) && Ready(world.sys, c, known)
      requires g == [] || (FreshCreate(c) && InBatch(world.sys, c.id, g) && 1 + Objects(g) <= world.limit)
      modifies world
      ensures Reachable(world.sys) && world.sys.pass.Running?
      ensures Carries(old(world.sys.pass.live), world.sys.pass.live, c.id) && resolved == world.sys.pass.live.resolved
      ensures OneEach(c, g, outcomes) && AllConclude(world.sys.pass.live, outcomes)
      ensures c.payload.CreateMailbox? && outcomes[0].decision.Deliver? ==> c.id in resolved
      ensures world.calls == old(world.calls) + trace
      ensures TurnScript(c, g, known, trace, outcomes)
    {
      if c.preFailed {
        return [Outcome(c, FailedOutcome(NotFound, ""))], known, [];
      }
      if g != [] {
        ghost var request, rest;
        outcomes, resolved, request, rest := DispatchBatch(c, g, known);
        trace := request + rest;
        return;
      }
      var d, after;
      d, after, trace := DispatchOne(c, known);
      return [Outcome(c, d)], after, trace;
    }

    /** A turn that dispatches row i, and whatever rides in its batch. */
    method TakeTurn(rows: seq<Claimed>, groups: map<int, seq<Claimed>>, i: int, t0: Tally, known: map<int, string>,
                    ghost turns: seq<Step>)
      returns (t: Tally, resolved: map<int, string>, dead: bool, ghost turn: Step)
      requires 0 <= i < |rows| && |turns| == i && Planned(rows, |rows|, groups, world.limit)
      requires Reachable(world.sys) && world.sys.pass.Running? && known == world.sys.pass.live.resolved
      requires MidPass(world.sys.pass.live, rows, groups, t0, i, i)
      requires Told(world.sys.pass.live, rows, groups, turns, i)
      requires rows[i].id !in t0.finalized && !AnyDead(world.sys.pass.live)
      modifies world
      ensures Reachable(world.sys) && world.sys.pass.Running? && resolved == world.sys.pass.live.resolved
      ensures MidPass(world.sys.pass.live, rows, groups, t, i + 1, i + 1)
      ensures world.sys.pass.live.read == old(world.sys.pass.live.read)
      ensures dead <==> AnyDead(world.sys.pass.live)
      ensures Told(world.sys.pass.live, rows, groups, turns + [turn], i + 1)
      ensures world.calls == old(world.calls) + turn.trace
    {
      hide Reachable, MidPass, Planned, AnyDead, Recordable, TallyOK, Decides, CarriedRow, Turned, OneScript, SecondsOK;
      hide EarlyGivenUp, MayEnd, BatchScript, Claims, Ready, Carries;
      var g := GroupOf(groups, rows[i].id);
      ghost var a, s := world.sys.pass.live, world.sys;
      TurnOpens(world.sys, rows, groups, world.limit, i, t0);
      var outcomes, after;
      ghost var trace;
      outcomes, after, trace := DispatchTurn(rows[i], g, known);
      resolved := after;
      ghost var m := world.sys.pass.live;
      TurnRecordable(a, world.sys, rows[i], g, outcomes);
      TurnSplits(s, rows, groups, world.limit, i, t0, trace, outcomes);
      TallyCarries(a, m, rows[i].id, t0);
      t, dead := Conclude(outcomes, t0);
      TurnTaken(a, m, world.sys.pass.live, rows, groups, i, outcomes, t0, t);
      turn := Step(known, trace, outcomes);
      TurnTold(a, m, world.sys.pass.live, rows, groups, turns, turn);
    }

    /** A turn after the stop: row i goes back untouched. */
    method PutBack(rows: seq<Claimed>, groups: map<int, seq<Claimed>>, i: int, ghost cut: int, t0: Tally,
                   ghost turns: seq<Step>)
      returns (t: Tally, ghost turn: Step)
      requires 0 <= cut <= i < |rows| && |turns| == i
      requires Reachable(world.sys) && world.sys.pass.Running? && MidPass(world.sys.pass.live, rows, groups, t0, i, cut)
      requires rows[i].id !in t0.finalized && AnyDead(world.sys.pass.live)
      requires Told(world.sys.pass.live, rows, groups, turns, cut)
      modifies world
      ensures Reachable(world.sys) && world.sys.pass.Running?
          && world.sys.pass.live.resolved == old(world.sys.pass.live.resolved)
          && world.sys.pass.live.read == old(world.sys.pass.live.read)
      ensures MidPass(world.sys.pass.live, rows, groups, t, i + 1, cut) && AnyDead(world.sys.pass.live)
      ensures Told(world.sys.pass.live, rows, groups, turns + [turn], cut) && turn.trace == []
      ensures world.calls == old(world.calls)
    {
      hide *;
      var dead;
      var outcomes := [Outcome(rows[i], Revert)];
      ghost var a := world.sys.pass.live;
      BackIsRecordable(world.sys, rows, groups, i, cut, t0);
      t, dead := Conclude(outcomes, t0);
      ClaimsKept(a, world.sys.pass.live, rows, outcomes, 1);
      TurnPutBack(a, world.sys.pass.live, rows, groups, i, cut, t0, t);
      turn := Step(a.resolved, [], outcomes);
      PutBackTold(a, world.sys.pass.live, rows, groups, turns, cut, t0);
    }

    /** One turn: passed over, put back, or dispatched. */
    method OneTurn(rows: seq<Claimed>, groups: map<int, seq<Claimed>>, i: int, ghost cut0: int, t0: Tally,
                   known: map<int, string>, stopped0: bool, ghost read: StoreIds, ghost turns0: seq<Step>)
      returns (t: Tally, resolved: map<int, string>, stopped: bool, ghost cut: nat, ghost turns: seq<Step>)
      requires 0 <= cut0 <= i == |turns0| < |rows| && Planned(rows, |rows|, groups, world.limit)
      requires Reachable(world.sys) && InTurns(world.sys, rows, groups, t0, turns0, cut0, known, stopped0, read)
      modifies world
      ensures Reachable(world.sys) && cut <= i + 1 == |turns|
      ensures InTurns(world.sys, rows, groups, t, turns, cut, resolved, stopped, read)
      ensures world.calls == old(world.calls) + turns[i].trace && turns[..i] == turns0
    {
      hide MidPass, Reachable, AnyDead, Planned, Told;
      ghost var turn := Step(known, [], []);
      t, resolved, stopped, cut := t0, known, stopped0, cut0;
      if rows[i].id in t.finalized {
        cut := if stopped then cut else i + 1;
        PassedOver(world.sys.pass.live, rows, groups, world.limit, t, i, cut0, cut);
        SkipTold(world.sys.pass.live, rows, groups, turns0, t, cut0, cut);
      } else if stopped {
        t, turn := PutBack(rows, groups, i, cut, t, turns0);
      } else {
        t, resolved, stopped, turn := TakeTurn(rows, groups, i, t, resolved, turns0);
        cut := i + 1;
      }
      turns := turns0 + [turn];
    }

    /** The pass's loop over the rows it claimed. */
    method RunTurns(rows: seq<Claimed>, groups: map<int, seq<Claimed>>, ghost read: StoreIds)
      returns (t: Tally, resolved: map<int, string>, stopped: bool, ghost cut: nat, ghost turns: seq<Step>)
      requires Reachable(world.sys) && Planned(rows, |rows|, groups, world.limit)
      requires InTurns(world.sys, rows, groups, Tally([], Result([], []), {}), [], 0, map[], false, read)
      modifies world
      ensures Reachable(world.sys) && cut <= |rows| == |turns|
      ensures InTurns(world.sys, rows, groups, t, turns, cut, resolved, stopped, read)
      ensures world.calls == old(world.calls) + CallsOf(turns)
    {
      hide *;
      t, resolved, stopped, cut, turns := Tally([], Result([], []), {}), map[], false, 0, [];
      NoCalls();
      for i := 0 to |rows|
        invariant Reachable(world.sys) && cut <= i == |turns|
        invariant InTurns(world.sys, rows, groups, t, turns, cut, resolved, stopped, read)
        invariant world.calls == old(world.calls) + CallsOf(turns)
      {
        ghost var before := turns;
        t, resolved, stopped, cut, turns := OneTurn(rows, groups, i, cut, t, resolved, stopped, read, turns);
        assert turns == before + [turns[i]];
        CallsGrow(before, turns[i]);
      }
    }

    /** DispatchOnce: claim what is eligible, dispatch it in id order, finalize every claimed row. A
        pass that finds nothing to claim writes nothing. */
    method DispatchOnce(now: int, mailboxes: map<int, string>, messages: map<int, string>)
      returns (ok: bool, result: Result, ghost pass: Record)
      requires Reachable(world.sys) && world.sys.pass == Idle && world.limit >= 1
      modifies world
      ensures Reachable(world.sys) && world.sys.pass == Idle
      ensures !ok || pass.NoPass? ==> result == Result([], [])
      ensures pass.NoPass? ==> Apart(old(world.sys), world.sys)
      ensures pass.NoPass? && ok ==> forall id | id in world.sys.rows && world.sys.rows[id].account == world.sys.me ::
                world.sys.rows[id].state != Queued || world.sys.rows[id].nextAt > now
      ensures pass.NoPass? && !ok ==>
                world.calls == old(world.calls) + [Probed(false)]
                || world.calls == old(world.calls) + [Probed(true), ClaimTried(false)]
      ensures pass.Record? ==> pass.at.pass.Running? && pass.at.pass.live.read == StoreIds(mailboxes, messages)
      ensures ok && pass.Record? ==> PassDone(pass, result, now, world.limit, world.sys)
      ensures !ok && pass.Record? ==> PassUndone(pass, now, world.limit, world.sys)
      ensures pass.Record? && ok ==>
                world.calls
                  == old(world.calls) + [Probed(true), ClaimTried(true)] + CallsOf(pass.turns) + [Applied(true)]
      ensures pass.Record? && !ok ==>
                exists restored | world.calls == old(world.calls) + [Probed(true), ClaimTried(true)]
                                                   + CallsOf(pass.turns) + [Applied(false), restored] ::
                  Restoring(pass.at, world.sys, restored, now)
    {
      hide Reachable, PassDone, PassUndone, Restoring, ClaimedSeq, ClaimedFrom, Queries;
      ok, result, pass := true, Result([], []), NoPass;
      var eligible;
      ghost var seen;
      ok, eligible, seen := world.HasEligibleIntents(now);
      if !ok || !eligible { return; }
      var claimed, rows;
      ghost var ids, start;
      claimed, rows, ids, start := world.Claim(now, mailboxes, messages);
      if !claimed || rows == [] { ApartTwice(old(world.sys), seen, start); }
      if !claimed || rows == [] { return claimed, result, pass; }

      assert world.calls == old(world.calls) + [Probed(true), ClaimTried(true)];
      ok, result, pass := DispatchClaimed(now, rows, ids, start);
    }

    /** The rest of DispatchOnce, once something is claimed. */
    method DispatchClaimed(now: int, rows: seq<Claimed>, ghost ids: seq<int>, ghost start: Sys)
      returns (ok: bool, result: Result, ghost pass: Record)
      requires Reachable(world.sys) && world.limit >= 1 && rows != [] && ClaimedSeq(world.sys, rows, ids)
      requires TakesOldest(start, now, ids) && ClaimedFrom(start, rows)
      modifies world
      ensures Reachable(world.sys) && world.sys.pass == Idle
      ensures pass.Record? && pass.at.pass.Running? && pass.at.pass.live.read == old(world.sys.pass.live.read)
      ensures ok ==> world.calls == old(world.calls) + CallsOf(pass.turns) + [Applied(true)]
      ensures !ok ==>
                exists restored | world.calls == old(world.calls) + CallsOf(pass.turns) + [Applied(false), restored] ::
                  Restoring(pass.at, world.sys, restored, now)
      ensures ok ==> PassDone(pass, result, now, world.limit, world.sys)
      ensures !ok ==> result == Result([], []) && PassUndone(pass, now, world.limit, world.sys)
    {
      result := Result([], []);
      hide Reachable;
      FreshPass(world.sys, rows, ids, map[]);
      var groups := PlanBatches(rows, world.limit);
      FreshPass(world.sys, rows, ids, groups);
      var t, resolved, stopped;
      ghost var cut, turns;
      t, resolved, stopped, cut, turns := RunTurns(rows, groups, world.sys.pass.live.read);
      AllDecided(world.sys, rows, groups, cut);
      ghost var at;
      ok, at := world.Finalize(t.actions, now);
      pass := Record(start, rows, groups, turns, cut, at);
      assert ClaimedIn(start, now, rows);
      if ok { result := t.result; }
    }
  }
}
