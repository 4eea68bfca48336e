/** How long an intent waits over whole runs: its attempts count its retries, and its k-th retry waits
    min(2^(k-1), 30) seconds. */
module OutboxRetries {
  import opened OutboxRows
  import opened OutboxMachine
  import opened OutboxInvariant
  import opened OutboxClaims
  import opened OutboxSteps
  import opened OutboxTheorems
  import Backoff

  /** Event e puts intent n's row back for another attempt: a finalize, or the recovery of a failed one, of
      a pass that decided to retry it. */
  predicate RetriedBy(s: Sys, e: Event, n: int) {
    && s.pass.Running? && 0 <= n < |s.hist.log|
    && var l, id := s.pass.live, s.hist.log[n].id;
       && id in l.claimed && l.claimed[id].serial == n && id in l.decided
       && ((e.Finalize? && l.decided[id].Retry?)
           || (e.Recover? && (l.decided[id].Retry? || (id in l.again && l.again[id].Retry?))))
  }

  /** How often a run puts intent n's row back for another attempt. */
  function Retries(s: Sys, es: seq<Event>, t: Sys, n: int): nat
    requires Runs(s, es, t)
    decreases |es|
  {
    if es == [] then 0
    else (if RetriedBy(s, es[0], n) then 1 else 0) + Retries(After(s, es[0]), es[1..], t, n)
  }

  predicate Queueing(s: Sys, n: int) { 0 <= n < |s.hist.log| && InTable(s, n) }

  /** The attempts on intent n's row: none before it is enqueued. */
  function Attempts(s: Sys, n: int): int { if Queueing(s, n) then s.rows[s.hist.log[n].id].attempts else 0 }

  /** What an event leaves of the attempts and the time of an intent that stays. */
  predicate Waits(s: Sys, e: Event, n: int)
    requires Enabled(s, e)
  {
    var t := After(s, e);
    Queueing(t, n) ==>
      && Attempts(t, n) == Attempts(s, n) + (if RetriedBy(s, e, n) then 1 else 0)
      && (Queueing(s, n) && !RetriedBy(s, e, n) ==>
            t.rows[s.hist.log[n].id].nextAt == s.rows[s.hist.log[n].id].nextAt)
  }

  /** A retried row: queued, one attempt on, and due once min(2^attempts, 30) seconds are over. */
  predicate PutOff(r: Row, after: Row, now: int) {
    && after.state == Queued && after.attempts == r.attempts + 1
    && after.nextAt == now + Backoff.Min(Backoff.Pow2(r.attempts), 30)
  }

  lemma FinalizePutsOff(rows: Table, l: Live, now: int, id: int)
    requires id in rows && id in l.claimed && id in l.decided && l.decided.Keys <= l.claimed.Keys
    requires rows[id].attempts == l.claimed[id].attempts
    ensures l.decided[id].Retry? ==>
              var after := FinalizeRows(rows, l, now);
              id in after && PutOff(rows[id], after[id], now)
              && after[id].account == rows[id].account && after[id].serial == rows[id].serial
    ensures l.decided[id].Retry? || (id in l.again && l.again[id].Retry?) ==>
              var after := RecoverRows(rows, l, now);
              id in after && PutOff(rows[id], after[id], now)
              && after[id].account == rows[id].account && after[id].serial == rows[id].serial
  {
    Backoff.DelayIsCappedDoubling(l.claimed[id].attempts);
  }

  lemma RetriedIsPutOff(s: Sys, e: Event, n: int)
    requires Inv(s) && ReadsOK(s) && Enabled(s, e) && RetriedBy(s, e, n)
    ensures Queueing(s, n) && Queueing(After(s, e), n)
    ensures var id := s.hist.log[n].id; PutOff(s.rows[id], After(s, e).rows[id], e.now)
  {
    hide Core, Settle, WalkOK, FiledOK, CarriedOut, Answers, Follows, LearnedOK, Reads, FinalizeRows, RecoverRows,
      PutOff;
    var id := s.hist.log[n].id;
    assert ClaimedOK(s.me, s.rows, s.server, s.hist, id, s.pass.live.claimed[id]);
    SettleFates(s.hist, s.pass.live);
    FinalizePutsOff(s.rows, s.pass.live, e.now, id);
  }

  lemma FinalizeStaysPut(rows: Table, l: Live, now: int, id: int)
    requires id in rows && l.decided.Keys <= l.claimed.Keys
    ensures !(id in l.decided && l.decided[id].Retry?) && id in FinalizeRows(rows, l, now) ==>
              var after := FinalizeRows(rows, l, now)[id];
              after.attempts == rows[id].attempts && after.nextAt == rows[id].nextAt
    ensures !(id in l.decided && (l.decided[id].Retry? || (id in l.again && l.again[id].Retry?))) ==>
              id in RecoverRows(rows, l, now)
              && var after := RecoverRows(rows, l, now)[id];
                 after.attempts == rows[id].attempts && after.nextAt == rows[id].nextAt
  {
  }

  /** The row keeps its attempts and its time. */
  predicate SameWait(r: Row, after: Row) { after.attempts == r.attempts && after.nextAt == r.nextAt }

  lemma EndStaysPut(s: Sys, e: Event, id: int)
    requires Enabled(s, e) && (e.Finalize? || e.Recover?) && id in s.rows && id in After(s, e).rows
    requires !(id in s.pass.live.decided && s.pass.live.decided[id].Retry?)
    requires e.Recover? ==>
               !(id in s.pass.live.decided && id in s.pass.live.again && s.pass.live.again[id].Retry?)
    ensures SameWait(s.rows[id], After(s, e).rows[id])
  {
    hide Settle, FinalizeRows, RecoverRows;
    FinalizeStaysPut(s.rows, s.pass.live, e.now, id);
  }

  lemma RestStaysPut(s: Sys, e: Event, id: int)
    requires Enabled(s, e) && !e.Finalize? && !e.Recover? && !e.Page?
    requires id in s.rows && s.rows[id].account == s.me && id in After(s, e).rows
    ensures SameWait(s.rows[id], After(s, e).rows[id])
  {
    hide AfterPage, Settle, FinalizeRows, RecoverRows;
  }

  lemma OthersStayPut(s: Sys, e: Event, n: int)
    requires Inv(s) && Enabled(s, e) && !RetriedBy(s, e, n) && Queueing(s, n) && Queueing(After(s, e), n)
    ensures var id := s.hist.log[n].id; id in After(s, e).rows && SameWait(s.rows[id], After(s, e).rows[id])
  {
    hide After, Enabled, Inv, SameWait;
    var id := s.hist.log[n].id;
    LogStays(s, e, n);
    if e.Finalize? || e.Recover? {
      NotItsRetry(s, e, n);
      EndStaysPut(s, e, id);
    } else if e.Page? {
      PageStaysPut(s, e.id, id);
    } else {
      RestStaysPut(s, e, id);
    }
  }

  /** A claimed row is its own intent's, so that a pass which retried the row retried the intent. */
  lemma NotItsRetry(s: Sys, e: Event, n: int)
    requires Inv(s) && Enabled(s, e) && (e.Finalize? || e.Recover?) && !RetriedBy(s, e, n) && Queueing(s, n)
    ensures var l, id := s.pass.live, s.hist.log[n].id;
            && !(id in l.decided && l.decided[id].Retry?)
            && (e.Recover? ==> !(id in l.decided && id in l.again && l.again[id].Retry?))
  {
    hide Core, WalkOK, FiledOK, CarriedOut, Answers, Follows, LearnedOK;
    var id := s.hist.log[n].id;
    if id in s.pass.live.claimed { assert ClaimedOK(s.me, s.rows, s.server, s.hist, id, s.pass.live.claimed[id]); }
  }

  lemma PageStaysPut(s: Sys, create: int, id: int)
    requires Enabled(s, Page(create)) && id in s.rows
    ensures var rows := After(s, Page(create)).rows;
            id in rows && SameWait(s.rows[id], rows[id])
  {
    hide PageAfter;
  }

  lemma LogStays(s: Sys, e: Event, n: int)
    requires Enabled(s, e) && 0 <= n < |s.hist.log|
    ensures n < |After(s, e).hist.log| && After(s, e).hist.log[n] == s.hist.log[n] && After(s, e).me == s.me
  {
    hide PageAfter, PatchPage;
  }

  /** An intent is in the table for the first time right after its enqueue, never attempted. */
  lemma NewIsUntried(s: Sys, e: Event, n: int)
    requires Inv(s) && Enabled(s, e) && !Queueing(s, n) && Queueing(After(s, e), n)
    ensures Attempts(After(s, e), n) == 0 && !RetriedBy(s, e, n)
  {
    hide SettledOK, WalkOK, FiledOK, CarriedOut, Answers, Follows, LearnedOK, RefsOK, BoundOK, PageAfter;
    if n < |s.hist.log| {
      IntentHasFate(s, n);
      StepKeepsFates(s, e, n);
      StepKeeps(s, e);
    }
  }

  lemma IntentHasFate(s: Sys, n: int)
    requires Inv(s) && 0 <= n < |s.hist.log| && !Queueing(s, n)
    ensures n in s.hist.fate
  {
  }

  lemma StepWaits(s: Sys, e: Event, n: int)
    requires Inv(s) && ReadsOK(s) && Enabled(s, e)
    ensures Waits(s, e, n)
  {
    hide After, Enabled, Inv, ReadsOK, RetriedBy, InTable;
    if Queueing(After(s, e), n) {
      if !Queueing(s, n) {
        NewIsUntried(s, e, n);
      } else if RetriedBy(s, e, n) {
        RetriedIsPutOff(s, e, n);
        LogStays(s, e, n);
      } else {
        OthersStayPut(s, e, n);
        LogStays(s, e, n);
      }
    }
  }

  /** An intent that is over is in no later state's table. */
  lemma {:induction false} OverIsGone(s: Sys, es: seq<Event>, t: Sys, n: int)
    requires Inv(s) && Runs(s, es, t) && n in s.hist.fate
    ensures !Queueing(t, n)
    decreases |es|
  {
    hide After, Enabled;
    if es == [] {
      IntentIsOver(s, n);
    } else {
      StepKeeps(s, es[0]);
      StepKeepsFates(s, es[0], n);
      OverIsGone(After(s, es[0]), es[1..], t, n);
    }
  }

  lemma IntentIsOver(s: Sys, n: int)
    requires Inv(s) && n in s.hist.fate
    ensures !Queueing(s, n)
  {
  }

  /** What one step adds to the attempts of an intent that is in the table when the run ends. */
  lemma StepAdds(s: Sys, e: Event, es: seq<Event>, t: Sys, n: int)
    requires Inv(s) && ReadsOK(s) && Enabled(s, e) && Runs(After(s, e), es, t) && Queueing(t, n)
    ensures Attempts(After(s, e), n) == Attempts(s, n) + (if RetriedBy(s, e, n) then 1 else 0)
  {
    hide After, Enabled, Inv, ReadsOK, RetriedBy, InTable;
    StepKeeps(s, e);
    StepWaits(s, e, n);
    if !Queueing(After(s, e), n) {
      if Queueing(s, n) {
        LogStays(s, e, n);
        IntentHasFate(After(s, e), n);
        OverIsGone(After(s, e), es, t, n);
      } else if RetriedBy(s, e, n) {
        RetriedIsPutOff(s, e, n);
      }
    }
  }

  lemma {:induction false} AttemptsCount(s: Sys, es: seq<Event>, t: Sys, n: int)
    requires Inv(s) && ReadsOK(s) && Runs(s, es, t) && Queueing(t, n)
    ensures Attempts(t, n) == Attempts(s, n) + Retries(s, es, t, n)
    decreases |es|
  {
    hide After, Enabled, Inv, ReadsOK, Queueing, RetriedBy, Attempts;
    if es != [] {
      StepKeeps(s, es[0]);
      StepKeepsReads(s, es[0]);
      StepAdds(s, es[0], es[1..], t, n);
      AttemptsCount(After(s, es[0]), es[1..], t, n);
    }
  }

  /** Over a whole run from an empty table a row's attempts are the retries of its intent. */
  lemma AttemptsCountRetries(s: Sys, es: seq<Event>, t: Sys, n: int)
    requires Initial(s) && Runs(s, es, t) && Queueing(t, n)
    ensures t.rows[t.hist.log[n].id].attempts == Retries(s, es, t, n)
  {
    AttemptsCount(s, es, t, n);
  }

  /** The k-th time a run puts an intent back for another attempt, the intent waits min(2^(k-1), 30)
      seconds from the pass's time on. */
  lemma KthRetryWaits(s: Sys, es: seq<Event>, t: Sys, e: Event, n: int)
    requires Initial(s) && Runs(s, es, t) && Enabled(t, e) && RetriedBy(t, e, n)
    ensures var k := Retries(s, es, t, n) + 1; var u := After(t, e);
            && Queueing(u, n) && u.rows[u.hist.log[n].id].state == Queued
            && u.rows[u.hist.log[n].id].attempts == k
            && u.rows[u.hist.log[n].id].nextAt == e.now + Backoff.Min(Backoff.Pow2(k - 1), 30)
  {
    hide Retries, Settle;
    assert Reachable(t);
    ReachableInv(t);
    ReachableReads(t);
    RetriedIsPutOff(t, e, n);
    LogStays(t, e, n);
    AttemptsCountRetries(s, es, t, n);
  }
}
