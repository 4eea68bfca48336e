/** The push transport's reopen schedule, and what of its failures is surfaced. */
module Push {
  import opened Common
  import Backoff

  /** A failure recorded, and whether it was surfaced. */
  datatype Record = Record(failure: Class, surfaced: bool)

  /** What happens to the transport: a Listen that failed (with no record when the worker was shutting
      down), a stream's end before or after it proved itself, its proof, and a wait before a reopen. */
  datatype Event =
    | Refused(record: Option<Record>)
    | UnprovedStop(record: Option<Record>)
    | ProvedStop
    | Proof
    | Waited(attempt: nat)

  const UNPROVED_STOPS: nat := 2

  function Recorded(e: Event): Option<Record> {
    match e
    case Refused(record) => record
    case UnprovedStop(record) => record
    case _ => None
  }

  /** The failure standing after a history: the last recorded, None once a stream has proved itself. */
  function Standing(log: seq<Event>): Option<Class> {
    if log == [] then None
    else
      var e := log[|log| - 1];
      if e == Proof then None
      else if Recorded(e).Some? then Some(Recorded(e).value.failure)
      else Standing(log[..|log| - 1])
  }

  /** Listen failures and unproved stops since the last proof. */
  function Attempts(log: seq<Event>): nat {
    if log == [] then 0
    else
      match log[|log| - 1]
      case Proof => 0
      case Refused(_) => Attempts(log[..|log| - 1]) + 1
      case UnprovedStop(_) => Attempts(log[..|log| - 1]) + 1
      case _ => Attempts(log[..|log| - 1])
  }

  /** Unproved stops in a row: since the last failure recorded, proof or proved stop. */
  function Run(log: seq<Event>): nat {
    if log == [] then 0
    else
      var e := log[|log| - 1];
      if Recorded(e).Some? || e == Proof || e == ProvedStop then 0
      else Run(log[..|log| - 1]) + if e.UnprovedStop? then 1 else 0
  }

  /** The last stream proved itself and has not ended. */
  predicate Proved(log: seq<Event>) { log != [] && log[|log| - 1] == Proof }

  /** The transport may be opened: nothing has happened yet, or a wait was the last thing that did. */
  predicate Opening(log: seq<Event>) { log == [] || log[|log| - 1].Waited? }

  /** There is no stream: the last Listen failed, or the last stream has ended. */
  predicate Closed(log: seq<Event>) { !Opening(log) && !Proved(log) }

  /** What an event after a history must be. A failure is surfaced exactly when it opens an episode or
      changes its class; an unproved stop is a connection failure exactly when it is the second in a
      row; a stop counts as proved exactly after a proof; a wait follows a refusal or a stop, and draws on
      the attempts before it, a refusal's own not yet counted; and whatever a new stream brings, or its
      refusal, comes only after a wait. */
  predicate InOrder(log: seq<Event>, e: Event) {
    && (Recorded(e).Some? ==> (Recorded(e).value.surfaced <==> Standing(log) != Some(Recorded(e).value.failure)))
    && match e
       case UnprovedStop(record) =>
         Opening(log) && (record.Some? <==> Run(log) + 1 >= UNPROVED_STOPS)
             && (record.Some? ==> record.value.failure == Connection)
       case ProvedStop => Proved(log)
       case Waited(attempt) =>
         Closed(log) && Attempts(log) == attempt + if log[|log| - 1].Refused? then 1 else 0
       case _ => Opening(log)
  }

  predicate LogOK(log: seq<Event>) { forall i | 0 <= i < |log| :: InOrder(log[..i], log[i]) }

  predicate Surfaced(e: Event) { Recorded(e).Some? && Recorded(e).value.surfaced }

  /** A class recorded stands until a proof or another surfacing. */
  lemma {:induction false} StillStanding(log: seq<Event>, i: nat, j: nat)
    requires LogOK(log) && i < j <= |log| && Recorded(log[i]).Some?
    requires forall k | i < k < j :: log[k] != Proof && !Surfaced(log[k])
    ensures Standing(log[..j]) == Some(Recorded(log[i]).value.failure)
  {
    assert log[..j][|log[..j]| - 1] == log[j - 1] && log[..j][..j - 1] == log[..j - 1];
    if j - 1 > i {
      StillStanding(log, i, j - 1);
      assert InOrder(log[..j - 1], log[j - 1]);
    }
  }

  /** Two surfacings of one class in a row always have a proved stream between them. */
  lemma ProofBetweenSurfacings(log: seq<Event>, i: nat, j: nat)
    requires LogOK(log) && i < j < |log| && Surfaced(log[i]) && Surfaced(log[j])
    requires Recorded(log[i]).value.failure == Recorded(log[j]).value.failure
    requires forall k | i < k < j :: !Surfaced(log[k])
    ensures exists k :: i < k < j && log[k] == Proof
  {
    assert InOrder(log[..j], log[j]);
    if forall k | i < k < j :: log[k] != Proof {
      StillStanding(log, i, j);
    }
  }

  /** There is always a wait between two attempts to open the transport: the one pair of events with none
      between them is a stream's proof and its stop. */
  lemma WaitBetweenOpenings(log: seq<Event>, i: nat)
    requires LogOK(log) && i + 1 < |log| && !log[i].Waited? && !log[i + 1].Waited?
    ensures log[i] == Proof && log[i + 1] == ProvedStop
  {
    assert InOrder(log[..i + 1], log[i + 1]) && log[..i + 1][i] == log[i];
  }

  lemma OneMore(log: seq<Event>, e: Event)
    requires LogOK(log) && InOrder(log, e)
    ensures LogOK(log + [e]) && (log + [e])[..|log|] == log && (log + [e])[|log|] == e
  {
    forall i | 0 <= i < |log + [e]| ensures InOrder((log + [e])[..i], (log + [e])[i]) {
      assert (log + [e])[..i] == if i == |log| then log else log[..i];
    }
  }

  /** A wait moves neither the schedule nor the standing failure. */
  lemma AWaitChangesNothing(log: seq<Event>, attempt: nat)
    requires Closed(log)
    ensures var after := log + [Waited(attempt)];
            && Attempts(after) == Attempts(log) && Standing(after) == Standing(log) && Run(after) == Run(log)
            && Proved(after) == Proved(log) && Opening(after)
  {
    assert (log + [Waited(attempt)])[..|log|] == log;
  }

  class PushState {
    var failing: bool
    var standing: Class
    var attempt: nat
    var unproved: nat
    var justProved: bool
    ghost var log: seq<Event>

    /** The history is in order, and the fields are what it says but for `attempt`. */
    ghost predicate Follows()
      reads this
    {
      && LogOK(log) && (if failing then Standing(log) == Some(standing) else Standing(log) == None)
      && unproved == Run(log) && justProved == Proved(log)
    }

    /** Between two events `attempt` is the Listen failures and unproved stops since the last proof. */
    ghost predicate Valid()
      reads this
    {
      Follows() && attempt == Attempts(log)
    }

    constructor ()
      ensures Valid() && log == []
    {
      failing, standing, attempt, unproved, justProved, log := false, Connection, 0, 0, false, [];
    }

    /** fail, of a failure that is not the worker shutting down: whether it is surfaced. */
    method Fail(c: Class) returns (surfaced: bool)
      requires if failing then Standing(log) == Some(standing) else Standing(log) == None
      modifies this`failing, this`standing, this`unproved
      ensures surfaced <==> Standing(log) != Some(c)
      ensures failing && standing == c && unproved == 0
    {
      unproved := 0;
      surfaced := !failing || c != standing;
      if surfaced {
        failing := true;
        standing := c;
      }
    }

    /** A Listen that failed, recorded but not yet counted. */
    method Refuse(failure: Option<Class>) returns (ghost record: Option<Record>)
      requires Valid() && Opening(log)
      modifies this
      ensures Follows() && Attempts(log) == attempt + 1 && attempt == old(attempt)
      ensures log == old(log) + [Refused(record)]
      ensures (record.None? <==> failure.None?) && (failure.Some? ==> record.value.failure == failure.value)
    {
      record := None;
      if failure.Some? {
        var surfaced := Fail(failure.value);
        record := Some(Record(failure.value, surfaced));
      }
      OneMore(log, Refused(record));
      log := log + [Refused(record)];
    }

    /** One turn of reconnect's loop after a Listen that failed: record it, wait, count it. A wait cut
        short ends the run with the attempt uncounted. */
    method Retry(failure: Option<Class>, minDelay: int, maxDelay: int)
      returns (more: bool, bound: int, ghost record: Option<Record>)
      requires Valid() && Opening(log) && 0 <= minDelay && 0 <= maxDelay && 2 * maxDelay < Backoff.TWO63
      modifies this
      ensures LogOK(log) && Opening(log) && (more ==> Valid())
      ensures bound == Backoff.Schedule(minDelay, maxDelay, Attempts(old(log)))
      ensures log == old(log) + [Refused(record)] + [Waited(old(attempt))]
      ensures (record.None? <==> failure.None?) && (failure.Some? ==> record.value.failure == failure.value)
    {
      record := Refuse(failure);
      bound := Backoff.ReopenBound(attempt, minDelay, maxDelay);
      assert log[|log| - 1] == Refused(record);
      assert attempt == Attempts(old(log));
      OneMore(log, Waited(attempt));
      AWaitChangesNothing(log, attempt);
      hide *;
      log := log + [Waited(attempt)];
      more := *;
      if more { attempt := attempt + 1; }
    }

    /** stopped: the stream ended. */
    method Stopped()
      requires Valid() && (Proved(log) || Opening(log))
      modifies this
      ensures Valid()
      ensures if Proved(old(log)) then log == old(log) + [ProvedStop] && attempt == old(attempt)
              else (exists record :: log == old(log) + [UnprovedStop(record)]) && attempt == old(attempt) + 1
    {
      if justProved {
        OneMore(log, ProvedStop);
        justProved := false;
        unproved := 0;
        log := log + [ProvedStop];
        return;
      }
      unproved := unproved + 1;
      attempt := attempt + 1;
      var record: Option<Record> := None;
      if unproved >= UNPROVED_STOPS {
        var surfaced := Fail(Connection);
        record := Some(Record(Connection, surfaced));
      }
      OneMore(log, UnprovedStop(record));
      log := log + [UnprovedStop(record)];
    }

    /** proved: the stream has stayed open long enough. */
    method Prove()
      requires Valid() && Opening(log)
      modifies this
      ensures Valid() && log == old(log) + [Proof] && attempt == 0 && !failing
    {
      OneMore(log, Proof);
      failing := false;
      attempt, unproved, justProved := 0, 0, true;
      log := log + [Proof];
    }

    /** RunPush's wait after a stream that ended, its stop already counted. */
    method TailWait(minDelay: int, maxDelay: int) returns (slept: bool, bound: int)
      requires Valid() && Closed(log) && !log[|log| - 1].Refused?
      requires 0 <= minDelay && 0 <= maxDelay && 2 * maxDelay < Backoff.TWO63
      modifies this`log
      ensures Valid() && Opening(log) && log == old(log) + [Waited(attempt)]
      ensures bound == Backoff.Schedule(minDelay, maxDelay, Attempts(old(log)))
    {
      bound := Backoff.ReopenBound(attempt, minDelay, maxDelay);
      OneMore(log, Waited(attempt));
      log := log + [Waited(attempt)];
      slept := *;
    }

    /** RunPush: reopen until a stream is in force, hold it, note its end, wait, and again, for as long
        as the worker runs. Whatever the transport does, the history stays in order and the schedule
        counts what it should. */
    method RunPush(minDelay: int, maxDelay: int, turns: nat)
      requires Valid() && Opening(log) && 0 <= minDelay && 0 <= maxDelay && 2 * maxDelay < Backoff.TWO63
      modifies this
      ensures LogOK(log) && old(log) <= log
    {
      hide InOrder, Standing, Attempts, Run;
      var left := turns;
      while left > 0
        invariant Valid() && Opening(log) && old(log) <= log
        decreases left
      {
        left := left - 1;
        var connected: bool := *;
        if !connected {
          var failure: Option<Class> := *;
          var more, bound;
          ghost var record;
          more, bound, record := Retry(failure, minDelay, maxDelay);
          if !more { return; }
        } else {
          var proves: bool := *;
          if proves { Prove(); }
          var ends: bool := *;
          if !ends { return; }
          Stopped();
          var slept, bound := TailWait(minDelay, maxDelay);
          if !slept { return; }
        }
      }
    }
  }
}
