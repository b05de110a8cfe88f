/** The retrier as the object its reader and writer threads update under the mutex. */
module RetrierCell {
  import opened Common
  import opened Retrier

  class RetryingConn {
    const maxRetries: nat
    const canRetry: bool
    const multidial: bool
    const dialers: nat
    var conn: Option<Conn>
    var tee: Bytes
    var retryCount: nat
    var nextDialer: nat
    var retryWriteErr: bool
    var done: bool
    var waiting: Option<Pending>
    ghost var signals: nat
    var replayed: Bytes
    ghost var lossy: bool
    var late: Bytes

    /** A retrier around its provisional connection, made by dialer `d`. */
    constructor (d: nat, dialers: nat, multidial: bool, canRetry: bool, maxRetries: nat)
      requires d < dialers && (!multidial ==> d == 0)
      requires multidial ==> canRetry && maxRetries == dialers % 256
      ensures Started(State())
    {
      this.maxRetries, this.canRetry, this.multidial, this.dialers := maxRetries, canRetry, multidial, dialers;
      conn, tee, retryCount, nextDialer := Some(Conn([], false, d)), [], 0, d + 1;
      retryWriteErr, done, waiting := false, false, None;
      signals, replayed, lossy, late := 0, [], false, [];
    }

    ghost function State(): RetryState
      reads this
    {
      RetryState(conn, tee, retryCount, nextDialer, retryWriteErr, done,
                 maxRetries, canRetry, multidial, dialers, waiting, signals, replayed, lossy, late)
    }

    /** dialLocked and the dialer loop of doDialLocked. */
    method Dial(connects: nat -> bool)
      modifies this`conn, this`nextDialer
      ensures State() == Dialed(old(State()), connects)
    {
      conn := None;
      if !multidial {
        if connects(0) {
          conn := Some(Conn([], false, 0));
        }
        return;
      }
      if nextDialer >= dialers && retryCount < maxRetries {
        nextDialer := 0;
      }
      DialOn(connects);
    }

    /** The dialers from the next one on, until one connects. */
    method DialOn(connects: nat -> bool)
      requires conn.None?
      modifies this`conn, this`nextDialer
      ensures var j := FirstConnecting(connects, old(nextDialer), dialers);
              && conn == (if j < dialers then Some(Conn([], false, j)) else None)
              && nextDialer == if j < dialers then j + 1 else j
    {
      ghost var from := nextDialer;
      while nextDialer < dialers
        invariant conn.None?
        invariant from >= dialers ==> nextDialer == from
        invariant from < dialers ==> from <= nextDialer <= dialers
        invariant FirstConnecting(connects, from, dialers) == FirstConnecting(connects, nextDialer, dialers)
      {
        var d := nextDialer;
        nextDialer := nextDialer + 1;
        if connects(d) {
          conn := Some(Conn([], false, d));
          return;
        }
      }
    }

    /** retryWriteReadLocked */
    method RetryWriteRead(a: Attempt) returns (ok: bool)
      modifies this`conn, this`nextDialer, this`retryWriteErr
      ensures (State(), ok) == Retried(old(State()), a)
    {
      Dial(a.connects);
      if conn.None? {
        return false;
      }
      var c := Wrote(conn.value, tee, a.through);
      conn := Some(c);
      retryWriteErr := c.failed;
      ok := !c.failed && a.readOk;
    }

    /** One turn of the retry loop. */
    method RetryOnce(attempts: nat -> Attempt) returns (ok: bool)
      modifies this`conn, this`nextDialer, this`retryWriteErr, this`retryCount
      ensures (State(), ok) == Turned(old(State()), attempts)
    {
      retryCount := retryCount + 1;
      ok := RetryWriteRead(attempts(retryCount));
    }

    /** The retry loop of Read. */
    method RetryAsNeeded(readOk: bool, attempts: nat -> Attempt) returns (ok: bool)
      modifies this`conn, this`nextDialer, this`retryWriteErr, this`retryCount
      ensures (State(), ok) == RetryLoop(old(State()), readOk, attempts)
    {
      ghost var goal := RetryLoop(State(), readOk, attempts);
      ok := readOk;
      while (conn.None? || !ok) && canRetry && retryCount < maxRetries
        invariant RetryLoop(State(), ok, attempts) == goal
        decreases maxRetries - retryCount
      {
        LoopTurn(State(), ok, attempts, Turned(State(), attempts));
        ok := RetryOnce(attempts);
      }
    }

    /** The part of Read under the mutex, entered with the outcome of the first read. */
    method FinishRead(readOk: bool, attempts: nat -> Attempt) returns (o: Outcome)
      modifies this
      ensures (State(), o) == Completed(old(State()), readOk, attempts)
    {
      if done {
        return if conn.Some? && readOk then Received else Failed;
      }
      CompletedIs(State(), readOk, attempts, RetryLoop(State(), readOk, attempts));
      var ok := RetryAsNeeded(readOk, attempts);
      o := if conn.Some? && ok then Received else Failed;
      signals, replayed, late := signals + 1, tee, [];
      lossy := conn.Some? && conn.value.failed;
      tee := [];
      done := true;
    }

    /** The start of Write: teed before completion, plain after it. */
    method StartWrite(b: Bytes, through: nat) returns (o: Outcome)
      requires waiting.None?
      modifies this
      ensures (State(), o) == Step(old(State()), WriteStart(b, through))
    {
      if conn.None? {
        return Failed;
      }
      var c := conn.value;
      conn := Some(Wrote(c, b, through));
      if !done {
        var off := |tee|;
        tee := tee + b;
        if through >= |b| {
          return Acked(b, off);
        }
        waiting := Some(Pending(b, off));
        return Silent;
      }
      var off := |replayed| + |late|;
      late := late + b[..Min(through, |b|)];
      o := if through >= |b| then Acked(b, off) else Failed;
    }

    /** The rest of a Write that had to wait, once completion has been signalled. */
    method EndWrite() returns (o: Outcome)
      requires waiting.Some? && done
      modifies this`waiting
      ensures (State(), o) == Step(old(State()), WaitEnded)
    {
      var p := waiting.value;
      waiting := None;
      o := if retryWriteErr || conn.None? then Failed else Acked(p.b, p.off);
    }
  }
}
