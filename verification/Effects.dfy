/** Committing a domain effect under an operation's lease: two fences in one transaction,
    bounded retries, and success made visible with the effect. */
module Effects {
  import opened Wrappers

  const WRITE_ATTEMPTS := 4

  datatype Status = Running | Succeeded | Ended

  /** The operation row, as far as the fences read it. */
  datatype Row = Row(status: Status, owner: nat, token: nat, expires: int, cancelRequested: bool, revision: nat)

  datatype Handle = Handle(owner: nat, token: nat)

  /** What another transaction did to the row since the last attempt: a cancellation request;
      a heartbeat of the owner, which sets a new expiry even on an expired lease; the end of
      the operation; or a restart reconciling it, once its lease has expired.  Nobody ever
      hands a running operation to another owner. */
  datatype Change = Nothing | RequestCancel | Heartbeat(h: Handle, expires: int) | Finish | Reconcile(now: int)

  /** One attempt: the local cancellation flag and clock at both fences, and whether the
      callback or the commit fails for an ordinary reason. */
  datatype Attempt = Attempt(
    change: Change, cancelledFirst: bool, firstNow: int, callbackFails: bool,
    cancelledSecond: bool, secondNow: int, commitFails: bool
  )

  datatype Outcome = Applied | CancelPrecedes | LeaseLost | StorageFailed

  function Disturb(row: Row, change: Change): Row {
    if !row.status.Running? then row
    else match change
      case Nothing => row
      case RequestCancel => row.(cancelRequested := true, revision := row.revision + 1)
      case Heartbeat(h, expires) => if Owns(row, h) then row.(expires := expires, revision := row.revision + 1) else row
      case Finish => row.(status := Ended, revision := row.revision + 1)
      case Reconcile(now) => if row.expires <= now then row.(status := Ended, revision := row.revision + 1) else row
  }

  predicate Owns(row: Row, h: Handle) { row.owner == h.owner && row.token == h.token }

  /** The `WHERE` clause of a fence. */
  predicate Fenced(row: Row, h: Handle, now: int) {
    row.status.Running? && Owns(row, h) && row.expires > now && !row.cancelRequested
  }

  predicate BothFencesHold(row: Row, h: Handle, a: Attempt) {
    !a.cancelledFirst && Fenced(row, h, a.firstNow) && !a.cancelledSecond && Fenced(row, h, a.secondNow)
  }

  /** How one attempt ends; `None` is an ordinary failure that may be retried. */
  function AttemptOutcome(row: Row, h: Handle, a: Attempt): Option<Outcome> {
    if a.cancelledFirst then Some(CancelPrecedes)
    else if !Fenced(row, h, a.firstNow) then Some(LeaseLost)
    else if a.callbackFails then None
    else if a.cancelledSecond then Some(CancelPrecedes)
    else if !Fenced(row, h, a.secondNow) then Some(LeaseLost)
    else if a.commitFails then None
    else Some(Applied)
  }

  /** The row a fence accepts at this time, field by field. */
  predicate Accepts(row: Row, h: Handle, now: int) {
    row.status == Running && row.owner == h.owner && row.token == h.token && now < row.expires && !row.cancelRequested
  }

  /** Every way an attempt ends, exactly: it applies when nothing is wrong; only a failing
      callback or a failing commit between fences that hold is retried; a local cancellation
      is reported where it is seen first, and a row that no longer qualifies as a lost lease. */
  lemma AttemptEndsExactly(row: Row, h: Handle, a: Attempt)
    ensures var first, second := Accepts(row, h, a.firstNow), Accepts(row, h, a.secondNow);
            var entered := !a.cancelledFirst && first;
            var returned := entered && !a.callbackFails;
            && (AttemptOutcome(row, h, a) == Some(Applied) <==> returned && !a.cancelledSecond && second && !a.commitFails)
            && (AttemptOutcome(row, h, a) == None <==>
                  (entered && a.callbackFails) || (returned && !a.cancelledSecond && second && a.commitFails))
            && (AttemptOutcome(row, h, a) == Some(CancelPrecedes) <==> a.cancelledFirst || (returned && a.cancelledSecond))
            && (AttemptOutcome(row, h, a) == Some(LeaseLost) <==>
                  (!a.cancelledFirst && !first) || (returned && !a.cancelledSecond && !second))
            && AttemptOutcome(row, h, a) != Some(StorageFailed)
  {
  }

  /** The row as other transactions alone left it before attempt number `n`. */
  function RowBefore(row: Row, attempts: seq<Attempt>, n: nat): Row
    requires n < |attempts|
  {
    Disturb(if n == 0 then row else RowBefore(row, attempts, n - 1), attempts[n].change)
  }

  class OperationStore<T(==)> {
    var row: Row
    var effects: seq<T>

    constructor (row: Row)
      ensures this.row == row && effects == []
    {
      this.row, effects := row, [];
    }

    /** One transaction: both writes of the fence, the effect and the terminal state become
        visible together or not at all. */
    method Try(h: Handle, a: Attempt, effect: T, finishSuccess: bool) returns (outcome: Option<Outcome>)
      modifies this
      ensures outcome == AttemptOutcome(old(row), h, a)
      ensures outcome == Some(Applied) ==> effects == old(effects) + [effect] && BothFencesHold(old(row), h, a)
      ensures outcome == Some(Applied) ==>
                row == old(row).(revision := old(row).revision + (if finishSuccess then 3 else 2),
                                 status := if finishSuccess then Succeeded else Running)
      ensures outcome != Some(Applied) ==> effects == old(effects) && row == old(row)
    {
      var saved, savedEffects := row, effects;
      if a.cancelledFirst { return Some(CancelPrecedes); }
      if !Fenced(row, h, a.firstNow) { return Some(LeaseLost); }
      row := row.(revision := row.revision + 1);
      if a.callbackFails { row := saved; return None; }
      effects := effects + [effect];
      if a.cancelledSecond {
        row, effects := saved, savedEffects;
        return Some(CancelPrecedes);
      }
      if !Fenced(row, h, a.secondNow) {
        row, effects := saved, savedEffects;
        return Some(LeaseLost);
      }
      row := row.(revision := row.revision + 1);
      if finishSuccess { row := row.(status := Succeeded, revision := row.revision + 1); }
      if a.commitFails {
        row, effects := saved, savedEffects;
        return None;
      }
      return Some(Applied);
    }

    /** `commit_effect`: the effect is applied once or never, and only by an attempt both of
        whose fences found the lease alive and nothing cancelled. */
    method CommitEffect(h: Handle, attempts: seq<Attempt>, effect: T, finishSuccess: bool)
      returns (outcome: Outcome, ghost last: nat)
      requires |attempts| == WRITE_ATTEMPTS
      modifies this
      ensures last < WRITE_ATTEMPTS
      ensures effects == if outcome == Applied then old(effects) + [effect] else old(effects)
      ensures outcome == Applied ==> BothFencesHold(RowBefore(old(row), attempts, last), h, attempts[last])
      ensures outcome != Applied ==> row == RowBefore(old(row), attempts, last)
      ensures outcome == Applied ==> (row.status.Succeeded? <==> finishSuccess)
      ensures forall i :: 0 <= i < last ==> AttemptOutcome(RowBefore(old(row), attempts, i), h, attempts[i]) == None
      ensures var ended := AttemptOutcome(RowBefore(old(row), attempts, last), h, attempts[last]);
              outcome == if ended == None then StorageFailed else ended.value
      ensures outcome == StorageFailed ==> last == WRITE_ATTEMPTS - 1
    {
      var i := 0;
      last := 0;
      while i < WRITE_ATTEMPTS
        invariant 0 <= i <= WRITE_ATTEMPTS
        invariant i == 0 ==> row == old(row) && last == 0
        invariant i > 0 ==> last == i - 1 && row == RowBefore(old(row), attempts, last)
        invariant effects == old(effects)
        invariant forall k :: 0 <= k < i ==> AttemptOutcome(RowBefore(old(row), attempts, k), h, attempts[k]) == None
      {
        row := Disturb(row, attempts[i].change);
        last := i;
        assert row == RowBefore(old(row), attempts, i);
        var ended := Try(h, attempts[i], effect, finishSuccess);
        if ended.Some? { return ended.value, i; }
        i := i + 1;
      }
      return StorageFailed, WRITE_ATTEMPTS - 1;
    }
  }

  /** For good: cancelled, ended, or owned by somebody else. */
  predicate Closed(row: Row, h: Handle) {
    row.cancelRequested || !row.status.Running? || !Owns(row, h)
  }

  /** A fence that fails for any reason but the expiry of the lease never holds again. */
  lemma {:induction false} FenceStaysBroken(row: Row, h: Handle, attempts: seq<Attempt>, i: nat, n: nat, now: int)
    requires i <= n < |attempts| && Closed(RowBefore(row, attempts, i), h)
    ensures Closed(RowBefore(row, attempts, n), h) && !Fenced(RowBefore(row, attempts, n), h, now)
  {
    if i < n { FenceStaysBroken(row, h, attempts, i, n - 1, now); }
  }

  lemma {:induction false} ExpiryNeedsHeartbeat(row: Row, h: Handle, attempts: seq<Attempt>, i: nat, n: nat)
    requires i <= n < |attempts| && Owns(RowBefore(row, attempts, n), h)
    requires RowBefore(row, attempts, n).expires != RowBefore(row, attempts, i).expires
    ensures exists k :: i < k <= n && attempts[k].change.Heartbeat? && attempts[k].change.h == h
  {
    if attempts[n].change.Heartbeat? && attempts[n].change.h == h {
      assert i < n;
    } else {
      ExpiryNeedsHeartbeat(row, h, attempts, i, n - 1);
      var k :| i < k <= n - 1 && attempts[k].change.Heartbeat? && attempts[k].change.h == h;
    }
  }

  /** An expired lease is not final: only a heartbeat of the owner, on a row still running
      and not cancelled, makes a fence hold again that failed before. */
  lemma OnlyHeartbeatHeals(row: Row, h: Handle, attempts: seq<Attempt>, i: nat, n: nat, earlier: int, later: int)
    requires i <= n < |attempts| && earlier <= later
    requires !Fenced(RowBefore(row, attempts, i), h, earlier) && Fenced(RowBefore(row, attempts, n), h, later)
    ensures !Closed(RowBefore(row, attempts, i), h) && RowBefore(row, attempts, i).expires <= earlier
    ensures exists k :: i < k <= n && attempts[k].change.Heartbeat? && attempts[k].change.h == h
  {
    if Closed(RowBefore(row, attempts, i), h) {
      FenceStaysBroken(row, h, attempts, i, n, later);
    } else {
      ExpiryNeedsHeartbeat(row, h, attempts, i, n);
    }
  }

  /** And such a heartbeat does: the fence holds again up to the new expiry. */
  lemma HeartbeatHeals(row: Row, h: Handle, attempts: seq<Attempt>, n: nat, now: int)
    requires 0 < n < |attempts| && attempts[n].change.Heartbeat? && attempts[n].change.h == h
    ensures Fenced(RowBefore(row, attempts, n), h, now) <==>
            !Closed(RowBefore(row, attempts, n - 1), h) && now < attempts[n].change.expires
  {
  }

  /** The effect stays invisible once the operation has ended, whether it finished or was reconciled after expiry. */
  lemma EndPrecludesEffect(row: Row, h: Handle, attempts: seq<Attempt>, i: nat, n: nat)
    requires i <= n < |attempts|
    requires attempts[i].change.Finish? ||
             (attempts[i].change.Reconcile? && (if i == 0 then row else RowBefore(row, attempts, i - 1)).expires <= attempts[i].change.now)
    ensures AttemptOutcome(RowBefore(row, attempts, n), h, attempts[n]) != Some(Applied)
  {
    FenceStaysBroken(row, h, attempts, i, n, attempts[n].firstNow);
  }

  /** Nothing else that other transactions do before an attempt stops one that would apply. */
  lemma CleanAttemptApplies(row: Row, h: Handle, a: Attempt)
    requires !a.cancelledFirst && !a.callbackFails && !a.cancelledSecond && !a.commitFails
    requires Accepts(row, h, a.firstNow) && Accepts(row, h, a.secondNow)
    ensures AttemptOutcome(Disturb(row, a.change), h, a) == Some(Applied) <==>
              match a.change
              case Nothing => true
              case RequestCancel => false
              case Heartbeat(sender, expires) => sender == h ==> a.firstNow < expires && a.secondNow < expires
              case Finish => false
              case Reconcile(now) => now < row.expires
  {
    AttemptEndsExactly(Disturb(row, a.change), h, a);
  }

  /** Whatever the attempts, a cancellation requested before one of them keeps the effect of
      that and every later attempt invisible. */
  lemma CancelPrecludesEffect(row: Row, h: Handle, attempts: seq<Attempt>, i: nat, n: nat)
    requires i <= n < |attempts| && attempts[i].change.RequestCancel?
    ensures AttemptOutcome(RowBefore(row, attempts, n), h, attempts[n]) != Some(Applied)
  {
    FenceStaysBroken(row, h, attempts, i, n, attempts[n].firstNow);
  }
}
