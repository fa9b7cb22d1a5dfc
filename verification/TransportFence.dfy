/** The hook itself: the fields of the fence and the durable row it writes through. */
module TransportFencing {
  import opened Wrappers
  import opened Operations
  import opened Observation

  class TransportFence {
    const target: Target
    var op: Operation
    var calls: nat
    var approved: bool

    ghost predicate Shows(w: World)
      reads this
    {
      w.op == op && w.fence == Fence(calls, approved) && w.target == target
    }

    constructor (target: Target, op: Operation)
      ensures this.target == target && this.op == op && calls == 0 && !approved
    {
      this.target, this.op, calls, approved := target, op, 0, false;
    }

    /** `context.phase`: a write that needs the running row. */
    method WritePhase(phase: Phase) returns (ok: bool)
      modifies this`op
      ensures ok <==> old(op).state.Running?
      ensures op == if ok then old(op).(phase := phase) else old(op)
    {
      ok := op.state.Running?;
      if ok { op := op.(phase := phase); }
    }

    /** `reject_before_transport_entry`. */
    method Reject() returns (entry: bool)
      modifies this`op
      ensures !entry && op == if old(op).state.Running? then old(op).(phase := Baselining) else old(op)
    {
      var restored := WritePhase(Baselining);
      return false;
    }

    /** `before_transport_entry`, inside a scan whose world the fence shows. */
    method BeforeTransportEntry(e: Weather, ghost w: World) returns (entry: bool)
      requires Shows(w) && w.worker.Scanning?
      modifies this
      ensures Shows(Hook(w, e, entry))
      ensures entry <==> Approves(w, e)
      ensures entry ==> op.phase.Dispatching? && op.state.Running? && !op.cancelRequested && calls == 1
    {
      calls := calls + 1;
      if calls != 1 { return false; }
      var written := WritePhase(Dispatching);
      if !written { return false; }
      if op.cancelRequested || e.cancelledFirst { return false; }
      if !e.timeFirst { entry := Reject(); return; }
      if e.resolved != Some(target) { entry := Reject(); return; }
      if e.cancelledSecond { return false; }
      if !e.timeSecond { entry := Reject(); return; }
      approved := true;
      return true;
    }
  }
}
