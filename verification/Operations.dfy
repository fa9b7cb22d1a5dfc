/** Author-scan operations: the durable row, how a live worker finishes it, and how a
    restart reconciles it. */
module Operations {
  import opened Wrappers

  datatype State = Running | Succeeded | FailedRetryable | FailedTerminal | Cancelled | Interrupted

  datatype Phase = Preparing | Baselining | Dispatching | Accepted | Polling | Observed | Unlisted

  datatype Code = NoCode | AcceptanceUnknown | CompletionUnknown | OperationInterrupted | ExecutionFailed | Classified(n: nat)

  /** The request fingerprint hashes target, profile, mode and publication; the hash is
      taken as injective, so it is the tuple (the mode is fixed). */
  datatype Fingerprint = Fingerprint(target: nat, profile: nat, publication: nat)

  /** An author-observation payload; the fields both sides copy verbatim are in
      `ObservationDocument`. */
  datatype Payload = Payload(
    schemaVersion: nat, profile: nat, publication: nat, observed: bool,
    matchCount: nat, verificationCount: nat, acceptedAt: int,
    itemFingerprint: Option<nat>, observedAt: Option<int>
  )

  datatype Summary = Empty | Opaque(n: nat) | Checkpoint(payload: Payload)

  datatype Operation = Operation(
    state: State, phase: Phase, summary: Summary, code: Code,
    cancelRequested: bool, target: nat, request: Fingerprint
  )

  /** What the worker asked for, before the durable row is consulted. */
  datatype Intent = Succeed(summary: Summary) | Fail(retryable: bool, code: Code, summary: Summary) | Cancel(summary: Summary)

  const OBSERVATION_SECONDS := 2

  /** `_media_server_observation_summary`: the closed shape of a checkpoint. */
  predicate ValidPayload(p: Payload) {
    && p.schemaVersion == 2
    && (p.observed <==> p.itemFingerprint.Some?) && (p.observed <==> p.observedAt.Some?)
    && (if p.observed
        then p.matchCount == 1 && p.verificationCount == 2 && p.observedAt.value - p.acceptedAt >= OBSERVATION_SECONDS
        else p.matchCount == 0 && p.verificationCount == 0)
  }

  /** `_media_server_observation_checkpoint`: a payload counts only in its own phase and
      under the fingerprint of the request it answers. */
  function CheckpointOf(op: Operation): Option<Payload> {
    if op.summary.Checkpoint? && var p := op.summary.payload;
       ValidPayload(p)
       && (if p.observed then op.phase.Observed? else op.phase.Accepted? || op.phase.Polling?)
       && op.request == Fingerprint(op.target, p.profile, p.publication)
    then Some(op.summary.payload)
    else None
  }

  function Terminate(op: Operation, state: State, code: Code, summary: Summary): Operation {
    op.(state := state, code := code, summary := summary)
  }

  /** `_finish_intent` on an author scan whose row is still this worker's. */
  function Finish(op: Operation, intent: Intent, jobValid: bool): Operation {
    if !op.state.Running? then op
    else match CheckpointOf(op)
      case Some(p) =>
        if p.observed && jobValid then Terminate(op, Succeeded, NoCode, op.summary)
        else Terminate(op, FailedTerminal, CompletionUnknown, op.summary)
      case None =>
        if op.phase.Accepted? || op.phase.Polling? || op.phase.Observed? then Terminate(op, FailedTerminal, CompletionUnknown, Empty)
        else if intent.Succeed? || (op.phase.Dispatching? && !intent.Cancel?) then Terminate(op, FailedTerminal, AcceptanceUnknown, Empty)
        else match intent
          case Cancel(summary) => Terminate(op, Cancelled, NoCode, summary)
          case Fail(retryable, code, summary) => Terminate(op, if retryable then FailedRetryable else FailedTerminal, code, summary)
          case Succeed(_) => op
  }

  /** `_reconcile_media_server_observation`, after the worker's lease expired. */
  function Reconcile(op: Operation, jobValid: bool): Operation {
    if !op.state.Running? then op
    else
      var checkpoint := CheckpointOf(op);
      if op.phase.Preparing? || op.phase.Baselining? then Terminate(op, Interrupted, OperationInterrupted, Empty)
      else if op.phase.Dispatching? then Terminate(op, FailedTerminal, AcceptanceUnknown, Empty)
      else if op.phase.Observed? && checkpoint.Some? && checkpoint.value.observed && jobValid
      then Terminate(op, Succeeded, NoCode, op.summary)
      else if op.phase.Accepted? || op.phase.Polling? || op.phase.Observed? || checkpoint.Some?
      then Terminate(op, FailedTerminal, CompletionUnknown, if checkpoint.Some? then op.summary else Empty)
      else Terminate(op, Interrupted, OperationInterrupted, Empty)
  }

  predicate Entered(phase: Phase) {
    phase.Accepted? || phase.Polling? || phase.Observed?
  }

  // ----- What an operation ends with -----

  /** The stored payload is exactly an accepted checkpoint of this very request. */
  ghost predicate HoldsAccepted(op: Operation) {
    exists profile, publication, at ::
      op.summary == Checkpoint(Payload(2, profile, publication, false, 0, 0, at, None, None)) &&
      op.request == Fingerprint(op.target, profile, publication)
  }

  /** The stored payload is exactly an observed checkpoint of this very request, at least two
      seconds after its acceptance. */
  ghost predicate HoldsObserved(op: Operation) {
    exists profile, publication, at, item, observedAt ::
      op.summary == Checkpoint(Payload(2, profile, publication, true, 1, 2, at, Some(item), Some(observedAt))) &&
      observedAt >= at + OBSERVATION_SECONDS && op.request == Fingerprint(op.target, profile, publication)
  }

  /** The row keeps the valid checkpoint of its own phase. */
  ghost predicate KeepsCheckpoint(op: Operation) {
    if op.phase.Observed? then HoldsObserved(op) else (op.phase.Accepted? || op.phase.Polling?) && HoldsAccepted(op)
  }

  lemma CheckpointIsKept(op: Operation)
    ensures CheckpointOf(op).Some? <==> KeepsCheckpoint(op)
    ensures CheckpointOf(op).Some? ==> (CheckpointOf(op).value.observed <==> op.phase.Observed?)
  {
    if op.summary.Checkpoint? {
      var p := op.summary.payload;
      if CheckpointOf(op).Some? {
        if p.observed {
          assert op.summary == Checkpoint(Payload(2, p.profile, p.publication, true, 1, 2, p.acceptedAt,
                                                  Some(p.itemFingerprint.value), Some(p.observedAt.value)));
        } else {
          assert op.summary == Checkpoint(Payload(2, p.profile, p.publication, false, 0, 0, p.acceptedAt, None, None));
        }
      }
    }
  }

  /** Only state, code and summary of the row were written. */
  predicate EndsAs(op: Operation, ended: Operation, state: State, code: Code, summary: Summary) {
    ended == Operation(state, op.phase, summary, code, op.cancelRequested, op.target, op.request)
  }

  /** From acceptance on: success exactly for an observed checkpoint and a valid export, and
      otherwise "completion unknown", with the checkpoint kept wherever there is one. */
  ghost predicate EndsAfterAcceptance(op: Operation, ended: Operation, jobValid: bool) {
    if op.phase.Observed? && HoldsObserved(op) && jobValid then EndsAs(op, ended, Succeeded, NoCode, op.summary)
    else EndsAs(op, ended, FailedTerminal, CompletionUnknown, if KeepsCheckpoint(op) then op.summary else Empty)
  }

  /** How the live worker's operation ends, in every phase and for every intent. */
  lemma FinishedRow(op: Operation, intent: Intent, jobValid: bool)
    requires op.state.Running?
    ensures var ended := Finish(op, intent, jobValid);
            if Entered(op.phase) then EndsAfterAcceptance(op, ended, jobValid)
            else match intent
              case Cancel(summary) => EndsAs(op, ended, Cancelled, NoCode, summary)
              case Succeed(_) => EndsAs(op, ended, FailedTerminal, AcceptanceUnknown, Empty)
              case Fail(retryable, code, summary) =>
                if op.phase.Dispatching? then EndsAs(op, ended, FailedTerminal, AcceptanceUnknown, Empty)
                else EndsAs(op, ended, if retryable then FailedRetryable else FailedTerminal, code, summary)
  {
    CheckpointIsKept(op);
    hide CheckpointOf;
  }

  /** How a restart ends the operation of a dead worker, in every phase. */
  lemma ReconciledRow(op: Operation, jobValid: bool)
    requires op.state.Running?
    ensures var ended := Reconcile(op, jobValid);
            if Entered(op.phase) then EndsAfterAcceptance(op, ended, jobValid)
            else if op.phase.Dispatching? then EndsAs(op, ended, FailedTerminal, AcceptanceUnknown, Empty)
            else EndsAs(op, ended, Interrupted, OperationInterrupted, Empty)
  {
    CheckpointIsKept(op);
    hide CheckpointOf;
  }

  /** A row that has ended stays as it is, whoever comes. */
  lemma EndedRowStays(op: Operation, intent: Intent, jobValid: bool)
    ensures !op.state.Running? ==> Finish(op, intent, jobValid) == op && Reconcile(op, jobValid) == op
    ensures op.state.Running? ==> !Finish(op, intent, jobValid).state.Running? && !Reconcile(op, jobValid).state.Running?
  {
    if op.state.Running? {
      FinishedRow(op, intent, jobValid);
      ReconciledRow(op, jobValid);
    }
  }

  // ----- The live worker and a restart compared -----

  /** Live finish, whatever the worker intended, and restart reconciliation agree on state,
      code and summary exactly from acceptance on. */
  lemma FinishAgreesWithReconcile(op: Operation, jobValid: bool)
    requires op.state.Running?
    ensures (forall intent :: Finish(op, intent, jobValid) == Reconcile(op, jobValid)) <==> Entered(op.phase)
  {
    if !Entered(op.phase) {
      assert Finish(op, Cancel(Empty), jobValid).state == Cancelled;
      assert Reconcile(op, jobValid).state != Cancelled;
    }
  }

  /** While the scan is being dispatched the two agree on everything but a cancellation. */
  lemma DispatchingAgreement(op: Operation, intent: Intent, jobValid: bool)
    requires op.state.Running? && op.phase.Dispatching?
    ensures Finish(op, intent, jobValid) == Reconcile(op, jobValid) <==> !intent.Cancel?
  {
  }

  /** Either way of ending succeeds only on an observed checkpoint of this very request. */
  lemma SuccessIsObserved(op: Operation, intent: Intent, jobValid: bool)
    requires op.state.Running?
    requires Finish(op, intent, jobValid).state.Succeeded? || Reconcile(op, jobValid).state.Succeeded?
    ensures jobValid && op.phase.Observed? && op.summary.Checkpoint? && op.summary.payload.observed
    ensures ValidPayload(op.summary.payload)
    ensures op.request == Fingerprint(op.target, op.summary.payload.profile, op.summary.payload.publication)
    ensures Entered(op.phase) && Finish(op, intent, jobValid) == Reconcile(op, jobValid)
  {
  }

  /** From dispatching on no ending invites a retry. */
  lemma NoRetryAfterDispatch(op: Operation, intent: Intent, jobValid: bool)
    requires op.state.Running? && (op.phase.Dispatching? || Entered(op.phase))
    ensures var f, r := Finish(op, intent, jobValid).state, Reconcile(op, jobValid).state;
            && (f.Succeeded? || f.FailedTerminal? || (f.Cancelled? && intent.Cancel? && op.phase.Dispatching?))
            && (r.Succeeded? || r.FailedTerminal?)
  {
  }
}
