/** One author observation: a worker, its transport fence, a canceller and a restart acting
    on the same durable row. */
module Observation {
  import opened Wrappers
  import opened Operations

  datatype Target = Target(author: nat, publication: nat)

  /** `_TransportFence`. */
  datatype Fence = Fence(calls: nat, approved: bool)

  datatype Worker =
    | Starting
    | Baselined
    | Scanning
    | ScanReturned
    | AcceptedBy(accepted: Payload)
    | PollingBy(accepted: Payload)
    | Done(intent: Intent)

  /** `entries` counts how often the one mutating request was let through. */
  datatype World = World(op: Operation, worker: Worker, fence: Fence, entries: nat, profile: nat, target: Target)

  /** What the hook meets between its durable write and its answer; resolving the target
      again may fail. */
  datatype Weather = Weather(
    cancelledFirst: bool, timeFirst: bool, resolved: Option<Target>, cancelledSecond: bool, timeSecond: bool
  )

  function OnOp(w: World, op: Operation): World { w.(op := op) }

  /** A phase write by the worker; it needs the running row. */
  function SetPhase(w: World, phase: Phase): World {
    if w.op.state.Running? then w.(op := w.op.(phase := phase)) else w
  }

  const LOST := Fail(true, ExecutionFailed, Empty)

  /** `context.phase("baselining")` and everything up to the scan. */
  function Baseline(w: World, baseline: Option<Intent>): World {
    if !w.worker.Starting? then w
    else if !w.op.state.Running? then w.(worker := Done(LOST))
    else
      var w1 := SetPhase(w, Baselining);
      if w.op.cancelRequested then w1.(worker := Done(Cancel(Empty)))
      else match baseline
        case Some(intent) => w1.(worker := Done(if intent.Succeed? then LOST else intent))
        case None => w1.(worker := Baselined)
  }

  function EnterScan(w: World): World {
    if w.worker.Baselined? then w.(worker := Scanning) else w
  }

  /** `before_transport_entry`: only the first call can approve, and only after the row
      says dispatching, with no cancellation seen, time left and the target unchanged. */
  function Approves(w: World, e: Weather): bool {
    && w.fence.calls == 0 && w.op.state.Running?
    && !w.op.cancelRequested && !e.cancelledFirst && e.timeFirst
    && e.resolved == Some(w.target)
    && !e.cancelledSecond && e.timeSecond
  }

  /** A rejection that puts the row back to baselining, unless it only saw a cancellation. */
  function Restores(w: World, e: Weather): bool {
    && w.op.state.Running? && !w.op.cancelRequested && !e.cancelledFirst
    && (!e.timeFirst || e.resolved != Some(w.target) || (!e.cancelledSecond && !e.timeSecond))
  }

  /** One call of the hook.  When it returns true the transport may still stop by itself;
      `goes` says whether the request then really leaves. */
  function Hook(w: World, e: Weather, goes: bool): World {
    if !w.worker.Scanning? then w
    else
      var called := w.(fence := w.fence.(calls := w.fence.calls + 1));
      if w.fence.calls > 0 then called
      else
        var dispatching := SetPhase(called, Dispatching);
        if Approves(w, e) then dispatching.(fence := Fence(1, true), entries := if goes then w.entries + 1 else w.entries)
        else if Restores(w, e) then SetPhase(dispatching, Baselining)
        else dispatching
  }

  /** The scan raised: the hook's rejection or the server's error decides the intent. */
  function ScanRaises(w: World, intent: Intent): World {
    if w.worker.Scanning? then w.(worker := Done(if intent.Succeed? then LOST else intent)) else w
  }

  /** The scan returned: without an approved first call its acceptance is unknown. */
  function ScanReturns(w: World, matches: bool): World {
    if !w.worker.Scanning? then w
    else if w.fence.calls != 1 || !w.fence.approved || !matches then w.(worker := Done(Fail(false, AcceptanceUnknown, Empty)))
    else w.(worker := ScanReturned)
  }

  function AcceptedPayload(w: World, acceptedAt: int): Payload {
    Payload(2, w.profile, w.target.publication, false, 0, 0, acceptedAt, None, None)
  }

  function CompletionUnknownIntent(p: Payload): Intent {
    Fail(false, CompletionUnknown, Checkpoint(p))
  }

  /** `_checkpoint` and its repository: owned, valid, in the phase the payload names, and
      never an observation after a cancellation request. */
  function WriteCheckpoint(op: Operation, p: Payload): Option<Operation> {
    if !op.state.Running? || !ValidPayload(p) || (p.observed && op.cancelRequested) then None
    else Some(op.(phase := if p.observed then Observed else Accepted, summary := Checkpoint(p)))
  }

  function Accept(w: World, acceptedAt: int, goesOn: bool): World {
    if !w.worker.ScanReturned? then w
    else
      var p := AcceptedPayload(w, acceptedAt);
      match WriteCheckpoint(w.op, p)
      case None => w.(worker := Done(CompletionUnknownIntent(p)))
      case Some(op) =>
        if op.cancelRequested || !goesOn then w.(op := op, worker := Done(CompletionUnknownIntent(p)))
        else w.(op := op, worker := AcceptedBy(p))
  }

  function StartPolling(w: World, goesOn: bool): World {
    match w.worker
    case AcceptedBy(p) =>
      if !w.op.state.Running? then w.(worker := Done(CompletionUnknownIntent(p)))
      else
        var w1 := SetPhase(w, Polling);
        if w.op.cancelRequested || !goesOn then w1.(worker := Done(CompletionUnknownIntent(p)))
        else w1.(worker := PollingBy(p))
    case _ => w
  }

  function ObservedPayload(p: Payload, item: nat, observedAt: int): Payload {
    p.(observed := true, matchCount := 1, verificationCount := 2, itemFingerprint := Some(item), observedAt := Some(observedAt))
  }

  /** The poll loop gave up, or found its item twice at `observedAt`. */
  function FinishPolling(w: World, found: Option<(nat, int)>): World {
    match w.worker
    case PollingBy(p) =>
      if found == None || found.value.1 - p.acceptedAt < OBSERVATION_SECONDS || !w.op.state.Running?
      then w.(worker := Done(CompletionUnknownIntent(p)))
      else
        var w1 := SetPhase(w, Polling);
        var observed := ObservedPayload(p, found.value.0, found.value.1);
        (match WriteCheckpoint(w1.op, observed)
         case None => w1.(worker := Done(CompletionUnknownIntent(p)))
         case Some(op) => w1.(op := op, worker := Done(Succeed(Checkpoint(observed)))))
    case _ => w
  }

  function WorkerFinishes(w: World, jobValid: bool): World {
    if w.worker.Done? then OnOp(w, Finish(w.op, w.worker.intent, jobValid)) else w
  }

  datatype Step =
    | SBaseline(baseline: Option<Intent>)
    | SEnterScan
    | SHook(weather: Weather, goes: bool)
    | SScanRaises(intent: Intent)
    | SScanReturns(matches: bool)
    | SAccept(acceptedAt: int, goesOn: bool)
    | SStartPolling(goesOn: bool)
    | SFinishPolling(found: Option<(nat, int)>)
    | SRaises(intent: Intent)
    | SFinish(jobValid: bool)
    | SRequestCancel
    | SReconcile(jobValid: bool)

  /** `SRaises`: the worker fails at any moment, or is dropped for a local cancellation. */
  function Next(w: World, step: Step): World {
    match step
    case SBaseline(baseline) => Baseline(w, baseline)
    case SEnterScan => EnterScan(w)
    case SHook(weather, goes) => Hook(w, weather, goes)
    case SScanRaises(intent) => ScanRaises(w, intent)
    case SScanReturns(matches) => ScanReturns(w, matches)
    case SAccept(acceptedAt, goesOn) => Accept(w, acceptedAt, goesOn)
    case SStartPolling(goesOn) => StartPolling(w, goesOn)
    case SFinishPolling(found) => FinishPolling(w, found)
    case SRaises(intent) => if w.worker.Done? then w else w.(worker := Done(intent))
    case SFinish(jobValid) => WorkerFinishes(w, jobValid)
    case SRequestCancel => if w.op.state.Running? then OnOp(w, w.op.(cancelRequested := true)) else w
    case SReconcile(jobValid) => OnOp(w, Reconcile(w.op, jobValid))
  }

  function Run(w: World, steps: seq<Step>): World
    decreases |steps|
  {
    if steps == [] then w else Run(Next(w, steps[0]), steps[1..])
  }

  function Submitted(target: Target, profile: nat, request: Fingerprint): World {
    World(Operation(Running, Preparing, Empty, NoCode, false, target.author, request), Starting, Fence(0, false), 0, profile, target)
  }

  // ----- What every run keeps -----

  /** Where the row can be, given how far the worker got. */
  ghost predicate Inv(w: World) {
    && w.entries <= (if w.fence.approved then 1 else 0)
    && (w.fence.approved ==> w.fence.calls >= 1)
    && (w.worker.Starting? || w.worker.Baselined? ==> w.fence == Fence(0, false))
    && (w.worker.ScanReturned? || w.worker.AcceptedBy? || w.worker.PollingBy? ==> w.fence.approved)
    && (w.fence.approved ==> Beyond(w.op))
    && (w.op.state.Succeeded? ==> Proven(w.op))
    && (w.op.state.Running? && w.op.summary.Checkpoint? ==> ValidPayload(w.op.summary.payload))
    && (w.worker.AcceptedBy? || w.worker.PollingBy? ==> ValidPayload(w.worker.accepted) && !w.worker.accepted.observed)
  }

  /** Once the request may have left, the row never invites a retry. */
  predicate Beyond(op: Operation) {
    match op.state
    case Running => op.phase.Dispatching? || Entered(op.phase)
    case FailedRetryable => false
    case Interrupted => false
    case _ => true
  }

  /** Success carries the observed checkpoint of this very request. */
  predicate Proven(op: Operation) {
    && op.phase.Observed? && op.summary.Checkpoint?
    && op.summary.payload.observed && ValidPayload(op.summary.payload)
    && op.request == Fingerprint(op.target, op.summary.payload.profile, op.summary.payload.publication)
  }

  lemma NextKeepsInv(w: World, step: Step)
    requires Inv(w)
    ensures Inv(Next(w, step))
  {
  }

  lemma {:induction false} RunKeepsInv(w: World, steps: seq<Step>)
    requires Inv(w)
    ensures Inv(Run(w, steps))
    decreases |steps|
  {
    if steps != [] {
      NextKeepsInv(w, steps[0]);
      RunKeepsInv(Next(w, steps[0]), steps[1..]);
    }
  }

  /** Over every run: one approval at most, no retry after it, and success only when proven. */
  lemma ObservationIsSafe(target: Target, profile: nat, request: Fingerprint, steps: seq<Step>)
    ensures var w := Run(Submitted(target, profile, request), steps);
            && w.entries <= 1
            && (w.fence.approved ==> !w.op.state.FailedRetryable? && !w.op.state.Interrupted?)
            && (w.op.state.Succeeded? ==> Proven(w.op) && w.op.request == request)
  {
    RunKeepsInv(Submitted(target, profile, request), steps);
    RequestIsFixed(Submitted(target, profile, request), steps);
  }

  lemma {:induction false} RequestIsFixed(w: World, steps: seq<Step>)
    ensures Run(w, steps).op.request == w.op.request && Run(w, steps).op.target == w.op.target
    decreases |steps|
  {
    if steps != [] { RequestIsFixed(Next(w, steps[0]), steps[1..]); }
  }

  /** Approval happens only on the first call, with the row durably dispatching, nothing
      cancelled, time remaining and the target resolved again unchanged. */
  lemma ApprovalIsEarned(w: World, step: Step)
    requires Inv(w) && !w.fence.approved && Next(w, step).fence.approved
    ensures step.SHook? && w.fence.calls == 0 && w.op.state.Running? && !w.op.cancelRequested
    ensures step.weather.timeFirst && step.weather.timeSecond && step.weather.resolved == Some(w.target)
    ensures !step.weather.cancelledFirst && !step.weather.cancelledSecond
    ensures Next(w, step).op == w.op.(phase := Dispatching) && Next(w, step).fence.calls == 1
  {
  }

  /** No entry is counted except through the approval itself. */
  lemma EntryNeedsApproval(w: World, step: Step)
    requires Inv(w) && Next(w, step).entries != w.entries
    ensures !w.fence.approved && Next(w, step).fence.approved && Next(w, step).entries == w.entries + 1
  {
  }

  /** Step `k` of this run is the hook call through which the request leaves. */
  predicate EntersAt(w: World, steps: seq<Step>, k: nat) {
    && k < |steps| && steps[k].SHook? && steps[k].goes
    && var before := Run(w, steps[..k]);
    && before.worker.Scanning? && Approves(before, steps[k].weather)
    && Next(before, steps[k]).op.phase.Dispatching? && Next(before, steps[k]).op.state.Running?
  }

  lemma {:induction false} EntryIsTraced(w: World, steps: seq<Step>)
    requires Inv(w)
    ensures Run(w, steps).entries >= w.entries
    ensures Run(w, steps).entries > w.entries ==> exists k: nat :: EntersAt(w, steps, k)
    decreases |steps|
  {
    if steps != [] {
      var next, rest := Next(w, steps[0]), steps[1..];
      NextKeepsInv(w, steps[0]);
      EntryIsTraced(next, rest);
      if next.entries > w.entries {
        assert EntersAt(w, steps, 0);
      } else if Run(next, rest).entries > next.entries {
        var k: nat :| EntersAt(next, rest, k);
        assert steps[..k + 1][0] == steps[0] && steps[..k + 1][1..] == rest[..k];
        assert EntersAt(w, steps, k + 1);
      }
    }
  }

  /** Whenever a request has left in a run, some earlier call of the hook let it go: the first
      one, with the row durably dispatching, nothing cancelled, time left and the target
      unchanged at that moment; and no other request ever leaves. */
  lemma EveryEntryWasApproved(target: Target, profile: nat, request: Fingerprint, steps: seq<Step>)
    ensures var w0 := Submitted(target, profile, request); var n := Run(w0, steps).entries;
            n == 0 || (n == 1 && exists k: nat :: EntersAt(w0, steps, k))
  {
    ObservationIsSafe(target, profile, request, steps);
    EntryIsTraced(Submitted(target, profile, request), steps);
  }

  // ----- How an undisturbed observation ends -----

  lemma {:induction false} RunAppend(w: World, a: seq<Step>, b: seq<Step>)
    ensures Run(w, a + b) == Run(Run(w, a), b)
    decreases |a|
  {
    if a == [] {
      assert a + b == b;
    } else {
      assert (a + b)[0] == a[0] && (a + b)[1..] == a[1..] + b;
      RunAppend(Next(w, a[0]), a[1..], b);
    }
  }

  lemma RunFour(w: World, a: Step, b: Step, c: Step, d: Step)
    ensures Run(w, [a, b, c, d]) == Next(Next(Next(Next(w, a), b), c), d)
  {
    assert [a, b, c, d][1..] == [b, c, d] && [b, c, d][1..] == [c, d] && [c, d][1..] == [d] && [d][1..] == [];
    assert Run(Next(w, a), [b, c, d]) == Run(Next(Next(w, a), b), [c, d]);
    assert Run(Next(Next(w, a), b), [c, d]) == Run(Next(Next(Next(w, a), b), c), [d]);
  }

  /** The scan: baseline, hook, request, answer. */
  function Scan(e: Weather, matches: bool): seq<Step> {
    [SBaseline(None), SEnterScan, SHook(e, true), SScanReturns(matches)]
  }

  /** The rest: acceptance, polling, end. */
  function AcceptAndPoll(acceptedAt: int, goesOn: bool, polls: bool, found: Option<(nat, int)>, jobValid: bool): seq<Step> {
    [SAccept(acceptedAt, goesOn), SStartPolling(polls), SFinishPolling(found), SFinish(jobValid)]
  }

  predicate Clear(e: Weather, target: Target) {
    !e.cancelledFirst && e.timeFirst && e.resolved == Some(target) && !e.cancelledSecond && e.timeSecond
  }

  lemma ScanEnds(target: Target, profile: nat, request: Fingerprint, e: Weather, matches: bool)
    ensures var w := Run(Submitted(target, profile, request), Scan(e, matches));
            && w.op.state.Running? && w.op.summary == Empty && !w.op.cancelRequested
            && w.op.target == target.author && w.op.request == request && w.profile == profile && w.target == target
            && w.entries == (if Clear(e, target) then 1 else 0)
            && (if Clear(e, target) && matches then w.worker.ScanReturned? && w.op.phase.Dispatching?
                else w.worker == Done(Fail(false, AcceptanceUnknown, Empty)) && (w.op.phase.Dispatching? || w.op.phase.Baselining?))
  {
    RunFour(Submitted(target, profile, request), SBaseline(None), SEnterScan, SHook(e, true), SScanReturns(matches));
  }

  lemma PollEnds(w: World, acceptedAt: int, goesOn: bool, polls: bool, found: Option<(nat, int)>, jobValid: bool)
    requires w.worker.ScanReturned? && w.op.state.Running? && !w.op.cancelRequested && w.op.target == w.target.author
    ensures var op, p := Run(w, AcceptAndPoll(acceptedAt, goesOn, polls, found, jobValid)).op, AcceptedPayload(w, acceptedAt);
            var seen := goesOn && polls && found.Some? && found.value.1 >= acceptedAt + OBSERVATION_SECONDS;
            var mine := w.op.request == Fingerprint(w.target.author, w.profile, w.target.publication);
            var kept := if seen then Checkpoint(ObservedPayload(p, found.value.0, found.value.1)) else Checkpoint(p);
            if seen && mine && jobValid then op.state == Succeeded && op.code == NoCode && op.summary == kept
            else op.state == FailedTerminal && op.code == CompletionUnknown && op.summary == if mine then kept else Empty
  {
    RunFour(w, SAccept(acceptedAt, goesOn), SStartPolling(polls), SFinishPolling(found), SFinish(jobValid));
  }

  /** An observation nobody else touches succeeds if and only if the hook approved and the
      scan answered for this library, nothing stopped it before or while polling, an item was
      found at least two seconds after the acceptance, the request asked for this very
      publication, and the export is still valid.  Otherwise it ends for good: not knowing
      whether the scan was accepted if it never saw its answer, and else keeping what it knows. */
  lemma UndisturbedObservation(target: Target, profile: nat, request: Fingerprint, e: Weather, matches: bool, acceptedAt: int,
                               goesOn: bool, polls: bool, found: Option<(nat, int)>, jobValid: bool)
    ensures var w := Run(Submitted(target, profile, request), Scan(e, matches) + AcceptAndPoll(acceptedAt, goesOn, polls, found, jobValid));
            var seen := goesOn && polls && found.Some? && found.value.1 >= acceptedAt + OBSERVATION_SECONDS;
            var mine := request == Fingerprint(target.author, profile, target.publication);
            && w.entries == (if Clear(e, target) then 1 else 0)
            && (w.op.state.Succeeded? <==> Clear(e, target) && matches && seen && mine && jobValid)
            && (!w.op.state.Succeeded? ==>
                  && w.op.state.FailedTerminal?
                  && w.op.code == (if Clear(e, target) && matches then CompletionUnknown else AcceptanceUnknown)
                  && (w.op.summary == Empty <==> !(Clear(e, target) && matches && mine)))
  {
    var w0 := Submitted(target, profile, request);
    var w1 := Run(w0, Scan(e, matches));
    RunAppend(w0, Scan(e, matches), AcceptAndPoll(acceptedAt, goesOn, polls, found, jobValid));
    ScanEnds(target, profile, request, e, matches);
    if Clear(e, target) && matches {
      PollEnds(w1, acceptedAt, goesOn, polls, found, jobValid);
      EntriesStay(w1, acceptedAt, goesOn, polls, found, jobValid);
    } else {
      NothingToPoll(w1, acceptedAt, goesOn, polls, found, jobValid);
    }
  }

  lemma EntriesStay(w: World, acceptedAt: int, goesOn: bool, polls: bool, found: Option<(nat, int)>, jobValid: bool)
    ensures Run(w, AcceptAndPoll(acceptedAt, goesOn, polls, found, jobValid)).entries == w.entries
  {
    RunFour(w, SAccept(acceptedAt, goesOn), SStartPolling(polls), SFinishPolling(found), SFinish(jobValid));
  }

  lemma NothingToPoll(w: World, acceptedAt: int, goesOn: bool, polls: bool, found: Option<(nat, int)>, jobValid: bool)
    requires w.worker.Done?
    ensures Run(w, AcceptAndPoll(acceptedAt, goesOn, polls, found, jobValid)) == OnOp(w, Finish(w.op, w.worker.intent, jobValid))
  {
    RunFour(w, SAccept(acceptedAt, goesOn), SStartPolling(polls), SFinishPolling(found), SFinish(jobValid));
  }

  /** The hook met a cancellation before any other reason to refuse. */
  predicate MetCancellation(e: Weather, target: Target) {
    e.cancelledFirst || (e.timeFirst && e.resolved == Some(target) && e.cancelledSecond)
  }

  /** A scan that raises is over at once.  If the hook refused it for a reason of its own, the
      row is back before dispatch and the observation ends as that reason says, perhaps to be
      retried; if it was approved or cancelled, only a cancellation is believed. */
  lemma RefusedObservation(target: Target, profile: nat, request: Fingerprint, e: Weather, goes: bool, intent: Intent, jobValid: bool)
    requires !intent.Succeed?
    ensures var w := Run(Submitted(target, profile, request),
                         [SBaseline(None), SEnterScan, SHook(e, goes), SScanRaises(intent)] + [SFinish(jobValid)]);
            && (w.entries == 1 <==> Clear(e, target) && goes)
            && (intent.Cancel? ==> w.op.state.Cancelled? && w.op.summary == intent.summary)
            && (intent.Fail? && (Clear(e, target) || MetCancellation(e, target)) ==>
                  w.op.state.FailedTerminal? && w.op.code == AcceptanceUnknown && w.op.summary == Empty)
            && (intent.Fail? && !Clear(e, target) && !MetCancellation(e, target) ==>
                  && w.op.state == (if intent.retryable then FailedRetryable else FailedTerminal)
                  && w.op.code == intent.code && w.op.summary == intent.summary)
  {
    var w0 := Submitted(target, profile, request);
    var scan := [SBaseline(None), SEnterScan, SHook(e, goes), SScanRaises(intent)];
    RunAppend(w0, scan, [SFinish(jobValid)]);
    RunFour(w0, SBaseline(None), SEnterScan, SHook(e, goes), SScanRaises(intent));
    assert Run(Run(w0, scan), [SFinish(jobValid)]) == Next(Run(w0, scan), SFinish(jobValid)) by { assert [SFinish(jobValid)][1..] == []; }
  }

  // ----- Cancellation -----

  /** A cancellation is recorded, and the row does not hold an observation yet. */
  predicate CancelledInTime(op: Operation) {
    op.cancelRequested && !op.phase.Observed? && !op.state.Succeeded?
  }

  lemma CancellationStays(w: World, step: Step)
    requires CancelledInTime(w.op)
    ensures CancelledInTime(Next(w, step).op)
  {
  }

  /** A cancellation that comes before the observation is stored is never overtaken: over
      every later run the operation does not succeed. */
  lemma {:induction false} CancellationPrecludesSuccess(w: World, steps: seq<Step>)
    requires CancelledInTime(w.op)
    ensures !Run(w, steps).op.state.Succeeded?
    decreases |steps|
  {
    if steps != [] {
      CancellationStays(w, steps[0]);
      CancellationPrecludesSuccess(Next(w, steps[0]), steps[1..]);
    }
  }

  /** A cancellation before the scan ends the observation as cancelled and nothing leaves. */
  lemma CancelledBeforeScan(target: Target, profile: nat, request: Fingerprint, baseline: Option<Intent>, jobValid: bool)
    ensures var w := Run(Submitted(target, profile, request), [SRequestCancel, SBaseline(baseline), SEnterScan, SFinish(jobValid)]);
            w.op.state.Cancelled? && w.op.code == NoCode && w.op.summary == Empty && w.entries == 0
  {
    RunFour(Submitted(target, profile, request), SRequestCancel, SBaseline(baseline), SEnterScan, SFinish(jobValid));
  }

  /** One that comes between the baseline and the hook keeps the request from leaving,
      whatever the weather, and ends as the scan's intent says if that is a cancellation. */
  lemma CancelledBeforeEntry(target: Target, profile: nat, request: Fingerprint, e: Weather, goes: bool, intent: Intent, jobValid: bool)
    ensures var w := Run(Submitted(target, profile, request),
                         [SBaseline(None), SRequestCancel, SEnterScan, SHook(e, goes)] + [SScanRaises(intent), SFinish(jobValid)]);
            && w.entries == 0 && !w.fence.approved
            && (if intent.Cancel? then w.op.state.Cancelled? && w.op.summary == intent.summary
                else w.op.state.FailedTerminal? && w.op.code == AcceptanceUnknown && w.op.summary == Empty)
  {
    var w0 := Submitted(target, profile, request);
    var scan := [SBaseline(None), SRequestCancel, SEnterScan, SHook(e, goes)];
    var w1 := Run(w0, scan);
    RunAppend(w0, scan, [SScanRaises(intent), SFinish(jobValid)]);
    RunFour(w0, SBaseline(None), SRequestCancel, SEnterScan, SHook(e, goes));
    assert [SScanRaises(intent), SFinish(jobValid)][1..] == [SFinish(jobValid)] && [SFinish(jobValid)][1..] == [];
    assert Run(w1, [SScanRaises(intent), SFinish(jobValid)]) == Run(Next(w1, SScanRaises(intent)), [SFinish(jobValid)]);
  }
}
