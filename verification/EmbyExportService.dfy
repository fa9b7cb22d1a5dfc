/** The service itself: one object holding the job table, the export records, the tree on
    disk and what each worker remembers.  Every method is one transaction or one locked
    disk operation, written as the service performs it and proved to be exactly the
    corresponding step of the protocol. */
module EmbyExport {
  import opened Wrappers
  import opened Jobs
  import opened PublicationHead
  import opened PublicationChain
  import Safety = PublicationSafety

  class EmbyExportService {
    const exporter: Exporter
    var jobs: JobTable
    var nextJob: nat
    var nextToken: nat
    var records: map<nat, Record>
    var disk: Option<Identity>
    var now: nat
    var workers: map<nat, Worker>

    ghost function State(): System
      reads this
    {
      System(jobs, nextJob, nextToken, records, disk, now, workers)
    }

    /** The table's own constraints: identifiers are dealt in order, natural keys are unique. */
    ghost predicate Valid()
      reads this
    {
      Safety.KeysUnique(jobs) && forall j :: j in jobs ==> j < nextJob
    }

    constructor (e: Exporter)
      ensures Valid() && exporter == e && State() == EMPTY
    {
      exporter := e;
      jobs, nextJob, nextToken, records, disk, now, workers := map[], 0, 0, map[], None, 0, map[];
    }

    method Remember(w: nat, state: Worker)
      modifies this`workers
      ensures workers == old(workers)[w := state]
    {
      workers := workers[w := state];
    }

    /** `_load_emby_publication_state`: one pass over the jobs in creation order. */
    method LoadPublicationState() returns (r: Load)
      requires Valid()
      ensures r == LoadState(jobs, nextJob)
    {
      var anchors: Anchors := map[];
      var pending: seq<JobId> := [];
      var i := 0;
      while i < nextJob
        invariant 0 <= i <= nextJob
        invariant forall j :: j in jobs && j < i && jobs[j].status.Succeeded? ==> jobs[j].payload.body.Result?
        invariant forall j :: j in jobs && j < i && jobs[j].status.Cancelled? ==> !jobs[j].payload.body.Intent?
        invariant forall j :: j in anchors <==> j in jobs && j < i && jobs[j].status.Succeeded?
        invariant forall j :: j in anchors ==>
                    anchors[j] == Anchor(j, jobs[j].payload.key.predecessor, jobs[j].payload.body.identity)
      {
        if i in jobs {
          var row := jobs[i];
          if row.status.Succeeded? {
            if !row.payload.body.Result? { return LoadError; }
            anchors := anchors[i := Anchor(i, row.payload.key.predecessor, row.payload.body.identity)];
          } else if row.status.Cancelled? && row.payload.body.Intent? {
            assert RecoveryRequired(jobs);
            return LoadError;
          }
        }
        i := i + 1;
      }
      assert anchors == AnchorsOf(jobs);
      var head := ResolvePublicationHead(anchors);
      if head.Inconsistent? { return LoadError; }
      var recoverable := PendingIntents(AnchorId(head.head));
      return Loaded(head.head, recoverable);
    }

    /** The unfinished successors of the head that carry an intent, in creation order. */
    method PendingIntents(head: Option<JobId>) returns (todo: seq<Candidate>)
      requires Valid()
      ensures todo == Recoverable(jobs, head, nextJob)
    {
      todo := [];
      var i := 0;
      while i < nextJob
        invariant 0 <= i <= nextJob
        invariant todo == Recoverable(jobs, head, i)
      {
        if i in jobs && !jobs[i].status.Succeeded? && jobs[i].payload.key.predecessor == head && jobs[i].payload.body.Intent? {
          todo := todo + [Candidate(i, jobs[i])];
        }
        i := i + 1;
      }
    }

    /** The lookup behind `enqueue`: the one row with this natural key, if any. */
    method FindByNaturalKey(key: Key) returns (found: Option<JobId>)
      requires Valid()
      ensures found.Some? <==> Exists(jobs, key)
      ensures found.Some? ==> found.value == FindByKey(jobs, key)
    {
      var todo := jobs.Keys;
      while todo != {}
        invariant todo <= jobs.Keys
        invariant forall j :: j in jobs && j !in todo ==> jobs[j].payload.key != key
      {
        var j :| j in todo;
        if jobs[j].payload.key == key {
          assert Exists(jobs, key);
          assert Safety.SameKey(jobs, j, FindByKey(jobs, key));
          return Some(j);
        }
        todo := todo - {j};
      }
      return None;
    }

    /** `_prepare`: load the state, start recovery, reuse, or claim the job for this source. */
    method Prepare(w: nat, source: nat, attempts: MaxAttempts, seconds: LeaseSeconds)
      requires Valid()
      modifies this
      ensures Valid() && State() == PublicationChain.Prepare(exporter, old(State()), w, source, attempts, seconds)
    {
      var scan := w !in workers || (workers[w].Idle? && workers[w].scan);
      if w in workers && !workers[w].Idle? { return; }
      var load := LoadPublicationState();
      if load.LoadError? { Remember(w, Idle(true)); return; }
      if scan && load.recoverable != [] { Remember(w, Scanning(load.recoverable, [])); return; }
      if load.head.Some? && load.head.value.identity.source == source { Remember(w, Idle(true)); return; }
      var key := Key(source, AnchorId(load.head));
      var found := FindByNaturalKey(key);
      if found.Some? {
        if jobs[found.value].status.Succeeded? { Remember(w, Idle(true)); return; }
        ClaimJob(w, found.value, jobs[found.value], load.head, seconds);
      } else {
        ClaimJob(w, nextJob, Enqueued(Publication(key, Base), attempts, now), load.head, seconds);
      }
    }

    /** A row that cannot be claimed keeps its reclaim; a dead one fails its records. */
    method LeaveUnclaimed(w: nat, id: JobId, row: ExportJob)
      requires Valid() && id in jobs && row.payload.key == jobs[id].payload.key
      modifies this`jobs, this`records, this`workers
      ensures Valid() && State() == Unclaimed(exporter, old(State()), w, id, row)
    {
      var source := row.payload.key.source;
      KeyStaysUnique(jobs, id, jobs[id], row);
      Remember(w, Idle(true));
      if (row.status.FailedTerminal? || row.status.Cancelled?) && exporter.recorded(source) {
        if source !in records { return; }
        if !records[source].RecordSucceeded? { records := records[source := RecordFailed(false)]; }
        assert records == old(records)[source := Terminalize(old(records)[source])];
      }
      jobs := jobs[id := row];
    }

    /** Claim, start and begin the records; a record conflict undoes everything. */
    method ClaimJob(w: nat, id: JobId, row: ExportJob, head: Option<Anchor>, seconds: LeaseSeconds)
      requires Valid()
      requires id in jobs ==> jobs[id] == row
      requires id !in jobs ==> id == nextJob && !Exists(jobs, row.payload.key) && Claimable(row, now)
      modifies this
      ensures Valid() && State() == ClaimRow(exporter, old(State()), w, id, row, head, seconds)
    {
      var source := row.payload.key.source;
      var (claimed, ok) := Claim(row, w, nextToken, seconds, now);
      if !ok {
        LeaveUnclaimed(w, id, claimed);
        return;
      }
      var reused := None;
      if exporter.recorded(source) {
        var begun := Begin(if source in records then Some(records[source]) else None, row.attempts == 0);
        if begun == None { Remember(w, Idle(true)); return; }
        records := records[source := begun.value];
        reused := Reused(begun);
      }
      var started := Start(claimed, w, nextToken, now);
      SaveStarted(w, id, started.value, Attempt(id, nextToken, row.payload.key, AnchorIdentity(head), reused));
    }

    method SaveStarted(w: nat, id: JobId, row: ExportJob, a: Attempt)
      requires Valid()
      requires if id in jobs then jobs[id].payload.key == row.payload.key else id == nextJob && !Exists(jobs, row.payload.key)
      modifies this`jobs, this`nextJob, this`nextToken, this`workers
      ensures Valid() && jobs == old(jobs)[id := row] && nextToken == old(nextToken) + 1
      ensures workers == old(workers)[w := Prepared(a)]
      ensures nextJob == if id < old(nextJob) then old(nextJob) else id + 1
    {
      KeyStaysUnique(jobs, id, row, row);
      jobs := jobs[id := row];
      if nextJob <= id { nextJob := id + 1; }
      Remember(w, Prepared(a));
      nextToken := nextToken + 1;
    }

    /** `render` and `_validate_rendered`. */
    method RenderAttempt(w: nat)
      modifies this`workers
      ensures State() == Render(exporter, old(State()), w)
    {
      if w !in workers || !workers[w].Prepared? { return; }
      var a := workers[w].attempt;
      var desired := exporter.render(a.key.source, a.expected);
      if FenceAccepts(disk, a.expected, desired, exporter.preserving(a.key.source)) && (a.reused == None || a.reused == Some(desired.tree)) {
        Remember(w, Rendered(a, desired, disk));
      } else {
        Remember(w, Failing(a, false));
      }
    }

    /** `_renew_before_publish`. */
    method RenewBeforePublish(w: nat, seconds: LeaseSeconds)
      requires Valid()
      modifies this`jobs, this`workers
      ensures Valid() && State() == Renew(old(State()), w, seconds)
      ensures var before := old(WorkerOf(State(), w));
              if before.Rendered? && before.attempt.job in old(jobs) && old(jobs)[before.attempt.job].status.Running?
                 && Owns(old(jobs)[before.attempt.job], w, before.attempt.token, now)
              then
                var j, row := before.attempt.job, old(jobs)[before.attempt.job];
                && j in jobs && jobs == old(jobs)[j := jobs[j]]
                && jobs[j].payload == row.payload.(body := Intent(before.identity))
                && jobs[j].lease == Some(Lease(w, before.attempt.token, now + seconds)) && jobs[j].status.Running?
                && WorkerOf(State(), w) == Intended(before.attempt, before.identity, before.fence)
              else jobs == old(jobs) && !(before.Rendered? && WorkerOf(State(), w).Intended?)
    {
      if w !in workers || !workers[w].Rendered? { return; }
      var a, identity, fence := workers[w].attempt, workers[w].identity, workers[w].fence;
      if a.job !in jobs { return; }
      var row := jobs[a.job];
      var renewed := RenewLease(row, w, a.token, seconds, row.payload.(body := Intent(identity)), now);
      if renewed == None { Remember(w, Idle(true)); return; }
      KeyStaysUnique(jobs, a.job, row, renewed.value);
      jobs := jobs[a.job := renewed.value];
      Remember(w, Intended(a, identity, fence));
    }

    /** `publish`, under the author's lock. */
    method PublishTree(w: nat, raises: bool)
      modifies this`disk, this`workers
      ensures State() == Publish(old(State()), w, raises)
      ensures disk != old(disk) ==>
                var before := old(WorkerOf(State(), w));
                before.Intended? && old(disk) == before.fence && disk == Some(before.identity)
      ensures var before := old(WorkerOf(State(), w));
              before.Intended? ==>
                if old(disk) == before.fence then
                  disk == Some(before.identity) &&
                  WorkerOf(State(), w) == if raises then Failing(before.attempt, true) else Published(before.attempt, before.identity)
                else disk == old(disk) && WorkerOf(State(), w) == Failing(before.attempt, true)
    {
      if w !in workers || !workers[w].Intended? { return; }
      var a, identity := workers[w].attempt, workers[w].identity;
      if disk != workers[w].fence {
        Remember(w, Failing(a, true));
      } else {
        disk := Some(identity);
        Remember(w, if raises then Failing(a, true) else Published(a, identity));
      }
    }

    /** `_finalize`: complete the records, then the job; a failure of either undoes both. */
    method FinalizeAttempt(w: nat)
      requires Valid()
      modifies this`jobs, this`records, this`workers
      ensures Valid() && State() == Finalize(exporter, old(State()), w)
      ensures jobs != old(jobs) ==>
                var before := old(WorkerOf(State(), w));
                before.Published? && var a := before.attempt;
                && a.job in old(jobs) && old(jobs)[a.job].status.Running? && Owns(old(jobs)[a.job], w, a.token, now)
                && a.job in jobs && jobs == old(jobs)[a.job := jobs[a.job]]
                && jobs[a.job].status.Succeeded? && jobs[a.job].payload.body == Result(before.identity)
    {
      if w !in workers || !workers[w].Published? { return; }
      var a, identity := workers[w].attempt, workers[w].identity;
      if a.job !in jobs { return; }
      var row, source := jobs[a.job], a.key.source;
      var pending := exporter.recorded(source) && a.reused == None;
      var done := Complete(row, w, a.token, row.payload.(body := Result(identity)), now);
      if (pending && (source !in records || records[source] != RecordRunning)) || done == None {
        Remember(w, Idle(true));
        return;
      }
      if pending { records := records[source := RecordSucceeded(identity.tree)]; }
      KeyStaysUnique(jobs, a.job, row, done.value);
      jobs := jobs[a.job := done.value];
      Remember(w, Idle(true));
    }

    /** `_record_failure`: fail the records, then the job; a failure of either undoes both. */
    method RecordAttemptFailure(w: nat)
      requires Valid()
      modifies this`jobs, this`records, this`workers
      ensures Valid() && State() == RecordFailure(exporter, old(State()), w)
    {
      if w !in workers || !workers[w].Failing? { return; }
      var a, code := workers[w].attempt, workers[w].retryable;
      if a.job !in jobs { return; }
      var row, source := jobs[a.job], a.key.source;
      var retryable := code && row.attempts < row.maxAttempts;
      var pending := exporter.recorded(source) && a.reused == None;
      var failed := Fail(row, w, a.token, retryable, now);
      if (pending && (source !in records || records[source] != RecordRunning)) || failed == None {
        Remember(w, Idle(true));
        return;
      }
      if pending { records := records[source := RecordFailed(retryable)]; }
      KeyStaysUnique(jobs, a.job, row, failed.value);
      jobs := jobs[a.job := failed.value];
      Remember(w, Idle(true));
    }

    /** One candidate of `_recover_published_predecessor`, or its decision. */
    method ValidateCandidate(w: nat)
      modifies this`workers
      ensures State() == Validate(old(State()), w)
    {
      if w !in workers || !workers[w].Scanning? { return; }
      var todo, matching := workers[w].todo, workers[w].matching;
      if todo != [] {
        if todo[0].row.payload.body.Intent? && disk == Some(todo[0].row.payload.body.identity) {
          matching := matching + [todo[0]];
        }
        Remember(w, Scanning(todo[1..], matching));
      } else if matching == [] {
        Remember(w, Idle(false));
      } else if |matching| != 1 {
        Remember(w, Idle(true));
      } else {
        var row := matching[0].row;
        var live := (row.status.Claimed? || row.status.Running?) && (row.lease == None || now < row.lease.value.expires);
        Remember(w, if live then Idle(true) else Recovering(matching[0]));
      }
    }

    /** `_finalize_recovered_publication`. */
    method FinalizeCandidate(w: nat)
      requires Valid()
      modifies this`jobs, this`records, this`workers
      ensures Valid() && State() == FinalizeRecovered(exporter, old(State()), w)
    {
      if w !in workers || !workers[w].Recovering? { return; }
      var c := workers[w].candidate;
      Remember(w, Idle(true));
      if c.job !in jobs { return; }
      var row := jobs[c.job];
      if row.status.Succeeded? || row.payload != c.row.payload || !row.payload.body.Intent? { return; }
      var identity, source := row.payload.body.identity, row.payload.key.source;
      if exporter.recorded(source) {
        if source !in records { return; }
        if records[source].RecordSucceeded? && records[source].tree != identity.tree { return; }
      }
      var done := CompleteRecovered(row, row.payload.(body := Result(identity)), now);
      if done == None { return; }
      if exporter.recorded(source) { records := records[source := RecordSucceeded(identity.tree)]; }
      KeyStaysUnique(jobs, c.job, row, done.value);
      jobs := jobs[c.job := done.value];
    }
  }

  /** Rewriting a row under its key, or adding one under a new key, keeps keys unique. */
  lemma KeyStaysUnique(jobs: JobTable, id: JobId, row: ExportJob, row': ExportJob)
    requires Safety.KeysUnique(jobs) && row'.payload.key == row.payload.key
    requires if id in jobs then jobs[id].payload.key == row.payload.key else !Exists(jobs, row.payload.key)
    ensures Safety.KeysUnique(jobs[id := row'])
  {
    var jobs' := jobs[id := row'];
    forall i, j | Safety.SameKey(jobs', i, j) ensures i == j {
      if i in jobs && j in jobs { assert Safety.SameKey(jobs, i, j); }
    }
  }
}
