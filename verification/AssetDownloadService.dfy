/** The download service of one asset: every method is one database transaction, written
    as the service performs it and proved to be the corresponding step. */
module AssetDownload {
  import opened Wrappers
  import opened Jobs
  import opened Downloads

  class AssetDownloadService {
    var asset: Asset
    var jobs: map<nat, DownloadJob>
    var nextToken: nat
    var now: nat
    var workers: map<nat, Worker>

    ghost function State(): Store
      reads this
    {
      Store(asset, jobs, nextToken, now, workers)
    }

    constructor ()
      ensures State() == EMPTY
    {
      asset, jobs, nextToken, now, workers := Asset(Discovered, 1, None, false, None), map[], 0, 0, map[];
    }

    method Remember(w: nat, state: Worker)
      modifies this`workers
      ensures workers == old(workers)[w := state]
    {
      workers := workers[w := state];
    }

    /** `_begin`. */
    method BeginDownload(w: nat, allowRecovery: bool, scope: nat, attempts: MaxAttempts, seconds: LeaseSeconds)
      modifies this
      ensures State() == Begin(old(State()), w, allowRecovery, scope, attempts, seconds)
    {
      if w in workers && workers[w] != Resting { return; }
      var g := asset.generation;
      if asset.status.Verified? || asset.status == AssetFailed(false) {
        var mine := asset.job == Some(g) && g in jobs && jobs[g].payload == scope;
        if asset.status.Verified? && (asset.job == None || mine) && asset.content.Some? {
          Remember(w, Inspects(g, asset.content.value));
        } else if !asset.status.Verified? && mine && allowRecovery && Recoverable(asset, jobs[g], now) {
          Remember(w, Recovers(Recovery(g, jobs[g].status, jobs[g].lease)));
        } else {
          Remember(w, Resting);
        }
        return;
      }
      if g !in jobs { jobs := jobs[g := Enqueued(scope, attempts, now)]; }
      assert jobs == old(jobs)[g := jobs[g]];
      DecideOnJob(w, allowRecovery, scope, seconds);
    }

    method DecideOnJob(w: nat, allowRecovery: bool, scope: nat, seconds: LeaseSeconds)
      requires asset.generation in jobs
      modifies this
      ensures State() == BeginJob(old(State()), w, allowRecovery, scope, seconds)
    {
      var g := asset.generation;
      var job := jobs[g];
      if job.payload != scope || (asset.status.Downloading? && asset.job != Some(g)) { Remember(w, Resting); return; }
      if allowRecovery && Recoverable(asset, job, now) { Remember(w, Recovers(Recovery(g, job.status, job.lease))); return; }
      if asset.status.Downloading? {
        var reclaimed := Reclaim(job, now);
        if !Expired(job, now) && !reclaimed.status.FailedRetryable? && !reclaimed.status.FailedTerminal? {
          Remember(w, Resting);
          return;
        }
        var mirrored := MirrorReclaim(asset, reclaimed);
        if mirrored == None { Remember(w, Resting); return; }
        jobs := jobs[g := reclaimed];
        asset := mirrored.value;
        if asset.status == AssetFailed(false) { Remember(w, Resting); return; }
      }
      if !asset.status.AssetQueued? { asset := QueueAsset(asset); }
      ClaimAndStartJob(w, seconds);
    }

    method ClaimAndStartJob(w: nat, seconds: LeaseSeconds)
      requires asset.generation in jobs
      modifies this
      ensures State() == ClaimAndStart(old(State()), w, seconds)
    {
      var g := asset.generation;
      var (row, ok) := Claim(jobs[g], w, nextToken, seconds, now);
      if !ok {
        jobs := jobs[g := row];
        Remember(w, Resting);
        return;
      }
      var running := Start(row, w, nextToken, now);
      jobs := jobs[g := running.value];
      asset := StartAsset(asset);
      Remember(w, Downloads(Prepared(g, nextToken)));
      nextToken := nextToken + 1;
    }

    /** `_takeover_prepared_recovery`: the job first, then the asset; any mismatch undoes both. */
    method TakeoverPrepared(w: nat, seconds: LeaseSeconds)
      modifies this
      ensures State() == Takeover(old(State()), w, seconds)
    {
      if w !in workers || !workers[w].Recovers? { return; }
      var r := workers[w].recovery;
      Remember(w, Resting);
      if r.generation !in jobs { return; }
      var running := None;
      if r.status.Running? {
        if r.lease == None { return; }
        running := TakeoverExpired(jobs[r.generation], r.lease.value, w, nextToken, seconds, now);
      } else {
        running := ResumeReclaimed(jobs[r.generation], r.status, w, nextToken, seconds, now);
      }
      if running == None { return; }
      var resumed := asset;
      if !r.status.Running? && !asset.status.Downloading? {
        var back := ResumeAsset(asset, r);
        if back == None { return; }
        resumed := back.value;
      }
      if resumed.generation != r.generation || !resumed.status.Downloading? || resumed.job != Some(r.generation) { return; }
      jobs := jobs[r.generation := running.value];
      asset := resumed;
      Remember(w, Downloads(Prepared(r.generation, nextToken)));
      nextToken := nextToken + 1;
    }

    /** `_guard_publish`: the worker goes on to publish exactly if job and asset are still its
        own, and then nothing but the expiry of its lease has moved. */
    method GuardPublish(w: nat, seconds: LeaseSeconds)
      modifies this`jobs, this`workers
      ensures State() == Guard(old(State()), w, seconds)
      ensures var before := old(WorkerOf(State(), w));
              before.Downloads? ==>
                (WorkerOf(State(), w) == Publishes(before.prepared) <==> old(Controls(State(), w, before.prepared))) &&
                (!WorkerOf(State(), w).Publishes? ==> jobs == old(jobs))
      ensures jobs.Keys == old(jobs).Keys
      ensures forall g :: g in jobs ==> jobs[g].(lease := old(jobs)[g].lease) == old(jobs)[g]
    {
      if w !in workers || !workers[w].Downloads? { return; }
      var p := workers[w].prepared;
      Remember(w, Resting);
      if p.generation !in jobs { return; }
      var renewed := RenewUnreclaimed(jobs[p.generation], w, p.token, seconds, now);
      if renewed == None || !AssetIsMine(asset, p) { return; }
      jobs := jobs[p.generation := renewed.value];
      Remember(w, Publishes(p));
    }

    /** `_finalize_success`: exactly if job and asset are still this worker's, the asset holds
        the content and the job has succeeded; else neither row is touched. */
    method FinalizeSuccess(w: nat, content: nat, seconds: LeaseSeconds)
      modifies this`asset, this`jobs, this`workers
      ensures State() == Finalize(old(State()), w, content, seconds)
      ensures var before := old(WorkerOf(State(), w));
              if before.Publishes? && old(Controls(State(), w, before.prepared)) then
                && asset == old(asset).(status := Verified, content := Some(content), expired := false)
                && var g := before.prepared.generation;
                   g in jobs && jobs == old(jobs)[g := jobs[g]] && jobs[g].status.Succeeded? && jobs[g].lease == None
              else asset == old(asset) && jobs == old(jobs)
    {
      if w !in workers || !workers[w].Publishes? { return; }
      var p := workers[w].prepared;
      Remember(w, Resting);
      if p.generation !in jobs { return; }
      var renewed := RenewUnreclaimed(jobs[p.generation], w, p.token, seconds, now);
      if renewed == None || !AssetIsMine(asset, p) { return; }
      var done := Complete(renewed.value, w, p.token, renewed.value.payload, now);
      if done == None { return; }
      asset := asset.(status := Verified, content := Some(content), expired := false);
      jobs := jobs[p.generation := done.value];
    }

    /** `_record_failure`: exactly if the worker may fail its attempt so, asset and job end in
        the same kind of failure without a lease; else neither row is touched. */
    method RecordDownloadFailure(w: nat, retryable: bool)
      modifies this`asset, this`jobs, this`workers
      ensures State() == RecordFailure(old(State()), w, retryable)
      ensures var before := Attempting(old(WorkerOf(State(), w)));
              if before.Some? && old(CanFail(State(), w, before.value, retryable)) then
                && asset == old(asset).(status := AssetFailed(retryable), expired := false)
                && var g := before.value.generation;
                   g in jobs && jobs == old(jobs)[g := jobs[g]] && jobs[g].lease == None
                   && jobs[g].status == if retryable then FailedRetryable else FailedTerminal
              else asset == old(asset) && jobs == old(jobs)
    {
      if w !in workers || (!workers[w].Downloads? && !workers[w].Publishes?) { return; }
      var p := workers[w].prepared;
      Remember(w, Resting);
      if p.generation !in jobs { return; }
      var failed := Fail(jobs[p.generation], w, p.token, retryable, now);
      if failed == None || !AssetIsMine(asset, p) { return; }
      if failed.value.status.FailedRetryable? != retryable { return; }
      asset := asset.(status := AssetFailed(retryable), expired := false);
      jobs := jobs[p.generation := failed.value];
    }

    /** The reset at the end of `_validate_verified_archive`. */
    method ResetVerifiedArchive(w: nat)
      modifies this`asset, this`workers
      ensures State() == ResetArchive(old(State()), w)
      ensures var before := old(WorkerOf(State(), w));
              asset == if before.Inspects? && old(asset).status.Verified? && old(asset).generation == before.generation
                          && old(asset).content == Some(before.content)
                       then Asset(Discovered, before.generation + 1, None, false, None) else old(asset)
    {
      if w !in workers || !workers[w].Inspects? { return; }
      var g, content := workers[w].generation, workers[w].content;
      Remember(w, Resting);
      if asset.generation == g && asset.status.Verified? && asset.content == Some(content) {
        asset := NextGeneration(asset);
      }
    }
  }
}
