/** The reversible exchange of a login profile: three directory slots on one volume, renames
    that may fail, and a database that publishes authentication between them. */
module ProfileExchange {
  import opened Wrappers

  type Profile = nat

  datatype Slots = Slots(candidate: Option<Profile>, target: Option<Profile>, backup: Option<Profile>, published: bool)

  /** Which `os.replace` and `rmtree` calls of one adoption succeed. */
  datatype Faults = Faults(
    setAside: bool, moveIn: bool, restore: bool,
    moveOut: bool, bringBack: bool, keepUsable: bool,
    removeBackup: bool, removeStaging: bool
  )

  datatype Verdict = Adopted | FilesystemFailed | RollbackFailed | CleanupFailed | Rejected

  /** Until authentication is published the previous profile is at its place or set aside;
      from then on the target holds the probed copy. */
  ghost predicate Survives(s: Slots, previous: Option<Profile>, probed: Profile) {
    if s.published then s.target == Some(probed)
    else previous.Some? ==> s.target == previous || s.backup == previous
  }

  predicate Tracked(trail: seq<Slots>, s: Slots) {
    trail != [] && trail[|trail| - 1] == s
  }

  class ProfileReplacement {
    var slots: Slots
    var hadTarget: bool
    var installed: bool
    /** Every state the directories passed through: a crash may leave any of them. */
    ghost var trail: seq<Slots>

    constructor (s: Slots)
      ensures slots == s && !hadTarget && !installed && trail == [s]
    {
      slots, hadTarget, installed := s, false, false;
      trail := [s];
    }

    method Write(s: Slots)
      modifies this`slots, this`trail
      ensures slots == s && trail == old(trail) + [s]
    {
      slots := s;
      trail := trail + [s];
    }

    /** The rename of one directory onto a free name; it happens entirely or not at all. */
    method TargetToBackup(allowed: bool) returns (ok: bool)
      modifies this`slots, this`trail
      ensures ok <==> allowed && old(slots).target.Some? && old(slots).backup == None
      ensures slots == if ok then old(slots).(target := None, backup := old(slots).target) else old(slots)
      ensures trail == if ok then old(trail) + [slots] else old(trail)
    {
      ok := allowed && slots.target.Some? && slots.backup == None;
      if ok { Write(slots.(target := None, backup := slots.target)); }
    }

    method CandidateToTarget(allowed: bool) returns (ok: bool)
      modifies this`slots, this`trail
      ensures ok <==> allowed && old(slots).candidate.Some? && old(slots).target == None
      ensures slots == if ok then old(slots).(candidate := None, target := old(slots).candidate) else old(slots)
      ensures trail == if ok then old(trail) + [slots] else old(trail)
    {
      ok := allowed && slots.candidate.Some? && slots.target == None;
      if ok { Write(slots.(candidate := None, target := slots.candidate)); }
    }

    method TargetToCandidate(allowed: bool) returns (ok: bool)
      modifies this`slots, this`trail
      ensures ok <==> allowed && old(slots).target.Some? && old(slots).candidate == None
      ensures slots == if ok then old(slots).(target := None, candidate := old(slots).target) else old(slots)
      ensures trail == if ok then old(trail) + [slots] else old(trail)
    {
      ok := allowed && slots.target.Some? && slots.candidate == None;
      if ok { Write(slots.(target := None, candidate := slots.target)); }
    }

    method BackupToTarget(allowed: bool) returns (ok: bool)
      modifies this`slots, this`trail
      ensures ok <==> allowed && old(slots).backup.Some? && old(slots).target == None
      ensures slots == if ok then old(slots).(backup := None, target := old(slots).backup) else old(slots)
      ensures trail == if ok then old(trail) + [slots] else old(trail)
    {
      ok := allowed && slots.backup.Some? && slots.target == None;
      if ok { Write(slots.(backup := None, target := slots.backup)); }
    }

    /** `install`: set the previous profile aside, move the candidate in, or undo. */
    method Install(f: Faults) returns (v: Option<Verdict>)
      requires !slots.published && !hadTarget && !installed && slots.candidate.Some? && Tracked(trail, slots)
      modifies this
      ensures installed <==> v == None
      ensures v == None <==> old(slots).backup == None && (old(slots).target == None || f.setAside) && f.moveIn
      ensures v == None ==> slots == Slots(None, old(slots).candidate, old(slots).target, false)
      ensures v == None ==> (hadTarget <==> old(slots).target.Some?)
      ensures v == Some(FilesystemFailed) ==> slots == old(slots)
      ensures v == Some(RollbackFailed) <==>
                old(slots).backup == None && old(slots).target.Some? && f.setAside && !f.moveIn && !f.restore
      ensures v == Some(RollbackFailed) ==> slots == old(slots).(target := None, backup := old(slots).target)
      ensures v == None || v == Some(FilesystemFailed) || v == Some(RollbackFailed)
      ensures old(trail) <= trail && Passed(|old(trail)|, trail, old(slots).target) && Tracked(trail, slots)
    {
      if slots.backup.Some? { return Some(FilesystemFailed); }
      if slots.target.Some? {
        var aside := TargetToBackup(f.setAside);
        if !aside { return Some(FilesystemFailed); }
        hadTarget := true;
      }
      var moved := CandidateToTarget(f.moveIn);
      if !moved {
        if hadTarget {
          var restored := BackupToTarget(f.restore);
          if !restored { return Some(RollbackFailed); }
        }
        return Some(FilesystemFailed);
      }
      installed := true;
      return None;
    }

    /** `rollback`: put the previous profile back; if that stops halfway, keep some
        profile at the target, and fail. */
    method Rollback(f: Faults) returns (ok: bool)
      requires installed && !slots.published && slots.candidate == None && slots.target.Some?
      requires (hadTarget <==> slots.backup.Some?) && Tracked(trail, slots)
      modifies this
      ensures !installed
      ensures ok <==> f.moveOut && (old(hadTarget) ==> f.bringBack)
      ensures ok ==> slots == Slots(old(slots).target, old(slots).backup, None, false)
      ensures !ok ==> !slots.published && slots.backup == old(slots).backup
      ensures !ok && (!f.moveOut || f.keepUsable) ==> slots == old(slots)
      ensures !ok && f.moveOut && !f.keepUsable ==> slots == Slots(old(slots).target, None, old(slots).backup, false)
      ensures old(trail) <= trail && Passed(|old(trail)|, trail, old(slots).backup) && Tracked(trail, slots)
    {
      ok := TargetToCandidate(f.moveOut);
      if ok && hadTarget { ok := BackupToTarget(f.bringBack); }
      if !ok && slots.target == None && slots.candidate.Some? {
        var kept := CandidateToTarget(f.keepUsable);
      }
      installed := false;
    }

    /** `commit`, after publication: drop the previous profile, perhaps only in part. */
    method Commit(f: Faults) returns (ok: bool)
      requires installed && slots.published
      modifies this
      ensures ok <==> !hadTarget || f.removeBackup
      ensures slots.published && slots.target == old(slots).target && slots.candidate == old(slots).candidate
      ensures slots.backup == if hadTarget && f.removeBackup then None else old(slots).backup
      ensures hadTarget == old(hadTarget) && (installed <==> !ok)
      ensures trail == if slots == old(slots) && !(hadTarget && f.removeBackup) then old(trail) else old(trail) + [slots]
    {
      if hadTarget {
        if !f.removeBackup { return false; }
        Write(slots.(backup := None));
      }
      installed := false;
      return true;
    }

    /** The locked part of `adopt`: exchange, publish in one transaction, keep or undo, and
        always clear the staging directory at the end. */
    method Adopt(f: Faults, cancelled: bool, databaseCommits: bool) returns (v: Verdict)
      requires !slots.published && !hadTarget && !installed && slots.candidate.Some? && trail == [slots]
      modifies this
      ensures forall i :: 0 <= i < |trail| ==> Survives(trail[i], old(slots).target, old(slots).candidate.value)
      ensures Tracked(trail, slots)
      ensures slots.published <==> v == Adopted || v == CleanupFailed
      ensures slots.published ==> slots.target == old(slots).candidate && databaseCommits && !cancelled
      ensures v == Adopted ==> slots.backup == None
      ensures v == Adopted <==> old(slots).backup == None && (old(slots).target == None || (f.setAside && f.removeBackup))
                                && f.moveIn && !cancelled && databaseCommits
      ensures v == CleanupFailed <==> old(slots).backup == None && old(slots).target.Some? && f.setAside && !f.removeBackup
                                      && f.moveIn && !cancelled && databaseCommits
      ensures v == Rejected <==> old(slots).backup == None && (old(slots).target == None || (f.setAside && f.bringBack))
                                 && f.moveIn && (cancelled || !databaseCommits) && f.moveOut
      ensures v == FilesystemFailed <==> old(slots).backup.Some? || (old(slots).target.Some? && !f.setAside)
                                         || (!f.moveIn && (old(slots).target == None || f.restore))
      ensures v == RollbackFailed <==>
                && old(slots).backup == None && (old(slots).target == None || f.setAside)
                && (if f.moveIn then (cancelled || !databaseCommits) && !(f.moveOut && (old(slots).target == None || f.bringBack))
                    else old(slots).target.Some? && !f.restore)
      ensures v == CleanupFailed ==> slots.backup == old(slots).target
      ensures v == Rejected || v == FilesystemFailed ==>
                slots.target == old(slots).target && slots.backup == old(slots).backup
      ensures v == RollbackFailed ==> slots.backup == old(slots).target
      ensures v == RollbackFailed ==>
                slots.target == if f.moveIn && (!f.moveOut || f.keepUsable) then old(slots).candidate else None
      // The staging directory: cleared whenever that is possible, else it holds the copy
      // exactly where no profile was left at the target, or the refusal put it back there.
      ensures f.removeStaging ==> slots.candidate == None
      ensures !f.removeStaging ==>
                slots.candidate == if v == Rejected || v == FilesystemFailed || (v == RollbackFailed && slots.target == None)
                                   then old(slots).candidate else None
    {
      var refused := Install(f);
      if refused == None {
        if cancelled || !databaseCommits {
          var restored := Rollback(f);
          v := if restored then Rejected else RollbackFailed;
        } else {
          Write(slots.(published := true));
          var cleaned := Commit(f);
          v := if cleaned then Adopted else CleanupFailed;
        }
      } else {
        v := refused.value;
      }
      if f.removeStaging && slots.candidate.Some? { Write(slots.(candidate := None)); }
    }
  }

  /** Every state recorded from `from` on is unpublished and still has the previous profile. */
  ghost predicate Passed(from: nat, trail: seq<Slots>, previous: Option<Profile>) {
    forall i :: from <= i < |trail| ==>
      !trail[i].published && (previous.Some? ==> trail[i].target == previous || trail[i].backup == previous)
  }
}
