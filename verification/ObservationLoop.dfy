/** The loops of an author observation: the lookup budget, the cancellable wait, and the
    poll for two matching lookups. */
module ObservationLoop {
  import opened Wrappers
  import opened Operations
  import opened Observation

  // ----- The lookup budget -----

  datatype Provider = Emby | Jellyfin

  datatype Usage = Usage(pages: nat, rows: nat, bytes: nat)

  /** Server-owned ceilings; callers may only lower them. */
  type Limits = u: Usage | 1 <= u.pages <= 128 && 1 <= u.rows <= 16_384 && 1 <= u.bytes <= 33_554_432 witness Usage(1, 1, 1)

  function Reservation(provider: Provider): Usage {
    match provider
    case Emby => Usage(1, 2, 262_144)
    case Jellyfin => Usage(32, 4_096, 8_388_608)
  }

  predicate Fits(u: Usage, limit: Usage) {
    u.pages <= limit.pages && u.rows <= limit.rows && u.bytes <= limit.bytes
  }

  function Min(a: nat, b: nat): nat { if a <= b then a else b }

  function MaximumPasses(limits: Usage, provider: Provider): nat {
    var r := Reservation(provider);
    Min(Min(limits.pages / r.pages, limits.rows / r.rows), limits.bytes / r.bytes)
  }

  function Times(n: nat, u: Usage): Usage { Usage(n * u.pages, n * u.rows, n * u.bytes) }

  function Add(a: Usage, b: Usage): Usage { Usage(a.pages + b.pages, a.rows + b.rows, a.bytes + b.bytes) }

  /** The floor divisions allow exactly the passes whose full reservations fit together. */
  lemma PassBoundIsExact(limits: Limits, provider: Provider, n: nat)
    ensures n <= MaximumPasses(limits, provider) <==> Fits(Times(n, Reservation(provider)), limits)
  {
    match provider
    case Emby => assert Reservation(Emby) == Usage(1, 2, 262_144);
    case Jellyfin => assert Reservation(Jellyfin) == Usage(32, 4_096, 8_388_608);
  }

  lemma TimesGrows(provider: Provider, m: nat, n: nat)
    requires m <= n
    ensures Fits(Times(m, Reservation(provider)), Times(n, Reservation(provider)))
    ensures Add(Times(m, Reservation(provider)), Reservation(provider)) == Times(m + 1, Reservation(provider))
  {
    match provider
    case Emby => assert Reservation(Emby) == Usage(1, 2, 262_144);
    case Jellyfin => assert Reservation(Jellyfin) == Usage(32, 4_096, 8_388_608);
  }

  class LookupBudget {
    const limits: Limits
    var passesStarted: nat
    var used: Usage
    ghost var passesFinished: nat

    constructor (limits: Limits)
      ensures this.limits == limits && passesStarted == 0 && used == Usage(0, 0, 0) && passesFinished == 0
    {
      this.limits := limits;
      passesStarted, used, passesFinished := 0, Usage(0, 0, 0), 0;
    }

    /** All passes so far were for `provider` and stayed within their reservations. */
    ghost predicate Keeps(provider: Provider)
      reads this
    {
      && passesFinished <= passesStarted <= MaximumPasses(limits, provider)
      && Fits(used, Times(passesFinished, Reservation(provider)))
    }

    method Start(provider: Provider) returns (ok: bool)
      modifies this`passesStarted
      ensures ok <==> old(passesStarted) < MaximumPasses(limits, provider)
      ensures passesStarted == old(passesStarted) + if ok then 1 else 0
    {
      ok := passesStarted < MaximumPasses(limits, provider);
      if ok { passesStarted := passesStarted + 1; }
    }

    /** Accounts one pass.  For one provider the totals never exceed the limits: only a
        lookup that outgrows its own reservation is refused. */
    method Finish(provider: Provider, result: Usage) returns (ok: bool)
      modifies this`used, this`passesFinished
      ensures ok <==> Fits(result, Reservation(provider)) && Fits(Add(old(used), result), limits)
      ensures used == if Fits(result, Reservation(provider)) then Add(old(used), result) else old(used)
      ensures old(Keeps(provider)) && old(passesFinished) < passesStarted ==>
                Keeps(provider) && Fits(used, limits) && (ok <==> Fits(result, Reservation(provider)))
    {
      if !Fits(result, Reservation(provider)) {
        TotalsFit(provider);
        return false;
      }
      ghost var before := used;
      used := Add(used, result);
      if Keeping(provider, before) {
        TimesGrows(provider, passesFinished, passesFinished);
        passesFinished := passesFinished + 1;
        TotalsFit(provider);
      }
      return Fits(used, limits);
    }

    ghost predicate Keeping(provider: Provider, before: Usage)
      reads this
    {
      && passesFinished < passesStarted <= MaximumPasses(limits, provider)
      && Fits(before, Times(passesFinished, Reservation(provider)))
    }

    lemma TotalsFit(provider: Provider)
      ensures Keeps(provider) ==> Fits(used, limits)
    {
      if Keeps(provider) {
        PassBoundIsExact(limits, provider, passesFinished);
      }
    }
  }

  // ----- Waiting -----

  /** One look at the clock: the reading, a cancellation seen just before it, and whether
      the wait that followed ended because of one. */
  datatype Tick = Tick(now: int, cancelled: bool, signalled: bool)

  function Wait(ticks: seq<Tick>, notBefore: int, deadline: int): Option<int>
    decreases |ticks|
  {
    if ticks == [] || ticks[0].cancelled || ticks[0].now >= deadline then None
    else if ticks[0].now >= notBefore then Some(ticks[0].now)
    else if ticks[0].signalled then None
    else Wait(ticks[1..], notBefore, deadline)
  }

  /** `_wait_until`. */
  method WaitUntil(ticks: seq<Tick>, notBefore: int, deadline: int) returns (woke: Option<int>)
    ensures woke == Wait(ticks, notBefore, deadline)
  {
    var i := 0;
    while i < |ticks|
      invariant 0 <= i <= |ticks|
      invariant Wait(ticks, notBefore, deadline) == Wait(ticks[i..], notBefore, deadline)
    {
      var tick := ticks[i];
      if tick.cancelled || tick.now >= deadline { return None; }
      if tick.now >= notBefore { return Some(tick.now); }
      if tick.signalled { return None; }
      assert ticks[i..][1..] == ticks[i + 1..];
      i := i + 1;
    }
    return None;
  }

  /** Reading `k` is the first that is late enough, and nothing before it ended the wait. */
  predicate WakesAt(ticks: seq<Tick>, notBefore: int, deadline: int, k: nat) {
    && k < |ticks| && !ticks[k].cancelled && notBefore <= ticks[k].now < deadline
    && forall i :: 0 <= i < k ==> !ticks[i].cancelled && !ticks[i].signalled && ticks[i].now < notBefore && ticks[i].now < deadline
  }

  lemma WakesLater(ticks: seq<Tick>, notBefore: int, deadline: int, k: nat)
    requires ticks != [] && !ticks[0].cancelled && !ticks[0].signalled && ticks[0].now < notBefore && ticks[0].now < deadline
    ensures WakesAt(ticks[1..], notBefore, deadline, k) <==> WakesAt(ticks, notBefore, deadline, k + 1)
  {
    if WakesAt(ticks, notBefore, deadline, k + 1) {
      forall i | 0 <= i < k
        ensures !ticks[1..][i].cancelled && !ticks[1..][i].signalled && ticks[1..][i].now < notBefore && ticks[1..][i].now < deadline
      {
        assert ticks[1..][i] == ticks[i + 1];
      }
    }
    if WakesAt(ticks[1..], notBefore, deadline, k) {
      forall i | 0 <= i < k + 1
        ensures !ticks[i].cancelled && !ticks[i].signalled && ticks[i].now < notBefore && ticks[i].now < deadline
      {
        if i > 0 { assert ticks[i] == ticks[1..][i - 1]; }
      }
    }
  }

  /** The wait returns a reading if and only if it wakes there. */
  lemma {:induction false} WakesExactly(ticks: seq<Tick>, notBefore: int, deadline: int, now: int)
    ensures Wait(ticks, notBefore, deadline) == Some(now) <==> exists k: nat :: WakesAt(ticks, notBefore, deadline, k) && ticks[k].now == now
    decreases |ticks|
  {
    if ticks != [] && !ticks[0].cancelled && ticks[0].now < deadline {
      if ticks[0].now >= notBefore {
        assert WakesAt(ticks, notBefore, deadline, 0);
      } else if !ticks[0].signalled {
        var rest := ticks[1..];
        WakesExactly(rest, notBefore, deadline, now);
        if Wait(ticks, notBefore, deadline) == Some(now) {
          var k: nat :| WakesAt(rest, notBefore, deadline, k) && rest[k].now == now;
          WakesLater(ticks, notBefore, deadline, k);
        }
        if k: nat :| WakesAt(ticks, notBefore, deadline, k) && ticks[k].now == now {
          WakesLater(ticks, notBefore, deadline, k - 1);
        }
      }
    }
  }

  /** Waking means: late enough, before the deadline, and nothing cancelled on the way. */
  lemma WakesInTime(ticks: seq<Tick>, notBefore: int, deadline: int)
    ensures Wait(ticks, notBefore, deadline).Some? ==>
              notBefore <= Wait(ticks, notBefore, deadline).value < deadline &&
              exists k :: 0 <= k < |ticks| && ticks[k].now == Wait(ticks, notBefore, deadline).value &&
                          forall i :: 0 <= i <= k ==> !ticks[i].cancelled && (i < k ==> !ticks[i].signalled && ticks[i].now < notBefore)
  {
    var woke := Wait(ticks, notBefore, deadline);
    if woke.Some? { WakesExactly(ticks, notBefore, deadline, woke.value); }
  }

  // ----- Polling -----

  datatype Lookup = Raised | NotFound | Matched(item: nat)

  /** One turn of the poll loop: the wait, the lookup and the checks around it. */
  datatype Turn = Turn(
    ticks: seq<Tick>, lookup: Lookup, completedAt: int, cancelledAfterFirst: bool,
    cancelledBefore: bool, resolved: Option<Target>, cancelledAfter: bool, checkedAt: int,
    observedAt: int, lateCancel: bool
  )

  datatype Poll = Poll(interval: int, deadline: int, target: Target, accepted: Payload)

  /** The checks after a second match. */
  predicate Confirms(p: Poll, t: Turn) {
    && !t.cancelledBefore && t.resolved == Some(p.target)
    && !t.cancelledAfter && t.checkedAt < p.deadline
    && t.observedAt - p.accepted.acceptedAt >= OBSERVATION_SECONDS && !t.lateCancel
  }

  function PollResult(p: Poll, turns: seq<Turn>, first: Option<nat>, notBefore: int): Option<(nat, int)>
    decreases |turns|
  {
    if turns == [] then None else
    var t := turns[0];
    if Wait(t.ticks, notBefore, p.deadline) == None || t.lookup.Raised? || t.completedAt >= p.deadline then None
    else match t.lookup
      case NotFound => if first.Some? then None else PollResult(p, turns[1..], None, t.completedAt + p.interval)
      case Matched(item) =>
        if first == None then
          if t.cancelledAfterFirst then None else PollResult(p, turns[1..], Some(item), t.completedAt + p.interval)
        else if item != first.value || !Confirms(p, t) then None
        else Some((item, t.observedAt))
      case Raised => None
  }

  /** `_poll_observation`; every way out but the last is "completion unknown". */
  method PollObservation(p: Poll, turns: seq<Turn>, startedAt: int) returns (found: Option<(nat, int)>)
    ensures found == PollResult(p, turns, None, startedAt + p.interval)
  {
    var first: Option<nat> := None;
    var nextPollAt := startedAt + p.interval;
    var i := 0;
    while i < |turns|
      invariant 0 <= i <= |turns|
      invariant PollResult(p, turns, None, startedAt + p.interval) == PollResult(p, turns[i..], first, nextPollAt)
    {
      var turn := turns[i];
      assert turns[i..][1..] == turns[i + 1..];
      var woke := WaitUntil(turn.ticks, nextPollAt, p.deadline);
      if woke == None || turn.lookup.Raised? || turn.completedAt >= p.deadline { return None; }
      nextPollAt := turn.completedAt + p.interval;
      if turn.lookup.NotFound? {
        if first.Some? { return None; }
      } else if first == None {
        if turn.cancelledAfterFirst { return None; }
        first := Some(turn.lookup.item);
      } else {
        if turn.lookup.item != first.value || turn.cancelledBefore || turn.resolved != Some(p.target) { return None; }
        if turn.cancelledAfter || turn.checkedAt >= p.deadline { return None; }
        if turn.observedAt - p.accepted.acceptedAt < OBSERVATION_SECONDS || turn.lateCancel { return None; }
        return Some((turn.lookup.item, turn.observedAt));
      }
      i := i + 1;
    }
    return None;
  }

  /** No lookup before turn `i` starts until one interval after the previous one. */
  function DueAt(p: Poll, turns: seq<Turn>, notBefore: int, i: nat): int
    requires i < |turns|
  {
    if i == 0 then notBefore else turns[i - 1].completedAt + p.interval
  }

  /** Turn `i` woke in time and its lookup was answered in time. */
  ghost predicate Answered(p: Poll, turns: seq<Turn>, notBefore: int, i: nat)
    requires i < |turns|
  {
    turns[i].completedAt < p.deadline && exists k: nat :: WakesAt(turns[i].ticks, DueAt(p, turns, notBefore, i), p.deadline, k)
  }

  /** The last check of a second match, field by field. */
  predicate Undisturbed(p: Poll, t: Turn) {
    && !t.cancelledBefore && !t.cancelledAfter && !t.lateCancel && t.resolved == Some(p.target)
    && t.checkedAt < p.deadline && p.accepted.acceptedAt + OBSERVATION_SECONDS <= t.observedAt
  }

  /** Misses, then two matches of one item in turns `k` and `k + 1`, all answered in time. */
  ghost predicate Sighted(p: Poll, turns: seq<Turn>, notBefore: int, k: nat, item: nat, observedAt: int) {
    && k + 1 < |turns|
    && (forall i :: 0 <= i <= k + 1 ==> Answered(p, turns, notBefore, i))
    && (forall i :: 0 <= i < k ==> turns[i].lookup.NotFound?)
    && turns[k].lookup == Matched(item) && turns[k + 1].lookup == Matched(item)
    && !turns[k].cancelledAfterFirst && Undisturbed(p, turns[k + 1]) && turns[k + 1].observedAt == observedAt
  }

  lemma AnsweredExactly(p: Poll, turns: seq<Turn>, notBefore: int)
    requires turns != []
    ensures Answered(p, turns, notBefore, 0) <==> Wait(turns[0].ticks, notBefore, p.deadline).Some? && turns[0].completedAt < p.deadline
  {
    assert DueAt(p, turns, notBefore, 0) == notBefore;
    var ticks, woke := turns[0].ticks, Wait(turns[0].ticks, notBefore, p.deadline);
    if woke.Some? {
      WakesExactly(ticks, notBefore, p.deadline, woke.value);
    } else if k: nat :| WakesAt(ticks, notBefore, p.deadline, k) {
      WakesExactly(ticks, notBefore, p.deadline, ticks[k].now);
      assert false;
    }
  }

  lemma AnsweredLater(p: Poll, turns: seq<Turn>, notBefore: int, i: nat)
    requires i + 1 < |turns|
    ensures Answered(p, turns, notBefore, i + 1) <==> Answered(p, turns[1..], turns[0].completedAt + p.interval, i)
  {
    assert turns[1..][i] == turns[i + 1];
    assert DueAt(p, turns, notBefore, i + 1) == DueAt(p, turns[1..], turns[0].completedAt + p.interval, i);
  }

  lemma SecondMatchExactly(p: Poll, turns: seq<Turn>, first: nat, notBefore: int, item: nat, observedAt: int)
    ensures PollResult(p, turns, Some(first), notBefore) == Some((item, observedAt)) <==>
            turns != [] && Answered(p, turns, notBefore, 0) && item == first && turns[0].lookup == Matched(first)
            && Undisturbed(p, turns[0]) && turns[0].observedAt == observedAt
  {
    if turns != [] { AnsweredExactly(p, turns, notBefore); }
  }

  lemma SightedNow(p: Poll, turns: seq<Turn>, notBefore: int, item: nat, observedAt: int)
    requires turns != []
    ensures Sighted(p, turns, notBefore, 0, item, observedAt) <==>
            && Answered(p, turns, notBefore, 0) && turns[0].lookup == Matched(item) && !turns[0].cancelledAfterFirst
            && PollResult(p, turns[1..], Some(item), turns[0].completedAt + p.interval) == Some((item, observedAt))
  {
    SecondMatchExactly(p, turns[1..], item, turns[0].completedAt + p.interval, item, observedAt);
    if |turns| > 1 { AnsweredLater(p, turns, notBefore, 0); }
  }

  lemma SightedAfterMiss(p: Poll, turns: seq<Turn>, notBefore: int, k: nat, item: nat, observedAt: int)
    requires turns != [] && Answered(p, turns, notBefore, 0) && turns[0].lookup.NotFound?
    requires Sighted(p, turns[1..], turns[0].completedAt + p.interval, k, item, observedAt)
    ensures Sighted(p, turns, notBefore, k + 1, item, observedAt)
  {
    hide Answered, Undisturbed;
    forall i | 0 <= i <= k + 2 ensures Answered(p, turns, notBefore, i) {
      if i > 0 { AnsweredLater(p, turns, notBefore, i - 1); }
    }
    forall i | 0 <= i < k + 1 ensures turns[i].lookup.NotFound? {
      if i > 0 { assert turns[i] == turns[1..][i - 1]; }
    }
  }

  lemma MissBeforeSighted(p: Poll, turns: seq<Turn>, notBefore: int, k: nat, item: nat, observedAt: int)
    requires Sighted(p, turns, notBefore, k + 1, item, observedAt)
    ensures Answered(p, turns, notBefore, 0) && turns[0].lookup.NotFound?
    ensures Sighted(p, turns[1..], turns[0].completedAt + p.interval, k, item, observedAt)
  {
    hide Answered, Undisturbed;
    var rest, later := turns[1..], turns[0].completedAt + p.interval;
    forall i | 0 <= i <= k + 1 ensures Answered(p, rest, later, i) {
      AnsweredLater(p, turns, notBefore, i);
    }
    forall i | 0 <= i < k ensures rest[i].lookup.NotFound? {
      assert rest[i] == turns[i + 1];
    }
  }

  /** The poll succeeds with this item at this time if and only if it was sighted so: it never
      gives up on misses, and on nothing else than the checks named. */
  lemma {:induction false} SucceedsExactly(p: Poll, turns: seq<Turn>, notBefore: int, item: nat, observedAt: int)
    ensures PollResult(p, turns, None, notBefore) == Some((item, observedAt)) <==>
            exists k: nat :: Sighted(p, turns, notBefore, k, item, observedAt)
    decreases |turns|
  {
    if turns != [] {
      var rest, later := turns[1..], turns[0].completedAt + p.interval;
      SucceedsExactly(p, rest, later, item, observedAt);
      AnsweredExactly(p, turns, notBefore);
      SightedNow(p, turns, notBefore, item, observedAt);
      hide Sighted, Answered, WakesAt;
      if k: nat :| Sighted(p, turns, notBefore, k, item, observedAt) {
        if k > 0 { MissBeforeSighted(p, turns, notBefore, k - 1, item, observedAt); }
      }
      if turns[0].lookup.NotFound? && PollResult(p, turns, None, notBefore) == Some((item, observedAt)) {
        var k: nat :| Sighted(p, rest, later, k, item, observedAt);
        SightedAfterMiss(p, turns, notBefore, k, item, observedAt);
      }
    }
  }

  /** Turns `k` and `k + 1` are the two lookups a success rests on. */
  ghost predicate TwoMatches(p: Poll, turns: seq<Turn>, k: nat, item: nat, observedAt: int) {
    && k + 1 < |turns|
    && (forall i :: 0 <= i < k ==> turns[i].lookup.NotFound?)
    && turns[k].lookup == turns[k + 1].lookup == Matched(item)
    && (exists woke :: Wait(turns[k + 1].ticks, turns[k].completedAt + p.interval, p.deadline) == Some(woke)
                       && turns[k].completedAt + p.interval <= woke < p.deadline)
    && turns[k].completedAt < p.deadline && turns[k + 1].completedAt < p.deadline
    && !turns[k].cancelledAfterFirst && Confirms(p, turns[k + 1])
    && observedAt == turns[k + 1].observedAt
  }

  /** In particular a success means two consecutive lookups matched the same item, with no
      miss after the first, at least one interval apart, before the deadline and with the
      target unchanged. */
  lemma SuccessNeedsTwoMatches(p: Poll, turns: seq<Turn>, notBefore: int)
    ensures var r := PollResult(p, turns, None, notBefore);
            r.Some? ==> exists k: nat :: TwoMatches(p, turns, k, r.value.0, r.value.1)
  {
    var r := PollResult(p, turns, None, notBefore);
    if r.Some? {
      SucceedsExactly(p, turns, notBefore, r.value.0, r.value.1);
      var k: nat :| Sighted(p, turns, notBefore, k, r.value.0, r.value.1);
      assert Answered(p, turns, notBefore, k + 1) && Answered(p, turns, notBefore, k);
      var ticks, due := turns[k + 1].ticks, turns[k].completedAt + p.interval;
      var i: nat :| WakesAt(ticks, due, p.deadline, i);
      WakesExactly(ticks, due, p.deadline, ticks[i].now);
      assert TwoMatches(p, turns, k, r.value.0, r.value.1);
    }
  }

  /** Both payloads the worker writes pass the closed validator, two-second rule included. */
  lemma PayloadsAreValid(w: World, acceptedAt: int, p: Poll, turns: seq<Turn>, notBefore: int)
    requires p.accepted == AcceptedPayload(w, acceptedAt)
    ensures ValidPayload(p.accepted)
    ensures var r := PollResult(p, turns, None, notBefore);
            r.Some? ==> ValidPayload(ObservedPayload(p.accepted, r.value.0, r.value.1))
  {
    SuccessNeedsTwoMatches(p, turns, notBefore);
  }
}
