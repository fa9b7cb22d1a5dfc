/** The rotating cursor of the login-session sweep: busy candidates cannot starve others. */
module Sweeping {
  import opened Wrappers

  /** Candidates in the order of their (expiry, identity) pairs. */
  type Key = nat

  type Limit = n: nat | 1 <= n <= 1_000 witness 1

  /** Everything lies after the missing cursor. */
  predicate After(cursor: Option<Key>, k: Key) { cursor == None || cursor.value < k }

  function Later(s: set<Key>, cursor: Option<Key>): set<Key> {
    set k | k in s && After(cursor, k)
  }

  function Between(s: set<Key>, cursor: Option<Key>, upTo: Key): set<Key> {
    set k | k in s && After(cursor, k) && k < upTo
  }

  /** One page: the first `limit` candidates after the cursor. */
  function Page(s: set<Key>, cursor: Option<Key>, limit: Limit): set<Key> {
    set k | k in s && After(cursor, k) && |Between(s, cursor, k)| < limit
  }

  function Start(s: set<Key>, cursor: Option<Key>): Option<Key> {
    if Later(s, cursor) == {} then None else cursor
  }

  /** What a sweep visits: the next page, or the first one when nothing is left. */
  function Visited(s: set<Key>, cursor: Option<Key>, limit: Limit): set<Key> {
    Page(s, Start(s, cursor), limit)
  }

  ghost predicate IsLast(k: Key, s: set<Key>) { k in s && forall x :: x in s ==> x <= k }

  // ----- Pages -----

  lemma BetweenGrows(s: set<Key>, cursor: Option<Key>, a: Key, b: Key)
    requires a <= b
    ensures |Between(s, cursor, a)| <= |Between(s, cursor, b)|
  {
    SubsetSize(Between(s, cursor, a), Between(s, cursor, b));
  }

  lemma {:induction false} SubsetSize(a: set<Key>, b: set<Key>)
    requires a <= b
    ensures |a| <= |b| && |b - a| == |b| - |a|
  {
    assert a + (b - a) == b && a !! (b - a);
  }

  /** A page is an initial stretch: everything after the cursor up to its last element. */
  lemma PageIsStretch(s: set<Key>, cursor: Option<Key>, limit: Limit, last: Key)
    requires IsLast(last, Page(s, cursor, limit))
    ensures Page(s, cursor, limit) == Between(s, cursor, last) + {last}
    ensures |Page(s, cursor, limit)| == |Between(s, cursor, last)| + 1 <= limit
    ensures Later(s, Some(last)) == Later(s, cursor) - Page(s, cursor, limit)
  {
    var page := Page(s, cursor, limit);
    forall k | k in Between(s, cursor, last) ensures k in page { BetweenGrows(s, cursor, k, last); }
    assert page == Between(s, cursor, last) + {last};
  }

  /** A candidate not on the page has a full page before it. */
  lemma UnvisitedIsBehind(s: set<Key>, cursor: Option<Key>, limit: Limit, last: Key, c: Key)
    requires IsLast(last, Page(s, cursor, limit)) && c in Later(s, cursor) && c !in Page(s, cursor, limit)
    ensures last < c && |Page(s, cursor, limit)| == limit
    ensures |Between(s, Some(last), c)| == |Between(s, cursor, c)| - limit
  {
    var page := Page(s, cursor, limit);
    if c <= last { BetweenGrows(s, cursor, c, last); }
    PageIsStretch(s, cursor, limit, last);
    var next := FirstOf(Later(s, cursor) - page);
    BeforeFirst(s, cursor, page, last, next);
    assert Between(s, Some(last), c) == Between(s, cursor, c) - page;
    SubsetSize(page, Between(s, cursor, c));
  }

  lemma BeforeFirst(s: set<Key>, cursor: Option<Key>, page: set<Key>, last: Key, next: Key)
    requires page == Between(s, cursor, last) + {last} && last in s && After(cursor, last)
    requires next in Later(s, cursor) - page && forall x :: x in Later(s, cursor) - page ==> next <= x
    ensures Between(s, cursor, next) == page
  {
    assert next in Later(s, cursor) && next !in page;
    assert last < next;
    forall k | k in Between(s, cursor, next) ensures k in page {
      assert k in Later(s, cursor) - page ==> next <= k;
    }
  }

  lemma {:induction false} FirstOf(s: set<Key>) returns (first: Key)
    requires s != {}
    ensures first in s && forall x :: x in s ==> first <= x
  {
    first :| first in s;
    var rest := s - {first};
    assert forall x :: x in s ==> x == first || x in rest;
    if rest != {} {
      var f := FirstOf(rest);
      first := if f < first then f else first;
    }
  }

  lemma {:induction false} LastOf(s: set<Key>) returns (last: Key)
    requires s != {}
    ensures IsLast(last, s)
  {
    last :| last in s;
    var rest := s - {last};
    assert forall x :: x in s ==> x == last || x in rest;
    if rest != {} {
      var l := LastOf(rest);
      last := if l > last then l else last;
    }
  }

  lemma HasLast(s: set<Key>)
    requires s != {}
    ensures exists last :: IsLast(last, s)
  {
    var last := LastOf(s);
  }

  // ----- Waiting -----

  function Ceiling(n: nat, limit: Limit): nat { (n + limit - 1) / limit }

  /** Division by taking `limit` away until it no longer goes. */
  function Rounds(n: nat, limit: Limit): nat {
    if n < limit then 0 else Rounds(n - limit, limit) + 1
  }

  function Pages(n: nat, limit: Limit): nat { Rounds(n + limit - 1, limit) }

  lemma {:induction false} RoundsIsDivision(n: nat, limit: Limit)
    ensures Rounds(n, limit) == n / limit
  {
    if n < limit {
      QuotientIsUnique(n, limit, 0);
    } else {
      RoundsIsDivision(n - limit, limit);
      QuotientIsUnique(n, limit, (n - limit) / limit + 1);
    }
  }

  lemma QuotientIsUnique(n: nat, limit: Limit, q: nat)
    requires q * limit <= n < q * limit + limit
    ensures n / limit == q
  {
    var d := n / limit - q;
    assert n == limit * (n / limit) + n % limit;
    assert limit * d + n % limit == n - q * limit;
    Multiples(limit, d);
  }

  lemma Multiples(limit: Limit, d: int)
    ensures d >= 1 ==> limit * d >= limit
    ensures d <= -1 ==> limit * d + limit <= 0
  {
  }

  lemma RoundsDrop(n: nat, limit: Limit)
    ensures n >= limit ==> Rounds(n, limit) == Rounds(n - limit, limit) + 1
  {
  }

  lemma {:induction false} Shorter(a: nat, b: nat, limit: Limit)
    requires a <= b
    ensures Rounds(a, limit) <= Rounds(b, limit)
  {
    if a >= limit { Shorter(a - limit, b - limit, limit); }
  }

  /** How many sweeps a candidate waits at most. */
  function Due(s: set<Key>, cursor: Option<Key>, limit: Limit, c: Key): (due: nat)
    ensures due >= 1
  {
    if After(cursor, c) then Rounds(|Between(s, cursor, c)|, limit) + 1
    else Pages(|Later(s, cursor)|, limit) + Rounds(|Between(s, None, c)|, limit) + 1
  }

  /** Candidates that vanish only shorten the wait. */
  lemma RemovalHelps(s: set<Key>, s': set<Key>, cursor: Option<Key>, limit: Limit, c: Key)
    requires s' <= s
    ensures Due(s', cursor, limit, c) <= Due(s, cursor, limit, c)
  {
    SubsetSize(Between(s', cursor, c), Between(s, cursor, c));
    SubsetSize(Between(s', None, c), Between(s, None, c));
    SubsetSize(Later(s', cursor), Later(s, cursor));
    Shorter(|Between(s', cursor, c)|, |Between(s, cursor, c)|, limit);
    Shorter(|Between(s', None, c)|, |Between(s, None, c)|, limit);
    Shorter(|Later(s', cursor)| + limit - 1, |Later(s, cursor)| + limit - 1, limit);
  }

  /** A sweep visits a candidate or brings it one sweep closer. */
  lemma SweepAdvances(s: set<Key>, cursor: Option<Key>, limit: Limit, c: Key, last: Key)
    requires c in s && c !in Visited(s, cursor, limit) && IsLast(last, Visited(s, cursor, limit))
    ensures Due(s, Some(last), limit, c) < Due(s, cursor, limit, c)
  {
    var start := Start(s, cursor);
    if After(start, c) {
      UnvisitedIsBehind(s, start, limit, last, c);
      RoundsDrop(|Between(s, start, c)|, limit);
      assert Due(s, Some(last), limit, c) == Rounds(|Between(s, start, c)|, limit);
      if start != cursor {
        assert start == None && Later(s, cursor) == {};
        assert After(cursor, c) ==> c in Later(s, cursor);
      }
    } else {
      PassedBy(s, cursor, limit, c, last);
    }
  }

  /** Before the wrap: the page eats into what lies after the cursor. */
  lemma PassedBy(s: set<Key>, cursor: Option<Key>, limit: Limit, c: Key, last: Key)
    requires c in s && !After(cursor, c) && Later(s, cursor) != {} && IsLast(last, Page(s, cursor, limit))
    ensures Due(s, Some(last), limit, c) < Due(s, cursor, limit, c)
  {
    var page, later := Page(s, cursor, limit), Later(s, cursor);
    PageIsStretch(s, cursor, limit, last);
    assert !After(Some(last), c);
    SubsetSize(page, later);
    if page == later {
      assert Later(s, Some(last)) == {};
      Shorter(limit, |later| + limit - 1, limit);
    } else {
      var d :| d in later && d !in page;
      UnvisitedIsBehind(s, cursor, limit, last, d);
      assert Pages(|later|, limit) == Pages(|later| - limit, limit) + 1;
    }
  }

  lemma NonemptySweep(s: set<Key>, cursor: Option<Key>, limit: Limit)
    requires s != {}
    ensures Visited(s, cursor, limit) != {}
  {
    var start := Start(s, cursor);
    var first := FirstOf(if Later(s, cursor) == {} then s else Later(s, cursor));
    assert Later(s, None) == s;
    assert forall k :: k in Between(s, start, first) ==> k in Later(s, start);
    assert Between(s, start, first) == {};
    assert first in Page(s, start, limit);
  }

  /** `sweep`: between calls candidates may disappear, but none arrive. */
  class LoginSessionReconciler {
    var cursor: Option<Key>

    constructor ()
      ensures cursor == None
    {
      cursor := None;
    }

    method Sweep(candidates: set<Key>, limit: Limit) returns (visited: set<Key>)
      modifies this
      ensures visited == Visited(candidates, old(cursor), limit)
      ensures if candidates == {} then cursor == None else cursor.Some? && IsLast(cursor.value, visited)
    {
      visited := Page(candidates, cursor, limit);
      if visited == {} && cursor.Some? {
        EmptyPageIsEnd(candidates, cursor, limit);
        visited := Page(candidates, None, limit);
      } else {
        EmptyPageIsEnd(candidates, cursor, limit);
      }
      if visited != {} {
        ghost var greatest := LastOf(visited);
        var last :| last in visited && forall x :: x in visited ==> x <= last;
        cursor := Some(last);
      } else {
        cursor := None;
      }
      if candidates != {} { NonemptySweep(candidates, old(cursor), limit); }
    }
  }

  lemma EmptyPageIsEnd(s: set<Key>, cursor: Option<Key>, limit: Limit)
    ensures Page(s, cursor, limit) == {} <==> Later(s, cursor) == {}
  {
    if Later(s, cursor) != {} {
      var first := FirstOf(Later(s, cursor));
      assert forall k :: k in Between(s, cursor, first) ==> k in Later(s, cursor);
      assert Between(s, cursor, first) == {};
      assert first in Page(s, cursor, limit);
    }
  }

  // ----- One page -----

  /** One candidate: its account, whether a lock exists for its scope, and whether its row
      is still as it was listed. */
  datatype Candidate = Candidate(account: nat, wellFormed: bool, unchangedRow: bool)

  datatype Fate = Malformed | LockBusy | Conflict | Recovered

  /** How a candidate fares while others hold the locks in `held`. */
  function FateOf(c: Candidate, held: set<nat>): Fate {
    if !c.wellFormed then Malformed
    else if c.account in held then LockBusy
    else if c.unchangedRow then Recovered
    else Conflict
  }

  function Count(page: seq<Candidate>, held: set<nat>, fate: Fate): nat {
    if page == [] then 0
    else Count(page[..|page| - 1], held, fate) + (if FateOf(page[|page| - 1], held) == fate then 1 else 0)
  }

  function Having(page: seq<Candidate>, held: set<nat>, fate: Fate): set<int> {
    set i | 0 <= i < |page| && FateOf(page[i], held) == fate
  }

  lemma HavingGrows(front: seq<Candidate>, c: Candidate, held: set<nat>, fate: Fate)
    ensures Having(front + [c], held, fate) == Having(front, held, fate) + (if FateOf(c, held) == fate then {|front|} else {})
    ensures |front| !in Having(front, held, fate)
  {
    hide FateOf;
    var page := front + [c];
    forall i | 0 <= i < |page| ensures i in Having(page, held, fate) <==> FateOf(if i < |front| then front[i] else c, held) == fate {}
  }

  lemma {:induction false} CountIsSize(page: seq<Candidate>, held: set<nat>, fate: Fate)
    ensures Count(page, held, fate) == |Having(page, held, fate)|
  {
    hide FateOf, Having;
    if page == [] {
      assert Having(page, held, fate) == {} by { NoneHave(held, fate); }
    } else {
      var front := page[..|page| - 1];
      CountIsSize(front, held, fate);
      HavingGrows(front, page[|page| - 1], held, fate);
      assert front + [page[|page| - 1]] == page;
    }
  }

  lemma NoneHave(held: set<nat>, fate: Fate)
    ensures Having([], held, fate) == {}
  {
  }

  /** The candidates of a page that can be recovered now: their lock is free and their row
      is as it was listed. */
  function RecoverableNow(page: seq<Candidate>, held: set<nat>): set<int> {
    set i | 0 <= i < |page| && page[i].wellFormed && page[i].unchangedRow && page[i].account !in held
  }

  function LockedOut(page: seq<Candidate>, held: set<nat>): set<int> {
    set i | 0 <= i < |page| && page[i].wellFormed && page[i].account in held
  }

  lemma FatesAreExact(page: seq<Candidate>, held: set<nat>)
    ensures Count(page, held, Recovered) == |RecoverableNow(page, held)|
    ensures Count(page, held, LockBusy) == |LockedOut(page, held)|
  {
    CountIsSize(page, held, Recovered);
    CountIsSize(page, held, LockBusy);
    assert Having(page, held, Recovered) == RecoverableNow(page, held);
    assert Having(page, held, LockBusy) == LockedOut(page, held);
  }

  /** The account locks on disk. */
  class AccountLocks {
    var held: set<nat>

    constructor (held: set<nat>)
      ensures this.held == held
    {
      this.held := held;
    }

    method Acquire(account: nat) returns (ok: bool)
      modifies this
      ensures ok <==> account !in old(held)
      ensures held == old(held) + {account}
    {
      ok := account !in held;
      held := held + {account};
    }

    method Release(account: nat)
      modifies this
      ensures held == old(held) - {account}
    {
      held := held - {account};
    }
  }

  /** `_recover_candidates`: exactly the candidates whose lock is free and whose row is still as
      listed are recovered, those whose lock is held are left alone, all others conflict, and
      every lock taken is given back. */
  method RecoverCandidates(locks: AccountLocks, page: seq<Candidate>) returns (recovered: nat, busy: nat, conflicted: nat)
    modifies locks
    ensures locks.held == old(locks.held)
    ensures recovered == |RecoverableNow(page, locks.held)| && busy == |LockedOut(page, locks.held)|
    ensures recovered + busy + conflicted == |page|
  {
    recovered, busy, conflicted := 0, 0, 0;
    var i := 0;
    while i < |page|
      invariant 0 <= i <= |page| && locks.held == old(locks.held)
      invariant recovered == Count(page[..i], locks.held, Recovered) && busy == Count(page[..i], locks.held, LockBusy)
      invariant recovered + busy + conflicted == i
    {
      assert page[..i + 1][..i] == page[..i];
      var c := page[i];
      i := i + 1;
      if !c.wellFormed {
        conflicted := conflicted + 1;
        continue;
      }
      var acquired := locks.Acquire(c.account);
      if !acquired {
        busy := busy + 1;
        assert locks.held == old(locks.held);
        continue;
      }
      if c.unchangedRow { recovered := recovered + 1; } else { conflicted := conflicted + 1; }
      locks.Release(c.account);
      assert locks.held == old(locks.held);
    }
    assert page[..|page|] == page;
    FatesAreExact(page, locks.held);
  }

  // ----- No starvation -----

  /** The cursor after a sweep. */
  ghost function NextCursor(s: set<Key>, cursor: Option<Key>, limit: Limit): (r: Option<Key>)
    ensures s != {} ==> r.Some? && IsLast(r.value, Visited(s, cursor, limit))
  {
    if Visited(s, cursor, limit) == {} then
      (if s != {} then NonemptySweep(s, cursor, limit); None else None)
    else
      HasLast(Visited(s, cursor, limit));
      var last :| IsLast(last, Visited(s, cursor, limit));
      Some(last)
  }

  /** Some sweep of this history visits `c`; `histories[i]` is what sweep `i` finds. */
  ghost predicate Reached(histories: seq<set<Key>>, cursor: Option<Key>, limit: Limit, c: Key)
    decreases |histories|
  {
    histories != [] &&
    (c in Visited(histories[0], cursor, limit) || Reached(histories[1..], NextCursor(histories[0], cursor, limit), limit, c))
  }

  predicate OnlyShrinks(histories: seq<set<Key>>) {
    forall i, k :: 0 <= i < k < |histories| ==> histories[k] <= histories[i]
  }

  lemma {:induction false} ReachedWhenDue(histories: seq<set<Key>>, cursor: Option<Key>, limit: Limit, c: Key)
    requires OnlyShrinks(histories) && (forall i :: 0 <= i < |histories| ==> c in histories[i])
    requires histories != [] && |histories| >= Due(histories[0], cursor, limit, c)
    ensures Reached(histories, cursor, limit, c)
    decreases |histories|
  {
    hide Due, Visited;
    var s := histories[0];
    if c !in Visited(s, cursor, limit) {
      var next, rest := NextCursor(s, cursor, limit), histories[1..];
      SweepAdvances(s, cursor, limit, c, next.value);
      assert rest != [] && rest[0] == histories[1];
      RemovalHelps(s, rest[0], next, limit, c);
      ReachedWhenDue(rest, next, limit, c);
    }
  }

  /** With no arrivals, every candidate that stays is visited within ceil(m/limit) +
      ceil(n/limit) sweeps, for m candidates after the cursor out of n. */
  lemma NoStarvation(histories: seq<set<Key>>, cursor: Option<Key>, limit: Limit, c: Key)
    requires OnlyShrinks(histories) && (forall i :: 0 <= i < |histories| ==> c in histories[i]) && histories != []
    requires |histories| >= Ceiling(|Later(histories[0], cursor)|, limit) + Ceiling(|histories[0]|, limit)
    ensures Reached(histories, cursor, limit, c)
  {
    DueIsBounded(histories[0], cursor, limit, c);
    ReachedWhenDue(histories, cursor, limit, c);
  }

  lemma DueIsBounded(s: set<Key>, cursor: Option<Key>, limit: Limit, c: Key)
    requires c in s
    ensures Due(s, cursor, limit, c) <= Ceiling(|Later(s, cursor)|, limit) + Ceiling(|s|, limit)
  {
    RankIsBelow(s, None, c);
    assert Later(s, None) == s;
    RankFits(|Between(s, None, c)|, |s|, limit);
    RoundsIsDivision(|s| + limit - 1, limit);
    RoundsIsDivision(|Later(s, cursor)| + limit - 1, limit);
    if After(cursor, c) {
      RankIsBelow(s, cursor, c);
      RankFits(|Between(s, cursor, c)|, |Later(s, cursor)|, limit);
    }
  }

  lemma RankIsBelow(s: set<Key>, cursor: Option<Key>, c: Key)
    ensures c in s && After(cursor, c) ==> |Between(s, cursor, c)| < |Later(s, cursor)|
  {
    if c in s && After(cursor, c) {
      SubsetSize(Between(s, cursor, c), Later(s, cursor) - {c});
    }
  }

  lemma RankFits(rank: nat, size: nat, limit: Limit)
    requires rank < size
    ensures Rounds(rank, limit) + 1 <= Pages(size, limit)
  {
    Shorter(rank + limit, size + limit - 1, limit);
  }
}
