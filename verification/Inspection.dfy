/** Complete inspection of a published tree, page by page under one byte budget. */
module Inspection {
  import opened Wrappers

  const PAGE_FILES := 128

  /** What the inspection of one managed file meets: its bytes still match; a changed
      content of the recorded size; no file of that size; or the deadline, after `consumed` bytes. */
  datatype ManagedFile = Intact(size: nat) | Altered(size: nat) | Missing | Late(consumed: nat)

  /** One answer of `inspect_published`; `identity` says that all digests and the file count
      are those of the publication head. */
  datatype Reply = Failed | Page(identity: bool, start: int, next: int, bytesRead: int, complete: bool, exhausted: bool)

  function Min(a: int, b: int): int { if a <= b then a else b }

  // ----- The exporter's side -----

  /** The files of one page in order: how many were verified and how many bytes were read.
      Reading stops when the budget or the time is used up, and fails at the first file that
      is found changed. */
  function ReadFiles(files: seq<ManagedFile>, budget: nat): (r: Option<(nat, nat)>)
    ensures r.Some? ==> r.value.0 <= |files| && r.value.1 <= budget
  {
    if files == [] then Some((0, 0))
    else match files[0]
      case Missing => None
      case Late(consumed) => Some((0, Min(consumed, budget)))
      case Altered(size) => if size > budget then Some((0, budget)) else None
      case Intact(size) =>
        if size > budget then Some((0, budget))
        else match ReadFiles(files[1..], budget - size)
          case None => None
          case Some((n, bytes)) => Some((n + 1, bytes + size))
  }

  /** `reached` says that lock, directories and manifest were reached before the deadline. */
  function InspectPage(files: seq<ManagedFile>, reached: bool, start: nat, budget: nat): Reply {
    if !reached || start > |files| then Failed
    else
      var stop := Min(|files|, start + PAGE_FILES);
      match ReadFiles(files[start..stop], budget)
      case None => Failed
      case Some((n, bytes)) =>
        var exhausted := start + n < stop;
        Page(true, start, start + n, bytes, start == 0 && start + n == |files| && !exhausted, exhausted)
  }

  function TotalSize(files: seq<ManagedFile>): nat {
    if files == [] then 0 else (if files[0].Intact? then files[0].size else 0) + TotalSize(files[1..])
  }

  predicate AllIntact(files: seq<ManagedFile>) { forall i :: 0 <= i < |files| ==> files[i].Intact? }

  lemma {:induction false} ReadFilesTotal(files: seq<ManagedFile>, budget: nat)
    ensures ReadFiles(files, budget) == Some((|files|, TotalSize(files))) <==> AllIntact(files) && TotalSize(files) <= budget
    ensures ReadFiles(files, budget).Some? && ReadFiles(files, budget).value.0 == |files| ==>
              ReadFiles(files, budget).value.1 == TotalSize(files)
  {
    if files != [] {
      if files[0].Intact? && files[0].size <= budget {
        ReadFilesTotal(files[1..], budget - files[0].size);
        assert AllIntact(files) <==> AllIntact(files[1..]) by {
          assert forall i :: 0 <= i < |files[1..]| ==> files[1..][i] == files[i + 1];
          assert forall i :: 0 < i < |files| ==> files[i] == files[1..][i - 1];
        }
      }
    }
  }

  lemma {:induction false} TotalConcat(a: seq<ManagedFile>, b: seq<ManagedFile>)
    ensures TotalSize(a + b) == TotalSize(a) + TotalSize(b)
  {
    if a == [] {
      assert a + b == b;
    } else {
      assert (a + b)[0] == a[0] && (a + b)[1..] == a[1..] + b;
      TotalConcat(a[1..], b);
    }
  }

  // ----- The loop -----

  /** `_inspection_matches` and the checks behind it; `None` lets the loop go on. */
  function Accept(r: Reply, count: nat, next: nat, remaining: nat): Option<bool> {
    if r.Failed? || !r.identity || r.start != next || r.next != Min(count, next + PAGE_FILES) || r.bytesRead < 0 || r.bytesRead > remaining
    then Some(false)
    else if r.exhausted || r.complete != (next == 0 && r.next == count) then Some(false)
    else if r.next == count then Some(true)
    else if r.next <= next then Some(false)
    else None
  }

  /** The accepted pages, the first being number `n`, follow each other without gap or
      overlap, each as long as allowed, up to the end of the manifest. */
  ghost predicate Tiles(pages: seq<Reply>, count: nat, n: nat) {
    && (forall i :: 0 <= i < |pages| ==> TileAt(pages[i], count, n + i))
    && pages != [] && pages[|pages| - 1].next == count && n + |pages| == PagesNeeded(count)
  }

  predicate TileAt(r: Reply, count: nat, k: nat) {
    r.Page? && 0 <= r.bytesRead && r.start == PAGE_FILES * k && r.next == Min(count, PAGE_FILES * (k + 1))
  }

  function BytesRead(pages: seq<Reply>): int
    requires forall i :: 0 <= i < |pages| ==> pages[i].Page?
  {
    if pages == [] then 0 else pages[0].bytesRead + BytesRead(pages[1..])
  }

  function PagesNeeded(count: nat): nat { if count == 0 then 1 else (count + PAGE_FILES - 1) / PAGE_FILES }

  /** Whether the inspection goes on to succeed from page `n`, which starts at `next`. */
  predicate Completes(count: nat, reply: (nat, nat) -> Reply, late: nat -> bool, n: nat, next: nat, remaining: nat)
    requires next <= count
    decreases count - next
  {
    !late(n) &&
    var r := reply(next, remaining);
    var verdict := Accept(r, count, next, remaining);
    verdict == Some(true) || (verdict == None && Completes(count, reply, late, n + 1, r.next, remaining - r.bytesRead))
  }

  /** The pages it accepts on the way. */
  function Accepted(count: nat, reply: (nat, nat) -> Reply, late: nat -> bool, n: nat, next: nat, remaining: nat): seq<Reply>
    requires next <= count && Completes(count, reply, late, n, next, remaining)
    decreases count - next
  {
    var r := reply(next, remaining);
    if Accept(r, count, next, remaining) == Some(true) then [r]
    else [r] + Accepted(count, reply, late, n + 1, r.next, remaining - r.bytesRead)
  }

  /** `_inspect_complete` against any exporter: `reply(next, remaining)` is what it answers
      and `late(n)` whether the deadline has passed before page `n`.  Success means that the
      accepted pages tile the whole manifest within the budget. */
  method InspectComplete(count: nat, budget: nat, reply: (nat, nat) -> Reply, late: nat -> bool) returns (ok: bool)
    ensures ok <==> Completes(count, reply, late, 0, 0, budget)
    ensures ok ==> Covers(Accepted(count, reply, late, 0, 0, budget), count, late, 0, budget)
  {
    var next: nat, remaining: nat, n: nat := 0, budget, 0;
    while true
      invariant next <= count && (n > 0 ==> next < count)
      invariant Completes(count, reply, late, 0, 0, budget) <==> Completes(count, reply, late, n, next, remaining)
      decreases count - next, n == 0
    {
      hide Covers, Accepted;
      if late(n) { return false; }
      var r := reply(next, remaining);
      var verdict := Accept(r, count, next, remaining);
      if verdict == Some(false) { return false; }
      if verdict == Some(true) {
        AcceptedCover(count, reply, late, 0, 0, budget);
        return true;
      }
      remaining := remaining - r.bytesRead;
      next := r.next;
      n := n + 1;
    }
  }

  /** The pages tile the manifest from page `n` on, in time and within the budget. */
  ghost predicate Covers(pages: seq<Reply>, count: nat, late: nat -> bool, n: nat, budget: nat) {
    && Tiles(pages, count, n) && 0 <= BytesRead(pages) <= budget
    && forall k :: n <= k < n + |pages| ==> !late(k)
  }

  lemma {:induction false} AcceptedCover(count: nat, reply: (nat, nat) -> Reply, late: nat -> bool, n: nat, next: nat, remaining: nat)
    requires next == PAGE_FILES * n <= count && (n > 0 ==> next < count) && Completes(count, reply, late, n, next, remaining)
    ensures Covers(Accepted(count, reply, late, n, next, remaining), count, late, n, remaining)
    decreases count - next
  {
    hide Accept, Covers, Tiles, TileAt, BytesRead, PagesNeeded;
    var r := reply(next, remaining);
    if Accept(r, count, next, remaining) == None {
      AcceptedPage(r, count, n, next, remaining);
      AcceptedCover(count, reply, late, n + 1, r.next, remaining - r.bytesRead);
      CoverGrows(r, Accepted(count, reply, late, n + 1, r.next, remaining - r.bytesRead), count, late, n, next, remaining);
    } else {
      LastCovers(r, count, late, n, next, remaining);
    }
  }

  lemma AcceptedPage(r: Reply, count: nat, n: nat, next: nat, remaining: nat)
    requires next == PAGE_FILES * n <= count && (n > 0 ==> next < count) && Accept(r, count, next, remaining) != Some(false)
    ensures TileAt(r, count, n) && r.Page? && 0 <= r.bytesRead <= remaining
    ensures Accept(r, count, next, remaining) == None ==> r.next == PAGE_FILES * (n + 1) < count
    ensures Accept(r, count, next, remaining) == Some(true) ==> r.next == count && n + 1 == PagesNeeded(count)
  {
  }

  lemma LastCovers(r: Reply, count: nat, late: nat -> bool, n: nat, next: nat, remaining: nat)
    requires next == PAGE_FILES * n <= count && (n > 0 ==> next < count) && !late(n)
    requires Accept(r, count, next, remaining) == Some(true)
    ensures Covers([r], count, late, n, remaining)
  {
    AcceptedPage(r, count, n, next, remaining);
    assert [r][1..] == [];
  }

  /** A page before pages that start right behind it. */
  lemma CoverGrows(r: Reply, rest: seq<Reply>, count: nat, late: nat -> bool, n: nat, next: nat, remaining: nat)
    requires next == PAGE_FILES * n <= count && (n > 0 ==> next < count) && !late(n)
    requires Accept(r, count, next, remaining) == None && 0 <= r.bytesRead <= remaining
    requires Covers(rest, count, late, n + 1, remaining - r.bytesRead)
    ensures Covers([r] + rest, count, late, n, remaining)
  {
    AcceptedPage(r, count, n, next, remaining);
    var pages := [r] + rest;
    assert pages[1..] == rest;
    forall i | 0 <= i < |pages| ensures TileAt(pages[i], count, n + i) {
      if i > 0 { assert pages[i] == rest[i - 1] && TileAt(rest[i - 1], count, n + 1 + (i - 1)); }
    }
  }

  /** Every page is begun and reached before the deadline; a page is known by where it starts. */
  ghost predicate InTime(count: nat, reached: nat -> bool, late: nat -> bool) {
    forall k :: 0 <= k < PagesNeeded(count) ==> !late(k) && reached(PAGE_FILES * k)
  }

  /** The same, page after page from page `n` at `next`. */
  predicate InTimeFrom(count: nat, reached: nat -> bool, late: nat -> bool, n: nat, next: nat)
    decreases count - next
  {
    !late(n) && reached(next) && (next + PAGE_FILES < count ==> InTimeFrom(count, reached, late, n + 1, next + PAGE_FILES))
  }

  lemma {:induction false} InTimePageByPage(count: nat, reached: nat -> bool, late: nat -> bool, n: nat)
    requires n < PagesNeeded(count)
    ensures InTimeFrom(count, reached, late, n, PAGE_FILES * n) <==>
            forall k :: n <= k < PagesNeeded(count) ==> !late(k) && reached(PAGE_FILES * k)
    decreases PagesNeeded(count) - n
  {
    if PAGE_FILES * n + PAGE_FILES < count {
      InTimePageByPage(count, reached, late, n + 1);
    }
  }

  /** The answers of the exporter over one tree. */
  function Replies(files: seq<ManagedFile>, reached: nat -> bool): (nat, nat) -> Reply {
    (next: nat, remaining: nat) => InspectPage(files, reached(next), next, remaining)
  }

  /** The same loop against the exporter's own paging: success is exact.  Every page is in
      time, every file is intact, and together they fit the budget. */
  method InspectTree(files: seq<ManagedFile>, budget: nat, reached: nat -> bool, late: nat -> bool) returns (ok: bool)
    ensures ok <==> InTime(|files|, reached, late) && AllIntact(files) && TotalSize(files) <= budget
  {
    ok := InspectComplete(|files|, budget, Replies(files, reached), late);
    CompletesExactly(files, reached, late, 0, 0, budget);
    InTimePageByPage(|files|, reached, late, 0);
    assert files[0..] == files;
  }

  lemma {:induction false} CompletesExactly(files: seq<ManagedFile>, reached: nat -> bool, late: nat -> bool,
                                            n: nat, next: nat, budget: nat)
    requires next <= |files|
    ensures Completes(|files|, Replies(files, reached), late, n, next, budget) <==>
            InTimeFrom(|files|, reached, late, n, next) && AllIntact(files[next..]) && TotalSize(files[next..]) <= budget
    decreases |files| - next
  {
    var stop := Min(|files|, next + PAGE_FILES);
    var page := files[next..stop];
    CompletesStep(files, reached, late, n, next, stop, budget);
    assert files[next..][..stop - next] == page && files[next..][stop - next..] == files[stop..];
    SplitRest(files[next..], stop - next);
    NothingLeft();
    hide Completes, AllIntact, TotalSize;
    if stop < |files| {
      if TotalSize(page) <= budget { CompletesExactly(files, reached, late, n + 1, stop, budget - TotalSize(page)); }
    } else {
      assert files[stop..] == [];
    }
  }

  lemma CompletesStep(files: seq<ManagedFile>, reached: nat -> bool, late: nat -> bool,
                      n: nat, next: nat, stop: nat, budget: nat)
    requires next <= |files| && stop == Min(|files|, next + PAGE_FILES)
    ensures var page := files[next..stop];
            Completes(|files|, Replies(files, reached), late, n, next, budget) <==>
              && !late(n) && reached(next) && AllIntact(page) && TotalSize(page) <= budget
              && (stop < |files| ==> Completes(|files|, Replies(files, reached), late, n + 1, stop, budget - TotalSize(page)))
  {
    assert Replies(files, reached)(next, budget) == InspectPage(files, reached(next), next, budget);
    PageIsExact(files, reached(next), next, stop, budget);
    hide InspectPage, AllIntact, TotalSize, Accept;
  }

  lemma NothingLeft()
    ensures AllIntact([]) && TotalSize([]) == 0
  {
  }

  /** A page is accepted exactly if it was reached in time and its files are intact and fit. */
  lemma PageIsExact(files: seq<ManagedFile>, reached: bool, next: nat, stop: nat, remaining: nat)
    requires next <= |files| && stop == Min(|files|, next + PAGE_FILES)
    ensures var r := InspectPage(files, reached, next, remaining);
            var verdict, page := Accept(r, |files|, next, remaining), files[next..stop];
            (verdict != Some(false) <==> reached && AllIntact(page) && TotalSize(page) <= remaining) &&
            (verdict != Some(false) ==> r.next == stop && r.bytesRead == TotalSize(page) &&
                                        verdict == if stop == |files| then Some(true) else None)
  {
    ReadFilesTotal(files[next..stop], remaining);
  }

  lemma SplitRest(files: seq<ManagedFile>, at: nat)
    requires at <= |files|
    ensures TotalSize(files) == TotalSize(files[..at]) + TotalSize(files[at..])
    ensures AllIntact(files) <==> AllIntact(files[..at]) && AllIntact(files[at..])
  {
    assert files[..at] + files[at..] == files;
    TotalConcat(files[..at], files[at..]);
    assert forall i :: at <= i < |files| ==> files[i] == files[at..][i - at];
    assert forall i :: 0 <= i < at ==> files[i] == files[..at][i];
  }
}
