/** Verified streaming of one archived file over reads that may come back short. */
module ArchivePreview {
  import opened Wrappers
  import opened ByteRange

  type Byte = nat

  const VERIFY_CHUNK := 1_048_576
  const STREAM_CHUNK := 65_536

  /** The open descriptor: the bytes it reads and where it stands. */
  datatype Handle = Handle(bytes: seq<Byte>, position: nat)

  /** How many bytes a read returns when asked for `requested` and the system offers `offered`. */
  function ReadLength(h: Handle, requested: nat, offered: nat): nat {
    if h.position >= |h.bytes| then 0 else Min(Min(requested, offered), |h.bytes| - h.position)
  }

  function Concat(chunks: seq<seq<Byte>>): seq<Byte> {
    if chunks == [] then [] else Concat(chunks[..|chunks| - 1]) + chunks[|chunks| - 1]
  }

  lemma ConcatSnoc(chunks: seq<seq<Byte>>, chunk: seq<Byte>)
    ensures Concat(chunks + [chunk]) == Concat(chunks) + chunk
  {
    assert (chunks + [chunk])[..|chunks|] == chunks;
  }

  /** The verify loop of `open`: hash exactly `size` bytes, however short the reads, and
      find the end of the file right behind them.  `offers` is what the system is willing
      to return read by read; running out of it is a failed read. */
  method VerifyBytes(bytes: seq<Byte>, size: nat, checksum: nat, hash: seq<Byte> -> nat, offers: seq<nat>)
    returns (ok: bool, ghost hashed: seq<Byte>)
    ensures hashed <= bytes && |hashed| <= size
    ensures ok ==> hashed == bytes && |bytes| == size && hash(bytes) == checksum
    ensures |offers| >= size && (forall i :: 0 <= i < |offers| ==> offers[i] > 0) ==>
              (ok <==> |bytes| == size && hash(bytes) == checksum)
  {
    var handle := Handle(bytes, 0);
    var digest: seq<Byte> := [];
    var remaining := size;
    var turn := 0;
    hashed := [];
    while remaining > 0
      invariant handle.bytes == bytes && handle.position + remaining == size
      invariant handle.position <= |bytes| && digest == bytes[..handle.position] == hashed
      invariant turn <= handle.position && turn <= |offers|
      decreases remaining
    {
      if turn == |offers| { return false, hashed; }
      var length := ReadLength(handle, Min(remaining, VERIFY_CHUNK), offers[turn]);
      turn := turn + 1;
      if length == 0 { return false, hashed; }
      digest := digest + bytes[handle.position..handle.position + length];
      hashed := digest;
      handle := handle.(position := handle.position + length);
      remaining := remaining - length;
    }
    if ReadLength(handle, 1, 1) != 0 { return false, hashed; }
    assert digest == bytes;
    return hash(digest) == checksum, hashed;
  }

  /** Nothing changes under the reader and every read returns something. */
  predicate Smooth(offers: seq<nat>, stable: seq<bool>, length: nat) {
    && |offers| >= length && |stable| >= length + 2
    && (forall i :: 0 <= i < |offers| ==> offers[i] > 0)
    && (forall i :: 0 <= i < |stable| ==> stable[i])
  }

  lemma PrefixOf(bytes: seq<Byte>, first: nat, position: nat, length: nat)
    requires first <= position <= first + length <= |bytes|
    ensures bytes[first..position] <= bytes[first..first + length]
  {
    assert bytes[first..first + length][..position - first] == bytes[first..position];
  }

  predicate Bounded(chunks: seq<seq<Byte>>) {
    forall i :: 0 <= i < |chunks| ==> 1 <= |chunks[i]| <= STREAM_CHUNK
  }

  /** The next chunk, straight behind what was streamed so far. */
  function AddChunk(chunks: seq<seq<Byte>>, bytes: seq<Byte>, first: nat, position: nat, size: nat): (more: seq<seq<Byte>>)
    requires first <= position && position + size <= |bytes| && 1 <= size <= STREAM_CHUNK
    requires Bounded(chunks) && Concat(chunks) == bytes[first..position]
    ensures Bounded(more) && Concat(more) == bytes[first..position + size]
  {
    ConcatSnoc(chunks, bytes[position..position + size]);
    assert bytes[first..position] + bytes[position..position + size] == bytes[first..position + size];
    chunks + [bytes[position..position + size]]
  }

  datatype Streamed = Streamed(chunks: seq<seq<Byte>>, complete: bool)

  class Preview {
    const bytes: seq<Byte>
    var position: nat
    var first: nat
    var length: nat
    var started: bool
    var closed: bool
    var rangeSelected: bool

    /** The descriptor stands at the start of a selection inside the file. */
    ghost predicate Valid()
      reads this
    {
      !closed ==> first + length <= |bytes| && (!started ==> position == first)
    }

    /** A verified descriptor, positioned on the requested range or on the whole file. */
    constructor (bytes: seq<Byte>, range: Option<Range>)
      requires range.Some? ==> range.value.first <= range.value.last < |bytes|
      ensures Valid() && this.bytes == bytes && !started && !closed && rangeSelected == range.Some?
      ensures bytes[first..first + length] == if range.Some? then bytes[range.value.first..range.value.last + 1] else bytes
    {
      this.bytes := bytes;
      started, closed, rangeSelected := false, false, range.Some?;
      first := if range.Some? then range.value.first else 0;
      length := if range.Some? then range.value.last - range.value.first + 1 else |bytes|;
      position := if range.Some? then range.value.first else 0;
    }

    /** `select_range`; a refusal closes the descriptor. */
    method SelectRange(start: int, end: int, stable: bool) returns (ok: bool)
      requires Valid()
      modifies this
      ensures Valid()
      ensures ok <==> !old(started) && !old(closed) && !old(rangeSelected) && stable && 0 <= start <= end < |bytes|
      ensures ok ==> first == start && length == end - start + 1 && rangeSelected && !closed && !started
      ensures !ok ==> closed
    {
      if started || closed || rangeSelected || |bytes| == 0 || start < 0 || end < start || end >= |bytes| || !stable {
        closed := true;
        return false;
      }
      first, length, position, rangeSelected := start, end - start + 1, start, true;
      return true;
    }

    /** `iter_bytes`, drained: every chunk is non-empty and at most 64 KiB, together they
        are a prefix of the selection, and all of it when nothing failed.  The file is
        then closed, and a second iteration is refused. */
    method IterBytes(offers: seq<nat>, stable: seq<bool>) returns (r: Streamed)
      requires Valid()
      modifies this`started, this`closed, this`position
      ensures if old(started) || old(closed) then started == old(started) && closed == old(closed) else started && closed
      ensures Bounded(r.chunks)
      ensures old(started) || old(closed) ==> r == Streamed([], false)
      ensures !old(closed) ==> Concat(r.chunks) <= bytes[first..first + length]
      ensures r.complete ==> !old(closed) && Concat(r.chunks) == bytes[first..first + length]
      ensures !old(started) && !old(closed) && Smooth(offers, stable, length) ==> r.complete
    {
      if started || closed { return Streamed([], false); }
      started := true;
      var remaining := length;
      var chunks: seq<seq<Byte>> := [];
      var checks, turn := 1, 0;
      if |stable| == 0 || !stable[0] {
        closed := true;
        return Streamed([], false);
      }
      while remaining > 0
        invariant started && !closed && first <= position <= first + length <= |bytes| && position - first + remaining == length
        invariant Concat(chunks) == bytes[first..position]
        invariant Bounded(chunks)
        invariant turn <= position - first && turn <= |offers| && checks == turn + 1 <= |stable|
        decreases remaining
      {
        hide Concat, Smooth, Bounded;
        var size := if turn < |offers| then ReadLength(Handle(bytes, position), Min(remaining, STREAM_CHUNK), offers[turn]) else 0;
        if size == 0 || checks == |stable| || !stable[checks] {
          closed := true;
          PrefixOf(bytes, first, position, length);
          return Streamed(chunks, false);
        }
        turn, checks := turn + 1, checks + 1;
        chunks := AddChunk(chunks, bytes, first, position, size);
        position := position + size;
        remaining := remaining - size;
      }
      closed := true;
      return Streamed(chunks, checks < |stable| && stable[checks]);
    }
  }

  /** `_selected_range`: a requested range must lie within the file. */
  predicate Selectable(range: Option<(int, int)>, size: nat) {
    range.Some? ==> 0 <= range.value.0 <= range.value.1 < size
  }

  /** `open`: check the range, verify, then position; a file that does not hold exactly the
      recorded bytes is never handed out. */
  method OpenVerified(bytes: seq<Byte>, size: nat, checksum: nat, hash: seq<Byte> -> nat, offers: seq<nat>, range: Option<(int, int)>)
    returns (preview: Preview?)
    ensures preview != null ==>
              && Selectable(range, size) && |bytes| == size && hash(bytes) == checksum
              && fresh(preview) && preview.Valid() && preview.bytes == bytes && !preview.started && !preview.closed
              && bytes[preview.first..preview.first + preview.length] ==
                   if range.Some? then bytes[range.value.0..range.value.1 + 1] else bytes
    ensures |offers| >= size && (forall i :: 0 <= i < |offers| ==> offers[i] > 0) ==>
              (preview != null <==> Selectable(range, size) && |bytes| == size && hash(bytes) == checksum)
  {
    if range.Some? && (size == 0 || range.value.0 < 0 || range.value.1 < range.value.0 || range.value.1 >= size) { return null; }
    var ok, hashed := VerifyBytes(bytes, size, checksum, hash, offers);
    if !ok { return null; }
    preview := new Preview(bytes, if range.Some? then Some(Range(range.value.0, range.value.1)) else None);
  }
}
