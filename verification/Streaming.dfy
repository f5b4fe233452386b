/**
 The byte stream of a file transfer: a digest fed block by block, and a reader that stays inside the
 size recorded at open time while other programs grow, shrink or rewrite the file under it.
 */
module Streaming {
  import opened Common

  type byte = x: int | 0 <= x < 256

  const CHUNK_SIZE: nat := 64 * 1024

  // The digest.

  /** A streaming hash: an internal state that absorbs bytes in order, and what it yields at the end. */
  datatype Algorithm<!H, !D> = Algorithm(init: H, step: (H, byte) -> H, final: H -> D)

  function Absorb<H, D>(alg: Algorithm<H, D>, h: H, bytes: seq<byte>): H {
    if bytes == [] then h else alg.step(Absorb(alg, h, bytes[..|bytes| - 1]), bytes[|bytes| - 1])
  }

  function DigestOf<H, D>(alg: Algorithm<H, D>, bytes: seq<byte>): D {
    alg.final(Absorb(alg, alg.init, bytes))
  }

  function Flatten(blocks: seq<seq<byte>>): seq<byte> {
    if blocks == [] then [] else Flatten(blocks[..|blocks| - 1]) + blocks[|blocks| - 1]
  }

  lemma {:induction false} AbsorbConcat<H, D>(alg: Algorithm<H, D>, h: H, a: seq<byte>, b: seq<byte>)
    ensures Absorb(alg, h, a + b) == Absorb(alg, Absorb(alg, h, a), b)
  {
    if b == [] {
      assert a + b == a;
    } else {
      var n := |b| - 1;
      AbsorbConcat(alg, h, a, b[..n]);
      assert (a + b)[..|a| + n] == a + b[..n];
    }
  }

  /** The hasher after one update per block. */
  function AbsorbBlocks<H, D>(alg: Algorithm<H, D>, h: H, blocks: seq<seq<byte>>): H {
    if blocks == [] then h
    else Absorb(alg, AbsorbBlocks(alg, h, blocks[..|blocks| - 1]), blocks[|blocks| - 1])
  }

  lemma {:induction false} BlocksAreInvisible<H, D>(alg: Algorithm<H, D>, h: H, blocks: seq<seq<byte>>)
    ensures AbsorbBlocks(alg, h, blocks) == Absorb(alg, h, Flatten(blocks))
  {
    if blocks != [] {
      var n := |blocks| - 1;
      BlocksAreInvisible(alg, h, blocks[..n]);
      AbsorbConcat(alg, h, Flatten(blocks[..n]), blocks[n]);
    }
  }

  /** However the receiver's blocks are cut, equal bytes give equal digests. */
  lemma ResplitDigest<H, D>(alg: Algorithm<H, D>, sent: seq<seq<byte>>, received: seq<seq<byte>>)
    requires Flatten(sent) == Flatten(received)
    ensures alg.final(AbsorbBlocks(alg, alg.init, sent)) == alg.final(AbsorbBlocks(alg, alg.init, received))
  {
    BlocksAreInvisible(alg, alg.init, sent);
    BlocksAreInvisible(alg, alg.init, received);
  }

  // The source.

  /** The file as one system call finds it. */
  datatype Disk = Disk(content: seq<byte>, modified: Option<Time>, readable: bool)
  /** How the operating system treats one read: interruptions first, then an error or at most `limit` bytes. */
  datatype Pace = Pace(interruptions: nat, fault: bool, limit: nat)

  datatype SourceError =
    | SourceChanged
    | SizeMismatch(declared: nat, received: nat)
    | ReadFailed
    | MetadataFailed

  datatype Chunk = Bytes(n: nat) | Failed(error: SourceError)

  function Min(a: nat, b: nat): nat {
    if a < b then a else b
  }

  /** What a read of `want` bytes at `offset` returns: none exactly at or past the end. */
  function ReadCount(d: Disk, offset: nat, want: nat, limit: nat): (n: nat)
    ensures n <= want && (n > 0 ==> offset + n <= |d.content|)
    ensures n == 0 <==> want == 0 || offset >= |d.content|
    ensures n > 0 ==> n == want || offset + n == |d.content| || n == limit || n == 1
  {
    if want == 0 || offset >= |d.content| then 0
    else Min(want, Min(|d.content| - offset, if limit == 0 then 1 else limit))
  }

  class SourceFile {
    /** The file at each successive system call, and how that call is served. */
    const world: nat -> Disk
    const pace: nat -> Pace
    const initialSize: nat
    const initialModified: Option<Time>
    var read: nat
    var calls: nat

    ghost predicate Valid()
      reads this
    {
      read <= initialSize && calls > 0
    }

    constructor (world: nat -> Disk, pace: nat -> Pace)
      ensures Valid() && read == 0 && calls == 1
      ensures this.world == world && this.pace == pace
      ensures initialSize == |world(0).content| && initialModified == world(0).modified
    {
      this.world, this.pace := world, pace;
      initialSize, initialModified := |world(0).content|, world(0).modified;
      read, calls := 0, 1;
    }

    /** The system call that serves the next read, once its interruptions are over. */
    function Serving(): nat
      reads this
    {
      calls + pace(calls).interruptions
    }

    /** Why a stream may break off: a read that failed, a file that could not be inspected, one whose size or
        modification time is no longer the initial one, or one that ended early. */
    ghost predicate Blamed(error: SourceError) {
      match error
      case ReadFailed => exists k :: pace(k).fault
      case MetadataFailed => exists k :: !world(k).readable
      case SourceChanged => exists k :: |world(k).content| != initialSize || world(k).modified != initialModified
      case SizeMismatch(declared, received) =>
        declared == initialSize && exists k :: |world(k).content| <= received < initialSize
    }

    /** No read fails, and nobody touches the file. */
    ghost predicate Steady() {
      && initialSize == |world(0).content|
      && (forall k :: !pace(k).fault)
      && forall k :: world(k) == Disk(world(0).content, initialModified, true)
    }

    lemma SteadyIsBlameless(error: SourceError)
      requires Steady()
      ensures !Blamed(error)
    {
    }

    /** Compares the open file's identity with the one recorded at open time. */
    method Recheck() returns (error: Option<SourceError>)
      modifies `calls
      ensures calls == old(calls) + 1
      ensures var d := world(old(calls));
              error == if !d.readable then Some(MetadataFailed)
                       else if |d.content| != initialSize || d.modified != initialModified then Some(SourceChanged)
                       else None
    {
      var d := world(calls);
      calls := calls + 1;
      if !d.readable {
        return Some(MetadataFailed);
      }
      error := if |d.content| != initialSize || d.modified != initialModified then Some(SourceChanged) else None;
    }

    /** One read call with its retries after interruptions, filling the front of the buffer. */
    method ReadFile(buffer: array<byte>, want: nat) returns (n: Option<nat>)
      requires want <= buffer.Length
      modifies `calls, buffer
      ensures calls == old(Serving()) + 1
      ensures n.None? <==> pace(old(calls)).fault
      ensures n.Some? ==>
                && n.value == ReadCount(world(calls - 1), read, want, pace(old(calls)).limit)
                && (n.value > 0 ==> buffer[..n.value] == world(calls - 1).content[read..read + n.value])
    {
      var attempt := pace(calls);
      var retries := attempt.interruptions;
      while retries > 0
        invariant calls + retries == old(Serving())
      {
        retries, calls := retries - 1, calls + 1;
      }
      var d := world(calls);
      calls := calls + 1;
      if attempt.fault {
        return None;
      }
      var count := ReadCount(d, read, want, attempt.limit);
      for i := 0 to count
        invariant calls == old(Serving()) + 1 && d == world(calls - 1)
        invariant forall j :: 0 <= j < i ==> buffer[j] == d.content[read + j]
      {
        buffer[i] := d.content[read + i];
      }
      n := Some(count);
    }

    /** Hands out the next bounded chunk, never beyond the initial size. */
    method ReadChunked(buffer: array<byte>) returns (r: Chunk)
      requires Valid()
      modifies this, buffer
      ensures Valid() && calls >= old(calls)
      ensures r.Failed? ==> read == old(read) < initialSize && buffer.Length > 0 && Blamed(r.error)
      ensures r == Failed(ReadFailed) <==>
                old(read) < initialSize && buffer.Length > 0 && pace(old(calls)).fault
      ensures r.Failed? && r.error != ReadFailed <==>
                && old(read) < initialSize && buffer.Length > 0 && !pace(old(calls)).fault
                && |world(old(Serving())).content| <= old(read)
      ensures r.Bytes? ==>
                && read == old(read) + r.n <= initialSize && r.n <= buffer.Length && r.n <= CHUNK_SIZE
                && (r.n == 0 <==> old(read) == initialSize || buffer.Length == 0)
                && (r.n > 0 ==> calls == old(Serving()) + 1 && CutFrom(world(calls - 1), old(read), buffer[..r.n]))
      ensures r.Failed? && r.error != ReadFailed ==>
                && calls == old(Serving()) + 2
                && var d := world(calls - 1);
                   r.error == if !d.readable then MetadataFailed
                              else if |d.content| != initialSize || d.modified != initialModified then SourceChanged
                              else SizeMismatch(initialSize, read)
    {
      var remaining: nat := initialSize - read;
      var want := Min(Min(remaining, buffer.Length), CHUNK_SIZE);
      if want == 0 {
        return Bytes(0);
      }
      var n := ReadFile(buffer, want);
      if n.None? {
        return Failed(ReadFailed);
      }
      if n.value == 0 {
        assert |world(calls - 1).content| <= read;
        var error := Recheck();
        if error.Some? {
          return Failed(error.value);
        }
        return Failed(SizeMismatch(initialSize, read));
      }
      read := read + n.value;
      r := Bytes(n.value);
    }
  }

  /** The bytes stood at this offset of the file. */
  ghost predicate CutFrom(d: Disk, offset: nat, bytes: seq<byte>) {
    offset + |bytes| <= |d.content| && bytes == d.content[offset..offset + |bytes|]
  }

  /** Consecutive non-empty bounded cuts of the file, each from the state one later call found. */
  ghost predicate Contiguous(world: nat -> Disk, blocks: seq<seq<byte>>, times: seq<nat>) {
    |blocks| == |times| &&
    (blocks != [] ==>
       var n := |blocks| - 1;
       && 0 < |blocks[n]| <= CHUNK_SIZE
       && CutFrom(world(times[n]), |Flatten(blocks[..n])|, blocks[n])
       && (n > 0 ==> times[n - 1] < times[n])
       && Contiguous(world, blocks[..n], times[..n]))
  }

  datatype Sent<D> = Complete(size: nat, digest: D) | Aborted(error: SourceError)

  /** The sender so far: the blocks taken, when, and the hasher fed with exactly them. */
  ghost predicate Progress<H, D>(
    world: nat -> Disk, alg: Algorithm<H, D>, h: H, blocks: seq<seq<byte>>, times: seq<nat>, read: nat, calls: nat)
  {
    && Contiguous(world, blocks, times)
    && (times != [] ==> times[|times| - 1] < calls)
    && h == AbsorbBlocks(alg, alg.init, blocks)
    && read == |Flatten(blocks)|
  }

  lemma ContiguousAppend(world: nat -> Disk, blocks: seq<seq<byte>>, times: seq<nat>, block: seq<byte>, at: nat)
    requires Contiguous(world, blocks, times) && 0 < |block| <= CHUNK_SIZE
    requires CutFrom(world(at), |Flatten(blocks)|, block) && (times != [] ==> times[|times| - 1] < at)
    ensures Contiguous(world, blocks + [block], times + [at])
  {
    assert (blocks + [block])[..|blocks|] == blocks && (times + [at])[..|times|] == times;
  }

  lemma BlocksAppend<H, D>(alg: Algorithm<H, D>, h: H, blocks: seq<seq<byte>>, block: seq<byte>)
    ensures Flatten(blocks + [block]) == Flatten(blocks) + block
    ensures AbsorbBlocks(alg, h, blocks + [block]) == Absorb(alg, AbsorbBlocks(alg, h, blocks), block)
  {
    assert (blocks + [block])[..|blocks|] == blocks;
  }

  lemma OneMoreBlock<H, D>(
    world: nat -> Disk, alg: Algorithm<H, D>, h: H, blocks: seq<seq<byte>>, times: seq<nat>, read: nat, calls: nat,
    block: seq<byte>, at: nat)
    requires Progress(world, alg, h, blocks, times, read, calls)
    requires calls <= at && 0 < |block| <= CHUNK_SIZE && CutFrom(world(at), read, block)
    ensures Progress(world, alg, Absorb(alg, h, block), blocks + [block], times + [at], read + |block|, at + 1)
  {
    ContiguousAppend(world, blocks, times, block, at);
    BlocksAppend(alg, alg.init, blocks, block);
  }

  /** The read loop: hands out blocks and hashes them in step until the initial size or an error. */
  method Stream<H, D>(source: SourceFile, alg: Algorithm<H, D>)
    returns (error: Option<SourceError>, h: H, blocks: seq<seq<byte>>, ghost times: seq<nat>)
    requires source.Valid() && source.read == 0
    modifies source
    ensures source.Valid() && Progress(source.world, alg, h, blocks, times, source.read, source.calls)
    ensures error.None? ==> source.read == source.initialSize
    ensures error.Some? ==> source.read < source.initialSize && source.Blamed(error.value)
  {
    h := alg.init;
    var data := new byte[CHUNK_SIZE];
    blocks, times := [], [];
    while true
      invariant source.Valid() && Progress(source.world, alg, h, blocks, times, source.read, source.calls)
      decreases source.initialSize - source.read
    {
      ghost var read, calls := source.read, source.calls;
      var chunk := source.ReadChunked(data);
      if chunk.Failed? {
        return Some(chunk.error), h, blocks, times;
      }
      if chunk.n == 0 {
        return None, h, blocks, times;
      }
      var block := data[..chunk.n];
      OneMoreBlock(source.world, alg, h, blocks, times, read, calls, block, source.calls - 1);
      h := Absorb(alg, h, block);
      blocks, times := blocks + [block], times + [source.calls - 1];
    }
  }

  /** The sender: streams the source and rechecks it before declaring size and digest. An untouched file that can be
      read always arrives whole. */
  method Pump<H, D>(source: SourceFile, alg: Algorithm<H, D>)
    returns (r: Sent<D>, blocks: seq<seq<byte>>, ghost times: seq<nat>)
    requires source.Valid() && source.read == 0
    modifies source
    ensures source.Valid() && source.read == |Flatten(blocks)| <= source.initialSize
    ensures Contiguous(source.world, blocks, times)
    ensures r.Complete? ==>
              && |Flatten(blocks)| == r.size == source.initialSize && r.digest == DigestOf(alg, Flatten(blocks))
              && |source.world(source.calls - 1).content| == source.initialSize
              && source.world(source.calls - 1).modified == source.initialModified
    ensures r.Aborted? ==> source.Blamed(r.error)
    ensures source.Steady() ==>
              && Flatten(blocks) == source.world(0).content
              && r == Complete(|source.world(0).content|, DigestOf(alg, source.world(0).content))
  {
    var error, h;
    error, h, blocks, times := Stream(source, alg);
    if error.None? {
      error := source.Recheck();
    }
    if error.Some? {
      if source.Steady() {
        source.SteadyIsBlameless(error.value);
      }
      return Aborted(error.value), blocks, times;
    }
    if source.Steady() {
      UnchangedFileArrives(source.world, blocks, times, source.world(0).content);
    }
    BlocksAreInvisible(alg, alg.init, blocks);
    r := Complete(source.read, alg.final(h));
  }

  lemma PrefixGrows(content: seq<byte>, sent: seq<byte>, block: seq<byte>)
    requires sent <= content && |sent| + |block| <= |content| && block == content[|sent|..|sent| + |block|]
    ensures sent + block <= content
  {
  }

  /** If no call saw the content change, what was sent is a prefix of the file; all of it when complete. */
  lemma {:induction false} UnchangedFileArrives(
    world: nat -> Disk, blocks: seq<seq<byte>>, times: seq<nat>, content: seq<byte>)
    requires Contiguous(world, blocks, times)
    requires forall i :: 0 <= i < |times| ==> world(times[i]).content == content
    ensures Flatten(blocks) <= content
    ensures |Flatten(blocks)| == |content| ==> Flatten(blocks) == content
  {
    if blocks != [] {
      var n := |blocks| - 1;
      UnchangedFileArrives(world, blocks[..n], times[..n], content);
      assert world(times[n]).content == content;
      PrefixGrows(content, Flatten(blocks[..n]), blocks[n]);
    }
  }

  /** A reader that hands out a fixed content in arbitrary pieces. */
  method Sha256Of<H, D>(alg: Algorithm<H, D>, content: seq<byte>, pace: nat -> nat) returns (digest: D)
    ensures digest == DigestOf(alg, content)
  {
    var h, offset, turn := alg.init, 0, 0;
    while true
      invariant offset <= |content| && h == Absorb(alg, alg.init, content[..offset])
      decreases |content| - offset
    {
      var n := ReadCount(Disk(content, None, true), offset, CHUNK_SIZE, pace(turn));
      if n == 0 {
        break;
      }
      AbsorbConcat(alg, alg.init, content[..offset], content[offset..offset + n]);
      assert content[..offset] + content[offset..offset + n] == content[..offset + n];
      h, offset, turn := Absorb(alg, h, content[offset..offset + n]), offset + n, turn + 1;
    }
    assert content[..offset] == content;
    digest := alg.final(h);
  }
}
