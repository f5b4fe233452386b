/**
 The receiving end of a file transfer: a private temporary file beside the destination, written and
 hashed block by block, sealed, verified and moved into place without replacing anything. Other programs
 may rearrange the whole volume between any two of its system calls; they only cannot write the private
 file itself.
 */
module FileCommit {
  import opened Common
  import opened Streaming
  import opened FileSystem

  /** What other programs may do: anything except to the bytes of guarded files. */
  ghost predicate Discreet(v: Volume, w: Volume) {
    && w.guarded == v.guarded
    && forall f :: f in v.guarded && f in v.contents ==> f in w.contents && w.contents[f] == v.contents[f]
  }

  /** What the other programs make of the volume each time they run. */
  type Others = (nat, Volume) -> Volume

  /** One of our own system calls: the volume just before and just after it. */
  datatype Call = Call(before: Volume, after: Volume)

  class Host {
    const others: Others
    var volume: Volume
    /** How often the other programs have run. */
    var time: nat
    /** Our system calls so far. */
    ghost var calls: seq<Call>

    ghost predicate Valid() {
      forall t: nat, v: Volume :: Discreet(v, others(t, v))
    }

    constructor (volume: Volume, others: Others)
      requires forall t: nat, v: Volume :: Discreet(v, others(t, v))
      ensures Valid() && this.volume == volume && this.others == others && calls == [] && time == 0
    {
      this.volume, this.others, calls, time := volume, others, [], 0;
    }

    /** The other programs run for a while. */
    method Interfere()
      requires Valid()
      modifies `volume, `time
      ensures volume == others(old(time), old(volume)) && time == old(time) + 1
      ensures Discreet(old(volume), volume)
    {
      volume := others(time, volume);
      time := time + 1;
    }
  }

  /**
   The call left all names but the temporary one and all other files alone, and spared foreign objects
   unless the temporary name had been taken over.
   */
  ghost predicate Spared(c: Call, temp: Path, ours: FileId) {
    && KeepsOthers(c.before, c.after, temp, ours)
    && (SparesForeign(c.before, c.after, ours) || Rebound(c.before, temp, ours))
  }

  ghost predicate AllSpared(calls: seq<Call>, temp: Path, ours: FileId) {
    forall c :: c in calls ==> Spared(c, temp, ours)
  }

  /**
   Our last call moved the temporary name to a free final name and our file has exactly these bytes; the
   final name leads to our file if and only if the temporary name had not been taken over.
   */
  ghost predicate Delivered(calls: seq<Call>, temp: Path, file: FileId, plan: DestinationPlan, bytes: seq<byte>) {
    && calls != [] && var c := calls[|calls| - 1];
       && IsFree(c.before, plan.finalPath)
       && CanMove(c.before, temp, plan.finalPath, plan.tail) && c.after == Moved(c.before, temp, plan.finalPath)
       && file in c.after.contents && c.after.contents[file] == bytes
       && (c.after.entries[Place(c.before, plan.finalPath).value] == FileNode(file) <==> !Rebound(c.before, temp, file))
  }

  /** Our last call only tried to remove the temporary name. */
  ghost predicate CleanedUp(calls: seq<Call>, temp: Path) {
    calls != [] && calls[|calls| - 1].after == Unlinked(calls[|calls| - 1].before, temp)
  }

  datatype Receipt = Committed | Rejected(error: FileError)

  datatype FileError =
    | TempFileCreateFailed | WriteFailed | Mismatch(declared: nat, received: nat) | DigestMismatch
    | CommitFailed | BadFileName | FinalExists

  class PrivateTempFile<H, D(==)> {
    const host: Host
    const alg: Algorithm<H, D>
    const path: Path
    const file: FileId
    var written: nat
    var hasher: H
    /** The bytes accepted so far. */
    ghost var bytes: seq<byte>

    ghost predicate Valid()
      reads this, host
    {
      && host.Valid()
      && file in host.volume.guarded && file in host.volume.contents
      && host.volume.contents[file] == bytes && written == |bytes| && hasher == Absorb(alg, alg.init, bytes)
      && AllSpared(host.calls, path, file)
    }

    /** Takes over a file that was just created under `path`. */
    constructor (host: Host, alg: Algorithm<H, D>, path: Path, file: FileId)
      requires host.Valid() && file in host.volume.guarded
      requires file in host.volume.contents && host.volume.contents[file] == []
      requires AllSpared(host.calls, path, file)
      ensures Valid() && bytes == []
      ensures this.host == host && this.alg == alg && this.path == path && this.file == file
    {
      this.host, this.alg, this.path, this.file := host, alg, path, file;
      written, hasher, bytes := 0, alg.init, [];
    }

    /** Streams one block; a failing write may leave part of it behind. */
    method WriteBlock(block: seq<byte>, failsAfter: Option<nat>) returns (ok: bool)
      requires Valid()
      modifies this, host
      ensures ok <==> failsAfter.None?
      ensures ok ==> Valid() && bytes == old(bytes) + block
      ensures ok ==> host.volume == AppendTo(host.others(old(host.time), old(host.volume)), file, block)
      ensures host.Valid() && AllSpared(host.calls, path, file) && host.time == old(host.time) + 1
    {
      host.Interfere();
      ghost var before := host.volume;
      var kept := if failsAfter.None? then block else block[..Min(failsAfter.value, |block|)];
      host.volume := Appended(host.volume, file, kept);
      host.calls := host.calls + [Call(before, host.volume)];
      AppendSparesForeign(before, file, kept);
      if failsAfter.Some? {
        return false;
      }
      written := written + |block|;
      AbsorbConcat(alg, alg.init, bytes, block);
      hasher := Absorb(alg, hasher, block);
      bytes := bytes + block;
      ok := true;
    }

    /** Flushes and seals the file; a failure removes the temporary name. */
    method Finish(fault: bool) returns (sealed: SealedTempFile?<D>)
      requires Valid()
      modifies host
      ensures sealed == null <==> fault
      ensures sealed == null ==> CleanedUp(host.calls, path)
      ensures host.Valid() && AllSpared(host.calls, path, file)
      ensures sealed != null ==>
                && fresh(sealed) && sealed.Valid() && sealed.host == host && unchanged(host)
                && sealed.path == path && sealed.file == file && sealed.bytes == bytes
                && sealed.digest == DigestOf(alg, bytes)
    {
      if fault {
        Drop(host, path, file);
        return null;
      }
      sealed := new SealedTempFile(host, path, file, written, alg.final(hasher), bytes);
    }
  }

  /** Best-effort cleanup: unlinks the temporary path, whatever it leads to by now. */
  method Drop(host: Host, path: Path, ghost file: FileId)
    requires host.Valid() && AllSpared(host.calls, path, file)
    modifies host
    ensures host.Valid() && AllSpared(host.calls, path, file)
    ensures CleanedUp(host.calls, path) && |host.calls| == |old(host.calls)| + 1 && old(host.calls) <= host.calls
    ensures host.calls[|host.calls| - 1].before == host.others(old(host.time), old(host.volume))
  {
    host.Interfere();
    ghost var before := host.volume;
    host.volume := Unlinked(host.volume, path);
    host.calls := host.calls + [Call(before, host.volume)];
    UnlinkSparesForeign(before, path, file);
  }

  /** A commit is tried only within the directory of the temporary file and under an ordinary name. */
  predicate CommitAllowed(temp: Path, final: Path) {
    && temp != [] && final != [] && temp[..|temp| - 1] == final[..|final| - 1]
    && PlainName(final[|final| - 1])
  }

  /** What each failure of a commit says about the plan, or about the volume the move found. */
  ghost predicate Blocks(error: FileError, found: Volume, temp: Path, plan: DestinationPlan) {
    var final := plan.finalPath;
    var beside := temp != [] && final != [] && temp[..|temp| - 1] == final[..|final| - 1];
    var taken := (Place(found, final).Some? && Place(found, final).value in found.entries) || plan.tail == Dot;
    match error
    case BadFileName => beside && !PlainName(final[|final| - 1])
    case FinalExists => CommitAllowed(temp, final) && !CanMove(found, temp, final, plan.tail) && taken
    case CommitFailed => !beside || (CommitAllowed(temp, final) && !CanMove(found, temp, final, plan.tail) && !taken)
    case _ => false
  }

  /** What each failed verification says about the sealed bytes and the declaration. */
  ghost predicate Belies<D>(
    error: FileError, size: nat, digest: D, declared: nat, finishSize: nat, finishDigest: D)
  {
    match error
    case Mismatch(told, got) =>
      told == declared && if finishSize != declared then got == finishSize else got == size != declared
    case DigestMismatch => size == declared == finishSize && digest != finishDigest
    case _ => false
  }

  class SealedTempFile<D(==)> {
    const host: Host
    const path: Path
    const file: FileId
    const written: nat
    const digest: D
    ghost const bytes: seq<byte>

    ghost predicate Valid()
      reads host
    {
      && host.Valid()
      && file in host.volume.guarded && file in host.volume.contents && host.volume.contents[file] == bytes
      && written == |bytes| && AllSpared(host.calls, path, file)
    }

    constructor (host: Host, path: Path, file: FileId, written: nat, digest: D, ghost bytes: seq<byte>)
      requires host.Valid() && file in host.volume.guarded && file in host.volume.contents
      requires host.volume.contents[file] == bytes && written == |bytes| && AllSpared(host.calls, path, file)
      ensures Valid() && this.host == host && this.path == path && this.file == file
      ensures this.written == written && this.digest == digest && this.bytes == bytes
    {
      this.host, this.path, this.file := host, path, file;
      this.written, this.digest, this.bytes := written, digest, bytes;
    }

    /** The sealed bytes have the declared size and digest. */
    method VerifyFinish(size: nat, digest: D) returns (error: Option<FileError>)
      requires Valid()
      ensures error.None? <==> |bytes| == size && this.digest == digest
      ensures |bytes| != size ==> error == Some(Mismatch(size, |bytes|))
      ensures |bytes| == size && this.digest != digest ==> error == Some(DigestMismatch)
    {
      if written != size {
        return Some(Mismatch(size, written));
      }
      error := if this.digest != digest then Some(DigestMismatch) else None;
    }

    /** Moves the file to the final path unless something is there; any failure only removes the temporary name. */
    method Commit(plan: DestinationPlan) returns (error: Option<FileError>)
      requires Valid() && path != []
      modifies host
      ensures host.Valid() && AllSpared(host.calls, path, file)
      ensures |host.calls| == |old(host.calls)| + 1 && old(host.calls) <= host.calls
      ensures error.None? <==>
                && CommitAllowed(path, plan.finalPath)
                && CanMove(host.others(old(host.time), old(host.volume)), path, plan.finalPath, plan.tail)
      ensures error.None? ==>
                && Delivered(host.calls, path, file, plan, bytes)
                && host.calls[|host.calls| - 1] == Call(host.others(old(host.time), old(host.volume)), host.volume)
      ensures error.Some? ==>
                && CleanedUp(host.calls, path)
                && Blocks(error.value, host.others(old(host.time), old(host.volume)), path, plan)
    {
      var final := plan.finalPath;
      if final == [] || path[..|path| - 1] != final[..|final| - 1] {
        Drop(host, path, file);
        return Some(CommitFailed);
      }
      if !PlainName(final[|final| - 1]) {
        Drop(host, path, file);
        return Some(BadFileName);
      }
      host.Interfere();
      ghost var before := host.volume;
      if CanMove(host.volume, path, final, plan.tail) {
        host.volume := Moved(host.volume, path, final);
        host.calls := host.calls + [Call(before, host.volume)];
        MoveSparesForeign(before, path, final, plan.tail, file);
        return None;
      }
      var occupied := Place(host.volume, final).Some? && Place(host.volume, final).value in host.volume.entries;
      Drop(host, path, file);
      error := Some(if occupied || plan.tail == Dot then FinalExists else CommitFailed);
    }
  }

  // ---- the volume as the receiving side leaves and finds it ----

  /** The volume after the other programs have run `k` times. */
  function Idle(others: Others, v: Volume, time: nat, k: nat): Volume {
    if k == 0 then v else others(time + k - 1, Idle(others, v, time, k - 1))
  }

  function AppendTo(v: Volume, file: FileId, bytes: seq<byte>): Volume {
    if file in v.contents then Appended(v, file, bytes) else v
  }

  /** The volume after writing the frames, with the other programs running before each. */
  function Written(others: Others, v: Volume, time: nat, file: FileId, frames: seq<seq<byte>>): Volume {
    if frames == [] then v
    else
      var n := |frames| - 1;
      AppendTo(others(time + n, Written(others, v, time, file, frames[..n])), file, frames[n])
  }

  /** Writing the frames took the volume and the clock here. */
  ghost predicate WrittenBy(
    others: Others, v: Volume, time: nat, file: FileId, frames: seq<seq<byte>>, w: Volume, later: nat)
  {
    w == Written(others, v, time, file, frames) && later == time + |frames|
  }

  ghost predicate NoFaults(faults: nat -> Option<nat>, k: nat) {
    forall i: nat :: i < k ==> faults(i).None?
  }

  lemma WrittenNext(others: Others, v: Volume, time: nat, file: FileId, frames: seq<seq<byte>>, i: nat)
    requires i < |frames|
    ensures Flatten(frames[..i + 1]) == Flatten(frames[..i]) + frames[i]
    ensures Written(others, v, time, file, frames[..i + 1]) ==
            AppendTo(others(time + i, Written(others, v, time, file, frames[..i])), file, frames[i])
  {
    assert frames[..i + 1][..i] == frames[..i];
  }

  predicate IsTaken(v: Volume, path: Path) {
    Place(v, path).Some? && Place(v, path).value in v.entries
  }

  /** All names generated so far were taken when they were tried. */
  ghost predicate TakenUpTo(
    others: Others, v: Volume, time: nat, directory: Path, names: nat -> string, k: nat)
  {
    forall j: nat :: j < k ==> IsTaken(Idle(others, v, time, j + 1), directory + [names(j)])
  }

  lemma TakenNext(others: Others, v: Volume, time: nat, directory: Path, names: nat -> string, k: nat)
    requires TakenUpTo(others, v, time, directory, names, k)
    requires IsTaken(Idle(others, v, time, k + 1), directory + [names(k)])
    ensures TakenUpTo(others, v, time, directory, names, k + 1)
  {
  }

  lemma {:induction false} UnusedId(used: set<nat>) returns (id: nat)
    ensures forall u :: u in used ==> u < id
    decreases |used|
  {
    if used == {} {
      id := 0;
    } else {
      var u :| u in used;
      var rest := UnusedId(used - {u});
      id := if rest <= u then u + 1 else rest;
      assert forall x :: x in used ==> x == u || x in used - {u};
    }
  }

  /** Creates a private file under the first free generated name, never over an existing one. */
  method CreateTemp<H, D(==)>(host: Host, alg: Algorithm<H, D>, directory: Path, names: nat -> string, retries: nat)
    returns (temp: PrivateTempFile?<H, D>, attempt: nat)
    requires host.Valid() && host.calls == []
    modifies host
    ensures host.Valid() && TakenUpTo(host.others, old(host.volume), old(host.time), directory, names, attempt)
    ensures temp == null ==>
              && host.calls == []
              && var v := Idle(host.others, old(host.volume), old(host.time), attempt + 1);
                 attempt == retries || Place(v, directory + [names(attempt)]).None?
    ensures temp != null ==>
              && fresh(temp) && temp.Valid() && temp.host == host && temp.alg == alg && temp.bytes == []
              && attempt < retries && temp.path == directory + [names(attempt)]
              && var v := Idle(host.others, old(host.volume), old(host.time), attempt + 1);
                 && IsFree(v, temp.path) && temp.file !in v.contents
                 && host.volume == Created(v, Place(v, temp.path).value, temp.file)
                 && host.calls == [Call(v, host.volume)] && host.time == old(host.time) + attempt + 1
  {
    attempt := 0;
    while attempt < retries
      invariant attempt <= retries && host.Valid() && host.calls == [] && host.time == old(host.time) + attempt
      invariant host.volume == Idle(host.others, old(host.volume), old(host.time), attempt)
      invariant TakenUpTo(host.others, old(host.volume), old(host.time), directory, names, attempt)
    {
      host.Interfere();
      var path := directory + [names(attempt)];
      var place := Place(host.volume, path);
      if place.None? {
        return null, attempt;
      }
      if place.value !in host.volume.entries {
        temp := CreateAt(host, alg, path, place.value);
        return;
      }
      TakenNext(host.others, old(host.volume), old(host.time), directory, names, attempt);
      attempt := attempt + 1;
    }
    temp := null;
  }

  /** The exclusive creation of one new file under a free name. */
  method CreateAt<H, D(==)>(host: Host, alg: Algorithm<H, D>, path: Path, place: Name)
    returns (temp: PrivateTempFile<H, D>)
    requires host.Valid() && host.calls == [] && Place(host.volume, path) == Some(place)
    requires place !in host.volume.entries
    modifies host`volume, host`calls
    ensures fresh(temp) && temp.Valid() && temp.host == host && temp.alg == alg && temp.path == path && temp.bytes == []
    ensures temp.file !in old(host.volume).contents && host.volume == Created(old(host.volume), place, temp.file)
    ensures host.calls == [Call(old(host.volume), host.volume)]
  {
    ghost var before := host.volume;
    ghost var unused := UnusedId(host.volume.contents.Keys + host.volume.guarded);
    assert unused !in host.volume.contents.Keys + host.volume.guarded;
    var file: nat :| file !in host.volume.contents && file !in host.volume.guarded;
    host.volume := Created(host.volume, place, file);
    host.calls := [Call(before, host.volume)];
    CreateSparesForeign(before, place, file);
    temp := new PrivateTempFile(host, alg, path, file);
  }

  /** Writes the next frame after those already written since volume `v` at `time`. */
  method WriteFrame<H, D(==)>(
    temp: PrivateTempFile<H, D>, frames: seq<seq<byte>>, i: nat, fault: Option<nat>, ghost v: Volume, ghost time: nat)
    returns (ok: bool)
    requires temp.Valid() && i < |frames| && temp.bytes == Flatten(frames[..i])
    requires WrittenBy(temp.host.others, v, time, temp.file, frames[..i], temp.host.volume, temp.host.time)
    modifies temp, temp.host
    ensures ok <==> fault.None?
    ensures ok ==> temp.Valid() && temp.bytes == Flatten(frames[..i + 1])
    ensures ok ==> WrittenBy(temp.host.others, v, time, temp.file, frames[..i + 1], temp.host.volume, temp.host.time)
    ensures temp.host.Valid() && AllSpared(temp.host.calls, temp.path, temp.file)
  {
    WrittenNext(temp.host.others, v, time, temp.file, frames, i);
    ok := temp.WriteBlock(frames[i], fault);
  }

  /** Writes every frame into the temporary file, stopping at the first failing write. */
  method WriteFrames<H, D(==)>(temp: PrivateTempFile<H, D>, frames: seq<seq<byte>>, faults: nat -> Option<nat>)
    returns (ok: bool)
    requires temp.Valid() && temp.bytes == []
    modifies temp, temp.host
    ensures ok <==> NoFaults(faults, |frames|)
    ensures ok ==> temp.Valid() && temp.bytes == Flatten(frames)
    ensures ok ==> WrittenBy(temp.host.others, old(temp.host.volume), old(temp.host.time), temp.file, frames,
                             temp.host.volume, temp.host.time)
    ensures temp.host.Valid() && AllSpared(temp.host.calls, temp.path, temp.file)
  {
    for i := 0 to |frames|
      invariant temp.Valid() && temp.bytes == Flatten(frames[..i])
      invariant NoFaults(faults, i)
      invariant WrittenBy(temp.host.others, old(temp.host.volume), old(temp.host.time), temp.file, frames[..i],
                          temp.host.volume, temp.host.time)
    {
      var written := WriteFrame(temp, frames, i, faults(i), old(temp.host.volume), old(temp.host.time));
      if !written {
        return false;
      }
    }
    assert frames[..|frames|] == frames;
    ok := true;
  }

  /** Verifies the sealed file against what the sender declared, and commits it. */
  method VerifyAndCommit<D(==)>(
    sealed: SealedTempFile<D>, plan: DestinationPlan, declared: nat, finishSize: nat, finishDigest: D)
    returns (r: Receipt)
    requires sealed.Valid() && sealed.path != []
    modifies sealed.host
    ensures sealed.host.Valid() && AllSpared(sealed.host.calls, sealed.path, sealed.file)
    ensures var before := sealed.host.others(old(sealed.host.time), old(sealed.host.volume));
            && (r.Committed? <==>
                  && |sealed.bytes| == declared == finishSize && sealed.digest == finishDigest
                  && CommitAllowed(sealed.path, plan.finalPath)
                  && CanMove(before, sealed.path, plan.finalPath, plan.tail))
            && (r.Committed? ==>
                  && sealed.host.calls != []
                  && sealed.host.calls[|sealed.host.calls| - 1] == Call(before, sealed.host.volume))
    ensures r.Committed? ==> Delivered(sealed.host.calls, sealed.path, sealed.file, plan, sealed.bytes)
    ensures r.Rejected? ==> CleanedUp(sealed.host.calls, sealed.path)
    ensures r.Rejected? ==>
              var found := sealed.host.others(old(sealed.host.time), old(sealed.host.volume));
              if |sealed.bytes| == declared == finishSize && sealed.digest == finishDigest
              then Blocks(r.error, found, sealed.path, plan)
              else Belies(r.error, |sealed.bytes|, sealed.digest, declared, finishSize, finishDigest)
  {
    var error: Option<FileError>;
    if finishSize != declared {
      error := Some(Mismatch(declared, finishSize));
    } else {
      error := sealed.VerifyFinish(declared, finishDigest);
    }
    if error.Some? {
      Drop(sealed.host, sealed.path, sealed.file);
      return Rejected(error.value);
    }
    error := sealed.Commit(plan);
    r := if error.Some? then Rejected(error.value) else Committed;
  }

  /** The declared size and digest are those of the bytes received. */
  ghost predicate AsDeclared<H, D>(
    alg: Algorithm<H, D>, bytes: seq<byte>, declared: nat, finishSize: nat, finishDigest: D)
  {
    |bytes| == declared == finishSize && DigestOf(alg, bytes) == finishDigest
  }

  /** Why a received file was turned down. */
  ghost predicate Explains<H, D>(
    error: FileError, failed: bool, alg: Algorithm<H, D>, bytes: seq<byte>, declared: nat, finishSize: nat,
    finishDigest: D, found: Volume, temp: Path, plan: DestinationPlan)
  {
    if failed then error == WriteFailed
    else if AsDeclared(alg, bytes, declared, finishSize, finishDigest) then Blocks(error, found, temp, plan)
    else Belies(error, |bytes|, DigestOf(alg, bytes), declared, finishSize, finishDigest)
  }

  /** Nothing in the way of a commit but the volume itself. */
  ghost predicate Ready(
    temp: Path, plan: DestinationPlan, frames: seq<seq<byte>>, faults: nat -> Option<nat>, sealFault: bool)
  {
    NoFaults(faults, |frames|) && !sealFault && CommitAllowed(temp, plan.finalPath)
  }

  /** From the created file on: writes the frames, seals, verifies and commits. */
  method Fill<H, D(==)>(
    t: PrivateTempFile<H, D>, plan: DestinationPlan, frames: seq<seq<byte>>, faults: nat -> Option<nat>,
    sealFault: bool, declared: nat, finishSize: nat, finishDigest: D)
    returns (r: Receipt)
    requires t.Valid() && t.bytes == [] && t.path != []
    modifies t, t.host
    ensures t.host.Valid() && AllSpared(t.host.calls, t.path, t.file)
    ensures var written := Written(t.host.others, old(t.host.volume), old(t.host.time), t.file, frames);
            var before := t.host.others(old(t.host.time) + |frames|, written);
            && (r.Committed? <==>
                  && Ready(t.path, plan, frames, faults, sealFault)
                  && AsDeclared(t.alg, Flatten(frames), declared, finishSize, finishDigest)
                  && CanMove(before, t.path, plan.finalPath, plan.tail))
            && (r.Committed? ==> t.host.calls != [] && t.host.calls[|t.host.calls| - 1].before == before)
    ensures r.Committed? ==> Delivered(t.host.calls, t.path, t.file, plan, Flatten(frames))
    ensures r.Rejected? ==>
              var written := Written(t.host.others, old(t.host.volume), old(t.host.time), t.file, frames);
              Explains(r.error, !NoFaults(faults, |frames|) || sealFault, t.alg, Flatten(frames), declared, finishSize,
                       finishDigest, t.host.others(old(t.host.time) + |frames|, written), t.path, plan)
    ensures r.Rejected? ==> CleanedUp(t.host.calls, t.path)
  {
    var ok := WriteFrames(t, frames, faults);
    if !ok {
      Drop(t.host, t.path, t.file);
      return Rejected(WriteFailed);
    }
    var sealed := t.Finish(sealFault);
    if sealed == null {
      return Rejected(WriteFailed);
    }
    r := VerifyAndCommit(sealed, plan, declared, finishSize, finishDigest);
  }

  /** The volume as the commit of a transfer finds it, given the attempt and the file of its creation. */
  function AtCommit(
    others: Others, v: Volume, time: nat, path: Path, attempt: nat, file: FileId, frames: seq<seq<byte>>): Volume
  {
    var found := Idle(others, v, time, attempt + 1);
    if Place(found, path).None? then found
    else
      var created := Created(found, Place(found, path).value, file);
      others(time + attempt + 1 + |frames|, Written(others, created, time + attempt + 1, file, frames))
  }

  lemma CommitAfterFrames(
    others: Others, v: Volume, time: nat, path: Path, attempt: nat, file: FileId, frames: seq<seq<byte>>,
    created: Volume, start: nat)
    requires var found := Idle(others, v, time, attempt + 1);
             Place(found, path).Some? && created == Created(found, Place(found, path).value, file)
    requires start == time + attempt + 1
    ensures AtCommit(others, v, time, path, attempt, file, frames) ==
            others(start + |frames|, Written(others, created, start, file, frames))
  {
  }

  /**
   The whole receiving side, with other programs running throughout. It commits exactly when a name was free
   in time, nothing failed, size and digest are as declared, and the move was possible when it was tried;
   no call harms a foreign object unless another program had taken over the temporary name; and every other
   ending only tries to remove that name.
   */
  method Receive<H, D(==)>(
    host: Host, alg: Algorithm<H, D>, plan: DestinationPlan, names: nat -> string, retries: nat,
    frames: seq<seq<byte>>, faults: nat -> Option<nat>, sealFault: bool,
    declared: nat, finishSize: nat, finishDigest: D)
    returns (r: Receipt, ghost temp: Path, ghost file: FileId, ghost attempt: nat)
    requires host.Valid() && host.calls == []
    modifies host
    ensures host.Valid() && AllSpared(host.calls, temp, file)
    ensures TakenUpTo(host.others, old(host.volume), old(host.time), plan.tempDir, names, attempt)
    ensures temp == plan.tempDir + [names(attempt)]
    ensures var found := Idle(host.others, old(host.volume), old(host.time), attempt + 1);
            var before := AtCommit(host.others, old(host.volume), old(host.time), temp, attempt, file, frames);
            && (r.Committed? <==>
                  && attempt < retries && IsFree(found, temp) && Ready(temp, plan, frames, faults, sealFault)
                  && AsDeclared(alg, Flatten(frames), declared, finishSize, finishDigest)
                  && CanMove(before, temp, plan.finalPath, plan.tail))
            && (r.Committed? ==>
                  && file !in found.contents
                  && host.calls != [] && host.calls[|host.calls| - 1].before == before)
    ensures r.Committed? ==> Delivered(host.calls, temp, file, plan, Flatten(frames))
    ensures r.Rejected? ==>
              var found := Idle(host.others, old(host.volume), old(host.time), attempt + 1);
              var before := AtCommit(host.others, old(host.volume), old(host.time), temp, attempt, file, frames);
              if attempt == retries || !IsFree(found, temp) then r.error == TempFileCreateFailed
              else Explains(r.error, !NoFaults(faults, |frames|) || sealFault, alg, Flatten(frames), declared,
                            finishSize, finishDigest, before, temp, plan)
    ensures r.Rejected? ==> host.calls == [] || CleanedUp(host.calls, temp)
  {
    var t, tried := CreateTemp(host, alg, plan.tempDir, names, retries);
    attempt, temp, file := tried, plan.tempDir + [names(tried)], 0;
    if t == null {
      return Rejected(TempFileCreateFailed), temp, file, attempt;
    }
    file := t.file;
    CommitAfterFrames(host.others, old(host.volume), old(host.time), temp, attempt, file, frames,
                      host.volume, host.time);
    r := Fill(t, plan, frames, faults, sealFault, declared, finishSize, finishDigest);
  }

  // ---- a name taken over ----

  /** A volume with one foreign file, under no name of interest. */
  const FOREIGN: Volume := Volume(map[], map[], map[2 := [7]], {})

  /** Another program binds the temporary name to its own file just before the commit. */
  function TakesOver(t: nat, v: Volume): Volume {
    if t == 1 then v.(entries := v.entries[(ROOT, "t") := FileNode(2)]) else v
  }

  function AlwaysT(k: nat): string { "t" }

  function NeverFails(k: nat): Option<nat> { None }

  lemma TakeOverFacts(file: FileId)
    ensures Idle(TakesOver, FOREIGN, 0, 1) == FOREIGN && IsFree(FOREIGN, ["t"])
    ensures var v := AtCommit(TakesOver, FOREIGN, 0, ["t"], 0, file, []);
            && CanMove(v, ["t"], ["f"], Plain) && Place(v, ["f"]) == Some((ROOT, "f"))
            && (file != 2 ==> Rebound(v, ["t"], file) && 2 in v.contents && v.contents[2] == [7])
            && Moved(v, ["t"], ["f"]).entries[(ROOT, "f")] == FileNode(2)
    ensures CommitAllowed(["t"], ["f"])
  {
    assert ["t"][..0] == [] && ["f"][..0] == [];
    assert Place(FOREIGN, ["t"]) == Some((ROOT, "t"));
    Utf8Bounds("f");
    assert PlainName("f");
  }

  /** The transfer of an empty file reports success, and the final name leads to the other program's bytes. */
  method CommitsForeignFile<H, D(==)>(alg: Algorithm<H, D>)
    returns (host: Host, r: Receipt, ghost temp: Path, ghost file: FileId)
    ensures host.Valid() && r.Committed? && host.calls != []
    ensures Rebound(host.calls[|host.calls| - 1].before, temp, file)
    ensures var last := host.calls[|host.calls| - 1].after;
            && (ROOT, "f") in last.entries && last.entries[(ROOT, "f")] == FileNode(2)
            && 2 in last.contents && last.contents[2] == [7]
  {
    host := new Host(FOREIGN, TakesOver);
    var plan := DestinationPlan(["f"], Plain, []);
    ghost var attempt;
    r, temp, file, attempt := Receive(host, alg, plan, AlwaysT, 1, [], NeverFails, false, 0, 0, DigestOf(alg, []));
    TakeOverFacts(file);
    assert attempt == 0 by {
      assert [] + [AlwaysT(0)] == ["t"];
    }
    assert temp == ["t"];
  }

  lemma TakenNameIsRemoved(v: Volume, file: FileId)
    requires file != 2 && v == TakesOver(1, Created(FOREIGN, (ROOT, "t"), file))
    ensures Rebound(v, ["t"], file) && !SparesForeign(v, Unlinked(v, ["t"]), file)
    ensures (ROOT, "t") in v.entries && (ROOT, "t") !in Unlinked(v, ["t"]).entries
  {
    assert ["t"][..0] == [];
    assert Place(v, ["t"]) == Some((ROOT, "t"));
    UnlinkSparesForeign(v, ["t"], file);
  }

  lemma FirstNameIsFree()
    ensures Idle(TakesOver, FOREIGN, 0, 1) == FOREIGN && [] + [AlwaysT(0)] == ["t"]
    ensures Place(FOREIGN, ["t"]) == Some((ROOT, "t"))
  {
    assert ["t"][..0] == [];
  }

  /** A transfer given up after its creation: cleaning up removes the other program's name. */
  method CleanupRemovesForeignName<H, D(==)>(alg: Algorithm<H, D>) returns (host: Host, ghost file: FileId)
    ensures host.Valid() && host.calls != []
    ensures var last := host.calls[|host.calls| - 1];
            && Rebound(last.before, ["t"], file) && !SparesForeign(last.before, last.after, file)
            && (ROOT, "t") in last.before.entries && (ROOT, "t") !in last.after.entries
  {
    host := new Host(FOREIGN, TakesOver);
    var temp, attempt := CreateTemp(host, alg, [], AlwaysT, 1);
    FirstNameIsFree();
    file := temp.file;
    TakenNameIsRemoved(TakesOver(1, host.volume), file);
    Drop(host, temp.path, file);
  }

  /** The digest tells these two byte strings apart if they differ. */
  ghost predicate NoCollision<H, D>(alg: Algorithm<H, D>, a: seq<byte>, b: seq<byte>) {
    DigestOf(alg, a) == DigestOf(alg, b) ==> a == b
  }

  /**
   A whole transfer over any channel: whatever the channel did to the blocks, after a commit the received
   file holds exactly the bytes the sender read, unless the digest collides, and the final name leads to it
   if and only if the temporary name had not been taken over; and a channel that only cuts the bytes
   differently never makes the verification fail.
   */
  method Deliver<H, D(==)>(
    source: SourceFile, alg: Algorithm<H, D>, channel: seq<seq<byte>> -> seq<seq<byte>>,
    host: Host, plan: DestinationPlan, names: nat -> string, retries: nat, faults: nat -> Option<nat>, sealFault: bool)
    returns (sent: Sent<D>, blocks: seq<seq<byte>>, r: Option<Receipt>, ghost temp: Path, ghost file: FileId)
    requires source.Valid() && source.read == 0 && host.Valid() && host.calls == []
    modifies source, host
    ensures sent.Aborted? ==> r == None && host.calls == []
    ensures source.Steady() ==> r.Some? && Flatten(blocks) == source.world(0).content
    ensures host.Valid() && AllSpared(host.calls, temp, file)
    ensures r == Some(Committed) && NoCollision(alg, Flatten(channel(blocks)), Flatten(blocks)) ==>
              |Flatten(blocks)| == source.initialSize && Delivered(host.calls, temp, file, plan, Flatten(blocks))
    ensures r.Some? && Flatten(channel(blocks)) == Flatten(blocks) ==>
              r.value.Committed? || (r.value.error != DigestMismatch && !r.value.error.Mismatch?)
  {
    ghost var times;
    sent, blocks, times := Pump(source, alg);
    if sent.Aborted? {
      return sent, blocks, None, [], 0;
    }
    var receipt;
    ghost var attempt;
    receipt, temp, file, attempt := Receive(host, alg, plan, names, retries, channel(blocks), faults, sealFault,
                                            source.initialSize, sent.size, sent.digest);
    r := Some(receipt);
  }
}
