/**
 Flash as the firmware's drivers see it: reads, page-contained programs and sector erases,
 each of which must follow its own grant of access and may fail part way.
 */
module NorFlash {
  import opened Base
  import opened Crc

  const CHUNK: nat := 256
  const SECTOR: nat := 4096

  datatype Access =
    | ReadChunk(at: nat, len: nat)
    | ProgramPage(at: nat, len: nat)
    | EraseSector(at: nat)

  /** What the next driver call meets; a failure may leave anything in the bytes it was given. */
  datatype Outcome = Works | GateFails | FlashFails(garbage: seq<Byte>)

  /** Programming can only clear bits. */
  function Programmed(old_: Byte, new_: Byte): Byte {
    old_ & new_
  }

  /** `bytes` programmed over `m` from `at`. */
  function WithBytes(m: seq<Byte>, at: nat, bytes: seq<Byte>): (r: seq<Byte>)
    requires at + |bytes| <= |m|
    ensures |r| == |m|
  {
    seq(|m|, i requires 0 <= i < |m| => if at <= i < at + |bytes| then Programmed(m[i], bytes[i - at]) else m[i])
  }

  function Erased(m: seq<Byte>, from: nat, to: nat): (r: seq<Byte>)
    requires from <= to <= |m|
    ensures |r| == |m|
  {
    seq(|m|, i requires 0 <= i < |m| => if from <= i < to then 0xff else m[i])
  }

  /** `a` and `b` agree outside `from..to`. */
  predicate SameOutside(a: seq<Byte>, b: seq<Byte>, from: nat, to: nat) {
    |a| == |b| && forall i :: 0 <= i < |a| && !(from <= i < to) ==> a[i] == b[i]
  }

  /** The program calls that cover `at..end`, none crossing a page. */
  function Pages(at: nat, end: nat): seq<Access>
    requires at <= end
    decreases Max(end - at, 0)
  {
    if at == end then []
    else
      var count := Min(CHUNK - at % CHUNK, end - at);
      [ProgramPage(at, count)] + Pages(at + count, end)
  }

  /** The erase calls that cover `from..to`, one sector each. */
  function Sectors(from: nat, to: nat): seq<Access>
    requires from <= to && (to - from) % SECTOR == 0
    decreases Max(to - from, 0)
  {
    if to - from < SECTOR then [] else [EraseSector(from)] + Sectors(from + SECTOR, to)
  }

  /** The reads that cover `at..end` in chunks counted from its start. */
  function Chunks(at: nat, end: nat): seq<Access>
    requires at <= end
    decreases Max(end - at, 0)
  {
    if at == end then []
    else
      var count := Min(CHUNK, end - at);
      [ReadChunk(at, count)] + Chunks(at + count, end)
  }

  function Covers(a: Access, i: nat): bool {
    match a
    case ReadChunk(at, len) => at <= i < at + len
    case ProgramPage(at, len) => at <= i < at + len
    case EraseSector(at) => at <= i < at + SECTOR
  }

  /** How many accesses of `log` touch byte `i`. */
  function Touches(log: seq<Access>, i: nat): nat {
    if log == [] then 0 else (if Covers(log[0], i) then 1 else 0) + Touches(log[1..], i)
  }

  /** A program call inside one page and inside `from..to`. */
  predicate PageWithin(a: Access, from: nat, to: nat) {
    && a.ProgramPage? && 0 < a.len && from <= a.at && a.at + a.len <= to
    && a.at / CHUNK == (a.at + a.len - 1) / CHUNK
  }

  /** Page calls tile the request: each byte once, none outside, every call inside one page. */
  lemma {:induction false} PagesTile(at: nat, end: nat, i: nat)
    requires at <= end
    ensures Touches(Pages(at, end), i) == if at <= i < end then 1 else 0
    ensures forall a | a in Pages(at, end) :: PageWithin(a, at, end)
    decreases Max(end - at, 0)
  {
    if at < end {
      var count := Min(CHUNK - at % CHUNK, end - at);
      PagesTile(at + count, end, i);
      assert Pages(at, end)[1..] == Pages(at + count, end);
      InOnePage(at, count);
    }
  }

  lemma InOnePage(at: nat, count: nat)
    requires 0 < count && at % CHUNK + count <= CHUNK
    ensures at / CHUNK == (at + count - 1) / CHUNK
  {
    assert at == at / CHUNK * CHUNK + at % CHUNK;
  }

  predicate SectorWithin(a: Access, from: nat, to: nat) {
    a.EraseSector? && a.at % SECTOR == 0 && from <= a.at && a.at + SECTOR <= to
  }

  /** Erase calls tile the request sector by sector. */
  lemma {:induction false} SectorsTile(from: nat, to: nat, i: nat)
    requires from <= to && from % SECTOR == 0 && (to - from) % SECTOR == 0
    ensures Touches(Sectors(from, to), i) == if from <= i < to then 1 else 0
    ensures forall a | a in Sectors(from, to) :: SectorWithin(a, from, to)
    decreases Max(to - from, 0)
  {
    if from < to {
      SectorsTile(from + SECTOR, to, i);
      assert Sectors(from, to)[1..] == Sectors(from + SECTOR, to);
    }
  }

  lemma {:induction false} ChunksTile(at: nat, end: nat, i: nat)
    requires at <= end
    ensures Touches(Chunks(at, end), i) == if at <= i < end then 1 else 0
    ensures forall a | a in Chunks(at, end) :: a.ReadChunk? && 0 < a.len <= CHUNK && at <= a.at && a.at + a.len <= end
    decreases Max(end - at, 0)
  {
    if at < end {
      var count := Min(CHUNK, end - at);
      ChunksTile(at + count, end, i);
      assert Chunks(at, end)[1..] == Chunks(at + count, end);
    }
  }

  /** Nothing still to come fails. */
  ghost predicate AllWork(script: seq<Outcome>) {
    forall o :: o in script ==> o.Works?
  }

  class Device {
    const memory: array<Byte>
    /** The outcomes still to come; an empty script means everything works. */
    var script: seq<Outcome>
    /** Access was granted and not used yet. */
    var armed: bool
    var log: seq<Access>

    constructor (memory: array<Byte>, script: seq<Outcome>)
      ensures this.memory == memory && this.script == script && !armed && log == []
    {
      this.memory, this.script := memory, script;
      armed, log := false, [];
    }

    method NextOutcome() returns (o: Outcome)
      modifies this`script
      ensures o == (if old(script) == [] then Works else old(script)[0])
      ensures script == if old(script) == [] then [] else old(script)[1..]
    {
      if script == [] {
        return Works;
      }
      o := script[0];
      script := script[1..];
    }

    /** The next outcome of a device that works is that it works. */
    method NextWorks() returns (o: Outcome)
      modifies this`script
      ensures AllWork(old(script)) ==> o.Works? && AllWork(script)
    {
      o := NextOutcome();
    }

    /** One acquire or checkpoint: waits for a complete output-off iteration. */
    method Arm() returns (ok: bool)
      modifies this`script, this`armed
      ensures armed == ok
      ensures AllWork(old(script)) ==> ok && AllWork(script)
    {
      var o := NextWorks();
      ok := !o.GateFails?;
      armed := ok;
    }

    method Read(at: nat, len: nat) returns (r: Option<seq<Byte>>)
      requires armed && 0 < len <= CHUNK && at + len <= memory.Length
      modifies this`script, this`armed, this`log
      ensures !armed && log == old(log) + [ReadChunk(at, len)]
      ensures r.Some? ==> r.value == memory[at..at + len]
      ensures AllWork(old(script)) ==> r.Some? && AllWork(script)
    {
      armed, log := false, log + [ReadChunk(at, len)];
      var o := NextWorks();
      r := if o.Works? then Some(memory[at..at + len]) else None;
    }

    method Program(at: nat, bytes: seq<Byte>) returns (ok: bool)
      requires armed && 0 < |bytes| && at % CHUNK + |bytes| <= CHUNK && at + |bytes| <= memory.Length
      modifies this`script, this`armed, this`log, memory
      ensures !armed && log == old(log) + [ProgramPage(at, |bytes|)]
      ensures ok ==> memory[..] == WithBytes(old(memory[..]), at, bytes)
      ensures SameOutside(memory[..], old(memory[..]), at, at + |bytes|)
      ensures AllWork(old(script)) ==> ok && AllWork(script)
    {
      armed, log := false, log + [ProgramPage(at, |bytes|)];
      var o := NextWorks();
      ok := o.Works?;
      for i := 0 to |bytes|
        invariant forall k :: 0 <= k < memory.Length && !(at <= k < at + i) ==> memory[k] == old(memory[k])
        invariant ok ==> forall k :: at <= k < at + i ==> memory[k] == Programmed(old(memory[k]), bytes[k - at])
        invariant armed == false && log == old(log) + [ProgramPage(at, |bytes|)]
        invariant AllWork(old(script)) ==> AllWork(script)
      {
        if ok {
          memory[at + i] := Programmed(memory[at + i], bytes[i]);
        } else if o.FlashFails? && i < |o.garbage| {
          memory[at + i] := o.garbage[i];
        }
      }
    }

    method Erase(at: nat) returns (ok: bool)
      requires armed && at % SECTOR == 0 && at + SECTOR <= memory.Length
      modifies this`script, this`armed, this`log, memory
      ensures !armed && log == old(log) + [EraseSector(at)]
      ensures ok ==> memory[..] == Erased(old(memory[..]), at, at + SECTOR)
      ensures SameOutside(memory[..], old(memory[..]), at, at + SECTOR)
      ensures AllWork(old(script)) ==> ok && AllWork(script)
    {
      armed, log := false, log + [EraseSector(at)];
      var o := NextWorks();
      ok := o.Works?;
      for i := 0 to SECTOR
        invariant forall k :: 0 <= k < memory.Length && !(at <= k < at + i) ==> memory[k] == old(memory[k])
        invariant ok ==> forall k :: at <= k < at + i ==> memory[k] == 0xff
        invariant armed == false && log == old(log) + [EraseSector(at)]
        invariant AllWork(old(script)) ==> AllWork(script)
      {
        if ok {
          memory[at + i] := 0xff;
        } else if o.FlashFails? && i < |o.garbage| {
          memory[at + i] := o.garbage[i];
        }
      }
    }

    /** The page loop shared by both clients: stops at the first failure. */
    method ProgramPages(offset: nat, bytes: seq<Byte>) returns (failed: Option<Outcome>, ghost done: nat)
      requires offset + |bytes| <= memory.Length
      modifies this`script, this`armed, this`log, memory
      ensures failed.None? ==>
        && memory[..] == WithBytes(old(memory[..]), offset, bytes)
        && log == old(log) + Pages(offset, offset + |bytes|)
      ensures SameOutside(memory[..], old(memory[..]), offset, offset + |bytes|)
      ensures log <= old(log) + Pages(offset, offset + |bytes|)
      ensures done <= |bytes| && SameOutside(memory[..], WithBytes(old(memory[..]), offset, bytes[..done]),
                                             offset + done, offset + |bytes|)
      ensures failed.Some? ==> !failed.value.Works?
      ensures AllWork(old(script)) ==> failed.None? && AllWork(script)
    {
      hide AllWork, WithBytes, SameOutside, Pages;
      ghost var before := memory[..];
      var end := offset + |bytes|;
      var at := offset;
      done := 0;
      ProgramNothing(before, offset);
      while at < end
        invariant offset <= at <= end && done == at - offset
        invariant memory[..] == WithBytes(before, offset, bytes[..done])
        invariant log + Pages(at, end) == old(log) + Pages(offset, end)
        invariant AllWork(old(script)) ==> AllWork(script)
      {
        var count := Min(CHUNK - at % CHUNK, end - at);
        PagesStep(at, end);
        var granted := Arm();
        ghost var reached := memory[..];
        if !granted {
          SameRefl(reached, offset + done);
          Stopped(before, offset, bytes, done, reached, reached, 0);
          return Some(GateFails), done;
        }
        var part := bytes[at - offset..at - offset + count];
        var ok := Program(at, part);
        assert log + Pages(at + count, end) == old(log) + Pages(offset, end);
        if !ok {
          Stopped(before, offset, bytes, done, reached, memory[..], count);
          return Some(FlashFails([])), done;
        }
        ProgramJoins(before, offset, bytes, done, count);
        at := at + count;
        done := done + count;
      }
      assert bytes[..done] == bytes;
      assert Pages(at, end) == [] by { PagesEnd(end); }
      SameRefl(memory[..], offset + done);
      Stopped(before, offset, bytes, done, memory[..], memory[..], 0);
      return None, done;
    }

    method EraseSectors(from: nat, to: nat) returns (failed: Option<Outcome>, ghost reached: nat)
      requires from <= to <= memory.Length && from % SECTOR == 0 && (to - from) % SECTOR == 0
      modifies this`script, this`armed, this`log, memory
      ensures failed.None? ==>
        && memory[..] == Erased(old(memory[..]), from, to)
        && log == old(log) + Sectors(from, to)
      ensures SameOutside(memory[..], old(memory[..]), from, to)
      ensures log <= old(log) + Sectors(from, to)
      ensures from <= reached <= to && SameOutside(memory[..], Erased(old(memory[..]), from, reached), reached, to)
      ensures failed.Some? ==> !failed.value.Works?
      ensures AllWork(old(script)) ==> failed.None? && AllWork(script)
    {
      hide AllWork;
      ghost var before := memory[..];
      var sector := from;
      while sector < to
        invariant from <= sector <= to && sector % SECTOR == 0 && (to - sector) % SECTOR == 0
        invariant memory[..] == Erased(before, from, sector)
        invariant log + Sectors(sector, to) == old(log) + Sectors(from, to)
        invariant AllWork(old(script)) ==> AllWork(script)
      {
        assert Sectors(sector, to) == [EraseSector(sector)] + Sectors(sector + SECTOR, to);
        var granted := Arm();
        if !granted {
          return Some(GateFails), sector;
        }
        var ok := Erase(sector);
        assert log + Sectors(sector + SECTOR, to) == old(log) + Sectors(from, to);
        if !ok {
          return Some(FlashFails([])), sector;
        }
        sector := sector + SECTOR;
      }
      return None, sector;
    }
  }

  lemma ProgramNothing(m: seq<Byte>, at: nat)
    requires at <= |m|
    ensures WithBytes(m, at, []) == m
  {
  }

  lemma PagesStep(at: nat, end: nat)
    requires at < end
    ensures var count := Min(CHUNK - at % CHUNK, end - at);
      Pages(at, end) == [ProgramPage(at, count)] + Pages(at + count, end)
  {
  }

  lemma PagesEnd(end: nat)
    ensures Pages(end, end) == []
  {
  }

  lemma SameRefl(m: seq<Byte>, at: nat)
    ensures SameOutside(m, m, at, at)
  {
  }

  /** A failed call leaves its own bytes in doubt and everything else as it was reached. */
  lemma Stopped(before: seq<Byte>, offset: nat, bytes: seq<Byte>, done: nat, reached: seq<Byte>, now: seq<Byte>, count: nat)
    requires offset + |bytes| <= |before| && done + count <= |bytes|
    requires reached == WithBytes(before, offset, bytes[..done])
    requires SameOutside(now, reached, offset + done, offset + done + count)
    ensures SameOutside(now, reached, offset + done, offset + |bytes|)
    ensures SameOutside(now, before, offset, offset + |bytes|)
  {
  }

  lemma ProgramJoins(m: seq<Byte>, offset: nat, bytes: seq<Byte>, done: nat, count: nat)
    requires done + count <= |bytes| && offset + |bytes| <= |m|
    ensures WithBytes(WithBytes(m, offset, bytes[..done]), offset + done, bytes[done..done + count])
         == WithBytes(m, offset, bytes[..done + count])
  {
  }

  /** Programming an erased range stores exactly the bytes given. */
  lemma ProgramAfterErase(m: seq<Byte>, from: nat, to: nat, at: nat, bytes: seq<Byte>)
    requires from <= at && at + |bytes| <= to <= |m|
    ensures WithBytes(Erased(m, from, to), at, bytes)[at..at + |bytes|] == bytes
  {
    var r := WithBytes(Erased(m, from, to), at, bytes);
    forall i | 0 <= i < |bytes|
      ensures r[at..at + |bytes|][i] == bytes[i]
    {
      OnesKeep(bytes[i]);
    }
  }

  lemma OnesKeep(b: Byte)
    ensures Programmed(0xff, b) == b
  {
  }

  /** Copies `part` over `bytes` from `at`. */
  method CopyInto(bytes: array<Byte>, at: nat, part: seq<Byte>)
    requires at + |part| <= bytes.Length
    modifies bytes
    ensures forall i :: 0 <= i < bytes.Length ==>
      bytes[i] == if at <= i < at + |part| then part[i - at] else old(bytes[i])
  {
    for k := 0 to |part|
      invariant forall i :: 0 <= i < bytes.Length ==>
        bytes[i] == if at <= i < at + k then part[i - at] else old(bytes[i])
    {
      bytes[at + k] := part[k];
    }
  }
}
