/** The key-value store's borrowed flash driver: whole-range checks, then one granted access per chunk. */
module StorageAccess {
  import opened Base
  import opened Crc
  import opened NorFlash

  datatype StorageError = NotAligned | OutOfBounds | AccessFailed

  function CheckRange(offset: nat, len: nat, capacity: nat, alignment: nat): (r: Result<(), StorageError>)
    requires alignment > 0
    ensures r.Ok? <==> offset % alignment == 0 && len % alignment == 0 && offset + len <= capacity
  {
    if offset % alignment != 0 || len % alignment != 0 then Err(NotAligned)
    else if len > capacity || offset > capacity - len then Err(OutOfBounds)
    else Ok(())
  }

  class Borrowed {
    const device: Device

    constructor (device: Device)
      ensures this.device == device
    {
      this.device := device;
    }

    /** Fills `bytes` chunk by chunk; the accesses tile the range from its start. */
    method Read(offset: nat, bytes: array<Byte>) returns (r: Result<(), StorageError>)
      requires bytes != device.memory
      modifies bytes, device`script, device`armed, device`log
      ensures CheckRange(offset, bytes.Length, device.memory.Length, 4).Err? ==>
        && r == CheckRange(offset, bytes.Length, device.memory.Length, 4)
        && bytes[..] == old(bytes[..]) && device.log == old(device.log)
      ensures r.Ok? ==>
        && bytes[..] == device.memory[offset..offset + bytes.Length]
        && device.log == old(device.log) + Chunks(offset, offset + bytes.Length)
      ensures offset + bytes.Length <= device.memory.Length ==>
        device.log <= old(device.log) + Chunks(offset, offset + bytes.Length)
      ensures CheckRange(offset, bytes.Length, device.memory.Length, 4).Ok? && AllWork(old(device.script)) ==> r.Ok?
    {
      hide AllWork, Chunks;
      var _ :- CheckRange(offset, bytes.Length, device.memory.Length, 4);
      var end := offset + bytes.Length;
      var index := 0;
      while index < bytes.Length
        invariant 0 <= index <= bytes.Length
        invariant bytes[..index] == device.memory[offset..offset + index]
        invariant device.log + Chunks(offset + index, end) == old(device.log) + Chunks(offset, end)
        invariant AllWork(old(device.script)) ==> AllWork(device.script)
      {
        var at := offset + index;
        var count := Min(CHUNK, bytes.Length - index);
        ChunksStep(at, end);
        var granted := device.Arm();
        if !granted {
          return Err(AccessFailed);
        }
        var chunk := device.Read(at, count);
        assert device.log + Chunks(at + count, end) == old(device.log) + Chunks(offset, end);
        if chunk.None? {
          return Err(AccessFailed);
        }
        ghost var filled := bytes[..index];
        CopyInto(bytes, index, chunk.value);
        assert bytes[..index] == filled;
        assert bytes[..index + count] == bytes[..index] + bytes[index..index + count];
        assert bytes[index..index + count] == chunk.value;
        assert device.memory[offset..at] + device.memory[at..at + count] == device.memory[offset..at + count];
        index := index + count;
      }
      assert bytes[..index] == bytes[..];
      ChunksEnd(end);
      return Ok(());
    }

    method Write(offset: nat, bytes: seq<Byte>) returns (r: Result<(), StorageError>)
      modifies device, device.memory
      ensures CheckRange(offset, |bytes|, device.memory.Length, 4).Err? ==>
        && r == CheckRange(offset, |bytes|, device.memory.Length, 4)
        && device.memory[..] == old(device.memory[..]) && device.log == old(device.log)
      ensures r.Ok? ==>
        && offset + |bytes| <= device.memory.Length
        && device.memory[..] == WithBytes(old(device.memory[..]), offset, bytes)
        && device.log == old(device.log) + Pages(offset, offset + |bytes|)
      ensures SameOutside(device.memory[..], old(device.memory[..]), offset, offset + |bytes|)
      ensures CheckRange(offset, |bytes|, device.memory.Length, 4).Ok? && AllWork(old(device.script)) ==> r.Ok?
    {
      hide AllWork, Pages;
      var _ :- CheckRange(offset, |bytes|, device.memory.Length, 4);
      var failed, done := device.ProgramPages(offset, bytes);
      return if failed.Some? then Err(AccessFailed) else Ok(());
    }

    method Erase(from: nat, to: nat) returns (r: Result<(), StorageError>)
      modifies device, device.memory
      ensures to < from ==> r == Err(OutOfBounds)
      ensures to < from || CheckRange(from, to - from, device.memory.Length, SECTOR).Err? ==>
        && r.Err? && device.memory[..] == old(device.memory[..]) && device.log == old(device.log)
      ensures r.Ok? ==>
        && from <= to <= device.memory.Length && from % SECTOR == 0 && (to - from) % SECTOR == 0
        && device.memory[..] == Erased(old(device.memory[..]), from, to)
        && device.log == old(device.log) + Sectors(from, to)
      ensures SameOutside(device.memory[..], old(device.memory[..]), from, to)
      ensures from <= to && CheckRange(from, to - from, device.memory.Length, SECTOR).Ok? && AllWork(old(device.script)) ==> r.Ok?
    {
      hide AllWork, Sectors;
      if to < from {
        return Err(OutOfBounds);
      }
      var _ :- CheckRange(from, to - from, device.memory.Length, SECTOR);
      var failed, reached := device.EraseSectors(from, to);
      return if failed.Some? then Err(AccessFailed) else Ok(());
    }
  }

  lemma ChunksStep(at: nat, end: nat)
    requires at < end
    ensures Chunks(at, end) == [ReadChunk(at, Min(CHUNK, end - at))] + Chunks(at + Min(CHUNK, end - at), end)
  {
  }

  lemma ChunksEnd(end: nat)
    ensures Chunks(end, end) == []
  {
  }
}
