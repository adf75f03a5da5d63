/** The update client's flash access: bounds, writable ranges, page loops and a one-block cache. */
module OtaFlash {
  import opened Base
  import opened Crc
  import opened NorFlash

  datatype Error = NotAligned | OutOfBounds | Denied | Gate | Flash

  datatype FlashRange = FlashRange(start: u32, end: u32) {
    predicate Holds(i: nat) { start <= i < end }
  }

  type Cache = Option<(nat, seq<Byte>)>

  function Check(offset: u32, len: nat, align: nat, capacity: nat): (r: Result<u32, Error>)
    requires align > 0
    ensures r.Ok? <==> offset % align == 0 && len % align == 0 && offset + len <= U32_MAX && offset + len <= capacity
    ensures r.Ok? ==> r.value == offset + len
  {
    if offset % align != 0 || len % align != 0 then Err(NotAligned)
    else if len > U32_MAX || offset + len > U32_MAX || offset + len > capacity then Err(OutOfBounds)
    else Ok(offset + len)
  }

  predicate Permitted(writable: (FlashRange, FlashRange), offset: nat, end: nat) {
    || (writable.0.start <= offset && end <= writable.0.end)
    || (writable.1.start <= offset && end <= writable.1.end)
  }

  predicate Owned(writable: (FlashRange, FlashRange), i: nat) {
    writable.0.Holds(i) || writable.1.Holds(i)
  }

  /** The cache holds one whole aligned block. */
  predicate WholeBlock(cache: Cache, capacity: nat) {
    cache.Some? ==>
      && cache.value.0 % CHUNK == 0 && cache.value.0 + CHUNK <= capacity && |cache.value.1| == CHUNK
  }

  predicate Cached(cache: Cache, i: nat) {
    cache.Some? && cache.value.0 <= i < cache.value.0 + CHUNK
  }

  /** Cached bytes of the client's own ranges are the bytes in flash. */
  ghost predicate Coherent(cache: Cache, m: seq<Byte>, writable: (FlashRange, FlashRange)) {
    && WholeBlock(cache, |m|)
    && forall i: nat :: Cached(cache, i) && Owned(writable, i) ==> cache.value.1[i - cache.value.0] == m[i]
  }

  /** Writes by the other storage owner never touch these ranges, so they keep the cache coherent. */
  lemma ForeignWritesKeepCoherence(cache: Cache, m: seq<Byte>, n: seq<Byte>, writable: (FlashRange, FlashRange))
    requires Coherent(cache, m, writable) && |n| == |m|
    requires forall i: nat :: i < |m| && Owned(writable, i) ==> n[i] == m[i]
    ensures Coherent(cache, n, writable)
  {
  }

  class Client {
    const device: Device
    const writable: (FlashRange, FlashRange)
    var cache: Cache

    ghost predicate Valid()
      reads this, device, device.memory
    {
      device.memory.Length % SECTOR == 0 && Coherent(cache, device.memory[..], writable)
    }

    constructor (device: Device, writable: (FlashRange, FlashRange))
      requires device.memory.Length % SECTOR == 0
      ensures Valid() && this.device == device && this.writable == writable && cache.None?
    {
      this.device, this.writable, cache := device, writable, None;
    }

    /** One block, from the cache or through a granted access of its own. */
    method FetchBlock(block: nat) returns (r: Result<seq<Byte>, Error>)
      requires Valid() && block % CHUNK == 0 && block + CHUNK <= device.memory.Length
      modifies this`cache, device`script, device`armed, device`log
      ensures Valid()
      ensures r.Ok? ==> |r.value| == CHUNK
      ensures r.Ok? ==> r.value == device.memory[block..block + CHUNK] || old(cache) == Some((block, r.value))
      ensures r.Ok? ==> forall k :: 0 <= k < CHUNK && Owned(writable, block + k) ==> r.value[k] == device.memory[block + k]
      ensures cache == old(cache) || cache == Some((block, device.memory[block..block + CHUNK]))
      ensures device.log == if old(cache).Some? && old(cache).value.0 == block then old(device.log)
        else if r == Err(Gate) then old(device.log)
        else old(device.log) + [ReadChunk(block, CHUNK)]
      ensures r.Err? ==> r.error == Gate || r.error == Flash
      ensures AllWork(old(device.script)) ==> r.Ok? && AllWork(device.script)
    {
      hide AllWork;
      if cache.Some? && cache.value.0 == block {
        return Ok(cache.value.1);
      }
      var granted := device.Arm();
      if !granted {
        return Err(Gate);
      }
      var data := device.Read(block, CHUNK);
      if data.None? {
        return Err(Flash);
      }
      cache := Some((block, data.value));
      return Ok(data.value);
    }

    /** Reads of the client's own ranges are the bytes now in flash, whatever was cached. */
    method Read(offset: u32, bytes: array<Byte>) returns (r: Result<(), Error>)
      requires Valid() && bytes != device.memory
      modifies this`cache, device`script, device`armed, device`log, bytes
      ensures Valid()
      ensures Check(offset, bytes.Length, 4, device.memory.Length).Err? ==>
        r == Err(Check(offset, bytes.Length, 4, device.memory.Length).error) && cache == old(cache) && device.log == old(device.log)
      ensures r.Ok? ==> forall i :: 0 <= i < bytes.Length && Owned(writable, offset + i) ==>
        bytes[i] == device.memory[offset + i]
      ensures r.Ok? ==> forall i :: 0 <= i < bytes.Length ==>
        || bytes[i] == device.memory[offset + i]
        || (Cached(old(cache), offset + i) && bytes[i] == old(cache).value.1[offset + i - old(cache).value.0])
      ensures Check(offset, bytes.Length, 4, device.memory.Length).Ok? && AllWork(old(device.script)) ==> r.Ok?
    {
      hide AllWork;
      var end :- Check(offset, bytes.Length, 4, device.memory.Length);
      var done := 0;
      ghost var first := cache;
      while done < bytes.Length
        invariant Valid() && 0 <= done <= bytes.Length
        invariant Refreshed(first)
        invariant ServedUpTo(first, device.memory[..], writable, offset, bytes[..], done)
        invariant AllWork(old(device.script)) ==> AllWork(device.script)
      {
        done :- ServeNext(offset, bytes, done, first);
      }
      return Ok(());
    }

    /** Copies what one block holds of the request, from `done` on. */
    method ServeNext(offset: u32, bytes: array<Byte>, done: nat, ghost first: Cache) returns (r: Result<nat, Error>)
      requires Valid() && bytes != device.memory && WholeBlock(first, device.memory.Length)
      requires done < bytes.Length && offset + bytes.Length <= device.memory.Length
      requires Refreshed(first)
      requires ServedUpTo(first, device.memory[..], writable, offset, bytes[..], done)
      modifies this`cache, device`script, device`armed, device`log, bytes
      ensures Valid() && Refreshed(first)
      ensures r.Err? ==> r.error == Gate || r.error == Flash
      ensures r.Ok? ==>
        && done < r.value <= bytes.Length
        && ServedUpTo(first, device.memory[..], writable, offset, bytes[..], r.value)
      ensures AllWork(old(device.script)) ==> r.Ok? && AllWork(device.script)
    {
      hide AllWork;
      var at := offset + done;
      var block := at - at % CHUNK;
      BlockFits(at, device.memory.Length);
      var data :- FetchBlock(block);
      var from := at - block;
      var count := Min(CHUNK - from, bytes.Length - done);
      CopyInto(bytes, done, data[from..from + count]);
      CopiedIsServed(first, device.memory[..], writable, offset, block, data, bytes[..], done, count);
      return Ok(done + count);
    }

    /** The cache is the given one or holds what is now in flash. */
    ghost predicate Refreshed(first: Cache)
      requires WholeBlock(cache, device.memory.Length)
      reads this, device, device.memory
    {
      cache == first || (cache.Some? && cache.value.1 == device.memory[cache.value.0..cache.value.0 + CHUNK])
    }

    /** Programs page by page; outside the request nothing changes, and the cache is dropped first. */
    method Write(offset: u32, bytes: seq<Byte>) returns (r: Result<(), Error>)
      requires Valid()
      modifies this`cache, device, device.memory
      ensures Valid()
      ensures var checked := Check(offset, |bytes|, 4, device.memory.Length);
        && (checked.Err? ==> r == Err(checked.error))
        && (checked.Ok? && !Permitted(writable, offset, offset + |bytes|) ==> r == Err(Denied))
        && (checked.Err? || !Permitted(writable, offset, offset + |bytes|) ==>
              device.memory[..] == old(device.memory[..]) && cache == old(cache) && device.log == old(device.log))
        && (checked.Ok? && Permitted(writable, offset, offset + |bytes|) ==>
              && cache.None?
              && SameOutside(device.memory[..], old(device.memory[..]), offset, offset + |bytes|)
              && device.log <= old(device.log) + Pages(offset, offset + |bytes|))
      ensures forall i: nat :: i < device.memory.Length && !Owned(writable, i) ==> device.memory[i] == old(device.memory[i])
      ensures r.Ok? ==>
        && device.memory[..] == WithBytes(old(device.memory[..]), offset, bytes)
        && device.log == old(device.log) + Pages(offset, offset + |bytes|)
      ensures
        (&& Check(offset, |bytes|, 4, device.memory.Length).Ok?
         && Permitted(writable, offset, offset + |bytes|)
         && AllWork(old(device.script)))
        ==> r.Ok?
    {
      hide AllWork, Pages;
      var end :- Check(offset, |bytes|, 4, device.memory.Length);
      if !Permitted(writable, offset, end) {
        return Err(Denied);
      }
      cache := None;
      var failed, done := device.ProgramPages(offset, bytes);
      if failed.Some? {
        return Err(if failed.value.GateFails? then Gate else Flash);
      }
      return Ok(());
    }

    /** Erases sector by sector; outside the request nothing changes, and the cache is dropped first. */
    method Erase(from: u32, to: u32) returns (r: Result<(), Error>)
      requires Valid()
      modifies this`cache, device, device.memory
      ensures Valid()
      ensures EraseCheck(from, to, device.memory.Length, writable).Some? ==>
        && r == Err(EraseCheck(from, to, device.memory.Length, writable).value)
        && device.memory[..] == old(device.memory[..]) && cache == old(cache) && device.log == old(device.log)
      ensures EraseCheck(from, to, device.memory.Length, writable).None? ==>
        && cache.None?
        && SameOutside(device.memory[..], old(device.memory[..]), from, to)
        && device.log <= old(device.log) + Sectors(from, to)
      ensures forall i: nat :: i < device.memory.Length && !Owned(writable, i) ==> device.memory[i] == old(device.memory[i])
      ensures r.Ok? ==>
        && EraseCheck(from, to, device.memory.Length, writable).None?
        && device.memory[..] == Erased(old(device.memory[..]), from, to)
        && device.log == old(device.log) + Sectors(from, to)
      ensures EraseCheck(from, to, device.memory.Length, writable).None? && AllWork(old(device.script)) ==> r.Ok?
    {
      hide AllWork, Sectors;
      if to < from {
        return Err(OutOfBounds);
      }
      var end :- Check(from, to - from, SECTOR, device.memory.Length);
      if !Permitted(writable, from, to) {
        return Err(Denied);
      }
      cache := None;
      var failed, reached := device.EraseSectors(from, to);
      if failed.Some? {
        return Err(if failed.value.GateFails? then Gate else Flash);
      }
      return Ok(());
    }
  }

  function EraseCheck(from: u32, to: u32, capacity: nat, writable: (FlashRange, FlashRange)): (r: Option<Error>)
    ensures r.None? <==>
      && from <= to && from % SECTOR == 0 && (to - from) % SECTOR == 0 && to <= capacity
      && ((writable.0.start <= from && to <= writable.0.end) || (writable.1.start <= from && to <= writable.1.end))
    ensures r == Some(Denied) ==> from <= to && Check(from, to - from, SECTOR, capacity).Ok?
  {
    if to < from then Some(OutOfBounds)
    else
      var checked := Check(from, to - from, SECTOR, capacity);
      if checked.Err? then Some(checked.error)
      else if !Permitted(writable, from, to) then Some(Denied)
      else None
  }

  /** `b` is byte `i` as flash holds it, or as the cache held it at the start. */
  ghost predicate Served(first: Cache, m: seq<Byte>, i: nat, b: Byte)
    requires i < |m| && WholeBlock(first, |m|)
  {
    b == m[i] || (Cached(first, i) && b == first.value.1[i - first.value.0])
  }

  /** The first `n` bytes served from `offset` on: as flash or the first cache had them, and as flash has the owned ones. */
  ghost predicate ServedUpTo(first: Cache, m: seq<Byte>, writable: (FlashRange, FlashRange), offset: nat, bytes: seq<Byte>, n: nat)
    requires n <= |bytes| && offset + |bytes| <= |m| && WholeBlock(first, |m|)
  {
    forall i :: 0 <= i < n ==>
      && Served(first, m, offset + i, bytes[i])
      && (Owned(writable, offset + i) ==> bytes[i] == m[offset + i])
  }

  /** A fetched block serves the bytes copied out of it. */
  lemma CopiedIsServed(first: Cache, m: seq<Byte>, writable: (FlashRange, FlashRange), offset: nat, block: nat,
                       data: seq<Byte>, bytes: seq<Byte>, done: nat, count: nat)
    requires offset + |bytes| <= |m| && WholeBlock(first, |m|) && done + count <= |bytes|
    requires |data| == CHUNK && block <= offset + done && offset + done + count <= block + CHUNK <= |m|
    requires ServedUpTo(first, m, writable, offset, bytes, done)
    requires forall i :: done <= i < done + count ==> bytes[i] == data[offset + i - block]
    requires data == m[block..block + CHUNK] || first == Some((block, data))
    requires forall k :: 0 <= k < CHUNK && Owned(writable, block + k) ==> data[k] == m[block + k]
    ensures ServedUpTo(first, m, writable, offset, bytes, done + count)
  {
    forall i | done <= i < done + count
      ensures Served(first, m, offset + i, bytes[i]) && (Owned(writable, offset + i) ==> bytes[i] == m[offset + i])
    {
      var k := offset + i - block;
      assert bytes[i] == data[k];
    }
  }

  lemma BlockFits(at: nat, capacity: nat)
    requires at < capacity && capacity % SECTOR == 0
    ensures at - at % CHUNK + CHUNK <= capacity
    ensures (at - at % CHUNK) % CHUNK == 0
  {
    assert capacity == SECTOR * (capacity / SECTOR) == CHUNK * (16 * (capacity / SECTOR));
    assert at == CHUNK * (at / CHUNK) + at % CHUNK;
    assert at / CHUNK < 16 * (capacity / SECTOR);
  }
}
