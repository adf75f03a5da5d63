/** Which flash ranges the store and the update client may use, from the partition table. */
module Partitions {
  import opened Base
  import opened Crc
  import opened NorFlash
  import opened OtaFlash

  /** One partition table entry, by its raw tags. */
  datatype Entry = Entry(kind: nat, subkind: nat, offset: u32, len: u32, encrypted: bool, readOnly: bool) {
    function End(): nat {
      offset + len
    }
  }

  const APP: nat := 0x00
  const DATA: nat := 0x01
  const APP_FACTORY: nat := 0x00
  const APP_OTA_0: nat := 0x10
  const APP_OTA_1: nat := 0x11
  const DATA_OTA: nat := 0x00
  const DATA_NVS: nat := 0x02
  const TABLE_END: nat := 0x9000
  const ERASE_SIZE: nat := 4096
  const OTADATA_LEN: nat := 0x2000
  const APP_ALIGN: nat := 0x1_0000

  predicate IsNvs(e: Entry) {
    e.kind == DATA && e.subkind == DATA_NVS
  }

  predicate Meets(e: Entry, start: nat, end: nat) {
    e.offset < end && start < e.End()
  }

  /** How many of the first `n` entries overlap `start..end`. */
  function Overlaps(table: seq<Entry>, n: nat, start: nat, end: nat): nat
    requires n <= |table|
  {
    if n == 0 then 0 else Overlaps(table, n - 1, start, end) + if Meets(table[n - 1], start, end) then 1 else 0
  }

  lemma {:induction false} OverlapsGrow(table: seq<Entry>, m: nat, n: nat, start: nat, end: nat)
    requires m <= n <= |table|
    ensures Overlaps(table, m, start, end) <= Overlaps(table, n, start, end)
    decreases n - m
  {
    if m < n {
      OverlapsGrow(table, m, n - 1, start, end);
    }
  }

  /** With exactly one overlap, any two overlapping entries are the same one. */
  lemma OneOverlap(table: seq<Entry>, i: nat, j: nat, start: nat, end: nat)
    requires i < |table| && j < |table| && Overlaps(table, |table|, start, end) == 1
    requires Meets(table[i], start, end) && Meets(table[j], start, end)
    ensures i == j
  {
    if i != j {
      var a, b := Min(i, j), Max(i, j);
      OverlapsGrow(table, a + 1, b, start, end);
      OverlapsGrow(table, b + 1, |table|, start, end);
    }
  }

  predicate EndsFit(table: seq<Entry>) {
    forall e :: e in table ==> e.End() <= U32_MAX
  }

  // ---------------------------------------------------------------------- nvs

  /** Entry `i` is the store's partition: the first of its kind, usable, and alone on its range. */
  ghost predicate NvsAt(table: seq<Entry>, capacity: nat, i: nat) {
    && i < |table| && IsNvs(table[i]) && (forall k :: 0 <= k < i ==> !IsNvs(table[k]))
    && var e := table[i];
       && !e.encrypted && !e.readOnly
       && TABLE_END <= e.offset && 3 * ERASE_SIZE <= e.len
       && e.offset % ERASE_SIZE == 0 && e.len % ERASE_SIZE == 0 && e.End() <= capacity
       && EndsFit(table)
       && Overlaps(table, |table|, e.offset, e.End()) == 1
  }

  method FindNvs(table: seq<Entry>) returns (found: Option<nat>)
    ensures found.Some? ==> found.value < |table| && IsNvs(table[found.value])
    ensures found.Some? ==> forall k :: 0 <= k < found.value ==> !IsNvs(table[k])
    ensures found.None? ==> forall k :: 0 <= k < |table| ==> !IsNvs(table[k])
  {
    for i := 0 to |table|
      invariant forall k :: 0 <= k < i ==> !IsNvs(table[k])
    {
      if IsNvs(table[i]) {
        return Some(i);
      }
    }
    return None;
  }

  /** The store's range, from a table that was read; exactly when the table allows one. */
  method NvsRange(table: Option<seq<Entry>>, capacity: nat) returns (r: Result<FlashRange, ()>)
    ensures r.Ok? <==> table.Some? && exists i: nat :: NvsAt(table.value, capacity, i)
    ensures r.Ok? ==> forall i: nat :: NvsAt(table.value, capacity, i) ==>
      r.value == FlashRange(table.value[i].offset, table.value[i].End())
  {
    if table.None? {
      return Err(());
    }
    var entries := table.value;
    var found := FindNvs(entries);
    if found.None? {
      return Err(());
    }
    var nvs := entries[found.value];
    if nvs.End() > U32_MAX {
      assert nvs in entries;
      return Err(());
    }
    var range := FlashRange(nvs.offset, nvs.End());
    if nvs.encrypted || nvs.readOnly || range.start < TABLE_END || nvs.len < 3 * ERASE_SIZE
       || range.start % ERASE_SIZE != 0 || nvs.len % ERASE_SIZE != 0 || range.end > capacity
    {
      return Err(());
    }
    var matches := 0;
    for i := 0 to |entries|
      invariant matches == Overlaps(entries, i, range.start, range.end)
      invariant forall k :: 0 <= k < i ==> entries[k].End() <= U32_MAX
      invariant forall k :: 0 <= k < i && Meets(entries[k], range.start, range.end) ==> SameRange(entries[k], nvs)
    {
      var entry := entries[i];
      if entry.End() > U32_MAX {
        assert entry in entries;
        return Err(());
      }
      if Meets(entry, range.start, range.end) {
        matches := matches + 1;
        if entry.offset != range.start || entry.End() != range.end {
          NotAlone(entries, capacity, found.value, i);
          return Err(());
        }
      }
    }
    if matches != 1 {
      return Err(());
    }
    assert NvsAt(entries, capacity, found.value);
    return Ok(range);
  }

  predicate SameRange(a: Entry, b: Entry) {
    a.offset == b.offset && a.len == b.len
  }

  /** A different range over the store's means a second overlap. */
  lemma NotAlone(table: seq<Entry>, capacity: nat, i: nat, k: nat)
    requires i < |table| && k < |table| && IsNvs(table[i]) && (forall j :: 0 <= j < i ==> !IsNvs(table[j]))
    requires Meets(table[k], table[i].offset, table[i].End()) && !SameRange(table[k], table[i])
    ensures forall j: nat :: !NvsAt(table, capacity, j)
  {
    forall j: nat
      ensures !NvsAt(table, capacity, j)
    {
      if NvsAt(table, capacity, j) {
        OneOverlap(table, i, k, table[i].offset, table[i].End());
      }
    }
  }

  // ---------------------------------------------------------------------- ota

  datatype Role = NoRole | Factory | Slot0 | Slot1 | OtaData

  function RoleOf(e: Entry): Role {
    if e.kind == APP then
      if e.subkind == APP_FACTORY then Factory
      else if e.subkind == APP_OTA_0 then Slot0
      else if e.subkind == APP_OTA_1 then Slot1
      else NoRole
    else if e.kind == DATA && e.subkind == DATA_OTA then OtaData
    else NoRole
  }

  /** Entry `i` is the only one in its role, and plain. */
  ghost predicate Sole(table: seq<Entry>, role: Role, i: nat) {
    && i < |table| && RoleOf(table[i]) == role && !table[i].encrypted && !table[i].readOnly
    && forall k :: 0 <= k < |table| && RoleOf(table[k]) == role ==> k == i
  }

  datatype Layout = Layout(otadata: nat, slot0: nat, slot1: nat)

  /** The three partitions an update touches, each alone on its range. */
  ghost predicate OtaAt(table: seq<Entry>, capacity: nat, l: Layout) {
    && EndsFit(table)
    && (forall e :: e in table ==> RoleOf(e) != Factory)
    && Sole(table, OtaData, l.otadata) && Sole(table, Slot0, l.slot0) && Sole(table, Slot1, l.slot1)
    && var o, a, b := table[l.otadata], table[l.slot0], table[l.slot1];
       && o.len == OTADATA_LEN && o.offset % ERASE_SIZE == 0
       && a.len == b.len && a.len != 0
       && a.offset % APP_ALIGN == 0 && a.End() % ERASE_SIZE == 0
       && b.offset % APP_ALIGN == 0 && b.End() % ERASE_SIZE == 0
       && Alone(table, capacity, o) && Alone(table, capacity, a) && Alone(table, capacity, b)
  }

  predicate Alone(table: seq<Entry>, capacity: nat, e: Entry) {
    TABLE_END <= e.offset && e.End() <= capacity && Overlaps(table, |table|, e.offset, e.End()) == 1
  }

  datatype OtaRegions = OtaRegions(otadata: FlashRange, spare: FlashRange)

  /** What was found for each role in the first `n` entries. */
  ghost predicate FoundSoFar(table: seq<Entry>, n: nat, role: Role, found: Option<nat>) {
    && n <= |table|
    && (found.None? ==> forall k :: 0 <= k < n ==> RoleOf(table[k]) != role)
    && (found.Some? ==>
          && found.value < n && RoleOf(table[found.value]) == role
          && !table[found.value].encrypted && !table[found.value].readOnly
          && forall k :: 0 <= k < n && RoleOf(table[k]) == role ==> k == found.value)
  }

  /** The role loop: fails on a factory app, a repeated role, or an unusable entry. */
  method FindRoles(table: seq<Entry>) returns (r: Result<(Option<nat>, Option<nat>, Option<nat>), ()>)
    ensures r.Ok? ==>
      && EndsFit(table) && (forall e :: e in table ==> RoleOf(e) != Factory)
      && FoundSoFar(table, |table|, OtaData, r.value.0)
      && FoundSoFar(table, |table|, Slot0, r.value.1)
      && FoundSoFar(table, |table|, Slot1, r.value.2)
    ensures r.Err? ==> forall capacity, l :: !OtaAt(table, capacity, l)
  {
    var otadata: Option<nat> := None;
    var slot0: Option<nat> := None;
    var slot1: Option<nat> := None;
    for i := 0 to |table|
      invariant forall k :: 0 <= k < i ==> table[k].End() <= U32_MAX && RoleOf(table[k]) != Factory
      invariant FoundSoFar(table, i, OtaData, otadata)
      invariant FoundSoFar(table, i, Slot0, slot0)
      invariant FoundSoFar(table, i, Slot1, slot1)
    {
      var entry := table[i];
      if entry.End() > U32_MAX {
        assert entry in table;
        return Err(());
      }
      var role := RoleOf(entry);
      if role == Factory {
        assert entry in table;
        return Err(());
      }
      if role != NoRole {
        var before := if role == OtaData then otadata else if role == Slot0 then slot0 else slot1;
        if before.Some? || entry.encrypted || entry.readOnly {
          Unusable(table, i, before);
          return Err(());
        }
        if role == OtaData {
          otadata := Some(i);
        } else if role == Slot0 {
          slot0 := Some(i);
        } else {
          slot1 := Some(i);
        }
      }
    }
    return Ok((otadata, slot0, slot1));
  }

  lemma Unusable(table: seq<Entry>, i: nat, before: Option<nat>)
    requires i < |table| && RoleOf(table[i]) != NoRole && RoleOf(table[i]) != Factory
    requires table[i].encrypted || table[i].readOnly
      || (before.Some? && before.value < i && RoleOf(table[before.value]) == RoleOf(table[i]))
    ensures forall capacity, l :: !OtaAt(table, capacity, l)
  {
  }

  method CountOverlaps(table: seq<Entry>, start: nat, end: nat) returns (n: nat)
    ensures n == Overlaps(table, |table|, start, end)
  {
    n := 0;
    for i := 0 to |table|
      invariant n == Overlaps(table, i, start, end)
    {
      if Meets(table[i], start, end) {
        n := n + 1;
      }
    }
  }

  method IsAlone(table: seq<Entry>, capacity: nat, e: Entry) returns (alone: bool)
    ensures alone == Alone(table, capacity, e)
  {
    if e.offset < TABLE_END || e.End() > capacity {
      return false;
    }
    var overlaps := CountOverlaps(table, e.offset, e.End());
    return overlaps == 1;
  }

  function RangeOf(e: Entry): FlashRange
    requires e.End() <= U32_MAX
  {
    FlashRange(e.offset, e.End())
  }

  /**
   The ranges an update may write, exactly when the table has a valid layout and one of its
   slots is running: the update record, and the slot that is not running.
   */
  method FindOtaRegions(table: Option<seq<Entry>>, capacity: nat, booted: u32) returns (r: Result<OtaRegions, ()>)
    ensures r.Ok? <==> table.Some? && exists l ::
      OtaAt(table.value, capacity, l)
      && (booted == table.value[l.slot0].offset || booted == table.value[l.slot1].offset)
    ensures r.Ok? ==> forall l :: OtaAt(table.value, capacity, l) ==>
      r.value == Regions(table.value, l, booted)
  {
    if table.None? {
      return Err(());
    }
    var entries := table.value;
    var found := FindRoles(entries);
    if found.Err? {
      return Err(());
    }
    var (otadata, slot0, slot1) := found.value;
    if otadata.None? || slot0.None? || slot1.None? {
      return Err(());
    }
    var l := Layout(otadata.value, slot0.value, slot1.value);
    OnlyLayout(entries, capacity, l);
    var o, a, b := entries[l.otadata], entries[l.slot0], entries[l.slot1];
    assert o in entries && a in entries && b in entries;
    if o.len != OTADATA_LEN || o.offset % ERASE_SIZE != 0 || a.len != b.len || a.len == 0 {
      return Err(());
    }
    if a.offset % APP_ALIGN != 0 || a.End() % ERASE_SIZE != 0 || b.offset % APP_ALIGN != 0 || b.End() % ERASE_SIZE != 0 {
      return Err(());
    }
    var oAlone := IsAlone(entries, capacity, o);
    var aAlone := IsAlone(entries, capacity, a);
    var bAlone := IsAlone(entries, capacity, b);
    if !oAlone || !aAlone || !bAlone {
      return Err(());
    }
    assert OtaAt(entries, capacity, l);
    if booted == a.offset {
      return Ok(OtaRegions(RangeOf(o), RangeOf(b)));
    } else if booted == b.offset {
      return Ok(OtaRegions(RangeOf(o), RangeOf(a)));
    } else {
      return Err(());
    }
  }

  lemma OnlyLayout(table: seq<Entry>, capacity: nat, l: Layout)
    requires Sole(table, OtaData, l.otadata) && Sole(table, Slot0, l.slot0) && Sole(table, Slot1, l.slot1)
    ensures forall m :: OtaAt(table, capacity, m) ==> m == l
  {
  }

  function Regions(table: seq<Entry>, l: Layout, booted: u32): OtaRegions
    requires l.otadata < |table| && l.slot0 < |table| && l.slot1 < |table| && EndsFit(table)
  {
    assert table[l.otadata] in table && table[l.slot0] in table && table[l.slot1] in table;
    OtaRegions(RangeOf(table[l.otadata]), RangeOf(table[if booted == table[l.slot0].offset then l.slot1 else l.slot0]))
  }

  predicate Disjoint(a: FlashRange, b: FlashRange) {
    a.end <= b.start || b.end <= a.start
  }

  lemma AloneMeansDisjoint(table: seq<Entry>, capacity: nat, i: nat, j: nat)
    requires EndsFit(table) && i < |table| && j < |table| && i != j
    requires Alone(table, capacity, table[i]) && table[i].len > 0 && table[j].len > 0
    ensures table[i].End() <= U32_MAX && table[j].End() <= U32_MAX
    ensures Disjoint(RangeOf(table[i]), RangeOf(table[j]))
  {
    assert table[i] in table && table[j] in table;
    if Meets(table[j], table[i].offset, table[i].End()) {
      OneOverlap(table, i, j, table[i].offset, table[i].End());
    }
  }

  /**
   Disjointness: for every table both selectors accept, what an update may write overlaps
   neither the store's partition, nor the running slot, nor the table itself.
   */
  lemma WritableIsDisjoint(table: seq<Entry>, capacity: nat, nvs: nat, l: Layout, booted: u32)
    requires NvsAt(table, capacity, nvs) && OtaAt(table, capacity, l)
    requires booted == table[l.slot0].offset || booted == table[l.slot1].offset
    ensures table[nvs].End() <= U32_MAX && table[l.slot0].End() <= U32_MAX && table[l.slot1].End() <= U32_MAX
    ensures var w := Regions(table, l, booted);
      var store := RangeOf(table[nvs]);
      var running := RangeOf(table[if booted == table[l.slot0].offset then l.slot0 else l.slot1]);
      && Disjoint(w.otadata, store) && Disjoint(w.spare, store)
      && Disjoint(w.otadata, running) && Disjoint(w.spare, running) && Disjoint(w.otadata, w.spare)
      && running.start == booted
      && TABLE_END <= w.otadata.start && TABLE_END <= w.spare.start && TABLE_END <= store.start
  {
    assert table[nvs] in table && table[l.slot0] in table && table[l.slot1] in table;
    AloneMeansDisjoint(table, capacity, l.otadata, nvs);
    AloneMeansDisjoint(table, capacity, l.slot0, nvs);
    AloneMeansDisjoint(table, capacity, l.slot1, nvs);
    AloneMeansDisjoint(table, capacity, l.otadata, l.slot0);
    AloneMeansDisjoint(table, capacity, l.otadata, l.slot1);
    AloneMeansDisjoint(table, capacity, l.slot0, l.slot1);
    hide Overlaps;
  }

  /** Bytes of the store, of the running slot and of the table never belong to the update client. */
  lemma UpdatesLeaveTheRestAlone(table: seq<Entry>, capacity: nat, nvs: nat, l: Layout, booted: u32, i: nat)
    requires NvsAt(table, capacity, nvs) && OtaAt(table, capacity, l)
    requires booted == table[l.slot0].offset || booted == table[l.slot1].offset
    requires var running := table[if booted == table[l.slot0].offset then l.slot0 else l.slot1];
      || i < TABLE_END
      || table[nvs].offset <= i < table[nvs].End()
      || running.offset <= i < running.End()
    ensures var w := Regions(table, l, booted); !Owned((w.otadata, w.spare), i)
  {
    WritableIsDisjoint(table, capacity, nvs, l, booted);
    hide OtaAt, NvsAt;
  }

  /** Whatever the store writes in its own range, the update client's cached blocks stay true. */
  lemma StoreWritesKeepTheCache(table: seq<Entry>, capacity: nat, nvs: nat, l: Layout, booted: u32,
                                cache: Cache, before: seq<Byte>, after: seq<Byte>)
    requires NvsAt(table, capacity, nvs) && OtaAt(table, capacity, l)
    requires booted == table[l.slot0].offset || booted == table[l.slot1].offset
    requires |after| == |before| && SameOutside(after, before, table[nvs].offset, table[nvs].End())
    requires var w := Regions(table, l, booted); Coherent(cache, before, (w.otadata, w.spare))
    ensures var w := Regions(table, l, booted); Coherent(cache, after, (w.otadata, w.spare))
  {
    var w := Regions(table, l, booted);
    forall i: nat | i < |before| && Owned((w.otadata, w.spare), i)
      ensures after[i] == before[i]
    {
      if table[nvs].offset <= i < table[nvs].End() {
        UpdatesLeaveTheRestAlone(table, capacity, nvs, l, booted, i);
      }
    }
    ForeignWritesKeepCoherence(cache, before, after, (w.otadata, w.spare));
    hide OtaAt, NvsAt;
  }
}
