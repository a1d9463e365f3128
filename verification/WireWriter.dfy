/** cfixkern/cfixkr/drvtestadp.c: describes a test adapter in a caller-supplied buffer. */
module WireWriter {
  import opened WireLayout

  datatype Status = Success | InvalidParameter | BufferOverflow

  // RTL_SIZEOF_THROUGH_FIELD( type, field[ n - 1 ] ) on ULONG operands; n - 1 wraps around for n = 0
  function ThroughField(base: nat, elem: nat, n: uint32): uint32
  {
    Ulong(base + elem * (if n == 0 then TWO_32 - 1 else n - 1) + elem)
  }

  lemma ThroughModule(n: uint32)
    ensures ThroughField(MODULE_HEADER, 4, n) == Ulong(MODULE_HEADER + 4 * n)
  {
  }

  lemma ThroughFixture(n: uint32)
    ensures ThroughField(FIXTURE_HEADER, ENTRY_SIZE, n) == Ulong(FIXTURE_HEADER + ENTRY_SIZE * n)
  {
  }

  // The C code counts fixtures and entries in ULONGs.
  ghost predicate Countable(a: Adapter)
  {
    |a| < TWO_32 && forall j :: 0 <= j < |a| ==> |a[j].entries| < TWO_32
  }

  // RtlStringCbLengthW limited to ( CFIX_MAX_ENTRY_NAME_CCH - 1 ) characters, terminator included
  method StringCbLength(e: Entry) returns (status: Status, length: nat)
    ensures status == Success <==> NameFits(e)
    ensures status == Success <==> |e.name| <= 62
    ensures status == Success ==> length == 2 * |e.name|
    ensures status != Success ==> status == InvalidParameter
  {
    if |e.name| > MAX_ENTRY_NAME {
      return InvalidParameter, 0;
    }
    return Success, 2 * |e.name|;
  }

  // ULONG arithmetic
  function Ulong(x: nat): uint32 { x % TWO_32 }

  lemma UlongAdd(x: nat, y: nat)
    ensures Ulong(Ulong(x) + y) == Ulong(x + y)
    ensures Ulong(x + Ulong(y)) == Ulong(x + y)
  {
  }

  // The inner loop of CfixkrsCalculateBufferSize: adds the lengths of the entry names to `size`.
  method AddEntryNames(entries: seq<Entry>, size: uint32) returns (status: Status, r: uint32)
    ensures status == Success <==> forall k :: 0 <= k < |entries| ==> NameFits(entries[k])
    ensures status != Success ==> status == InvalidParameter
    ensures status == Success ==> r == Ulong(size + NamesSize(entries, |entries|))
  {
    r := size;
    var k := 0;
    while k < |entries|
      invariant 0 <= k <= |entries|
      invariant forall l :: 0 <= l < k ==> NameFits(entries[l])
      invariant r == Ulong(size + NamesSize(entries, k))
    {
      var length;
      status, length := StringCbLength(entries[k]);
      if status != Success {
        return;
      }
      UlongAdd(size + NamesSize(entries, k), length);
      r := Ulong(r + length);
      k := k + 1;
    }
    status := Success;
  }

  // Adds the sizes of one fixture.
  method AddFixture(f: AdapterFixture, structSize: uint32, stringsSize: uint32)
    returns (status: Status, structSize': uint32, stringsSize': uint32)
    requires |f.entries| < TWO_32
    ensures status == Success <==> EntryNamesFit(f)
    ensures status != Success ==> status == InvalidParameter
    ensures status == Success ==> structSize' == Ulong(structSize + FixtureSize(f))
    ensures status == Success ==> stringsSize' == Ulong(stringsSize + StringsSize(f))
  {
    ThroughFixture(|f.entries|);
    UlongAdd(structSize, FixtureSize(f));
    structSize' := Ulong(structSize + ThroughField(FIXTURE_HEADER, ENTRY_SIZE, |f.entries|));
    stringsSize' := Ulong(stringsSize + 2 * |f.name|);
    UlongAdd(stringsSize + 2 * |f.name|, NamesSize(f.entries, |f.entries|));
    status, stringsSize' := AddEntryNames(f.entries, stringsSize');
  }

  // CfixkrsCalculateBufferSize, in ULONG arithmetic
  method CalculateBufferSize(a: Adapter) returns (status: Status, structSize: uint32, stringsSize: uint32)
    requires Countable(a)
    ensures status == Success <==> NamesFit(a)
    ensures status != Success ==> status == InvalidParameter
    ensures status == Success ==> structSize == Ulong(StructTotal(a)) && stringsSize == Ulong(AllStringsSize(a, |a|))
  {
    structSize := ThroughField(MODULE_HEADER, 4, |a|);
    stringsSize := 0;
    var j := 0;
    ThroughModule(|a|);
    while j < |a|
      invariant 0 <= j <= |a|
      invariant forall i :: 0 <= i < j ==> EntryNamesFit(a[i])
      invariant structSize == Ulong(FixtureOffset(a, j))
      invariant stringsSize == Ulong(AllStringsSize(a, j))
    {
      UlongAdd(FixtureOffset(a, j), FixtureSize(a[j]));
      UlongAdd(AllStringsSize(a, j), StringsSize(a[j]));
      status, structSize, stringsSize := AddFixture(a[j], structSize, stringsSize);
      if status != Success {
        return;
      }
      OffsetsStep(a, j);
      j := j + 1;
    }
    status := Success;
  }

  /* ---------------------------------------------------------------- writing */

  method PutU16(buf: array<byte>, off: nat, v: uint16)
    requires off + 2 <= buf.Length
    modifies buf
    ensures U16At(buf[..], off) == v
    ensures Same(old(buf[..]), buf[..], 0, off) && Same(old(buf[..]), buf[..], off + 2, buf.Length)
  {
    buf[off] := v % 0x100;
    buf[off + 1] := v / 0x100;
  }

  method PutU32(buf: array<byte>, off: nat, v: uint32)
    requires off + 4 <= buf.Length
    modifies buf
    ensures U32At(buf[..], off) == v
    ensures Same(old(buf[..]), buf[..], 0, off) && Same(old(buf[..]), buf[..], off + 4, buf.Length)
  {
    var high := v / 0x1_0000;
    PutU16(buf, off, v % 0x1_0000);
    PutU16(buf, off + 2, high);
    ghost var s := buf[..];
    assert U32At(s, off) == U16At(s, off) + 0x1_0000 * U16At(s, off + 2);
  }

  // RtlCopyMemory of a string
  method PutName(buf: array<byte>, off: nat, name: seq<uint16>)
    requires off + 2 * |name| <= buf.Length
    modifies buf
    ensures NameAt(buf[..], off, name)
    ensures Same(old(buf[..]), buf[..], 0, off) && Same(old(buf[..]), buf[..], off + 2 * |name|, buf.Length)
  {
    var i := 0;
    while i < |name|
      invariant 0 <= i <= |name|
      invariant NameAt(buf[..], off, name[..i])
      invariant Same(old(buf[..]), buf[..], 0, off) && Same(old(buf[..]), buf[..], off + 2 * i, buf.Length)
    {
      ghost var before := buf[..];
      PutU16(buf, off + 2 * i, name[i]);
      NameFrame(before, buf[..], off, name[..i]);
      assert CharAt(buf[..], off, i) == name[i];
      assert forall l :: 0 <= l < i ==> CharAt(buf[..], off, l) == name[..i][l];
      i := i + 1;
    }
    assert name[..|name|] == name;
  }

  // Unchanged outside the ranges of one record and one string behind it.
  ghost predicate SameBut(s: seq<byte>, s': seq<byte>, lo: nat, hi: nat, lo': nat, hi': nat)
  {
    hi <= lo' && Same(s, s', 0, lo) && Same(s, s', hi, lo') && Same(s, s', hi', |s|)
  }

  // Fills one CFIXKRIO_FIXTURE_ENTRY and copies its name; `e` and `str` are the two cursors.
  method WriteEntry(buf: array<byte>, entry: Entry, k: uint16, e: nat, str: uint32)
    requires e + ENTRY_SIZE <= str && str + 2 * |entry.name| <= buf.Length && 2 * |entry.name| < TWO_32
    modifies buf
    ensures EntryAt(buf[..], e, str, entry, k)
    ensures SameBut(old(buf[..]), buf[..], e, e + ENTRY_SIZE, str, str + 2 * |entry.name|)
  {
    PutU16(buf, e, entry.kind % 0x1_0000);
    PutU16(buf, e + 2, k);
    PutU32(buf, e + 8, 2 * |entry.name|);
    PutU32(buf, e + 4, str);
    PutName(buf, str, entry.name);
  }

  // Fills the fixed part of a CFIXKRIO_FIXTURE and copies the fixture name.
  method WriteHeader(buf: array<byte>, f: AdapterFixture, j: uint16, off: nat, str: uint32)
    requires off + FIXTURE_HEADER <= str && str + 2 * |f.name| <= buf.Length
    requires 2 * |f.name| < TWO_32 && |f.entries| < TWO_32
    modifies buf
    ensures HeaderAt(buf[..], off, str, f, j)
    ensures SameBut(old(buf[..]), buf[..], off, off + FIXTURE_HEADER, str, str + 2 * |f.name|)
  {
    PutU16(buf, off, j);
    PutU32(buf, off + 12, |f.entries|);
    PutU32(buf, off + 8, 2 * |f.name|);
    PutU32(buf, off + 4, str);
    PutName(buf, str, f.name);
  }

  // The ranges of entry `k` lie within those of all entries of its fixture.
  lemma EntryWithin(s: seq<byte>, s': seq<byte>, a: Adapter, j: nat, k: nat)
    requires j < |a| && k < |a[j].entries|
    requires SameBut(s, s', EntryOffset(a, j, k), EntryOffset(a, j, k + 1),
                     EntryNameOffset(a, j, k), EntryNameOffset(a, j, k + 1))
    ensures SameBut(s, s', EntryOffset(a, j, 0), FixtureOffset(a, j + 1),
                    EntryNameOffset(a, j, 0), StringOffset(a, j + 1))
  {
    LayoutNested(a, j, k);
    EntryNamesMonotone(a, j, 0, k);
    EntryNamesMonotone(a, j, k + 1, |a[j].entries|);
  }

  // One round of the inner loop of CfixkrpQueryModuleTestAdapter
  method WriteNextEntry(buf: array<byte>, a: Adapter, j: nat, k: nat, str: nat) returns (str': nat)
    requires Representable(a) && j < |a| && k < |a[j].entries| && Total(a) <= buf.Length
    requires str == EntryNameOffset(a, j, k)
    requires forall l :: 0 <= l < k ==> EntryWritten(buf[..], a, j, l)
    modifies buf
    ensures str' == EntryNameOffset(a, j, k + 1)
    ensures forall l :: 0 <= l < k + 1 ==> EntryWritten(buf[..], a, j, l)
    ensures SameBut(old(buf[..]), buf[..], EntryOffset(a, j, 0), FixtureOffset(a, j + 1),
                    EntryNameOffset(a, j, 0), StringOffset(a, j + 1))
  {
    var entry := a[j].entries[k];
    ghost var before := buf[..];
    LayoutNested(a, j, k);
    WriteEntry(buf, entry, k, EntryOffset(a, j, k), str);
    str' := str + 2 * |entry.name|;
    forall l | 0 <= l < k
      ensures EntryWritten(buf[..], a, j, l)
    {
      EntryKept(before, buf[..], a, j, l, k);
    }
    EntryWithin(before, buf[..], a, j, k);
  }

  // The inner loop of CfixkrpQueryModuleTestAdapter.  It asks for each name's length again, which
  // cannot fail after CfixkrsCalculateBufferSize has succeeded.
  method WriteEntries(buf: array<byte>, a: Adapter, j: nat, str: nat) returns (str': nat)
    requires Representable(a) && j < |a| && Total(a) <= buf.Length
    requires str == EntryNameOffset(a, j, 0)
    modifies buf
    ensures str' == StringOffset(a, j + 1)
    ensures forall k :: 0 <= k < |a[j].entries| ==> EntryWritten(buf[..], a, j, k)
    ensures SameBut(old(buf[..]), buf[..], EntryOffset(a, j, 0), FixtureOffset(a, j + 1), str, StringOffset(a, j + 1))
  {
    var k := 0;
    str' := str;
    OffsetsStep(a, j);
    OffsetsMonotone(a, j + 1, j + 1);
    OffsetsMonotone(a, j, j);
    while k < |a[j].entries|
      invariant 0 <= k <= |a[j].entries|
      invariant str' == EntryNameOffset(a, j, k)
      invariant forall l :: 0 <= l < k ==> EntryWritten(buf[..], a, j, l)
      invariant SameBut(old(buf[..]), buf[..], EntryOffset(a, j, 0), FixtureOffset(a, j + 1), str, StringOffset(a, j + 1))
    {
      str' := WriteNextEntry(buf, a, j, k, str');
      k := k + 1;
    }
  }

  lemma EntryKept(s: seq<byte>, s': seq<byte>, a: Adapter, j: nat, l: nat, k: nat)
    requires j < |a| && l < k < |a[j].entries| && EntryWritten(s, a, j, l)
    requires SameBut(s, s', EntryOffset(a, j, k), EntryOffset(a, j, k + 1),
                     EntryNameOffset(a, j, k), EntryNameOffset(a, j, k + 1))
    ensures EntryWritten(s', a, j, l)
  {
    LayoutNested(a, j, l);
    LayoutNested(a, j, k);
    EntryNamesMonotone(a, j, l + 1, k);
    EntryFrame(s, s', a, j, l);
  }

  // One round of the outer loop of CfixkrpQueryModuleTestAdapter
  method WriteFixture(buf: array<byte>, a: Adapter, j: nat, off: nat, str: nat) returns (off': nat, str': nat)
    requires Representable(a) && j < |a| && Total(a) <= buf.Length
    requires off == FixtureOffset(a, j) && str == StringOffset(a, j)
    modifies buf
    ensures off' == FixtureOffset(a, j + 1) && str' == StringOffset(a, j + 1)
    ensures FixtureWritten(buf[..], a, j)
    ensures Same(old(buf[..]), buf[..], 0, SlotOffset(j)) && Same(old(buf[..]), buf[..], SlotOffset(j + 1), off)
    ensures Same(old(buf[..]), buf[..], off', str) && Same(old(buf[..]), buf[..], str', buf.Length)
  {
    var f := a[j];
    OffsetsStep(a, j);
    OffsetsMonotone(a, 0, j);
    OffsetsMonotone(a, j, j + 1);
    EntryNamesMonotone(a, j, 0, |f.entries|);
    PutU32(buf, SlotOffset(j), off);
    WriteHeader(buf, f, j, off, str);
    ghost var before := buf[..];
    off' := off + FIXTURE_HEADER + ENTRY_SIZE * |f.entries|;
    str' := WriteEntries(buf, a, j, str + 2 * |f.name|);
    HeaderFrame(before, buf[..], off, str, f, j);
  }

  // Writing fixture `j` leaves the three ranges of fixture `i` alone.
  lemma RangesKept(s: seq<byte>, s': seq<byte>, a: Adapter, i: nat, j: nat)
    requires i < j < |a|
    requires Same(s, s', 0, SlotOffset(j)) && Same(s, s', SlotOffset(j + 1), FixtureOffset(a, j))
    requires Same(s, s', FixtureOffset(a, j + 1), StringOffset(a, j)) && Same(s, s', StringOffset(a, j + 1), |s|)
    ensures Same(s, s', SlotOffset(i), SlotOffset(i + 1))
    ensures Same(s, s', FixtureOffset(a, i), FixtureOffset(a, i + 1))
    ensures Same(s, s', StringOffset(a, i), StringOffset(a, i + 1))
  {
    OffsetsMonotone(a, 0, i);
    OffsetsMonotone(a, i + 1, j);
    OffsetsMonotone(a, j, j + 1);
  }

  // The next fixture is written and the previous ones are left as they are.
  method WriteNextFixture(buf: array<byte>, a: Adapter, j: nat, off: nat, str: nat) returns (off': nat, str': nat)
    requires Representable(a) && j < |a| && Total(a) <= buf.Length
    requires off == FixtureOffset(a, j) && str == StringOffset(a, j)
    requires forall i :: 0 <= i < j ==> FixtureWritten(buf[..], a, i)
    modifies buf
    ensures off' == FixtureOffset(a, j + 1) && str' == StringOffset(a, j + 1)
    ensures forall i :: 0 <= i < j + 1 ==> FixtureWritten(buf[..], a, i)
    ensures Same(old(buf[..]), buf[..], 0, MODULE_HEADER) && Same(old(buf[..]), buf[..], Total(a), buf.Length)
  {
    ghost var before := buf[..];
    OffsetsMonotone(a, j, j + 1);
    off', str' := WriteFixture(buf, a, j, off, str);
    forall i | 0 <= i < j
      ensures FixtureWritten(buf[..], a, i)
    {
      RangesKept(before, buf[..], a, i, j);
      FixtureFrame(before, buf[..], a, i);
    }
  }

  // CfixkrpQueryModuleTestAdapter
  method QueryModule(a: Adapter, maximum: nat, buf: array<byte>) returns (status: Status, size: nat)
    requires Representable(a) && maximum <= buf.Length
    modifies buf
    ensures status == InvalidParameter <==> !NamesFit(a)
    ensures status == BufferOverflow <==> NamesFit(a) && maximum < Total(a)
    ensures status != InvalidParameter ==> size == Total(a)
    ensures status == Success ==> ModuleWritten(buf[..], a)
    ensures status == Success ==> Same(old(buf[..]), buf[..], Total(a), buf.Length)
    ensures status != Success ==> buf[..] == old(buf[..])
  {
    OffsetsMonotone(a, 0, |a|);
    var structSize, stringsSize;
    status, structSize, stringsSize := CalculateBufferSize(a);
    if status != Success {
      return status, 0;
    }
    size := structSize + stringsSize;
    if size > maximum {
      return BufferOverflow, size;
    }
    var off := ThroughField(MODULE_HEADER, 4, |a|);
    var str := structSize;
    ThroughModule(|a|);
    PutU32(buf, 0, |a|);
    var j := 0;
    while j < |a|
      invariant 0 <= j <= |a|
      invariant off == FixtureOffset(a, j) && str == StringOffset(a, j)
      invariant U32At(buf[..], 0) == |a|
      invariant forall i :: 0 <= i < j ==> FixtureWritten(buf[..], a, i)
      invariant Same(old(buf[..]), buf[..], Total(a), buf.Length)
    {
      off, str := WriteNextFixture(buf, a, j, off, str);
      j := j + 1;
    }
    // both cursors end at the sizes computed in the first pass
    assert off == structSize && str == structSize + stringsSize;
    status := Success;
  }
}
