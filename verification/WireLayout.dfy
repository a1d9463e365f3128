/**
 The response to CFIXKR_IOCTL_QUERY_TEST_MODULE (include/cfixkrio.h): where every field and every
 string of a test adapter is found in the buffer.

 A module record (4 + 4n bytes) is followed by the fixture records (16 + 12k bytes each), and these
 by all strings.  All fields are little-endian.
 */
module WireLayout {

  type byte = x: int | 0 <= x < 0x100
  type uint16 = x: int | 0 <= x < 0x1_0000
  type uint32 = x: int | 0 <= x < 0x1_0000_0000

  const TWO_32: nat := 0x1_0000_0000

  // sizes and field offsets of the structures in include/cfixkrio.h
  const MODULE_HEADER: nat := 4
  const FIXTURE_HEADER: nat := 16
  const ENTRY_SIZE: nat := 12

  // ( CFIX_MAX_ENTRY_NAME_CCH - 1 ) characters must hold the name and its terminator
  const MAX_ENTRY_NAME: nat := 62

  // CFIX_PE_DEFINITION_ENTRY; routine 0 is the NULL pointer
  datatype Entry = Entry(kind: nat, name: seq<uint16>, routine: nat)

  // CFIXKRP_TEST_FIXTURE
  datatype AdapterFixture = AdapterFixture(name: seq<uint16>, entries: seq<Entry>)

  type Adapter = seq<AdapterFixture>

  /* ---------------------------------------------------------------- sizes and offsets */

  function FixtureSize(f: AdapterFixture): nat
  {
    FIXTURE_HEADER + ENTRY_SIZE * |f.entries|
  }

  // Bytes of the first `n` entry names
  function NamesSize(entries: seq<Entry>, n: nat): nat
    requires n <= |entries|
  {
    if n == 0 then 0 else NamesSize(entries, n - 1) + 2 * |entries[n - 1].name|
  }

  function StringsSize(f: AdapterFixture): nat
  {
    2 * |f.name| + NamesSize(f.entries, |f.entries|)
  }

  // Bytes of the first `n` fixture records
  function FixturesSize(fs: seq<AdapterFixture>, n: nat): nat
    requires n <= |fs|
  {
    if n == 0 then 0 else FixturesSize(fs, n - 1) + FixtureSize(fs[n - 1])
  }

  // Bytes of the strings of the first `n` fixtures
  function AllStringsSize(fs: seq<AdapterFixture>, n: nat): nat
    requires n <= |fs|
  {
    if n == 0 then 0 else AllStringsSize(fs, n - 1) + StringsSize(fs[n - 1])
  }

  function StructTotal(a: Adapter): nat
  {
    MODULE_HEADER + 4 * |a| + FixturesSize(a, |a|)
  }

  function Total(a: Adapter): nat
  {
    StructTotal(a) + AllStringsSize(a, |a|)
  }

  // Offset of the entry of FixtureOffsets for fixture `j`
  function SlotOffset(j: nat): nat
  {
    MODULE_HEADER + 4 * j
  }

  // Offset of the CFIXKRIO_FIXTURE of fixture `j`
  function FixtureOffset(a: Adapter, j: nat): nat
    requires j <= |a|
  {
    MODULE_HEADER + 4 * |a| + FixturesSize(a, j)
  }

  // Offset of the strings of fixture `j`, the fixture name coming first
  function StringOffset(a: Adapter, j: nat): nat
    requires j <= |a|
  {
    StructTotal(a) + AllStringsSize(a, j)
  }

  // Offset of the CFIXKRIO_FIXTURE_ENTRY number `k` of fixture `j`
  function EntryOffset(a: Adapter, j: nat, k: nat): nat
    requires j <= |a|
  {
    FixtureOffset(a, j) + FIXTURE_HEADER + ENTRY_SIZE * k
  }

  // Offset of the name of entry `k` of fixture `j`
  function EntryNameOffset(a: Adapter, j: nat, k: nat): nat
    requires j < |a| && k <= |a[j].entries|
  {
    StringOffset(a, j) + 2 * |a[j].name| + NamesSize(a[j].entries, k)
  }

  lemma {:induction false} NamesMonotone(entries: seq<Entry>, k: nat, l: nat)
    requires k <= l <= |entries|
    ensures NamesSize(entries, k) <= NamesSize(entries, l)
  {
    if k < l {
      NamesMonotone(entries, k, l - 1);
    }
  }

  lemma {:induction false} FixturesMonotone(fs: seq<AdapterFixture>, i: nat, j: nat)
    requires i <= j <= |fs|
    ensures FixturesSize(fs, i) <= FixturesSize(fs, j)
    ensures AllStringsSize(fs, i) <= AllStringsSize(fs, j)
  {
    if i < j {
      FixturesMonotone(fs, i, j - 1);
    }
  }

  // Consecutive fixtures occupy consecutive ranges, and the last ones end with their area.
  lemma OffsetsStep(a: Adapter, j: nat)
    requires j < |a|
    ensures FixtureOffset(a, j + 1) == FixtureOffset(a, j) + FixtureSize(a[j])
    ensures StringOffset(a, j + 1) == StringOffset(a, j) + StringsSize(a[j])
    ensures EntryOffset(a, j, |a[j].entries|) == FixtureOffset(a, j + 1)
    ensures EntryNameOffset(a, j, |a[j].entries|) == StringOffset(a, j + 1)
  {
  }

  lemma OffsetsMonotone(a: Adapter, i: nat, j: nat)
    requires i <= j <= |a|
    ensures FixtureOffset(a, i) <= FixtureOffset(a, j) <= StructTotal(a)
    ensures StructTotal(a) <= StringOffset(a, i) <= StringOffset(a, j) <= Total(a)
  {
    FixturesMonotone(a, i, j);
    FixturesMonotone(a, j, |a|);
  }

  lemma EntryNamesMonotone(a: Adapter, j: nat, k: nat, l: nat)
    requires j < |a| && k <= l <= |a[j].entries|
    ensures EntryNameOffset(a, j, k) <= EntryNameOffset(a, j, l) <= StringOffset(a, j + 1)
  {
    NamesMonotone(a[j].entries, k, l);
    NamesMonotone(a[j].entries, l, |a[j].entries|);
    OffsetsStep(a, j);
  }

  lemma {:induction false} NamesEven(entries: seq<Entry>, n: nat)
    requires n <= |entries|
    ensures NamesSize(entries, n) % 2 == 0
  {
    if n > 0 {
      NamesEven(entries, n - 1);
    }
  }

  lemma {:induction false} AreasAligned(fs: seq<AdapterFixture>, n: nat)
    requires n <= |fs|
    ensures FixturesSize(fs, n) % 4 == 0 && AllStringsSize(fs, n) % 2 == 0
  {
    if n > 0 {
      AreasAligned(fs, n - 1);
      NamesEven(fs[n - 1].entries, |fs[n - 1].entries|);
    }
  }

  // Every record starts on a DWORD boundary and every string on a WCHAR boundary.
  lemma LayoutAligned(a: Adapter, j: nat, k: nat)
    requires j < |a| && k <= |a[j].entries|
    ensures FixtureOffset(a, j) % 4 == 0 && EntryOffset(a, j, k) % 4 == 0
    ensures StringOffset(a, j) % 2 == 0 && EntryNameOffset(a, j, k) % 2 == 0
  {
    AreasAligned(a, j);
    AreasAligned(a, |a|);
    NamesEven(a[j].entries, k);
  }

  // Every record lies in the structure area and every string in the string area behind it, each
  // after the previous one, and the two areas make up the buffer.
  lemma LayoutNested(a: Adapter, j: nat, k: nat)
    requires j < |a| && k < |a[j].entries|
    ensures SlotOffset(j) + 4 <= FixtureOffset(a, 0) <= FixtureOffset(a, j)
    ensures FixtureOffset(a, j) + FIXTURE_HEADER <= EntryOffset(a, j, k)
    ensures EntryOffset(a, j, k) + ENTRY_SIZE <= FixtureOffset(a, j + 1) <= StructTotal(a)
    ensures StructTotal(a) <= StringOffset(a, j) && StringOffset(a, j) + 2 * |a[j].name| <= EntryNameOffset(a, j, k)
    ensures EntryNameOffset(a, j, k) + 2 * |a[j].entries[k].name| <= StringOffset(a, j + 1) <= Total(a)
  {
    OffsetsStep(a, j);
    OffsetsMonotone(a, 0, j);
    OffsetsMonotone(a, j + 1, |a|);
    EntryNamesMonotone(a, j, k + 1, |a[j].entries|);
  }

  // What the writer's USHORT indices and ULONG offsets can express.
  ghost predicate Representable(a: Adapter)
  {
    && |a| < 0x1_0000
    && (forall j :: 0 <= j < |a| ==> |a[j].entries| < 0x1_0000)
    && Total(a) < TWO_32
  }

  predicate NameFits(e: Entry)
  {
    |e.name| <= MAX_ENTRY_NAME
  }

  ghost predicate EntryNamesFit(f: AdapterFixture)
  {
    forall k :: 0 <= k < |f.entries| ==> NameFits(f.entries[k])
  }

  ghost predicate NamesFit(a: Adapter)
  {
    forall j :: 0 <= j < |a| ==> EntryNamesFit(a[j])
  }

  /* ---------------------------------------------------------------- reading bytes */

  function U16At(s: seq<byte>, off: nat): uint16
    requires off + 2 <= |s|
  {
    s[off] as int + 0x100 * (s[off + 1] as int)
  }

  function U32At(s: seq<byte>, off: nat): uint32
    requires off + 4 <= |s|
  {
    s[off] as int + 0x100 * (s[off + 1] as int) + 0x1_0000 * (s[off + 2] as int) + 0x100_0000 * (s[off + 3] as int)
  }

  // Character `i` of the string at `off`
  function CharAt(s: seq<byte>, off: nat, i: nat): uint16
    requires off + 2 * i + 2 <= |s|
  {
    U16At(s, off + 2 * i)
  }

  ghost predicate NameAt(s: seq<byte>, off: nat, name: seq<uint16>)
  {
    && off + 2 * |name| <= |s|
    && forall i :: 0 <= i < |name| ==> CharAt(s, off, i) == name[i]
  }

  // The entry record at `e` describes entry number `k`, whose name is found at `str`.
  ghost predicate EntryAt(s: seq<byte>, e: nat, str: nat, entry: Entry, k: nat)
  {
    && e + ENTRY_SIZE <= |s|
    && U16At(s, e) == entry.kind % 0x1_0000
    && U16At(s, e + 2) == k
    && U32At(s, e + 4) == str
    && U32At(s, e + 8) == 2 * |entry.name|
    && NameAt(s, str, entry.name)
  }

  ghost predicate HeaderAt(s: seq<byte>, off: nat, str: nat, f: AdapterFixture, j: nat)
  {
    && off + FIXTURE_HEADER <= |s|
    && U16At(s, off) == j
    && U32At(s, off + 4) == str
    && U32At(s, off + 8) == 2 * |f.name|
    && U32At(s, off + 12) == |f.entries|
    && NameAt(s, str, f.name)
  }

  ghost predicate EntryWritten(s: seq<byte>, a: Adapter, j: nat, k: nat)
    requires j < |a| && k < |a[j].entries|
  {
    EntryAt(s, EntryOffset(a, j, k), EntryNameOffset(a, j, k), a[j].entries[k], k)
  }

  ghost predicate FixtureWritten(s: seq<byte>, a: Adapter, j: nat)
    requires j < |a|
  {
    && SlotOffset(j) + 4 <= |s|
    && U32At(s, SlotOffset(j)) == FixtureOffset(a, j)
    && HeaderAt(s, FixtureOffset(a, j), StringOffset(a, j), a[j], j)
    && forall k :: 0 <= k < |a[j].entries| ==> EntryWritten(s, a, j, k)
  }

  // `s` holds the description of the whole adapter.
  ghost predicate ModuleWritten(s: seq<byte>, a: Adapter)
  {
    && Total(a) <= |s|
    && U32At(s, 0) == |a|
    && forall j :: 0 <= j < |a| ==> FixtureWritten(s, a, j)
  }

  /* ---------------------------------------------------------------- frames */

  ghost predicate Same(s: seq<byte>, s': seq<byte>, lo: nat, hi: nat)
  {
    |s| == |s'| && forall i :: lo <= i < hi && i < |s| ==> s[i] == s'[i]
  }

  lemma NameFrame(s: seq<byte>, s': seq<byte>, off: nat, name: seq<uint16>)
    requires NameAt(s, off, name) && Same(s, s', off, off + 2 * |name|)
    ensures NameAt(s', off, name)
  {
    forall i | 0 <= i < |name|
      ensures CharAt(s', off, i) == name[i]
    {
      assert CharAt(s, off, i) == name[i];
    }
  }

  lemma EntryFrame(s: seq<byte>, s': seq<byte>, a: Adapter, j: nat, k: nat)
    requires j < |a| && k < |a[j].entries| && EntryWritten(s, a, j, k)
    requires Same(s, s', EntryOffset(a, j, k), EntryOffset(a, j, k + 1))
    requires Same(s, s', EntryNameOffset(a, j, k), EntryNameOffset(a, j, k + 1))
    ensures EntryWritten(s', a, j, k)
  {
    NameFrame(s, s', EntryNameOffset(a, j, k), a[j].entries[k].name);
  }

  lemma HeaderFrame(s: seq<byte>, s': seq<byte>, off: nat, str: nat, f: AdapterFixture, j: nat)
    requires HeaderAt(s, off, str, f, j)
    requires Same(s, s', off, off + FIXTURE_HEADER) && Same(s, s', str, str + 2 * |f.name|)
    ensures HeaderAt(s', off, str, f, j)
  {
    NameFrame(s, s', str, f.name);
  }

  lemma EntriesFrame(s: seq<byte>, s': seq<byte>, a: Adapter, j: nat, k: nat)
    requires j < |a| && k < |a[j].entries| && EntryWritten(s, a, j, k)
    requires Same(s, s', FixtureOffset(a, j), FixtureOffset(a, j + 1))
    requires Same(s, s', StringOffset(a, j), StringOffset(a, j + 1))
    ensures EntryWritten(s', a, j, k)
  {
    OffsetsStep(a, j);
    EntryNamesMonotone(a, j, 0, k);
    EntryNamesMonotone(a, j, k, k + 1);
    EntryFrame(s, s', a, j, k);
  }

  lemma FixtureFrame(s: seq<byte>, s': seq<byte>, a: Adapter, j: nat)
    requires j < |a| && FixtureWritten(s, a, j)
    requires Same(s, s', SlotOffset(j), SlotOffset(j + 1))
    requires Same(s, s', FixtureOffset(a, j), FixtureOffset(a, j + 1))
    requires Same(s, s', StringOffset(a, j), StringOffset(a, j + 1))
    ensures FixtureWritten(s', a, j)
  {
    OffsetsStep(a, j);
    HeaderFrame(s, s', FixtureOffset(a, j), StringOffset(a, j), a[j], j);
    forall k | 0 <= k < |a[j].entries|
      ensures EntryWritten(s', a, j, k)
    {
      EntriesFrame(s, s', a, j, k);
    }
  }
}
