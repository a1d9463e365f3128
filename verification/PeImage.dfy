/**
 Two readers of one export table (section 6.3 of the Microsoft PE/COFF specification, revision 6.0):
 cfix/cfix/pequery.c looks for fixture exports in the file, cfix/cfix/pe.c walks the loaded image.
 */
module PeImage {
  import opened Prelude
  import opened WireLayout

  // IMAGE_SECTION_HEADER
  datatype Section = Section(va: nat, virtualSize: nat, raw: nat, rawSize: nat)

  // What the headers say: the section table and the export entry of the data directory
  datatype Image = Image(win64: bool, exportRva: nat, exportSize: nat, sections: seq<Section>)

  /* ---------------------------------------------------------------- names of fixture exports */

  // The characters of a zero-terminated string
  function StringAt(s: seq<byte>, off: nat): (r: seq<byte>)
    ensures off + |r| <= |s| || r == []
    decreases |s| - off
  {
    if off >= |s| || s[off] == 0 then [] else [s[off]] + StringAt(s, off + 1)
  }

  function Ascii(s: string): (r: seq<byte>)
    requires forall i :: 0 <= i < |s| ==> s[i] < '\U{80}'
    ensures |r| == |s|
  {
    seq(|s|, i requires 0 <= i < |s| => s[i] as int)
  }

  // CfixpIsFixtureExport32 and CfixpIsFixtureExport64: the prefix, and at least one character more
  predicate IsFixtureExport(win64: bool, name: seq<byte>)
  {
    var prefix := if win64 then Ascii("__CfixFixturePe") else Ascii("___CfixFixturePe");
    |name| > |prefix| && name[..|prefix|] == prefix
  }

  const PREFIX: seq<byte> := [0x5F, 0x5F, 0x43, 0x66, 0x69, 0x78, 0x46, 0x69, 0x78, 0x74, 0x75, 0x72, 0x65, 0x50, 0x65]

  lemma PrefixBytes()
    ensures Ascii("__CfixFixturePe") == PREFIX
  {
  }

  lemma LongPrefixBytes()
    ensures Ascii("___CfixFixturePe") == [0x5F] + PREFIX
  {
  }

  // 64-bit images use the prefix __CfixFixturePe, 32-bit images put one more underscore before it.
  lemma {:induction false} ExportPrefixes(name: seq<byte>)
    ensures IsFixtureExport(true, name) <==> |name| > 15 && name[..15] == PREFIX
    ensures IsFixtureExport(false, name) <==> |name| > 16 && name[0] == 0x5F && name[1..16] == PREFIX
  {
    PrefixBytes();
    LongPrefixBytes();
    if |name| > 16 {
      assert name[..16] == [name[0]] + name[1..16];
    }
  }

  /* ---------------------------------------------------------------- the export directory */

  // IMAGE_EXPORT_DIRECTORY
  datatype Directory = Directory(base: uint32, functionCount: uint32, nameCount: uint32,
                                 functions: uint32, names: uint32, ordinals: uint32)

  const DIRECTORY_SIZE: nat := 40

  function DirectoryAt(s: seq<byte>, off: nat): Directory
    requires off + DIRECTORY_SIZE <= |s|
  {
    Directory(U32At(s, off + 16), U32At(s, off + 20), U32At(s, off + 24),
              U32At(s, off + 28), U32At(s, off + 32), U32At(s, off + 36))
  }

  // The index into the function table: Ordinal is a WORD, the difference a DWORD
  function FunctionIndex(base: uint32, ordinal: uint16): nat
  {
    ((ordinal as int + base as int % 0x1_0000) % 0x1_0000 - base as int) % TWO_32
  }

  // The index is the ordinal that the table holds, as the loader takes it, exactly if base and ordinal
  // add up to a WORD, or wrap around a DWORD.
  lemma FunctionIndexIs(base: uint32, ordinal: uint16)
    ensures FunctionIndex(base, ordinal) == ordinal <==>
              base as int + ordinal as int < 0x1_0000 || base as int + ordinal as int >= 0x1_0000_0000
  {
    var high, low := base as int / 0x1_0000, base as int % 0x1_0000;
    var carry := (ordinal as int + low) / 0x1_0000;
    assert base as int == 0x1_0000 * high + low;
    assert (ordinal as int + low) % 0x1_0000 == ordinal as int + low - 0x1_0000 * carry;
    assert FunctionIndex(base, ordinal) == (ordinal as int - 0x1_0000 * (carry + high)) % TWO_32;
    if carry + high == 0x1_0000 {
      assert (ordinal as int - TWO_32) % TWO_32 == ordinal as int;
    } else if 0 < carry + high {
      assert 0 <= ordinal as int - 0x1_0000 * (carry + high) + TWO_32 < TWO_32;
      assert FunctionIndex(base, ordinal) == ordinal as int - 0x1_0000 * (carry + high) + TWO_32;
    }
  }

  function Bytes(x: uint32): (r: seq<byte>)
    ensures |r| == 4
  {
    [x % 0x100, x / 0x100 % 0x100, x / 0x1_0000 % 0x100, x / 0x100_0000]
  }

  // A directory as the linker writes it: 16 bytes of characteristics, time stamp, versions and name,
  // then Base, NumberOfFunctions, NumberOfNames and the addresses of functions, names and ordinals
  function Linked(head: seq<byte>, d: Directory): seq<byte>
  {
    head + Bytes(d.base) + Bytes(d.functionCount) + Bytes(d.nameCount)
      + Bytes(d.functions) + Bytes(d.names) + Bytes(d.ordinals)
  }

  lemma BytesRead(x: uint32, s: seq<byte>, off: nat)
    requires off + 4 <= |s| && s[off..off + 4] == Bytes(x)
    ensures U32At(s, off) == x
  {
    var b := Bytes(x);
    assert s[off] == s[off..off + 4][0] && s[off + 1] == s[off..off + 4][1];
    assert s[off + 2] == s[off..off + 4][2] && s[off + 3] == s[off..off + 4][3];
    assert x / 0x1_0000 == 0x100 * (x / 0x100_0000) + x / 0x1_0000 % 0x100;
    assert x / 0x100 == 0x100 * (x / 0x1_0000) + x / 0x100 % 0x100;
  }

  // Such a directory is read back.
  lemma DirectoryRead(head: seq<byte>, d: Directory)
    requires |head| == 16
    ensures |Linked(head, d)| == DIRECTORY_SIZE && DirectoryAt(Linked(head, d), 0) == d
  {
    var s := Linked(head, d);
    BytesRead(d.base, s, 16);
    BytesRead(d.functionCount, s, 20);
    BytesRead(d.nameCount, s, 24);
    BytesRead(d.functions, s, 28);
    BytesRead(d.names, s, 32);
    BytesRead(d.ordinals, s, 36);
  }

  /* ---------------------------------------------------------------- addresses in the file */

  predicate Covers(s: Section, va: nat)
  {
    s.va <= va < s.va + s.virtualSize
  }

  // The position in the file of the first section from `i` on that covers the address
  function Resolve(img: Image, va: nat, i: nat): Option<nat>
    requires i <= |img.sections|
    decreases |img.sections| - i
  {
    if i == |img.sections| then None
    else if Covers(img.sections[i], va) then Some(img.sections[i].raw + (va - img.sections[i].va))
    else Resolve(img, va, i + 1)
  }

  // Section `i` is the first one that the address belongs to.
  ghost predicate FirstAt(img: Image, va: nat, k: nat, i: nat)
  {
    && k <= i < |img.sections|
    && img.sections[i].va <= va < img.sections[i].va + img.sections[i].virtualSize
    && forall j :: k <= j < i ==>
         va < img.sections[j].va || img.sections[j].va + img.sections[j].virtualSize <= va
  }

  lemma {:induction false} ResolveIff(img: Image, va: nat, k: nat)
    requires k <= |img.sections|
    ensures forall i: nat :: FirstAt(img, va, k, i) ==>
              Resolve(img, va, k) == Some(img.sections[i].raw + (va - img.sections[i].va))
    ensures Resolve(img, va, k).Some? ==> exists i: nat :: FirstAt(img, va, k, i)
    decreases |img.sections| - k
  {
    if k < |img.sections| && !Covers(img.sections[k], va) {
      ResolveIff(img, va, k + 1);
      if Resolve(img, va, k).Some? {
        var k' := k + 1;
        var i: nat :| FirstAt(img, va, k', i);
        assert FirstAt(img, va, k, i);
      }
      forall i: nat | FirstAt(img, va, k, i)
        ensures FirstAt(img, va, k + 1, i)
      {
      }
    } else if k < |img.sections| {
      assert FirstAt(img, va, k, k);
    }
  }

  // CfixPtrFromVaNonRelocated
  method PtrFromVa(img: Image, va: nat) returns (off: Option<nat>)
    ensures off == Resolve(img, va, 0)
  {
    var index := 0;
    while index < |img.sections|
      invariant 0 <= index <= |img.sections| && Resolve(img, va, 0) == Resolve(img, va, index)
    {
      var section := img.sections[index];
      if section.va <= va && va < section.va + section.virtualSize {
        var rvaWithinSection := va - section.va;
        return Some(section.raw + rvaWithinSection);
      }
      index := index + 1;
    }
    return None;
  }

  // The bytes of a section that come from the file
  function Stored(s: Section): nat
  {
    if s.rawSize < s.virtualSize then s.rawSize else s.virtualSize
  }

  predicate SameByte(file: seq<byte>, off: nat, mem: seq<byte>, va: nat, k: nat)
  {
    off + k < |file| && va + k < |mem| && file[off + k] == mem[va + k]
  }

  ghost predicate SameBytes(file: seq<byte>, off: nat, mem: seq<byte>, va: nat, n: nat)
  {
    && off + n <= |file| && va + n <= |mem|
    && forall k :: 0 <= k < n ==> SameByte(file, off, mem, va, k)
  }

  // `mem` is the image that the loader makes of `file`.
  ghost predicate Loaded(img: Image, file: seq<byte>, mem: seq<byte>)
  {
    && (forall i :: 0 <= i < |img.sections| ==>
          SameBytes(file, img.sections[i].raw, mem, img.sections[i].va, Stored(img.sections[i])))
    && (forall i, j, va :: 0 <= i < j < |img.sections| ==>
          !(Covers(img.sections[i], va) && Covers(img.sections[j], va)))
  }

  ghost predicate StoredIn(s: Section, va: nat, n: nat)
  {
    s.va <= va && va + n <= s.va + Stored(s)
  }

  // `n` bytes at this address come from the file.
  ghost predicate FromFile(img: Image, va: nat, n: nat)
  {
    exists i :: 0 <= i < |img.sections| && StoredIn(img.sections[i], va, n)
  }

  lemma {:induction false} ResolveIs(img: Image, file: seq<byte>, mem: seq<byte>, va: nat, i: nat, j: nat)
    requires Loaded(img, file, mem) && i <= j < |img.sections| && Covers(img.sections[j], va)
    ensures Resolve(img, va, i) == Some(img.sections[j].raw + (va - img.sections[j].va))
    decreases j - i
  {
    if i < j {
      assert !Covers(img.sections[i], va);
      ResolveIs(img, file, mem, va, i + 1, j);
    }
  }

  // What comes from the file is found there.
  lemma ResolveReads(img: Image, file: seq<byte>, mem: seq<byte>, va: nat, n: nat)
    requires Loaded(img, file, mem) && n > 0 && FromFile(img, va, n)
    ensures Resolve(img, va, 0).Some? && SameBytes(file, Resolve(img, va, 0).value, mem, va, n)
  {
    var j :| 0 <= j < |img.sections| && StoredIn(img.sections[j], va, n);
    var s := img.sections[j];
    ResolveIs(img, file, mem, va, 0, j);
    var off := s.raw + (va - s.va);
    forall k | 0 <= k < n
      ensures SameByte(file, off, mem, va, k)
    {
      assert SameByte(file, s.raw, mem, s.va, va - s.va + k);
    }
  }

  lemma SameU32(file: seq<byte>, off: nat, mem: seq<byte>, va: nat, n: nat, k: nat)
    requires SameBytes(file, off, mem, va, n) && k + 4 <= n
    ensures U32At(file, off + k) == U32At(mem, va + k)
  {
    assert SameByte(file, off, mem, va, k) && SameByte(file, off, mem, va, k + 1);
    assert SameByte(file, off, mem, va, k + 2) && SameByte(file, off, mem, va, k + 3);
  }

  lemma SameDirectory(file: seq<byte>, off: nat, mem: seq<byte>, va: nat)
    requires SameBytes(file, off, mem, va, DIRECTORY_SIZE)
    ensures DirectoryAt(file, off) == DirectoryAt(mem, va)
  {
    SameU32(file, off, mem, va, DIRECTORY_SIZE, 16);
    SameU32(file, off, mem, va, DIRECTORY_SIZE, 20);
    SameU32(file, off, mem, va, DIRECTORY_SIZE, 24);
    SameU32(file, off, mem, va, DIRECTORY_SIZE, 28);
    SameU32(file, off, mem, va, DIRECTORY_SIZE, 32);
    SameU32(file, off, mem, va, DIRECTORY_SIZE, 36);
  }

  lemma {:induction false} SameString(file: seq<byte>, off: nat, mem: seq<byte>, va: nat)
    requires SameBytes(file, off, mem, va, |StringAt(mem, va)| + 1)
    ensures StringAt(file, off) == StringAt(mem, va)
    decreases |mem| - va
  {
    assert SameByte(file, off, mem, va, 0);
    if mem[va] != 0 {
      var off', va' := off + 1, va + 1;
      forall k | 0 <= k < |StringAt(mem, va')| + 1
        ensures SameByte(file, off', mem, va', k)
      {
        assert SameByte(file, off, mem, va, k + 1);
      }
      SameString(file, off + 1, mem, va + 1);
    }
  }

  /* ---------------------------------------------------------------- the two readers */

  // The export table as the loaded image has it, for the name with index `i`
  function NameRva(mem: seq<byte>, d: Directory, i: nat): uint32
    requires d.names + 4 * i + 4 <= |mem|
  {
    U32At(mem, d.names + 4 * i)
  }

  function FunctionRva(mem: seq<byte>, d: Directory, i: nat): uint32
    requires d.ordinals + 2 * i + 2 <= |mem|
    requires d.functions + 4 * FunctionIndex(d.base, U16At(mem, d.ordinals + 2 * i)) + 4 <= |mem|
  {
    U32At(mem, d.functions + 4 * FunctionIndex(d.base, U16At(mem, d.ordinals + 2 * i)))
  }

  // The entries of export `i` can be read in the loaded image.
  ghost predicate Readable(mem: seq<byte>, d: Directory, i: nat)
  {
    && d.names + 4 * i + 4 <= |mem|
    && d.ordinals + 2 * i + 2 <= |mem|
    && d.functions + 4 * FunctionIndex(d.base, U16At(mem, d.ordinals + 2 * i)) + 4 <= |mem|
  }

  // The directory, its tables and all names come from the file.
  ghost predicate ExportsFromFile(img: Image, mem: seq<byte>)
  {
    && img.exportRva + DIRECTORY_SIZE <= |mem| && FromFile(img, img.exportRva, DIRECTORY_SIZE)
    && var d := DirectoryAt(mem, img.exportRva);
    && (d.nameCount > 0 ==> FromFile(img, d.names, 4 * d.nameCount))
    && (d.functionCount > 0 && d.nameCount > 0 ==> FromFile(img, d.functions, 4 * d.functionCount))
    && forall i :: 0 <= i < d.nameCount ==> Readable(mem, d, i) && NameFromFile(img, mem, NameRva(mem, d, i))
  }

  ghost predicate NameFromFile(img: Image, mem: seq<byte>, va: nat)
  {
    FromFile(img, va, |StringAt(mem, va)| + 1)
  }

  // Export `i` bears the prefix of a fixture.
  ghost predicate Matches(img: Image, mem: seq<byte>, d: Directory, i: nat)
    requires Readable(mem, d, i)
  {
    IsFixtureExport(img.win64, StringAt(mem, NameRva(mem, d, i)))
  }

  predicate InExportSection(img: Image, rva: nat)
  {
    img.exportRva <= rva < img.exportRva + img.exportSize
  }

  ghost predicate Forwarder(img: Image, mem: seq<byte>, d: Directory, i: nat)
    requires Readable(mem, d, i)
  {
    InExportSection(img, FunctionRva(mem, d, i))
  }

  lemma NameInFile(img: Image, file: seq<byte>, mem: seq<byte>, namesOff: nat, d: Directory, i: nat)
    requires Loaded(img, file, mem) && i < d.nameCount
    requires SameBytes(file, namesOff, mem, d.names, 4 * d.nameCount)
    requires Readable(mem, d, i) && NameFromFile(img, mem, NameRva(mem, d, i))
    ensures namesOff + 4 * i + 4 <= |file| && U32At(file, namesOff + 4 * i) == NameRva(mem, d, i)
    ensures Resolve(img, NameRva(mem, d, i), 0).Some?
    ensures StringAt(file, Resolve(img, NameRva(mem, d, i), 0).value) == StringAt(mem, NameRva(mem, d, i))
  {
    SameU32(file, namesOff, mem, d.names, 4 * d.nameCount, 4 * i);
    var va := NameRva(mem, d, i);
    ResolveReads(img, file, mem, va, |StringAt(mem, va)| + 1);
    SameString(file, Resolve(img, va, 0).value, mem, va);
  }

  // All names can be looked up.
  ghost predicate AllReadable(mem: seq<byte>, d: Directory, n: nat)
  {
    forall i :: 0 <= i < n ==> Readable(mem, d, i)
  }

  // CFIX_MODULE_INFO.FixtureExportsPresent: some exported name bears the prefix.
  ghost predicate FixtureExportsPresent(img: Image, mem: seq<byte>, d: Directory)
    requires AllReadable(mem, d, d.nameCount)
  {
    d.functionCount > 0 && exists i :: 0 <= i < d.nameCount && Matches(img, mem, d, i)
  }

  // The exports among the first `n` names that become fixtures
  ghost function FixtureExports(img: Image, mem: seq<byte>, d: Directory, n: nat): seq<nat>
    requires AllReadable(mem, d, n)
  {
    if n == 0 then []
    else if Matches(img, mem, d, n - 1) && !Forwarder(img, mem, d, n - 1) then
      FixtureExports(img, mem, d, n - 1) + [n - 1]
    else FixtureExports(img, mem, d, n - 1)
  }

  lemma {:induction false} FixtureExportsAre(img: Image, mem: seq<byte>, d: Directory, n: nat, i: nat)
    requires AllReadable(mem, d, n)
    ensures i in FixtureExports(img, mem, d, n) <==> i < n && Matches(img, mem, d, i) && !Forwarder(img, mem, d, i)
  {
    if n > 0 {
      FixtureExportsAre(img, mem, d, n - 1, i);
    }
  }

  lemma FunctionAtOrdinal(mem: seq<byte>, d: Directory, i: nat)
    requires Readable(mem, d, i) && d.base as int + U16At(mem, d.ordinals + 2 * i) as int < 0x1_0000
    ensures var ordinal := U16At(mem, d.ordinals + 2 * i);
      d.functions + 4 * ordinal + 4 <= |mem| && FunctionRva(mem, d, i) == U32At(mem, d.functions + 4 * ordinal)
  {
    FunctionIndexIs(d.base, U16At(mem, d.ordinals + 2 * i));
  }

  // In terms of the tables: the name has the prefix, and the function at its ordinal does not lie in the
  // export directory itself.
  lemma WalkedIff(img: Image, mem: seq<byte>, d: Directory, i: nat, rva: uint32)
    requires AllReadable(mem, d, d.nameCount) && i < d.nameCount && Readable(mem, d, i)
    requires d.base as int + U16At(mem, d.ordinals + 2 * i) as int < 0x1_0000
    requires d.functions + 4 * U16At(mem, d.ordinals + 2 * i) as int + 4 <= |mem|
    requires rva == U32At(mem, d.functions + 4 * U16At(mem, d.ordinals + 2 * i) as int)
    ensures i in FixtureExports(img, mem, d, d.nameCount) <==>
              && IsFixtureExport(img.win64, StringAt(mem, U32At(mem, d.names + 4 * i)))
              && !(img.exportRva <= rva && rva < img.exportRva + img.exportSize)
  {
    FunctionAtOrdinal(mem, d, i);
    FixtureExportsAre(img, mem, d, d.nameCount, i);
  }

  ghost predicate Increasing(s: seq<nat>, n: nat)
  {
    (forall k :: 0 <= k < |s| ==> s[k] < n) && (forall k, l :: 0 <= k < l < |s| ==> s[k] < s[l])
  }

  lemma IncreasingOne(s: seq<nat>, n: nat)
    requires Increasing(s, n)
    ensures Increasing(s, n + 1) && Increasing(s + [n], n + 1)
  {
  }

  // The walk takes the names in the order of the table, each once.
  lemma {:induction false} FixtureExportsOrdered(img: Image, mem: seq<byte>, d: Directory, n: nat)
    requires AllReadable(mem, d, n)
    ensures Increasing(FixtureExports(img, mem, d, n), n)
  {
    if n > 0 {
      FixtureExportsOrdered(img, mem, d, n - 1);
      IncreasingOne(FixtureExports(img, mem, d, n - 1), n - 1);
    }
  }

  // What the walk of the loaded image finds
  ghost function WalkedExports(img: Image, mem: seq<byte>, d: Directory): seq<nat>
    requires AllReadable(mem, d, d.nameCount)
  {
    if d.functionCount > 0 then FixtureExports(img, mem, d, d.nameCount) else []
  }

  // A forwarder bears the prefix of a fixture.
  ghost predicate MatchingForwarder(img: Image, mem: seq<byte>, d: Directory)
    requires AllReadable(mem, d, d.nameCount)
  {
    && d.functionCount > 0
    && exists i :: 0 <= i < d.nameCount && Matches(img, mem, d, i) && Forwarder(img, mem, d, i)
  }

  // The file scan finds fixture exports exactly if the walk of the loaded image finds one or a
  // matching export is a forwarder.
  lemma QueryAgreesWithWalk(img: Image, mem: seq<byte>, d: Directory)
    requires AllReadable(mem, d, d.nameCount)
    ensures FixtureExportsPresent(img, mem, d) <==> WalkedExports(img, mem, d) != [] || MatchingForwarder(img, mem, d)
  {
    var fixtures := FixtureExports(img, mem, d, d.nameCount);
    if fixtures != [] {
      assert fixtures[0] in fixtures;
      FixtureExportsAre(img, mem, d, d.nameCount, fixtures[0]);
    }
    if i :| 0 <= i < d.nameCount && Matches(img, mem, d, i) {
      FixtureExportsAre(img, mem, d, d.nameCount, i);
    }
  }

  // The loop over the names in CfixsQueryPeImage
  method ScanNames(img: Image, file: seq<byte>, ghost mem: seq<byte>, namesOff: nat, d: Directory) returns (found: bool)
    requires Loaded(img, file, mem) && AllReadable(mem, d, d.nameCount)
    requires d.nameCount > 0 ==> SameBytes(file, namesOff, mem, d.names, 4 * d.nameCount)
    requires forall i :: 0 <= i < d.nameCount ==> Readable(mem, d, i) && NameFromFile(img, mem, NameRva(mem, d, i))
    ensures found <==> exists i :: 0 <= i < d.nameCount && Matches(img, mem, d, i)
  {
    var index := 0;
    while index < d.nameCount
      invariant 0 <= index <= d.nameCount
      invariant forall i :: 0 <= i < index ==> !Matches(img, mem, d, i)
    {
      NameInFile(img, file, mem, namesOff, d, index);
      var nameOff := PtrFromVa(img, U32At(file, namesOff + 4 * index));
      if nameOff.Some? && IsFixtureExport(img.win64, StringAt(file, nameOff.value)) {
        assert Matches(img, mem, d, index);
        return true;
      }
      index := index + 1;
    }
    return false;
  }

  // CfixsQueryPeImage reads the file only; `mem` is the image as it would be loaded.
  method QueryExports(img: Image, file: seq<byte>, ghost mem: seq<byte>) returns (found: bool)
    requires Loaded(img, file, mem) && ExportsFromFile(img, mem)
    ensures var d := DirectoryAt(mem, img.exportRva);
      found <==> FixtureExportsPresent(img, mem, d)
  {
    ResolveReads(img, file, mem, img.exportRva, DIRECTORY_SIZE);
    var dirOff := PtrFromVa(img, img.exportRva);
    SameDirectory(file, dirOff.value, mem, img.exportRva);
    var d := DirectoryAt(file, dirOff.value);
    if d.nameCount > 0 {
      ResolveReads(img, file, mem, d.names, 4 * d.nameCount);
      if d.functionCount > 0 {
        ResolveReads(img, file, mem, d.functions, 4 * d.functionCount);
      }
    }
    var namesOff := PtrFromVa(img, d.names);
    var functionsOff := PtrFromVa(img, d.functions);
    if namesOff.None? || functionsOff.None? || d.functionCount == 0 {
      return false;
    }
    found := ScanNames(img, file, mem, namesOff.value, d);
  }

  // The walk of CfixsLoadFixturesFromPeImage: the exports that become fixtures, in order
  method WalkExports(img: Image, mem: seq<byte>) returns (fixtures: seq<nat>)
    requires img.exportRva + DIRECTORY_SIZE <= |mem|
    requires AllReadable(mem, DirectoryAt(mem, img.exportRva), DirectoryAt(mem, img.exportRva).nameCount)
    ensures var d := DirectoryAt(mem, img.exportRva);
      fixtures == WalkedExports(img, mem, d)
  {
    var d := DirectoryAt(mem, img.exportRva);
    fixtures := [];
    if d.functionCount > 0 {
      var index := 0;
      while index < d.nameCount
        invariant 0 <= index <= d.nameCount && fixtures == FixtureExports(img, mem, d, index)
      {
        assert Readable(mem, d, index);
        var name := StringAt(mem, NameRva(mem, d, index));
        var funcRva := FunctionRva(mem, d, index);
        if img.exportRva <= funcRva && funcRva < img.exportRva + img.exportSize {
          // a forwarder
        } else if IsFixtureExport(img.win64, name) {
          fixtures := fixtures + [index];
        }
        index := index + 1;
      }
    }
  }
}
