/** cfixkern/cfixkl/module.c: rebuilds fixtures from the response of the reflector. */
module WireReader {
  import opened Prelude
  import opened WireLayout

  datatype Hr =
    | DupSetup | DupTeardown | DupBefore | DupAfter
    | InvalidReflectorResponse
    | InsufficientBuffer

  // CFIX_ENTRY_TYPE
  const SETUP: nat := 1
  const TEARDOWN: nat := 2
  const TESTCASE: nat := 3
  const BEFORE: nat := 4
  const AFTER: nat := 5

  // CFIXKLP_ROUTINE_PRESENT, or-ed to a 16-bit routine key
  const ROUTINE_PRESENT: nat := 0x8000_0000

  // sizeof( CFIX_FIXTURE.Name ) less the terminator
  const MAX_FIXTURE_NAME_CB: nat := 254

  datatype TestCase = TestCase(name: seq<uint16>, routine: nat)

  // CFIX_FIXTURE; the four tags are 0 or a routine key with the presence bit
  datatype Fixture = Fixture(key: nat, name: seq<uint16>, tests: seq<TestCase>,
                             setup: nat, teardown: nat, before: nat, after: nat)

  predicate Present(tag: nat) { tag / ROUTINE_PRESENT % 2 == 1 }

  // ( USHORT )( tag & ~CFIXKLP_ROUTINE_PRESENT )
  function RoutineKey(tag: nat): nat { tag % 0x1_0000 }

  function Tag(key: nat): nat { key + ROUTINE_PRESENT }

  // The presence bit is bit 31, and the key is in the low 16 bits.
  lemma TagBits(tag: uint32, key: uint16)
    ensures Present(tag) <==> tag >= 0x8000_0000
    ensures Tag(key) == 0x8000_0000 + key && Present(Tag(key)) && RoutineKey(Tag(key)) == key
    ensures !Present(0)
  {
  }

  // The C string that starts a character array
  function UntilNul(s: seq<uint16>): (r: seq<uint16>)
    ensures |r| <= |s| && r == s[..|r|] && 0 !in r
    ensures |r| == |s| || s[|r|] == 0
  {
    if s == [] || s[0] == 0 then [] else [s[0]] + UntilNul(s[1..])
  }

  /* ---------------------------------------------------------------- what one entry means */

  // The effect of one entry on the fixture built so far
  function AddEntry(fx: Fixture, kind: nat, key: nat, name: seq<uint16>): Result<Fixture, Hr>
  {
    if kind == TESTCASE then Ok(fx.(tests := fx.tests + [TestCase(UntilNul(name), key)]))
    else if kind == SETUP then
      if Present(fx.setup) then Err(DupSetup) else Ok(fx.(setup := Tag(key)))
    else if kind == TEARDOWN then
      if Present(fx.teardown) then Err(DupTeardown) else Ok(fx.(teardown := Tag(key)))
    else if kind == BEFORE then
      if Present(fx.before) then Err(DupBefore) else Ok(fx.(before := Tag(key)))
    else if kind == AFTER then
      if Present(fx.after) then Err(DupAfter) else Ok(fx.(after := Tag(key)))
    else Err(InvalidReflectorResponse)
  }

  function Empty(key: nat, name: seq<uint16>): Fixture
  {
    Fixture(key, UntilNul(name), [], 0, 0, 0, 0)
  }

  /* ---------------------------------------------------------------- decoding bytes */

  function NameOf(s: seq<byte>, off: nat, n: nat): (r: seq<uint16>)
    requires off + 2 * n <= |s|
    ensures |r| == n && forall i :: 0 <= i < n ==> r[i] == CharAt(s, off, i)
  {
    seq(n, i requires 0 <= i < n => CharAt(s, off, i))
  }

  function EntryCount(s: seq<byte>, off: nat): nat
    requires off + FIXTURE_HEADER <= |s|
  {
    U32At(s, off + 12)
  }

  function EntryPos(off: nat, k: nat): nat
  {
    off + FIXTURE_HEADER + ENTRY_SIZE * k
  }

  // The entry record and the name it refers to lie in the buffer.
  predicate EntryReadable(s: seq<byte>, off: nat, k: nat)
  {
    && EntryPos(off, k) + ENTRY_SIZE <= |s|
    && U32At(s, EntryPos(off, k) + 4) + U32At(s, EntryPos(off, k) + 8) <= |s|
  }

  predicate FixtureReadable(s: seq<byte>, off: nat)
  {
    && off + FIXTURE_HEADER <= |s|
    && U32At(s, off + 4) + U32At(s, off + 8) <= |s|
    && forall k :: 0 <= k < EntryCount(s, off) ==> EntryReadable(s, off, k)
  }

  function KindAt(s: seq<byte>, off: nat, k: nat): uint16
    requires EntryReadable(s, off, k)
  {
    U16At(s, EntryPos(off, k))
  }

  function KeyAt(s: seq<byte>, off: nat, k: nat): uint16
    requires EntryReadable(s, off, k)
  {
    U16At(s, EntryPos(off, k) + 2)
  }

  function EntryNameLength(s: seq<byte>, off: nat, k: nat): nat
    requires EntryReadable(s, off, k)
  {
    U32At(s, EntryPos(off, k) + 8) / 2
  }

  function EntryName(s: seq<byte>, off: nat, k: nat): seq<uint16>
    requires EntryReadable(s, off, k)
  {
    NameOf(s, U32At(s, EntryPos(off, k) + 4), EntryNameLength(s, off, k))
  }

  // The fixture after the first `n` entries
  function DecodeEntries(s: seq<byte>, off: nat, n: nat): Result<Fixture, Hr>
    requires FixtureReadable(s, off) && n <= EntryCount(s, off)
  {
    if n == 0 then Ok(Empty(U16At(s, off), NameOf(s, U32At(s, off + 4), U32At(s, off + 8) / 2)))
    else
      match DecodeEntries(s, off, n - 1)
      case Err(e) => Err(e)
      case Ok(fx) => AddEntry(fx, KindAt(s, off, n - 1), KeyAt(s, off, n - 1), EntryName(s, off, n - 1))
  }

  function Decode(s: seq<byte>, off: nat): Result<Fixture, Hr>
    requires FixtureReadable(s, off)
  {
    if U32At(s, off + 8) > MAX_FIXTURE_NAME_CB then Err(InsufficientBuffer)
    else DecodeEntries(s, off, EntryCount(s, off))
  }

  /* ---------------------------------------------------------------- CfixklsCreateFixture */

  // The C string `z` is stored at `off`, terminator included, before `limit`.
  ghost predicate Holds(chars: seq<uint16>, off: nat, z: seq<uint16>, limit: nat)
  {
    off + |z| < limit <= |chars| && chars[off..off + |z|] == z && chars[off + |z|] == 0 && 0 !in z
  }

  lemma {:induction false} UntilNulOf(s: seq<uint16>, z: seq<uint16>)
    requires |z| < |s| && s[..|z|] == z && s[|z|] == 0 && 0 !in z
    ensures UntilNul(s) == z
  {
    if z != [] {
      assert s[0] == z[0];
      UntilNulOf(s[1..], z[1..]);
    }
  }

  lemma HoldsRead(chars: seq<uint16>, off: nat, z: seq<uint16>, limit: nat)
    requires Holds(chars, off, z, limit)
    ensures UntilNul(chars[off..]) == z
  {
    assert chars[off..][..|z|] == z;
    UntilNulOf(chars[off..], z);
  }

  lemma HoldsKept(chars: seq<uint16>, chars': seq<uint16>, off: nat, z: seq<uint16>, limit: nat, limit': nat)
    requires Holds(chars, off, z, limit) && limit <= limit' <= |chars'| && chars'[..limit] == chars[..limit]
    ensures Holds(chars', off, z, limit')
  {
    assert chars'[off..off + |z|] == chars'[..limit][off..off + |z|] == chars[off..off + |z|];
    assert chars'[off + |z|] == chars'[..limit][off + |z|] == chars[..limit][off + |z|];
  }

  lemma HoldsNew(chars: seq<uint16>, off: nat, raw: seq<uint16>, z: seq<uint16>)
    requires off + |raw| < |chars| && chars[off..off + |raw|] == raw && chars[off + |raw|] == 0
    requires |z| <= |raw| && z == raw[..|z|] && 0 !in z && (|z| == |raw| || raw[|z|] == 0)
    ensures Holds(chars, off, z, off + |raw| + 1)
  {
    forall i | 0 <= i < |raw|
      ensures chars[off + i] == raw[i]
    {
      assert chars[off..off + |raw|][i] == raw[i];
    }
    assert chars[off..off + |z|] == z;
  }

  // CopyMemory of a name and its terminator
  method StoreString(chars: array<uint16>, off: nat, raw: seq<uint16>)
    requires off + |raw| < chars.Length
    modifies chars
    ensures chars[..off] == old(chars[..off])
    ensures chars[off..off + |raw|] == raw && chars[off + |raw|] == 0
  {
    var i := 0;
    while i < |raw|
      invariant 0 <= i <= |raw|
      invariant chars[..off] == old(chars[..off])
      invariant chars[off..off + i] == raw[..i]
    {
      chars[off + i] := raw[i];
      i := i + 1;
    }
    chars[off + |raw|] := 0;
  }

  datatype TestSlot = TestSlot(nameOffset: nat, routine: nat)

  // The allocated CFIX_FIXTURE: test cases that point into the strings stored behind them
  class FixtureRecord {
    var key: nat
    var name: seq<uint16>
    var tests: array<TestSlot>
    var strings: array<uint16>
    var setup: nat
    var teardown: nat
    var before: nat
    var after: nat

    constructor (key: nat, name: seq<uint16>, testCount: nat, stringChars: nat)
      ensures this.key == key && this.name == name
      ensures setup == 0 && teardown == 0 && before == 0 && after == 0
      ensures fresh(tests) && tests.Length == testCount && fresh(strings) && strings.Length == stringChars
    {
      this.key := key;
      this.name := name;
      tests := new TestSlot[testCount](_ => TestSlot(0, 0));
      strings := new uint16[stringChars](_ => 0);
      setup, teardown, before, after := 0, 0, 0, 0;
    }

    // The first `n` test cases stand for `ts`, their names ending before `limit`.
    ghost predicate Represents(ts: seq<TestCase>, limit: nat)
      reads this, tests, strings
    {
      && |ts| <= tests.Length && limit <= strings.Length
      && forall t :: 0 <= t < |ts| ==> Slot(t, ts[t], limit)
    }

    ghost predicate Slot(t: nat, tc: TestCase, limit: nat)
      reads this, tests, strings
      requires t < tests.Length && limit <= strings.Length
    {
      tests[t].routine == tc.routine && Holds(strings[..], tests[t].nameOffset, tc.name, limit)
    }

    ghost predicate Tags(fx: Fixture)
      reads this
    {
      && key == fx.key && name == fx.name
      && setup == fx.setup && teardown == fx.teardown && before == fx.before && after == fx.after
    }

    // What a user of the fixture sees
    ghost predicate Shows(fx: Fixture)
      reads this, tests, strings
    {
      && Tags(fx)
      && |fx.tests| == tests.Length
      && forall t :: 0 <= t < tests.Length ==>
           && tests[t].nameOffset <= strings.Length
           && fx.tests[t] == TestCase(UntilNul(strings[tests[t].nameOffset..]), tests[t].routine)
    }

    // Adds test case `t` with a copy of its name; `cursor` is CurrentStringOffset.
    method StoreTest(t: nat, routine: nat, raw: seq<uint16>, cursor: nat, ghost ts: seq<TestCase>)
      requires t < tests.Length && cursor + |raw| + 1 <= strings.Length && |ts| == t
      requires Represents(ts, cursor)
      modifies tests, strings
      ensures Represents(ts + [TestCase(UntilNul(raw), routine)], cursor + |raw| + 1)
    {
      ghost var oldChars := strings[..];
      ghost var oldTests := tests[..];
      StoreString(strings, cursor, raw);
      tests[t] := TestSlot(cursor, routine);
      HoldsNew(strings[..], cursor, raw, UntilNul(raw));
      forall u | 0 <= u < t
        ensures Slot(u, ts[u], cursor + |raw| + 1)
      {
        assert oldTests[u] == tests[u] && old(Slot(u, ts[u], cursor));
        HoldsKept(oldChars, strings[..], tests[u].nameOffset, ts[u].name, cursor, cursor + |raw| + 1);
      }
    }
  }

  // The number of test cases among the first `n` entries
  function TestCount(s: seq<byte>, off: nat, n: nat): nat
    requires FixtureReadable(s, off) && n <= EntryCount(s, off)
  {
    if n == 0 then 0 else TestCount(s, off, n - 1) + (if KindAt(s, off, n - 1) == TESTCASE then 1 else 0)
  }

  // The characters their names take, terminators included
  function CharCount(s: seq<byte>, off: nat, n: nat): nat
    requires FixtureReadable(s, off) && n <= EntryCount(s, off)
  {
    if n == 0 then 0
    else CharCount(s, off, n - 1) +
         (if KindAt(s, off, n - 1) == TESTCASE then EntryNameLength(s, off, n - 1) + 1 else 0)
  }

  lemma {:induction false} CountsMonotone(s: seq<byte>, off: nat, m: nat, n: nat)
    requires FixtureReadable(s, off) && m <= n <= EntryCount(s, off)
    ensures TestCount(s, off, m) <= TestCount(s, off, n) && CharCount(s, off, m) <= CharCount(s, off, n)
  {
    if m < n {
      CountsMonotone(s, off, m, n - 1);
    }
  }

  lemma {:induction false} DecodedTests(s: seq<byte>, off: nat, n: nat)
    requires FixtureReadable(s, off) && n <= EntryCount(s, off) && DecodeEntries(s, off, n).Ok?
    ensures |DecodeEntries(s, off, n).value.tests| == TestCount(s, off, n)
  {
    if n > 0 {
      DecodedTests(s, off, n - 1);
    }
  }

  // An error in the first entries is final.
  lemma {:induction false} ErrorIsFinal(s: seq<byte>, off: nat, m: nat, n: nat)
    requires FixtureReadable(s, off) && m <= n <= EntryCount(s, off) && DecodeEntries(s, off, m).Err?
    ensures DecodeEntries(s, off, n) == DecodeEntries(s, off, m)
  {
    if m < n {
      ErrorIsFinal(s, off, m, n - 1);
    }
  }

  // The first loop of CfixklsCreateFixture
  method CountTests(s: seq<byte>, off: nat) returns (tests: nat, chars: nat)
    requires FixtureReadable(s, off)
    ensures tests == TestCount(s, off, EntryCount(s, off)) && chars == CharCount(s, off, EntryCount(s, off))
  {
    tests, chars := 0, 0;
    for k := 0 to EntryCount(s, off)
      invariant tests == TestCount(s, off, k) && chars == CharCount(s, off, k)
    {
      if KindAt(s, off, k) == TESTCASE {
        tests := tests + 1;
        chars := chars + EntryNameLength(s, off, k) + 1;
      }
    }
  }

  // The switch of CfixklsCreateFixture for the routines that may occur once
  method StoreRoutine(rec: FixtureRecord, kind: nat, key: nat, name: seq<uint16>, ghost fx: Fixture)
    returns (error: Option<Hr>)
    requires kind != TESTCASE && rec.Tags(fx)
    modifies rec`setup, rec`teardown, rec`before, rec`after
    ensures match AddEntry(fx, kind, key, name)
            case Err(e) => error == Some(e)
            case Ok(fx') => error == None && rec.Tags(fx') && fx'.tests == fx.tests
  {
    error := None;
    if kind == SETUP {
      if Present(rec.setup) { error := Some(DupSetup); } else { rec.setup := Tag(key); }
    } else if kind == TEARDOWN {
      if Present(rec.teardown) { error := Some(DupTeardown); } else { rec.teardown := Tag(key); }
    } else if kind == BEFORE {
      if Present(rec.before) { error := Some(DupBefore); } else { rec.before := Tag(key); }
    } else if kind == AFTER {
      if Present(rec.after) { error := Some(DupAfter); } else { rec.after := Tag(key); }
    } else {
      error := Some(InvalidReflectorResponse);
    }
  }

  // `rec` stands for the fixture `fx` after `k` entries; `t` and `cursor` are the two running indices.
  ghost predicate Building(rec: FixtureRecord, s: seq<byte>, off: nat, k: nat, fx: Fixture, t: nat, cursor: nat)
    requires FixtureReadable(s, off) && k <= EntryCount(s, off)
    reads rec, rec.tests, rec.strings
  {
    && DecodeEntries(s, off, k) == Ok(fx)
    && t == TestCount(s, off, k) == |fx.tests| && cursor == CharCount(s, off, k)
    && rec.tests.Length == TestCount(s, off, EntryCount(s, off))
    && rec.strings.Length == CharCount(s, off, EntryCount(s, off))
    && rec.Tags(fx) && rec.Represents(fx.tests, cursor)
  }

  // One round of the second loop of CfixklsCreateFixture
  method StoreEntry(rec: FixtureRecord, s: seq<byte>, off: nat, k: nat, t: nat, cursor: nat, ghost fx: Fixture)
    returns (error: Option<Hr>, t': nat, cursor': nat, ghost fx': Fixture)
    requires FixtureReadable(s, off) && k < EntryCount(s, off)
    requires Building(rec, s, off, k, fx, t, cursor)
    modifies rec`setup, rec`teardown, rec`before, rec`after, rec.tests, rec.strings
    ensures error.Some? ==> DecodeEntries(s, off, k + 1) == Err(error.value)
    ensures error.None? ==> Building(rec, s, off, k + 1, fx', t', cursor')
  {
    error, t', cursor', fx' := None, t, cursor, fx;
    var kind, key, entryName := KindAt(s, off, k), KeyAt(s, off, k), EntryName(s, off, k);
    CountsMonotone(s, off, k + 1, EntryCount(s, off));
    if kind == TESTCASE {
      rec.StoreTest(t, key, entryName, cursor, fx.tests);
      fx' := fx.(tests := fx.tests + [TestCase(UntilNul(entryName), key)]);
      t' := t + 1;
      cursor' := cursor + |entryName| + 1;
    } else {
      error := StoreRoutine(rec, kind, key, entryName, fx);
      if error.None? {
        fx' := AddEntry(fx, kind, key, entryName).value;
      }
    }
  }

  // CfixklsCreateFixture
  method CreateFixture(s: seq<byte>, off: nat) returns (result: Result<FixtureRecord, Hr>)
    requires FixtureReadable(s, off)
    ensures match Decode(s, off)
            case Err(e) => result == Err(e)
            case Ok(fx) => result.Ok? && fresh(result.value) && result.value.Shows(fx)
  {
    var testCount, stringChars := CountTests(s, off);
    if U32At(s, off + 8) > MAX_FIXTURE_NAME_CB {
      return Err(InsufficientBuffer);
    }
    var name := NameOf(s, U32At(s, off + 4), U32At(s, off + 8) / 2);
    var rec := new FixtureRecord(U16At(s, off), UntilNul(name), testCount, stringChars);
    var count := EntryCount(s, off);
    var t, cursor, k := 0, 0, 0;
    ghost var fx := Empty(U16At(s, off), name);
    while k < count
      invariant 0 <= k <= count
      invariant fresh(rec) && fresh(rec.tests) && fresh(rec.strings)
      invariant Building(rec, s, off, k, fx, t, cursor)
    {
      var error;
      error, t, cursor, fx := StoreEntry(rec, s, off, k, t, cursor, fx);
      if error.Some? {
        ErrorIsFinal(s, off, k + 1, count);
        return Err(error.value);
      }
      k := k + 1;
    }
    // the two assertions after the loop of the C code
    assert t == testCount && cursor == stringChars;
    RepresentsShows(rec, fx, cursor);
    return Ok(rec);
  }

  lemma RepresentsShows(rec: FixtureRecord, fx: Fixture, limit: nat)
    requires rec.Tags(fx) && |fx.tests| == rec.tests.Length && rec.Represents(fx.tests, limit)
    ensures rec.Shows(fx)
  {
    forall t | 0 <= t < rec.tests.Length
      ensures rec.tests[t].nameOffset <= rec.strings.Length
      ensures fx.tests[t] == TestCase(UntilNul(rec.strings[rec.tests[t].nameOffset..]), rec.tests[t].routine)
    {
      assert rec.Slot(t, fx.tests[t], limit);
      HoldsRead(rec.strings[..], rec.tests[t].nameOffset, fx.tests[t].name, limit);
      assert rec.strings[..][rec.tests[t].nameOffset..] == rec.strings[rec.tests[t].nameOffset..];
    }
  }
}
