/** The fixtures that the reader rebuilds are the fixtures that the writer described. */
module WireRoundTrip {
  import opened Prelude
  import opened WireLayout
  import opened WireReader

  /* ---------------------------------------------------------------- the whole module */

  ghost predicate ModuleReadable(s: seq<byte>)
  {
    && MODULE_HEADER <= |s|
    && forall j :: 0 <= j < U32At(s, 0) ==> SlotReadable(s, j)
  }

  ghost predicate SlotReadable(s: seq<byte>, j: nat)
  {
    SlotOffset(j) + 4 <= |s| && FixtureReadable(s, U32At(s, SlotOffset(j)))
  }

  // The first `n` fixtures of the response, or the error of the first one that cannot be rebuilt
  ghost function DecodeModule(s: seq<byte>, n: nat): Result<seq<Fixture>, Hr>
    requires ModuleReadable(s) && n <= U32At(s, 0)
  {
    if n == 0 then Ok([])
    else
      match DecodeModule(s, n - 1)
      case Err(e) => Err(e)
      case Ok(fs) =>
        assert SlotReadable(s, n - 1);
        Append(fs, Decode(s, U32At(s, SlotOffset(n - 1))))
  }

  function Append(fs: seq<Fixture>, r: Result<Fixture, Hr>): Result<seq<Fixture>, Hr>
  {
    match r
    case Err(e) => Err(e)
    case Ok(f) => Ok(fs + [f])
  }

  lemma {:induction false} ModuleErrorIsFinal(s: seq<byte>, m: nat, n: nat)
    requires ModuleReadable(s) && m <= n <= U32At(s, 0) && DecodeModule(s, m).Err?
    ensures DecodeModule(s, n) == DecodeModule(s, m)
  {
    if m < n {
      ModuleErrorIsFinal(s, m, n - 1);
    }
  }

  // The fixture loop of CfixklsInitializeModule
  method InitializeModule(s: seq<byte>) returns (result: Result<seq<FixtureRecord>, Hr>)
    requires ModuleReadable(s)
    ensures match DecodeModule(s, U32At(s, 0))
            case Err(e) => result == Err(e)
            case Ok(fs) => result.Ok? && |result.value| == |fs| == U32At(s, 0)
                           && forall j :: 0 <= j < |fs| ==> result.value[j].Shows(fs[j])
  {
    var records: seq<FixtureRecord> := [];
    ghost var fs: seq<Fixture> := [];
    var j := 0;
    while j < U32At(s, 0)
      invariant 0 <= j <= U32At(s, 0)
      invariant |records| == |fs| == j && DecodeModule(s, j) == Ok(fs)
      invariant forall i :: 0 <= i < j ==> records[i].Shows(fs[i])
    {
      assert SlotReadable(s, j);
      var r := CreateFixture(s, U32At(s, SlotOffset(j)));
      ghost var d := Decode(s, U32At(s, SlotOffset(j)));
      j := j + 1;
      assert DecodeModule(s, j) == Append(fs, d);
      if r.Err? {
        ModuleErrorIsFinal(s, j, U32At(s, 0));
        return Err(r.error);
      }
      records := records + [r.value];
      fs := fs + [d.value];
    }
    return Ok(records);
  }

  /* ---------------------------------------------------------------- the round trip */

  // CFIX_ENTRY_TYPE as it fits into the USHORT of the record
  function WireKind(e: Entry): nat { e.kind % 0x1_0000 }

  // The fixture that the first `n` entries of `f`, number `j` of its adapter, amount to
  function ExpectedEntries(f: AdapterFixture, j: nat, n: nat): Result<Fixture, Hr>
    requires n <= |f.entries|
  {
    if n == 0 then Ok(Empty(j, f.name))
    else
      match ExpectedEntries(f, j, n - 1)
      case Err(e) => Err(e)
      case Ok(fx) => AddEntry(fx, WireKind(f.entries[n - 1]), n - 1, f.entries[n - 1].name)
  }

  function Expected(f: AdapterFixture, j: nat): Result<Fixture, Hr>
  {
    if 2 * |f.name| > MAX_FIXTURE_NAME_CB then Err(InsufficientBuffer) else ExpectedEntries(f, j, |f.entries|)
  }

  lemma NameDecoded(s: seq<byte>, off: nat, name: seq<uint16>)
    requires NameAt(s, off, name)
    ensures NameOf(s, off, |name|) == name
  {
    forall i | 0 <= i < |name|
      ensures NameOf(s, off, |name|)[i] == name[i]
    {
      assert CharAt(s, off, i) == name[i];
    }
  }

  // Entry `k` of the fixture record at `off` is entry `k` of `f`.
  ghost predicate EntryDecodes(s: seq<byte>, off: nat, f: AdapterFixture, k: nat)
    requires k < |f.entries|
  {
    && EntryReadable(s, off, k)
    && KindAt(s, off, k) == WireKind(f.entries[k]) && KeyAt(s, off, k) == k
    && EntryName(s, off, k) == f.entries[k].name
  }

  lemma EntryDecoded(s: seq<byte>, a: Adapter, j: nat, k: nat)
    requires j < |a| && k < |a[j].entries| && EntryWritten(s, a, j, k)
    ensures EntryDecodes(s, FixtureOffset(a, j), a[j], k)
  {
    assert EntryPos(FixtureOffset(a, j), k) == EntryOffset(a, j, k);
    NameDecoded(s, EntryNameOffset(a, j, k), a[j].entries[k].name);
  }

  lemma {:induction false} EntriesDecoded(s: seq<byte>, off: nat, f: AdapterFixture, j: nat, n: nat)
    requires FixtureReadable(s, off) && n <= |f.entries| == EntryCount(s, off)
    requires DecodeEntries(s, off, 0) == Ok(Empty(j, f.name))
    requires forall k :: 0 <= k < n ==> EntryDecodes(s, off, f, k)
    ensures DecodeEntries(s, off, n) == ExpectedEntries(f, j, n)
  {
    if n > 0 {
      EntriesDecoded(s, off, f, j, n - 1);
      assert EntryDecodes(s, off, f, n - 1);
    }
  }

  // What is read at the offset of fixture `j` is fixture `j`.
  lemma FixtureRoundTrip(s: seq<byte>, a: Adapter, j: nat)
    requires j < |a| && FixtureWritten(s, a, j)
    ensures FixtureReadable(s, FixtureOffset(a, j)) && Decode(s, FixtureOffset(a, j)) == Expected(a[j], j)
  {
    var off := FixtureOffset(a, j);
    forall k | 0 <= k < |a[j].entries|
      ensures EntryDecodes(s, off, a[j], k)
    {
      assert EntryWritten(s, a, j, k);
      EntryDecoded(s, a, j, k);
    }
    forall k | 0 <= k < |a[j].entries|
      ensures EntryReadable(s, off, k)
    {
      assert EntryDecodes(s, off, a[j], k);
    }
    NameDecoded(s, StringOffset(a, j), a[j].name);
    EntriesDecoded(s, off, a[j], j, |a[j].entries|);
  }

  ghost function ExpectedModule(a: Adapter, n: nat): Result<seq<Fixture>, Hr>
    requires n <= |a|
  {
    if n == 0 then Ok([])
    else
      match ExpectedModule(a, n - 1)
      case Err(e) => Err(e)
      case Ok(fs) =>
        Append(fs, Expected(a[n - 1], n - 1))
  }

  ghost predicate FixtureDecodes(s: seq<byte>, a: Adapter, j: nat)
    requires j < |a|
  {
    && SlotReadable(s, j) && U32At(s, SlotOffset(j)) == FixtureOffset(a, j)
    && Decode(s, FixtureOffset(a, j)) == Expected(a[j], j)
  }

  lemma {:induction false} FixturesDecoded(s: seq<byte>, a: Adapter, n: nat)
    requires ModuleReadable(s) && n <= |a| == U32At(s, 0)
    requires forall j :: 0 <= j < n ==> FixtureDecodes(s, a, j)
    ensures DecodeModule(s, n) == ExpectedModule(a, n)
  {
    if n > 0 {
      FixturesDecoded(s, a, n - 1);
      assert FixtureDecodes(s, a, n - 1);
    }
  }

  // A response that describes an adapter can be read within its bounds and yields its fixtures.
  lemma ModuleRoundTrip(s: seq<byte>, a: Adapter)
    requires ModuleWritten(s, a)
    ensures ModuleReadable(s) && DecodeModule(s, U32At(s, 0)) == ExpectedModule(a, |a|)
  {
    forall j | 0 <= j < |a|
      ensures FixtureDecodes(s, a, j)
    {
      assert FixtureWritten(s, a, j);
      FixtureRoundTrip(s, a, j);
    }
    forall j | 0 <= j < U32At(s, 0)
      ensures SlotReadable(s, j)
    {
      assert FixtureDecodes(s, a, j);
    }
    FixturesDecoded(s, a, |a|);
  }

  // A name of more than 127 characters is the first thing that is refused.
  lemma LongNameRefused(f: AdapterFixture, j: nat)
    ensures Expected(f, j) == Err(InsufficientBuffer) <==> |f.name| > 127
  {
    NoEntryTooLong(f, j, |f.entries|);
  }

  lemma {:induction false} NoEntryTooLong(f: AdapterFixture, j: nat, n: nat)
    requires n <= |f.entries|
    ensures ExpectedEntries(f, j, n) != Err(InsufficientBuffer)
  {
    if n > 0 {
      NoEntryTooLong(f, j, n - 1);
    }
  }

  // All bytes of the description of fixture A with the test case T, in the order of cfixkrio.h; those at
  // 10 and 11 pad the key of the fixture.
  lemma DescriptionExample(s: seq<byte>, r: nat)
    requires ModuleWritten(s, [AdapterFixture([0x41], [Entry(3, [0x54], r)])])
    ensures |s| >= 40
    ensures s[0] == 1 && s[1] == s[2] == s[3] == 0
    ensures s[4] == 8 && s[5] == s[6] == s[7] == 0
    ensures s[8] == s[9] == 0
    ensures s[12] == 36 && s[13] == s[14] == s[15] == 0 && s[16] == 2 && s[17] == s[18] == s[19] == 0
    ensures s[20] == 1 && s[21] == s[22] == s[23] == 0
    ensures s[24] == 3 && s[25] == 0 && s[26] == s[27] == 0
    ensures s[28] == 38 && s[29] == s[30] == s[31] == 0 && s[32] == 2 && s[33] == s[34] == s[35] == 0
    ensures s[36] == 0x41 && s[37] == 0 && s[38] == 0x54 && s[39] == 0
  {
    var f := AdapterFixture([0x41], [Entry(3, [0x54], r)]);
    var a := [f];
    DescriptionOffsets(a, r);
    assert FixtureWritten(s, a, 0);
    assert EntryWritten(s, a, 0, 0);
    assert CharAt(s, 36, 0) == f.name[0];
    assert CharAt(s, 38, 0) == f.entries[0].name[0];
  }

  lemma DescriptionOffsets(a: Adapter, r: nat)
    requires a == [AdapterFixture([0x41], [Entry(3, [0x54], r)])]
    ensures SlotOffset(0) == 4 && FixtureOffset(a, 0) == 8 && EntryOffset(a, 0, 0) == 24
    ensures StringOffset(a, 0) == 36 && EntryNameOffset(a, 0, 0) == 38 && Total(a) == 40
  {
    assert NamesSize(a[0].entries, 1) == 2;
    assert FixturesSize(a, 1) == 28;
    assert AllStringsSize(a, 1) == 4;
  }

  /* ---------------------------------------------------------------- what the fixtures contain */

  predicate KnownKind(kind: nat) { SETUP <= kind <= AFTER }

  // All entries have a known type, and only test cases occur more than once.
  ghost predicate WellTyped(f: AdapterFixture, n: nat)
    requires n <= |f.entries|
  {
    && (forall k :: 0 <= k < n ==> KnownKind(WireKind(f.entries[k])))
    && (forall k, l :: 0 <= k < l < n && WireKind(f.entries[k]) == WireKind(f.entries[l]) ==>
          WireKind(f.entries[k]) == TESTCASE)
  }

  // The test cases among the first `n` entries, in order, with the positions of their entries
  function TestsOf(f: AdapterFixture, n: nat): seq<TestCase>
    requires n <= |f.entries|
  {
    if n == 0 then []
    else if WireKind(f.entries[n - 1]) == TESTCASE then
      TestsOf(f, n - 1) + [TestCase(UntilNul(f.entries[n - 1].name), n - 1)]
    else TestsOf(f, n - 1)
  }

  ghost predicate Has(f: AdapterFixture, n: nat, kind: nat)
    requires n <= |f.entries|
  {
    exists k :: 0 <= k < n && WireKind(f.entries[k]) == kind
  }

  // `tag` is 0 if no entry is of type `kind`, else the key of such an entry with the presence bit.
  ghost predicate TagFor(tag: nat, f: AdapterFixture, n: nat, kind: nat)
    requires n <= |f.entries|
  {
    if Has(f, n, kind) then exists k :: 0 <= k < n && WireKind(f.entries[k]) == kind && tag == Tag(k)
    else tag == 0
  }

  ghost predicate Shape(fx: Fixture, f: AdapterFixture, j: nat, n: nat)
    requires n <= |f.entries|
  {
    && fx.key == j && fx.name == UntilNul(f.name) && fx.tests == TestsOf(f, n)
    && TagFor(fx.setup, f, n, SETUP) && TagFor(fx.teardown, f, n, TEARDOWN)
    && TagFor(fx.before, f, n, BEFORE) && TagFor(fx.after, f, n, AFTER)
  }

  lemma TagStep(tag: nat, f: AdapterFixture, n: nat, kind: nat)
    requires n < |f.entries| < 0x1_0000 && TagFor(tag, f, n, kind)
    ensures WireKind(f.entries[n]) != kind ==> TagFor(tag, f, n + 1, kind)
    ensures Present(tag) <==> Has(f, n, kind)
  {
    if Has(f, n, kind) && WireKind(f.entries[n]) != kind {
      var k :| 0 <= k < n && WireKind(f.entries[k]) == kind && tag == Tag(k);
      assert 0 <= k < n + 1 && WireKind(f.entries[k]) == kind && tag == Tag(k);
    }
  }

  lemma TagNew(f: AdapterFixture, n: nat, kind: nat)
    requires n < |f.entries| && WireKind(f.entries[n]) == kind
    ensures TagFor(Tag(n), f, n + 1, kind)
  {
    assert 0 <= n < n + 1 && WireKind(f.entries[n]) == kind && Tag(n) == Tag(n);
  }

  lemma WellTypedStep(f: AdapterFixture, n: nat)
    requires n < |f.entries|
    ensures WellTyped(f, n + 1) <==>
              && WellTyped(f, n) && KnownKind(WireKind(f.entries[n]))
              && (WireKind(f.entries[n]) == TESTCASE || !Has(f, n, WireKind(f.entries[n])))
  {
  }

  // The slot that an entry of type `kind` goes to
  function SlotOf(fx: Fixture, kind: nat): nat
  {
    if kind == SETUP then fx.setup else if kind == TEARDOWN then fx.teardown
    else if kind == BEFORE then fx.before else fx.after
  }

  lemma AddEntryOk(fx: Fixture, kind: nat, key: nat, name: seq<uint16>)
    ensures AddEntry(fx, kind, key, name).Ok? <==>
              KnownKind(kind) && (kind == TESTCASE || !Present(SlotOf(fx, kind)))
  {
  }

  lemma ShapeTags(fx: Fixture, f: AdapterFixture, j: nat, n: nat)
    requires n < |f.entries| < 0x1_0000 && Shape(fx, f, j, n)
    ensures AddEntry(fx, WireKind(f.entries[n]), n, f.entries[n].name).Ok? ==>
              Shape(AddEntry(fx, WireKind(f.entries[n]), n, f.entries[n].name).value, f, j, n + 1)
  {
    TagStep(fx.setup, f, n, SETUP);
    TagStep(fx.teardown, f, n, TEARDOWN);
    TagStep(fx.before, f, n, BEFORE);
    TagStep(fx.after, f, n, AFTER);
    TagNew(f, n, WireKind(f.entries[n]));
  }

  lemma ShapeStep(fx: Fixture, f: AdapterFixture, j: nat, n: nat)
    requires n < |f.entries| < 0x1_0000 && Shape(fx, f, j, n) && WellTyped(f, n)
    ensures AddEntry(fx, WireKind(f.entries[n]), n, f.entries[n].name).Ok? <==> WellTyped(f, n + 1)
  {
    var kind := WireKind(f.entries[n]);
    WellTypedStep(f, n);
    AddEntryOk(fx, kind, n, f.entries[n].name);
    if KnownKind(kind) && kind != TESTCASE {
      assert TagFor(SlotOf(fx, kind), f, n, kind);
      TagStep(SlotOf(fx, kind), f, n, kind);
    }
  }

  ghost predicate AcceptedIff(r: Result<Fixture, Hr>, f: AdapterFixture, j: nat, n: nat)
    requires n <= |f.entries|
  {
    (r.Ok? <==> WellTyped(f, n)) && (r.Ok? ==> Shape(r.value, f, j, n))
  }

  // A fixture is accepted exactly when its entries are well typed, and then it has the names, the
  // test cases in order and the special routines of its definition.
  lemma {:induction false} ExpectedShape(f: AdapterFixture, j: nat, n: nat)
    requires n <= |f.entries| < 0x1_0000
    ensures AcceptedIff(ExpectedEntries(f, j, n), f, j, n)
  {
    if n > 0 {
      ExpectedShape(f, j, n - 1);
      if WellTyped(f, n - 1) {
        AcceptedStep(ExpectedEntries(f, j, n - 1).value, f, j, n - 1);
      } else {
        WellTypedStep(f, n - 1);
      }
    } else {
      EmptyShape(f, j);
    }
  }

  lemma EmptyShape(f: AdapterFixture, j: nat)
    ensures WellTyped(f, 0) && Shape(Empty(j, f.name), f, j, 0)
  {
  }

  lemma AcceptedStep(fx: Fixture, f: AdapterFixture, j: nat, n: nat)
    requires n < |f.entries| < 0x1_0000 && Shape(fx, f, j, n) && WellTyped(f, n)
    ensures AcceptedIff(AddEntry(fx, WireKind(f.entries[n]), n, f.entries[n].name), f, j, n + 1)
  {
    ShapeTags(fx, f, j, n);
    ShapeStep(fx, f, j, n);
  }
}
