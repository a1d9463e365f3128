/**
 Two ways from a fixture definition to a runnable fixture.  User mode (cfix/cfix/pe.c) walks the
 definition and keeps the routine addresses.  Kernel mode keeps the definition in the driver
 (cfixkern/cfixkr/drvtestadp.c), sends keys over the wire, rebuilds a fixture from them
 (cfixkern/cfixkl/module.c) and resolves the keys when a routine is called.
 */
module Loaders {
  import opened Prelude
  import opened WireLayout
  import opened WireReader
  import opened WireRoundTrip

  const CFIX_MAX_FIXTURE_NAME_CCH: nat := 128
  const CFIX_PE_API_VERSION: nat := 1
  const AT_SIGN: uint16 := 0x40

  type uint4 = x: int | 0 <= x < 0x10
  type uint12 = x: int | 0 <= x < 0x1000

  // CFIX_TEST_PE_DEFINITION; the three fields overlay the ULONG ApiVersion.  The entries are those
  // before the terminating one of type CfixEntryTypeEnd.
  datatype Definition = Definition(apiType: uint4, flags: uint12, revision: uint16, entries: seq<Entry>)

  function ApiVersion(d: Definition): uint32
  {
    d.apiType as int + 0x10 * (d.flags as int) + 0x1_0000 * (d.revision as int)
  }

  // An export that bears the fixture prefix: the rest of its name and what its routine returns
  datatype Export = Export(name: seq<uint16>, definition: Option<Definition>)

  datatype LoadError =
    | MisbehavedGetTcRoutine | UnsupportedVersion | FixtureNameTooLong
    | UnsupportedRevision | InvalidFixtureFlag | UnknownEntryType
    | DuplicateSetup | DuplicateTeardown | DuplicateBefore | DuplicateAfter

  /* ---------------------------------------------------------------- unmangling */

  // The part of a name before the first '@'
  function Unmangled(name: seq<uint16>): (r: seq<uint16>)
    ensures |r| <= |name| && r == name[..|r|] && AT_SIGN !in r
    ensures |r| < |name| ==> name[|r|] == AT_SIGN
  {
    if name == [] || name[0] == AT_SIGN then [] else [name[0]] + Unmangled(name[1..])
  }

  // It ends where the calling convention starts, at the first '@'.
  lemma UnmangledAt(name: seq<uint16>)
    ensures 0x40 !in Unmangled(name) && Unmangled(name) <= name
    ensures Unmangled(name) == name <==> 0x40 !in name
    ensures 0x40 in name ==> |Unmangled(name)| < |name| && name[|Unmangled(name)|] == 0x40
  {
    if |Unmangled(name)| == |name| {
      assert name[..|name|] == name;
    }
  }

  lemma {:induction false} UnmangledIs(name: seq<uint16>, n: nat)
    requires n <= |name| && AT_SIGN !in name[..n] && (n == |name| || name[n] == AT_SIGN)
    ensures Unmangled(name) == name[..n]
  {
    if n > 0 {
      assert name[0] == name[..n][0];
      assert name[1..][..n - 1] == name[..n][1..];
      UnmangledIs(name[1..], n - 1);
    } else {
      assert name == [] || name[0] == AT_SIGN;
    }
  }

  lemma {:induction false} UntilNulIs(s: seq<uint16>, n: nat)
    requires n <= |s| && 0 !in s[..n] && (n == |s| || s[n] == 0)
    ensures UntilNul(s) == s[..n]
  {
    if n > 0 {
      assert s[0] == s[..n][0];
      assert s[1..][..n - 1] == s[..n][1..];
      UntilNulIs(s[1..], n - 1);
    } else {
      assert s == [] || s[0] == 0;
    }
  }

  lemma {:induction false} NulInside(s: seq<uint16>)
    requires 0 in s
    ensures |UntilNul(s)| < |s|
  {
    if s[0] != 0 {
      NulInside(s[1..]);
    }
  }

  // CfixsUnmangleName: cuts a zero-terminated string
  method UnmangleInPlace(name: array<uint16>)
    requires 0 in name[..]
    modifies name
    ensures 0 in name[..]
    ensures UntilNul(name[..]) == Unmangled(UntilNul(old(name[..])))
  {
    ghost var z := UntilNul(name[..]);
    ghost var was := name[..];
    NulInside(name[..]);
    var i := 0;
    while i < |UntilNul(name[..])| && name[i] != AT_SIGN
      invariant 0 <= i <= |z| && name[..] == was && AT_SIGN !in z[..i]
      decreases |z| - i
    {
      assert z[i] == name[..][i];
      i := i + 1;
    }
    UnmangledIs(z, i);
    if i < |UntilNul(name[..])| {
      name[i] := 0;
    }
    assert name[..i] == was[..i] == z[..i];
    assert name[..][i] == 0;
    UntilNulIs(name[..], i);
  }

  // UNICODE_STRING; the length is kept in characters
  class UnicodeString {
    var length: nat
    const buffer: array<uint16>

    constructor (name: seq<uint16>, capacity: nat)
      requires |name| <= capacity
      ensures fresh(buffer) && buffer.Length == capacity && length == |name| && Text() == name
    {
      length := |name|;
      buffer := new uint16[capacity](i => if 0 <= i < |name| then name[i] else 0);
      new;
      assert buffer[..length] == name;
    }

    ghost function Text(): seq<uint16>
      reads this, buffer
    {
      if length <= buffer.Length then buffer[..length] else []
    }

    // CfixkrsUnmangleName: shortens a counted string
    method Unmangle()
      requires length <= buffer.Length
      modifies this`length
      ensures length <= old(length) && Text() == Unmangled(old(Text()))
    {
      ghost var text := Text();
      var i := 0;
      while i < length && buffer[i] != AT_SIGN
        invariant 0 <= i <= length == old(length) && AT_SIGN !in buffer[..i]
      {
        i := i + 1;
      }
      assert text[..i] == buffer[..i];
      UnmangledIs(text, i);
      if i < length {
        length := i;
      }
    }
  }

  /* ---------------------------------------------------------------- the direct loader */

  datatype PeTest = PeTest(name: seq<uint16>, routine: nat)

  // CFIX_FIXTURE as filled by CfixsCreateFixture; address 0 stands for no routine
  datatype PeFixture = PeFixture(name: seq<uint16>, tests: seq<PeTest>,
                                 setup: nat, teardown: nat, before: nat, after: nat)

  function EmptyPe(name: seq<uint16>): PeFixture { PeFixture(name, [], 0, 0, 0, 0) }

  function AddRoutine(d: PeFixture, e: Entry): Result<PeFixture, LoadError>
  {
    if e.kind == SETUP then
      if d.setup != 0 then Err(DuplicateSetup) else Ok(d.(setup := e.routine))
    else if e.kind == TEARDOWN then
      if d.teardown != 0 then Err(DuplicateTeardown) else Ok(d.(teardown := e.routine))
    else if e.kind == BEFORE then
      if d.before != 0 then Err(DuplicateBefore) else Ok(d.(before := e.routine))
    else if e.kind == AFTER then
      if d.after != 0 then Err(DuplicateAfter) else Ok(d.(after := e.routine))
    else if e.kind == TESTCASE then
      Ok(d.(tests := d.tests + [PeTest(UntilNul(e.name), e.routine)]))
    else Err(UnknownEntryType)
  }

  // The fixture after the first `n` entries
  function AddRoutines(name: seq<uint16>, entries: seq<Entry>, n: nat): Result<PeFixture, LoadError>
    requires n <= |entries|
  {
    if n == 0 then Ok(EmptyPe(name))
    else
      match AddRoutines(name, entries, n - 1)
      case Err(e) => Err(e)
      case Ok(d) => AddRoutine(d, entries[n - 1])
  }

  lemma {:induction false} LoadErrorIsFinal(name: seq<uint16>, entries: seq<Entry>, m: nat, n: nat)
    requires m <= n <= |entries| && AddRoutines(name, entries, m).Err?
    ensures AddRoutines(name, entries, n) == AddRoutines(name, entries, m)
  {
    if m < n {
      LoadErrorIsFinal(name, entries, m, n - 1);
    }
  }

  // What CfixsCreateFixture makes of an export
  function Load(x: Export): Result<PeFixture, LoadError>
  {
    match x.definition
    case None => Err(MisbehavedGetTcRoutine)
    case Some(def) =>
      if !(1 <= def.apiType <= 4) then Err(UnsupportedVersion)
      else if |UntilNul(x.name)| + 1 > CFIX_MAX_FIXTURE_NAME_CCH then Err(FixtureNameTooLong)
      else if def.revision != 0 then Err(UnsupportedRevision)
      else if def.flags > 1 then Err(InvalidFixtureFlag)
      else AddRoutines(Unmangled(UntilNul(x.name)), def.entries, |def.entries|)
  }

  // The CFIX_FIXTURE under construction
  class PeRecord {
    var name: seq<uint16>
    var tests: seq<PeTest>
    var setup: nat
    var teardown: nat
    var before: nat
    var after: nat

    constructor (name: seq<uint16>)
      ensures Shows(EmptyPe(name))
    {
      this.name := name;
      tests := [];
      setup, teardown, before, after := 0, 0, 0, 0;
    }

    ghost predicate Shows(d: PeFixture)
      reads this
    {
      PeFixture(name, tests, setup, teardown, before, after) == d
    }

    // The switch of CfixsCreateFixture
    method Add(e: Entry, ghost d: PeFixture) returns (error: Option<LoadError>)
      requires Shows(d)
      modifies this
      ensures match AddRoutine(d, e)
              case Err(err) => error == Some(err)
              case Ok(d') => error == None && Shows(d')
    {
      error := None;
      if e.kind == SETUP {
        if setup != 0 { error := Some(DuplicateSetup); } else { setup := e.routine; }
      } else if e.kind == TEARDOWN {
        if teardown != 0 { error := Some(DuplicateTeardown); } else { teardown := e.routine; }
      } else if e.kind == BEFORE {
        if before != 0 { error := Some(DuplicateBefore); } else { before := e.routine; }
      } else if e.kind == AFTER {
        if after != 0 { error := Some(DuplicateAfter); } else { after := e.routine; }
      } else if e.kind == TESTCASE {
        tests := tests + [PeTest(UntilNul(e.name), e.routine)];
      } else {
        error := Some(UnknownEntryType);
      }
    }
  }

  // MultiByteToWideChar into NewFixture->Name, then CfixsUnmangleName
  method LoadName(name: seq<uint16>) returns (text: seq<uint16>)
    requires |name| < CFIX_MAX_FIXTURE_NAME_CCH
    ensures text == Unmangled(UntilNul(name))
  {
    var buffer := new uint16[CFIX_MAX_FIXTURE_NAME_CCH](i => if 0 <= i < |name| then name[i] else 0);
    ghost var z := UntilNul(name);
    assert buffer[..][..|z|] == z;
    assert buffer[..][|z|] == 0;
    UntilNulIs(buffer[..], |z|);
    UnmangleInPlace(buffer);
    text := UntilNul(buffer[..]);
  }

  // CfixsCreateFixture
  method CreatePeFixture(x: Export) returns (result: Result<PeRecord, LoadError>)
    ensures match Load(x)
            case Err(e) => result == Err(e)
            case Ok(d) => result.Ok? && fresh(result.value) && result.value.Shows(d)
  {
    if x.definition.None? {
      return Err(MisbehavedGetTcRoutine);
    }
    var def := x.definition.value;
    if def.apiType < 1 || def.apiType > 4 {
      return Err(UnsupportedVersion);
    }
    var ansi := UntilNul(x.name);
    if |ansi| + 1 > CFIX_MAX_FIXTURE_NAME_CCH {
      return Err(FixtureNameTooLong);
    }
    UntilNulWhole(ansi);
    var text := LoadName(ansi);
    if def.revision != 0 {
      return Err(UnsupportedRevision);
    }
    if def.flags > 1 {
      return Err(InvalidFixtureFlag);
    }
    var rec := new PeRecord(text);
    ghost var d := EmptyPe(text);
    var k := 0;
    while k < |def.entries|
      invariant 0 <= k <= |def.entries| && fresh(rec)
      invariant AddRoutines(text, def.entries, k) == Ok(d) && rec.Shows(d)
    {
      var error := rec.Add(def.entries[k], d);
      if error.Some? {
        LoadErrorIsFinal(text, def.entries, k + 1, |def.entries|);
        return Err(error.value);
      }
      d := AddRoutine(d, def.entries[k]).value;
      k := k + 1;
    }
    return Ok(rec);
  }

  /* ---------------------------------------------------------------- the driver */

  datatype DriverError = StatusBufferOverflow | UnableToLoad

  // What CfixkrsInitializeFixture makes of an export
  function Register(x: Export): Result<AdapterFixture, DriverError>
  {
    if 2 * |UntilNul(x.name)| + 2 > 2 * CFIX_MAX_FIXTURE_NAME_CCH then Err(StatusBufferOverflow)
    else
      match x.definition
      case None => Err(UnableToLoad)
      case Some(def) =>
        if ApiVersion(def) != CFIX_PE_API_VERSION then Err(UnableToLoad)
        else Ok(AdapterFixture(Unmangled(UntilNul(x.name)), def.entries))
  }

  // CfixkrsInitializeFixture
  method RegisterFixture(x: Export) returns (result: Result<AdapterFixture, DriverError>)
    ensures result == Register(x)
  {
    var ansi := UntilNul(x.name);
    if 2 * |ansi| + 2 > 2 * CFIX_MAX_FIXTURE_NAME_CCH {
      return Err(StatusBufferOverflow);
    }
    var text := new UnicodeString(ansi, CFIX_MAX_FIXTURE_NAME_CCH);
    text.Unmangle();
    if x.definition.None? || ApiVersion(x.definition.value) != CFIX_PE_API_VERSION {
      return Err(UnableToLoad);
    }
    return Ok(AdapterFixture(text.buffer[..text.length], x.definition.value.entries));
  }

  // CfixkrpGetRoutineTestAdapter
  function GetRoutine(a: Adapter, fixtureKey: uint16, routineKey: uint16): Option<nat>
  {
    if fixtureKey >= |a| then None
    else if routineKey >= |a[fixtureKey].entries| then None
    else Some(a[fixtureKey].entries[routineKey].routine)
  }

  /* ---------------------------------------------------------------- calling a routine */

  datatype Phase = SetupPhase | TeardownPhase | BeforePhase | AfterPhase | TestPhase(t: nat)

  // The address that a run calls in a phase, or None if the phase has no routine (pe.c)
  function DirectCall(d: PeFixture, p: Phase): Option<nat>
    requires p.TestPhase? ==> p.t < |d.tests|
  {
    match p
    case SetupPhase => if d.setup == 0 then None else Some(d.setup)
    case TeardownPhase => if d.teardown == 0 then None else Some(d.teardown)
    case BeforePhase => if d.before == 0 then None else Some(d.before)
    case AfterPhase => if d.after == 0 then None else Some(d.after)
    case TestPhase(t) => Some(d.tests[t].routine)
  }

  // The keys that a run of the rebuilt fixture sends to the driver in a phase (module.c)
  function KeysOf(fx: Fixture, p: Phase): Option<(uint16, uint16)>
    requires p.TestPhase? ==> p.t < |fx.tests|
  {
    var key := fx.key % 0x1_0000;
    match p
    // the C code tests the whole tag here, not the presence bit
    case SetupPhase => if fx.setup == 0 then None else Some((key, RoutineKey(fx.setup)))
    case TeardownPhase => if !Present(fx.teardown) then None else Some((key, RoutineKey(fx.teardown)))
    case BeforePhase => if !Present(fx.before) then None else Some((key, RoutineKey(fx.before)))
    case AfterPhase => if !Present(fx.after) then None else Some((key, RoutineKey(fx.after)))
    case TestPhase(t) => Some((key, fx.tests[t].routine % 0x1_0000))
  }

  // What the driver calls for these keys; None if the phase has no routine
  function DriverCall(a: Adapter, fx: Fixture, p: Phase): Option<Option<nat>>
    requires p.TestPhase? ==> p.t < |fx.tests|
  {
    match KeysOf(fx, p)
    case None => None
    case Some((f, r)) => Some(GetRoutine(a, f, r))
  }

  // Both fixtures look the same and call the same routines.
  ghost predicate Agree(d: PeFixture, a: Adapter, fx: Fixture)
  {
    && d.name == fx.name
    && |d.tests| == |fx.tests|
    && (forall t :: 0 <= t < |d.tests| ==> d.tests[t].name == fx.tests[t].name)
    && forall p: Phase :: (p.TestPhase? ==> p.t < |d.tests|) ==> SameCall(d, a, fx, p)
  }

  ghost predicate SameCall(d: PeFixture, a: Adapter, fx: Fixture, p: Phase)
    requires p.TestPhase? ==> p.t < |d.tests| && p.t < |fx.tests|
  {
    match DirectCall(d, p)
    case None => DriverCall(a, fx, p) == None
    case Some(r) => DriverCall(a, fx, p) == Some(Some(r))
  }

  // The same error, as far as the two loaders have the same
  ghost predicate SameError(e: LoadError, h: Hr)
  {
    match e
    case DuplicateSetup => h == DupSetup
    case DuplicateTeardown => h == DupTeardown
    case DuplicateBefore => h == DupBefore
    case DuplicateAfter => h == DupAfter
    case UnknownEntryType => h == InvalidReflectorResponse
    case _ => false
  }

  ghost predicate SameResult(r: Result<PeFixture, LoadError>, a: Adapter, s: Result<Fixture, Hr>)
  {
    match (r, s)
    case (Ok(d), Ok(fx)) => Agree(d, a, fx)
    case (Err(e), Err(h)) => SameError(e, h)
    case _ => false
  }

  /* ---------------------------------------------------------------- agreement entry by entry */

  // The tag that came over the wire names the routine at this address.
  predicate SlotAgrees(tag: nat, routine: nat, entries: seq<Entry>)
  {
    if tag == 0 then routine == 0
    else ROUTINE_PRESENT <= tag < ROUTINE_PRESENT + |entries|
         && routine != 0 && routine == entries[tag - ROUTINE_PRESENT].routine
  }

  predicate TestAgrees(d: PeTest, tc: TestCase, entries: seq<Entry>)
  {
    d.name == tc.name && tc.routine < |entries| && d.routine == entries[tc.routine].routine
  }

  ghost predicate TestsAgree(ds: seq<PeTest>, ts: seq<TestCase>, entries: seq<Entry>)
  {
    |ds| == |ts| && forall t :: 0 <= t < |ds| ==> TestAgrees(ds[t], ts[t], entries)
  }

  ghost predicate Matches(d: PeFixture, fx: Fixture, entries: seq<Entry>)
  {
    && TestsAgree(d.tests, fx.tests, entries)
    && SlotAgrees(fx.setup, d.setup, entries) && SlotAgrees(fx.teardown, d.teardown, entries)
    && SlotAgrees(fx.before, d.before, entries) && SlotAgrees(fx.after, d.after, entries)
  }

  // No entry for a special routine has a null address.
  predicate Special(kind: nat) { KnownKind(kind) && kind != TESTCASE }

  predicate NonNull(e: Entry) { Special(e.kind) ==> e.routine != 0 }

  ghost predicate NoNullSpecials(f: AdapterFixture)
  {
    forall k :: 0 <= k < |f.entries| ==> NonNull(f.entries[k])
  }

  // Entry types that survive the USHORT of the wire format
  ghost predicate NarrowKinds(f: AdapterFixture)
  {
    forall k :: 0 <= k < |f.entries| ==> f.entries[k].kind < 0x1_0000
  }

  lemma PresentAgrees(tag: nat, routine: nat, entries: seq<Entry>)
    requires SlotAgrees(tag, routine, entries) && |entries| < 0x1_0000
    ensures Present(tag) <==> tag != 0
    ensures Present(tag) <==> routine != 0
    ensures Present(tag) ==> RoutineKey(tag) < |entries| && entries[RoutineKey(tag)].routine == routine
  {
  }

  // Both loaders got equally far with `f`, number `j`, or failed alike.
  ghost predicate SameStep(r: Result<PeFixture, LoadError>, s: Result<Fixture, Hr>, f: AdapterFixture, j: nat)
  {
    match (r, s)
    case (Ok(d), Ok(fx)) => Matches(d, fx, f.entries) && d.name == fx.name && fx.key == j
    case (Err(e), Err(h)) => SameError(e, h)
    case _ => false
  }

  // An entry is taken by both loaders or by none, for the same reason.
  lemma EntryTaken(d: PeFixture, fx: Fixture, f: AdapterFixture, k: nat)
    requires k < |f.entries| < 0x1_0000 && Matches(d, fx, f.entries) && f.entries[k].kind < 0x1_0000
    ensures var r, s := AddRoutine(d, f.entries[k]), AddEntry(fx, WireKind(f.entries[k]), k, f.entries[k].name);
      (r.Ok? <==> s.Ok?) && (r.Err? && s.Err? ==> SameError(r.error, s.error))
  {
    PresentAgrees(fx.setup, d.setup, f.entries);
    PresentAgrees(fx.teardown, d.teardown, f.entries);
    PresentAgrees(fx.before, d.before, f.entries);
    PresentAgrees(fx.after, d.after, f.entries);
  }

  // A test case is appended on both sides, everything else leaves the test cases alone.
  lemma EntryTests(d: PeFixture, fx: Fixture, f: AdapterFixture, k: nat)
    requires k < |f.entries| < 0x1_0000 && TestsAgree(d.tests, fx.tests, f.entries) && f.entries[k].kind < 0x1_0000
    ensures var r, s := AddRoutine(d, f.entries[k]), AddEntry(fx, WireKind(f.entries[k]), k, f.entries[k].name);
      r.Ok? && s.Ok? ==> TestsAgree(r.value.tests, s.value.tests, f.entries)
  {
  }

  function PeSlot(d: PeFixture, kind: nat): nat
  {
    if kind == SETUP then d.setup else if kind == TEARDOWN then d.teardown
    else if kind == BEFORE then d.before else d.after
  }

  // The slot of the entry's type is filled on both sides, the other ones stay.
  lemma EntrySlot(d: PeFixture, fx: Fixture, f: AdapterFixture, k: nat, kind: nat)
    requires k < |f.entries| < 0x1_0000 && SlotAgrees(SlotOf(fx, kind), PeSlot(d, kind), f.entries) && Special(kind)
    requires NonNull(f.entries[k]) && f.entries[k].kind < 0x1_0000
    ensures var r, s := AddRoutine(d, f.entries[k]), AddEntry(fx, WireKind(f.entries[k]), k, f.entries[k].name);
      r.Ok? && s.Ok? ==> SlotAgrees(SlotOf(s.value, kind), PeSlot(r.value, kind), f.entries)
  {
  }

  lemma EntryAgrees(d: PeFixture, fx: Fixture, f: AdapterFixture, k: nat)
    requires k < |f.entries| < 0x1_0000 && Matches(d, fx, f.entries)
    requires NonNull(f.entries[k]) && f.entries[k].kind < 0x1_0000
    requires d.name == fx.name
    ensures SameStep(AddRoutine(d, f.entries[k]), AddEntry(fx, WireKind(f.entries[k]), k, f.entries[k].name), f, fx.key)
  {
    EntryTaken(d, fx, f, k);
    EntryTests(d, fx, f, k);
    EntrySlot(d, fx, f, k, SETUP);
    EntrySlot(d, fx, f, k, TEARDOWN);
    EntrySlot(d, fx, f, k, BEFORE);
    EntrySlot(d, fx, f, k, AFTER);
  }

  function Proceed(r: Result<PeFixture, LoadError>, e: Entry): Result<PeFixture, LoadError>
  {
    if r.Err? then r else AddRoutine(r.value, e)
  }

  function ProceedOnWire(s: Result<Fixture, Hr>, e: Entry, k: nat): Result<Fixture, Hr>
  {
    if s.Err? then s else AddEntry(s.value, WireKind(e), k, e.name)
  }

  lemma StepAgrees(r: Result<PeFixture, LoadError>, s: Result<Fixture, Hr>, f: AdapterFixture, j: nat, k: nat)
    requires k < |f.entries| < 0x1_0000 && SameStep(r, s, f, j)
    requires NonNull(f.entries[k]) && f.entries[k].kind < 0x1_0000
    ensures SameStep(Proceed(r, f.entries[k]), ProceedOnWire(s, f.entries[k], k), f, j)
  {
    match (r, s)
    case (Ok(d), Ok(fx)) => EntryAgrees(d, fx, f, k);
    case _ =>
  }

  lemma {:induction false} EntriesAgree(f: AdapterFixture, j: nat, n: nat)
    requires n <= |f.entries| < 0x1_0000 && NoNullSpecials(f) && NarrowKinds(f)
    ensures SameStep(AddRoutines(UntilNul(f.name), f.entries, n), ExpectedEntries(f, j, n), f, j)
  {
    if n > 0 {
      EntriesAgree(f, j, n - 1);
      StepAgrees(AddRoutines(UntilNul(f.name), f.entries, n - 1), ExpectedEntries(f, j, n - 1), f, j, n - 1);
    }
  }

  // Keys that match select the same routines in the driver.
  lemma {:induction false} MatchingFixturesAgree(d: PeFixture, a: Adapter, j: nat, fx: Fixture)
    requires j < |a| < 0x1_0000 && |a[j].entries| < 0x1_0000
    requires Matches(d, fx, a[j].entries) && d.name == fx.name && fx.key == j
    ensures Agree(d, a, fx)
  {
    PresentAgrees(fx.setup, d.setup, a[j].entries);
    PresentAgrees(fx.teardown, d.teardown, a[j].entries);
    PresentAgrees(fx.before, d.before, a[j].entries);
    PresentAgrees(fx.after, d.after, a[j].entries);
    forall t | 0 <= t < |d.tests|
      ensures d.tests[t].name == fx.tests[t].name && SameCall(d, a, fx, TestPhase(t))
    {
      assert TestAgrees(d.tests[t], fx.tests[t], a[j].entries);
    }
  }

  /* ---------------------------------------------------------------- agreement of the loaders */

  // The fixture that user mode makes of the same definition
  function DirectOf(f: AdapterFixture): Result<PeFixture, LoadError>
  {
    AddRoutines(UntilNul(f.name), f.entries, |f.entries|)
  }

  ghost predicate Deliverable(a: Adapter, j: nat)
    requires j < |a|
  {
    |a| < 0x1_0000 && |a[j].entries| < 0x1_0000 && 2 * |a[j].name| <= MAX_FIXTURE_NAME_CB
  }

  lemma FixturesAgree(a: Adapter, j: nat)
    requires j < |a| && Deliverable(a, j) && NarrowKinds(a[j]) && NoNullSpecials(a[j])
    ensures SameResult(DirectOf(a[j]), a, Expected(a[j], j))
  {
    EntriesAgree(a[j], j, |a[j].entries|);
    match (DirectOf(a[j]), Expected(a[j], j))
    case (Ok(d), Ok(fx)) => MatchingFixturesAgree(d, a, j, fx);
    case _ =>
  }

  /* ---------------------------------------------------------------- which definitions are accepted */

  ghost predicate KindsKnown(entries: seq<Entry>, n: nat)
    requires n <= |entries|
  {
    forall k :: 0 <= k < n ==> KnownKind(entries[k].kind)
  }

  // No entry for a special routine follows a non-null one of the same type.
  ghost predicate NoneRepeated(entries: seq<Entry>, n: nat)
    requires n <= |entries|
  {
    forall k, l :: 0 <= k < l < n && entries[k].kind == entries[l].kind && Special(entries[k].kind) ==>
      entries[k].routine == 0
  }

  ghost predicate Assigned(entries: seq<Entry>, n: nat, kind: nat)
    requires n <= |entries|
  {
    exists k :: 0 <= k < n && entries[k].kind == kind && entries[k].routine != 0
  }

  lemma NoneRepeatedStep(entries: seq<Entry>, n: nat)
    requires n < |entries|
    ensures NoneRepeated(entries, n + 1) <==>
              NoneRepeated(entries, n) && (Special(entries[n].kind) ==> !Assigned(entries, n, entries[n].kind))
  {
  }

  lemma AssignedStep(entries: seq<Entry>, n: nat, kind: nat)
    requires n < |entries|
    ensures Assigned(entries, n + 1, kind) <==>
              Assigned(entries, n, kind) || (entries[n].kind == kind && entries[n].routine != 0)
  {
  }

  lemma AddRoutineOk(d: PeFixture, e: Entry)
    ensures AddRoutine(d, e).Ok? <==> KnownKind(e.kind) && (e.kind == TESTCASE || PeSlot(d, e.kind) == 0)
    ensures AddRoutine(d, e).Ok? ==>
      forall kind :: Special(kind) ==>
        PeSlot(AddRoutine(d, e).value, kind) == if kind == e.kind then e.routine else PeSlot(d, kind)
  {
  }

  // User mode accepts a definition exactly if all types are known and none is repeated.
  lemma {:induction false} DirectAccepts(name: seq<uint16>, entries: seq<Entry>, n: nat)
    requires n <= |entries|
    ensures AddRoutines(name, entries, n).Ok? <==> KindsKnown(entries, n) && NoneRepeated(entries, n)
    ensures AddRoutines(name, entries, n).Ok? ==>
      forall kind :: Special(kind) ==>
        (PeSlot(AddRoutines(name, entries, n).value, kind) != 0 <==> Assigned(entries, n, kind))
  {
    if n > 0 {
      DirectAccepts(name, entries, n - 1);
      NoneRepeatedStep(entries, n - 1);
      if AddRoutines(name, entries, n - 1).Ok? {
        AddRoutineOk(AddRoutines(name, entries, n - 1).value, entries[n - 1]);
        forall kind | Special(kind)
          ensures Assigned(entries, n, kind) <==>
                    Assigned(entries, n - 1, kind) || (entries[n - 1].kind == kind && entries[n - 1].routine != 0)
        {
          AssignedStep(entries, n - 1, kind);
        }
      }
    }
  }

  // Whatever the kernel-mode pipeline accepts, user mode accepts as well.
  lemma DriverAcceptsLess(f: AdapterFixture, j: nat)
    requires |f.entries| < 0x1_0000 && NarrowKinds(f)
    ensures Expected(f, j).Ok? ==> DirectOf(f).Ok?
  {
    DirectAccepts(UntilNul(f.name), f.entries, |f.entries|);
    ExpectedShape(f, j, |f.entries|);
    if Expected(f, j).Ok? {
      WellTypedDirectly(f, |f.entries|);
    }
  }

  lemma WellTypedDirectly(f: AdapterFixture, n: nat)
    requires n <= |f.entries| && NarrowKinds(f) && WellTyped(f, n)
    ensures KindsKnown(f.entries, n) && NoneRepeated(f.entries, n)
  {
    forall k | 0 <= k < n
      ensures KnownKind(f.entries[k].kind)
    {
      assert KnownKind(WireKind(f.entries[k]));
    }
    forall k, l | 0 <= k < l < n
      ensures f.entries[k].kind == f.entries[l].kind ==> f.entries[k].kind == TESTCASE
    {
      assert WireKind(f.entries[k]) == f.entries[k].kind && WireKind(f.entries[l]) == f.entries[l].kind;
    }
  }

  function PhaseOf(kind: nat): Phase
  {
    if kind == SETUP then SetupPhase else if kind == TEARDOWN then TeardownPhase
    else if kind == BEFORE then BeforePhase else AfterPhase
  }

  // The rebuilt fixture names an entry of the type for which the definition has one.
  lemma SpecialKey(fx: Fixture, f: AdapterFixture, j: nat, kind: nat) returns (k: nat)
    requires |f.entries| < 0x1_0000 && Shape(fx, f, j, |f.entries|) && j < 0x1_0000
    requires Special(kind) && Has(f, |f.entries|, kind)
    ensures k < |f.entries| && WireKind(f.entries[k]) == kind && KeysOf(fx, PhaseOf(kind)) == Some((j, k))
  {
    assert TagFor(SlotOf(fx, kind), f, |f.entries|, kind);
    k :| 0 <= k < |f.entries| && WireKind(f.entries[k]) == kind && SlotOf(fx, kind) == Tag(k);
    assert Present(Tag(k)) && RoutineKey(Tag(k)) == k;
  }

  // A null routine that the driver would call has no counterpart in user mode.
  lemma NullSpecialDiffers(a: Adapter, j: nat, k: nat)
    requires j < |a| && Deliverable(a, j) && NarrowKinds(a[j])
    requires k < |a[j].entries| && !NonNull(a[j].entries[k])
    ensures Expected(a[j], j).Ok? ==> forall d :: !Agree(d, a, Expected(a[j], j).value)
  {
    var f := a[j];
    ExpectedShape(f, j, |f.entries|);
    if Expected(f, j).Ok? {
      var fx := Expected(f, j).value;
      var kind := f.entries[k].kind;
      assert WireKind(f.entries[k]) == kind;
      var l := SpecialKey(fx, f, j, kind);
      assert l == k by {
        assert WireKind(f.entries[l]) == WireKind(f.entries[k]);
      }
      assert DriverCall(a, fx, PhaseOf(kind)) == Some(Some(0));
      forall d
        ensures !Agree(d, a, fx)
      {
        assert !SameCall(d, a, fx, PhaseOf(kind));
      }
    }
  }

  // The entry at which user mode gives up: all before it are in order, with it they are not.
  ghost predicate DirectRejectsAt(f: AdapterFixture, n: nat)
  {
    && n < |f.entries| && KindsKnown(f.entries, n) && NoneRepeated(f.entries, n)
    && !(KindsKnown(f.entries, n + 1) && NoneRepeated(f.entries, n + 1))
  }

  // The entry at which the kernel-mode pipeline gives up
  ghost predicate DriverRejectsAt(f: AdapterFixture, m: nat)
  {
    m < |f.entries| && WellTyped(f, m) && !WellTyped(f, m + 1)
  }

  function LoadErrorOf(kind: nat): LoadError
  {
    if kind == SETUP then DuplicateSetup else if kind == TEARDOWN then DuplicateTeardown
    else if kind == BEFORE then DuplicateBefore else if kind == AFTER then DuplicateAfter
    else UnknownEntryType
  }

  function WireErrorOf(kind: nat): Hr
  {
    if kind == SETUP then DupSetup else if kind == TEARDOWN then DupTeardown
    else if kind == BEFORE then DupBefore else if kind == AFTER then DupAfter
    else InvalidReflectorResponse
  }

  // The error of a definition is that of the entry at which the loader gives up.
  lemma DirectRejection(f: AdapterFixture, name: seq<uint16>, n: nat)
    requires DirectRejectsAt(f, n)
    ensures AddRoutines(name, f.entries, |f.entries|) == Err(LoadErrorOf(f.entries[n].kind))
  {
    DirectAccepts(name, f.entries, n);
    DirectAccepts(name, f.entries, n + 1);
    LoadErrorIsFinal(name, f.entries, n + 1, |f.entries|);
  }

  lemma {:induction false} ExpectedErrorIsFinal(f: AdapterFixture, j: nat, m: nat, n: nat)
    requires m <= n <= |f.entries| && ExpectedEntries(f, j, m).Err?
    ensures ExpectedEntries(f, j, n) == ExpectedEntries(f, j, m)
  {
    if m < n {
      ExpectedErrorIsFinal(f, j, m, n - 1);
    }
  }

  lemma DriverRejection(f: AdapterFixture, j: nat, m: nat)
    requires |f.entries| < 0x1_0000 && DriverRejectsAt(f, m)
    ensures ExpectedEntries(f, j, |f.entries|) == Err(WireErrorOf(WireKind(f.entries[m])))
  {
    ExpectedShape(f, j, m);
    ExpectedShape(f, j, m + 1);
    ExpectedErrorIsFinal(f, j, m + 1, |f.entries|);
  }

  lemma {:induction false} FirstDirectRejection(f: AdapterFixture, n: nat) returns (k: nat)
    requires n <= |f.entries| && !(KindsKnown(f.entries, n) && NoneRepeated(f.entries, n))
    ensures DirectRejectsAt(f, k)
  {
    if KindsKnown(f.entries, n - 1) && NoneRepeated(f.entries, n - 1) {
      k := n - 1;
    } else {
      k := FirstDirectRejection(f, n - 1);
    }
  }

  lemma {:induction false} FirstDriverRejection(f: AdapterFixture, n: nat) returns (k: nat)
    requires n <= |f.entries| && !WellTyped(f, n)
    ensures DriverRejectsAt(f, k)
  {
    if WellTyped(f, n - 1) {
      k := n - 1;
    } else {
      k := FirstDriverRejection(f, n - 1);
    }
  }

  // Kernel mode gives up no later, and the errors are the same exactly if both loaders give up at
  // entries of the same type.
  lemma RejectionsAgreeIff(f: AdapterFixture, j: nat, n: nat, m: nat)
    requires |f.entries| < 0x1_0000 && NarrowKinds(f) && 2 * |f.name| <= MAX_FIXTURE_NAME_CB
    requires DirectRejectsAt(f, n) && DriverRejectsAt(f, m)
    ensures m <= n && DirectOf(f).Err? && Expected(f, j).Err?
    ensures SameError(DirectOf(f).error, Expected(f, j).error) <==> f.entries[m].kind == f.entries[n].kind
  {
    DirectRejection(f, UntilNul(f.name), n);
    DriverRejection(f, j, m);
    assert WireKind(f.entries[m]) == f.entries[m].kind;
    if n < m {
      WellTypedPrefix(f, n + 1, m);
      WellTypedDirectly(f, n + 1);
    }
    assert m < n ==> KnownKind(f.entries[m].kind);
  }

  lemma WellTypedPrefix(f: AdapterFixture, m: nat, n: nat)
    requires m <= n <= |f.entries| && WellTyped(f, n)
    ensures WellTyped(f, m)
  {
  }

  // Both loaders give up at entries of the same type.
  ghost predicate RejectedAlike(f: AdapterFixture)
  {
    exists n: nat, m: nat :: DirectRejectsAt(f, n) && DriverRejectsAt(f, m) && f.entries[m].kind == f.entries[n].kind
  }

  // For every definition: if all types are known and none is repeated, both loaders agree exactly if
  // no routine other than a test case is null; otherwise exactly if both give up at entries of the
  // same type.
  lemma LoadersAgreeIff(a: Adapter, j: nat)
    requires j < |a| && Deliverable(a, j) && NarrowKinds(a[j])
    ensures SameResult(DirectOf(a[j]), a, Expected(a[j], j)) <==>
              if KindsKnown(a[j].entries, |a[j].entries|) && NoneRepeated(a[j].entries, |a[j].entries|) then
                NoNullSpecials(a[j])
              else
                RejectedAlike(a[j])
  {
    DirectAccepts(UntilNul(a[j].name), a[j].entries, |a[j].entries|);
    if DirectOf(a[j]).Err? {
      RejectedAgreeIff(a[j], a, j);
    } else if NoNullSpecials(a[j]) {
      FixturesAgree(a, j);
    } else {
      var k :| 0 <= k < |a[j].entries| && !NonNull(a[j].entries[k]);
      NullSpecialDiffers(a, j, k);
    }
  }

  lemma RejectedSomewhere(f: AdapterFixture, j: nat) returns (n: nat, m: nat)
    requires |f.entries| < 0x1_0000 && NarrowKinds(f) && 2 * |f.name| <= MAX_FIXTURE_NAME_CB && DirectOf(f).Err?
    ensures DirectRejectsAt(f, n) && DriverRejectsAt(f, m)
  {
    DirectAccepts(UntilNul(f.name), f.entries, |f.entries|);
    ExpectedShape(f, j, |f.entries|);
    DriverAcceptsLess(f, j);
    n := FirstDirectRejection(f, |f.entries|);
    m := FirstDriverRejection(f, |f.entries|);
  }

  lemma RejectedAgreeIff(f: AdapterFixture, a: Adapter, j: nat)
    requires |f.entries| < 0x1_0000 && NarrowKinds(f) && 2 * |f.name| <= MAX_FIXTURE_NAME_CB && DirectOf(f).Err?
    ensures SameResult(DirectOf(f), a, Expected(f, j)) <==> RejectedAlike(f)
  {
    var n, m := RejectedSomewhere(f, j);
    RejectionsAgreeIff(f, j, n, m);
    if RejectedAlike(f) {
      AlikeErrors(f, j);
    } else {
      assert f.entries[m].kind != f.entries[n].kind;
    }
  }

  lemma AlikeErrors(f: AdapterFixture, j: nat)
    requires |f.entries| < 0x1_0000 && NarrowKinds(f) && 2 * |f.name| <= MAX_FIXTURE_NAME_CB
    requires RejectedAlike(f) && DirectOf(f).Err? && Expected(f, j).Err?
    ensures SameError(DirectOf(f).error, Expected(f, j).error)
  {
    var n: nat, m: nat :| DirectRejectsAt(f, n) && DriverRejectsAt(f, m) && f.entries[m].kind == f.entries[n].kind;
    RejectionsAgreeIff(f, j, n, m);
  }

  // Rejected by both, but for different reasons: a null Setup, another one, and an unknown type
  lemma RejectedDifferentlyExample()
    ensures var f := AdapterFixture([], [Entry(SETUP, [], 0), Entry(SETUP, [], 0), Entry(9, [], 0)]);
      DirectOf(f) == Err(UnknownEntryType) && Expected(f, 0) == Err(DupSetup)
  {
    var f := AdapterFixture([], [Entry(SETUP, [], 0), Entry(SETUP, [], 0), Entry(9, [], 0)]);
    assert KnownKind(f.entries[0].kind) && KnownKind(f.entries[1].kind) && !KnownKind(f.entries[2].kind);
    assert WireKind(f.entries[0]) == WireKind(f.entries[1]) == SETUP;
    assert DirectRejectsAt(f, 2) && DriverRejectsAt(f, 1);
    DirectRejection(f, UntilNul(f.name), 2);
    DriverRejection(f, 0, 1);
  }

  // Setup twice, first as a null pointer: user mode accepts this, the kernel-mode pipeline does not.
  lemma NullSetupExample(r: nat)
    requires r != 0
    ensures var f := AdapterFixture([], [Entry(SETUP, [], 0), Entry(SETUP, [], r)]);
      DirectOf(f) == Ok(EmptyPe([]).(setup := r)) && Expected(f, 0) == Err(DupSetup)
  {
    var f := AdapterFixture([], [Entry(SETUP, [], 0), Entry(SETUP, [], r)]);
    assert AddRoutines([], f.entries, 1) == Ok(EmptyPe([]));
    assert ExpectedEntries(f, 0, 1) == Ok(Empty(0, []).(setup := Tag(0)));
    assert Present(Tag(0));
  }

  /* ---------------------------------------------------------------- whole modules */

  // CfixsLoadFixturesFromPeImage for the first `n` fixture exports: the first failure is final.
  function LoadModule(xs: seq<Export>, n: nat): Result<seq<PeFixture>, LoadError>
    requires n <= |xs|
  {
    if n == 0 then Ok([])
    else
      match LoadModule(xs, n - 1)
      case Err(e) => Err(e)
      case Ok(ds) => AppendLoaded(ds, Load(xs[n - 1]))
  }

  function AppendLoaded(ds: seq<PeFixture>, r: Result<PeFixture, LoadError>): Result<seq<PeFixture>, LoadError>
  {
    match r
    case Err(e) => Err(e)
    case Ok(d) => Ok(ds + [d])
  }

  // CfixkrsWalkExportDirectoryAndExtractFixtures for the first `n` fixture exports
  function RegisterModule(xs: seq<Export>, n: nat): Result<Adapter, DriverError>
    requires n <= |xs|
  {
    if n == 0 then Ok([])
    else
      match RegisterModule(xs, n - 1)
      case Err(e) => Err(e)
      case Ok(a) =>
        match Register(xs[n - 1])
        case Err(e) => Err(e)
        case Ok(f) => Ok(a + [f])
  }

  lemma {:induction false} LoadStays(xs: seq<Export>, m: nat, n: nat)
    requires m <= n <= |xs| && LoadModule(xs, m).Err?
    ensures LoadModule(xs, n) == LoadModule(xs, m)
  {
    if m < n {
      LoadStays(xs, m, n - 1);
    }
  }

  lemma {:induction false} RegisterStays(xs: seq<Export>, m: nat, n: nat)
    requires m <= n <= |xs| && RegisterModule(xs, m).Err?
    ensures RegisterModule(xs, n) == RegisterModule(xs, m)
  {
    if m < n {
      RegisterStays(xs, m, n - 1);
    }
  }

  // The part of the walk of CfixsLoadFixturesFromPeImage that creates the fixtures
  method LoadFixtures(xs: seq<Export>) returns (result: Result<seq<PeRecord>, LoadError>)
    ensures match LoadModule(xs, |xs|)
            case Err(e) => result == Err(e)
            case Ok(ds) => result.Ok? && |result.value| == |ds| == |xs|
                           && forall j :: 0 <= j < |ds| ==> result.value[j].Shows(ds[j])
  {
    var records: seq<PeRecord> := [];
    ghost var ds: seq<PeFixture> := [];
    var j := 0;
    while j < |xs|
      invariant 0 <= j <= |xs| && |records| == |ds| == j && LoadModule(xs, j) == Ok(ds)
      invariant forall i :: 0 <= i < j ==> records[i].Shows(ds[i])
    {
      var r := CreatePeFixture(xs[j]);
      ghost var d := Load(xs[j]);
      j := j + 1;
      assert LoadModule(xs, j) == AppendLoaded(ds, d);
      if r.Err? {
        LoadStays(xs, j, |xs|);
        return Err(r.error);
      }
      records := records + [r.value];
      ds := ds + [d.value];
    }
    return Ok(records);
  }

  // The part of the walk of CfixkrsWalkExportDirectoryAndExtractFixtures that registers the fixtures
  method RegisterFixtures(xs: seq<Export>) returns (result: Result<Adapter, DriverError>)
    ensures result == RegisterModule(xs, |xs|)
  {
    var a: Adapter := [];
    var j := 0;
    while j < |xs|
      invariant 0 <= j <= |xs| && RegisterModule(xs, j) == Ok(a)
    {
      var r := RegisterFixture(xs[j]);
      j := j + 1;
      if r.Err? {
        RegisterStays(xs, j, |xs|);
        return Err(r.error);
      }
      a := a + [r.value];
    }
    return Ok(a);
  }

  // A definition that both worlds support: a C string of bounded length and the base API
  ghost predicate Portable(x: Export)
  {
    && 0 !in x.name && |x.name| < CFIX_MAX_FIXTURE_NAME_CCH
    && x.definition.Some? && ApiVersion(x.definition.value) == CFIX_PE_API_VERSION
    && |x.definition.value.entries| < 0x1_0000
    && NarrowKinds(AdapterFixture(x.name, x.definition.value.entries))
    && NoNullSpecials(AdapterFixture(x.name, x.definition.value.entries))
  }

  function Registered(x: Export): AdapterFixture
    requires x.definition.Some?
  {
    AdapterFixture(Unmangled(x.name), x.definition.value.entries)
  }

  lemma UntilNulWhole(s: seq<uint16>)
    requires 0 !in s
    ensures UntilNul(s) == s
  {
    UntilNulIs(s, |s|);
  }

  lemma PortableLoads(x: Export)
    requires Portable(x)
    ensures Register(x) == Ok(Registered(x)) && Load(x) == DirectOf(Registered(x))
    ensures |Registered(x).name| < CFIX_MAX_FIXTURE_NAME_CCH
    ensures NarrowKinds(Registered(x)) && NoNullSpecials(Registered(x))
  {
    UntilNulWhole(x.name);
    UntilNulWhole(Unmangled(x.name));
  }

  ghost predicate AllPortable(xs: seq<Export>)
  {
    forall j :: 0 <= j < |xs| ==> Portable(xs[j])
  }

  // The first `n` exports have been registered.
  ghost predicate AllRegistered(a: Adapter, xs: seq<Export>, n: nat)
    requires n <= |xs| && AllPortable(xs)
  {
    |a| == n && forall j :: 0 <= j < n ==> a[j] == Registered(xs[j])
  }

  lemma RegisterOne(xs: seq<Export>, n: nat, a: Adapter)
    requires AllPortable(xs) && n < |xs| && AllRegistered(a, xs, n) && RegisterModule(xs, n) == Ok(a)
    ensures RegisterModule(xs, n + 1) == Ok(a + [Registered(xs[n])])
    ensures AllRegistered(a + [Registered(xs[n])], xs, n + 1)
  {
    PortableLoads(xs[n]);
  }

  lemma {:induction false} PortableRegister(xs: seq<Export>, n: nat) returns (a: Adapter)
    requires AllPortable(xs) && n <= |xs|
    ensures RegisterModule(xs, n) == Ok(a) && AllRegistered(a, xs, n)
  {
    if n == 0 {
      a := [];
    } else {
      var b := PortableRegister(xs, n - 1);
      RegisterOne(xs, n - 1, b);
      a := b + [Registered(xs[n - 1])];
    }
  }

  ghost predicate FixtureAgrees(ds: seq<PeFixture>, a: Adapter, fs: seq<Fixture>, j: nat)
    requires j < |ds| && j < |fs|
  {
    Agree(ds[j], a, fs[j])
  }

  ghost predicate SameModule(r: Result<seq<PeFixture>, LoadError>, a: Adapter, s: Result<seq<Fixture>, Hr>)
  {
    match (r, s)
    case (Ok(ds), Ok(fs)) => |ds| == |fs| && forall j :: 0 <= j < |ds| ==> FixtureAgrees(ds, a, fs, j)
    case (Err(e), Err(h)) => SameError(e, h)
    case _ => false
  }

  ghost predicate Rebuilds(x: Export, a: Adapter, j: nat)
    requires j < |a|
  {
    SameResult(Load(x), a, Expected(a[j], j))
  }

  lemma {:induction false} ModulesAgree(xs: seq<Export>, a: Adapter, n: nat)
    requires n <= |xs| == |a|
    requires forall j :: 0 <= j < n ==> Rebuilds(xs[j], a, j)
    ensures SameModule(LoadModule(xs, n), a, ExpectedModule(a, n))
  {
    if n > 0 {
      ModulesAgree(xs, a, n - 1);
      assert Rebuilds(xs[n - 1], a, n - 1);
      match (LoadModule(xs, n - 1), ExpectedModule(a, n - 1))
      case (Ok(ds), Ok(fs)) =>
        match (Load(xs[n - 1]), Expected(a[n - 1], n - 1)) {
          case (Ok(d), Ok(fx)) => ExtendAgrees(ds, d, a, fs, fx);
          case _ =>
        }
      case _ =>
    }
  }

  lemma ExtendAgrees(ds: seq<PeFixture>, d: PeFixture, a: Adapter, fs: seq<Fixture>, fx: Fixture)
    requires |ds| == |fs| && Agree(d, a, fx)
    requires forall j :: 0 <= j < |ds| ==> FixtureAgrees(ds, a, fs, j)
    ensures forall j :: 0 <= j < |ds + [d]| ==> FixtureAgrees(ds + [d], a, fs + [fx], j)
  {
    forall j | 0 <= j < |ds|
      ensures FixtureAgrees(ds + [d], a, fs + [fx], j)
    {
      assert FixtureAgrees(ds, a, fs, j);
    }
  }

  // From the exports of an image over the wire and back: whatever bytes describe the registered
  // fixtures, the fixtures rebuilt from them agree with those loaded directly, and so do the errors.
  lemma {:induction false} LoadersAgree(xs: seq<Export>, s: seq<byte>)
    requires AllPortable(xs) && |xs| < 0x1_0000
    requires RegisterModule(xs, |xs|).Ok? && ModuleWritten(s, RegisterModule(xs, |xs|).value)
    ensures ModuleReadable(s)
    ensures SameModule(LoadModule(xs, |xs|), RegisterModule(xs, |xs|).value, DecodeModule(s, U32At(s, 0)))
  {
    var a := PortableRegister(xs, |xs|);
    ModuleRoundTrip(s, a);
    forall j | 0 <= j < |xs|
      ensures Rebuilds(xs[j], a, j)
    {
      PortableLoads(xs[j]);
      FixturesAgree(a, j);
    }
    ModulesAgree(xs, a, |xs|);
  }
}
