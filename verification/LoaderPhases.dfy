/**
 What the entry types of include/cfixpe.h mean: which routine of a definition is called in which phase,
 which test cases there are, and which exports are accepted at all.
 */
module LoaderPhases {
  import opened Prelude
  import opened WireLayout
  import opened WireReader
  import opened WireRoundTrip
  import opened Loaders

  /* ---------------------------------------------------------------- user mode */

  // `r` is the address of an entry of type `kind`.
  ghost predicate Provides(entries: seq<Entry>, n: nat, kind: nat, r: nat)
    requires n <= |entries|
  {
    exists k :: 0 <= k < n && entries[k].kind == kind && entries[k].routine == r
  }

  lemma ProvidesStep(entries: seq<Entry>, n: nat, kind: nat, r: nat)
    requires n < |entries|
    ensures Provides(entries, n + 1, kind, r) <==>
              Provides(entries, n, kind, r) || (entries[n].kind == kind && entries[n].routine == r)
  {
  }

  // The fixture calls a routine in a phase exactly if it is the non-null one of that type.
  ghost predicate Calls(d: PeFixture, p: Phase, entries: seq<Entry>, n: nat, kind: nat)
    requires n <= |entries| && !p.TestPhase?
  {
    forall r: nat :: DirectCall(d, p) == Some(r) <==> r != 0 && Provides(entries, n, kind, r)
  }

  lemma CallsStep(d: PeFixture, p: Phase, entries: seq<Entry>, n: nat, kind: nat, d': PeFixture)
    requires n < |entries| && !p.TestPhase? && Calls(d, p, entries, n, kind)
    requires entries[n].kind == kind ==>
               && DirectCall(d, p) == None
               && DirectCall(d', p) == if entries[n].routine == 0 then None else Some(entries[n].routine)
    requires entries[n].kind != kind ==> DirectCall(d', p) == DirectCall(d, p)
    ensures Calls(d', p, entries, n + 1, kind)
  {
    forall r: nat
      ensures DirectCall(d', p) == Some(r) <==> r != 0 && Provides(entries, n + 1, kind, r)
    {
      ProvidesStep(entries, n, kind, r);
      assert DirectCall(d, p) == Some(r) <==> r != 0 && Provides(entries, n, kind, r);
    }
  }

  // In every accepted definition Setup is the entry of type 1, Teardown that of type 2, Before that of
  // type 4 and After that of type 5; a phase without a non-null entry calls nothing.
  lemma {:induction false} DirectPhases(name: seq<uint16>, entries: seq<Entry>, n: nat)
    requires n <= |entries| && AddRoutines(name, entries, n).Ok?
    ensures var d := AddRoutines(name, entries, n).value;
      && Calls(d, SetupPhase, entries, n, 1) && Calls(d, TeardownPhase, entries, n, 2)
      && Calls(d, BeforePhase, entries, n, 4) && Calls(d, AfterPhase, entries, n, 5)
  {
    if n > 0 {
      DirectPhases(name, entries, n - 1);
      var d, d' := AddRoutines(name, entries, n - 1).value, AddRoutines(name, entries, n).value;
      CallsStep(d, SetupPhase, entries, n - 1, 1, d');
      CallsStep(d, TeardownPhase, entries, n - 1, 2, d');
      CallsStep(d, BeforePhase, entries, n - 1, 4, d');
      CallsStep(d, AfterPhase, entries, n - 1, 5, d');
    }
  }

  // The positions of the test cases, the entries of type 3
  function TestPositions(entries: seq<Entry>, n: nat): seq<nat>
    requires n <= |entries|
  {
    if n == 0 then []
    else if entries[n - 1].kind == 3 then TestPositions(entries, n - 1) + [n - 1]
    else TestPositions(entries, n - 1)
  }

  // They are exactly the positions of these entries, in order.
  lemma {:induction false} TestPositionsAre(entries: seq<Entry>, n: nat)
    requires n <= |entries|
    ensures forall k :: k in TestPositions(entries, n) <==> 0 <= k < n && entries[k].kind == 3
    ensures forall t, u :: 0 <= t < u < |TestPositions(entries, n)| ==>
              TestPositions(entries, n)[t] < TestPositions(entries, n)[u]
  {
    if n > 0 {
      TestPositionsAre(entries, n - 1);
      var before := TestPositions(entries, n - 1);
      forall t | 0 <= t < |before|
        ensures before[t] < n - 1
      {
        assert before[t] in before;
      }
    }
  }

  // Test case `t` has the name and the address of the `t`-th such entry.
  ghost predicate TestsAre(tests: seq<PeTest>, entries: seq<Entry>, at: seq<nat>)
  {
    && |tests| == |at|
    && forall t :: 0 <= t < |at| ==>
         at[t] < |entries| && tests[t] == PeTest(UntilNul(entries[at[t]].name), entries[at[t]].routine)
  }

  lemma TestsAreStep(d: PeFixture, entries: seq<Entry>, n: nat)
    requires n < |entries| && TestsAre(d.tests, entries, TestPositions(entries, n)) && AddRoutine(d, entries[n]).Ok?
    ensures TestsAre(AddRoutine(d, entries[n]).value.tests, entries, TestPositions(entries, n + 1))
  {
  }

  // In every accepted definition the test cases are the entries of type 3, in order.
  lemma {:induction false} DirectTests(name: seq<uint16>, entries: seq<Entry>, n: nat)
    requires n <= |entries| && AddRoutines(name, entries, n).Ok?
    ensures var d := AddRoutines(name, entries, n).value;
      d.name == name && TestsAre(d.tests, entries, TestPositions(entries, n))
  {
    if n > 0 {
      DirectTests(name, entries, n - 1);
      TestsAreStep(AddRoutines(name, entries, n - 1).value, entries, n - 1);
    }
  }

  lemma DirectTestCalls(d: PeFixture, entries: seq<Entry>, at: seq<nat>, t: nat)
    requires TestsAre(d.tests, entries, at) && t < |at|
    ensures DirectCall(d, TestPhase(t)) == Some(entries[at[t]].routine)
  {
  }

  /* ---------------------------------------------------------------- kernel mode */

  // The driver is called in a phase exactly if there is an entry of that type, and then calls it.
  ghost predicate DriverCalls(a: Adapter, fx: Fixture, p: Phase, entries: seq<Entry>, kind: nat)
    requires !p.TestPhase?
  {
    forall r: nat :: DriverCall(a, fx, p) == Some(Some(r)) <==> Provides(entries, |entries|, kind, r)
  }

  lemma DriverPhase(a: Adapter, j: nat, fx: Fixture, p: Phase, kind: nat, tag: nat)
    requires j < |a| < 0x1_0000 && |a[j].entries| < 0x1_0000 && NarrowKinds(a[j]) && WellTyped(a[j], |a[j].entries|)
    requires fx.key == j && TagFor(tag, a[j], |a[j].entries|, kind) && kind != TESTCASE && !p.TestPhase?
    requires KeysOf(fx, p) == if tag == 0 then None else Some((j, RoutineKey(tag)))
    ensures DriverCalls(a, fx, p, a[j].entries, kind)
  {
    var entries := a[j].entries;
    forall k | 0 <= k < |entries|
      ensures WireKind(entries[k]) == entries[k].kind
    {
    }
    if Has(a[j], |entries|, kind) {
      var k :| 0 <= k < |entries| && WireKind(entries[k]) == kind && tag == Tag(k);
      assert DriverCall(a, fx, p) == Some(Some(entries[k].routine));
      assert Provides(entries, |entries|, kind, entries[k].routine);
      forall l | 0 <= l < |entries| && entries[l].kind == kind
        ensures l == k
      {
        assert WireKind(entries[l]) == WireKind(entries[k]);
      }
    } else {
      assert DriverCall(a, fx, p) == None;
      forall l | 0 <= l < |entries|
        ensures entries[l].kind != kind
      {
        assert WireKind(entries[l]) != kind;
      }
    }
  }

  // Whatever tag a rebuilt fixture has, testing the presence bit and testing the whole tag agree.
  lemma TagPresent(tag: nat, f: AdapterFixture, n: nat, kind: nat)
    requires n <= |f.entries| < 0x1_0000 && TagFor(tag, f, n, kind)
    ensures Present(tag) <==> tag != 0
  {
    if Has(f, n, kind) {
      var k :| 0 <= k < n && WireKind(f.entries[k]) == kind && tag == Tag(k);
    }
  }

  // The same phases and numbers for every fixture that the kernel-mode pipeline rebuilds.
  lemma DriverPhases(a: Adapter, j: nat)
    requires j < |a| && Deliverable(a, j) && NarrowKinds(a[j]) && Expected(a[j], j).Ok?
    ensures var fx := Expected(a[j], j).value;
      && DriverCalls(a, fx, SetupPhase, a[j].entries, 1) && DriverCalls(a, fx, TeardownPhase, a[j].entries, 2)
      && DriverCalls(a, fx, BeforePhase, a[j].entries, 4) && DriverCalls(a, fx, AfterPhase, a[j].entries, 5)
  {
    var f, fx := a[j], Expected(a[j], j).value;
    ExpectedShape(f, j, |f.entries|);
    TagPresent(fx.teardown, f, |f.entries|, TEARDOWN);
    TagPresent(fx.before, f, |f.entries|, BEFORE);
    TagPresent(fx.after, f, |f.entries|, AFTER);
    DriverPhase(a, j, fx, SetupPhase, 1, fx.setup);
    DriverPhase(a, j, fx, TeardownPhase, 2, fx.teardown);
    DriverPhase(a, j, fx, BeforePhase, 4, fx.before);
    DriverPhase(a, j, fx, AfterPhase, 5, fx.after);
  }

  ghost predicate DriverTestsAre(a: Adapter, fx: Fixture, entries: seq<Entry>, at: seq<nat>)
  {
    && |fx.tests| == |at|
    && forall t :: 0 <= t < |at| ==>
         && at[t] < |entries| && fx.tests[t].name == UntilNul(entries[at[t]].name)
         && DriverCall(a, fx, TestPhase(t)) == Some(Some(entries[at[t]].routine))
  }

  lemma {:induction false} TestsOfAre(f: AdapterFixture, n: nat)
    requires n <= |f.entries| && NarrowKinds(f)
    ensures |TestsOf(f, n)| == |TestPositions(f.entries, n)|
    ensures forall t :: 0 <= t < |TestsOf(f, n)| ==>
              && TestPositions(f.entries, n)[t] < n
              && TestsOf(f, n)[t] == TestCase(UntilNul(f.entries[TestPositions(f.entries, n)[t]].name),
                                              TestPositions(f.entries, n)[t])
  {
    if n > 0 {
      TestsOfAre(f, n - 1);
      assert WireKind(f.entries[n - 1]) == f.entries[n - 1].kind;
    }
  }

  lemma DriverTest(a: Adapter, j: nat, fx: Fixture, t: nat, k: nat)
    requires j < |a| < 0x1_0000 && k < |a[j].entries| < 0x1_0000 && fx.key == j
    requires t < |fx.tests| && fx.tests[t].routine == k
    ensures DriverCall(a, fx, TestPhase(t)) == Some(Some(a[j].entries[k].routine))
  {
  }

  lemma DriverTests(a: Adapter, j: nat)
    requires j < |a| && Deliverable(a, j) && NarrowKinds(a[j]) && Expected(a[j], j).Ok?
    ensures var fx := Expected(a[j], j).value;
      fx.name == UntilNul(a[j].name) && DriverTestsAre(a, fx, a[j].entries, TestPositions(a[j].entries, |a[j].entries|))
  {
    var fx, at := Expected(a[j], j).value, TestPositions(a[j].entries, |a[j].entries|);
    ExpectedShape(a[j], j, |a[j].entries|);
    TestsOfAre(a[j], |a[j].entries|);
    forall t | 0 <= t < |at|
      ensures fx.tests[t].name == UntilNul(a[j].entries[at[t]].name)
      ensures DriverCall(a, fx, TestPhase(t)) == Some(Some(a[j].entries[at[t]].routine))
    {
      DriverTest(a, j, fx, t, at[t]);
    }
  }

  /* ---------------------------------------------------------------- the errors of rejected entries */

  // The entry at which user mode gives up decides the error, by its number.
  lemma DirectErrors(f: AdapterFixture, n: nat)
    requires DirectRejectsAt(f, n)
    ensures DirectOf(f) == Err(match f.entries[n].kind
                               case 1 => DuplicateSetup
                               case 2 => DuplicateTeardown
                               case 4 => DuplicateBefore
                               case 5 => DuplicateAfter
                               case _ => UnknownEntryType)
    ensures f.entries[n].kind != 3
  {
    DirectRejection(f, UntilNul(f.name), n);
    NoneRepeatedStep(f.entries, n);
  }

  lemma DriverErrors(f: AdapterFixture, j: nat, m: nat)
    requires |f.entries| < 0x1_0000 && NarrowKinds(f) && DriverRejectsAt(f, m)
    ensures ExpectedEntries(f, j, |f.entries|) == Err(match f.entries[m].kind
                                                      case 1 => DupSetup
                                                      case 2 => DupTeardown
                                                      case 4 => DupBefore
                                                      case 5 => DupAfter
                                                      case _ => InvalidReflectorResponse)
    ensures f.entries[m].kind != 3
  {
    DriverRejection(f, j, m);
    WellTypedStep(f, m);
    assert WireKind(f.entries[m]) == f.entries[m].kind;
  }

  /* ---------------------------------------------------------------- which exports are accepted */

  // Of the entries all types are numbers from 1 to 5, and no entry of a type other than 3 follows a
  // non-null one of its type.
  ghost predicate InOrder(entries: seq<Entry>)
  {
    && (forall k :: 0 <= k < |entries| ==> 1 <= entries[k].kind <= 5)
    && (forall k, l :: 0 <= k < l < |entries| && entries[k].kind == entries[l].kind && entries[k].kind != 3 ==>
          entries[k].routine == 0)
  }

  lemma InOrderIff(entries: seq<Entry>)
    ensures InOrder(entries) <==> KindsKnown(entries, |entries|) && NoneRepeated(entries, |entries|)
  {
    if InOrder(entries) {
      forall k | 0 <= k < |entries|
        ensures KnownKind(entries[k].kind)
      {
      }
    } else if KindsKnown(entries, |entries|) && NoneRepeated(entries, |entries|) {
      forall k | 0 <= k < |entries|
        ensures 1 <= entries[k].kind <= 5
      {
        assert KnownKind(entries[k].kind);
      }
    }
  }

  // User mode makes a fixture of an export if and only if its routine returns a definition with an API
  // type from 1 to 4, revision 0 and at most the flag for anonymous threads, its name has at most 127
  // characters, and its entries are in order.
  lemma LoadAcceptsIff(x: Export)
    ensures Load(x).Ok? <==>
              && x.definition.Some?
              && 1 <= x.definition.value.apiType <= 4 && x.definition.value.revision == 0
              && (x.definition.value.flags == 0 || x.definition.value.flags == 1)
              && |UntilNul(x.name)| <= 127
              && InOrder(x.definition.value.entries)
  {
    if x.definition.Some? {
      var entries := x.definition.value.entries;
      DirectAccepts(Unmangled(UntilNul(x.name)), entries, |entries|);
      InOrderIff(entries);
    }
  }

  // The reason for a refusal is the first of these conditions that does not hold, in this order.
  lemma LoadRefuses(x: Export)
    ensures Load(x) == Err(MisbehavedGetTcRoutine) <==> x.definition == None
    ensures Load(x) == Err(UnsupportedVersion) <==>
              x.definition.Some? && !(1 <= x.definition.value.apiType <= 4)
    ensures Load(x) == Err(FixtureNameTooLong) <==>
              x.definition.Some? && 1 <= x.definition.value.apiType <= 4 && |UntilNul(x.name)| > 127
    ensures Load(x) == Err(UnsupportedRevision) <==>
              && x.definition.Some? && 1 <= x.definition.value.apiType <= 4 && |UntilNul(x.name)| <= 127
              && x.definition.value.revision != 0
    ensures Load(x) == Err(InvalidFixtureFlag) <==>
              && x.definition.Some? && 1 <= x.definition.value.apiType <= 4 && |UntilNul(x.name)| <= 127
              && x.definition.value.revision == 0 && x.definition.value.flags > 1
  {
    if x.definition.Some? {
      EntryErrors(Unmangled(UntilNul(x.name)), x.definition.value.entries, |x.definition.value.entries|);
    }
  }

  // An entry is never the reason for any of them.
  lemma {:induction false} EntryErrors(name: seq<uint16>, entries: seq<Entry>, n: nat)
    requires n <= |entries|
    ensures AddRoutines(name, entries, n).Err? ==>
              AddRoutines(name, entries, n).error in
                {UnknownEntryType, DuplicateSetup, DuplicateTeardown, DuplicateBefore, DuplicateAfter}
  {
    if n > 0 {
      EntryErrors(name, entries, n - 1);
    }
  }

  // The driver registers an export if and only if its routine returns a definition of API type 1 with
  // no flags and revision 0, and its name has at most 127 characters; a long name is noticed first.
  lemma RegisterAcceptsIff(x: Export)
    ensures Register(x).Ok? <==>
              && |UntilNul(x.name)| <= 127 && x.definition.Some?
              && x.definition.value.apiType == 1 && x.definition.value.flags == 0 && x.definition.value.revision == 0
    ensures Register(x) == Err(StatusBufferOverflow) <==> |UntilNul(x.name)| > 127
    ensures Register(x).Ok? ==>
              Register(x).value == AdapterFixture(Unmangled(UntilNul(x.name)), x.definition.value.entries)
  {
  }
}
