/**
 The storage of a test (cfix/cfix/tls.c): two slots of the current filament, carried from one routine
 to the next through two slots of the main thread (cfix/cfix/filament.c, cfix/cfix/pe.c).
 */
module TestStorage {
  import opened Prelude
  import opened Execution
  import opened ExecutionGrammar
  import ExecutionFlags
  import FilamentTables

  // A pointer; 0 is NULL
  type Value = nat

  datatype Slots = Slots(default: Value, cc: Value)

  const Empty: Slots := Slots(0, 0)

  const CFIX_TAG_RESERVED_FOR_CC: nat := 0xFFFF_FFFF

  function SetSlot(s: Slots, tag: nat, v: Value): Slots
  {
    if tag == CFIX_TAG_RESERVED_FOR_CC then s.(cc := v) else if tag == 0 then s.(default := v) else s
  }

  function GetSlot(s: Slots, tag: nat): Value
  {
    if tag == CFIX_TAG_RESERVED_FOR_CC then s.cc else if tag == 0 then s.default else 0
  }

  // Of all tags 0 and 0xFFFFFFFF have a slot: reading one gives what was stored last, and storing one
  // leaves the other alone.  Other tags cannot be stored and read as null.
  lemma ReadsLastStored(s: Slots, tag: nat, v: Value, other: nat)
    ensures GetSlot(SetSlot(s, tag, v), tag) == if tag == 0 || tag == 0xFFFF_FFFF then v else 0
    ensures other != tag ==> GetSlot(SetSlot(s, tag, v), other) == GetSlot(s, other)
    ensures GetSlot(Empty, tag) == 0
    ensures (forall k :: GetSlot(s, k) == GetSlot(SetSlot(s, tag, v), k)) ==> SetSlot(s, tag, v) == s
  {
    assert GetSlot(s, 0) == s.default && GetSlot(s, 0xFFFF_FFFF) == s.cc;
    assert GetSlot(SetSlot(s, tag, v), 0) == SetSlot(s, tag, v).default;
    assert GetSlot(SetSlot(s, tag, v), 0xFFFF_FFFF) == SetSlot(s, tag, v).cc;
  }

  // How a routine ends
  datatype Ending = Returned | Raised | AbortRequested

  // What a routine and its child threads did, in order: they use the storage of the filament, and
  // the routine may run other routines in the same way
  datatype Body =
    | End(ending: Ending)
    | Set(tag: nat, value: Value, rest: Body)
    | Get(tag: nat, rest: Body)
    | Nest(inner: Body, restore: bool, rest: Body)

  function HrOf(e: Ending): Hr
  {
    match e
    case Returned => Success
    case Raised => TestRoutineFailed
    case AbortRequested => TestrunAborted
  }

  // What the body read, and the storage of the filament when it ended
  datatype Exit = Exit(ending: Ending, seen: seq<Value>, cell: Slots)

  // Nested routines have storage of their own.
  function Exec(b: Body, cell: Slots): Exit
  {
    match b
    case End(e) => Exit(e, [], cell)
    case Set(tag, v, rest) => Exec(rest, SetSlot(cell, tag, v))
    case Get(tag, rest) =>
      var x := Exec(rest, cell);
      x.(seen := [GetSlot(cell, tag)] + x.seen)
    case Nest(_, _, rest) => Exec(rest, cell)
  }

  // The end of the routine itself, whatever nested routines did
  function EndingOf(b: Body): Ending
  {
    match b
    case End(e) => e
    case Set(_, _, rest) => EndingOf(rest)
    case Get(_, rest) => EndingOf(rest)
    case Nest(_, _, rest) => EndingOf(rest)
  }

  lemma {:induction false} ExecEnds(b: Body, cell: Slots)
    ensures Exec(b, cell).ending == EndingOf(b)
  {
    match b
    case End(_) =>
    case Set(tag, v, rest) => ExecEnds(rest, SetSlot(cell, tag, v));
    case Get(_, rest) => ExecEnds(rest, cell);
    case Nest(_, _, rest) => ExecEnds(rest, cell);
  }

  // The body stores nothing under the tag before the next read of it.
  predicate ReadsNext(b: Body, tag: nat)
  {
    match b
    case End(_) => false
    case Set(other, _, rest) => other != tag && ReadsNext(rest, tag)
    case Get(other, rest) => other == tag
    case Nest(_, _, rest) => ReadsNext(rest, tag)
  }

  // The next read of a tag that has a slot gives the value stored last, whatever is stored under other
  // tags and by nested routines in between.
  lemma {:induction false} NextReadSees(b: Body, cell: Slots, tag: nat)
    requires ReadsNext(b, tag)
    ensures Exec(b, cell).seen != [] && Exec(b, cell).seen[0] == GetSlot(cell, tag)
  {
    match b
    case Set(other, v, rest) =>
      ReadsLastStored(cell, other, v, tag);
      NextReadSees(rest, SetSlot(cell, other, v), tag);
    case Get(_, _) =>
    case Nest(_, _, rest) => NextReadSees(rest, cell, tag);
  }

  function StartOf(restore: bool, saved: Slots): Slots
  {
    if restore then saved else Empty
  }

  /* ---------------------------------------------------------------- the code */

  // CFIXP_FILAMENT.Storage
  class Filament {
    var default: Value
    var cc: Value

    constructor ()
      ensures Storage() == Empty
    {
      default, cc := 0, 0;
    }

    ghost function Storage(): Slots
      reads this
    {
      Slots(default, cc)
    }
  }

  // The main thread: the slots for the storage and the slot for the filament
  class MainThread {
    var savedDefault: Value
    var savedCc: Value
    var current: Filament?

    constructor ()
      ensures Saved() == Empty && current == null
    {
      savedDefault, savedCc, current := 0, 0, null;
    }

    ghost function Saved(): Slots
      reads this
    {
      Slots(savedDefault, savedCc)
    }

    // CfixPeSetValue; without a current filament nothing happens.
    method SetValue(tag: nat, v: Value)
      modifies current
      ensures current != null ==> current.Storage() == SetSlot(old(current.Storage()), tag, v)
    {
      if current == null {
        return;
      }
      if tag == CFIX_TAG_RESERVED_FOR_CC {
        current.cc := v;
      } else if tag == 0 {
        current.default := v;
      }
    }

    // CfixPeGetValue; without a current filament the value is null.
    method GetValue(tag: nat) returns (v: Value)
      ensures v == if current == null then 0 else GetSlot(current.Storage(), tag)
    {
      if current == null {
        return 0;
      }
      if tag == CFIX_TAG_RESERVED_FOR_CC {
        return current.cc;
      } else if tag == 0 {
        return current.default;
      }
      return 0;
    }

    // The call of a routine
    method Execute(b: Body) returns (ending: Ending, seen: seq<Value>)
      requires current != null
      modifies this, current
      ensures current == old(current)
      ensures Exit(ending, seen, current.Storage()) == Exec(b, old(current.Storage()))
      decreases b, 0
    {
      match b
      case End(e) =>
        ending, seen := e, [];
      case Set(tag, v, rest) =>
        SetValue(tag, v);
        ending, seen := Execute(rest);
      case Get(tag, rest) =>
        var v := GetValue(tag);
        ending, seen := Execute(rest);
        seen := [v] + seen;
      case Nest(inner, restore, rest) =>
        var hr := RunTestRoutine(inner, restore);
        ending, seen := Execute(rest);
    }

    // CfixsRunTestRoutine with CfixpInitializeFilament and CfixpDestroyFilament
    method RunTestRoutine(b: Body, restore: bool) returns (hr: Hr)
      modifies this
      ensures current == old(current)
      ensures var x := Exec(b, StartOf(restore, old(Saved()))); hr == HrOf(x.ending) && Saved() == x.cell
      decreases b, 1
    {
      var filament := CreateFilament(restore);
      var previous := current;
      current := filament;
      var ending, seen := Execute(b);
      current := previous;
      DestroyFilament(filament);
      hr := HrOf(ending);
    }

    // CfixpInitializeFilament
    method CreateFilament(restore: bool) returns (filament: Filament)
      ensures fresh(filament) && filament.Storage() == StartOf(restore, Saved())
    {
      filament := new Filament();
      if restore {
        filament.default, filament.cc := savedDefault, savedCc;
      }
    }

    // CfixpDestroyFilament
    method DestroyFilament(filament: Filament)
      modifies this`savedDefault, this`savedCc
      ensures Saved() == filament.Storage()
    {
      savedDefault, savedCc := filament.default, filament.cc;
    }

    // CfixsRunSetupTestModule, ...Before..., ...TestCase..., ...After..., ...Teardown...
    method RunPhase(e: Event, routine: Option<Routine>) returns (hr: Hr)
      requires IsRoutine(e)
      modifies this
      ensures current == old(current)
      ensures hr == PhaseHr(e, routine, old(Saved())) && Saved() == AfterPhase(e, routine, old(Saved()))
    {
      if routine.None? {
        return if e.Test? then Fatal(E_UNEXPECTED) else Success;
      }
      var restore := e.Test? || e.After?;
      if routine.value.refusal.Some? {
        var filament := CreateFilament(restore);
        DestroyFilament(filament);
        return Fatal(routine.value.refusal.value);
      }
      hr := RunTestRoutine(routine.value.body, restore);
      if hr == TestRoutineFailed {
        match e
        case Setup(_) => hr := SetupRoutineFailed;
        case Teardown(_) => hr := TeardownRoutineFailed;
        case Before(_, _) => hr := BeforeRoutineFailed;
        case After(_, _) => hr := AfterRoutineFailed;
        case _ =>
      }
    }
  }

  const E_UNEXPECTED: nat := 0x8000_FFFF

  /* ---------------------------------------------------------------- a phase of a fixture */

  predicate Restores(e: Event) { e.Test? || e.After? }

  // A routine of the fixture; `refusal` is the error if the filament cannot be installed for it.
  datatype Routine = Routine(body: Body, refusal: Option<nat>)

  function PhaseHr(e: Event, routine: Option<Routine>, saved: Slots): Hr
    requires IsRoutine(e)
  {
    match routine
    case None => if e.Test? then Fatal(E_UNEXPECTED) else Success
    case Some(Routine(_, Some(code))) => Fatal(code)
    case Some(Routine(b, None)) =>
      match Exec(b, StartOf(Restores(e), saved)).ending
      case Returned => Success
      case AbortRequested => TestrunAborted
      case Raised =>
        match e
        case Setup(_) => SetupRoutineFailed
        case Teardown(_) => TeardownRoutineFailed
        case Before(_, _) => BeforeRoutineFailed
        case After(_, _) => AfterRoutineFailed
        case _ => TestRoutineFailed
  }

  // The storage that a phase leaves to the next one
  function AfterPhase(e: Event, routine: Option<Routine>, saved: Slots): Slots
  {
    match routine
    case None => saved
    case Some(Routine(_, Some(_))) => StartOf(Restores(e), saved)
    case Some(Routine(b, None)) => Exec(b, StartOf(Restores(e), saved)).cell
  }

  // A phase with a routine that can be run fails if and only if the routine does not return normally:
  // an abort is passed on, and everything else gets the code of the phase.
  lemma PhaseFailsIff(e: Event, routine: Routine, saved: Slots)
    requires IsRoutine(e) && routine.refusal == None
    ensures var hr, ending := PhaseHr(e, Some(routine), saved), EndingOf(routine.body);
      && (Failed(hr) <==> ending != Returned)
      && (ending == AbortRequested ==> hr == TestrunAborted)
      && (ending == Raised && e.Setup? ==> hr == SetupRoutineFailed)
      && (ending == Raised && e.Before? ==> hr == BeforeRoutineFailed)
      && (ending == Raised && e.Test? ==> hr == TestRoutineFailed)
      && (ending == Raised && e.After? ==> hr == AfterRoutineFailed)
      && (ending == Raised && e.Teardown? ==> hr == TeardownRoutineFailed)
  {
    ExecEnds(routine.body, StartOf(Restores(e), saved));
  }

  // Of the phases without a routine only a test case fails; a routine that is refused fails with the
  // reason.
  lemma PhaseNotRun(e: Event, routine: Option<Routine>, saved: Slots)
    requires IsRoutine(e) && (routine.Some? ==> routine.value.refusal.Some?)
    ensures PhaseHr(e, routine, saved) ==
              if routine.Some? then Fatal(routine.value.refusal.value)
              else if e.Test? then Fatal(0x8000_FFFF)
              else Success
  {
  }

  /* ---------------------------------------------------------------- storage over a run */

  // The routine of every phase, or None if there is none
  type Routines = Event -> Option<Routine>

  // The slots of the main thread after the first `n` calls of a run
  function SavedAfter(rs: Routines, s0: Slots, w: seq<Event>, n: nat): Slots
    requires n <= |w|
  {
    if n == 0 then s0
    else if IsRoutine(w[n - 1]) then AfterPhase(w[n - 1], rs(w[n - 1]), SavedAfter(rs, s0, w, n - 1))
    else SavedAfter(rs, s0, w, n - 1)
  }

  // The routines have the results that the run is based on.
  ghost predicate Actual(o: Oracle, rs: Routines, s0: Slots, w: seq<Event>)
  {
    forall j :: 0 <= j < |w| && IsRoutine(w[j]) ==> o(w[j]) == PhaseHr(w[j], rs(w[j]), SavedAfter(rs, s0, w, j))
  }

  // Nothing but a routine can fail: callbacks succeed, no filament is refused, test cases have routines.
  ghost predicate OnlyRoutinesFail(o: Oracle, rs: Routines, w: seq<Event>)
  {
    forall i :: 0 <= i < |w| ==>
      if IsRoutine(w[i]) then
        (rs(w[i]).Some? ==> rs(w[i]).value.refusal == None) && (w[i].Test? ==> rs(w[i]).Some?)
      else
        HasResult(w[i]) ==> o(w[i]) == Success
  }

  // The routine that is called there does not return normally.
  ghost predicate BreaksOff(rs: Routines, w: seq<Event>, i: nat)
  {
    i < |w| && IsRoutine(w[i]) && rs(w[i]).Some? && EndingOf(rs(w[i]).value.body) != Returned
  }

  // In such a run a routine fails if and only if it does not return normally.
  lemma CallFailsIff(o: Oracle, rs: Routines, s0: Slots, w: seq<Event>, i: nat)
    requires i < |w| && Actual(o, rs, s0, w) && OnlyRoutinesFail(o, rs, w)
    ensures ExecutionFlags.FailedIn(o)(w[i]) <==> BreaksOff(rs, w, i)
  {
    if IsRoutine(w[i]) {
      if rs(w[i]).Some? {
        PhaseFailsIff(w[i], rs(w[i]).value, SavedAfter(rs, s0, w, i));
      } else {
        PhaseNotRun(w[i], None, SavedAfter(rs, s0, w, i));
      }
    }
  }

  // With SHORTCIRCUIT_RUN_ON_FAILURE such a run fails if and only if some routine that was called did
  // not return normally.
  lemma RunFailsIff(o: Oracle, actions: seq<Action>, rs: Routines, s0: Slots)
    requires forall f :: 0 <= f < |actions| ==> actions[f].flags == ExecutionFlags.RUN_ON_FAILURE
    requires Actual(o, rs, s0, RunSequence(o, actions, |actions|).trace)
    requires OnlyRoutinesFail(o, rs, RunSequence(o, actions, |actions|).trace)
    ensures var r := RunSequence(o, actions, |actions|);
      Failed(r.hr) <==> exists i :: BreaksOff(rs, r.trace, i)
  {
    var w := RunSequence(o, actions, |actions|).trace;
    ExecutionFlags.RunOnFailureIff(o, actions);
    forall i | 0 <= i < |w|
      ensures ExecutionFlags.FailedIn(o)(w[i]) <==> BreaksOff(rs, w, i)
    {
      CallFailsIff(o, rs, s0, w, i);
    }
  }

  // The storage with which routine `w[i]` starts
  function StartAt(rs: Routines, s0: Slots, w: seq<Event>, i: nat): Slots
    requires i < |w|
  {
    StartOf(Restores(w[i]), SavedAfter(rs, s0, w, i))
  }

  lemma PrecededBy(o: Oracle, w: seq<Event>, i: nat)
    requires i < |w| && Drive(o, w).Some?
    ensures w[i].Test? ==> i > 0 && w[i - 1] == Before(w[i].f, w[i].t)
    ensures w[i].After? ==> i > 0 && w[i - 1] == Test(w[i].f, w[i].t)
  {
    AcceptedTo(o, w, i + 1, |w|);
    if w[i].Test? {
      assert DriveTo(o, w, i) == Some(Prepared(w[i].f, w[i].t));
    } else if w[i].After? {
      assert DriveTo(o, w, i) == Some(Tested(w[i].f, w[i].t));
    }
  }

  // A routine that can be run
  predicate Runs(routine: Option<Routine>)
  {
    routine.Some? && routine.value.refusal.None?
  }

  // What a routine that can be run leaves behind when it starts with `cell`
  function Leaves(routine: Option<Routine>, cell: Slots): Slots
    requires Runs(routine)
  {
    Exec(routine.value.body, cell).cell
  }

  lemma TestStart(rs: Routines, s0: Slots, w: seq<Event>, i: nat)
    requires 0 < i < |w| && w[i].Test? && w[i - 1] == Before(w[i].f, w[i].t) && Runs(rs(w[i - 1]))
    ensures StartAt(rs, s0, w, i) == SavedAfter(rs, s0, w, i) == Leaves(rs(w[i - 1]), Empty)
  {
  }

  lemma AfterStart(rs: Routines, s0: Slots, w: seq<Event>, i: nat)
    requires 1 < i < |w| && w[i].After? && w[i - 1] == Test(w[i].f, w[i].t) && w[i - 2] == Before(w[i].f, w[i].t)
    requires Runs(rs(w[i - 1])) && Runs(rs(w[i - 2]))
    ensures StartAt(rs, s0, w, i) == Leaves(rs(w[i - 1]), Leaves(rs(w[i - 2]), Empty))
  {
    TestStart(rs, s0, w, i - 1);
  }

  // In every run of a sequence, whatever the thread has stored before and whatever all other routines
  // do: Setup, Before and Teardown start with empty storage, a test case with what Before makes of
  // empty storage, and After with what the test case makes of that.
  lemma {:induction false} StorageVisibility(o: Oracle, actions: seq<Action>, rs: Routines, s0: Slots, i: nat)
    requires i < |RunSequence(o, actions, |actions|).trace|
    ensures var w := RunSequence(o, actions, |actions|).trace; var e := w[i];
      && (e.Setup? || e.Before? || e.Teardown? ==> StartAt(rs, s0, w, i) == Empty)
      && (e.Test? && Runs(rs(Before(e.f, e.t))) ==>
            StartAt(rs, s0, w, i) == Leaves(rs(Before(e.f, e.t)), Empty))
      && (e.After? && Runs(rs(Before(e.f, e.t))) && Runs(rs(Test(e.f, e.t))) ==>
            StartAt(rs, s0, w, i) == Leaves(rs(Test(e.f, e.t)), Leaves(rs(Before(e.f, e.t)), Empty)))
  {
    var w := RunSequence(o, actions, |actions|).trace;
    SequenceGrammar(o, actions);
    PrecededBy(o, w, i);
    if w[i].Test? && Runs(rs(w[i - 1])) {
      TestStart(rs, s0, w, i);
    } else if w[i].After? {
      PrecededBy(o, w, i - 1);
      if Runs(rs(w[i - 1])) && Runs(rs(w[i - 2])) {
        AfterStart(rs, s0, w, i);
      }
    }
  }

  // As long as the run is the same, the storage with which test case `w[i]` starts does not depend on
  // any routine but Before.
  ghost predicate SeesOnlyBefore(o: Oracle, rs: Routines, s0: Slots, w: seq<Event>, i: nat)
    requires i < |w| && w[i].Test?
  {
    forall rs': Routines ::
      Actual(o, rs', s0, w) && rs'(Before(w[i].f, w[i].t)) == rs(Before(w[i].f, w[i].t)) ==>
        StartAt(rs', s0, w, i) == StartAt(rs, s0, w, i)
  }

  /* ---------------------------------------------------------------- routines that leave a value behind */

  // A routine that stores `v` and has the result `hr`
  function Storing(v: Value, hr: Hr): Routine
  {
    match hr
    case Success => Routine(Set(0, v, End(Returned)), None)
    case TestrunAborted => Routine(Set(0, v, End(AbortRequested)), None)
    case Fatal(code) => Routine(Set(0, v, End(Returned)), Some(code))
    case _ => Routine(Set(0, v, End(Raised)), None)
  }

  // Whatever result a phase can have, such a routine can have it.
  lemma StoringActs(e: Event, routine: Option<Routine>, cell: Slots, v: Value, saved: Slots)
    requires IsRoutine(e)
    ensures PhaseHr(e, Some(Storing(v, PhaseHr(e, routine, cell))), saved) == PhaseHr(e, routine, cell)
    ensures AfterPhase(e, Some(Storing(v, PhaseHr(e, routine, cell))), saved).default ==
              if PhaseHr(e, routine, cell).Fatal? then StartOf(Restores(e), saved).default else v
  {
    var hr := PhaseHr(e, routine, cell);
    var start := StartOf(Restores(e), saved);
    forall ending
      ensures Exec(Set(0, v, End(ending)), start) == Exit(ending, [], start.(default := v))
    {
      assert Exec(End(ending), SetSlot(start, 0, v)) == Exit(ending, [], start.(default := v));
    }
  }

  // Test case `t` of fixture `f` has no Before routine, all others store `v`.
  function AllStore(o: Oracle, f: nat, t: nat, v: Value): Routines
  {
    (e: Event) => if e == Before(f, t) then None else Some(Storing(v, o(e)))
  }

  lemma AllStoreActual(o: Oracle, rs: Routines, s0: Slots, w: seq<Event>, f: nat, t: nat, v: Value)
    requires Actual(o, rs, s0, w) && rs(Before(f, t)) == None
    ensures Actual(o, AllStore(o, f, t, v), s0, w)
  {
    var rs' := AllStore(o, f, t, v);
    forall j | 0 <= j < |w| && IsRoutine(w[j])
      ensures o(w[j]) == PhaseHr(w[j], rs'(w[j]), SavedAfter(rs', s0, w, j))
    {
      StoringActs(w[j], rs(w[j]), SavedAfter(rs, s0, w, j), v, SavedAfter(rs', s0, w, j));
    }
  }

  // A test case that has been finished did not fail fatally.
  predicate MildCall(o: Oracle, e: Event)
  {
    e.AfterTestCaseFinish? ==> !Lethal(TestResult(o, e.f, e.t))
  }

  ghost predicate Mild(o: Oracle, w: seq<Event>)
  {
    forall i :: 0 <= i < |w| ==> MildCall(o, w[i])
  }

  lemma MildOne(o: Oracle, w: seq<Event>, e: Event)
    requires Mild(o, w) && MildCall(o, e)
    ensures Mild(o, w + [e])
  {
  }

  lemma AddTestMild(o: Oracle, flags: Flags, f: nat, t: nat, p: Loop)
    requires Mild(o, p.trace)
    ensures Mild(o, AddTest(o, flags, f, t, p).trace)
  {
    var start := p.trace + [BeforeTestCaseStart(f, t)];
    MildOne(o, p.trace, BeforeTestCaseStart(f, t));
    MildOne(o, start, Before(f, t));
    MildOne(o, start + [Before(f, t)], Test(f, t));
    MildOne(o, start + [Before(f, t)] + [Test(f, t)], After(f, t));
    if !Lethal(TestResult(o, f, t)) {
      MildOne(o, TestTrace(o, f, t, start), AfterTestCaseFinish(f, t, !Failed(TestResult(o, f, t))));
    }
  }

  lemma ConsiderMild(o: Oracle, a: Action, f: nat, t: nat, p: Loop)
    requires Mild(o, p.trace)
    ensures Mild(o, Consider(o, a, f, t, p).trace)
  {
    AddTestMild(o, a.flags, f, t, p);
  }

  lemma {:induction false} LoopMild(o: Oracle, a: Action, f: nat, w: seq<Event>, n: nat)
    requires Mild(o, w)
    ensures Mild(o, TestLoop(o, a, f, w, n).trace)
  {
    if n > 0 {
      LoopMild(o, a, f, w, n - 1);
      ConsiderMild(o, a, f, n - 1, TestLoop(o, a, f, w, n - 1));
    }
  }

  lemma FixtureMild(o: Oracle, a: Action, f: nat, w: seq<Event>)
    requires Mild(o, w)
    ensures Mild(o, RunFixture(o, a, f, w).trace)
  {
    var ready := w + [BeforeFixtureStart(f)] + [Setup(f)];
    var loop := TestLoop(o, a, f, ready, a.tests);
    var ran := loop.mode == Running && !Failed(o(Teardown(f)));
    MildOne(o, w, BeforeFixtureStart(f));
    MildOne(o, w + [BeforeFixtureStart(f)], Setup(f));
    MildOne(o, ready, AfterFixtureFinish(f, false));
    LoopMild(o, a, f, ready, a.tests);
    MildOne(o, loop.trace, Teardown(f));
    MildOne(o, loop.trace + [Teardown(f)], AfterFixtureFinish(f, ran));
  }

  lemma {:induction false} SequenceMild(o: Oracle, actions: seq<Action>, n: nat)
    requires n <= |actions|
    ensures Mild(o, RunSequence(o, actions, n).trace)
  {
    if n > 0 {
      SequenceMild(o, actions, n - 1);
      FixtureMild(o, actions[n - 1], n - 1, RunSequence(o, actions, n - 1).trace);
    }
  }

  // Between Setup and Teardown of fixture `f` the value is there, unless Before failed fatally.
  predicate Stays(o: Oracle, s: State, f: nat, v: Value, saved: Slots)
  {
    InBody(s, f) && !(s.Unprepared? && o(Before(f, s.t)).Fatal?) ==> saved.default == v
  }

  lemma StaysStep(o: Oracle, rs: Routines, cell: Slots, s: State, e: Event, f: nat, t: nat, v: Value, saved: Slots)
    requires Next(o, s, e).Some? && Stays(o, s, f, v, saved) && rs(Before(f, t)) == None
    requires IsRoutine(e) ==> o(e) == PhaseHr(e, rs(e), cell)
    requires MildCall(o, e)
    ensures Stays(o, Next(o, s, e).value, f, v,
                  if IsRoutine(e) then AfterPhase(e, AllStore(o, f, t, v)(e), saved) else saved)
  {
    if IsRoutine(e) {
      StoringActs(e, rs(e), cell, v, saved);
    }
  }

  lemma {:induction false} StaysTo(o: Oracle, rs: Routines, s0: Slots, w: seq<Event>, n: nat, f: nat, t: nat, v: Value)
    requires n <= |w| && DriveTo(o, w, n).Some? && Mild(o, w)
    requires Actual(o, rs, s0, w) && rs(Before(f, t)) == None
    ensures Stays(o, DriveTo(o, w, n).value, f, v, SavedAfter(AllStore(o, f, t, v), s0, w, n))
  {
    if n > 0 {
      StaysTo(o, rs, s0, w, n - 1, f, t, v);
      StaysStep(o, rs, SavedAfter(rs, s0, w, n - 1), DriveTo(o, w, n - 1).value, w[n - 1], f, t, v,
                SavedAfter(AllStore(o, f, t, v), s0, w, n - 1));
    }
  }

  // Without a Before routine another table of routines gives the same run and a different storage.
  lemma SeesMore(o: Oracle, rs: Routines, s0: Slots, w: seq<Event>, i: nat)
    requires i < |w| && w[i].Test? && Drive(o, w).Some? && Mild(o, w) && Actual(o, rs, s0, w)
    requires rs(Before(w[i].f, w[i].t)) == None
    ensures !SeesOnlyBefore(o, rs, s0, w, i)
  {
    var f, t, v := w[i].f, w[i].t, StartAt(rs, s0, w, i).default + 1;
    AcceptedTo(o, w, i + 1, |w|);
    assert DriveTo(o, w, i) == Some(Prepared(f, t));
    StaysTo(o, rs, s0, w, i, f, t, v);
    AllStoreActual(o, rs, s0, w, f, t, v);
    assert StartAt(AllStore(o, f, t, v), s0, w, i) != StartAt(rs, s0, w, i);
  }

  lemma SeesNoMore(o: Oracle, rs: Routines, s0: Slots, w: seq<Event>, i: nat)
    requires i < |w| && w[i].Test? && Drive(o, w).Some? && rs(Before(w[i].f, w[i].t)).Some?
    ensures SeesOnlyBefore(o, rs, s0, w, i)
  {
    PrecededBy(o, w, i);
  }

  // In every run: a test case sees nothing that another routine than its Before has stored if and
  // only if there is a Before routine.
  lemma {:induction false} HiddenIffBefore(o: Oracle, actions: seq<Action>, rs: Routines, s0: Slots, i: nat)
    requires i < |RunSequence(o, actions, |actions|).trace|
    requires RunSequence(o, actions, |actions|).trace[i].Test?
    requires Actual(o, rs, s0, RunSequence(o, actions, |actions|).trace)
    ensures var w := RunSequence(o, actions, |actions|).trace;
      SeesOnlyBefore(o, rs, s0, w, i) <==> rs(Before(w[i].f, w[i].t)).Some?
  {
    var w := RunSequence(o, actions, |actions|).trace;
    SequenceGrammar(o, actions);
    SequenceMild(o, actions, |actions|);
    if rs(Before(w[i].f, w[i].t)).None? {
      SeesMore(o, rs, s0, w, i);
    } else {
      SeesNoMore(o, rs, s0, w, i);
    }
  }

  // Such a run: a fixture with one test case, a Setup that stores a value, and no Before
  lemma SetupLeftoverExample(o: Oracle, flags: Flags, rs: Routines, v: Value)
    requires o(BeforeFixtureStart(0)) == o(Setup(0)) == o(BeforeTestCaseStart(0, 0)) == o(Before(0, 0)) == Success
    requires rs(Setup(0)) == Some(Routine(Set(0, v, End(Returned)), None)) && rs(Before(0, 0)) == None
    ensures var w := RunSequence(o, [Action(1, flags, -1)], 1).trace;
      |w| > 4 && w[4] == Test(0, 0) && StartAt(rs, Empty, w, 4) == Slots(v, 0)
  {
    var a := Action(1, flags, -1);
    var w := RunSequence(o, [a], 1).trace;
    FirstCalls(o, a);
    assert SavedAfter(rs, Empty, w, 1) == Empty;
    assert Exec(Set(0, v, End(Returned)), Empty).cell == Slots(v, 0);
    assert SavedAfter(rs, Empty, w, 2) == Slots(v, 0);
    assert SavedAfter(rs, Empty, w, 3) == Slots(v, 0);
  }

  lemma FirstCalls(o: Oracle, a: Action)
    requires a.tests == 1 && a.only == -1
    requires o(BeforeFixtureStart(0)) == o(Setup(0)) == o(BeforeTestCaseStart(0, 0)) == o(Before(0, 0)) == Success
    ensures var w := RunSequence(o, [a], 1).trace;
      && |w| > 4 && w[0] == BeforeFixtureStart(0) && w[1] == Setup(0)
      && w[2] == BeforeTestCaseStart(0, 0) && w[3] == Before(0, 0) && w[4] == Test(0, 0)
  {
    var ready := [] + [BeforeFixtureStart(0)] + [Setup(0)];
    var p := Loop(Success, ready, Running);
    assert TestLoop(o, a, 0, ready, 0) == p;
    assert TestLoop(o, a, 0, ready, 1) == AddTest(o, a.flags, 0, 0, p);
    assert RunSequence(o, [a], 0) == Outcome(Success, []);
    assert RunSequence(o, [a], 1) == RunFixture(o, a, 0, []);
  }

  // Running the routines of a trace one after the other on the main thread gives the storage and the
  // results stated above.
  method Replay(thread: MainThread, rs: Routines, w: seq<Event>) returns (results: seq<Hr>)
    modifies thread
    ensures |results| == |w| && thread.Saved() == SavedAfter(rs, old(thread.Saved()), w, |w|)
    ensures forall i :: 0 <= i < |w| && IsRoutine(w[i]) ==>
              results[i] == PhaseHr(w[i], rs(w[i]), SavedAfter(rs, old(thread.Saved()), w, i))
  {
    results := [];
    var n := 0;
    while n < |w|
      invariant 0 <= n <= |w| && |results| == n
      invariant thread.Saved() == SavedAfter(rs, old(thread.Saved()), w, n)
      invariant forall i :: 0 <= i < n && IsRoutine(w[i]) ==>
                  results[i] == PhaseHr(w[i], rs(w[i]), SavedAfter(rs, old(thread.Saved()), w, i))
    {
      var hr := Success;
      if IsRoutine(w[n]) {
        hr := thread.RunPhase(w[n], rs(w[n]));
      }
      results := results + [hr];
      n := n + 1;
    }
  }

  /* ---------------------------------------------------------------- the results of routines */

  // The results that the assertions in tsexecaction.c expect of a phase
  predicate AsExpected(e: Event, hr: Hr)
  {
    || hr == Success || hr == TestrunAborted
    || (e.Setup? && hr == SetupRoutineFailed) || (e.Teardown? && hr == TeardownRoutineFailed)
    || (e.Before? && hr == BeforeRoutineFailed) || (e.After? && hr == AfterRoutineFailed)
    || (e.Test? && hr == TestRoutineFailed)
  }

  // What CfixpSetCurrentFilament says when main thread `t` installs the new filament `f` for a routine
  function InstallStatus(tb: FilamentTables.Tables, t: FilamentTables.ThreadId, f: FilamentTables.FilamentId,
                         c: FilamentTables.ContextId, isDefault: bool): FilamentTables.Status
    requires FilamentTables.WellFormed(tb) && f !in tb.filaments
  {
    var fil := FilamentTables.Filament(c, t, isDefault, []);
    FilamentTables.SetCurrent(tb.(filaments := tb.filaments[f := fil]), t, Some(f), false, true).1
  }

  // The error that a phase gets when the fixture does or does not provide a default filament
  function RefusalOf(status: FilamentTables.Status): Option<nat>
  {
    match status
    case Success => None
    case TooManyChildThreads => Some(0x8004_8015)
    case DefaultFilamentConflict => Some(0x8004_8017)
    case UnknownThread => Some(0x8004_8009)
    case DuplicateHandleFailed => Some(E_UNEXPECTED)
  }

  // The only reason is a fixture that uses anonymous threads while a default filament is in place.
  lemma InstallRefusedIff(tb: FilamentTables.Tables, t: FilamentTables.ThreadId, f: FilamentTables.FilamentId,
                          c: FilamentTables.ContextId, isDefault: bool)
    requires FilamentTables.WellFormed(tb) && f !in tb.filaments
    ensures InstallStatus(tb, t, f, c, isDefault) ==
              if isDefault && tb.defaultFilament.Some? then FilamentTables.DefaultFilamentConflict
              else FilamentTables.Success
  {
  }

  // The assertions hold exactly if a test case has a routine and it is not the case that the fixture
  // uses anonymous threads while a default filament is already in place.
  lemma PhaseAsExpected(e: Event, routine: Option<Routine>, saved: Slots, tb: FilamentTables.Tables,
                        t: FilamentTables.ThreadId, f: FilamentTables.FilamentId, c: FilamentTables.ContextId,
                        isDefault: bool)
    requires IsRoutine(e) && FilamentTables.WellFormed(tb) && f !in tb.filaments
    requires routine.Some? ==> routine.value.refusal == RefusalOf(InstallStatus(tb, t, f, c, isDefault))
    ensures AsExpected(e, PhaseHr(e, routine, saved)) <==>
              if routine.None? then !e.Test? else !(isDefault && tb.defaultFilament.Some?)
  {
    InstallRefusedIff(tb, t, f, c, isDefault);
  }

  // So it happens whenever a routine of such a fixture runs a nested one: its own filament is the
  // default filament then.
  lemma NestedRefusedExample(body: Body, saved: Slots, g: FilamentTables.FilamentId, f: FilamentTables.FilamentId,
                             c: FilamentTables.ContextId)
    requires f != g
    ensures var tb := FilamentTables.SetCurrent(
                        FilamentTables.Tables(map[g := FilamentTables.Filament(c, 0, true, [])], map[], {}, None, map[]),
                        0, Some(g), false, true).0;
      && tb.defaultFilament == Some(g) && FilamentTables.Current(tb, 0) == Some(g)
      && var r := Routine(body, RefusalOf(InstallStatus(tb, 0, f, c, true)));
         && !AsExpected(Before(0, 0), PhaseHr(Before(0, 0), Some(r), saved))
         && PhaseHr(Before(0, 0), Some(r), saved) == Fatal(0x8004_8017)
  {
    var tb0 := FilamentTables.Tables(map[g := FilamentTables.Filament(c, 0, true, [])], map[], {}, None, map[]);
    var tb := FilamentTables.SetCurrent(tb0, 0, Some(g), false, true).0;
    InstallRefusedIff(tb, 0, f, c, true);
  }

  // The failures that fixtures and test cases normally have
  predicate Ordinarily(e: Event, hr: Hr)
  {
    || hr == Success
    || (e.Setup? && (hr == SetupRoutineFailed || hr == TestrunAborted))
    || (e.Before? && hr == BeforeRoutineFailed)
    || (e.Test? && hr == TestRoutineFailed)
    || (e.After? && hr == AfterRoutineFailed)
    || (e.Teardown? && hr != Success)
  }

  // Without flags such failures never stop a run: it succeeds, and all its fixtures are run.
  lemma {:induction false} FailuresGoOn(o: Oracle, actions: seq<Action>)
    requires forall f :: 0 <= f < |actions| ==> actions[f].flags == Flags(false, false, false)
    requires forall e: Event :: HasResult(e) ==> Ordinarily(e, o(e))
    ensures var r := RunSequence(o, actions, |actions|);
      r.hr == Success && Drive(o, r.trace) == Some(Idle(|actions|))
  {
    var p := ExecutionFlags.SevereIn(o, actions);
    forall e: Event
      ensures !p(e)
    {
      if e.f < |actions| && HasResult(e) {
        assert Ordinarily(e, o(e));
      }
    }
    ExecutionFlags.FailsIff(o, actions);
    SequenceGrammar(o, actions);
  }

  // Routines with results that the assertions expect never cut a run off.
  lemma {:induction false} ExpectedRunsComplete(o: Oracle, actions: seq<Action>)
    requires forall e: Event :: IsRoutine(e) ==> AsExpected(e, o(e))
    requires forall f :: !Failed(o(BeforeFixtureStart(f)))
    ensures Drive(o, RunSequence(o, actions, |actions|).trace).Some?
    ensures Complete(Drive(o, RunSequence(o, actions, |actions|).trace).value)
  {
    var w := RunSequence(o, actions, |actions|).trace;
    SequenceGrammar(o, actions);
    forall i | 0 <= i < |w|
      ensures !Deadly(o, w[i])
    {
      if w[i].Before? {
        assert AsExpected(Before(w[i].f, w[i].t), o(Before(w[i].f, w[i].t)));
        assert AsExpected(Test(w[i].f, w[i].t), o(Test(w[i].f, w[i].t)));
        assert AsExpected(After(w[i].f, w[i].t), o(After(w[i].f, w[i].t)));
      }
    }
  }
}
