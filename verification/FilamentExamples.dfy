/** Runs of the filament protocol, from the beginning, that end badly. */
module FilamentExamples {
  import opened Prelude
  import opened FilamentTables
  import opened FilamentProtocol
  import opened FilamentTheorems
  import opened FilamentAnonymous
  import opened FilamentDeadlock
  import opened FilamentDefault
  import opened FilamentTags

  // `b` is what the orderly step makes of `a`.
  ghost predicate Leads(a: State, step: Step, b: State)
  {
    Enabled(a, step) && Orderly(a, step) && Apply(a, step) == b
  }

  ghost predicate Goes(a: State, steps: seq<Step>, b: State)
  {
    Run(a, steps, b) && OrderlyRun(a, steps)
  }

  lemma GoesStep(a: State, step: Step, b: State, steps: seq<Step>, c: State)
    requires Leads(a, step, b) && Goes(b, steps, c)
    ensures Goes(a, [step] + steps, c)
  {
    RunStep(a, step, steps, c);
    assert ([step] + steps)[1..] == steps;
  }

  lemma FirstStep(a: State, steps: seq<Step>, c: State) returns (b: State)
    requires Goes(a, steps, c) && steps != []
    ensures Leads(a, steps[0], b) && Goes(b, steps[1..], c)
  {
    b := Apply(a, steps[0]);
  }

  // The state before each step of a path, and the state at its end
  ghost predicate Path(states: seq<State>, steps: seq<Step>)
  {
    && |states| == |steps| + 1
    && forall i :: 0 <= i < |steps| ==> Leads(states[i], steps[i], states[i + 1])
  }

  lemma {:induction false} PathGoes(states: seq<State>, steps: seq<Step>)
    requires Path(states, steps)
    ensures Goes(states[0], steps, states[|steps|])
    decreases |steps|
  {
    if steps != [] {
      PathGoes(states[1..], steps[1..]);
      GoesStep(states[0], steps[0], states[1], steps[1..], states[|steps|]);
      assert [steps[0]] + steps[1..] == steps;
    }
  }

  lemma {:induction false} GoesOn(a: State, steps: seq<Step>, b: State, more: seq<Step>, c: State)
    returns (all: seq<Step>)
    requires Goes(a, steps, b) && Goes(b, more, c)
    ensures Goes(a, all, c)
    decreases |steps|
  {
    if steps == [] {
      all := more;
    } else {
      var next := FirstStep(a, steps, b);
      var rest := GoesOn(next, steps[1..], b, more, c);
      GoesStep(a, steps[0], next, rest, c);
      all := [steps[0]] + rest;
    }
  }

  /* ---------------------------------------------------------------- a child of a revoked default */

  const Idle: Thread := Thread(User, [], None)

  // Thread 0 runs a routine that provides default filament 0, thread 1 is its child.  The tables list
  // `children` for filament 0; `second` is the filament of a nested routine of thread 1.
  function World(children: seq<ThreadId>, second: bool, tls: map<ThreadId, FilamentId>, def: Option<FilamentId>,
                 references: int, control: Control, child: Thread, locks: map<FilamentId, ThreadId>,
                 destroyed: set<FilamentId>): State
  {
    var main := Filament(0, 0, true, children);
    State(Tables(if second then map[0 := main, 1 := Filament(0, 1, false, [])] else map[0 := main],
                 tls, {}, def, map[0 := references]),
          map[0 := Thread(control, [Frame(0, None)], None), 1 := child], locks, destroyed)
  }

  const Begin: State := State(Tables(map[], map[], {}, None, map[]), map[0 := Idle], map[], {})

  const Alone: State := State(Tables(map[0 := Filament(0, 0, true, [])], map[0 := 0], {}, Some(0), map[0 := 1]),
                              map[0 := Thread(User, [Frame(0, None)], None)], map[], {})

  function Hand(children: seq<ThreadId>, tls: map<ThreadId, FilamentId>, references: int, params: Control,
                child: Thread): State
  {
    World(children, false, tls, Some(0), references, params, child, map[], {})
  }

  const Created := Hand([], map[0 := 0], 1, Creating(1, false, 0, None), Thread(Starting(Spawned, 0), [], None))
  const HasCopy := Hand([], map[0 := 0], 1, Creating(1, false, 0, None), Thread(Starting(Copied, 0), [], Some(0)))
  const OnList := Hand([1], map[0 := 0], 1, Creating(1, false, 0, None), Thread(Starting(Listed, 0), [], Some(0)))
  const HasSlot :=
    Hand([1], map[0 := 0, 1 := 0], 2, Creating(1, false, 0, Some(Success)), Thread(Starting(Installed, 0), [], Some(0)))
  const Announced :=
    Hand([1], map[0 := 0, 1 := 0], 2, Creating(1, false, 0, Some(Success)), Thread(Starting(Notified, 0), [], Some(0)))
  const Up := Hand([1], map[0 := 0, 1 := 0], 2, Creating(1, true, 0, Some(Success)), Thread(User, [], Some(0)))
  const Both := Hand([1], map[0 := 0, 1 := 0], 2, User, Thread(User, [], Some(0)))

  function Nest(children: seq<ThreadId>, current: FilamentId, control: Control, locks: map<FilamentId, ThreadId>): State
  {
    World(children, true, map[0 := 0, 1 := current], None, 2, User,
          Thread(control, [Frame(1, Some(0))], Some(0)), locks, {})
  }

  // The default filament has been revoked, and thread 1 is back in filament 0, which is still marked.
  const Revoked := World([1, 1], true, map[0 := 0, 1 := 0], None, 2, User, Thread(User, [], Some(0)), map[], {1})

  lemma Step1()
    ensures Leads(Begin, BeginRun(0, 0, 0, true), Alone)
  {
    var b := DoBeginRun(Begin, 0, 0, 0, true);
    assert Idle.frames + [Frame(0, None)] == [Frame(0, None)];
    assert b.tables.filaments == Alone.tables.filaments && b.tables.tls == Alone.tables.tls;
    assert b.tables.derived == {} && b.tables.references == Alone.tables.references;
    assert b.threads == Alone.threads;
  }

  lemma Step2() ensures Leads(Alone, Create(0, 1), Created) { }
  lemma Step3() ensures Leads(Created, CopyParameters(1), HasCopy) { }

  lemma Step4Enabled()
    ensures Enabled(HasCopy, EnlistChild(1, true))
  {
  }

  lemma Step4()
    ensures Leads(HasCopy, EnlistChild(1, true), OnList)
  {
    Step4Enabled();
    var none: seq<ThreadId> := [];
    assert none + [1] == [1];
    assert DoEnlistChild(HasCopy, 1, true).tables.filaments == OnList.tables.filaments;
  }

  lemma Step5() ensures Leads(OnList, InstallChild(1), HasSlot) { }
  lemma Step6() ensures Leads(HasSlot, NotifyStart(1), Announced) { }
  lemma Step7() ensures Leads(Announced, Signal(1), Up) { }
  lemma Step8() ensures Leads(Up, Wake(0), Both) { }

  lemma Step9()
    ensures Leads(Both, BeginRun(1, 1, 0, false), Nest([1], 1, User, map[]))
  {
    var b, c := DoBeginRun(Both, 1, 1, 0, false), Nest([1], 1, User, map[]);
    var none: seq<Frame> := [];
    assert none + [Frame(1, Some(0))] == [Frame(1, Some(0))];
    assert b.tables.filaments == c.tables.filaments && b.tables.tls == c.tables.tls;
    assert b.tables.derived == {} && b.tables.references == c.tables.references;
    assert b.threads == c.threads;
  }

  lemma Step10() ensures Leads(Nest([1], 1, User, map[]), EndRoutine(1), Nest([1], 1, Joining, map[])) { }
  lemma Step11() ensures Leads(Nest([1], 1, Joining, map[]), LockJoin(1), Nest([1], 1, Waiting([]), map[1 := 1])) { }
  lemma Step12() ensures Leads(Nest([1], 1, Waiting([]), map[1 := 1]), JoinDone(1), Nest([1], 1, Joined, map[])) { }

  // Thread 1 becomes a child of filament 0 for the second time.
  lemma Step13Tables()
    ensures SetCurrent(Nest([1], 1, Joined, map[]).tables, 1, Some(0), false, true).0 ==
              Nest([1, 1], 0, Left, map[]).tables
  {
    var b := SetCurrent(Nest([1], 1, Joined, map[]).tables, 1, Some(0), false, true).0;
    var c := Nest([1, 1], 0, Left, map[]).tables;
    var one: seq<ThreadId> := [1];
    assert one + [1] == [1, 1];
    assert b.filaments == c.filaments && b.tls == c.tls && b.derived == {} && b.references == c.references;
  }

  lemma Step13()
    ensures Leads(Nest([1], 1, Joined, map[]), Restore(1, true), Nest([1, 1], 0, Left, map[]))
  {
    Step13Tables();
  }

  lemma Step14() ensures Leads(Nest([1, 1], 0, Left, map[]), Destroy(1), Revoked) { }

  /* ---------------------------------------------------------------- a return that is refused */

  // From there thread 0 runs a nested routine that provides default filament 2.
  function Second(control: Control, locks: map<FilamentId, ThreadId>): State
  {
    State(Tables(map[0 := Filament(0, 0, true, [1, 1]), 1 := Filament(0, 1, false, []), 2 := Filament(0, 0, true, [])],
                 map[0 := 2, 1 := 0], {}, Some(2), map[0 := 2]),
          map[0 := Thread(control, [Frame(0, None), Frame(2, Some(0))], None), 1 := Thread(User, [], Some(0))],
          locks, {1})
  }

  lemma Step15Tables()
    ensures Addressable(Revoked) && DoBeginRun(Revoked, 0, 2, 0, true).tables == Second(User, map[]).tables
  {
    var b, c := DoBeginRun(Revoked, 0, 2, 0, true).tables, Second(User, map[]).tables;
    assert b.filaments == c.filaments && b.tls == c.tls && b.derived == {} && b.references == c.references;
  }

  lemma Step15()
    ensures Leads(Revoked, BeginRun(0, 2, 0, true), Second(User, map[]))
  {
    Step15Tables();
    assert [Frame(0, None)] + [Frame(2, Some(0))] == [Frame(0, None), Frame(2, Some(0))];
    assert DoBeginRun(Revoked, 0, 2, 0, true).threads == Second(User, map[]).threads;
  }

  lemma Step16() ensures Leads(Second(User, map[]), EndRoutine(0), Second(Joining, map[])) { }
  lemma Step17() ensures Leads(Second(Joining, map[]), LockJoin(0), Second(Waiting([]), map[2 := 0])) { }
  lemma Step18() ensures Leads(Second(Waiting([]), map[2 := 0]), JoinDone(0), Second(Joined, map[])) { }

  lemma ChildListed() returns (steps: seq<Step>)
    ensures Goes(Begin, steps, OnList)
  {
    Step1(); Step2(); Step3(); Step4();
    steps := [BeginRun(0, 0, 0, true), Create(0, 1), CopyParameters(1), EnlistChild(1, true)];
    PathGoes([Begin, Alone, Created, HasCopy, OnList], steps);
  }

  lemma ChildUp() returns (steps: seq<Step>)
    ensures Goes(OnList, steps, Both)
  {
    Step5(); Step6(); Step7(); Step8();
    steps := [InstallChild(1), NotifyStart(1), Signal(1), Wake(0)];
    PathGoes([OnList, HasSlot, Announced, Up, Both], steps);
  }

  lemma NestedRoutine() returns (steps: seq<Step>)
    ensures Goes(Both, steps, Nest([1], 1, Waiting([]), map[1 := 1]))
  {
    Step9(); Step10(); Step11();
    steps := [BeginRun(1, 1, 0, false), EndRoutine(1), LockJoin(1)];
    PathGoes([Both, Nest([1], 1, User, map[]), Nest([1], 1, Joining, map[]),
              Nest([1], 1, Waiting([]), map[1 := 1])], steps);
  }

  lemma NestedReturn() returns (steps: seq<Step>)
    ensures Goes(Nest([1], 1, Waiting([]), map[1 := 1]), steps, Revoked)
  {
    Step12(); Step13(); Step14();
    steps := [JoinDone(1), Restore(1, true), Destroy(1)];
    PathGoes([Nest([1], 1, Waiting([]), map[1 := 1]), Nest([1], 1, Joined, map[]), Nest([1, 1], 0, Left, map[]),
              Revoked], steps);
  }

  lemma SecondRoutine() returns (steps: seq<Step>)
    ensures Goes(Revoked, steps, Second(Joining, map[]))
  {
    Step15(); Step16();
    steps := [BeginRun(0, 2, 0, true), EndRoutine(0)];
    PathGoes([Revoked, Second(User, map[]), Second(Joining, map[])], steps);
  }

  lemma SecondJoin() returns (steps: seq<Step>)
    ensures Goes(Second(Joining, map[]), steps, Second(Joined, map[]))
  {
    Step17(); Step18();
    steps := [LockJoin(0), JoinDone(0)];
    PathGoes([Second(Joining, map[]), Second(Waiting([]), map[2 := 0]), Second(Joined, map[])], steps);
  }

  lemma ToNested() returns (steps: seq<Step>)
    ensures Goes(Begin, steps, Nest([1], 1, Waiting([]), map[1 := 1]))
  {
    steps := ChildListed();
    var more := ChildUp();
    steps := GoesOn(Begin, steps, OnList, more, Both);
    more := NestedRoutine();
    steps := GoesOn(Begin, steps, Both, more, Nest([1], 1, Waiting([]), map[1 := 1]));
  }

  lemma ToRevoked() returns (steps: seq<Step>)
    ensures Goes(Begin, steps, Revoked)
  {
    steps := ToNested();
    var more := NestedReturn();
    steps := GoesOn(Begin, steps, Nest([1], 1, Waiting([]), map[1 := 1]), more, Revoked);
  }

  lemma ToSecond() returns (steps: seq<Step>)
    ensures Goes(Begin, steps, Second(Joined, map[]))
  {
    steps := ToRevoked();
    var more := SecondRoutine();
    steps := GoesOn(Begin, steps, Revoked, more, Second(Joining, map[]));
    more := SecondJoin();
    steps := GoesOn(Begin, steps, Second(Joining, map[]), more, Second(Joined, map[]));
  }

  // From the first use of cfix a run leads to a state from which the default filament can be stranded.
  lemma RevokedReachable()
    ensures Reachable(Revoked)
  {
    var steps := ToRevoked();
    assert Init(Begin);
  }

  // A reachable state in which the default filament has been destroyed
  lemma StrandedReachable() returns (steps: seq<Step>, s: State)
    ensures Reachable(Revoked) && Run(Revoked, steps, s)
    ensures s.tables.defaultFilament == Some(2) && 2 in s.destroyed
  {
    RevokedReachable();
    ReachableInv(Revoked);
    NestedDefaultStranded(Revoked, 1, 0, 2, 0);
    steps, s :| Run(Revoked, steps, s) && s.tables.defaultFilament == Some(2) && 2 in s.destroyed;
  }

  // When that routine ends the previous filament is refused: afterwards the destroyed filament 2 is
  // the current filament of the thread and the default filament.
  lemma RefusedReturnExample()
    ensures Reachable(Second(Joined, map[])) && Enabled(Second(Joined, map[]), Restore(0, true))
    ensures var s := Leave(Second(Joined, map[]), 0, true);
      Dangling(s) && 2 in s.destroyed && Slot(s, 0) == Some(2) && s.tables.defaultFilament == Some(2)
  {
    var s := Second(Joined, map[]);
    var steps := ToSecond();
    assert Init(Begin) && Reachable(s);
    ReachableInv(s);
    InvAddressable(s);
    SlipDanglesIff(s, 0, true);
    RestoreRevokes(s, 0, true);
  }

  /* ---------------------------------------------------------------- a deadlock */

  // Thread 1 has finished its nested routine, thread 0 ends its own one.
  function Meeting(control: Control, locks: map<FilamentId, ThreadId>): State
  {
    World([1], true, map[0 := 0, 1 := 1], None, 2, control, Thread(Joined, [Frame(1, Some(0))], Some(0)), locks, {})
  }

  lemma Meet1() ensures Leads(Meeting(User, map[]), EndRoutine(0), Meeting(Joining, map[])) { }
  lemma Meet2() ensures Leads(Meeting(Joining, map[]), LockJoin(0), Meeting(Waiting([1]), map[0 := 0])) { }

  lemma ToMeeting() returns (steps: seq<Step>)
    ensures Goes(Nest([1], 1, Waiting([]), map[1 := 1]), steps, Meeting(Waiting([1]), map[0 := 0]))
  {
    Step12(); Meet1(); Meet2();
    steps := [JoinDone(1), EndRoutine(0), LockJoin(0)];
    PathGoes([Nest([1], 1, Waiting([]), map[1 := 1]), Meeting(User, map[]), Meeting(Joining, map[]),
              Meeting(Waiting([1]), map[0 := 0])], steps);
  }

  lemma MeetingReachable()
    ensures Reachable(Meeting(Waiting([1]), map[0 := 0]))
  {
    var steps := ToNested();
    var more := ToMeeting();
    steps := GoesOn(Begin, steps, Nest([1], 1, Waiting([]), map[1 := 1]), more, Meeting(Waiting([1]), map[0 := 0]));
    assert Init(Begin);
  }

  // Thread 0 waits for thread 1 to end, and thread 1 for the lock that thread 0 holds.
  lemma DeadlockExample()
    ensures var s := Meeting(Waiting([1]), map[0 := 0]);
      Reachable(s) && In(s, 1, Joined) && !CanReturn(s, 1)
  {
    var s := Meeting(Waiting([1]), map[0 := 0]);
    MeetingReachable();
    ReachableInv(s);
    ReturnsIff(s, 1);
  }

  /* ---------------------------------------------------------------- an anonymous thread that is late */

  // Thread 0 runs a routine that provides default filament 0; thread 1 is not known to cfix.
  function Run1(control: Control, locks: map<FilamentId, ThreadId>): State
  {
    World([], false, map[0 := 0], Some(0), 1, control, Idle, locks, {})
  }

  const BeginTwo: State := State(Tables(map[], map[], {}, None, map[]), map[0 := Idle, 1 := Idle], map[], {})

  lemma LateStep1()
    ensures Leads(BeginTwo, BeginRun(0, 0, 0, true), Run1(User, map[]))
  {
    var b, c := DoBeginRun(BeginTwo, 0, 0, 0, true), Run1(User, map[]);
    assert Idle.frames + [Frame(0, None)] == [Frame(0, None)];
    assert b.tables.filaments == c.tables.filaments && b.tables.tls == c.tables.tls;
    assert b.tables.derived == {} && b.tables.references == c.tables.references;
    assert b.threads == c.threads;
  }

  lemma LateStep2() ensures Leads(Run1(User, map[]), EndRoutine(0), Run1(Joining, map[])) { }
  lemma LateStep3() ensures Leads(Run1(Joining, map[]), LockJoin(0), Run1(Waiting([]), map[0 := 0])) { }
  lemma LateStep4() ensures Leads(Run1(Waiting([]), map[0 := 0]), JoinDone(0), Run1(Joined, map[])) { }

  // The main thread comes past its join.
  lemma ToLate() returns (steps: seq<Step>)
    ensures Goes(BeginTwo, steps, Run1(Joined, map[]))
  {
    LateStep1(); LateStep2(); LateStep3(); LateStep4();
    steps := [BeginRun(0, 0, 0, true), EndRoutine(0), LockJoin(0), JoinDone(0)];
    PathGoes([BeginTwo, Run1(User, map[]), Run1(Joining, map[]), Run1(Waiting([]), map[0 := 0]),
              Run1(Joined, map[])], steps);
  }

  lemma LateReachable()
    ensures Reachable(Run1(Joined, map[]))
  {
    var steps := ToLate();
    assert Init(BeginTwo);
  }

  // Thread 1 now calls into cfix, and later holds the address of a destroyed filament.
  lemma LateThreadExample()
    ensures Reachable(Run1(Joined, map[])) && Doomed(Run1(Joined, map[]), AutoRegister(1), false)
  {
    var s := Run1(Joined, map[]);
    LateReachable();
    ReachableInv(s);
    InvAddressable(s);
    LateThreadDangles(s, 1);
  }

  /* ---------------------------------------------------------------- an anonymous thread that loses its tag */

  // Thread 1 has been taken into default filament 0.
  function Guest(): State
  {
    var s := World([1], false, map[0 := 0, 1 := 0], Some(0), 2, User, Idle, map[], {});
    s.(tables := s.tables.(derived := {1}))
  }

  // It runs a routine.
  function Hosted(children: seq<ThreadId>, current: FilamentId, control: Control, locks: map<FilamentId, ThreadId>)
    : State
  {
    World(children, true, map[0 := 0, 1 := current], None, 2, User, Thread(control, [Frame(1, Some(0))], None), locks, {})
  }

  const Back := World([1, 1], true, map[0 := 0, 1 := 0], None, 2, User, Idle, map[], {1})

  lemma GuestTables()
    ensures Enabled(Run1(User, map[]), AutoRegister(1))
    ensures SetCurrent(Run1(User, map[]).tables, 1, Some(0), true, true).0 == Guest().tables
  {
    var b, c := SetCurrent(Run1(User, map[]).tables, 1, Some(0), true, true).0, Guest().tables;
    var none: seq<ThreadId> := [];
    assert none + [1] == [1];
    assert b.filaments == c.filaments && b.tls == c.tls && b.derived == {1} && b.references == c.references;
  }

  lemma Guest1()
    ensures Leads(Run1(User, map[]), AutoRegister(1), Guest())
  {
    GuestTables();
  }

  lemma HostedTables()
    ensures Addressable(Guest()) && DoBeginRun(Guest(), 1, 1, 0, false).tables == Hosted([1], 1, User, map[]).tables
  {
    var b, c := DoBeginRun(Guest(), 1, 1, 0, false).tables, Hosted([1], 1, User, map[]).tables;
    assert b.filaments == c.filaments && b.tls == c.tls && b.derived == {} && b.references == c.references;
  }

  lemma Guest2()
    ensures Leads(Guest(), BeginRun(1, 1, 0, false), Hosted([1], 1, User, map[]))
  {
    HostedTables();
    var none: seq<Frame> := [];
    assert none + [Frame(1, Some(0))] == [Frame(1, Some(0))];
    assert DoBeginRun(Guest(), 1, 1, 0, false).threads == Hosted([1], 1, User, map[]).threads;
  }

  lemma Guest3() ensures Leads(Hosted([1], 1, User, map[]), EndRoutine(1), Hosted([1], 1, Joining, map[])) { }
  lemma Guest4() ensures Leads(Hosted([1], 1, Joining, map[]), LockJoin(1), Hosted([1], 1, Waiting([]), map[1 := 1])) { }
  lemma Guest5() ensures Leads(Hosted([1], 1, Waiting([]), map[1 := 1]), JoinDone(1), Hosted([1], 1, Joined, map[])) { }

  lemma ReturnTables()
    ensures SetCurrent(Hosted([1], 1, Joined, map[]).tables, 1, Some(0), false, true).0 ==
              Hosted([1, 1], 0, Left, map[]).tables
  {
    var b := SetCurrent(Hosted([1], 1, Joined, map[]).tables, 1, Some(0), false, true).0;
    var c := Hosted([1, 1], 0, Left, map[]).tables;
    var one: seq<ThreadId> := [1];
    assert one + [1] == [1, 1];
    assert b.filaments == c.filaments && b.tls == c.tls && b.derived == {} && b.references == c.references;
  }

  lemma Guest6()
    ensures Leads(Hosted([1], 1, Joined, map[]), Restore(1, true), Hosted([1, 1], 0, Left, map[]))
  {
    ReturnTables();
  }

  lemma Guest7() ensures Leads(Hosted([1, 1], 0, Left, map[]), Destroy(1), Back) { }

  lemma GuestIn() returns (steps: seq<Step>)
    ensures Goes(BeginTwo, steps, Hosted([1], 1, User, map[]))
  {
    LateStep1(); Guest1(); Guest2();
    steps := [BeginRun(0, 0, 0, true), AutoRegister(1), BeginRun(1, 1, 0, false)];
    PathGoes([BeginTwo, Run1(User, map[]), Guest(), Hosted([1], 1, User, map[])], steps);
  }

  lemma GuestEnds() returns (steps: seq<Step>)
    ensures Goes(Hosted([1], 1, User, map[]), steps, Hosted([1], 1, Joined, map[]))
  {
    Guest3(); Guest4(); Guest5();
    steps := [EndRoutine(1), LockJoin(1), JoinDone(1)];
    PathGoes([Hosted([1], 1, User, map[]), Hosted([1], 1, Joining, map[]), Hosted([1], 1, Waiting([]), map[1 := 1]),
              Hosted([1], 1, Joined, map[])], steps);
  }

  lemma GuestBack() returns (steps: seq<Step>)
    ensures Goes(Hosted([1], 1, Joined, map[]), steps, Back)
  {
    Guest6(); Guest7();
    steps := [Restore(1, true), Destroy(1)];
    PathGoes([Hosted([1], 1, Joined, map[]), Hosted([1, 1], 0, Left, map[]), Back], steps);
  }

  lemma BackReachable()
    ensures Reachable(Back)
  {
    var steps := GuestIn();
    var more := GuestEnds();
    steps := GoesOn(BeginTwo, steps, Hosted([1], 1, User, map[]), more, Hosted([1], 1, Joined, map[]));
    more := GuestBack();
    steps := GoesOn(BeginTwo, steps, Hosted([1], 1, Joined, map[]), more, Back);
    assert Init(BeginTwo);
  }

  // Thread 1, in user code with a filament, is neither tagged nor below an exception filter: if an
  // assertion fails there, nobody handles the exception.
  lemma LostTagExample()
    ensures Reachable(Back) && RunsUserCode(Back, 1) && Slot(Back, 1) == Some(0)
    ensures !Guarded(Back, 1) && !Tagged(Back, 1)
  {
    BackReachable();
  }
}
