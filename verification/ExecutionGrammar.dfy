/** The order in which event sinks and routines are called (include/cfixevnt.h), for every run. */
module ExecutionGrammar {
  import opened Prelude
  import opened Execution

  /* ---------------------------------------------------------------- the documented order */

  // Where a run stands, seen from outside
  datatype State =
    | Idle(next: nat)              // between fixtures
    | Begun(f: nat)
    | Spoiled(f: nat)              // Setup failed
    | Ready(f: nat, t: nat)        // only test cases from `t` on may follow
    | Refused(f: nat)              // BeforeTestCaseStart failed
    | Entered(f: nat, t: nat)
    | Unprepared(f: nat, t: nat)   // Before failed
    | Prepared(f: nat, t: nat)
    | Tested(f: nat, t: nat)
    | Cleaned(f: nat, t: nat)
    | TornDown(f: nat)
    | Leaving(f: nat)              // TornDown after Refused
    | Halted(f: nat)               // the run ends with this fixture

  // (BeforeFixture Setup (BeforeTest Before Test After AfterTest)* Teardown AfterFixture)*, where
  // Test and After are left out if and only if Before fails, all test cases and Teardown if and
  // only if Setup fails, and nothing but the end of its fixture follows a BeforeTest that fails
  function Next(o: Oracle, s: State, e: Event): Option<State>
  {
    match s
    case Idle(f) => if e == BeforeFixtureStart(f) then Some(Begun(f)) else None
    case Begun(f) =>
      if e == Setup(f) then Some(if Failed(o(e)) then Spoiled(f) else Ready(f, 0)) else None
    case Spoiled(f) => if e == AfterFixtureFinish(f, false) then Some(Idle(f + 1)) else None
    case Ready(f, t) =>
      if e == Teardown(f) then Some(TornDown(f))
      else if e.BeforeTestCaseStart? && e.f == f && e.t >= t then
        Some(if Failed(o(e)) then Refused(f) else Entered(f, e.t))
      else None
    case Refused(f) => if e == Teardown(f) then Some(Leaving(f)) else None
    case Entered(f, t) =>
      if e == Before(f, t) then Some(if Failed(o(e)) then Unprepared(f, t) else Prepared(f, t)) else None
    case Unprepared(f, t) => if e == AfterTestCaseFinish(f, t, false) then Some(Ready(f, t + 1)) else None
    case Prepared(f, t) => if e == Test(f, t) then Some(Tested(f, t)) else None
    case Tested(f, t) => if e == After(f, t) then Some(Cleaned(f, t)) else None
    case Cleaned(f, t) =>
      if e == AfterTestCaseFinish(f, t, !Failed(o(Test(f, t))) && !Failed(o(After(f, t)))) then Some(Ready(f, t + 1))
      else None
    case TornDown(f) =>
      if e.AfterFixtureFinish? && e.f == f && (e.ran ==> !Failed(o(Teardown(f)))) then Some(Idle(f + 1)) else None
    case Leaving(f) => if e == AfterFixtureFinish(f, false) then Some(Halted(f)) else None
    case Halted(_) => None
  }

  function Advance(o: Oracle, s: Option<State>, e: Event): Option<State>
  {
    if s.None? then None else Next(o, s.value, e)
  }

  // The state after the first `n` calls in `w`, or None if their order is not the documented one
  function DriveTo(o: Oracle, w: seq<Event>, n: nat): Option<State>
    requires n <= |w|
  {
    if n == 0 then Some(Idle(0)) else Advance(o, DriveTo(o, w, n - 1), w[n - 1])
  }

  function Drive(o: Oracle, w: seq<Event>): Option<State>
  {
    DriveTo(o, w, |w|)
  }

  lemma {:induction false} DrivePrefix(o: Oracle, w: seq<Event>, w': seq<Event>, n: nat)
    requires n <= |w| && n <= |w'| && forall i :: 0 <= i < n ==> w[i] == w'[i]
    ensures DriveTo(o, w, n) == DriveTo(o, w', n)
  {
    if n > 0 {
      DrivePrefix(o, w, w', n - 1);
      assert w[n - 1] == w'[n - 1];
    }
  }

  lemma DriveOne(o: Oracle, w: seq<Event>, e: Event)
    requires Drive(o, w).Some?
    ensures Drive(o, w + [e]) == Next(o, Drive(o, w).value, e)
  {
    DrivePrefix(o, w + [e], w, |w|);
  }

  lemma {:induction false} AcceptedTo(o: Oracle, w: seq<Event>, m: nat, n: nat)
    requires m <= n <= |w| && DriveTo(o, w, n).Some?
    ensures DriveTo(o, w, m).Some?
  {
    if m < n {
      AcceptedTo(o, w, m, n - 1);
    }
  }

  /* ---------------------------------------------------------------- runs keep the order */

  lemma TestGrammar(o: Oracle, f: nat, t: nat, w: seq<Event>)
    requires Drive(o, w) == Some(Entered(f, t))
    ensures Drive(o, TestTrace(o, f, t, w)) ==
              Some(if Failed(o(Before(f, t))) then Unprepared(f, t) else Cleaned(f, t))
  {
    DriveOne(o, w, Before(f, t));
    if !Failed(o(Before(f, t))) {
      DriveOne(o, w + [Before(f, t)], Test(f, t));
      DriveOne(o, w + [Before(f, t)] + [Test(f, t)], After(f, t));
    }
  }

  ghost predicate LoopState(mode: Mode, s: State, f: nat, n: nat)
  {
    match mode
    case Running => s.Ready? && s.f == f && s.t <= n
    case Cut => (s.Ready? || s.Refused?) && s.f == f
    case Dead => (s.Unprepared? || s.Cleaned?) && s.f == f
  }

  ghost predicate LoopKeeps(o: Oracle, p: Loop, f: nat, n: nat)
  {
    && Drive(o, p.trace).Some? && LoopState(p.mode, Drive(o, p.trace).value, f, n)
    && (Drive(o, p.trace).value.Refused? ==> Failed(p.hr))
  }

  lemma AddTestGrammar(o: Oracle, flags: Flags, f: nat, t: nat, p: Loop)
    requires LoopKeeps(o, p, f, t) && p.mode == Running
    ensures LoopKeeps(o, AddTest(o, flags, f, t, p), f, t + 1)
  {
    var start := p.trace + [BeforeTestCaseStart(f, t)];
    DriveOne(o, p.trace, BeforeTestCaseStart(f, t));
    if Failed(o(BeforeTestCaseStart(f, t))) {
      assert AddTest(o, flags, f, t, p).trace == start;
    } else {
      var body := TestTrace(o, f, t, start);
      var last := AfterTestCaseFinish(f, t, !Failed(TestResult(o, f, t)));
      TestGrammar(o, f, t, start);
      DriveOne(o, body, last);
      assert Drive(o, body + [last]) == Some(Ready(f, t + 1));
      if Lethal(TestResult(o, f, t)) {
        assert AddTest(o, flags, f, t, p).trace == body;
      } else {
        assert AddTest(o, flags, f, t, p).trace == body + [last];
      }
    }
  }

  lemma ConsiderGrammar(o: Oracle, a: Action, f: nat, t: nat, p: Loop)
    requires LoopKeeps(o, p, f, t)
    ensures LoopKeeps(o, Consider(o, a, f, t, p), f, t + 1)
  {
    if p.mode == Running && Selected(a, t) {
      AddTestGrammar(o, a.flags, f, t, p);
    }
  }

  lemma {:induction false} LoopGrammar(o: Oracle, a: Action, f: nat, w: seq<Event>, n: nat)
    requires Drive(o, w) == Some(Ready(f, 0))
    ensures LoopKeeps(o, TestLoop(o, a, f, w, n), f, n)
  {
    if n > 0 {
      LoopGrammar(o, a, f, w, n - 1);
      ConsiderGrammar(o, a, f, n - 1, TestLoop(o, a, f, w, n - 1));
    }
  }

  // The calls after which a fixture action returns at once
  predicate Deadly(o: Oracle, e: Event)
  {
    match e
    case BeforeFixtureStart(_) => Failed(o(e))
    case Setup(_) => Failed(o(e)) && o(e) != SetupRoutineFailed && o(e) != TestrunAborted
    case Before(_, _) => Lethal(o(e))
    case Test(_, _) => Lethal(o(e))
    case After(f, t) => !Failed(o(Test(f, t))) && Lethal(o(e))
    case _ => false
  }

  ghost predicate AnyDeadly(o: Oracle, w: seq<Event>)
  {
    exists i :: 0 <= i < |w| && Deadly(o, w[i])
  }

  lemma AnyDeadlyOne(o: Oracle, w: seq<Event>, e: Event)
    ensures AnyDeadly(o, w + [e]) <==> AnyDeadly(o, w) || Deadly(o, e)
  {
    if AnyDeadly(o, w) {
      var i :| 0 <= i < |w| && Deadly(o, w[i]);
      assert (w + [e])[i] == w[i];
    }
    if Deadly(o, e) {
      assert (w + [e])[|w|] == e;
    }
  }

  lemma AddTestDeadly(o: Oracle, flags: Flags, f: nat, t: nat, p: Loop)
    requires !AnyDeadly(o, p.trace)
    ensures AnyDeadly(o, AddTest(o, flags, f, t, p).trace) <==> AddTest(o, flags, f, t, p).mode == Dead
  {
    var start := p.trace + [BeforeTestCaseStart(f, t)];
    AnyDeadlyOne(o, p.trace, BeforeTestCaseStart(f, t));
    AnyDeadlyOne(o, start, Before(f, t));
    AnyDeadlyOne(o, start + [Before(f, t)], Test(f, t));
    AnyDeadlyOne(o, start + [Before(f, t)] + [Test(f, t)], After(f, t));
    AnyDeadlyOne(o, TestTrace(o, f, t, start), AfterTestCaseFinish(f, t, !Failed(TestResult(o, f, t))));
  }

  lemma ConsiderDeadly(o: Oracle, a: Action, f: nat, t: nat, p: Loop)
    requires AnyDeadly(o, p.trace) <==> p.mode == Dead
    ensures AnyDeadly(o, Consider(o, a, f, t, p).trace) <==> Consider(o, a, f, t, p).mode == Dead
  {
    if p.mode == Running {
      AddTestDeadly(o, a.flags, f, t, p);
    }
  }

  lemma {:induction false} LoopDeadly(o: Oracle, a: Action, f: nat, w: seq<Event>, n: nat)
    requires !AnyDeadly(o, w)
    ensures AnyDeadly(o, TestLoop(o, a, f, w, n).trace) <==> TestLoop(o, a, f, w, n).mode == Dead
  {
    if n > 0 {
      LoopDeadly(o, a, f, w, n - 1);
      ConsiderDeadly(o, a, f, n - 1, TestLoop(o, a, f, w, n - 1));
    }
  }

  predicate Complete(s: State) { s.Idle? || s.Halted? }

  // The run so far keeps the order; it is cut off if a call was deadly, and unless it failed `n`
  // fixtures are done.
  ghost predicate Keeps(o: Oracle, r: Outcome, n: nat)
  {
    && Drive(o, r.trace).Some?
    && (Complete(Drive(o, r.trace).value) <==> !AnyDeadly(o, r.trace))
    && (AnyDeadly(o, r.trace) || Drive(o, r.trace).value.Halted? ==> Failed(r.hr))
    && (Drive(o, r.trace).value.Idle? ==> Drive(o, r.trace).value.next == n)
  }

  // A fixture action keeps the order, and it is cut off exactly by a deadly call.
  lemma FixtureGrammar(o: Oracle, a: Action, f: nat, w: seq<Event>)
    requires Drive(o, w) == Some(Idle(f)) && !AnyDeadly(o, w)
    ensures Keeps(o, RunFixture(o, a, f, w), f + 1)
  {
    var start := w + [BeforeFixtureStart(f)];
    DriveOne(o, w, BeforeFixtureStart(f));
    AnyDeadlyOne(o, w, BeforeFixtureStart(f));
    if !Failed(o(BeforeFixtureStart(f))) {
      var ready := start + [Setup(f)];
      DriveOne(o, start, Setup(f));
      AnyDeadlyOne(o, start, Setup(f));
      if o(Setup(f)) == SetupRoutineFailed || o(Setup(f)) == TestrunAborted {
        DriveOne(o, ready, AfterFixtureFinish(f, false));
        AnyDeadlyOne(o, ready, AfterFixtureFinish(f, false));
      } else if !Failed(o(Setup(f))) {
        LoopGrammar(o, a, f, ready, a.tests);
        LoopDeadly(o, a, f, ready, a.tests);
        DeadFails(o, a, f, ready, a.tests);
        var loop := TestLoop(o, a, f, ready, a.tests);
        if loop.mode != Dead {
          FinishGrammar(o, f, loop.trace, loop.mode == Running && !Failed(o(Teardown(f))));
        }
      }
    }
  }

  lemma {:induction false} DeadFails(o: Oracle, a: Action, f: nat, w: seq<Event>, n: nat)
    ensures TestLoop(o, a, f, w, n).mode == Dead ==> Failed(TestLoop(o, a, f, w, n).hr)
  {
    if n > 0 {
      DeadFails(o, a, f, w, n - 1);
    }
  }

  lemma FinishGrammar(o: Oracle, f: nat, w: seq<Event>, ran: bool)
    requires Drive(o, w).Some? && (Drive(o, w).value.Ready? || (Drive(o, w).value.Refused? && !ran))
    requires Drive(o, w).value.f == f && !AnyDeadly(o, w) && (ran ==> !Failed(o(Teardown(f))))
    ensures Drive(o, w + [Teardown(f)] + [AfterFixtureFinish(f, ran)]) ==
              Some(if Drive(o, w).value.Ready? then Idle(f + 1) else Halted(f))
    ensures !AnyDeadly(o, w + [Teardown(f)] + [AfterFixtureFinish(f, ran)])
  {
    DriveOne(o, w, Teardown(f));
    AnyDeadlyOne(o, w, Teardown(f));
    DriveOne(o, w + [Teardown(f)], AfterFixtureFinish(f, ran));
    AnyDeadlyOne(o, w + [Teardown(f)], AfterFixtureFinish(f, ran));
  }

  lemma {:induction false} SequenceGrammarTo(o: Oracle, actions: seq<Action>, n: nat) returns (m: nat)
    requires n <= |actions|
    ensures m <= n && Keeps(o, RunSequence(o, actions, n), m)
    ensures !Failed(RunSequence(o, actions, n).hr) ==> m == n
  {
    m := 0;
    if n > 0 {
      m := SequenceGrammarTo(o, actions, n - 1);
      if !Failed(RunSequence(o, actions, n - 1).hr) {
        FixtureGrammar(o, actions[n - 1], n - 1, RunSequence(o, actions, n - 1).trace);
        m := n;
      }
    }
  }

  // Every run of a sequence keeps the documented order; its last fixture is finished exactly if no
  // call was deadly, and if it succeeds all of its fixtures have been run.
  lemma {:induction false} SequenceGrammar(o: Oracle, actions: seq<Action>)
    ensures var r := RunSequence(o, actions, |actions|);
      && Drive(o, r.trace).Some?
      && (Complete(Drive(o, r.trace).value) <==> !AnyDeadly(o, r.trace))
      && (!Failed(r.hr) ==> Drive(o, r.trace) == Some(Idle(|actions|)))
  {
    var m := SequenceGrammarTo(o, actions, |actions|);
  }

  /* ---------------------------------------------------------------- cut-off runs are prefixes */

  // Calls that finish the current fixture
  function Rest(o: Oracle, s: State): seq<Event>
    decreases match s
              case Idle(_) => 0
              case Halted(_) => 0
              case Spoiled(_) => 1
              case TornDown(_) => 1
              case Leaving(_) => 1
              case Refused(_) => 2
              case Ready(_, _) => 2
              case Unprepared(_, _) => 3
              case Cleaned(_, _) => 3
              case Tested(_, _) => 4
              case Prepared(_, _) => 5
              case Entered(_, _) => 6
              case Begun(_) => 7
  {
    match s
    case Idle(_) => []
    case Halted(_) => []
    case Spoiled(f) => [AfterFixtureFinish(f, false)]
    case TornDown(f) => [AfterFixtureFinish(f, false)]
    case Leaving(f) => [AfterFixtureFinish(f, false)]
    case Refused(f) => [Teardown(f)] + Rest(o, Leaving(f))
    case Ready(f, t) => [Teardown(f)] + Rest(o, TornDown(f))
    case Unprepared(f, t) => [AfterTestCaseFinish(f, t, false)] + Rest(o, Ready(f, t + 1))
    case Cleaned(f, t) =>
      [AfterTestCaseFinish(f, t, !Failed(o(Test(f, t))) && !Failed(o(After(f, t))))] + Rest(o, Ready(f, t + 1))
    case Tested(f, t) => [After(f, t)] + Rest(o, Cleaned(f, t))
    case Prepared(f, t) => [Test(f, t)] + Rest(o, Tested(f, t))
    case Entered(f, t) =>
      [Before(f, t)] + Rest(o, if Failed(o(Before(f, t))) then Unprepared(f, t) else Prepared(f, t))
    case Begun(f) => [Setup(f)] + Rest(o, if Failed(o(Setup(f))) then Spoiled(f) else Ready(f, 0))
  }

  lemma RestStep(o: Oracle, s: State)
    requires Rest(o, s) != []
    ensures Next(o, s, Rest(o, s)[0]).Some? && Rest(o, Next(o, s, Rest(o, s)[0]).value) == Rest(o, s)[1..]
  {
  }

  // What has been called is always the beginning of a complete word of the grammar.
  lemma {:induction false} Completable(o: Oracle, w: seq<Event>)
    requires Drive(o, w).Some?
    ensures Drive(o, w + Rest(o, Drive(o, w).value)).Some?
    ensures Complete(Drive(o, w + Rest(o, Drive(o, w).value)).value)
    decreases |Rest(o, Drive(o, w).value)|
  {
    var rest := Rest(o, Drive(o, w).value);
    if rest == [] {
      assert w + rest == w;
    } else {
      RestStep(o, Drive(o, w).value);
      DriveOne(o, w, rest[0]);
      Completable(o, w + [rest[0]]);
      assert w + [rest[0]] + rest[1..] == w + rest;
    }
  }

  /* ---------------------------------------------------------------- what is left out */

  predicate InBody(s: State, f: nat)
  {
    match s
    case Ready(g, _) => g == f
    case Refused(g) => g == f
    case Entered(g, _) => g == f
    case Unprepared(g, _) => g == f
    case Prepared(g, _) => g == f
    case Tested(g, _) => g == f
    case Cleaned(g, _) => g == f
    case _ => false
  }

  // The fixture that the state is about, or the next one
  function Current(s: State): nat { if s.Idle? then s.next else s.f }

  // In fixture `f`, test case `t` has had its turn.
  predicate PastTest(s: State, f: nat, t: nat)
  {
    || s.Refused? || s.TornDown? || s.Leaving? || s.Halted?
    || (InBody(s, f) && if s.Ready? then t < s.t else t <= s.t)
  }

  // What has been called for a test case or a fixture is behind the state.
  predicate Past(s: State, w: seq<Event>, f: nat, t: nat)
  {
    && (Setup(f) in w ==> f < Current(s) || (f == Current(s) && !s.Idle? && !s.Begun?))
    && (BeforeTestCaseStart(f, t) in w ==>
          || f < Current(s)
          || (f == Current(s) && PastTest(s, f, t)))
  }

  // A routine is left out if and only if the one that guards it failed, unless it is still to come.
  predicate GuardedAt(o: Oracle, s: State, w: seq<Event>, f: nat, t: nat)
  {
    && (Test(f, t) in w <==> Before(f, t) in w && !Failed(o(Before(f, t))) && s != Prepared(f, t))
    && (After(f, t) in w <==> Test(f, t) in w && s != Tested(f, t))
    && (Teardown(f) in w <==> Setup(f) in w && !Failed(o(Setup(f))) && !InBody(s, f))
    && (BeforeTestCaseStart(f, t) in w ==> Setup(f) in w && !Failed(o(Setup(f))))
    && (Before(f, t) in w <==>
          BeforeTestCaseStart(f, t) in w && !Failed(o(BeforeTestCaseStart(f, t))) && s != Entered(f, t))
  }

  // The calls that led into the state
  predicate Reached(o: Oracle, s: State, w: seq<Event>)
  {
    && (InBody(s, Current(s)) ==> Setup(Current(s)) in w && !Failed(o(Setup(Current(s)))))
    && (s.Entered? ==> BeforeTestCaseStart(s.f, s.t) in w && !Failed(o(BeforeTestCaseStart(s.f, s.t))))
    && (s.Prepared? ==> Before(s.f, s.t) in w && !Failed(o(Before(s.f, s.t))))
    && (s.Tested? ==> Test(s.f, s.t) in w)
  }

  lemma GuardedStep(o: Oracle, s: State, w: seq<Event>, e: Event, s': State, f: nat, t: nat)
    requires Next(o, s, e) == Some(s') && Reached(o, s, w) && Past(s, w, f, t) && GuardedAt(o, s, w, f, t)
    ensures Past(s', w + [e], f, t) && GuardedAt(o, s', w + [e], f, t)
  {
    assert forall x :: x in w + [e] <==> x in w || x == e;
  }

  lemma ReachedStep(o: Oracle, s: State, w: seq<Event>, e: Event, s': State)
    requires Next(o, s, e) == Some(s') && Reached(o, s, w)
    ensures Reached(o, s', w + [e])
  {
    assert forall x :: x in w + [e] <==> x in w || x == e;
  }

  lemma {:induction false} GuardedTo(o: Oracle, w: seq<Event>, n: nat, f: nat, t: nat)
    requires n <= |w| && DriveTo(o, w, n).Some?
    ensures var s := DriveTo(o, w, n).value;
      Reached(o, s, w[..n]) && Past(s, w[..n], f, t) && GuardedAt(o, s, w[..n], f, t)
  {
    if n > 0 {
      GuardedTo(o, w, n - 1, f, t);
      assert w[..n] == w[..n - 1] + [w[n - 1]];
      var s, s' := DriveTo(o, w, n - 1).value, DriveTo(o, w, n).value;
      ReachedStep(o, s, w[..n - 1], w[n - 1], s');
      GuardedStep(o, s, w[..n - 1], w[n - 1], s', f, t);
    }
  }

  // In a run without deadly calls, for every fixture and test case: Test and After are called if and
  // only if Before is and succeeds, Before if and only if BeforeTestCaseStart is and succeeds, and
  // Teardown if and only if Setup is and succeeds, without which no test case is started.
  lemma {:induction false} LeftOutIff(o: Oracle, actions: seq<Action>, f: nat, t: nat)
    requires !AnyDeadly(o, RunSequence(o, actions, |actions|).trace)
    ensures var w := RunSequence(o, actions, |actions|).trace;
      && (Test(f, t) in w <==> Before(f, t) in w && !Failed(o(Before(f, t))))
      && (After(f, t) in w <==> Test(f, t) in w)
      && (Before(f, t) in w <==> BeforeTestCaseStart(f, t) in w && !Failed(o(BeforeTestCaseStart(f, t))))
      && (Teardown(f) in w <==> Setup(f) in w && !Failed(o(Setup(f))))
      && (BeforeTestCaseStart(f, t) in w ==> Teardown(f) in w)
  {
    var w := RunSequence(o, actions, |actions|).trace;
    SequenceGrammar(o, actions);
    GuardedTo(o, w, |w|, f, t);
    assert w[..|w|] == w;
  }
}
