/**
 Running fixtures (cfix/cfix/tsexecaction.c) and sequences of them (cfix/cfix/sequenceaction.c),
 with the calls they make as a trace.  What a routine or a callback returns depends on its position.
 */
module Execution {

  // The HRESULTs that the control flow distinguishes; `Fatal` is any other failure.
  datatype Hr =
    | Success
    | SetupRoutineFailed | TeardownRoutineFailed | BeforeRoutineFailed | AfterRoutineFailed | TestRoutineFailed
    | TestrunAborted
    | Fatal(code: nat)

  predicate Failed(hr: Hr) { hr != Success }

  // A call made for fixture `f` of a run and for test case `t` of that fixture
  datatype Event =
    | BeforeFixtureStart(f: nat)
    | Setup(f: nat)
    | BeforeTestCaseStart(f: nat, t: nat)
    | Before(f: nat, t: nat)
    | Test(f: nat, t: nat)
    | After(f: nat, t: nat)
    | AfterTestCaseFinish(f: nat, t: nat, ran: bool)
    | Teardown(f: nat)
    | AfterFixtureFinish(f: nat, ran: bool)

  // The result of each call; the two After...Finish callbacks have none
  type Oracle = Event -> Hr

  predicate HasResult(e: Event) { !e.AfterTestCaseFinish? && !e.AfterFixtureFinish? }

  predicate IsRoutine(e: Event) { e.Setup? || e.Before? || e.Test? || e.After? || e.Teardown? }

  // CFIX_FIXTURE_EXECUTION_SHORTCIRCUIT_FIXTURE_ON_FAILURE, ..._RUN_ON_SETUP_FAILURE,
  // ..._ESCALATE_FIXTURE_FAILUES
  datatype Flags = Flags(shortFixture: bool, shortOnSetup: bool, escalate: bool)

  // TSEXEC_ACTION; `only` is TestCaseIndex, or -1
  datatype Action = Action(tests: nat, flags: Flags, only: int)

  predicate Selected(a: Action, t: nat) { a.only == -1 || a.only == t }

  /* ---------------------------------------------------------------- specification */

  // The three failures of a test case that need not end the fixture
  predicate Ordinary(hr: Hr)
  {
    hr == BeforeRoutineFailed || hr == AfterRoutineFailed || hr == TestRoutineFailed
  }

  predicate Lethal(hr: Hr) { Failed(hr) && !Ordinary(hr) && hr != TestrunAborted }

  function TestResult(o: Oracle, f: nat, t: nat): Hr
  {
    if Failed(o(Before(f, t))) then o(Before(f, t))
    else if Failed(o(Test(f, t))) then o(Test(f, t))
    else o(After(f, t))
  }

  // The calls of one test case, after those in `w`
  function TestTrace(o: Oracle, f: nat, t: nat, w: seq<Event>): seq<Event>
  {
    if Failed(o(Before(f, t))) then w + [Before(f, t)]
    else w + [Before(f, t)] + [Test(f, t)] + [After(f, t)]
  }

  datatype Mode = Running | Cut | Dead

  // The loop over the test cases: Hr, all calls so far, and whether the loop goes on
  datatype Loop = Loop(hr: Hr, trace: seq<Event>, mode: Mode)

  function AddTest(o: Oracle, flags: Flags, f: nat, t: nat, p: Loop): Loop
  {
    var start := p.trace + [BeforeTestCaseStart(f, t)];
    if Failed(o(BeforeTestCaseStart(f, t))) then Loop(o(BeforeTestCaseStart(f, t)), start, Cut)
    else
      var r := TestResult(o, f, t);
      var body := TestTrace(o, f, t, start);
      var whole := body + [AfterTestCaseFinish(f, t, !Failed(r))];
      if Lethal(r) then Loop(r, body, Dead)
      else if r == TestrunAborted then Loop(r, whole, Cut)
      else if Failed(r) && flags.shortFixture then Loop(if flags.escalate then r else Success, whole, Cut)
      else Loop(Success, whole, Running)
  }

  function Consider(o: Oracle, a: Action, f: nat, t: nat, p: Loop): Loop
  {
    if p.mode != Running || !Selected(a, t) then p else AddTest(o, a.flags, f, t, p)
  }

  // The loop after considering the first `n` test cases, begun after the calls in `w`
  function TestLoop(o: Oracle, a: Action, f: nat, w: seq<Event>, n: nat): Loop
  {
    if n == 0 then Loop(Success, w, Running)
    else Consider(o, a, f, n - 1, TestLoop(o, a, f, w, n - 1))
  }

  // The value a fixture action returns, and all calls made so far
  datatype Outcome = Outcome(hr: Hr, trace: seq<Event>)

  function RunFixture(o: Oracle, a: Action, f: nat, w: seq<Event>): Outcome
  {
    var start := w + [BeforeFixtureStart(f)];
    if Failed(o(BeforeFixtureStart(f))) then Outcome(o(BeforeFixtureStart(f)), start)
    else
      var setup := o(Setup(f));
      var ready := start + [Setup(f)];
      if setup == SetupRoutineFailed || setup == TestrunAborted then
        Outcome(if a.flags.shortOnSetup then setup else Success, ready + [AfterFixtureFinish(f, false)])
      else if Failed(setup) then Outcome(setup, ready)
      else
        var loop := TestLoop(o, a, f, ready, a.tests);
        if loop.mode == Dead then Outcome(loop.hr, loop.trace)
        else
          var teardown := o(Teardown(f));
          var ran := loop.mode == Running && !Failed(teardown);
          Outcome(if Failed(teardown) && a.flags.escalate then teardown else loop.hr,
                  loop.trace + [Teardown(f)] + [AfterFixtureFinish(f, ran)])
  }

  // The first `n` actions of a sequence, the first failure being the last action run
  function RunSequence(o: Oracle, actions: seq<Action>, n: nat): Outcome
    requires n <= |actions|
  {
    if n == 0 then Outcome(Success, [])
    else
      var p := RunSequence(o, actions, n - 1);
      if Failed(p.hr) then p else RunFixture(o, actions[n - 1], n - 1, p.trace)
  }

  /* ---------------------------------------------------------------- the code */

  // The execution context and the test module, as far as they are called
  class Context {
    const oracle: Oracle
    var trace: seq<Event>

    constructor (o: Oracle)
      ensures oracle == o && trace == []
    {
      oracle := o;
      trace := [];
    }

    method Call(e: Event) returns (hr: Hr)
      modifies this
      ensures trace == old(trace) + [e] && hr == oracle(e)
    {
      trace := trace + [e];
      hr := oracle(e);
    }

    method Notify(e: Event)
      modifies this
      ensures trace == old(trace) + [e]
    {
      trace := trace + [e];
    }

    // CfixsRunTestCaseFixtureExecutionAction
    method RunTestCase(f: nat, t: nat) returns (hr: Hr)
      modifies this
      ensures hr == TestResult(oracle, f, t) && trace == TestTrace(oracle, f, t, old(trace))
    {
      hr := Call(Before(f, t));
      if Failed(hr) {
        return;
      }
      var hrTestCase := Call(Test(f, t));
      hr := Call(After(f, t));
      if Failed(hr) {
        if Failed(hrTestCase) {
          hr := hrTestCase;
        }
        return;
      }
      hr := hrTestCase;
    }

    // The body of the loop over the test cases; `dead` if the fixture action returns at once
    method RunSelected(flags: Flags, f: nat, t: nat, ghost p: Loop) returns (hr: Hr, shortCircuit: bool, dead: bool)
      requires p.trace == trace
      modifies this
      ensures var next := AddTest(oracle, flags, f, t, p);
        && hr == next.hr && trace == next.trace
        && shortCircuit == (next.mode == Cut) && dead == (next.mode == Dead)
    {
      shortCircuit, dead := false, false;
      hr := Call(BeforeTestCaseStart(f, t));
      if Failed(hr) {
        shortCircuit := true;
        return;
      }
      hr := RunTestCase(f, t);
      var testCaseRanToCompletion := !Failed(hr);
      if Ordinary(hr) {
        if flags.shortFixture {
          shortCircuit := true;
          if !flags.escalate {
            hr := Success;
          }
        } else {
          hr := Success;
        }
      } else if hr == TestrunAborted {
        shortCircuit := true;
      } else if Failed(hr) {
        dead := true;
        return;
      }
      Notify(AfterTestCaseFinish(f, t, testCaseRanToCompletion));
    }

    // The loop over the test cases
    method RunTests(a: Action, f: nat) returns (hr: Hr, shortCircuit: bool, dead: bool)
      modifies this
      ensures var loop := TestLoop(oracle, a, f, old(trace), a.tests);
        && hr == loop.hr && trace == loop.trace
        && shortCircuit == (loop.mode == Cut) && dead == (loop.mode == Dead)
    {
      ghost var loop := Loop(Success, trace, Running);
      hr, shortCircuit, dead := Success, false, false;
      var index := 0;
      while !shortCircuit && index < a.tests
        invariant 0 <= index <= a.tests && shortCircuit == (loop.mode == Cut) && loop.mode != Dead
        invariant loop == TestLoop(oracle, a, f, old(trace), index) && hr == loop.hr && trace == loop.trace
      {
        if a.only != -1 && a.only != index {
          index := index + 1;
          continue;
        }
        hr, shortCircuit, dead := RunSelected(a.flags, f, index, loop);
        loop := AddTest(oracle, a.flags, f, index, loop);
        index := index + 1;
        if dead {
          LoopStays(oracle, a, f, old(trace), index, a.tests);
          return hr, false, true;
        }
      }
      LoopStays(oracle, a, f, old(trace), index, a.tests);
      dead := false;
    }

    // CfixsRunFixtureExecutionAction
    method Run(a: Action, f: nat) returns (hr: Hr)
      modifies this
      ensures Outcome(hr, trace) == RunFixture(oracle, a, f, old(trace))
    {
      var fixtureRanToCompletion := true;
      hr := Call(BeforeFixtureStart(f));
      if Failed(hr) {
        return;
      }
      hr := Call(Setup(f));
      if hr == SetupRoutineFailed || hr == TestrunAborted {
        fixtureRanToCompletion := false;
        if !a.flags.shortOnSetup {
          hr := Success;
        }
      } else if Failed(hr) {
        return;
      } else {
        var shortCircuit, dead;
        hr, shortCircuit, dead := RunTests(a, f);
        if dead {
          return;
        }
        fixtureRanToCompletion := !shortCircuit;
        var teardownHr := Call(Teardown(f));
        if Failed(teardownHr) {
          fixtureRanToCompletion := false;
          if a.flags.escalate {
            hr := teardownHr;
          }
        }
      }
      Notify(AfterFixtureFinish(f, fixtureRanToCompletion));
    }

    // The loop of CfixsRunSequenceAction over fixture actions
    method RunAll(actions: seq<Action>) returns (hr: Hr)
      requires trace == []
      modifies this
      ensures Outcome(hr, trace) == RunSequence(oracle, actions, |actions|)
    {
      hr := Success;
      var index := 0;
      while index < |actions|
        invariant 0 <= index <= |actions|
        invariant Outcome(hr, trace) == RunSequence(oracle, actions, index) && hr == Success
      {
        hr := Run(actions[index], index);
        index := index + 1;
        if Failed(hr) {
          SequenceStays(oracle, actions, index, |actions|);
          break;
        }
      }
    }
  }

  lemma {:induction false} LoopStays(o: Oracle, a: Action, f: nat, w: seq<Event>, m: nat, n: nat)
    requires m <= n && (TestLoop(o, a, f, w, m).mode != Running || m == n)
    ensures TestLoop(o, a, f, w, n) == TestLoop(o, a, f, w, m)
  {
    if m < n {
      LoopStays(o, a, f, w, m, n - 1);
    }
  }

  // After the first failure nothing else is run.
  lemma {:induction false} SequenceStays(o: Oracle, actions: seq<Action>, m: nat, n: nat)
    requires m <= n <= |actions| && Failed(RunSequence(o, actions, m).hr)
    ensures RunSequence(o, actions, n) == RunSequence(o, actions, m)
  {
    if m < n {
      SequenceStays(o, actions, m, n - 1);
    }
  }
}
