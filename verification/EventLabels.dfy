/**
 cfix/cfix/eventemitter.c: the proxy that labels each reported event with the phase that raised it,
 without being told the phase.
 */
module EventLabels {
  import opened Prelude
  import opened Execution
  import opened ExecutionGrammar

  datatype Label = SetupLabel | TeardownLabel | CaseLabel(f: nat, t: nat)

  // CFIXP_EVENT_EMITTING_PROXY; a test case is identified by its fixture and its index
  datatype Proxy = Proxy(begun: bool, testCase: Option<(nat, nat)>, fixture: Option<nat>)

  // The effect of a call on the proxy; routines run without its notice.
  function Notice(p: Proxy, e: Event): Proxy
  {
    match e
    case BeforeFixtureStart(f) => p.(begun := false, fixture := Some(f))
    case BeforeTestCaseStart(f, t) => p.(begun := true, testCase := Some((f, t)))
    case AfterTestCaseFinish(_, _, _) => p.(testCase := None)
    case AfterFixtureFinish(_, _) => p.(fixture := None)
    case _ => p
  }

  function LabelOf(p: Proxy): Label
  {
    if p.testCase.Some? then CaseLabel(p.testCase.value.0, p.testCase.value.1)
    else if p.begun then TeardownLabel
    else SetupLabel
  }

  class EventEmittingProxy {
    var begun: bool
    var testCase: Option<(nat, nat)>
    var fixture: Option<nat>

    constructor ()
      ensures Value() == Fresh
    {
      begun, testCase, fixture := false, None, None;
    }

    ghost function Value(): Proxy
      reads this
    {
      Proxy(begun, testCase, fixture)
    }

    method BeforeFixture(f: nat)
      modifies this
      ensures Value() == Notice(old(Value()), BeforeFixtureStart(f))
      ensures fixture == Some(f) && !begun && testCase == old(testCase)
    {
      begun := false;
      fixture := Some(f);
    }

    method BeforeTestCase(f: nat, t: nat)
      modifies this
      ensures Value() == Notice(old(Value()), BeforeTestCaseStart(f, t))
      ensures testCase == Some((f, t)) && begun && fixture == old(fixture)
    {
      begun := true;
      testCase := Some((f, t));
    }

    method AfterFixture(f: nat, ran: bool)
      modifies this
      ensures Value() == Notice(old(Value()), AfterFixtureFinish(f, ran))
      ensures fixture == None && testCase == old(testCase) && begun == old(begun)
    {
      fixture := None;
    }

    method AfterTestCase(f: nat, t: nat, ran: bool)
      modifies this
      ensures Value() == Notice(old(Value()), AfterTestCaseFinish(f, t, ran))
      ensures testCase == None && fixture == old(fixture) && begun == old(begun)
    {
      testCase := None;
    }

    // The fixture and the label given to the sink
    method ReportEvent() returns (f: nat, name: Label)
      requires fixture.Some?
      ensures f == fixture.value && name == LabelOf(Value())
    {
      f := fixture.value;
      if testCase.Some? {
        name := CaseLabel(testCase.value.0, testCase.value.1);
      } else if begun {
        name := TeardownLabel;
      } else {
        name := SetupLabel;
      }
    }
  }

  const Fresh: Proxy := Proxy(false, None, None)

  // The proxy after the first `n` calls of a run
  function ProxyTo(w: seq<Event>, n: nat): Proxy
    requires n <= |w|
  {
    if n == 0 then Fresh else Notice(ProxyTo(w, n - 1), w[n - 1])
  }

  // The label that the events raised by a routine deserve
  function PhaseLabel(e: Event): Label
    requires IsRoutine(e)
  {
    match e
    case Setup(_) => SetupLabel
    case Teardown(_) => TeardownLabel
    case Before(f, t) => CaseLabel(f, t)
    case Test(f, t) => CaseLabel(f, t)
    case After(f, t) => CaseLabel(f, t)
  }

  /* ---------------------------------------------------------------- what the proxy knows */

  predicate InTestCase(s: State) { s.Entered? || s.Unprepared? || s.Prepared? || s.Tested? || s.Cleaned? }

  // A test case of fixture `f` has been started.
  ghost predicate Started(w: seq<Event>, n: nat, f: nat)
    requires n <= |w|
  {
    exists i :: 0 <= i < n && w[i].BeforeTestCaseStart? && w[i].f == f
  }

  // A BeforeTestCaseStart has failed.
  ghost predicate Declined(o: Oracle, w: seq<Event>, n: nat)
    requires n <= |w|
  {
    exists i :: 0 <= i < n && w[i].BeforeTestCaseStart? && Failed(o(w[i]))
  }

  predicate AfterRefusal(s: State) { s.Refused? || s.Leaving? || s.Halted? }

  ghost predicate Knows(o: Oracle, s: State, p: Proxy, w: seq<Event>, n: nat)
    requires n <= |w|
  {
    && (if Complete(s) then p.fixture == None else p.fixture == Some(s.f))
    && (InTestCase(s) ==> p.testCase == Some((s.f, s.t)))
    && (AfterRefusal(s) ==> p.testCase.Some?)
    && (!InTestCase(s) && !AfterRefusal(s) ==> p.testCase == None)
    && (AfterRefusal(s) <==> Declined(o, w, n))
    && (s.Begun? ==> !p.begun)
    && (!Complete(s) ==> (p.begun <==> Started(w, n, s.f)))
    && (forall i :: 0 <= i < n ==> if s.Idle? then w[i].f < s.next else w[i].f <= s.f)
  }

  lemma StartedOne(o: Oracle, w: seq<Event>, n: nat, f: nat)
    requires n < |w|
    ensures Started(w, n + 1, f) <==> Started(w, n, f) || (w[n].BeforeTestCaseStart? && w[n].f == f)
    ensures Declined(o, w, n + 1) <==> Declined(o, w, n) || (w[n].BeforeTestCaseStart? && Failed(o(w[n])))
  {
  }

  lemma KnowsStep(o: Oracle, s: State, p: Proxy, w: seq<Event>, n: nat, s': State)
    requires n < |w| && Knows(o, s, p, w, n) && Next(o, s, w[n]) == Some(s')
    ensures Knows(o, s', Notice(p, w[n]), w, n + 1)
  {
    StartedOne(o, w, n, Current(s));
  }

  lemma {:induction false} KnowsTo(o: Oracle, w: seq<Event>, n: nat)
    requires n <= |w| && DriveTo(o, w, n).Some?
    ensures Knows(o, DriveTo(o, w, n).value, ProxyTo(w, n), w, n)
  {
    if n > 0 {
      KnowsTo(o, w, n - 1);
      KnowsStep(o, DriveTo(o, w, n - 1).value, ProxyTo(w, n - 1), w, n - 1, DriveTo(o, w, n).value);
    }
  }

  ghost predicate Exact(o: Oracle, p: Proxy, w: seq<Event>, i: nat)
    requires i < |w| && IsRoutine(w[i])
  {
    && p.fixture == Some(w[i].f)
    && (LabelOf(p) == PhaseLabel(w[i]) <==> (w[i].Teardown? ==> Started(w, i, w[i].f) && !Declined(o, w, i)))
  }

  lemma ExactAt(o: Oracle, s: State, p: Proxy, w: seq<Event>, i: nat)
    requires i < |w| && Knows(o, s, p, w, i) && Next(o, s, w[i]).Some? && IsRoutine(w[i])
    ensures Exact(o, p, w, i)
  {
  }

  lemma ExactIn(o: Oracle, w: seq<Event>, i: nat)
    requires i < |w| && Drive(o, w).Some? && IsRoutine(w[i])
    ensures Exact(o, ProxyTo(w, i), w, i)
  {
    AcceptedTo(o, w, i + 1, |w|);
    KnowsTo(o, w, i);
    ExactAt(o, DriveTo(o, w, i).value, ProxyTo(w, i), w, i);
  }

  // In every run of a sequence, events are reported for the right fixture, and under the right label
  // except in a Teardown that no test case precedes or that follows a failed BeforeTestCaseStart.
  lemma LabelsExact(o: Oracle, actions: seq<Action>, i: nat)
    requires i < |RunSequence(o, actions, |actions|).trace|
    requires IsRoutine(RunSequence(o, actions, |actions|).trace[i])
    ensures var w := RunSequence(o, actions, |actions|).trace;
      && ProxyTo(w, i).fixture == Some(w[i].f)
      && (LabelOf(ProxyTo(w, i)) == PhaseLabel(w[i]) <==>
            (w[i].Teardown? ==> Started(w, i, w[i].f) && !Declined(o, w, i)))
  {
    SequenceGrammar(o, actions);
    ExactIn(o, RunSequence(o, actions, |actions|).trace, i);
  }

  // Between fixtures the proxy has none, and an event would have nowhere to go.
  lemma NoFixtureBetween(o: Oracle, actions: seq<Action>, i: nat)
    requires i < |RunSequence(o, actions, |actions|).trace|
    requires RunSequence(o, actions, |actions|).trace[i].BeforeFixtureStart?
    ensures ProxyTo(RunSequence(o, actions, |actions|).trace, i).fixture == None
  {
    SequenceGrammar(o, actions);
    NoFixtureIn(o, RunSequence(o, actions, |actions|).trace, i);
  }

  lemma NoFixtureIn(o: Oracle, w: seq<Event>, i: nat)
    requires i < |w| && Drive(o, w).Some? && w[i].BeforeFixtureStart?
    ensures ProxyTo(w, i).fixture == None
  {
    AcceptedTo(o, w, i + 1, |w|);
    KnowsTo(o, w, i);
  }

  // Two runs of one fixture: without test cases the events of Teardown bear the label of Setup, and
  // if the only test case is refused they bear its name.
  lemma MislabelledTeardownExamples(o: Oracle, flags: Flags)
    requires o(BeforeFixtureStart(0)) == o(Setup(0)) == Success && Failed(o(BeforeTestCaseStart(0, 0)))
    ensures var w := RunSequence(o, [Action(0, flags, -1)], 1).trace;
      |w| > 2 && w[2] == Teardown(0) && LabelOf(ProxyTo(w, 2)) == SetupLabel
    ensures var w := RunSequence(o, [Action(1, flags, -1)], 1).trace;
      |w| > 3 && w[3] == Teardown(0) && LabelOf(ProxyTo(w, 3)) == CaseLabel(0, 0)
  {
    var ready := [] + [BeforeFixtureStart(0)] + [Setup(0)];
    OneFixture(o, Action(0, flags, -1));
    var v := RunSequence(o, [Action(0, flags, -1)], 1).trace;
    assert v[0] == BeforeFixtureStart(0) && v[1] == Setup(0) && v[2] == Teardown(0);
    assert ProxyTo(v, 1) == Proxy(false, None, Some(0));

    var a := Action(1, flags, -1);
    OneFixture(o, a);
    assert TestLoop(o, a, 0, ready, 0) == Loop(Success, ready, Running);
    assert TestLoop(o, a, 0, ready, 1) == AddTest(o, flags, 0, 0, Loop(Success, ready, Running));
    var w := RunSequence(o, [a], 1).trace;
    assert w[0] == BeforeFixtureStart(0) && w[1] == Setup(0) && w[2] == BeforeTestCaseStart(0, 0);
    assert ProxyTo(w, 1) == Proxy(false, None, Some(0));
    assert ProxyTo(w, 2) == Proxy(false, None, Some(0));
  }

  lemma OneFixture(o: Oracle, a: Action)
    ensures RunSequence(o, [a], 1) == RunFixture(o, a, 0, [])
  {
    assert RunSequence(o, [a], 0) == Outcome(Success, []);
  }
}
