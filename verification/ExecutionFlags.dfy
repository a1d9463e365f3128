/** What the short-circuit flags mean for whole runs. */
module ExecutionFlags {
  import opened Execution

  ghost predicate Any(p: Event -> bool, w: seq<Event>)
  {
    exists i :: 0 <= i < |w| && p(w[i])
  }

  lemma AnyOne(p: Event -> bool, w: seq<Event>, e: Event)
    ensures Any(p, w + [e]) <==> Any(p, w) || p(e)
  {
    if Any(p, w) {
      var i :| 0 <= i < |w| && p(w[i]);
      assert (w + [e])[i] == w[i];
    }
    if p(e) {
      assert (w + [e])[|w|] == e;
    }
  }

  /* ---------------------------------------------------------------- when a run fails */

  predicate SetupExpected(hr: Hr) { hr == SetupRoutineFailed || hr == TestrunAborted }

  // Whether this result of a test case fails the fixture action
  predicate Stops(flags: Flags, r: Hr)
  {
    Failed(r) && (!Ordinary(r) || (flags.shortFixture && flags.escalate))
  }

  // The calls that make a run fail under these flags.  The failure of After counts only if the test
  // case itself has not failed.
  predicate Severe(o: Oracle, flags: Flags, e: Event)
  {
    match e
    case BeforeFixtureStart(_) => Failed(o(e))
    case Setup(_) => Failed(o(e)) && (flags.shortOnSetup || !SetupExpected(o(e)))
    case BeforeTestCaseStart(_, _) => Failed(o(e))
    case Before(_, _) => Stops(flags, o(e))
    case Test(_, _) => Stops(flags, o(e))
    case After(f, t) => !Failed(o(Test(f, t))) && Stops(flags, o(e))
    case Teardown(_) => Failed(o(e)) && flags.escalate
    case _ => false
  }

  // Whether `p` holds of a call that is made for a test case
  predicate InTest(o: Oracle, p: Event -> bool, f: nat, t: nat)
  {
    p(Before(f, t)) || (!Failed(o(Before(f, t))) && (p(Test(f, t)) || p(After(f, t))))
  }

  // `p` picks, for every phase of fixture `f`, the calls that make it fail.
  ghost predicate Decides(o: Oracle, flags: Flags, f: nat, p: Event -> bool)
  {
    && (p(BeforeFixtureStart(f)) <==> Failed(o(BeforeFixtureStart(f))))
    && (p(Setup(f)) <==> Severe(o, flags, Setup(f)))
    && (forall t :: p(BeforeTestCaseStart(f, t)) <==> Failed(o(BeforeTestCaseStart(f, t))))
    && (forall t :: InTest(o, p, f, t) <==> Stops(flags, TestResult(o, f, t)))
    && (p(Teardown(f)) <==> Severe(o, flags, Teardown(f)))
    && (forall t, ran :: !p(AfterTestCaseFinish(f, t, ran)))
    && (forall ran :: !p(AfterFixtureFinish(f, ran)))
  }

  lemma TestAny(o: Oracle, f: nat, t: nat, w: seq<Event>, p: Event -> bool)
    requires !Any(p, w)
    ensures Any(p, TestTrace(o, f, t, w)) <==> InTest(o, p, f, t)
  {
    AnyOne(p, w, Before(f, t));
    AnyOne(p, w + [Before(f, t)], Test(f, t));
    AnyOne(p, w + [Before(f, t)] + [Test(f, t)], After(f, t));
  }

  // The loop is failing exactly if `p` holds of a call.
  ghost predicate Tells(p: Event -> bool, l: Loop)
  {
    (Any(p, l.trace) <==> Failed(l.hr)) && (l.mode == Running ==> l.hr == Success)
  }

  lemma AddTestAny(o: Oracle, flags: Flags, f: nat, t: nat, l: Loop, p: Event -> bool)
    requires Decides(o, flags, f, p) && !Any(p, l.trace)
    ensures Tells(p, AddTest(o, flags, f, t, l))
  {
    var start := l.trace + [BeforeTestCaseStart(f, t)];
    AnyOne(p, l.trace, BeforeTestCaseStart(f, t));
    if !Failed(o(BeforeTestCaseStart(f, t))) {
      TestAny(o, f, t, start, p);
      assert InTest(o, p, f, t) <==> Stops(flags, TestResult(o, f, t));
      AnyOne(p, TestTrace(o, f, t, start), AfterTestCaseFinish(f, t, !Failed(TestResult(o, f, t))));
    }
  }

  lemma ConsiderAny(o: Oracle, a: Action, f: nat, t: nat, l: Loop, p: Event -> bool)
    requires Decides(o, a.flags, f, p) && Tells(p, l)
    ensures Tells(p, Consider(o, a, f, t, l))
  {
    if l.mode == Running {
      AddTestAny(o, a.flags, f, t, l, p);
    }
  }

  lemma {:induction false} LoopAny(o: Oracle, a: Action, f: nat, w: seq<Event>, n: nat, p: Event -> bool)
    requires Decides(o, a.flags, f, p) && !Any(p, w)
    ensures Tells(p, TestLoop(o, a, f, w, n))
  {
    if n > 0 {
      LoopAny(o, a, f, w, n - 1, p);
      ConsiderAny(o, a, f, n - 1, TestLoop(o, a, f, w, n - 1), p);
    }
  }

  lemma FixtureAny(o: Oracle, a: Action, f: nat, w: seq<Event>, p: Event -> bool)
    requires Decides(o, a.flags, f, p) && !Any(p, w)
    ensures Any(p, RunFixture(o, a, f, w).trace) <==> Failed(RunFixture(o, a, f, w).hr)
  {
    var start := w + [BeforeFixtureStart(f)];
    var ready := start + [Setup(f)];
    AnyOne(p, w, BeforeFixtureStart(f));
    if !Failed(o(BeforeFixtureStart(f))) {
      AnyOne(p, start, Setup(f));
      if SetupExpected(o(Setup(f))) {
        AnyOne(p, ready, AfterFixtureFinish(f, false));
      } else if !Failed(o(Setup(f))) {
        LoopAny(o, a, f, ready, a.tests, p);
        var l := TestLoop(o, a, f, ready, a.tests);
        AnyOne(p, l.trace, Teardown(f));
        AnyOne(p, l.trace + [Teardown(f)], AfterFixtureFinish(f, l.mode == Running && !Failed(o(Teardown(f)))));
      }
    }
  }

  lemma {:induction false} SequenceAny(o: Oracle, actions: seq<Action>, n: nat, p: Event -> bool)
    requires n <= |actions| && forall f :: 0 <= f < |actions| ==> Decides(o, actions[f].flags, f, p)
    ensures Any(p, RunSequence(o, actions, n).trace) <==> Failed(RunSequence(o, actions, n).hr)
  {
    if n > 0 {
      SequenceAny(o, actions, n - 1, p);
      if !Failed(RunSequence(o, actions, n - 1).hr) {
        assert Decides(o, actions[n - 1].flags, n - 1, p);
        FixtureAny(o, actions[n - 1], n - 1, RunSequence(o, actions, n - 1).trace, p);
      }
    }
  }

  function SevereIn(o: Oracle, actions: seq<Action>): Event -> bool
  {
    (e: Event) => e.f < |actions| && Severe(o, actions[e.f].flags, e)
  }

  lemma SevereDecides(o: Oracle, actions: seq<Action>, f: nat)
    requires f < |actions|
    ensures Decides(o, actions[f].flags, f, SevereIn(o, actions))
  {
    var p, flags := SevereIn(o, actions), actions[f].flags;
    forall t
      ensures InTest(o, p, f, t) <==> Stops(flags, TestResult(o, f, t))
    {
      assert p(Before(f, t)) <==> Stops(flags, o(Before(f, t)));
      assert p(Test(f, t)) <==> Stops(flags, o(Test(f, t)));
      assert p(After(f, t)) <==> !Failed(o(Test(f, t))) && Stops(flags, o(After(f, t)));
    }
  }

  // For any flags: a run fails if and only if a call was made that is severe under the flags of its
  // fixture.
  lemma {:induction false} FailsIff(o: Oracle, actions: seq<Action>)
    ensures var r := RunSequence(o, actions, |actions|);
      Failed(r.hr) <==> Any(SevereIn(o, actions), r.trace)
  {
    forall f | 0 <= f < |actions|
      ensures Decides(o, actions[f].flags, f, SevereIn(o, actions))
    {
      SevereDecides(o, actions, f);
    }
    SequenceAny(o, actions, |actions|, SevereIn(o, actions));
  }

  // CFIX_FIXTURE_EXECUTION_SHORTCIRCUIT_RUN_ON_FAILURE
  const RUN_ON_FAILURE := Flags(true, true, true)

  function FailedIn(o: Oracle): Event -> bool
  {
    (e: Event) => HasResult(e) && Failed(o(e))
  }

  // Under that flag a run fails if and only if any routine or callback that was called failed.
  lemma {:induction false} RunOnFailureIff(o: Oracle, actions: seq<Action>)
    requires forall f :: 0 <= f < |actions| ==> actions[f].flags == RUN_ON_FAILURE
    ensures var r := RunSequence(o, actions, |actions|);
      Failed(r.hr) <==> Any(FailedIn(o), r.trace)
  {
    var p := FailedIn(o);
    forall f | 0 <= f < |actions|
      ensures Decides(o, actions[f].flags, f, p)
    {
      assert actions[f].flags == RUN_ON_FAILURE;
      forall t, ran
        ensures !p(AfterTestCaseFinish(f, t, ran))
      {
        assert !HasResult(AfterTestCaseFinish(f, t, ran));
      }
      forall ran
        ensures !p(AfterFixtureFinish(f, ran))
      {
        assert !HasResult(AfterFixtureFinish(f, ran));
      }
    }
    SequenceAny(o, actions, |actions|, p);
  }

  /* ---------------------------------------------------------------- which failure counts */

  // The result of the last call that `p` picks
  function LastResult(o: Oracle, p: Event -> bool, w: seq<Event>): Hr
  {
    if w == [] then Success
    else if p(w[|w| - 1]) then o(w[|w| - 1])
    else LastResult(o, p, w[..|w| - 1])
  }

  lemma LastOne(o: Oracle, p: Event -> bool, w: seq<Event>, e: Event)
    ensures LastResult(o, p, w + [e]) == if p(e) then o(e) else LastResult(o, p, w)
  {
    assert (w + [e])[..|w|] == w;
  }

  // `p` picks the severe calls of fixture `f`.
  ghost predicate Picks(o: Oracle, flags: Flags, f: nat, p: Event -> bool)
  {
    forall e: Event :: e.f == f ==> (p(e) <==> Severe(o, flags, e))
  }

  lemma TestLast(o: Oracle, flags: Flags, f: nat, t: nat, w: seq<Event>, p: Event -> bool)
    requires Picks(o, flags, f, p) && LastResult(o, p, w) == Success
    ensures LastResult(o, p, TestTrace(o, f, t, w)) ==
              if Stops(flags, TestResult(o, f, t)) then TestResult(o, f, t) else Success
  {
    LastOne(o, p, w, Before(f, t));
    LastOne(o, p, w + [Before(f, t)], Test(f, t));
    LastOne(o, p, w + [Before(f, t)] + [Test(f, t)], After(f, t));
  }

  lemma AddTestLast(o: Oracle, flags: Flags, f: nat, t: nat, l: Loop, p: Event -> bool)
    requires Picks(o, flags, f, p) && LastResult(o, p, l.trace) == Success
    ensures LastResult(o, p, AddTest(o, flags, f, t, l).trace) == AddTest(o, flags, f, t, l).hr
  {
    var start := l.trace + [BeforeTestCaseStart(f, t)];
    LastOne(o, p, l.trace, BeforeTestCaseStart(f, t));
    if !Failed(o(BeforeTestCaseStart(f, t))) {
      TestLast(o, flags, f, t, start, p);
      LastOne(o, p, TestTrace(o, f, t, start), AfterTestCaseFinish(f, t, !Failed(TestResult(o, f, t))));
    }
  }

  lemma {:induction false} LoopLast(o: Oracle, a: Action, f: nat, w: seq<Event>, n: nat, p: Event -> bool)
    requires Picks(o, a.flags, f, p) && LastResult(o, p, w) == Success
    ensures var l := TestLoop(o, a, f, w, n);
      LastResult(o, p, l.trace) == l.hr && (l.mode == Running ==> l.hr == Success)
  {
    if n > 0 {
      LoopLast(o, a, f, w, n - 1, p);
      var l := TestLoop(o, a, f, w, n - 1);
      if l.mode == Running && Selected(a, n - 1) {
        AddTestLast(o, a.flags, f, n - 1, l, p);
      }
    }
  }

  lemma EndLast(o: Oracle, flags: Flags, f: nat, w: seq<Event>, p: Event -> bool, ran: bool)
    requires Picks(o, flags, f, p)
    ensures LastResult(o, p, w + [Teardown(f)] + [AfterFixtureFinish(f, ran)]) ==
              if Failed(o(Teardown(f))) && flags.escalate then o(Teardown(f)) else LastResult(o, p, w)
  {
    LastOne(o, p, w, Teardown(f));
    LastOne(o, p, w + [Teardown(f)], AfterFixtureFinish(f, ran));
  }

  lemma FixtureLast(o: Oracle, a: Action, f: nat, w: seq<Event>, p: Event -> bool)
    requires Picks(o, a.flags, f, p) && LastResult(o, p, w) == Success
    ensures LastResult(o, p, RunFixture(o, a, f, w).trace) == RunFixture(o, a, f, w).hr
  {
    var start := w + [BeforeFixtureStart(f)];
    var ready := start + [Setup(f)];
    LastOne(o, p, w, BeforeFixtureStart(f));
    if !Failed(o(BeforeFixtureStart(f))) {
      LastOne(o, p, start, Setup(f));
      if SetupExpected(o(Setup(f))) {
        LastOne(o, p, ready, AfterFixtureFinish(f, false));
      } else if !Failed(o(Setup(f))) {
        LoopLast(o, a, f, ready, a.tests, p);
        var l := TestLoop(o, a, f, ready, a.tests);
        EndLast(o, a.flags, f, l.trace, p, l.mode == Running && !Failed(o(Teardown(f))));
      }
    }
  }

  lemma {:induction false} SequenceLast(o: Oracle, actions: seq<Action>, n: nat)
    requires n <= |actions|
    ensures LastResult(o, SevereIn(o, actions), RunSequence(o, actions, n).trace) == RunSequence(o, actions, n).hr
  {
    if n > 0 {
      SequenceLast(o, actions, n - 1);
      if !Failed(RunSequence(o, actions, n - 1).hr) {
        FixtureLast(o, actions[n - 1], n - 1, RunSequence(o, actions, n - 1).trace, SevereIn(o, actions));
      }
    }
  }

  // The result of a run is that of the last severe call, that is, of the first call that fails in its
  // last test case unless Teardown fails as well and failures are escalated.
  lemma ResultIsLastSevere(o: Oracle, actions: seq<Action>)
    ensures var r := RunSequence(o, actions, |actions|);
      r.hr == LastResult(o, SevereIn(o, actions), r.trace)
  {
    SequenceLast(o, actions, |actions|);
  }

  /* ---------------------------------------------------------------- nothing starts after a failure */

  predicate Starts(e: Event) { e.BeforeTestCaseStart? || e.BeforeFixtureStart? }

  // After a call that `p` picks neither a test case nor a fixture is started.
  ghost predicate Halts(p: Event -> bool, w: seq<Event>)
  {
    forall i, j :: 0 <= i < j < |w| && p(w[i]) ==> !Starts(w[j])
  }

  lemma HaltsOne(p: Event -> bool, w: seq<Event>, e: Event)
    requires Halts(p, w) && (Any(p, w) ==> !Starts(e))
    ensures Halts(p, w + [e])
  {
    forall i, j | 0 <= i < j < |w| + 1 && p((w + [e])[i])
      ensures !Starts((w + [e])[j])
    {
      assert p(w[i]);
    }
  }

  lemma TestHalts(o: Oracle, f: nat, t: nat, w: seq<Event>, p: Event -> bool)
    requires Halts(p, w)
    ensures Halts(p, TestTrace(o, f, t, w))
  {
    HaltsOne(p, w, Before(f, t));
    HaltsOne(p, w + [Before(f, t)], Test(f, t));
    HaltsOne(p, w + [Before(f, t)] + [Test(f, t)], After(f, t));
  }

  lemma AddTestHalts(o: Oracle, flags: Flags, f: nat, t: nat, l: Loop, p: Event -> bool)
    requires Halts(p, l.trace) && !Any(p, l.trace)
    ensures Halts(p, AddTest(o, flags, f, t, l).trace)
  {
    var start := l.trace + [BeforeTestCaseStart(f, t)];
    HaltsOne(p, l.trace, BeforeTestCaseStart(f, t));
    TestHalts(o, f, t, start, p);
    HaltsOne(p, TestTrace(o, f, t, start), AfterTestCaseFinish(f, t, !Failed(TestResult(o, f, t))));
  }

  // `p` picks a call of the loop exactly if the loop does not go on.
  ghost predicate EndsLoop(o: Oracle, a: Action, f: nat, w: seq<Event>, p: Event -> bool)
  {
    forall n: nat :: TestLoop(o, a, f, w, n).mode == Running ==> !Any(p, TestLoop(o, a, f, w, n).trace)
  }

  lemma {:induction false} LoopHalts(o: Oracle, a: Action, f: nat, w: seq<Event>, n: nat, p: Event -> bool)
    requires Halts(p, w) && EndsLoop(o, a, f, w, p)
    ensures Halts(p, TestLoop(o, a, f, w, n).trace)
  {
    if n > 0 {
      LoopHalts(o, a, f, w, n - 1, p);
      var l := TestLoop(o, a, f, w, n - 1);
      if l.mode == Running && Selected(a, n - 1) {
        AddTestHalts(o, a.flags, f, n - 1, l, p);
      }
    }
  }

  lemma FixtureHalts(o: Oracle, a: Action, f: nat, w: seq<Event>, p: Event -> bool)
    requires Decides(o, a.flags, f, p) && Halts(p, w) && !Any(p, w)
    ensures Halts(p, RunFixture(o, a, f, w).trace)
  {
    var start := w + [BeforeFixtureStart(f)];
    var ready := start + [Setup(f)];
    HaltsOne(p, w, BeforeFixtureStart(f));
    HaltsOne(p, start, Setup(f));
    HaltsOne(p, ready, AfterFixtureFinish(f, false));
    if !Failed(o(BeforeFixtureStart(f))) && !Failed(o(Setup(f))) {
      AnyOne(p, w, BeforeFixtureStart(f));
      AnyOne(p, start, Setup(f));
      forall n: nat
        ensures TestLoop(o, a, f, ready, n).mode == Running ==> !Any(p, TestLoop(o, a, f, ready, n).trace)
      {
        LoopAny(o, a, f, ready, n, p);
      }
      LoopHalts(o, a, f, ready, a.tests, p);
      var l := TestLoop(o, a, f, ready, a.tests);
      HaltsOne(p, l.trace, Teardown(f));
      HaltsOne(p, l.trace + [Teardown(f)], AfterFixtureFinish(f, l.mode == Running && !Failed(o(Teardown(f)))));
    }
  }

  lemma {:induction false} SequenceHalts(o: Oracle, actions: seq<Action>, n: nat, p: Event -> bool)
    requires n <= |actions| && forall f :: 0 <= f < |actions| ==> Decides(o, actions[f].flags, f, p)
    ensures Halts(p, RunSequence(o, actions, n).trace)
  {
    if n > 0 {
      SequenceHalts(o, actions, n - 1, p);
      if !Failed(RunSequence(o, actions, n - 1).hr) {
        SequenceAny(o, actions, n - 1, p);
        assert Decides(o, actions[n - 1].flags, n - 1, p);
        FixtureHalts(o, actions[n - 1], n - 1, RunSequence(o, actions, n - 1).trace, p);
      }
    }
  }

  // After a severe call no test case and no fixture is started any more.
  lemma SevereHalts(o: Oracle, actions: seq<Action>)
    ensures Halts(SevereIn(o, actions), RunSequence(o, actions, |actions|).trace)
  {
    forall f | 0 <= f < |actions|
      ensures Decides(o, actions[f].flags, f, SevereIn(o, actions))
    {
      SevereDecides(o, actions, f);
    }
    SequenceHalts(o, actions, |actions|, SevereIn(o, actions));
  }

  // Whatever the flags are, an abort by Before, by a test case, or by After if the test case has not
  // failed ends the run: nothing is started any more, and the run fails.
  lemma AbortEndsRun(o: Oracle, actions: seq<Action>, i: nat)
    requires i < |RunSequence(o, actions, |actions|).trace|
    requires var e := RunSequence(o, actions, |actions|).trace[i];
      (e.Before? || e.Test? || (e.After? && !Failed(o(Test(e.f, e.t))))) && o(e) == TestrunAborted
    ensures var r := RunSequence(o, actions, |actions|);
      Failed(r.hr) && forall j :: i < j < |r.trace| ==> !Starts(r.trace[j])
  {
    var w := RunSequence(o, actions, |actions|).trace;
    SequenceBelow(o, actions, |actions|);
    assert !AtLeast(|actions|)(w[i]);
    assert SevereIn(o, actions)(w[i]);
    FailsIff(o, actions);
    SevereHalts(o, actions);
  }

  /* ---------------------------------------------------------------- nothing runs after a failure */

  function AtLeast(n: nat): Event -> bool
  {
    (e: Event) => e.f >= n
  }

  // No call for fixture `n` or a later one
  ghost predicate Below(w: seq<Event>, n: nat)
  {
    !Any(AtLeast(n), w)
  }

  lemma ConsiderBelow(o: Oracle, a: Action, f: nat, t: nat, l: Loop)
    requires Below(l.trace, f + 1)
    ensures Below(Consider(o, a, f, t, l).trace, f + 1)
  {
    var p := AtLeast(f + 1);
    var start := l.trace + [BeforeTestCaseStart(f, t)];
    AnyOne(p, l.trace, BeforeTestCaseStart(f, t));
    TestAny(o, f, t, start, p);
    AnyOne(p, TestTrace(o, f, t, start), AfterTestCaseFinish(f, t, !Failed(TestResult(o, f, t))));
  }

  lemma {:induction false} LoopBelow(o: Oracle, a: Action, f: nat, w: seq<Event>, n: nat)
    requires Below(w, f + 1)
    ensures Below(TestLoop(o, a, f, w, n).trace, f + 1)
  {
    if n > 0 {
      LoopBelow(o, a, f, w, n - 1);
      ConsiderBelow(o, a, f, n - 1, TestLoop(o, a, f, w, n - 1));
    }
  }

  lemma FixtureBelow(o: Oracle, a: Action, f: nat, w: seq<Event>)
    requires Below(w, f)
    ensures Below(RunFixture(o, a, f, w).trace, f + 1)
  {
    var p := AtLeast(f + 1);
    var start := w + [BeforeFixtureStart(f)];
    var ready := start + [Setup(f)];
    var l := TestLoop(o, a, f, ready, a.tests);
    assert Below(w, f + 1);
    AnyOne(p, w, BeforeFixtureStart(f));
    AnyOne(p, start, Setup(f));
    AnyOne(p, ready, AfterFixtureFinish(f, false));
    LoopBelow(o, a, f, ready, a.tests);
    AnyOne(p, l.trace, Teardown(f));
    AnyOne(p, l.trace + [Teardown(f)], AfterFixtureFinish(f, l.mode == Running && !Failed(o(Teardown(f)))));
  }

  lemma {:induction false} SequenceBelow(o: Oracle, actions: seq<Action>, n: nat)
    requires n <= |actions|
    ensures Below(RunSequence(o, actions, n).trace, n)
  {
    if n > 0 {
      SequenceBelow(o, actions, n - 1);
      if !Failed(RunSequence(o, actions, n - 1).hr) {
        FixtureBelow(o, actions[n - 1], n - 1, RunSequence(o, actions, n - 1).trace);
      }
    }
  }

  // Once the first `n` actions have failed, the run makes no call for any later fixture.
  lemma NoLaterFixture(o: Oracle, actions: seq<Action>, n: nat)
    requires n <= |actions| && Failed(RunSequence(o, actions, n).hr)
    ensures RunSequence(o, actions, |actions|) == RunSequence(o, actions, n)
    ensures forall i :: 0 <= i < |RunSequence(o, actions, |actions|).trace| ==>
              RunSequence(o, actions, |actions|).trace[i].f < n
  {
    SequenceStays(o, actions, n, |actions|);
    SequenceBelow(o, actions, n);
    forall i | 0 <= i < |RunSequence(o, actions, n).trace|
      ensures RunSequence(o, actions, n).trace[i].f < n
    {
      assert !AtLeast(n)(RunSequence(o, actions, n).trace[i]);
    }
  }

  /* ---------------------------------------------------------------- short-circuiting a fixture */

  lemma ConsiderExtends(o: Oracle, a: Action, f: nat, t: nat, p: Loop)
    ensures p.trace <= Consider(o, a, f, t, p).trace
  {
  }

  // With SHORTCIRCUIT_FIXTURE_ON_FAILURE the calls for test cases are a prefix of those without it;
  // they are the same as long as the loop is not cut.
  lemma {:induction false} ShortFixturePrefix(o: Oracle, a: Action, f: nat, w: seq<Event>, n: nat)
    requires a.flags.shortFixture
    ensures var long := TestLoop(o, a.(flags := a.flags.(shortFixture := false)), f, w, n);
      var short := TestLoop(o, a, f, w, n);
      && short.trace <= long.trace
      && (short.mode == Running ==> long == short)
  {
    if n > 0 {
      ShortFixturePrefix(o, a, f, w, n - 1);
      var b := a.(flags := a.flags.(shortFixture := false));
      ConsiderExtends(o, b, f, n - 1, TestLoop(o, b, f, w, n - 1));
    }
  }

  /* ---------------------------------------------------------------- RanToCompletion */

  // The calls that end the loop over the test cases
  predicate Cuts(o: Oracle, flags: Flags, e: Event)
  {
    match e
    case BeforeTestCaseStart(_, _) => Failed(o(e))
    case Before(_, _) => CutsShort(flags, o(e))
    case Test(_, _) => CutsShort(flags, o(e))
    case After(f, t) => !Failed(o(Test(f, t))) && CutsShort(flags, o(e))
    case _ => false
  }

  predicate CutsShort(flags: Flags, r: Hr) { Failed(r) && (!Ordinary(r) || flags.shortFixture) }

  function CutsIn(o: Oracle, flags: Flags): Event -> bool
  {
    (e: Event) => Cuts(o, flags, e)
  }

  lemma AddTestCut(o: Oracle, flags: Flags, f: nat, t: nat, l: Loop)
    requires !Any(CutsIn(o, flags), l.trace)
    ensures Any(CutsIn(o, flags), AddTest(o, flags, f, t, l).trace) <==> AddTest(o, flags, f, t, l).mode != Running
  {
    var p := CutsIn(o, flags);
    var start := l.trace + [BeforeTestCaseStart(f, t)];
    AnyOne(p, l.trace, BeforeTestCaseStart(f, t));
    if !Failed(o(BeforeTestCaseStart(f, t))) {
      TestAny(o, f, t, start, p);
      AnyOne(p, TestTrace(o, f, t, start), AfterTestCaseFinish(f, t, !Failed(TestResult(o, f, t))));
    }
  }

  lemma ConsiderCut(o: Oracle, a: Action, f: nat, t: nat, l: Loop)
    requires Any(CutsIn(o, a.flags), l.trace) <==> l.mode != Running
    ensures Any(CutsIn(o, a.flags), Consider(o, a, f, t, l).trace) <==> Consider(o, a, f, t, l).mode != Running
  {
    if l.mode == Running {
      AddTestCut(o, a.flags, f, t, l);
    }
  }

  lemma {:induction false} LoopCut(o: Oracle, a: Action, f: nat, w: seq<Event>, n: nat)
    requires !Any(CutsIn(o, a.flags), w)
    ensures Any(CutsIn(o, a.flags), TestLoop(o, a, f, w, n).trace) <==> TestLoop(o, a, f, w, n).mode != Running
  {
    if n > 0 {
      LoopCut(o, a, f, w, n - 1);
      ConsiderCut(o, a, f, n - 1, TestLoop(o, a, f, w, n - 1));
    }
  }

  // After the call that ends it the loop starts no test case any more.
  lemma CutHalts(o: Oracle, a: Action, f: nat, w: seq<Event>, n: nat)
    requires !Any(CutsIn(o, a.flags), w)
    ensures Halts(CutsIn(o, a.flags), TestLoop(o, a, f, w, n).trace)
  {
    var p := CutsIn(o, a.flags);
    assert forall i :: 0 <= i < |w| ==> !p(w[i]);
    forall m: nat
      ensures TestLoop(o, a, f, w, m).mode == Running ==> !Any(p, TestLoop(o, a, f, w, m).trace)
    {
      LoopCut(o, a, f, w, m);
    }
    LoopHalts(o, a, f, w, n, p);
  }

  // AfterFixtureFinish reports completion if and only if Setup and Teardown succeeded and no call
  // ended the loop over the test cases.
  lemma RanToCompletionIff(o: Oracle, a: Action, f: nat)
    ensures var w := RunFixture(o, a, f, []).trace;
      && w != []
      && (w[|w| - 1].AfterFixtureFinish? ==>
            (w[|w| - 1].ran <==>
              !Failed(o(Setup(f))) && !Failed(o(Teardown(f))) && !Any(CutsIn(o, a.flags), w)))
  {
    var p := CutsIn(o, a.flags);
    var start := [] + [BeforeFixtureStart(f)];
    var ready := start + [Setup(f)];
    AnyOne(p, [], BeforeFixtureStart(f));
    AnyOne(p, start, Setup(f));
    AnyOne(p, ready, AfterFixtureFinish(f, false));
    LoopCut(o, a, f, ready, a.tests);
    var l := TestLoop(o, a, f, ready, a.tests);
    AnyOne(p, l.trace, Teardown(f));
    AnyOne(p, l.trace + [Teardown(f)], AfterFixtureFinish(f, l.mode == Running && !Failed(o(Teardown(f)))));
    if !Failed(o(BeforeFixtureStart(f))) && !Failed(o(Setup(f))) {
      DeadEnds(o, a, f, ready, a.tests);
    }
  }

  lemma {:induction false} DeadEnds(o: Oracle, a: Action, f: nat, w: seq<Event>, n: nat)
    requires w != [] && !w[|w| - 1].AfterFixtureFinish?
    ensures var v := TestLoop(o, a, f, w, n).trace;
      v != [] && !v[|v| - 1].AfterFixtureFinish?
  {
    if n > 0 {
      DeadEnds(o, a, f, w, n - 1);
    }
  }

  // A loop that is not cut starts exactly the selected test cases.
  lemma {:induction false} StartsSelected(o: Oracle, a: Action, f: nat, w: seq<Event>, n: nat, t: nat)
    requires BeforeTestCaseStart(f, t) !in w
    ensures var l := TestLoop(o, a, f, w, n);
      && (BeforeTestCaseStart(f, t) in l.trace ==> t < n && (a.only == -1 || a.only == t))
      && (l.mode == Running && t < n && (a.only == -1 || a.only == t) ==> BeforeTestCaseStart(f, t) in l.trace)
  {
    if n > 0 {
      StartsSelected(o, a, f, w, n - 1, t);
      ConsiderMembers(o, a, f, n - 1, TestLoop(o, a, f, w, n - 1), t);
    }
  }

  lemma ConsiderMembers(o: Oracle, a: Action, f: nat, n: nat, p: Loop, t: nat)
    ensures BeforeTestCaseStart(f, t) in Consider(o, a, f, n, p).trace <==>
              BeforeTestCaseStart(f, t) in p.trace || (p.mode == Running && (a.only == -1 || a.only == n) && t == n)
    ensures Consider(o, a, f, n, p).mode == Running ==> p.mode == Running
  {
    AddTestMembers(o, a.flags, f, n, p, t);
  }

  lemma AddTestMembers(o: Oracle, flags: Flags, f: nat, n: nat, p: Loop, t: nat)
    ensures BeforeTestCaseStart(f, t) in AddTest(o, flags, f, n, p).trace <==>
              BeforeTestCaseStart(f, t) in p.trace || t == n
  {
    var start := p.trace + [BeforeTestCaseStart(f, n)];
    assert start[|p.trace|] == BeforeTestCaseStart(f, n);
  }
}
