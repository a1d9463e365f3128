/** Who can go on, and what those who cannot are waiting for. */
module FilamentProgress {
  import opened Prelude
  import opened FilamentTables
  import opened FilamentProtocol
  import opened FilamentTheorems

  // `t` can take a step without a call that fails.
  ghost predicate CanStep(s: State, t: ThreadId)
  {
    exists step :: Actor(step) == t && Enabled(s, step) && Works(step)
  }

  predicate Works(step: Step)
  {
    step.Restore? || step.EnlistChild? ==> step.handleOk
  }

  // `t` waits for the hand-off event of the thread it has created.
  predicate AwaitsChild(s: State, t: ThreadId)
  {
    t in s.threads && s.threads[t].control.Creating? && !s.threads[t].control.signalled
  }

  // `t` waits for the threads whose handles it has, one of which has not ended.
  ghost predicate AwaitsEnd(s: State, t: ThreadId)
  {
    && t in s.threads && s.threads[t].control.Waiting?
    && exists c :: c in s.threads[t].control.handles && !In(s, c, Ended)
  }

  // `t` waits for a child-list lock: to join its children, to be listed as a new child, or to be listed
  // again when it returns.
  ghost predicate AwaitsLock(s: State, t: ThreadId)
  {
    || (In(s, t, Joining) && Running(s, t) && Top(s, t).filament in s.locks)
    || (InStage(s, t, Copied) && HasParameters(s, t) && Parameters(s, t).filament in s.locks)
    || (&& In(s, t, Joined) && Running(s, t) && Known(s.tables, Top(s, t).previous)
        && !Admitted(s, t, Top(s, t).previous, true))
  }

  lemma UserSteps(s: State, t: ThreadId)
    requires Addressable(s) && In(s, t, User)
    ensures CanStep(s, t)
  {
    if Running(s, t) {
      assert Enabled(s, EndRoutine(t));
      assert Actor(EndRoutine(t)) == t && Works(EndRoutine(t));
    } else {
      assert Enabled(s, Finish(t));
      assert Actor(Finish(t)) == t && Works(Finish(t));
    }
  }

  lemma StartingSteps(s: State, c: ThreadId)
    requires Addressable(s) && c in s.threads && s.threads[c].control.Starting? && StartingAt(s, c)
    requires !AwaitsLock(s, c)
    ensures CanStep(s, c)
  {
    var step := match s.threads[c].control.stage
      case Spawned => CopyParameters(c)
      case Copied => EnlistChild(c, true)
      case Listed => InstallChild(c)
      case Installed => NotifyStart(c)
      case Notified => Signal(c)
      case Failed => Signal(c);
    assert Actor(step) == c && Enabled(s, step) && Works(step);
  }

  lemma RunSteps(s: State, t: ThreadId)
    requires Addressable(s) && Live(s, t) && ThreadOk(s, t)
    requires !s.threads[t].control.User? && !s.threads[t].control.Starting?
    requires !AwaitsChild(s, t) && !AwaitsEnd(s, t) && !AwaitsLock(s, t)
    ensures CanStep(s, t)
  {
    var step := match s.threads[t].control
      case Creating(_, _, _, _) => Wake(t)
      case Joining => LockJoin(t)
      case Waiting(_) => JoinDone(t)
      case Joined => Restore(t, true)
      case Left => Destroy(t)
      case _ => Exit(t);
    if step.Restore? {
      assert Known(s.tables, s.threads[t].frames[|s.threads[t].frames| - 1].previous);
    }
    assert Actor(step) == t && Enabled(s, step) && Works(step);
  }

  // In every reachable state each thread that has not ended can go on, unless it waits for the hand-off
  // event of its child, for the end of its children, or for a child-list lock.
  lemma WaitsIff(s: State, t: ThreadId)
    requires Reachable(s) && Live(s, t)
    ensures CanStep(s, t) <==> !AwaitsChild(s, t) && !AwaitsEnd(s, t) && !AwaitsLock(s, t)
  {
    ReachableInv(s);
    InvAddressable(s);
    assert ThreadOk(s, t);
    if AwaitsChild(s, t) || AwaitsEnd(s, t) || AwaitsLock(s, t) {
      forall step | Actor(step) == t && Works(step)
        ensures !Enabled(s, step)
      {
        WaiterStays(s, t, step);
      }
    } else if s.threads[t].control.User? {
      UserSteps(s, t);
    } else if s.threads[t].control.Starting? {
      StartingSteps(s, t);
    } else {
      RunSteps(s, t);
    }
  }

  lemma WaiterStays(s: State, t: ThreadId, step: Step)
    requires AwaitsChild(s, t) || AwaitsEnd(s, t) || AwaitsLock(s, t)
    requires t in s.threads && (s.threads[t].control.Starting? ==> StartingAt(s, t))
    requires Actor(step) == t && Works(step)
    ensures !Enabled(s, step)
  {
  }

  // What user code may do next: run a routine with a new filament, create a child if it has a filament,
  // call into cfix without one, and return from the innermost routine or, outside all of them, end.
  lemma UserChoices(s: State, t: ThreadId, f: FilamentId, c: ThreadId, context: ContextId, isDefault: bool)
    requires Reachable(s) && In(s, t, User)
    ensures Enabled(s, BeginRun(t, f, context, isDefault)) <==> f !in s.tables.filaments
    ensures Enabled(s, Create(t, c)) <==> Slot(s, t).Some? && c !in s.threads
    ensures Enabled(s, AutoRegister(t)) <==>
              && Slot(s, t).None? && s.tables.defaultFilament.Some?
              && var d := s.tables.defaultFilament.value;
                 d in s.tables.filaments && (d in s.locks ==> s.tables.filaments[d].main == t)
    ensures Enabled(s, EndRoutine(t)) <==> s.threads[t].frames != []
    ensures Enabled(s, Finish(t)) <==> s.threads[t].frames == []
  {
    ReachableInv(s);
    InvAddressable(s);
  }

  /* ---------------------------------------------------------------- who holds the locks */

  // `t` waits for the children of `f`.
  predicate Joins(s: State, t: ThreadId, f: FilamentId)
  {
    t in s.threads && s.threads[t].control.Waiting? && Running(s, t) && Top(s, t).filament == f
  }

  ghost predicate HeldAt(s: State, f: FilamentId)
  {
    f in s.locks ==> exists t :: Joins(s, t, f)
  }

  lemma JoinsStays(s: State, step: Step, t: ThreadId, f: FilamentId)
    requires Enabled(s, step) && Joins(s, t, f) && step != JoinDone(t)
    ensures Joins(Apply(s, step), t, f)
  {
    if HandsOff(step) {
      JoinsHandOff(s, step, t, f);
    } else {
      JoinsElsewhere(s, step, t, f);
    }
  }

  lemma JoinsHandOff(s: State, step: Step, t: ThreadId, f: FilamentId)
    requires Enabled(s, step) && Joins(s, t, f) && HandsOff(step)
    ensures Joins(Apply(s, step), t, f)
  {
  }

  lemma JoinsElsewhere(s: State, step: Step, t: ThreadId, f: FilamentId)
    requires Enabled(s, step) && Joins(s, t, f) && !HandsOff(step) && step != JoinDone(t)
    ensures Joins(Apply(s, step), t, f)
  {
  }

  lemma HeldStep(s: State, step: Step, f: FilamentId)
    requires Enabled(s, step) && HeldAt(s, f)
    ensures HeldAt(Apply(s, step), f)
  {
    if f in s.locks {
      var t :| Joins(s, t, f);
      if step != JoinDone(t) {
        JoinsStays(s, step, t, f);
      }
    } else if step.LockJoin? && Top(s, step.t).filament == f {
      assert Joins(DoLockJoin(s, step.t), step.t, f);
    }
  }

  lemma {:induction false} HeldRun(s: State, steps: seq<Step>, s': State, f: FilamentId)
    requires Run(s, steps, s') && HeldAt(s, f)
    ensures HeldAt(s', f)
    decreases |steps|
  {
    if steps != [] {
      HeldStep(s, steps[0], f);
      HeldRun(Apply(s, steps[0]), steps[1..], s', f);
    }
  }

  // In every reachable state a child-list lock is taken if and only if some thread is waiting for the
  // children of the filament.
  lemma LockTakenIff(s: State, f: FilamentId)
    requires Reachable(s)
    ensures f in s.locks <==> exists t :: Joins(s, t, f)
  {
    var s0, steps :| Init(s0) && Run(s0, steps, s) && OrderlyRun(s0, steps);
    HeldRun(s0, steps, s, f);
    ReachableInv(s);
    if t :| Joins(s, t, f) {
      assert ThreadOk(s, t);
    }
  }

  /* ---------------------------------------------------------------- the hand-off comes to an end */

  // The child that `t` waits for has been created by `t` and is still starting.
  predicate HandingAt(s: State, t: ThreadId)
  {
    AwaitsChild(s, t) ==>
      var c := s.threads[t].control.child;
      c in s.threads && s.threads[c].control.Starting? && s.threads[c].control.creator == t
  }

  lemma HandingStep(s: State, step: Step, t: ThreadId)
    requires Enabled(s, step) && HandingAt(s, t)
    ensures HandingAt(Apply(s, step), t)
  {
    if step.Create? {
      HandingCreate(s, step.t, step.c, t);
    } else if HandsOff(step) {
      HandingHandOff(s, step, t);
    } else {
      HandingElsewhere(s, step, t);
    }
  }

  lemma HandingHandOff(s: State, step: Step, t: ThreadId)
    requires Enabled(s, step) && HandingAt(s, t) && HandsOff(step)
    ensures HandingAt(Apply(s, step), t)
  {
  }

  lemma HandingElsewhere(s: State, step: Step, t: ThreadId)
    requires Enabled(s, step) && HandingAt(s, t) && !HandsOff(step) && !step.Create?
    ensures HandingAt(Apply(s, step), t)
  {
  }

  lemma HandingCreate(s: State, p: ThreadId, c: ThreadId, t: ThreadId)
    requires Enabled(s, Create(p, c)) && HandingAt(s, t)
    ensures HandingAt(DoCreate(s, p, c), t)
  {
  }

  lemma {:induction false} HandingRun(s: State, steps: seq<Step>, s': State, t: ThreadId)
    requires Run(s, steps, s') && HandingAt(s, t)
    ensures HandingAt(s', t)
    decreases |steps|
  {
    if steps != [] {
      HandingStep(s, steps[0], t);
      HandingRun(Apply(s, steps[0]), steps[1..], s', t);
    }
  }

  // Whoever waits for the hand-off waits for a thread that can go on, unless that one waits for the
  // child-list lock of the same filament.
  lemma HandOffGoesOn(s: State, t: ThreadId)
    requires Reachable(s) && AwaitsChild(s, t)
    ensures var params := s.threads[t].control;
      && params.child in s.threads && s.threads[params.child].control.Starting?
      && (CanStep(s, params.child) <==> !(InStage(s, params.child, Copied) && params.filament in s.locks))
  {
    var s0, steps :| Init(s0) && Run(s0, steps, s) && OrderlyRun(s0, steps);
    HandingRun(s0, steps, s, t);
    var c := s.threads[t].control.child;
    ReachableInv(s);
    assert ThreadOk(s, c);
    WaitsIff(s, c);
  }
}
